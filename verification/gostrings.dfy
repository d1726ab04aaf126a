/**
 * Stand-ins for the pieces of Go's standard library that the adb output
 * parsers rely on: strings.Split with a one-character separator,
 * strings.Contains, strings.HasPrefix, strings.Trim and bytes.Trim,
 * strings.Index for one character, strconv.ParseInt in base 10 with a
 * 64-bit size, and path.Dir. Join, HasSuffix, TrimLeft, TrimRight and
 * LastIndexOf are helpers for stating and proving their properties; the
 * client calls none of them.
 */
module GoStrings {
  import opened Wrappers

  // ---------------------------------------------------------------------
  // strings.Split and its inverse

  /** strings.Split(s, sep) for a one-character separator: the pieces between
      consecutive separators; an empty string gives one empty piece. */
  function Split(s: string, sep: char): (r: seq<string>)
    ensures |r| >= 1
  {
    if |s| == 0 then [""]
    else
      var rest := Split(s[1..], sep);
      if s[0] == sep then [""] + rest
      else [[s[0]] + rest[0]] + rest[1..]
  }

  /** No piece of a split holds the separator. */
  lemma {:induction false} SplitPiecesLackSep(s: string, sep: char)
    ensures forall i :: 0 <= i < |Split(s, sep)| ==> sep !in Split(s, sep)[i]
  {
    if |s| > 0 {
      SplitPiecesLackSep(s[1..], sep);
      var rest := Split(s[1..], sep);
      if s[0] != sep {
        assert sep !in [s[0]] + rest[0];
      }
    }
  }

  /** strings.Join(parts, sep): the pieces with one separator between each. */
  function Join(parts: seq<string>, sep: char): string
  {
    if |parts| == 0 then ""
    else if |parts| == 1 then parts[0]
    else parts[0] + [sep] + Join(parts[1..], sep)
  }

  /** Joining the pieces of a split gives back the original text. */
  lemma {:induction false} JoinSplit(s: string, sep: char)
    ensures Join(Split(s, sep), sep) == s
  {
    if |s| > 0 {
      var rest := Split(s[1..], sep);
      JoinSplit(s[1..], sep);
      if s[0] == sep {
        assert ([""] + rest)[1..] == rest;
      } else {
        var first := [s[0]] + rest[0];
        if |rest| == 1 {
          assert [first] + rest[1..] == [first];
        } else {
          assert ([first] + rest[1..])[1..] == rest[1..];
          assert Join(rest, sep) == rest[0] + [sep] + Join(rest[1..], sep);
        }
      }
    }
  }

  /** A text without the separator is one piece. */
  lemma {:induction false} SplitWithoutSep(p: string, sep: char)
    requires sep !in p
    ensures Split(p, sep) == [p]
  {
    if |p| > 0 {
      SplitWithoutSep(p[1..], sep);
      assert [p[0]] + p[1..] == p;
    }
  }

  /** A separator-free head followed by a separator is split off as the first piece. */
  lemma {:induction false} SplitCons(p: string, sep: char, t: string)
    requires sep !in p
    ensures Split(p + [sep] + t, sep) == [p] + Split(t, sep)
  {
    if |p| == 0 {
      assert p + [sep] + t == [sep] + t;
      assert ([sep] + t)[1..] == t;
    } else {
      SplitCons(p[1..], sep, t);
      assert (p + [sep] + t)[1..] == p[1..] + [sep] + t;
      assert [p[0]] + p[1..] == p;
    }
  }

  /** Two separator-free pieces around one separator split back into the two. */
  lemma SplitPair(a: string, b: string, sep: char)
    requires sep !in a && sep !in b
    ensures Split(a + [sep] + b, sep) == [a, b]
  {
    SplitCons(a, sep, b);
    SplitWithoutSep(b, sep);
  }

  /** Three separator-free pieces joined by the separator split back into the three. */
  lemma SplitTriple(a: string, b: string, c: string, sep: char)
    requires sep !in a && sep !in b && sep !in c
    ensures Split(a + [sep] + b + [sep] + c, sep) == [a, b, c]
  {
    var t := b + [sep] + c;
    assert a + [sep] + b + [sep] + c == a + [sep] + t;
    SplitPair(b, c, sep);
    SplitCons(a, sep, t);
  }

  /** Four separator-free pieces joined by the separator split back into the four. */
  lemma SplitQuad(a: string, b: string, c: string, d: string, sep: char)
    requires sep !in a && sep !in b && sep !in c && sep !in d
    ensures Split(a + [sep] + b + [sep] + c + [sep] + d, sep) == [a, b, c, d]
  {
    var t := b + [sep] + c + [sep] + d;
    assert a + [sep] + b + [sep] + c + [sep] + d == a + [sep] + t;
    SplitTriple(b, c, d, sep);
    SplitCons(a, sep, t);
  }

  /** Between two separators, a piece free of the separator splits out as
      one piece; a piece that holds it splits into more. */
  lemma SplitQuoted(a: string, b: string, c: string, sep: char)
    requires sep !in a && sep !in c
    ensures sep !in b ==> Split(a + [sep] + b + [sep] + c, sep) == [a, b, c]
    ensures sep in b ==> |Split(a + [sep] + b + [sep] + c, sep)| > 3
  {
    if sep !in b {
      SplitTriple(a, b, c, sep);
    } else {
      SplitCount(a + [sep] + b + [sep] + c, sep);
      assert multiset(b)[sep] > 0;
    }
  }

  /** The first piece of a split is the text up to the first separator. */
  lemma SplitFirstPiece(p: string, t: string, sep: char)
    requires sep !in p && (t == [] || t[0] == sep)
    ensures Split(p + t, sep)[0] == p
  {
    if t == [] {
      assert p + t == p;
      SplitWithoutSep(p, sep);
    } else {
      assert p + t == p + [sep] + t[1..];
      SplitCons(p, sep, t[1..]);
    }
  }

  /** No piece holds the separator. */
  predicate SepFree(parts: seq<string>, sep: char)
  {
    forall i :: 0 <= i < |parts| ==> sep !in parts[i]
  }

  /** Splitting a join of separator-free pieces gives back the pieces. */
  lemma {:induction false} SplitJoin(parts: seq<string>, sep: char)
    requires |parts| >= 1
    requires SepFree(parts, sep)
    ensures Split(Join(parts, sep), sep) == parts
  {
    if |parts| == 1 {
      SplitWithoutSep(parts[0], sep);
    } else {
      SplitJoin(parts[1..], sep);
      SplitCons(parts[0], sep, Join(parts[1..], sep));
    }
  }

  /** A character absent from the text is absent from every piece of its split. */
  lemma {:induction false} SplitPiecesWithout(s: string, sep: char, c: char)
    requires c !in s
    ensures forall i :: 0 <= i < |Split(s, sep)| ==> c !in Split(s, sep)[i]
  {
    if |s| > 0 {
      SplitPiecesWithout(s[1..], sep, c);
      var rest := Split(s[1..], sep);
      assert c != s[0] && c !in rest[0];
      assert c !in [s[0]] + rest[0];
    }
  }

  /** There is one more piece than there are separators. */
  lemma {:induction false} SplitCount(s: string, sep: char)
    ensures |Split(s, sep)| == multiset(s)[sep] + 1
  {
    if |s| > 0 {
      SplitCount(s[1..], sep);
      assert s == [s[0]] + s[1..];
    }
  }

  // ---------------------------------------------------------------------
  // strings.HasPrefix, strings.HasSuffix, strings.Contains

  predicate HasPrefix(s: string, prefix: string)
  {
    |prefix| <= |s| && s[..|prefix|] == prefix
  }

  /** A text starts with what was put in front of it, and the rest follows. */
  lemma PrefixOfConcat(p: string, y: string)
    ensures HasPrefix(p + y, p) && (p + y)[|p|..] == y
  {
    assert (p + y)[..|p|] == p;
  }

  predicate HasSuffix(s: string, suffix: string)
  {
    |suffix| <= |s| && s[|s| - |suffix|..] == suffix
  }

  /** A text ends with what was put after it. */
  lemma SuffixOfConcat(x: string, q: string)
    ensures HasSuffix(x + q, q)
  {
    assert (x + q)[|x + q| - |q|..] == q;
  }

  /** strings.Contains: `sub` occurs somewhere in `s`. */
  predicate Contains(s: string, sub: string)
    decreases |s|
  {
    HasPrefix(s, sub) || (|s| > 0 && Contains(s[1..], sub))
  }

  /** `sub` occurs in `s` starting at index `i`. */
  predicate OccursAt(s: string, sub: string, i: int)
  {
    0 <= i <= |s| - |sub| && s[i..i + |sub|] == sub
  }

  /** Contains agrees with the positional reading: `sub` starts at some index of `s`. */
  lemma {:induction false} ContainsAt(s: string, sub: string)
    ensures Contains(s, sub) <==> exists i :: OccursAt(s, sub, i)
  {
    if HasPrefix(s, sub) {
      assert OccursAt(s, sub, 0);
    }
    if |s| > 0 {
      ContainsAt(s[1..], sub);
      if Contains(s[1..], sub) {
        var i :| OccursAt(s[1..], sub, i);
        assert OccursAt(s, sub, i + 1);
      }
      if exists i :: OccursAt(s, sub, i) {
        var i :| OccursAt(s, sub, i);
        if i > 0 {
          assert OccursAt(s[1..], sub, i - 1);
        }
      }
    } else if exists i :: OccursAt(s, sub, i) {
      var i :| OccursAt(s, sub, i);
      assert i == 0 && HasPrefix(s, sub);
    }
  }

  /** A non-empty pattern can only occur where its first character does. */
  lemma {:induction false} ContainsFirstChar(s: string, sub: string)
    requires |sub| > 0 && Contains(s, sub)
    ensures sub[0] in s
  {
    if !HasPrefix(s, sub) {
      ContainsFirstChar(s[1..], sub);
    } else {
      assert s[0] == sub[0];
    }
  }

  /** A one-character pattern occurs exactly when that character does. */
  lemma ContainsOneChar(s: string, c: char)
    ensures Contains(s, [c]) <==> c in s
  {
    if Contains(s, [c]) {
      ContainsFirstChar(s, [c]);
    }
    if c in s {
      var i :| 0 <= i < |s| && s[i] == c;
      assert OccursAt(s, [c], i);
      ContainsAt(s, [c]);
    }
  }

  // ---------------------------------------------------------------------
  // strings.TrimLeft, strings.TrimRight, strings.Trim

  /** strings.TrimLeft(s, cutset): drops every leading character found in `cutset`. */
  function TrimLeft(s: string, cutset: set<char>): (r: string)
    ensures |r| <= |s| && r == s[|s| - |r|..]
    ensures |r| > 0 ==> r[0] !in cutset
    ensures forall k :: 0 <= k < |s| - |r| ==> s[k] in cutset
  {
    if |s| > 0 && s[0] in cutset then
      var r := TrimLeft(s[1..], cutset);
      assert s[1..][|s| - 1 - |r|..] == s[|s| - |r|..];
      assert forall k :: 1 <= k < |s| - |r| ==> s[k] == s[1..][k - 1];
      r
    else s
  }

  /** strings.TrimRight(s, cutset): drops every trailing character found in `cutset`. */
  function TrimRight(s: string, cutset: set<char>): (r: string)
    ensures |r| <= |s| && r == s[..|r|]
    ensures |r| > 0 ==> r[|r| - 1] !in cutset
    ensures forall k :: |r| <= k < |s| ==> s[k] in cutset
  {
    if |s| > 0 && s[|s| - 1] in cutset then TrimRight(s[..|s| - 1], cutset) else s
  }

  /** strings.Trim(s, cutset): TrimLeft and TrimRight together. The result
      is the stretch of `s` left between two runs of cut characters, and it
      neither starts nor ends with one. */
  function Trim(s: string, cutset: set<char>): (r: string)
    ensures |r| > 0 ==> r[0] !in cutset && r[|r| - 1] !in cutset
    ensures exists k :: TrimmedAt(s, r, k, cutset)
  {
    TrimSpan(s, cutset);
    TrimRight(TrimLeft(s, cutset), cutset)
  }

  /** What TrimLeft and then TrimRight leave sits right after the cut
      characters TrimLeft dropped. */
  lemma TrimSpan(s: string, cutset: set<char>)
    ensures var l := TrimLeft(s, cutset);
            TrimmedAt(s, TrimRight(l, cutset), |s| - |l|, cutset)
  {
    var l := TrimLeft(s, cutset);
    var r := TrimRight(l, cutset);
    var k := |s| - |l|;
    assert AllIn(s[..k], cutset) by {
      forall i | 0 <= i < k
        ensures s[..k][i] in cutset
      {
      }
    }
    assert AllIn(l[|r|..], cutset) by {
      forall i | 0 <= i < |l| - |r|
        ensures l[|r|..][i] in cutset
      {
      }
    }
    SpanAt(s, l, r, k, cutset);
  }

  /** A piece of the text's tail that only cut characters follow, with only
      cut characters in front of that tail, is trimmed out at `k`. */
  lemma SpanAt(s: string, l: string, r: string, k: int, cutset: set<char>)
    requires 0 <= k <= |s| && l == s[k..] && |r| <= |l| && r == l[..|r|]
    requires AllIn(s[..k], cutset) && AllIn(l[|r|..], cutset)
    ensures TrimmedAt(s, r, k, cutset)
  {
    assert s[k..k + |r|] == s[k..][..|r|];
    assert s[k + |r|..] == l[|r|..];
  }

  /** `t` sits at index `k` of `s`, with only cut characters before and after it. */
  predicate TrimmedAt(s: string, t: string, k: int, cutset: set<char>)
  {
    0 <= k && k + |t| <= |s| && s[k..k + |t|] == t
    && AllIn(s[..k], cutset) && AllIn(s[k + |t|..], cutset)
  }

  /** A cut character in front of a text that starts outside the cutset is
      all that TrimLeft drops. */
  lemma TrimLeftOne(c: char, y: string, cutset: set<char>)
    requires c in cutset && (|y| == 0 || y[0] !in cutset)
    ensures TrimLeft([c] + y, cutset) == y
  {
    assert ([c] + y)[1..] == y;
  }

  /** Every character of `s` is in the cutset. */
  predicate AllIn(s: string, cutset: set<char>)
  {
    forall k :: 0 <= k < |s| ==> s[k] in cutset
  }

  /** TrimLeft drops a run of cut characters in front of a text that starts
      outside the cutset, and nothing more. */
  lemma {:induction false} TrimLeftPad(pad: string, x: string, cutset: set<char>)
    requires AllIn(pad, cutset) && (|x| == 0 || x[0] !in cutset)
    ensures TrimLeft(pad + x, cutset) == x
  {
    if |pad| > 0 {
      assert (pad + x)[1..] == pad[1..] + x;
      TrimLeftPad(pad[1..], x, cutset);
    } else {
      assert pad + x == x;
    }
  }

  /** TrimRight never cuts into a text that ends outside the cutset: it
      trims only what follows it. */
  lemma {:induction false} TrimRightAppend(x: string, y: string, cutset: set<char>)
    requires |x| > 0 && x[|x| - 1] !in cutset
    ensures TrimRight(x + y, cutset) == x + TrimRight(y, cutset)
  {
    if |y| == 0 {
      assert x + y == x;
    } else if y[|y| - 1] in cutset {
      var y' := y[..|y| - 1];
      assert (x + y)[..|x + y| - 1] == x + y';
      TrimRightAppend(x, y', cutset);
    }
  }

  /** Trim of a padded text that starts and ends outside the cutset, followed
      by more text, keeps that text whole and trims only what follows it. */
  lemma TrimKeeps(pad: string, core: string, rest: string, cutset: set<char>)
    requires AllIn(pad, cutset) && |core| > 0
    requires core[0] !in cutset && core[|core| - 1] !in cutset
    ensures Trim(pad + core + rest, cutset) == core + TrimRight(rest, cutset)
  {
    var x := core + rest;
    assert pad + core + rest == pad + x;
    assert x[0] == core[0];
    TrimLeftPad(pad, x, cutset);
    TrimRightAppend(core, rest, cutset);
  }

  /** A text that starts and ends outside the cutset is left as it is. */
  lemma TrimUnchanged(s: string, cutset: set<char>)
    requires |s| > 0 ==> s[0] !in cutset && s[|s| - 1] !in cutset
    ensures Trim(s, cutset) == s
  {
  }

  // ---------------------------------------------------------------------
  // strings.Index and strings.LastIndex for one character

  /** strings.Index(s, string(c)): the first index of `c`, or -1. */
  function IndexOf(s: string, c: char): (i: int)
    ensures -1 <= i < |s|
    ensures i == -1 <==> c !in s
    ensures i >= 0 ==> s[i] == c && c !in s[..i]
  {
    if |s| == 0 then -1
    else if s[0] == c then 0
    else
      var j := IndexOf(s[1..], c);
      assert j >= 0 ==> s[..j + 1] == [s[0]] + s[1..][..j];
      if j < 0 then -1 else j + 1
  }

  /** The first `c` is the one right after a prefix free of `c`. */
  lemma IndexOfAfter(a: string, c: char, rest: string)
    requires c !in a
    ensures IndexOf(a + [c] + rest, c) == |a|
  {
    var s := a + [c] + rest;
    var i := IndexOf(s, c);
    assert s[|a|] == c;
    assert forall k :: 0 <= k < |a| ==> s[k] == a[k];
    assert forall k :: 0 <= k < i ==> s[k] == s[..i][k];
  }

  /** strings.LastIndex(s, string(c)): the last index of `c`, or -1. */
  function LastIndexOf(s: string, c: char): (i: int)
    ensures -1 <= i < |s|
    ensures i == -1 <==> c !in s
    ensures i >= 0 ==> s[i] == c && c !in s[i + 1..]
  {
    if |s| == 0 then -1
    else if s[|s| - 1] == c then |s| - 1
    else
      var t := s[..|s| - 1];
      var j := LastIndexOf(t, c);
      assert s == t + [s[|s| - 1]];
      assert j >= 0 ==> s[j] == t[j] && s[j + 1..] == t[j + 1..] + [s[|s| - 1]];
      j
  }

  // ---------------------------------------------------------------------
  // strconv.ParseInt(s, 10, 64) and its decimal inverse

  const MinInt64: int := -0x8000_0000_0000_0000
  const MaxInt64: int := 0x7fff_ffff_ffff_ffff

  predicate IsDigit(c: char)
  {
    '0' <= c <= '9'
  }

  predicate AllDigits(s: string)
  {
    forall i :: 0 <= i < |s| ==> IsDigit(s[i])
  }

  /** The value of a string of decimal digits, most significant first. */
  function DigitsValue(s: string): nat
    requires AllDigits(s)
  {
    if |s| == 0 then 0
    else DigitsValue(s[..|s| - 1]) * 10 + (s[|s| - 1] as int - '0' as int)
  }

  /** strconv.ParseInt(s, 10, 64): an optional sign, one or more decimal
      digits, and a value that fits in 64 bits; anything else is an error. */
  function ParseInt(s: string): (r: Option<int>)
    ensures r.Some? ==> MinInt64 <= r.value <= MaxInt64
    ensures r.Some? ==> |s| > 0 && AllDigits(if s[0] == '+' || s[0] == '-' then s[1..] else s)
  {
    var digits := if |s| > 0 && (s[0] == '+' || s[0] == '-') then s[1..] else s;
    if |digits| == 0 || !AllDigits(digits) then None
    else
      var magnitude: int := DigitsValue(digits);
      var v := if s[0] == '-' then -magnitude else magnitude;
      if MinInt64 <= v <= MaxInt64 then Some(v) else None
  }

  /** The decimal digit for 0 <= d < 10. */
  function DigitChar(d: nat): char
    requires d < 10
  {
    ('0' as int + d) as char
  }

  /** The decimal rendering of a natural number, as fmt's %d prints it. */
  function Decimal(n: nat): (r: string)
    ensures |r| > 0 && AllDigits(r)
  {
    if n < 10 then [DigitChar(n)] else Decimal(n / 10) + [DigitChar(n % 10)]
  }

  /** Reading back a rendered number gives the number. */
  lemma {:induction false} DecimalValue(n: nat)
    ensures DigitsValue(Decimal(n)) == n
  {
    if n >= 10 {
      DecimalValue(n / 10);
      var d := Decimal(n);
      assert d[..|d| - 1] == Decimal(n / 10);
    }
  }

  /** fmt's %d for any integer: a minus sign before the digits of a negative value. */
  function FormatInt(n: int): (r: string)
    ensures forall k :: 0 <= k < |r| ==> IsDigit(r[k]) || r[k] == '-'
  {
    if n < 0 then "-" + Decimal(-n) else Decimal(n)
  }

  /** ParseInt inverts %d on every 64-bit value. */
  lemma ParseFormatInt(n: int)
    requires MinInt64 <= n <= MaxInt64
    ensures ParseInt(FormatInt(n)) == Some(n)
  {
    if n < 0 {
      DecimalValue(-n);
      ParseNegative(Decimal(-n));
    } else {
      ParseDecimal(n);
    }
  }

  /** ParseInt inverts the decimal rendering of every non-negative 64-bit value. */
  lemma ParseDecimal(n: nat)
    requires n <= MaxInt64
    ensures ParseInt(Decimal(n)) == Some(n)
  {
    DecimalValue(n);
    ParseDigits(Decimal(n));
  }

  /** Digits alone read as their value when it fits in 64 bits. */
  lemma ParseDigits(d: string)
    requires |d| > 0 && AllDigits(d) && DigitsValue(d) <= MaxInt64
    ensures ParseInt(d) == Some(DigitsValue(d))
  {
    assert IsDigit(d[0]);
  }

  /** A minus sign and digits read as the negated value when it fits in 64 bits. */
  lemma ParseNegative(d: string)
    requires |d| > 0 && AllDigits(d) && DigitsValue(d) <= -MinInt64
    ensures ParseInt("-" + d) == Some(-(DigitsValue(d) as int))
  {
    assert ("-" + d)[1..] == d;
  }

  // ---------------------------------------------------------------------
  // path.Dir

  /** path.Dir(p): everything before the last slash with trailing slashes
      removed, "/" when that leaves nothing, "." when there is no slash. */
  function PathDir(p: string): (d: string)
    ensures '/' !in p ==> d == "."
    ensures '/' in p ==> d == "/" || (0 < |d| < |p| && HasPrefix(p, d) && d[|d| - 1] != '/')
    ensures '/' in p && d == "/" ==> AllIn(p[..LastIndexOf(p, '/') + 1], {'/'})
    ensures '/' in p && d != "/" ==>
              |d| <= LastIndexOf(p, '/') && AllIn(p[|d|..LastIndexOf(p, '/') + 1], {'/'})
  {
    var i := LastIndexOf(p, '/');
    if i < 0 then "."
    else
      var d := TrimRight(p[..i], {'/'});
      if d == "" then "/" else d
  }

  /** Every character of path.Dir(p) other than '.' and '/' comes from p. */
  lemma PathDirChars(p: string, c: char)
    requires c != '.' && c != '/'
    ensures c in PathDir(p) ==> c in p
  {
    var d := PathDir(p);
    if c in d && d != "." && d != "/" {
      assert p[..|d|] == d;
    }
  }
}
