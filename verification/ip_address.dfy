/**
 * GetIPAddress: the device's address from `ifconfig`, with `netcfg` as the
 * second source. Both commands run through Shell, whose output is the
 * standard output with carriage returns, line feeds and spaces trimmed from
 * both ends, and "" when the run failed.
 *
 * The scan of `netcfg` returns the variable that holds the `ifconfig` result
 * ("" at that point) instead of the address it found, so the second source
 * never changes the answer. GetIPAddress models the code as it is written;
 * GetIPAddressIntended returns the address found, and the lemmas below set
 * the two side by side.
 */
module IpAddress {
  import opened Wrappers
  import opened GoStrings
  import opened AdbTypes

  /** The characters Shell trims from both ends of an output. */
  const ShellCutset: set<char> := {'\r', '\n', ' '}

  /** What Shell hands back for one run: "" when the run failed, and
      otherwise its output with the carriage returns, line ends and spaces
      at both ends cut off. */
  function ShellOutput(c: Cmd): (out: string)
    ensures c.failure.Some? ==> out == ""
    ensures c.failure.None? ==> exists k :: TrimmedAt(c.stdout, out, k, ShellCutset)
    ensures |out| > 0 ==> out[0] !in ShellCutset && out[|out| - 1] !in ShellCutset
  {
    if c.failure.Some? then "" else Trim(c.stdout, ShellCutset)
  }

  // =====================================================================
  // The first hit of a scan

  /** What `scan` yields for the first element for which it yields anything. */
  function FirstSome(xs: seq<string>, scan: string -> Option<string>): Option<string>
  {
    if |xs| == 0 then None
    else if scan(xs[0]).Some? then scan(xs[0])
    else FirstSome(xs[1..], scan)
  }

  /** `scan` yields nothing for any element. */
  predicate NoneYield(xs: seq<string>, scan: string -> Option<string>)
  {
    forall i :: 0 <= i < |xs| ==> scan(xs[i]).None?
  }

  /** Element `i` is the first for which `scan` yields anything, and it
      yields `v`. */
  predicate FirstYield(xs: seq<string>, scan: string -> Option<string>, i: int, v: string)
  {
    0 <= i < |xs| && scan(xs[i]) == Some(v) && NoneYield(xs[..i], scan)
  }

  lemma NoneYieldCons(xs: seq<string>, scan: string -> Option<string>)
    requires |xs| > 0
    ensures NoneYield(xs, scan) <==> scan(xs[0]).None? && NoneYield(xs[1..], scan)
  {
    assert forall i :: 1 <= i < |xs| ==> xs[i] == xs[1..][i - 1];
  }

  /** The scan comes up empty exactly when no element yields anything. */
  lemma {:induction false} FirstSomeNone(xs: seq<string>, scan: string -> Option<string>)
    ensures FirstSome(xs, scan).None? <==> NoneYield(xs, scan)
  {
    if |xs| > 0 {
      NoneYieldCons(xs, scan);
      FirstSomeNone(xs[1..], scan);
    }
  }

  /** Otherwise it gives what the first yielding element yields. */
  lemma {:induction false} FirstSomeFirst(xs: seq<string>, scan: string -> Option<string>)
    ensures FirstSome(xs, scan).Some? ==> exists i :: FirstYield(xs, scan, i, FirstSome(xs, scan).value)
  {
    if |xs| > 0 {
      if scan(xs[0]).Some? {
        assert xs[..0] == [];
        assert FirstYield(xs, scan, 0, scan(xs[0]).value);
      } else {
        var tail := xs[1..];
        FirstSomeFirst(tail, scan);
        if FirstSome(tail, scan).Some? {
          var v := FirstSome(tail, scan).value;
          var i :| FirstYield(tail, scan, i, v);
          var prefix := xs[..i + 1];
          assert prefix[0] == xs[0];
          assert prefix[1..] == tail[..i];
          NoneYieldCons(prefix, scan);
          assert xs[i + 1] == tail[i];
          assert FirstYield(xs, scan, i + 1, v);
        }
      }
    }
  }

  // =====================================================================
  // ifconfig

  /** The characters trimmed from an ifconfig line before it is scanned. */
  const LineBlanks: set<char> := {' ', '\t'}

  /** The space characters of fmt's scanner that can occur inside one line. */
  const ScanSpaces: set<char> := {' ', '\t', '\r', '\n'}

  /** A line worth scanning: it mentions "inet " and none of the loopback,
      unspecified or 172.* addresses. */
  predicate Candidate(line: string)
  {
    && Contains(line, "inet ")
    && !Contains(line, "127.0.0.1")
    && !Contains(line, "0.0.0.0")
    && !Contains(line, ":172.")
  }

  /** A word: non-empty and free of the scanner's spaces. */
  predicate IsWord(w: string)
  {
    w != "" && forall k :: 0 <= k < |w| ==> w[k] !in ScanSpaces
  }

  /** The leading run of non-space characters, as a %s verb reads it. */
  function Word(s: string): (w: string)
    ensures |w| <= |s| && w == s[..|w|]
    ensures forall k :: 0 <= k < |w| ==> w[k] !in ScanSpaces
    ensures |w| < |s| ==> s[|w|] in ScanSpaces
  {
    if |s| == 0 || s[0] in ScanSpaces then "" else [s[0]] + Word(s[1..])
  }

  /** fmt.Sscanf(t, "inet addr:%s ", &ip): the literal "inet", one or more
      spaces, the literal "addr:", then a word after any spaces. None when a
      literal does not match or the word is empty, where ip keeps its value. */
  function ScanInetAddr(t: string): (r: Option<string>)
    ensures r.Some? ==> IsWord(r.value)
  {
    match AfterLiterals(t)
    case None => None
    case Some(rest) =>
      var w := Word(TrimLeft(rest, ScanSpaces));
      if w == "" then None else Some(w)
  }

  /** What follows the literal part of the format, "inet", one or more
      spaces and "addr:", when the text matches it. */
  function AfterLiterals(t: string): (r: Option<string>)
    ensures r.Some? ==> |r.value| < |t|
  {
    if !HasPrefix(t, "inet") then None
    else
      var afterInet := t[4..];
      var afterSpaces := TrimLeft(afterInet, ScanSpaces);
      if |afterSpaces| == |afterInet| || !HasPrefix(afterSpaces, "addr:") then None
      else Some(afterSpaces[5..])
  }

  /** The address one ifconfig line yields, if any. */
  function LineAddress(line: string): (r: Option<string>)
    ensures r.Some? ==> Candidate(line) && r.value != ""
  {
    if Candidate(line) then ScanInetAddr(Trim(line, LineBlanks)) else None
  }

  /** The address the ifconfig lines yield: that of the first line that
      yields one, or "" when none does (IfconfigIPFinds). */
  function IfconfigIP(lines: seq<string>): string
  {
    FirstSome(lines, LineAddress).GetOr("")
  }

  /** The ifconfig scan gives "" exactly when no line yields an address, and
      otherwise the address of the first line that yields one. */
  lemma IfconfigIPFinds(lines: seq<string>)
    ensures IfconfigIP(lines) == "" <==> NoneYield(lines, LineAddress)
    ensures IfconfigIP(lines) != "" ==> exists i :: FirstYield(lines, LineAddress, i, IfconfigIP(lines))
  {
    FirstSomeNone(lines, LineAddress);
    FirstSomeFirst(lines, LineAddress);
  }

  /** The first loop of GetIPAddress: scan the candidate lines, stop at the
      first that yields an address. */
  method ScanIfconfig(lines: seq<string>) returns (ip: string)
    ensures ip == IfconfigIP(lines)
  {
    ip := "";
    for i := 0 to |lines|
      invariant ip == ""
      invariant FirstSome(lines, LineAddress) == FirstSome(lines[i..], LineAddress)
    {
      assert lines[i..][1..] == lines[i + 1..];
      var line := lines[i];
      if !Candidate(line) {
        continue;
      }
      var scanned := ScanInetAddr(Trim(line, LineBlanks));
      if scanned.Some? {
        ip := scanned.value;
      }
      if ip != "" {
        return ip;
      }
    }
  }

  // =====================================================================
  // netcfg

  /** The address a netcfg token stands for: a token longer than ten
      characters holding a slash gives the text before its first slash,
      unless that is 0.0.0.0, 127.0.0.1 or a 172.* address. */
  function NetcfgAddress(s: string): (r: Option<string>)
    ensures r.Some? ==> |s| > 10 && |r.value| < |s| && s[..|r.value|] == r.value && s[|r.value|] == '/'
    ensures r.Some? ==> '/' !in r.value
    ensures r.Some? ==> r.value != "0.0.0.0" && r.value != "127.0.0.1" && !HasPrefix(r.value, "172.")
  {
    if |s| > 10 && Contains(s, "/") then
      ContainsOneChar(s, '/');
      var tmpIP := s[0..IndexOf(s, '/')];
      if tmpIP == "0.0.0.0" || tmpIP == "127.0.0.1" || HasPrefix(tmpIP, "172.") then None
      else Some(tmpIP)
    else None
  }

  /** The address of the first token that stands for one. */
  function FirstAddress(tokens: seq<string>): Option<string>
  {
    FirstSome(tokens, NetcfgAddress)
  }

  /** The address a netcfg line gives: that of its first token, the line
      split on single spaces, that stands for one. */
  function LineHit(line: string): Option<string>
  {
    FirstAddress(Split(line, ' '))
  }

  /** The first address the netcfg lines give. */
  function NetcfgHit(lines: seq<string>): Option<string>
  {
    FirstSome(lines, LineHit)
  }

  /** The inner loop of the netcfg scan: the tokens of one line. */
  method ScanTokens(tokens: seq<string>) returns (hit: Option<string>)
    ensures hit == FirstAddress(tokens)
  {
    for j := 0 to |tokens|
      invariant FirstSome(tokens, NetcfgAddress) == FirstSome(tokens[j..], NetcfgAddress)
    {
      assert tokens[j..][1..] == tokens[j + 1..];
      var s := tokens[j];
      if |s| > 10 && Contains(s, "/") {
        ContainsOneChar(s, '/');
        var tmpIP := s[0..IndexOf(s, '/')];
        if tmpIP == "0.0.0.0" || tmpIP == "127.0.0.1" || HasPrefix(tmpIP, "172.") {
          continue;
        }
        return Some(tmpIP);
      }
    }
    return None;
  }

  /** The second loop of GetIPAddress: the lines of netcfg, each split on
      single spaces, up to the first token that stands for an address. */
  method ScanNetcfg(lines: seq<string>) returns (hit: Option<string>)
    ensures hit == NetcfgHit(lines)
  {
    for i := 0 to |lines|
      invariant FirstSome(lines, LineHit) == FirstSome(lines[i..], LineHit)
    {
      assert lines[i..][1..] == lines[i + 1..];
      hit := ScanTokens(Split(lines[i], ' '));
      if hit.Some? {
        return hit;
      }
    }
    return None;
  }

  // =====================================================================
  // GetIPAddress as written and as intended

  /** What GetIPAddress returns: the ifconfig address, or else `ip`, which
      still holds "" when the netcfg scan finds an address and when it does not. */
  function IPAddressAsWritten(ifconfig: Cmd, netcfg: Cmd): (ip: string)
    ensures ip == IfconfigIP(Split(ShellOutput(ifconfig), '\n'))
  {
    var ip := IfconfigIP(Split(ShellOutput(ifconfig), '\n'));
    if ip != "" then ip
    else if NetcfgHit(Split(ShellOutput(netcfg), '\n')).Some? then ip
    else ip
  }

  /** GetIPAddress as written. */
  method GetIPAddress(ifconfig: Cmd, netcfg: Cmd) returns (ip: string)
    ensures ip == IPAddressAsWritten(ifconfig, netcfg)
  {
    ip := ScanIfconfig(Split(ShellOutput(ifconfig), '\n'));
    if ip != "" {
      return ip;
    }
    var hit := ScanNetcfg(Split(ShellOutput(netcfg), '\n'));
    if hit.Some? {
      return ip;
    }
    return ip;
  }

  /** The answer GetIPAddress is meant to give: the ifconfig address, or else
      the first netcfg address, or else "". */
  function IPAddress(ifconfig: Cmd, netcfg: Cmd): (ip: string)
  {
    var found := IfconfigIP(Split(ShellOutput(ifconfig), '\n'));
    if found != "" then found else NetcfgHit(Split(ShellOutput(netcfg), '\n')).GetOr("")
  }

  /** GetIPAddress with the netcfg scan returning the address it found. */
  method GetIPAddressIntended(ifconfig: Cmd, netcfg: Cmd) returns (ip: string)
    ensures ip == IPAddress(ifconfig, netcfg)
  {
    ip := ScanIfconfig(Split(ShellOutput(ifconfig), '\n'));
    if ip != "" {
      return ip;
    }
    var hit := ScanNetcfg(Split(ShellOutput(netcfg), '\n'));
    if hit.Some? {
      return hit.value;
    }
    return ip;
  }

  /** A netcfg listing with one interface, wlan0, at 192.168.1.23/24. */
  const ExampleNetcfg: string := "wlan0 UP 192.168.1.23/24"

  /** A device whose ifconfig prints nothing and whose netcfg lists wlan0 at
      192.168.1.23/24: as written the answer is "", as intended it is the
      address. */
  lemma AsWrittenLosesNetcfgAddress()
    ensures IPAddressAsWritten(Cmd("", None), Cmd(ExampleNetcfg, None)) == ""
    ensures IPAddress(Cmd("", None), Cmd(ExampleNetcfg, None)) == "192.168.1.23"
  {
    assert IfconfigIP(Split(ShellOutput(Cmd("", None)), '\n')) == "" by {
      assert Split("", '\n') == [""];
    }
    ExampleNetcfgLines();
    ExampleNetcfgHit();
  }

  lemma ExampleNetcfgLines()
    ensures Split(ShellOutput(Cmd(ExampleNetcfg, None)), '\n') == [ExampleNetcfg]
  {
    ExampleShellOutput();
    ExampleSingleLine();
    SplitWithoutSep(ExampleNetcfg, '\n');
  }

  lemma ExampleShellOutput()
    ensures ShellOutput(Cmd(ExampleNetcfg, None)) == ExampleNetcfg
  {
    var line := ExampleNetcfg;
    assert line[0] == 'w' && line[|line| - 1] == '4';
    TrimUnchanged(line, ShellCutset);
  }

  lemma ExampleSingleLine()
    ensures '\n' !in ExampleNetcfg
  {
    var line := ExampleNetcfg;
    assert forall k :: 0 <= k < |line| ==> line[k] != '\n';
  }

  lemma ExampleNetcfgHit()
    ensures NetcfgHit([ExampleNetcfg]) == Some("192.168.1.23")
  {
    var tokens := ["wlan0", "UP", "192.168.1.23/24"];
    ExampleNetcfgTokens();
    ExampleTokenAddress();
    assert tokens[1..] == ["UP", "192.168.1.23/24"];
    assert tokens[1..][1..] == ["192.168.1.23/24"];
    assert FirstAddress(tokens) == Some("192.168.1.23");
  }

  lemma ExampleNetcfgTokens()
    ensures Split(ExampleNetcfg, ' ') == ["wlan0", "UP", "192.168.1.23/24"]
  {
    assert ExampleNetcfg == "wlan0" + [' '] + "UP" + [' '] + "192.168.1.23/24";
    var a, b, c := "wlan0", "UP", "192.168.1.23/24";
    assert forall k :: 0 <= k < |a| ==> a[k] != ' ';
    assert forall k :: 0 <= k < |b| ==> b[k] != ' ';
    assert forall k :: 0 <= k < |c| ==> c[k] != ' ';
    SplitTriple(a, b, c, ' ');
  }

  lemma ExampleTokenAddress()
    ensures NetcfgAddress("192.168.1.23/24") == Some("192.168.1.23")
  {
    var a := "192.168.1.23";
    assert "192.168.1.23/24" == a + "/" + "24";
    assert forall k :: 0 <= k < |a| ==> a[k] != '/';
    assert !HasPrefix(a, "172.") by {
      assert a[..4][1] == '9';
    }
    NetcfgAddressReads(a, "24");
  }

  /** Some token of the netcfg lines stands for the address `a`. */
  predicate NetcfgGives(lines: seq<string>, a: string)
  {
    exists i, j :: 0 <= i < |lines| && 0 <= j < |Split(lines[i], ' ')|
                   && NetcfgAddress(Split(lines[i], ' ')[j]) == Some(a)
  }

  /** Some token of the netcfg lines stands for an address. */
  predicate NetcfgQualifies(lines: seq<string>)
  {
    exists i, j :: 0 <= i < |lines| && 0 <= j < |Split(lines[i], ' ')|
                   && NetcfgAddress(Split(lines[i], ' ')[j]).Some?
  }

  /** `a` is the address of the first qualifying token of the first line
      that has one. */
  ghost predicate NetcfgFirstGives(lines: seq<string>, a: string)
  {
    exists i, j :: FirstYield(lines, LineHit, i, a) && FirstYield(Split(lines[i], ' '), NetcfgAddress, j, a)
  }

  /** The netcfg scan finds an address exactly when some token stands for
      one, and what it finds is the address of the first qualifying token
      of the first line that has one. */
  lemma NetcfgHitFinds(lines: seq<string>)
    ensures NetcfgHit(lines).Some? <==> NetcfgQualifies(lines)
    ensures NetcfgHit(lines).Some? ==> NetcfgGives(lines, NetcfgHit(lines).value)
    ensures NetcfgHit(lines).Some? ==> NetcfgFirstGives(lines, NetcfgHit(lines).value)
  {
    var hit := NetcfgHit(lines);
    FirstSomeNone(lines, LineHit);
    FirstSomeFirst(lines, LineHit);
    if NetcfgQualifies(lines) {
      var i0, j0 :| 0 <= i0 < |lines| && 0 <= j0 < |Split(lines[i0], ' ')|
                    && NetcfgAddress(Split(lines[i0], ' ')[j0]).Some?;
      FirstSomeNone(Split(lines[i0], ' '), NetcfgAddress);
      assert LineHit(lines[i0]).Some?;
    }
    if hit.Some? {
      var i :| FirstYield(lines, LineHit, i, hit.value);
      var tokens := Split(lines[i], ' ');
      FirstSomeFirst(tokens, NetcfgAddress);
      var j :| FirstYield(tokens, NetcfgAddress, j, hit.value);
      assert NetcfgGives(lines, hit.value);
      assert NetcfgFirstGives(lines, hit.value);
    }
  }

  /** The intended answer: the ifconfig address when there is one; otherwise
      the address of the first qualifying token of the first netcfg line that
      has one; and "" when neither source has an address. */
  lemma IPAddressSources(ifconfig: Cmd, netcfg: Cmd)
    ensures var found := IfconfigIP(Split(ShellOutput(ifconfig), '\n'));
            found != "" ==> IPAddress(ifconfig, netcfg) == found
    ensures var found := IfconfigIP(Split(ShellOutput(ifconfig), '\n'));
            var lines := Split(ShellOutput(netcfg), '\n');
            found == "" && NetcfgQualifies(lines) ==>
              NetcfgGives(lines, IPAddress(ifconfig, netcfg)) && NetcfgFirstGives(lines, IPAddress(ifconfig, netcfg))
    ensures var found := IfconfigIP(Split(ShellOutput(ifconfig), '\n'));
            var lines := Split(ShellOutput(netcfg), '\n');
            found == "" && !NetcfgQualifies(lines) ==> IPAddress(ifconfig, netcfg) == ""
  {
    NetcfgHitFinds(Split(ShellOutput(netcfg), '\n'));
  }

  // =====================================================================
  // What the scans read

  /** %s reads a word up to the space after it. */
  lemma {:induction false} WordReads(w: string, rest: string)
    requires IsWord(w) && (rest == "" || rest[0] in ScanSpaces)
    ensures Word(w + rest) == w
  {
    if |w| == 1 {
      assert (w + rest)[1..] == rest;
      assert [w[0]] == w;
    } else {
      WordReads(w[1..], rest);
      assert (w + rest)[1..] == w[1..] + rest;
      assert [w[0]] + w[1..] == w;
    }
  }

  /** An ifconfig address line, trimmed, reads as its address. */
  lemma ScanInetAddrReads(w: string, rest: string)
    requires IsWord(w) && (rest == "" || rest[0] in ScanSpaces)
    ensures ScanInetAddr("inet addr:" + w + rest) == Some(w)
  {
    assert "inet addr:" + w + rest == "inet addr:" + (w + rest);
    AfterLiteralsReads(w + rest);
    assert TrimLeft(w + rest, ScanSpaces) == w + rest by {
      assert (w + rest)[0] == w[0];
    }
    WordReads(w, rest);
  }

  /** After Trim, an ifconfig line "inet addr:<address>" behind any blanks
      and followed by the end of the line or a space scans to the address. */
  lemma TrimmedLineScans(pad: string, w: string, rest: string)
    requires AllIn(pad, LineBlanks) && IsWord(w) && (rest == "" || rest[0] == ' ')
    ensures ScanInetAddr(Trim(pad + "inet addr:" + w + rest, LineBlanks)) == Some(w)
  {
    var core := "inet addr:" + w;
    var line := pad + "inet addr:" + w + rest;
    assert line == pad + core + rest;
    TrimKeeps(pad, core, rest, LineBlanks);
    var kept := TrimRight(rest, LineBlanks);
    assert kept == "" || kept[0] == rest[0];
    ScanInetAddrReads(w, kept);
    assert Trim(line, LineBlanks) == "inet addr:" + w + kept;
  }

  /** Such a line yields the address when it is a candidate. */
  lemma IfconfigLineAddress(pad: string, w: string, rest: string)
    requires AllIn(pad, LineBlanks) && IsWord(w) && (rest == "" || rest[0] == ' ')
    requires Candidate(pad + "inet addr:" + w + rest)
    ensures LineAddress(pad + "inet addr:" + w + rest) == Some(w)
  {
    TrimmedLineScans(pad, w, rest);
  }

  /** The literal part of the format matches "inet addr:" exactly. */
  lemma AfterLiteralsReads(x: string)
    ensures AfterLiterals("inet addr:" + x) == Some(x)
  {
    var tail := "addr:" + x;
    assert "inet addr:" + x == "inet" + ([' '] + tail);
    PrefixOfConcat("inet", [' '] + tail);
    TrimLeftOne(' ', tail, ScanSpaces);
    PrefixOfConcat("addr:", x);
  }

  /** A netcfg token `<address>/<prefix length>` longer than ten characters
      stands for its address unless that is excluded. */
  lemma NetcfgAddressReads(a: string, mask: string)
    requires '/' !in a && |a| + 1 + |mask| > 10
    requires a != "0.0.0.0" && a != "127.0.0.1" && !HasPrefix(a, "172.")
    ensures NetcfgAddress(a + "/" + mask) == Some(a)
  {
    var s := a + "/" + mask;
    assert s == a + ['/'] + mask;
    assert s[|a|] == '/';
    ContainsOneChar(s, '/');
    IndexOfAfter(a, '/', mask);
    assert s[0..|a|] == a;
  }
}
