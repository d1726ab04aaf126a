/**
 * The parsers the adb client applies to the text adb prints: the device
 * list, the port-forward list, process ids from `ps`, the installed path of a
 * package from `pm path` and its primary ABI from `pm dump`.
 *
 * Each parser that the client runs as a loop over lines is a method with that
 * loop, proved equal to a recursive function over the lines; the properties
 * of the parse are stated about that function.
 */
module Parsers {
  import opened Wrappers
  import opened GoStrings
  import opened AdbTypes

  // =====================================================================
  // adb devices

  /** The serial one line of `adb devices` contributes: the first tab field,
      when the line has a second one that does not mention "offline". */
  function DeviceOfLine(line: string): (r: Option<string>)
    ensures r.Some? ==> '\t' !in r.value
  {
    var tabs := Split(line, '\t');
    SplitPiecesLackSep(line, '\t');
    if |tabs| > 1 && !Contains(tabs[1], "offline") then Some(tabs[0]) else None
  }

  /** The serials the device list yields, in line order. */
  function DeviceSerials(lines: seq<string>): (r: seq<string>)
    ensures |r| <= |lines|
    ensures forall i :: 0 <= i < |r| ==> '\t' !in r[i]
  {
    if |lines| == 0 then []
    else
      DeviceSerials(lines[..|lines| - 1])
        + match DeviceOfLine(lines[|lines| - 1]) case Some(d) => [d] case None => []
  }

  /** GetDevices: runs `adb devices`; a failed run is an error, otherwise the
      serials of the device lines whose state is not offline, in order. */
  method GetDevices(devices: Cmd) returns (r: Result<seq<string>>)
    ensures devices.failure.Some? ==> r == Err(CommandError(devices.failure.value))
    ensures devices.failure.None? ==> r == Ok(DeviceSerials(Split(devices.stdout, '\n')))
  {
    if devices.failure.Some? {
      return Err(CommandError(devices.failure.value));
    }
    var lines := Split(devices.stdout, '\n');
    var serials: seq<string> := [];
    for i := 0 to |lines|
      invariant serials == DeviceSerials(lines[..i])
    {
      assert lines[..i + 1][..i] == lines[..i];
      var serial := DeviceOfLine(lines[i]);
      if serial.Some? {
        serials := serials + [serial.value];
      }
    }
    assert lines[..|lines|] == lines;
    return Ok(serials);
  }

  lemma {:induction false} DeviceSerialsAppend(a: seq<string>, b: seq<string>)
    ensures DeviceSerials(a + b) == DeviceSerials(a) + DeviceSerials(b)
    decreases |b|
  {
    if |b| > 0 {
      DeviceSerialsAppend(a, b[..|b| - 1]);
      assert (a + b)[..|a + b| - 1] == a + b[..|b| - 1];
    } else {
      assert a + b == a;
    }
  }

  /** One row of the device table adb reports. */
  datatype DeviceEntry = DeviceEntry(serial: string, state: string)

  const DevicesHeader: string := "List of devices attached"

  /** The text `adb devices` prints for a device table: a header line, one
      `serial<TAB>state` line per device and a blank line. */
  function DevicesText(entries: seq<DeviceEntry>): string
  {
    Join(DeviceTable(entries), '\n')
  }

  /** The lines of the device table text, the blank piece after its final
      line end included. */
  function DeviceTable(entries: seq<DeviceEntry>): seq<string>
  {
    [DevicesHeader] + DeviceLines(entries) + ["", ""]
  }

  function DeviceLines(entries: seq<DeviceEntry>): (r: seq<string>)
    ensures |r| == |entries|
  {
    seq(|entries|, i requires 0 <= i < |entries| => entries[i].serial + "\t" + entries[i].state)
  }

  /** The serials of the devices whose state does not mention "offline", in order. */
  function UsableSerials(entries: seq<DeviceEntry>): seq<string>
  {
    if |entries| == 0 then []
    else
      var e := entries[|entries| - 1];
      UsableSerials(entries[..|entries| - 1]) + if Contains(e.state, "offline") then [] else [e.serial]
  }

  predicate PlainField(s: string)
  {
    '\t' !in s && '\n' !in s
  }

  /** A device table whose serials and states hold no tab and no line end. */
  predicate PlainTable(entries: seq<DeviceEntry>)
  {
    forall i :: 0 <= i < |entries| ==> PlainField(entries[i].serial) && PlainField(entries[i].state)
  }

  /** The device table text splits into its header, its device lines and two
      empty pieces. */
  lemma DevicesTextLines(entries: seq<DeviceEntry>)
    requires PlainTable(entries)
    ensures Split(DevicesText(entries), '\n') == DeviceTable(entries)
  {
    var lines := DeviceLines(entries);
    var parts := DeviceTable(entries);
    assert '\n' !in DevicesHeader by {
      assert forall k :: 0 <= k < |DevicesHeader| ==> DevicesHeader[k] != '\n';
    }
    forall i | 0 <= i < |parts| ensures '\n' !in parts[i] {
      if 0 < i <= |lines| {
        assert parts[i] == lines[i - 1];
      }
    }
    SplitJoin(parts, '\n');
  }

  /** The header line and blank lines of the device table yield no serial. */
  lemma DevicesFrameSerials(entries: seq<DeviceEntry>)
    ensures DeviceSerials(DeviceTable(entries)) == DeviceSerials(DeviceLines(entries))
  {
    var lines := DeviceLines(entries);
    assert DeviceSerials([DevicesHeader]) == [] by {
      assert '\t' !in DevicesHeader by {
        assert forall k :: 0 <= k < |DevicesHeader| ==> DevicesHeader[k] != '\t';
      }
      SplitWithoutSep(DevicesHeader, '\t');
    }
    assert DeviceSerials(["", ""]) == [];
    DeviceSerialsAppend([DevicesHeader] + lines, ["", ""]);
    DeviceSerialsAppend([DevicesHeader], lines);
  }

  /** Parsing the text adb prints for a device table gives back exactly the
      serials of the devices that are not offline, in table order. */
  lemma DevicesRoundTrip(entries: seq<DeviceEntry>)
    requires PlainTable(entries)
    ensures DeviceSerials(Split(DevicesText(entries), '\n')) == UsableSerials(entries)
  {
    DevicesTextLines(entries);
    DevicesFrameSerials(entries);
    DeviceLinesSerials(entries);
  }

  lemma {:induction false} DeviceLinesSerials(entries: seq<DeviceEntry>)
    requires PlainTable(entries)
    ensures DeviceSerials(DeviceLines(entries)) == UsableSerials(entries)
  {
    if |entries| > 0 {
      var n := |entries| - 1;
      var e := entries[n];
      DeviceLinesSerials(entries[..n]);
      assert DeviceLines(entries)[..n] == DeviceLines(entries[..n]);
      assert Split(DeviceLines(entries)[n], '\t') == [e.serial, e.state] by {
        SplitCons(e.serial, '\t', e.state);
        SplitWithoutSep(e.state, '\t');
        assert e.serial + "\t" + e.state == e.serial + ['\t'] + e.state;
      }
    }
  }

  // =====================================================================
  // adb forward --list

  /** What one line of the forward list contributes. */
  datatype LineOutcome = Skip | Entry(forward: Forward) | Fail(error: Error)

  /** The fields of one line of `adb forward --list`: split on tabs, or on
      single spaces when there is no tab. */
  function ForwardFields(line: string): (tabs: seq<string>)
    ensures |tabs| > 0 && '\t' !in tabs[0]
  {
    var trimmed := Trim(line, {});
    var byTab := Split(trimmed, '\t');
    if |byTab| <= 1 then
      SplitCount(trimmed, '\t');
      assert multiset(trimmed)['\t'] == 0;
      SplitPiecesWithout(trimmed, ' ', '\t');
      Split(trimmed, ' ')
    else
      SplitPiecesLackSep(trimmed, '\t');
      byTab
  }

  /** What the fields of one forward-list line contribute: nothing unless there
      are two or more and the second does not mention "offline"; otherwise the
      ports after the first four characters (the "tcp:" prefix) of the second
      and third fields. A field too short to slice, or a missing third field,
      is the runtime panic of the client. */
  function ForwardOfFields(tabs: seq<string>): (r: LineOutcome)
    requires |tabs| > 0
    ensures r.Skip? <==> !(|tabs| > 1 && !Contains(tabs[1], "offline"))
    ensures r.Entry? ==> r.forward.serial == tabs[0]
    ensures r.Entry? ==>
              && |tabs| >= 3 && |tabs[1]| >= 4 && |tabs[2]| >= 4
              && ParseInt(tabs[1][4..]) == Some(r.forward.localPort)
              && ParseInt(tabs[2][4..]) == Some(r.forward.devicePort)
    ensures r.Entry? ==> MinInt64 <= r.forward.localPort <= MaxInt64
    ensures r.Entry? ==> MinInt64 <= r.forward.devicePort <= MaxInt64
    ensures r.Fail? ==> |tabs| > 1 && !Contains(tabs[1], "offline")
    ensures r.Fail? ==> r.error in {IndexOutOfRange, LocalPortMalformed, DevicePortMalformed}
    ensures |tabs| >= 3 && !Contains(tabs[1], "offline") && |tabs[1]| >= 4 && |tabs[2]| >= 4
            && ParseInt(tabs[1][4..]).Some? && ParseInt(tabs[2][4..]).Some?
            ==> r == Entry(Forward(tabs[0], ParseInt(tabs[1][4..]).value, ParseInt(tabs[2][4..]).value))
    ensures r == Fail(IndexOutOfRange) <==>
              && |tabs| > 1 && !Contains(tabs[1], "offline")
              && (|tabs[1]| < 4 || (ParseInt(tabs[1][4..]).Some? && (|tabs| < 3 || |tabs[2]| < 4)))
    ensures r == Fail(LocalPortMalformed) <==>
              |tabs| > 1 && !Contains(tabs[1], "offline") && |tabs[1]| >= 4 && ParseInt(tabs[1][4..]).None?
    ensures r == Fail(DevicePortMalformed) <==>
              && |tabs| > 1 && !Contains(tabs[1], "offline") && |tabs[1]| >= 4 && ParseInt(tabs[1][4..]).Some?
              && |tabs| >= 3 && |tabs[2]| >= 4 && ParseInt(tabs[2][4..]).None?
  {
    if !(|tabs| > 1 && !Contains(tabs[1], "offline")) then Skip
    else if |tabs[1]| < 4 then Fail(IndexOutOfRange)
    else match ParseInt(tabs[1][4..])
      case None => Fail(LocalPortMalformed)
      case Some(local) =>
        if |tabs| < 3 || |tabs[2]| < 4 then Fail(IndexOutOfRange)
        else match ParseInt(tabs[2][4..])
          case None => Fail(DevicePortMalformed)
          case Some(device) => Entry(Forward(tabs[0], local, device))
  }

  /** One line of `adb forward --list`. */
  function ForwardOfLine(line: string): (r: LineOutcome)
    ensures r.Entry? ==> '\t' !in r.forward.serial
  {
    ForwardOfFields(ForwardFields(line))
  }

  /** The forward list of a sequence of lines: the entries in line order, or
      the failure of the first line that fails. */
  function ForwardsOf(lines: seq<string>): (r: Result<seq<Forward>>)
    ensures r.Ok? ==> |r.value| <= |lines|
  {
    if |lines| == 0 then Ok([])
    else Extend(ForwardsOf(lines[..|lines| - 1]), ForwardOfLine(lines[|lines| - 1]))
  }

  /** The forward list so far, extended by what the next line contributes. */
  function Extend(acc: Result<seq<Forward>>, outcome: LineOutcome): (r: Result<seq<Forward>>)
    ensures acc.Err? ==> r == acc
    ensures acc.Ok? && outcome.Fail? ==> r == Err(outcome.error)
    ensures acc.Ok? && !outcome.Fail? ==> r.Ok? && |r.value| <= |acc.value| + 1
  {
    match acc
    case Err(e) => Err(e)
    case Ok(fs) =>
      match outcome
      case Skip => Ok(fs)
      case Fail(e) => Err(e)
      case Entry(f) => Ok(fs + [f])
  }

  /** The forward list of one more line. */
  lemma ForwardsOfNext(lines: seq<string>, i: nat)
    requires i < |lines|
    ensures ForwardsOf(lines[..i + 1]) == Extend(ForwardsOf(lines[..i]), ForwardOfLine(lines[i]))
  {
    assert lines[..i + 1][..i] == lines[..i];
  }

  /** Once a prefix of the lines fails, the whole list fails the same way. */
  lemma {:induction false} ForwardsOfFailedPrefix(lines: seq<string>, k: nat)
    requires k <= |lines| && ForwardsOf(lines[..k]).Err?
    ensures ForwardsOf(lines) == ForwardsOf(lines[..k])
    decreases |lines| - k
  {
    if k < |lines| {
      ForwardsOfNext(lines, k);
      ForwardsOfFailedPrefix(lines, k + 1);
    } else {
      assert lines[..k] == lines;
    }
  }

  /** ForwardList: runs `adb forward --list` and parses it line by line,
      stopping at the first malformed port. */
  method ForwardList(list: Cmd) returns (r: Result<seq<Forward>>)
    ensures list.failure.Some? ==> r == Err(CommandError(list.failure.value))
    ensures list.failure.None? ==> r == ForwardsOf(Split(list.stdout, '\n'))
  {
    if list.failure.Some? {
      return Err(CommandError(list.failure.value));
    }
    var lines := Split(list.stdout, '\n');
    var fs: seq<Forward> := [];
    for i := 0 to |lines|
      invariant ForwardsOf(lines[..i]) == Ok(fs)
    {
      var outcome := ForwardOfLine(lines[i]);
      ForwardsOfNext(lines, i);
      if outcome.Fail? {
        ForwardsOfFailedPrefix(lines, i + 1);
        return Err(outcome.error);
      }
      if outcome.Entry? {
        fs := fs + [outcome.forward];
      }
    }
    assert lines[..|lines|] == lines;
    return Ok(fs);
  }

  /** The line adb prints for one forward, its three columns separated by `sep`. */
  function ForwardLine(f: Forward, sep: char): string
  {
    f.serial + [sep] + PortColumn(f.localPort) + [sep] + PortColumn(f.devicePort)
  }

  /** How a port column reads: "tcp:" and the port in decimal. */
  function PortColumn(port: int): string
  {
    "tcp:" + FormatInt(port)
  }

  /** A forward that adb can print and the client read back. */
  predicate Printable(f: Forward)
  {
    && MinInt64 <= f.localPort <= MaxInt64 && MinInt64 <= f.devicePort <= MaxInt64
    && '\t' !in f.serial && ' ' !in f.serial && '\n' !in f.serial
  }

  /** Forwards that can all be printed and read back. */
  predicate AllPrintable(fs: seq<Forward>)
  {
    forall i :: 0 <= i < |fs| ==> Printable(fs[i])
  }

  /** A port column is one field that reads back as its port and never mentions "offline". */
  lemma PortColumnReads(port: int)
    requires MinInt64 <= port <= MaxInt64
    ensures var col := PortColumn(port);
            && |col| >= 4 && ParseInt(col[4..]) == Some(port)
            && !Contains(col, "offline") && '\t' !in col && ' ' !in col && '\n' !in col
  {
    var col := PortColumn(port);
    var digits := FormatInt(port);
    assert col[4..] == digits;
    ParseFormatInt(port);
    forall k | 0 <= k < |col| ensures col[k] != 'o' && col[k] != '\t' && col[k] != ' ' && col[k] != '\n' {
      if k >= 4 { assert col[k] == digits[k - 4]; }
    }
    if Contains(col, "offline") {
      ContainsFirstChar(col, "offline");
    }
  }

  /** Three columns joined by `sep`, none holding `sep` nor, when `sep` is a
      space, a tab, split back into those three fields. */
  lemma ColumnsFields(a: string, b: string, c: string, sep: char)
    requires sep == '\t' || sep == ' '
    requires sep !in a && sep !in b && sep !in c
    requires '\t' !in a && '\t' !in b && '\t' !in c
    ensures ForwardFields(a + [sep] + b + [sep] + c) == [a, b, c]
  {
    var line := a + [sep] + b + [sep] + c;
    if sep == ' ' {
      assert '\t' !in a + [sep] + b + [sep] + c;
      SplitWithoutSep(line, '\t');
    }
    assert Trim(line, {}) == line by {
      TrimUnchanged(line, {});
    }
    SplitTriple(a, b, c, sep);
  }

  /** A serial followed by two printed ports is read as that forward. */
  lemma ColumnsForward(serial: string, local: int, device: int)
    requires MinInt64 <= local <= MaxInt64 && MinInt64 <= device <= MaxInt64
    ensures ForwardOfFields([serial, PortColumn(local), PortColumn(device)])
            == Entry(Forward(serial, local, device))
  {
    PortColumnReads(local);
    PortColumnReads(device);
  }

  /** A forward printed with tabs or with spaces between its columns is read
      back as the same record. */
  lemma ForwardLineRoundTrip(f: Forward, sep: char)
    requires Printable(f) && (sep == '\t' || sep == ' ')
    ensures ForwardOfLine(ForwardLine(f, sep)) == Entry(f)
  {
    var local, device := PortColumn(f.localPort), PortColumn(f.devicePort);
    assert ForwardFields(ForwardLine(f, sep)) == [f.serial, local, device] by {
      PortColumnReads(f.localPort);
      PortColumnReads(f.devicePort);
      ColumnsFields(f.serial, local, device, sep);
    }
    ColumnsForward(f.serial, f.localPort, f.devicePort);
  }

  /** The lines of `adb forward --list` for a list of forwards. */
  function ForwardLines(fs: seq<Forward>, sep: char): (r: seq<string>)
    ensures |r| == |fs| && forall i :: 0 <= i < |fs| ==> r[i] == ForwardLine(fs[i], sep)
  {
    seq(|fs|, i requires 0 <= i < |fs| => ForwardLine(fs[i], sep))
  }

  /** The text of `adb forward --list`: one line per forward, each ended by a newline. */
  function ForwardsText(fs: seq<Forward>, sep: char): string
  {
    Join(ForwardLines(fs, sep) + [""], '\n')
  }

  lemma {:induction false} ForwardsOfLines(fs: seq<Forward>, sep: char)
    requires AllPrintable(fs)
    requires sep == '\t' || sep == ' '
    ensures ForwardsOf(ForwardLines(fs, sep)) == Ok(fs)
  {
    if |fs| > 0 {
      var n := |fs| - 1;
      assert fs[..n] + [fs[n]] == fs;
      var lines := ForwardLines(fs, sep);
      assert ForwardsOf(lines[..n]) == Ok(fs[..n]) by {
        ForwardsOfLines(fs[..n], sep);
        assert lines[..n] == ForwardLines(fs[..n], sep);
      }
      assert ForwardOfLine(lines[n]) == Entry(fs[n]) by {
        ForwardLineRoundTrip(fs[n], sep);
      }
    }
  }

  /** Reading back the forward list adb prints, with tabs or with spaces
      between the columns, gives the forwards, in order. */
  lemma ForwardListRoundTrip(fs: seq<Forward>, sep: char)
    requires AllPrintable(fs)
    requires sep == '\t' || sep == ' '
    ensures ForwardsOf(Split(ForwardsText(fs, sep), '\n')) == Ok(fs)
  {
    ForwardsTextLines(fs, sep);
    ForwardsOfLines(fs, sep);
    ForwardsOfBlankEnd(ForwardLines(fs, sep));
  }

  /** A final empty piece does not change the forward list. */
  lemma ForwardsOfBlankEnd(lines: seq<string>)
    ensures ForwardsOf(lines + [""]) == ForwardsOf(lines)
  {
    var all := lines + [""];
    assert all[..|lines|] == lines;
    BlankForwardLine();
    ForwardsOfNext(all, |lines|);
    assert all[..|lines| + 1] == all;
  }

  /** The empty piece after the last line end contributes nothing. */
  lemma BlankForwardLine()
    ensures ForwardOfLine("") == Skip
  {
    assert Split("", ' ') == [""];
  }

  /** The text of the forward list splits into its lines and the empty piece
      after the last line end. */
  lemma ForwardsTextLines(fs: seq<Forward>, sep: char)
    requires AllPrintable(fs)
    requires sep == '\t' || sep == ' '
    ensures Split(ForwardsText(fs, sep), '\n') == ForwardLines(fs, sep) + [""]
  {
    var all := ForwardLines(fs, sep) + [""];
    forall i | 0 <= i < |all| ensures '\n' !in all[i] {
      if i < |fs| {
        assert all[i] == ForwardLine(fs[i], sep);
        ForwardLineSingle(fs[i], sep);
      }
    }
    SplitJoin(all, '\n');
  }

  /** A printed forward is one line. */
  lemma ForwardLineSingle(f: Forward, sep: char)
    requires Printable(f) && sep != '\n'
    ensures '\n' !in ForwardLine(f, sep)
  {
    PortColumnReads(f.localPort);
    PortColumnReads(f.devicePort);
  }

  // =====================================================================
  // Process ids from `ps | grep app_process`

  /** The first non-empty field at index `k` or later. */
  function FirstNonEmptyFrom(fields: seq<string>, k: nat): (r: Option<string>)
    ensures r.None? <==> forall j :: k <= j < |fields| ==> fields[j] == ""
    ensures r.Some? ==> r.value != "" && exists i :: k <= i < |fields| && fields[i] == r.value
    decreases |fields| - k
  {
    if k >= |fields| then None
    else if fields[k] != "" then Some(fields[k])
    else FirstNonEmptyFrom(fields, k + 1)
  }

  /** The field that is the process id of a `ps` line split on single spaces:
      the first non-empty one after column 0. */
  function FirstPid(fields: seq<string>): Option<string>
  {
    FirstNonEmptyFrom(fields, 1)
  }

  /** A non-empty field with only empty fields between `k` and it is the one found. */
  lemma {:induction false} FirstNonEmptyAt(fields: seq<string>, k: nat, i: nat)
    requires k <= i < |fields| && fields[i] != ""
    requires forall j :: k <= j < i ==> fields[j] == ""
    ensures FirstNonEmptyFrom(fields, k) == Some(fields[i])
    decreases i - k
  {
    if k < i {
      FirstNonEmptyAt(fields, k + 1, i);
    }
  }

  /** The process ids of a `ps` listing: at most one per line, in line order. */
  function PidsOf(lines: seq<string>): (r: seq<string>)
    ensures |r| <= |lines|
    ensures forall i :: 0 <= i < |r| ==> r[i] != "" && ' ' !in r[i]
  {
    if |lines| == 0 then []
    else
      var fields := Split(lines[|lines| - 1], ' ');
      SplitPiecesLackSep(lines[|lines| - 1], ' ');
      PidsOf(lines[..|lines| - 1])
        + match FirstPid(fields) case Some(p) => [p] case None => []
  }

  /** An error of a listing that GetPids tolerates: none, or one whose text
      mentions "exit" (grep found nothing). */
  predicate Tolerated(c: Cmd)
  {
    c.failure.None? || Contains(c.failure.value, "exit")
  }

  /** GetPids: `ps | grep app_process`, falling back to `ps -A | grep
      app_process` when the first printed nothing, and the process id of
      every line of the listing. */
  method GetPids(ps: Cmd, psAll: Cmd) returns (r: PidProbe)
    ensures r.Ok? <==> Tolerated(ps) && (ps.stdout != "" || Tolerated(psAll))
    ensures !Tolerated(ps) ==> r == Err(CommandError(ps.failure.value))
    ensures Tolerated(ps) && ps.stdout == "" && !Tolerated(psAll) ==> r == Err(CommandError(psAll.failure.value))
    ensures r.Ok? ==> r.value == PidsOf(Split(if ps.stdout != "" then ps.stdout else psAll.stdout, '\n'))
  {
    if ps.failure.Some? && !Contains(ps.failure.value, "exit") {
      return Err(CommandError(ps.failure.value));
    }
    var result := ps.stdout;
    if result == "" {
      if psAll.failure.Some? && !Contains(psAll.failure.value, "exit") {
        return Err(CommandError(psAll.failure.value));
      }
      result := psAll.stdout;
    }
    var pids: seq<string> := [];
    var lines := Split(result, '\n');
    for n := 0 to |lines|
      invariant pids == PidsOf(lines[..n])
    {
      assert lines[..n + 1][..n] == lines[..n];
      var pid := PidOfLine(lines[n]);
      if pid.Some? {
        pids := pids + [pid.value];
      }
    }
    assert lines[..|lines|] == lines;
    return Ok(pids);
  }

  /** The inner scan of GetPids: the fields of a line split on single spaces,
      stopping at the first non-empty one after column 0. */
  method PidOfLine(line: string) returns (pid: Option<string>)
    ensures pid == FirstPid(Split(line, ' '))
  {
    var fields := Split(line, ' ');
    var i := 0;
    while i < |fields|
      invariant 0 <= i <= |fields|
      invariant FirstPid(fields) == FirstNonEmptyFrom(fields, if i == 0 then 1 else i)
    {
      if i > 0 && fields[i] != "" {
        return Some(fields[i]);
      }
      i := i + 1;
    }
    return None;
  }

  /** A run of spaces. */
  predicate AllSpaces(pad: string)
  {
    forall k :: 0 <= k < |pad| ==> pad[k] == ' '
  }

  /** `n` empty fields. */
  function Empties(n: nat): (r: seq<string>)
    ensures |r| == n && forall j :: 0 <= j < n ==> r[j] == ""
  {
    if n == 0 then [] else [""] + Empties(n - 1)
  }

  lemma {:induction false} SplitLeadingSpaces(pad: string, t: string)
    requires AllSpaces(pad)
    ensures Split(pad + t, ' ') == Empties(|pad|) + Split(t, ' ')
  {
    if |pad| > 0 {
      SplitLeadingSpaces(pad[1..], t);
      assert (pad + t)[1..] == pad[1..] + t;
    } else {
      assert pad + t == t;
    }
  }

  /** The fields of a `ps` line: the first column, one empty field per extra
      space, then the fields of the rest. */
  lemma PsLineFields(user: string, pad: string, tail: string)
    requires ' ' !in user
    requires AllSpaces(pad)
    ensures Split(user + " " + pad + tail, ' ') == [user] + (Empties(|pad|) + Split(tail, ' '))
  {
    SplitLeadingSpaces(pad, tail);
    assert user + " " + pad + tail == user + [' '] + (pad + tail);
    SplitCons(user, ' ', pad + tail);
  }

  /** A `ps` line whose first column is followed by any run of spaces yields
      the second column as its process id. */
  lemma PsLinePid(user: string, pad: string, pid: string, rest: string)
    requires ' ' !in user && ' ' !in pid && pid != ""
    requires AllSpaces(pad)
    requires rest == "" || rest[0] == ' '
    ensures FirstPid(Split(user + " " + pad + pid + rest, ' ')) == Some(pid)
  {
    var tail := Split(pid + rest, ' ');
    SplitFirstPiece(pid, rest, ' ');
    assert user + " " + pad + pid + rest == user + " " + pad + (pid + rest);
    PsLineFields(user, pad, pid + rest);
    var fields := [user] + (Empties(|pad|) + tail);
    assert fields[|pad| + 1] == pid;
    assert forall j :: 1 <= j < |pad| + 1 ==> fields[j] == Empties(|pad|)[j - 1];
    FirstNonEmptyAt(fields, 1, |pad| + 1);
  }

  // =====================================================================
  // pm path: the installed path of a package

  const EolCutset: set<char> := {'\r', '\n'}

  /** Line-end characters only. */
  predicate LineEnds(eol: string)
  {
    forall k :: 0 <= k < |eol| ==> eol[k] in EolCutset
  }

  /** GetApkPath: the text of `pm path` with line ends trimmed is split on
      colons; the second segment is the path, and with no colon the package is
      not installed. An error of the run is passed on unless its text mentions
      "exit status 1". */
  function ApkPath(pmPath: Cmd): (r: Result<string>)
    ensures pmPath.failure.Some? && !Contains(pmPath.failure.value, "exit status 1")
            ==> r == Err(CommandError(pmPath.failure.value))
    ensures pmPath.failure.None? || Contains(pmPath.failure.value, "exit status 1")
            ==> (r == Err(NotInstalled) <==> ':' !in Trim(pmPath.stdout, EolCutset))
    ensures r.Ok? ==> ':' !in r.value
  {
    if pmPath.failure.Some? && !Contains(pmPath.failure.value, "exit status 1") then
      Err(CommandError(pmPath.failure.value))
    else
      var result := Trim(pmPath.stdout, EolCutset);
      var paths := Split(result, ':');
      SplitCount(result, ':');
      SplitPiecesLackSep(result, ':');
      if |paths| < 2 then Err(NotInstalled) else Ok(paths[1])
  }

  /** The piece after the first colon of `head:path...` is `path` when a
      colon or nothing follows it. */
  lemma SecondColonPiece(head: string, path: string, tail: string)
    requires ':' !in head && ':' !in path
    requires tail == "" || tail[0] == ':'
    ensures var pieces := Split(head + [':'] + path + tail, ':');
            |pieces| >= 2 && pieces[1] == path
  {
    var rest := path + tail;
    assert head + [':'] + path + tail == head + [':'] + rest;
    SplitCons(head, ':', rest);
    SplitFirstPiece(path, tail, ':');
  }

  /** For a run that succeeded or failed with "exit status 1", the text
      between the first and the second colon of its output is the path;
      whatever follows a second colon is dropped. */
  lemma ApkPathSegments(c: Cmd, head: string, path: string, tail: string)
    requires c.failure.None? || Contains(c.failure.value, "exit status 1")
    requires ':' !in head && ':' !in path
    requires tail == "" || tail[0] == ':'
    requires Trim(c.stdout, EolCutset) == head + [':'] + path + tail
    ensures ApkPath(c) == Ok(path)
  {
    SecondColonPiece(head, path, tail);
  }

  /** What `pm path` prints for an installed package, "package:<path>" and a
      line end, yields exactly the path. */
  lemma ApkPathOfPackageLine(path: string, eol: string)
    requires ':' !in path && |path| > 0 && path[|path| - 1] !in EolCutset
    requires LineEnds(eol)
    ensures ApkPath(Cmd("package:" + path + eol, None)) == Ok(path)
  {
    assert "package:" == "package" + [':'];
    ApkPathOfLine("package", path, eol);
  }

  /** A `<head>:<path>` line and line-end characters yield the path. */
  lemma ApkPathOfLine(head: string, path: string, eol: string)
    requires ':' !in head && |head| > 0 && head[0] !in EolCutset
    requires ':' !in path && |path| > 0 && path[|path| - 1] !in EolCutset
    requires LineEnds(eol)
    ensures ApkPath(Cmd(head + [':'] + path + eol, None)) == Ok(path)
  {
    var line := head + [':'] + path;
    assert line[0] == head[0] && line[|line| - 1] == path[|path| - 1];
    TrimLineEnd(line, eol);
    assert line == head + [':'] + path + "";
    ApkPathSegments(Cmd(line + eol, None), head, path, "");
  }

  /** Line-end characters after a line that starts and ends with other
      characters are all that the trim removes. */
  lemma TrimLineEnd(line: string, eol: string)
    requires |line| > 0 && line[0] !in EolCutset && line[|line| - 1] !in EolCutset
    requires LineEnds(eol)
    ensures Trim(line + eol, EolCutset) == line
  {
    assert TrimLeft(line + eol, EolCutset) == line + eol;
    TrimRightSuffix(line, eol);
  }

  lemma {:induction false} TrimRightSuffix(s: string, eol: string)
    requires |s| > 0 && s[|s| - 1] !in EolCutset
    requires LineEnds(eol)
    ensures TrimRight(s + eol, EolCutset) == s
  {
    if |eol| > 0 {
      var e := eol[..|eol| - 1];
      assert (s + eol)[..|s + eol| - 1] == s + e;
      TrimRightSuffix(s, e);
    } else {
      assert s + eol == s;
    }
  }

  // =====================================================================
  // pm dump: the primary ABI of a package

  const AbiMarker: string := "primaryCpuAbi"

  /** A line of the dump that settles the ABI: a primaryCpuAbi line naming
      x86 or arm64-v8a. */
  predicate SettlesAbi(line: string)
  {
    Contains(line, AbiMarker) && (Contains(line, "x86") || Contains(line, "arm64-v8a"))
  }

  /** The ABI a dump's lines give: scanning the primaryCpuAbi lines, x86 on
      the first that mentions it, else arm64-v8a on the first that mentions
      that, and armeabi-v7a when no line settles it. */
  function AbiOfLines(lines: seq<string>): (abi: string)
    ensures abi == "x86" || abi == "arm64-v8a" || abi == "armeabi-v7a"
  {
    if |lines| == 0 then "armeabi-v7a"
    else if !Contains(lines[0], AbiMarker) then AbiOfLines(lines[1..])
    else if Contains(lines[0], "x86") then "x86"
    else if Contains(lines[0], "arm64-v8a") then "arm64-v8a"
    else AbiOfLines(lines[1..])
  }

  /** GetApkAbi's answer for the run of `pm dump`: "" when it failed. */
  function ApkAbi(pmDump: Cmd): (abi: string)
    ensures pmDump.failure.Some? <==> abi == ""
    ensures pmDump.failure.None? ==> abi in {"x86", "arm64-v8a", "armeabi-v7a"}
  {
    if pmDump.failure.Some? then "" else AbiOfLines(Split(pmDump.stdout, '\n'))
  }

  /** GetApkAbi: the early-return scan over the lines of `pm dump`. */
  method GetApkAbi(pmDump: Cmd) returns (abi: string)
    ensures abi == ApkAbi(pmDump)
  {
    if pmDump.failure.Some? {
      return "";
    }
    var lines := Split(pmDump.stdout, '\n');
    for i := 0 to |lines|
      invariant AbiOfLines(lines[i..]) == AbiOfLines(lines)
    {
      assert lines[i..][1..] == lines[i + 1..];
      if !Contains(lines[i], AbiMarker) {
        continue;
      }
      if Contains(lines[i], "x86") {
        return "x86";
      } else if Contains(lines[i], "arm64-v8a") {
        return "arm64-v8a";
      }
    }
    return "armeabi-v7a";
  }

  /** The ABI is armeabi-v7a exactly when no line settles it; otherwise the
      first line that settles it decides, and x86 wins over arm64-v8a on it. */
  lemma {:induction false} AbiOfLinesDecided(lines: seq<string>)
    ensures AbiOfLines(lines) == "armeabi-v7a" <==> forall i :: 0 <= i < |lines| ==> !SettlesAbi(lines[i])
    ensures forall i :: 0 <= i < |lines| && SettlesAbi(lines[i]) && (forall j :: 0 <= j < i ==> !SettlesAbi(lines[j]))
              ==> AbiOfLines(lines) == if Contains(lines[i], "x86") then "x86" else "arm64-v8a"
  {
    if |lines| > 0 {
      AbiOfLinesDecided(lines[1..]);
      assert forall i :: 1 <= i < |lines| ==> lines[i] == lines[1..][i - 1];
      forall i | 0 <= i < |lines| && SettlesAbi(lines[i]) && (forall j :: 0 <= j < i ==> !SettlesAbi(lines[j]))
        ensures AbiOfLines(lines) == if Contains(lines[i], "x86") then "x86" else "arm64-v8a"
      {
        if i > 0 {
          assert !SettlesAbi(lines[0]);
          assert SettlesAbi(lines[1..][i - 1]);
          assert forall j :: 0 <= j < i - 1 ==> !SettlesAbi(lines[1..][j]) by {
            forall j | 0 <= j < i - 1 ensures !SettlesAbi(lines[1..][j]) {
              assert lines[1..][j] == lines[j + 1];
            }
          }
        }
      }
      if AbiOfLines(lines) == "armeabi-v7a" {
        forall i | 0 <= i < |lines| ensures !SettlesAbi(lines[i]) {
          if i > 0 { assert lines[i] == lines[1..][i - 1]; }
        }
      }
    }
  }
}
