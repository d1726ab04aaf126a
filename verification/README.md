# goadb: a Dafny model of the adb client core

goadb is a Go wrapper around Android's `adb` command-line tool (`adb.go`).
Its `Client` runs `adb` and reads what it prints. It can:

- list devices and port forwards;
- find process ids and an installed package's apk path and ABI;
- build the shell command that starts the Robotmon service on a device;
- start and stop that service;
- find the device's IP address.

This project models the parsing and decision logic of that client. Running
`adb` is not part of the model. Each run appears as its captured output and
optional error text (`AdbTypes.Cmd`), and each run whose outcome steers the
control flow is a parameter.

Modules:

- `Wrappers`: `Option`.
- `AdbTypes`: the client's errors, `Result`, `Cmd` and the `Forward` record.
- `GoStrings`: the behaviour of the Go library calls the client relies on:
  - `strings.Split` with a one-character separator;
  - `strings.Contains` and `strings.HasPrefix`;
  - `strings.Trim` and `bytes.Trim`;
  - `strings.Index` of a character;
  - `strconv.ParseInt` in base 10 with 64 bits, and `%d` formatting;
  - `path.Dir`.

  It also holds helpers that the contracts use and the client never calls: `Join`, `HasSuffix`, `TrimLeft`, `TrimRight` (the two halves of `Trim`) and `LastIndexOf` (the last '/' that `path.Dir` cuts at).
- `Parsers`: GetDevices, ForwardList, GetPids, GetApkPath and GetApkAbi. Each
  `for ... range` loop is a method proved equal to a recursive function, and
  the properties are lemmas about those functions.
- `IpAddress`: GetIPAddress, with its ifconfig scan and its netcfg scan. It
  holds the code as written and a corrected version (see Findings).
- `Launch`: getNohubPath and GetRobotmonStartCommand, as a pure builder over
  the facts read from the device.
- `Service`: StartRobotmonService and StopService, as control flow over the
  outcomes of their process probes and kill commands.

A Go panic, such as slicing `tabs[1][4:]` when the field is too short, is
modelled as the error `IndexOutOfRange`. Go integers are 64-bit. The model
uses unbounded integers and states the int64 range where ParseInt imposes it.

## Model

| member | source | states |
|---|---|---|
| Parsers.GetDevices | adb.go:77-92 | A failed `adb devices` returns its error; otherwise the result is the serial of each line whose tab-separated state does not mention "offline", in line order |
| Parsers.DeviceSerials | adb.go:85-90 | At most one serial per output line, and no serial holds a tab |
| Parsers.DeviceSerialsAppend | adb.go:85-90 | The per-line scan distributes over concatenated output: the serials of `a + b` are those of `a` followed by those of `b` |
| Parsers.DevicesRoundTrip | adb.go:84-90 | The text adb prints for a device table (header, `serial<TAB>state` lines, blank line) parses back to exactly the serials of the devices not offline, in order |
| Parsers.DeviceLinesSerials | adb.go:86-89 | Over the device lines alone, the scan keeps exactly the devices whose state does not mention "offline" |
| Parsers.DevicesTextLines | adb.go:84 | Splitting the device table text on line ends gives back its header, its device lines and the blank pieces |
| Parsers.ForwardList | adb.go:108-140 | A failed `adb forward --list` returns its error; otherwise the loop returns the entries of all lines in order, or the error of the first line that fails |
| Parsers.ForwardFields | adb.go:117-121 | A line yields at least one field, and the first field (the serial) never holds a tab, whether it was split on tabs or on spaces |
| Parsers.ForwardOfFields | adb.go:122-135 | A line is skipped iff it has fewer than two fields or its second field mentions "offline". A line that is not skipped, has three fields with the second and third at least 4 characters long, and whose ports both parse is exactly the entry of the first field and those two ports. An entry's serial is the first field, and its ports are what ParseInt reads after the first four characters of the second and third fields, within the int64 range. A second field shorter than 4 characters, or a missing or too-short third field after a valid local port, is IndexOutOfRange. A local port that does not parse is LocalPortMalformed, and a device port that does not parse is DevicePortMalformed |
| Parsers.Extend | adb.go:122-137 | Once the list has failed it stays failed; a failing line turns the list into that line's error; other lines add at most one entry |
| Parsers.ForwardsOfFailedPrefix | adb.go:123-130 | Once a prefix of the lines fails, the whole listing fails with that same error (the loop returns at the first failure) |
| Parsers.PortColumnReads | adb.go:123-127 | The column `tcp:<n>` sliced after its four prefix characters parses back to `n` for every int64 `n` |
| Parsers.ColumnsFields | adb.go:117-121 | Three separator-free columns joined by tabs, or by single spaces, split back into exactly those three fields |
| Parsers.ForwardLineRoundTrip | adb.go:115-135 | A forward printed as `serial tcp:L tcp:D`, separated by tabs or spaces, parses back to the same serial and ports |
| Parsers.ForwardsOfLines | adb.go:116-138 | The lines printed for a list of forwards parse back to that list |
| Parsers.ForwardListRoundTrip | adb.go:115-139 | The whole `forward --list` text for a list of forwards parses back to exactly that list, in order |
| Parsers.FirstNonEmptyFrom | adb.go:243-247 | No pid iff every field from position k is empty; otherwise the pid is a non-empty field at or after k |
| Parsers.FirstNonEmptyAt | adb.go:243-247 | The pid is the first non-empty field after the user column |
| Parsers.PidsOf | adb.go:239-250 | At most one pid per line, and every pid is non-empty and holds no space |
| Parsers.GetPids | adb.go:216-251 | The result is Ok iff the `ps` run failed at most with an "exit" error and, when its output was empty, so did the `ps -A` run. Otherwise the error of the run that failed is returned. On success the pids are read from the `ps` output, or from the `ps -A` output when the first was empty |
| Parsers.PidOfLine | adb.go:242-248 | The inner loop returns the first non-empty space-separated field after the first |
| Parsers.PsLineFields | adb.go:242 | A `ps` line of user, spaces and the rest splits into the user, one empty field per extra space and the rest's fields |
| Parsers.PsLinePid | adb.go:242-248 | A `ps` line `user   pid ...` yields `pid`, however many spaces pad the columns |
| Parsers.ApkPath | adb.go:283-298 | A failure whose text lacks "exit status 1" is returned as is. Otherwise the result is NotInstalled iff the output, trimmed of line ends, holds no ':'. A path found holds no ':' |
| Parsers.ApkPathSegments | adb.go:286-298 | For a run that succeeded or failed with "exit status 1", the path is the piece of the output, trimmed of line ends, between the first and the second ':'; anything after a second ':' is dropped |
| Parsers.ApkPathOfPackageLine | adb.go:292-298 | `pm path` output `package:<path>` followed by line ends yields `<path>` |
| Parsers.ApkPathOfLine | adb.go:292-298 | Any colon-free head, then `:`, then a colon-free path, then line ends yields that path |
| Parsers.TrimLineEnd | adb.go:293 | Trimming "\r\n" removes trailing line ends and keeps a line whose ends are not line-end characters |
| Parsers.AbiOfLines | adb.go:320-331 | The ABI is always one of x86, arm64-v8a or armeabi-v7a |
| Parsers.ApkAbi | adb.go:312-332 | The result is "" exactly when `pm dump` failed; otherwise it is one of the three ABIs |
| Parsers.GetApkAbi | adb.go:312-332 | The loop returns what the scan specifies |
| Parsers.AbiOfLinesDecided | adb.go:320-331 | The result is armeabi-v7a iff no line mentions primaryCpuAbi together with x86 or arm64-v8a. Otherwise the first such line decides, and x86 wins over arm64-v8a on that line |
| GoStrings.SplitJoin | adb.go:84 | Splitting separator-free pieces joined by the separator gives back the pieces (round trip of strings.Split) |
| GoStrings.JoinSplit | adb.go:84 | Joining the pieces of a split gives back the original text |
| GoStrings.SplitCount | adb.go:84 | Split returns one piece more than the separator occurs |
| GoStrings.ParseFormatInt | adb.go:123-127 | ParseInt reads back the decimal text of every int64 |
| GoStrings.PathDir | adb.go:341 | path.Dir is "." for a path without '/'. Otherwise it is "/" when only slashes precede the last '/'. Else it is a proper prefix of the path, not ending in '/', followed only by slashes up to and including the last '/' |
| GoStrings.Trim | adb.go:184 | The result sits inside the text with only cut characters before and after it, and it neither starts nor ends with one |
| GoStrings.PathDirChars | adb.go:341 | path.Dir introduces no character other than '.' and '/' |
| GoStrings.ContainsAt | adb.go:87 | strings.Contains holds iff the substring occurs at some index |
| IpAddress.ShellOutput | adb.go:177-185 | A failed shell run reads as "". Otherwise the output is the stretch of stdout left between two runs of '\r', '\n' and ' ', and it neither starts nor ends with one of them |
| IpAddress.FirstSomeNone | adb.go:472-480 | A first-hit scan finds nothing iff no element yields a value |
| IpAddress.FirstSomeFirst | adb.go:472-480 | A hit comes from an element that yields it, and no earlier element yields anything |
| IpAddress.LineAddress | adb.go:473-478 | A line yields an address only if it mentions "inet " and none of 127.0.0.1, 0.0.0.0 or ":172."; the address is non-empty |
| IpAddress.ScanInetAddr | adb.go:476 | What `Sscanf("inet addr:%s ")` reads is a non-empty word without white space |
| IpAddress.IfconfigIPFinds | adb.go:470-480 | The ifconfig answer is "" iff no line yields an address; otherwise it is the address of the first line that does |
| IpAddress.ScanIfconfig | adb.go:471-480 | The ifconfig loop returns the first-hit answer |
| IpAddress.WordReads | adb.go:476 | `%s` reads a word up to the first white space |
| IpAddress.TrimmedLineScans | adb.go:476 | An indented line `inet addr:<w> ...` trimmed of blanks scans to `w` |
| IpAddress.IfconfigLineAddress | adb.go:473-476 | A qualifying ifconfig line `   inet addr:<w> ...` yields `w` |
| IpAddress.NetcfgAddress | adb.go:486-490 | A netcfg token yields an address only if it is longer than 10 characters. The address is its text before the first '/', and it is none of 0.0.0.0, 127.0.0.1 or 172.* |
| IpAddress.NetcfgAddressReads | adb.go:486-490 | A token `<a>/<mask>` longer than 10 characters with a qualifying `a` yields `a` |
| IpAddress.ScanTokens | adb.go:485-493 | The token loop finds the first qualifying token of a line |
| IpAddress.ScanNetcfg | adb.go:483-494 | The netcfg loop finds the first qualifying token of the first line that has one |
| IpAddress.NetcfgHitFinds | adb.go:483-494 | The netcfg scan hits iff some line has a qualifying token. The hit is the address of the first qualifying token of the first line that has one |
| IpAddress.IPAddressAsWritten | adb.go:468-496 | As written, the answer is always the ifconfig answer: the netcfg scan never changes it |
| IpAddress.GetIPAddress | adb.go:468-496 | The two loops, as written, compute that answer |
| IpAddress.AsWrittenLosesNetcfgAddress | adb.go:491 | With empty ifconfig output and netcfg output `wlan0 UP 192.168.1.23/24`, the code as written returns "" while the intended version returns 192.168.1.23 |
| IpAddress.IPAddressSources | adb.go:468-496 | Intended behaviour: a non-empty ifconfig answer is the answer. Otherwise, when some netcfg line has a qualifying token, the answer is the address of the first qualifying token of the first such line. When neither source has an address, the answer is "" |
| IpAddress.GetIPAddressIntended | adb.go:468-496 | The two loops with the netcfg return corrected compute the intended answer |
| Launch.NohupPrefix | adb.go:301-309 | The prefix is "nohup" iff either nohup binary exists, and "daemonize" iff no nohup but a daemonize binary exists. It is "" iff neither exists |
| Launch.AppProcess | adb.go:349-379 | The launcher is always one of app_process, app_process32 or app_process64 |
| Launch.AppProcessPreferred | adb.go:353-379 | The launcher is the first present one in the ABI's order of preference: 64, plain, 32 for arm64-v8a; 32, plain otherwise |
| Launch.AppProcessPresent | adb.go:353-379 | The chosen launcher exists on the device iff some launcher of the ABI's preference list exists (app_process64 never counts for a 32-bit ABI), and app_process64 is chosen only for arm64-v8a |
| Launch.LibraryPath | adb.go:351-377 | The assignment starts `LD_LIBRARY_PATH=` and ends in the apk directory's library directory for the ABI |
| Launch.LibraryPathEntries | adb.go:351-377 | Split on ':', the library path lists the two system directories, then `<apkDir>/lib`, then `<apkDir>/lib/<abi dir>` |
| Launch.BuildCommand | adb.go:335-391 | Fails as GetApkPath failed. Otherwise it returns five details: the library path for the ABI and the apk's directory, `CLASSPATH=<apk>`, the ABI's launcher, the base command and the command. The base command is `<ldPath> <classPath> <launcher> /system/bin com.r2studio.robotmon.Main $@`. The command is the base command double-quoted under `sh -c` behind the detaching prefix |
| Launch.StartCommandUnreadAbi | adb.go:337-379 | The start command fails exactly as GetApkPath does. When `pm dump` fails, GetApkAbi's "" takes the 32-bit ARM branch without notice: the library path ends in `<apkDir>/lib/arm` and the launcher is app_process32 when present, else app_process |
| Launch.CommandQuoting | adb.go:380-381 | With a quote-free apk path the command splits on '"' into exactly prefix, base command and tail, so the shell receives the base command as one argument. An apk path holding '"' breaks this |
| Launch.BuildQuotes | adb.go:350-380 | The base command holds a '"' iff the apk path does |
| Launch.LibraryPathQuotes | adb.go:351-377 | The library path holds a '"' iff the apk directory does |
| Service.StartService | adb.go:394-435 | The loop returns the outcome and the number of launches the start specification gives |
| Service.AttemptsSettle | adb.go:407-434 | From attempt i on: stop at the first probe that fails or finds more than one process and return it; after the third attempt fail with StartFailed |
| Service.StartAttempts | adb.go:394-435 | Nothing is launched iff the first probe fails, finds processes, or the command cannot be built; a running service is returned as found. Otherwise there are at most 3 launches, stopping at the first settling probe, and StartFailed when none settles |
| Service.StartSuccess | adb.go:399-431 | A successful start either found the service running without launching, or saw more than one process after a launch |
| Service.Kills | adb.go:443-458 | One kill command per process, in order, each the signal prefix followed by the pid |
| Service.SendAll | adb.go:443-464 | A kill loop sends commands in order and returns at the first failure, as RunAll specifies |
| Service.RunAllStops | adb.go:443-451 | What ran is a prefix of the commands. The error is absent iff every command succeeds, and then all were sent. Otherwise the last sent command is the first that failed, and its message is the error |
| Service.StopService | adb.go:438-466 | Both loops together compute the stop specification: what was sent and the error |
| Service.StopPhases | adb.go:438-466 | A failed first probe is returned with nothing sent. Otherwise the stop succeeds iff every graceful kill and every forced kill of what the second probe found succeeds, and then each was sent once, in that order. Forced kills follow only after all graceful kills succeeded and only if the second probe found processes. A failed second probe counts as finding none |

## Left out

- Running `adb` (`exec.Command`, `cmd.Output`) is not modelled. Its outcome is the `Cmd` parameter: the stdout and the error text, when there is one. "exit status 1" and the other texts are inputs the model does not produce.
- Init, GetClient and newAdbClient are not modelled. They locate the adb binary on disk.
- Forward, Connect, Restart, TCPIP, Install, Uninstall and GetDeviceABI are not modelled. Their checks on the output are left out with them:
  - Forward turns output that mentions "error" into an error (adb.go:101-103).
  - Connect runs `adb disconnect` unless the output mentions "connected" (adb.go:146-153).
  - Restart runs `kill-server` and then `start-server` (adb.go:159-163).
  - Install and Uninstall return "" and no error when the output mentions "error" (adb.go:195-197, 209-211).
  - TCPIP and GetDeviceABI pass one command's result on.
- Shell is modelled only through its trimming of the output (`IpAddress.ShellOutput`).
- IsFileExist and GetAppProcess are not modelled as operations. Their answers enter as the booleans of `Launch.DeviceFiles`.
- The goroutine and the `time.After` timeout in StartRobotmonService are not modelled, because the model has no concurrency or clock. Neither are the sleeps. Whether a launch ran or timed out does not change what the function returns, and the model counts the launches.
- `fmt.Println` tracing is not modelled; it has no effect on results.
- The process probes and kill commands of StartRobotmonService and StopService are parameters. For StartRobotmonService, a function gives the i-th probe's outcome. For StopService, a function gives each kill command's failure. So the model does not capture the device changing in between in any other way.
- IpAddress.ScanInetAddr: `fmt.Sscanf` white space is taken as ' ', '\t', '\r' and '\n' only. Unicode spaces and Sscanf's other verbs are not modelled.
- GoStrings.PathDir: `path.Clean`'s removal of `.` and `..` elements and of repeated slashes inside the directory is not modelled. Only the cut at the last '/' and the removal of the slashes before it are.
- The model works on strings of characters. Go's byte-level handling of non-ASCII text is not modelled.

## Notes on the code

- ForwardList calls `strings.Trim(line, "")` at adb.go:117. Its cutset is empty, so the call does nothing. The model keeps the call as `Trim(line, {})`, which is the identity.
- StopService ignores the error of its second `GetPids` (adb.go:452-455). A failed re-probe returns nil pids, so the stop reports success. The model keeps this.
- GetIPAddress's netcfg fallback cannot change the answer as written. See Findings.

## Findings

| source | as written | input that shows it | evidently intended | confidence | as-written member | corrected member |
|---|---|---|---|---|---|---|
| adb.go:491 | the netcfg loop returns `ip` (still "" there) on finding a qualifying token | `ifconfig` prints nothing; `netcfg` prints `wlan0 UP 192.168.1.23/24` | return `tmpIP`, i.e. 192.168.1.23 | not executed | IpAddress.AsWrittenLosesNetcfgAddress | IpAddress.IPAddressSources |
