/**
 * GetRobotmonStartCommand and getNohubPath: the shell command that starts
 * the Robotmon service on a device, built from facts already read from it:
 * which helper binaries exist (IsFileExist), the output of `pm path` and the
 * output of `pm dump` for the Robotmon package.
 */
module Launch {
  import opened Wrappers
  import opened GoStrings
  import opened AdbTypes
  import opened Parsers

  /** Which of the files the start command depends on exist on the device. */
  datatype DeviceFiles = DeviceFiles(
    nohupBin: bool,        // /system/bin/nohup
    nohupXbin: bool,       // /system/xbin/nohup
    daemonizeBin: bool,    // /system/bin/daemonize
    daemonizeXbin: bool,   // /system/xbin/daemonize
    app: bool,             // /system/bin/app_process
    app32: bool,           // /system/bin/app_process32
    app64: bool)           // /system/bin/app_process64

  // =====================================================================
  // getNohubPath

  /** The detaching prefix of the command: "nohup" when either nohup binary
      exists, otherwise "daemonize" when either daemonize binary exists,
      otherwise nothing. */
  function NohupPrefix(f: DeviceFiles): (nohup: string)
    ensures nohup == "nohup" <==> f.nohupBin || f.nohupXbin
    ensures nohup == "daemonize" <==> !f.nohupBin && !f.nohupXbin && (f.daemonizeBin || f.daemonizeXbin)
    ensures nohup == "" <==> !f.nohupBin && !f.nohupXbin && !f.daemonizeBin && !f.daemonizeXbin
  {
    if f.nohupBin || f.nohupXbin then "nohup"
    else if f.daemonizeBin || f.daemonizeXbin then "daemonize"
    else ""
  }

  // =====================================================================
  // The app_process launcher

  const Arm64: string := "arm64-v8a"

  /** Whether the device has /system/bin/`name`. */
  predicate HasLauncher(f: DeviceFiles, name: string)
  {
    (name == "app_process" && f.app)
    || (name == "app_process32" && f.app32)
    || (name == "app_process64" && f.app64)
  }

  /** The launcher GetRobotmonStartCommand picks for the package's ABI. */
  function AppProcess(abi: string, f: DeviceFiles): (p: string)
    ensures p in {"app_process", "app_process32", "app_process64"}
  {
    if abi == Arm64 then
      if f.app64 then "app_process64"
      else if f.app then "app_process"
      else "app_process32"
    else if f.app32 then "app_process32"
    else "app_process"
  }

  /** The launchers in the order they are preferred for an ABI. */
  function Preference(abi: string): (names: seq<string>)
    ensures |names| > 0
  {
    if abi == Arm64 then ["app_process64", "app_process", "app_process32"]
    else ["app_process32", "app_process"]
  }

  /** The first launcher of `names` the device has, or the last one when it
      has none of them. */
  function FirstPresent(names: seq<string>, f: DeviceFiles): (p: string)
    requires |names| > 0
    ensures p in names
  {
    if |names| == 1 || HasLauncher(f, names[0]) then names[0]
    else FirstPresent(names[1..], f)
  }

  /** The launcher chosen is the most preferred one for the ABI that the
      device has, and the least preferred one when it has none: app_process64,
      app_process, app_process32 for arm64-v8a, and app_process32,
      app_process for every other ABI. */
  lemma AppProcessPreferred(abi: string, f: DeviceFiles)
    ensures AppProcess(abi, f) == FirstPresent(Preference(abi), f)
  {
    var names := Preference(abi);
    assert names[1..][1..] == names[2..];
  }

  /** The chosen launcher exists exactly when the device has some launcher
      of the ABI's preference list; for a 32-bit ABI app_process64 never
      counts. */
  lemma AppProcessPresent(abi: string, f: DeviceFiles)
    ensures HasLauncher(f, AppProcess(abi, f))
            <==> (if abi == Arm64 then f.app64 || f.app || f.app32 else f.app32 || f.app)
    ensures AppProcess(abi, f) == "app_process64" ==> abi == Arm64
  {
  }

  // =====================================================================
  // LD_LIBRARY_PATH

  /** The ABI's own library directory under the apk's directory. */
  function AbiLibrary(abi: string): string
  {
    if abi == Arm64 then "/lib/arm64"
    else if abi == "x86" then "/lib/x86"
    else "/lib/arm"
  }

  const SystemLib: string := "/system/lib"
  const SystemLib64: string := "/system/lib64"
  const RobotmonLib: string := "/data/data/com.r2studio.robotmon/lib"

  /** The system library directories searched first for an ABI. */
  function SystemLibraries(abi: string): (dirs: seq<string>)
    ensures |dirs| == 2
  {
    if abi == Arm64 then [SystemLib64, SystemLib] else [SystemLib, RobotmonLib]
  }

  /** The directories the launched process searches for libraries, in order. */
  function LibraryDirs(abi: string, apkDir: string): (dirs: seq<string>)
  {
    SystemLibraries(abi) + [apkDir + "/lib", apkDir + AbiLibrary(abi)]
  }

  const LdPrefix: string := "LD_LIBRARY_PATH="

  /** The LD_LIBRARY_PATH assignment of the command. */
  function LibraryPath(abi: string, apkDir: string): (ld: string)
    ensures HasPrefix(ld, LdPrefix)
    ensures HasSuffix(ld, apkDir + AbiLibrary(abi))
  {
    var sys := SystemLibraries(abi);
    var own := apkDir + AbiLibrary(abi);
    var front := sys[0] + [':'] + sys[1] + [':'] + (apkDir + "/lib") + [':'];
    var value := front + own;
    PrefixOfConcat(LdPrefix, value);
    assert LdPrefix + value == (LdPrefix + front) + own;
    SuffixOfConcat(LdPrefix + front, own);
    LdPrefix + value
  }

  /** Split on ':', the value of LD_LIBRARY_PATH lists the system libraries,
      then the apk's lib directory, then its ABI subdirectory, provided the
      apk's directory holds no ':'. */
  lemma LibraryPathEntries(abi: string, apkDir: string)
    requires ':' !in apkDir
    ensures Split(LibraryPath(abi, apkDir)[|LdPrefix|..], ':') == LibraryDirs(abi, apkDir)
  {
    var sys := SystemLibraries(abi);
    LibraryValueText(abi, apkDir);
    LibraryEntriesFree(abi, apkDir);
    SplitQuad(sys[0], sys[1], apkDir + "/lib", apkDir + AbiLibrary(abi), ':');
  }

  /** The value of LD_LIBRARY_PATH is its directories joined by ':'. */
  lemma LibraryValueText(abi: string, apkDir: string)
    ensures var sys := SystemLibraries(abi);
            LibraryPath(abi, apkDir)[|LdPrefix|..]
            == sys[0] + [':'] + sys[1] + [':'] + (apkDir + "/lib") + [':'] + (apkDir + AbiLibrary(abi))
  {
    var sys := SystemLibraries(abi);
    var value := sys[0] + [':'] + sys[1] + [':'] + (apkDir + "/lib") + [':'] + (apkDir + AbiLibrary(abi));
    PrefixOfConcat(LdPrefix, value);
  }

  /** No library directory of the list holds ':'. */
  lemma LibraryEntriesFree(abi: string, apkDir: string)
    requires ':' !in apkDir
    ensures var sys := SystemLibraries(abi);
            ':' !in sys[0] && ':' !in sys[1]
            && ':' !in apkDir + "/lib" && ':' !in apkDir + AbiLibrary(abi)
  {
    var sys := SystemLibraries(abi);
    var sub := AbiLibrary(abi);
    assert forall k :: 0 <= k < |sys[0]| ==> sys[0][k] != ':';
    assert forall k :: 0 <= k < |sys[1]| ==> sys[1][k] != ':';
    assert forall k :: 0 <= k < |sub| ==> sub[k] != ':';
    var lib := "/lib";
    assert forall k :: 0 <= k < |lib| ==> lib[k] != ':';
  }

  // =====================================================================
  // GetRobotmonStartCommand

  /** The command that runs the service's main class under the launcher. */
  function BaseCommand(ldPath: string, classPath: string, appProcess: string): string
  {
    ldPath + " " + classPath + " " + appProcess + " /system/bin com.r2studio.robotmon.Main $@"
  }

  const ShellHead: string := " sh -c "
  const ShellTail: string := " > /dev/null 2> /dev/null && sleep 1 &"

  /** The base command quoted for `sh -c`, detached behind the prefix, with
      its output discarded. */
  function ShellCommand(nohup: string, base: string): string
  {
    nohup + ShellHead + "\"" + base + "\"" + ShellTail
  }

  /** The command and the parts it was built from, in the order
      ldPath, classPath, appProcess, baseCommand, command. */
  datatype LaunchPlan = LaunchPlan(command: string, details: seq<string>)

  /** GetRobotmonStartCommand, given what GetApkPath and GetApkAbi returned:
      fails as GetApkPath did; otherwise the library path is the one for the
      package's ABI and the apk's directory, the class path is the apk, the
      launcher is the one chosen for that ABI, the base command runs the
      service's main class with these three, and the command runs the base
      command double-quoted under `sh -c` behind the detaching prefix. */
  function BuildCommand(f: DeviceFiles, apkPath: Result<string>, abi: string): (r: Result<LaunchPlan>)
    ensures apkPath.Err? ==> r == Err(apkPath.error)
    ensures apkPath.Ok? ==>
              && r.Ok? && |r.value.details| == 5
              && r.value.details[1] == "CLASSPATH=" + apkPath.value
              && r.value.details[0] == LibraryPath(abi, PathDir(apkPath.value))
              && HasPrefix(r.value.details[0], LdPrefix)
              && HasSuffix(r.value.details[0], PathDir(apkPath.value) + AbiLibrary(abi))
              && r.value.details[2] == AppProcess(abi, f)
              && r.value.details[3] == r.value.details[0] + " " + r.value.details[1] + " " + r.value.details[2]
                                       + " /system/bin com.r2studio.robotmon.Main $@"
              && r.value.command == NohupPrefix(f) + ShellHead + "\"" + r.value.details[3] + "\"" + ShellTail
              && r.value.details[4] == r.value.command
  {
    match apkPath
    case Err(e) => Err(e)
    case Ok(apk) =>
      var apkDir := PathDir(apk);
      var classPath := "CLASSPATH=" + apk;
      var ldPath := LibraryPath(abi, apkDir);
      var appProcess := AppProcess(abi, f);
      var base := BaseCommand(ldPath, classPath, appProcess);
      var command := ShellCommand(NohupPrefix(f), base);
      Ok(LaunchPlan(command, [ldPath, classPath, appProcess, base, command]))
  }

  /** GetRobotmonStartCommand on the outputs of `pm path` and `pm dump`. */
  function StartCommand(f: DeviceFiles, pmPath: Cmd, pmDump: Cmd): Result<LaunchPlan>
  {
    BuildCommand(f, ApkPath(pmPath), ApkAbi(pmDump))
  }

  /** A start command fails exactly as GetApkPath does. When `pm dump` fails,
      GetApkAbi's "" is taken for a 32-bit ARM package without notice: the
      library path ends in the apk directory's /lib/arm and the launcher is
      app_process32 when present, else app_process. */
  lemma StartCommandUnreadAbi(f: DeviceFiles, pmPath: Cmd, pmDump: Cmd)
    ensures ApkPath(pmPath).Err? ==> StartCommand(f, pmPath, pmDump) == Err(ApkPath(pmPath).error)
    ensures pmDump.failure.Some? && ApkPath(pmPath).Ok? ==>
              var plan := StartCommand(f, pmPath, pmDump).value;
              && HasSuffix(plan.details[0], PathDir(ApkPath(pmPath).value) + "/lib/arm")
              && plan.details[2] == (if f.app32 then "app_process32" else "app_process")
  {
    if pmDump.failure.Some? {
      assert ApkAbi(pmDump) == "";
      assert AbiLibrary("") == "/lib/arm";
    }
  }

  // =====================================================================
  // Quoting

  /** The text in front of the opening quote of the command. */
  function QuoteHead(f: DeviceFiles): string
  {
    NohupPrefix(f) + ShellHead
  }

  /** The base command reaches `sh -c` as the one double-quoted word of the
      command exactly when the apk's path holds no double quote; otherwise
      the quotes of the path break the command into more words. */
  lemma CommandQuoting(f: DeviceFiles, apk: string, abi: string)
    ensures var plan := BuildCommand(f, Ok(apk), abi).value;
            '"' !in apk ==> Split(plan.command, '"') == [QuoteHead(f), plan.details[3], ShellTail]
    ensures var plan := BuildCommand(f, Ok(apk), abi).value;
            '"' in apk ==> |Split(plan.command, '"')| > 3
  {
    var plan := BuildCommand(f, Ok(apk), abi).value;
    var base := plan.details[3];
    BuildQuotes(f, apk, abi);
    LiteralsQuoteFree(f);
    assert plan.command == QuoteHead(f) + ['"'] + base + ['"'] + ShellTail;
    SplitQuoted(QuoteHead(f), base, ShellTail, '"');
  }

  /** The base command holds a double quote exactly when the apk's path does. */
  lemma BuildQuotes(f: DeviceFiles, apk: string, abi: string)
    ensures '"' in BuildCommand(f, Ok(apk), abi).value.details[3] <==> '"' in apk
  {
    var apkDir := PathDir(apk);
    var ld := LibraryPath(abi, apkDir);
    var proc := AppProcess(abi, f);
    LibraryPathQuotes(abi, apkDir);
    PathDirChars(apk, '"');
    LauncherQuoteFree(abi, f);
    BaseCommandQuotes(ld, "CLASSPATH=" + apk, proc);
    ClassPathQuotes(apk);
  }

  lemma ClassPathQuotes(apk: string)
    ensures '"' in "CLASSPATH=" + apk <==> '"' in apk
  {
    var lit := "CLASSPATH=";
    assert forall k :: 0 <= k < |lit| ==> lit[k] != '"';
  }

  lemma LauncherQuoteFree(abi: string, f: DeviceFiles)
    ensures '"' !in AppProcess(abi, f)
  {
    var a, b, c := "app_process", "app_process32", "app_process64";
    assert forall k :: 0 <= k < |a| ==> a[k] != '"';
    assert forall k :: 0 <= k < |b| ==> b[k] != '"';
    assert forall k :: 0 <= k < |c| ==> c[k] != '"';
  }

  lemma BaseCommandQuotes(ld: string, cp: string, proc: string)
    ensures '"' in BaseCommand(ld, cp, proc) <==> '"' in ld || '"' in cp || '"' in proc
  {
    var tail := " /system/bin com.r2studio.robotmon.Main $@";
    assert forall k :: 0 <= k < |tail| ==> tail[k] != '"';
    assert BaseCommand(ld, cp, proc) == ld + " " + cp + " " + proc + tail;
  }

  /** The library path holds a double quote exactly when the apk's directory does. */
  lemma LibraryPathQuotes(abi: string, apkDir: string)
    ensures '"' in LibraryPath(abi, apkDir) <==> '"' in apkDir
  {
    var sys := SystemLibraries(abi);
    LibraryLiteralsQuoteFree(abi);
    assert LibraryPath(abi, apkDir)
        == LdPrefix + sys[0] + [':'] + sys[1] + [':'] + (apkDir + "/lib") + [':'] + (apkDir + AbiLibrary(abi));
  }

  lemma LibraryLiteralsQuoteFree(abi: string)
    ensures var sys := SystemLibraries(abi);
            '"' !in sys[0] && '"' !in sys[1] && '"' !in AbiLibrary(abi) && '"' !in "/lib" && '"' !in LdPrefix
  {
    var sys := SystemLibraries(abi);
    var sub := AbiLibrary(abi);
    var lib := "/lib";
    var ld := LdPrefix;
    assert forall k :: 0 <= k < |sys[0]| ==> sys[0][k] != '"';
    assert forall k :: 0 <= k < |sys[1]| ==> sys[1][k] != '"';
    assert forall k :: 0 <= k < |sub| ==> sub[k] != '"';
    assert forall k :: 0 <= k < |lib| ==> lib[k] != '"';
    assert forall k :: 0 <= k < |ld| ==> ld[k] != '"';
  }

  /** The fixed parts of the command around the quotes hold no double quote. */
  lemma LiteralsQuoteFree(f: DeviceFiles)
    ensures '"' !in QuoteHead(f) && '"' !in ShellTail
  {
    var nohup := NohupPrefix(f);
    var head, tail := ShellHead, ShellTail;
    assert forall k :: 0 <= k < |nohup| ==> nohup[k] != '"';
    assert forall k :: 0 <= k < |head| ==> head[k] != '"';
    assert forall k :: 0 <= k < |tail| ==> tail[k] != '"';
  }
}
