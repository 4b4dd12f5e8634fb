/**
 * `[sudo] stop <process ID>|<process ID file path> [-d <base dir>]`: decide which
 * PID to kill (given on the command line or read from a PID file), issue one
 * kill command through the tree-killing helper, and delete the PID file if it
 * was the source of the PID.
 */
module Stopper {
  import opened Results
  import opened Js
  import opened Files
  import opened Cli

  /** The script's accumulator variables while it scans its arguments. */
  datatype Options = Options(
    pidNum: Option<Number>,   // parseInt of the positional, or null
    pidPath: Option<Path>,    // the positional, when its number is falsy
    baseDir: Option<Path>,
    baseDirFlag: bool)        // the next token is the value of -d

  const Initial: Options := Options(None, None, None, false)

  datatype StopError =
    | InvalidBaseDir(dir: Path)
    | Usage
    | NoPidSource
    | NoPidFile(path: Path)
    | UnreadablePidFile(path: Path)

  /** The positional sets the PID file path exactly when its number is falsy, and
      -d is pending only while no base directory is set. */
  predicate Valid(o: Options)
  {
    && (o.baseDirFlag ==> o.baseDir.None?)
    && (o.pidPath.Some? <==> o.pidNum.Some? && !Truthy(o.pidNum.value))
  }

  /** One call of the `forEach` callback, on the already trimmed token. */
  function Step(o: Options, fs: FileSystem, option: string): (r: Result<Options, StopError>)
    // a pending -d value is taken whatever it looks like, must exist, and changes
    // nothing else
    ensures o.baseDirFlag ==>
      && (r.Ok? <==> Exists(fs, option))
      && (r.Err? ==> r.error == InvalidBaseDir(option))
      && (r.Ok? ==> r.value.baseDir == Some(option) && !r.value.baseDirFlag)
      && (r.Ok? ==> r.value.(baseDir := o.baseDir, baseDirFlag := true) == o)
    // with nothing pending, -d/--basedir is the only option
    ensures !o.baseDirFlag && StartsWithDash(option) ==>
      && (r.Ok? <==> option == "-d" || option == "--basedir")
      && (r.Err? ==> r.error == Usage)
    // -d makes the next token its value while the base directory is unset, and is
    // ignored once it is set
    ensures !o.baseDirFlag && (option == "-d" || option == "--basedir") ==>
      r == Ok(if o.baseDir.None? then o.(baseDirFlag := true) else o)
    // the first positional is a PID when parseInt makes it truthy, and a PID file path otherwise;
    // any later positional is a usage error
    ensures !o.baseDirFlag && !StartsWithDash(option) ==>
      && (r.Ok? <==> o.pidNum.None? && o.pidPath.None?)
      && (r.Ok? ==> r.value.pidNum == Some(ParseInt(option)))
      && (r.Ok? ==> (r.value.pidPath == Some(option) <==> !Truthy(ParseInt(option))))
      && (r.Ok? ==> r.value.(pidNum := o.pidNum, pidPath := o.pidPath) == o)
      && (r.Err? ==> r.error == Usage)
    ensures Valid(o) && r.Ok? ==> Valid(r.value)
    // the first -d wins, and the positional is never replaced
    ensures Valid(o) && o.baseDir.Some? && r.Ok? ==> r.value.baseDir == o.baseDir && !r.value.baseDirFlag
    ensures o.pidNum.Some? && r.Ok? ==> r.value.pidNum == o.pidNum && r.value.pidPath == o.pidPath
  {
    if o.baseDirFlag then
      if Exists(fs, option) then Ok(o.(baseDirFlag := false, baseDir := Some(option)))
      else Err(InvalidBaseDir(option))
    else if StartsWithDash(option) then
      if option == "-d" || option == "--basedir" then
        Ok(if o.baseDir.None? then o.(baseDirFlag := true) else o)
      else Err(Usage)
    else if o.pidNum.None? && o.pidPath.None? then
      var n := ParseInt(option);
      Ok(o.(pidNum := Some(n), pidPath := if !Truthy(n) then Some(option) else o.pidPath))
    else Err(Usage)
  }

  function Stepper(fs: FileSystem): (Options, string) -> Result<Options, StopError>
  {
    (o, option) => Step(o, fs, option)
  }

  /** The whole scan of the arguments, from the script's initial values. */
  function Parse(fs: FileSystem, args: seq<string>): (r: Result<Options, StopError>)
    ensures r.Ok? ==> Valid(r.value)
  {
    ScanInvariant(Stepper(fs), Valid, Initial, args);
    Scan(Stepper(fs), Initial, args)
  }

  /** The first -d and the positional win: once set, a later token never changes them. */
  lemma FirstValuesWin(fs: FileSystem, a: seq<string>, b: seq<string>)
    requires Parse(fs, a).Ok? && Parse(fs, a + b).Ok?
    ensures Parse(fs, a).value.baseDir.Some? ==> Parse(fs, a + b).value.baseDir == Parse(fs, a).value.baseDir
    ensures Parse(fs, a).value.pidNum.Some? ==>
      Parse(fs, a + b).value.pidNum == Parse(fs, a).value.pidNum
      && Parse(fs, a + b).value.pidPath == Parse(fs, a).value.pidPath
  {
    var o := Parse(fs, a).value;
    ScanAppend(Stepper(fs), Initial, a, b);
    ScanInvariant(Stepper(fs), (x: Options) => Valid(x) && (o.baseDir.Some? ==> x.baseDir == o.baseDir), o, b);
    ScanInvariant(Stepper(fs), (x: Options) => o.pidNum.Some? ==> x.pidNum == o.pidNum && x.pidPath == o.pidPath, o, b);
  }

  /** The scan reads the disk only to check that a -d value exists: on a disk where
      fewer paths exist, it either fails or reaches the same state. */
  lemma {:induction false} ScanOnSmallerDisk(fs: FileSystem, fs': FileSystem, o: Options, args: seq<string>)
    requires forall p :: Exists(fs', p) ==> Exists(fs, p)
    ensures Scan(Stepper(fs'), o, args).Ok? ==> Scan(Stepper(fs), o, args) == Scan(Stepper(fs'), o, args)
    decreases |args|
  {
    if |args| > 0 {
      match Step(o, fs', Trim(args[0]))
      case Err(e) =>
      case Ok(o') =>
        assert Step(o, fs, Trim(args[0])) == Ok(o');
        ScanOnSmallerDisk(fs, fs', o', args[1..]);
    }
  }

  /** A lone positional is the PID when its number is truthy and the PID file's path otherwise. */
  lemma ParseOnePositional(fs: FileSystem, p: string)
    requires Trimmed(p) && !StartsWithDash(p)
    ensures Parse(fs, [p]) == Ok(Initial.(pidNum := Some(ParseInt(p)),
                                          pidPath := if Truthy(ParseInt(p)) then None else Some(p)))
  {
    assert Trim(p) == p by { TrimKeeps(p); }
    assert Step(Initial, fs, p).Ok? by { StepOnePositional(fs, p); }
    ScanGoesOn(Stepper(fs), Initial, [], p, []);
    StepOnePositional(fs, p);
    assert [] + [p] + [] == [p];
  }

  /** The first positional sets the PID, and the PID file when the PID is falsy. */
  lemma StepOnePositional(fs: FileSystem, p: string)
    requires !StartsWithDash(p)
    ensures Step(Initial, fs, p) == Ok(Initial.(pidNum := Some(ParseInt(p)),
                                               pidPath := if Truthy(ParseInt(p)) then None else Some(p)))
  {
  }

  /** `0` is not a PID: it is taken as the path of a PID file. */
  lemma ZeroIsAPath(fs: FileSystem)
    ensures Parse(fs, ["0"]) == Ok(Initial.(pidNum := Some(Num(0)), pidPath := Some("0")))
  {
    TrimKeeps("0");
    assert LeadingSpaces("0") == 0;
    assert DigitPrefix("0") == 1;
    assert "0"[..1] == "0";
    assert DigitsValue("0") == 0 by { assert "0"[..0] == ""; }
    ParseOnePositional(fs, "0");
  }

  /** `-d`, first of all, leaves its value pending. */
  lemma StepBaseDirFlag(fs: FileSystem)
    ensures Step(Initial, fs, "-d") == Ok(Initial.(baseDirFlag := true))
  {
    assert StartsWithDash("-d");
  }

  /** A leading -d leaves its value pending for the next token. */
  lemma ScanBaseDirFlag(fs: FileSystem, rest: seq<string>)
    ensures Scan(Stepper(fs), Initial, ["-d"] + rest) == Scan(Stepper(fs), Initial.(baseDirFlag := true), rest)
  {
    TrimKeeps("-d");
    StepBaseDirFlag(fs);
    ScanGoesOn(Stepper(fs), Initial, [], "-d", rest);
    assert [] + ["-d"] + rest == ["-d"] + rest;
  }

  /** A pending -d takes an existing directory and ends the scan there. */
  lemma ScanPendingBaseDir(fs: FileSystem, baseDir: Path)
    requires Trim(baseDir) == baseDir && Exists(fs, baseDir)
    ensures Scan(Stepper(fs), Initial.(baseDirFlag := true), [baseDir]) == Ok(Initial.(baseDir := Some(baseDir)))
  {
    StepPendingBaseDir(fs, baseDir);
    ScanGoesOn(Stepper(fs), Initial.(baseDirFlag := true), [], baseDir, []);
    assert [] + [baseDir] + [] == [baseDir];
  }

  /** The pending value of `-d` is taken when it exists. */
  lemma StepPendingBaseDir(fs: FileSystem, baseDir: Path)
    requires Exists(fs, baseDir)
    ensures Step(Initial.(baseDirFlag := true), fs, baseDir) == Ok(Initial.(baseDir := Some(baseDir)))
  {
  }

  /** `-d <dir>` alone, for an existing directory, sets just the base directory. */
  lemma ParseBaseDirOnly(fs: FileSystem, baseDir: Path)
    requires Trimmed(baseDir) && Exists(fs, baseDir)
    ensures Parse(fs, ["-d", baseDir]) == Ok(Initial.(baseDir := Some(baseDir)))
  {
    var x := Scan(Stepper(fs), Initial, ["-d", baseDir]);
    var y := Scan(Stepper(fs), Initial.(baseDirFlag := true), [baseDir]);
    assert x == y by {
      ScanBaseDirFlag(fs, [baseDir]);
      assert ["-d"] + [baseDir] == ["-d", baseDir];
    }
    assert y == Ok(Initial.(baseDir := Some(baseDir))) by {
      TrimKeeps(baseDir);
      ScanPendingBaseDir(fs, baseDir);
    }
  }

  /** What the kill is aimed at, and whether the PID came from the file. */
  datatype Target = Target(pid: Number, pidPath: Path, fromFile: bool)

  function DefaultPidPath(baseDir: Path): Path
  {
    Resolve(Resolve(baseDir, "bin"), "server.pid")
  }

  /** `pidPath` is truthy: set, and not the empty string. */
  predicate PathGiven(o: Options)
  {
    o.pidPath.Some? && o.pidPath.value != ""
  }

  /** A truthy PID was given on the command line. */
  predicate PidGiven(o: Options)
  {
    o.pidNum.Some? && Truthy(o.pidNum.value)
  }

  /** The PID-file path the script settles on, when it can settle on one. */
  function PidPathOf(o: Options): Path
    requires PathGiven(o) || o.baseDir.Some?
  {
    if PathGiven(o) then o.pidPath.value else DefaultPidPath(o.baseDir.value)
  }

  /** After the scan: settle the PID-file path, then, unless a PID was given, read
      the PID from that file. */
  function Locate(o: Options, fs: FileSystem): (r: Result<Target, StopError>)
    // without a PID-file path a base directory is needed, even when a PID was given
    ensures !PathGiven(o) && o.baseDir.None? ==> r == Err(NoPidSource)
    ensures r.Ok? ==> r.value.pidPath == PidPathOf(o)
    // a given PID is used as is and the file is left alone
    ensures r.Ok? ==> (r.value.fromFile <==> !PidGiven(o))
    ensures r.Ok? && PidGiven(o) ==> r.value.pid == o.pidNum.value
    ensures (PathGiven(o) || o.baseDir.Some?) && PidGiven(o) ==> r.Ok?
    // otherwise the path must be a readable regular file, and its contents are not validated
    ensures (PathGiven(o) || o.baseDir.Some?) && !PidGiven(o) ==>
      && (r.Ok? <==> PidPathOf(o) in fs.files && PidPathOf(o) !in fs.unreadable)
      && (r.Ok? ==> r.value.pid == ParseInt(fs.files[PidPathOf(o)]))
      && (PidPathOf(o) !in fs.files ==> r == Err(NoPidFile(PidPathOf(o))))
  {
    if !PathGiven(o) && o.baseDir.None? then Err(NoPidSource)
    else
      var path := PidPathOf(o);
      if PidGiven(o) then Ok(Target(o.pidNum.value, path, false))
      else if path !in fs.files then Err(NoPidFile(path))
      else if path in fs.unreadable then Err(UnreadablePidFile(path))
      else Ok(Target(ParseInt(fs.files[path]), path, true))
  }

  /** Parsing followed by locating the PID: everything decided before the kill. */
  function Plan(args: seq<string>, fs: FileSystem): Result<Target, StopError>
  {
    match Parse(fs, args)
    case Err(e) => Err(e)
    case Ok(o) => Locate(o, fs)
  }

  /** `'sudo ' + nodejs + ' ' + killerPath + ' ' + pidNum`, a shell command line. */
  function KillCommand(nodejs: Path, killerPath: Path, pid: Number): string
  {
    "sudo " + nodejs + " " + killerPath + " " + NumberToString(pid)
  }

  /** The last word of a shell command line: what the kill helper reads its PID from. */
  function LastWord(s: string): (w: string)
    ensures ' ' !in w
    ensures |w| <= |s| && w == s[|s| - |w|..]
  {
    if |s| == 0 || s[|s| - 1] == ' ' then []
    else LastWord(s[..|s| - 1]) + [s[|s| - 1]]
  }

  lemma {:induction false} LastWordAfterSpace(prefix: string, word: string)
    requires ' ' !in word
    ensures LastWord(prefix + " " + word) == word
    decreases |word|
  {
    var s := prefix + " " + word;
    if |word| > 0 {
      assert s[..|s| - 1] == prefix + " " + word[..|word| - 1];
      LastWordAfterSpace(prefix, word[..|word| - 1]);
      assert word == word[..|word| - 1] + [word[|word| - 1]];
    }
  }

  /** The PID the kill helper acts on: `parseInt` of its last argument. */
  function KillerPid(command: string): Number
  {
    ParseInt(LastWord(command))
  }

  /** The kill helper acts on exactly the PID the stop script settled on, whatever
      the node and helper paths look like. */
  lemma KillCommandCarriesPid(nodejs: Path, killerPath: Path, pid: Number)
    ensures KillerPid(KillCommand(nodejs, killerPath, pid)) == pid
  {
    LastWordAfterSpace("sudo " + nodejs + " " + killerPath, NumberToString(pid));
    ParseIntRoundTrip(pid);
  }

  function KillerPath(scriptDir: Path): Path
  {
    Resolve(scriptDir, "server-stopper-kill.js")
  }

  /** The effects of stopping a located target, given the exit status of the kill
      command: exactly one kill command, then the PID file goes, only if the PID
      came from it. `execSync` throws when the command exits non-zero, so a failed
      kill ends the run before the file is removed. */
  function Killed(t: Target, nodejs: Path, scriptDir: Path, killStatus: int): (out: Outcome)
    ensures out.ending == (if killStatus == 0 then Exit(0) else Uncaught)
    ensures |out.effects| > 0 && out.effects[0] == Exec(KillCommand(nodejs, KillerPath(scriptDir), t.pid))
    ensures KillerPid(out.effects[0].command) == t.pid
    ensures forall i :: 0 < i < |out.effects| ==> !out.effects[i].Exec?
    ensures |out.effects| == (if t.fromFile && killStatus == 0 then 2 else 1)
    ensures |out.effects| == 2 ==> out.effects[1] == RemoveFile(t.pidPath)
  {
    KillCommandCarriesPid(nodejs, KillerPath(scriptDir), t.pid);
    KillThen(KillCommand(nodejs, KillerPath(scriptDir), t.pid), t, killStatus)
  }

  /** Running `command` as the kill, then removing the PID file when the kill
      succeeded and the PID came from a file. */
  function KillThen(command: string, t: Target, killStatus: int): (out: Outcome)
    ensures out.ending == (if killStatus == 0 then Exit(0) else Uncaught)
    ensures |out.effects| > 0 && out.effects[0] == Exec(command)
    ensures forall i :: 0 < i < |out.effects| ==> !out.effects[i].Exec?
    ensures |out.effects| == (if t.fromFile && killStatus == 0 then 2 else 1)
    ensures |out.effects| == 2 ==> out.effects[1] == RemoveFile(t.pidPath)
  {
    if killStatus != 0 then Outcome([Exec(command)], Uncaught)
    else if t.fromFile then Outcome([Exec(command), RemoveFile(t.pidPath)], Exit(0))
    else Outcome([Exec(command)], Exit(0))
  }

  /** A whole `stop` run. `nodejs` is the running node binary (`process.argv[0]`),
      `scriptDir` the directory holding the scripts, and `killStatus` the exit
      status the kill command would return. */
  function Stop(nodejs: Path, scriptDir: Path, args: seq<string>, fs: FileSystem, killStatus: int): (out: Outcome)
    // any failure exits before anything is run or removed
    ensures Plan(args, fs).Err? <==> out == Outcome([], Exit(ExitFailure))
    ensures Plan(args, fs).Ok? ==> out == Killed(Plan(args, fs).value, nodejs, scriptDir, killStatus)
  {
    match Plan(args, fs)
    case Err(_) => Outcome([], Exit(ExitFailure))
    case Ok(t) => Killed(t, nodejs, scriptDir, killStatus)
  }

  /** Naming a readable PID file that is not itself a number kills the PID the file
      holds and removes the file. */
  lemma StopByPidFile(nodejs: Path, scriptDir: Path, p: Path, fs: FileSystem)
    requires Trimmed(p) && p != "" && !StartsWithDash(p) && !Truthy(ParseInt(p))
    requires p in fs.files && p !in fs.unreadable
    ensures Stop(nodejs, scriptDir, [p], fs, 0) ==
      Outcome([Exec(KillCommand(nodejs, KillerPath(scriptDir), ParseInt(fs.files[p]))), RemoveFile(p)], Exit(0))
  {
    var o := Initial.(pidNum := Some(ParseInt(p)), pidPath := Some(p));
    var t := Target(ParseInt(fs.files[p]), p, true);
    assert Parse(fs, [p]) == Ok(o) by {
      ParseOnePositional(fs, p);
    }
    assert Locate(o, fs) == Ok(t) by {
      assert PathGiven(o) && !PidGiven(o) && PidPathOf(o) == p;
    }
    var out := Killed(t, nodejs, scriptDir, 0);
    assert out.effects == [out.effects[0], out.effects[1]];
  }

  /** Naming only a base directory without a PID file in its `bin` exits with
      failure and runs nothing. */
  lemma StopDefaultMissing(nodejs: Path, scriptDir: Path, baseDir: Path, fs: FileSystem, killStatus: int)
    requires Trimmed(baseDir) && Exists(fs, baseDir)
    requires DefaultPidPath(baseDir) !in fs.files
    ensures Stop(nodejs, scriptDir, ["-d", baseDir], fs, killStatus) == Outcome([], Exit(ExitFailure))
  {
    ParseBaseDirOnly(fs, baseDir);
    var o := Initial.(baseDir := Some(baseDir));
    assert !PathGiven(o) && !PidGiven(o);
    assert Plan(["-d", baseDir], fs).Err?;
  }
}
