/**
 * `start <server name> [options]`: parse the command line, check the server
 * script exists, write a start marker, and spawn the server either attached
 * (foreground or debug) or as a detached daemon whose PID is written to a file.
 */
module Starter {
  import opened Results
  import opened Js
  import opened Files
  import opened Cli

  /** The script's accumulator variables while it scans its arguments. */
  datatype Options = Options(
    foreground: bool,
    debug: bool,
    serverName: Option<string>,
    baseDir: Option<Path>,
    baseDirFlag: bool,   // the next token is the value of -d
    logDir: Option<Path>,
    logDirFlag: bool,    // the next token is the value of -l
    useNvm: bool)

  const Initial: Options := Options(false, false, None, None, false, None, false, false)

  datatype StartError =
    | InvalidBaseDir(dir: Path)
    | InvalidLogDir(dir: Path)
    | Usage
    | NoServerName
    | NoBaseDir
    | ServerNotFound(serverPath: Path)

  /** The options the switch recognises. The usage text also lists -b/--build,
      which the switch does not handle, so it is a usage error. */
  predicate Known(option: string)
  {
    option in {"-f", "--foreground", "-g", "--debug", "-d", "--basedir", "-l", "--logpath", "-n", "--nvm"}
  }

  /** At most one value is pending, and only for a directory not yet set. */
  predicate Valid(o: Options)
  {
    && !(o.baseDirFlag && o.logDirFlag)
    && (o.baseDirFlag ==> o.baseDir.None?)
    && (o.logDirFlag ==> o.logDir.None?)
  }

  /** The `switch` over an option when no value is pending. */
  function Switch(o: Options, option: string): (r: Result<Options, StartError>)
    // an unknown option is a usage error
    ensures r.Ok? <==> Known(option)
    ensures r.Err? ==> r.error == Usage
    // each switch sets its own flag and nothing else
    ensures option == "-f" || option == "--foreground" ==> r == Ok(o.(foreground := true))
    ensures option == "-g" || option == "--debug" ==> r == Ok(o.(debug := true))
    ensures option == "-n" || option == "--nvm" ==> r == Ok(o.(useNvm := true))
    // -d and -l make the next token their value while the directory is unset,
    // and are ignored once it is set
    ensures option == "-d" || option == "--basedir" ==> r == Ok(if o.baseDir.None? then o.(baseDirFlag := true) else o)
    ensures option == "-l" || option == "--logpath" ==> r == Ok(if o.logDir.None? then o.(logDirFlag := true) else o)
  {
    if option == "-f" || option == "--foreground" then Ok(o.(foreground := true))
    else if option == "-g" || option == "--debug" then Ok(o.(debug := true))
    else if option == "-d" || option == "--basedir" then
      Ok(if o.baseDir.None? then o.(baseDirFlag := true) else o)
    else if option == "-l" || option == "--logpath" then
      Ok(if o.logDir.None? then o.(logDirFlag := true) else o)
    else if option == "-n" || option == "--nvm" then Ok(o.(useNvm := true))
    else Err(Usage)
  }

  /** One call of the `forEach` callback, on the already trimmed token. */
  function Step(o: Options, fs: FileSystem, option: string): (r: Result<Options, StartError>)
    // a pending -d value is taken whatever it looks like, and must exist; taking a
    // value, like naming the server, changes nothing else
    ensures o.baseDirFlag ==>
      && (r.Ok? <==> Exists(fs, option))
      && (r.Err? ==> r.error == InvalidBaseDir(option))
      && (r.Ok? ==> r.value.baseDir == Some(option) && !r.value.baseDirFlag)
      && (r.Ok? ==> r.value.(baseDir := o.baseDir, baseDirFlag := true) == o)
    // likewise a pending -l value
    ensures !o.baseDirFlag && o.logDirFlag ==>
      && (r.Ok? <==> Exists(fs, option))
      && (r.Err? ==> r.error == InvalidLogDir(option))
      && (r.Ok? ==> r.value.logDir == Some(option) && !r.value.logDirFlag)
      && (r.Ok? ==> r.value.(logDir := o.logDir, logDirFlag := true) == o)
    // with nothing pending, an option goes to the switch
    ensures !o.baseDirFlag && !o.logDirFlag && StartsWithDash(option) ==> r == Switch(o, option)
    // with nothing pending: the first positional is the server name, a second is a usage error
    ensures !o.baseDirFlag && !o.logDirFlag && !StartsWithDash(option) ==>
      && (r.Ok? <==> o.serverName.None?)
      && (r.Ok? ==> r.value.serverName == Some(option))
      && (r.Ok? ==> r.value.(serverName := o.serverName) == o)
      && (r.Err? ==> r.error == Usage)
    // the first -d and the first -l win
    ensures Valid(o) && r.Ok? ==> Valid(r.value)
    ensures Valid(o) && o.baseDir.Some? && r.Ok? ==> r.value.baseDir == o.baseDir && !r.value.baseDirFlag
    ensures Valid(o) && o.logDir.Some? && r.Ok? ==> r.value.logDir == o.logDir && !r.value.logDirFlag
    // a set server name is never replaced
    ensures o.serverName.Some? && r.Ok? ==> r.value.serverName == o.serverName
    // no token clears a switch
    ensures r.Ok? ==> (o.foreground ==> r.value.foreground) && (o.debug ==> r.value.debug) && (o.useNvm ==> r.value.useNvm)
  {
    if o.baseDirFlag then
      if Exists(fs, option) then Ok(o.(baseDirFlag := false, baseDir := Some(option)))
      else Err(InvalidBaseDir(option))
    else if o.logDirFlag then
      if Exists(fs, option) then Ok(o.(logDirFlag := false, logDir := Some(option)))
      else Err(InvalidLogDir(option))
    else if StartsWithDash(option) then Switch(o, option)
    else if o.serverName.None? then Ok(o.(serverName := Some(option)))
    else Err(Usage)
  }

  function Stepper(fs: FileSystem): (Options, string) -> Result<Options, StartError>
  {
    (o, option) => Step(o, fs, option)
  }

  /** The whole scan of the arguments, from the script's initial values. */
  function Parse(fs: FileSystem, args: seq<string>): (r: Result<Options, StartError>)
    ensures r.Ok? ==> Valid(r.value)
  {
    ScanInvariant(Stepper(fs), Valid, Initial, args);
    Scan(Stepper(fs), Initial, args)
  }

  /** The first -d, the first -l and the first positional win: once set, a later
      token never changes them. */
  lemma FirstValuesWin(fs: FileSystem, a: seq<string>, b: seq<string>)
    requires Parse(fs, a).Ok? && Parse(fs, a + b).Ok?
    ensures Parse(fs, a).value.baseDir.Some? ==> Parse(fs, a + b).value.baseDir == Parse(fs, a).value.baseDir
    ensures Parse(fs, a).value.logDir.Some? ==> Parse(fs, a + b).value.logDir == Parse(fs, a).value.logDir
    ensures Parse(fs, a).value.serverName.Some? ==> Parse(fs, a + b).value.serverName == Parse(fs, a).value.serverName
  {
    var o := Parse(fs, a).value;
    ScanAppend(Stepper(fs), Initial, a, b);
    ScanInvariant(Stepper(fs), (o': Options) => Valid(o') && (o.baseDir.Some? ==> o'.baseDir == o.baseDir), o, b);
    ScanInvariant(Stepper(fs), (o': Options) => Valid(o') && (o.logDir.Some? ==> o'.logDir == o.logDir), o, b);
    ScanInvariant(Stepper(fs), (o': Options) => o.serverName.Some? ==> o'.serverName == o.serverName, o, b);
  }

  /** A switch read while no value is pending is still set when the scan ends,
      whatever follows it. */
  lemma {:induction false} SwitchesStick(fs: FileSystem, before: seq<string>, token: string, after: seq<string>)
    requires Parse(fs, before).Ok?
    requires !Parse(fs, before).value.baseDirFlag && !Parse(fs, before).value.logDirFlag
    requires Parse(fs, before + [token] + after).Ok?
    ensures Trim(token) == "-f" || Trim(token) == "--foreground" ==> Parse(fs, before + [token] + after).value.foreground
    ensures Trim(token) == "-g" || Trim(token) == "--debug" ==> Parse(fs, before + [token] + after).value.debug
    ensures Trim(token) == "-n" || Trim(token) == "--nvm" ==> Parse(fs, before + [token] + after).value.useNvm
  {
    var o := Parse(fs, before).value;
    var t := Trim(token);
    if Known(t) && t != "-d" && t != "--basedir" && t != "-l" && t != "--logpath" {
      var o' := Step(o, fs, t).value;
      ScanGoesOn(Stepper(fs), Initial, before, token, after);
      ScanInvariant(Stepper(fs), (x: Options) => o'.foreground ==> x.foreground, o', after);
      ScanInvariant(Stepper(fs), (x: Options) => o'.debug ==> x.debug, o', after);
      ScanInvariant(Stepper(fs), (x: Options) => o'.useNvm ==> x.useNvm, o', after);
    }
  }

  predicate DirsTrimmed(o: Options)
  {
    && (o.baseDir.Some? ==> Trim(o.baseDir.value) == o.baseDir.value)
    && (o.logDir.Some? ==> Trim(o.logDir.value) == o.logDir.value)
  }

  /** A step either keeps each directory or sets it to the token it is given. */
  lemma StepDirsFrom(o: Options, fs: FileSystem, t: string)
    requires Step(o, fs, t).Ok?
    ensures var o' := Step(o, fs, t).value;
      && (o'.baseDir == o.baseDir || o'.baseDir == Some(t))
      && (o'.logDir == o.logDir || o'.logDir == Some(t))
  {
  }

  lemma StepKeepsDirsTrimmed(o: Options, fs: FileSystem, t: string)
    requires DirsTrimmed(o) && Trim(t) == t && Step(o, fs, t).Ok?
    ensures DirsTrimmed(Step(o, fs, t).value)
  {
    StepDirsFrom(o, fs, t);
  }

  /** The directories the scan settles on are trimmed tokens. */
  lemma ParsedDirsTrimmed(fs: FileSystem, args: seq<string>)
    requires Parse(fs, args).Ok?
    ensures DirsTrimmed(Parse(fs, args).value)
  {
    forall o, t | DirsTrimmed(o) && Trim(t) == t && Stepper(fs)(o, t).Ok?
      ensures DirsTrimmed(Stepper(fs)(o, t).value)
    {
      StepKeepsDirsTrimmed(o, fs, t);
    }
    ScanSeesTrimmed(Stepper(fs), DirsTrimmed, Initial, args);
  }

  /** Once a -d or -l is pending, a next token that does not exist ends the run,
      whatever follows. */
  lemma PendingValueMustExist(fs: FileSystem, before: seq<string>, value: string, after: seq<string>)
    requires Parse(fs, before).Ok?
    requires Parse(fs, before).value.baseDirFlag || Parse(fs, before).value.logDirFlag
    requires !Exists(fs, Trim(value))
    ensures Parse(fs, before + [value] + after)
      == Err(if Parse(fs, before).value.baseDirFlag then InvalidBaseDir(Trim(value)) else InvalidLogDir(Trim(value)))
  {
    ScanStops(Stepper(fs), Initial, before, value, after);
  }

  /** Once a -d is pending, the next token is its value, even when it starts with a
      dash, and stays the base directory to the end. */
  lemma PendingBaseDirTaken(fs: FileSystem, before: seq<string>, value: string, after: seq<string>)
    requires Parse(fs, before).Ok? && Parse(fs, before).value.baseDirFlag
    requires Exists(fs, Trim(value))
    ensures Parse(fs, before + [value] + after).Ok? ==>
      Parse(fs, before + [value] + after).value.baseDir == Some(Trim(value))
  {
    var o' := Step(Parse(fs, before).value, fs, Trim(value)).value;
    ScanGoesOn(Stepper(fs), Initial, before, value, after);
    ScanInvariant(Stepper(fs), (x: Options) => Valid(x) && x.baseDir == o'.baseDir, o', after);
  }

  /** The same for a pending -l and the log directory. */
  lemma PendingLogDirTaken(fs: FileSystem, before: seq<string>, value: string, after: seq<string>)
    requires Parse(fs, before).Ok? && Parse(fs, before).value.logDirFlag
    requires Exists(fs, Trim(value))
    ensures Parse(fs, before + [value] + after).Ok? ==>
      Parse(fs, before + [value] + after).value.logDir == Some(Trim(value))
  {
    var o' := Step(Parse(fs, before).value, fs, Trim(value)).value;
    ScanGoesOn(Stepper(fs), Initial, before, value, after);
    ScanInvariant(Stepper(fs), (x: Options) => Valid(x) && x.logDir == o'.logDir, o', after);
  }

  /** Everything a successful launch needs, with the derived paths. */
  datatype Launch = Launch(
    name: string,
    baseDir: Path,
    logDir: Path,
    logPath: Path,
    serverPath: Path,
    pidPath: Path,
    foreground: bool,
    debug: bool,
    useNvm: bool)

  function ServerPath(baseDir: Path, name: string): Path
  {
    Resolve(baseDir, name + ".js")
  }

  /** The checks after parsing, in the script's order, and the path derivation. */
  function Check(o: Options, fs: FileSystem): (r: Result<Launch, StartError>)
    ensures o.serverName.None? ==> r == Err(NoServerName)
    ensures o.serverName.Some? && o.baseDir.None? ==> r == Err(NoBaseDir)
    ensures o.serverName.Some? && o.baseDir.Some? ==>
      (r.Ok? <==> Exists(fs, ServerPath(o.baseDir.value, o.serverName.value)))
    ensures r.Err? && o.serverName.Some? && o.baseDir.Some? ==>
      r.error == ServerNotFound(ServerPath(o.baseDir.value, o.serverName.value))
    ensures r.Ok? ==>
      && r.value.name == o.serverName.value
      && r.value.baseDir == o.baseDir.value
      && r.value.logDir == o.logDir.GetOr(Resolve(o.baseDir.value, "log"))
      && r.value.serverPath == ServerPath(r.value.baseDir, r.value.name)
      && r.value.logPath == Resolve(r.value.logDir, r.value.name + ".log")
      && r.value.pidPath == Resolve(r.value.baseDir, r.value.name + ".pid")
      && r.value.foreground == o.foreground && r.value.debug == o.debug && r.value.useNvm == o.useNvm
    // the log, script and PID files are three different files
    ensures r.Ok? ==>
      && r.value.logPath != r.value.serverPath
      && r.value.logPath != r.value.pidPath
      && r.value.serverPath != r.value.pidPath
  {
    if o.serverName.None? then Err(NoServerName)
    else if o.baseDir.None? then Err(NoBaseDir)
    else
      var name := o.serverName.value;
      var base := o.baseDir.value;
      var logDir := if o.logDir.Some? then o.logDir.value else Resolve(base, "log");
      var serverPath := ServerPath(base, name);
      if !Exists(fs, serverPath) then Err(ServerNotFound(serverPath))
      else
        var logPath := Resolve(logDir, name + ".log");
        var pidPath := Resolve(base, name + ".pid");
        DistinctExtensions(logDir, name, base, name, ".log", ".pid");
        assert serverPath != pidPath by {
          assert serverPath[|serverPath| - 1] == 's';
          assert pidPath[|pidPath| - 1] == 'd';
        }
        assert logPath != serverPath by {
          assert logPath[|logPath| - 1] == 'g';
          assert serverPath[|serverPath| - 1] == 's';
        }
        Ok(Launch(name, base, logDir, logPath, serverPath, pidPath, o.foreground, o.debug, o.useNvm))
  }

  /** Parsing followed by the checks: everything decided before the first write. */
  function Plan(args: seq<string>, fs: FileSystem): (r: Result<Launch, StartError>)
    // the base directory is a trimmed token, and the PID file sits directly in it
    ensures r.Ok? ==> Trim(r.value.baseDir) == r.value.baseDir
    ensures r.Ok? ==>
      && r.value.pidPath == Resolve(r.value.baseDir, r.value.name + ".pid")
      && r.value.logPath == Resolve(r.value.logDir, r.value.name + ".log")
      && r.value.logPath != r.value.pidPath
  {
    match Parse(fs, args)
    case Err(e) => Err(e)
    case Ok(o) =>
      ParsedDirsTrimmed(fs, args);
      Check(o, fs)
  }

  /** The banner written before each run, blank-line delimited. */
  function Marker(timestamp: string, name: string): string
  {
    "\n" + timestamp + " ========== Starting server " + name + " ==========\n\n"
  }

  /** Foreground and debug runs stay attached; all others become daemons. */
  predicate Attached(l: Launch)
  {
    l.foreground || l.debug
  }

  /** The command vector handed to `spawn`. With nvm the script's `nodeVer`
      wrapper replaces `sudo`. */
  function Command(l: Launch, scriptDir: Path): (argv: seq<string>)
    ensures |argv| == 3 && argv[2] == l.serverPath
    ensures argv[1] == "node-debug" <==> l.debug
    ensures argv[1] == "node" <==> !l.debug
    ensures argv[0] == "sudo" <==> !l.useNvm
    ensures l.useNvm ==> argv[0] == scriptDir + "/nodeVer"
  {
    var prefix := if l.useNvm then [scriptDir + "/nodeVer"] else ["sudo"];
    if Attached(l) then
      prefix + [if l.debug then "node-debug" else "node", l.serverPath]
    else
      prefix + ["node", l.serverPath]
  }

  /** What a run needs besides its arguments: the disk, the current time as
      `toISOString` renders it, and the directory holding the scripts. */
  datatype Env = Env(fs: FileSystem, timestamp: string, scriptDir: Path)

  /** `appendFileSync` and `openSync` can open the log file for appending: the
      directory holding it exists and the log path is not itself a directory. */
  predicate LogWritable(fs: FileSystem, l: Launch)
  {
    Dir(l.logPath) in fs.dirs && l.logPath !in fs.dirs
  }

  /** A server name with a directory part puts the log in a subdirectory of the
      log directory, which must exist for the launch to go ahead: the log of
      `bin/server` needs `<log dir>/bin`. */
  lemma NestedNameNeedsLogSubdir(fs: FileSystem, l: Launch, sub: string, base: string)
    requires l.name == sub + "/" + base && '/' !in base
    requires l.logPath == Resolve(l.logDir, l.name + ".log")
    ensures LogWritable(fs, l) ==> Resolve(l.logDir, sub) in fs.dirs
  {
    assert l.name + ".log" == sub + "/" + (base + ".log");
    assert '/' !in base + ".log";
    DirOfResolve(l.logDir, sub, base + ".log");
  }

  /** The effects of launching a checked plan; `childPid` is the PID the operating
      system gives the spawned child. */
  function Launched(l: Launch, env: Env, childPid: nat): (out: Outcome)
    // the marker comes first, on stdout when attached, at the end of the log otherwise
    ensures Attached(l) ==> |out.effects| > 0 && out.effects[0] == Stdout(Marker(env.timestamp, l.name))
    ensures !Attached(l) && out.effects != [] ==> out.effects[0] == AppendFile(l.logPath, Marker(env.timestamp, l.name))
    // a log directory that cannot take the log file makes the run throw before any spawn
    ensures !LogWritable(env.fs, l) <==> out.ending == Uncaught
    ensures out.ending == Uncaught ==> forall i :: 0 <= i < |out.effects| ==> !out.effects[i].Spawn?
    // and leaves nothing behind but the printed marker of an attached run
    ensures out.ending == Uncaught ==>
      out.effects == (if Attached(l) then [Stdout(Marker(env.timestamp, l.name))] else [])
    // an attached run stays resident with the child's output piped through
    // after opening, and so creating, the log it never writes to
    ensures Attached(l) && LogWritable(env.fs, l) ==>
      && out.ending == Resident
      && |out.effects| == 3
      && out.effects[1] == AppendFile(l.logPath, "")
      && out.effects[2] == Spawn(Command(l, env.scriptDir), l.baseDir, Piped)
    // a daemon writes its child's PID, in decimal, as its last act, then exits 0
    ensures !Attached(l) && LogWritable(env.fs, l) ==>
      && out.ending == Exit(0)
      && |out.effects| == 3
      && out.effects[1] == Spawn(Command(l, env.scriptDir), l.baseDir, ToFile(l.logPath))
      && out.effects[2] == WriteFile(l.pidPath, Decimal(childPid))
    // only a daemon writes a PID file
    ensures Attached(l) ==> forall i :: 0 <= i < |out.effects| ==> !out.effects[i].WriteFile?
  {
    var marker := Marker(env.timestamp, l.name);
    var argv := Command(l, env.scriptDir);
    if Attached(l) then
      if !LogWritable(env.fs, l) then Outcome([Stdout(marker)], Uncaught)
      // opening the log for appending creates it, although nothing is written to it
      else Outcome([Stdout(marker), AppendFile(l.logPath, ""), Spawn(argv, l.baseDir, Piped)], Resident)
    else
      if !LogWritable(env.fs, l) then Outcome([], Uncaught)
      else Outcome([AppendFile(l.logPath, marker), Spawn(argv, l.baseDir, ToFile(l.logPath)),
                    WriteFile(l.pidPath, Decimal(childPid))], Exit(0))
  }

  /** A whole `start` run. */
  function Start(args: seq<string>, env: Env, childPid: nat): (out: Outcome)
    // every error found while parsing or checking exits before anything is written
    ensures Plan(args, env.fs).Err? <==> out == Outcome([], Exit(ExitFailure))
    ensures Plan(args, env.fs).Ok? ==> out == Launched(Plan(args, env.fs).value, env, childPid)
  {
    match Plan(args, env.fs)
    case Err(_) => Outcome([], Exit(ExitFailure))
    case Ok(l) => Launched(l, env, childPid)
  }
}
