/**
 * How a `start` and a later `stop` meet through the PID file: the only state
 * the two scripts share.
 */
module Lifecycle {
  import opened Results
  import opened Js
  import opened Files
  import Starter
  import Stopper

  lemma CancelRight(a: string, b: string, suffix: string)
    requires a + suffix == b + suffix
    ensures a == b
  {
    assert a == (a + suffix)[..|a|];
    assert b == (b + suffix)[..|b|];
  }

  /** The starter writes `<base>/<name>.pid` while the stopper looks in
      `<base>/bin/server.pid` by default: the two meet only for the server name
      `bin/server`. */
  lemma PidPathsMeetOnlyForBinServer(baseDir: Path, name: string)
    ensures Resolve(baseDir, name + ".pid") == Stopper.DefaultPidPath(baseDir) <==> name == "bin/server"
  {
    assert Stopper.DefaultPidPath(baseDir) == Resolve(baseDir, "bin/server.pid");
    assert "bin/server.pid" == "bin/server" + ".pid";
    if Resolve(baseDir, name + ".pid") == Stopper.DefaultPidPath(baseDir) {
      ResolveInjective(baseDir, name + ".pid", "bin/server" + ".pid");
      CancelRight(name, "bin/server", ".pid");
    }
  }

  lemma ApplyThree(fs: FileSystem, a: Effect, b: Effect, c: Effect)
    ensures ApplyAll(fs, [a, b, c]) == Apply(Apply(Apply(fs, a), b), c)
  {
    assert [a, b, c][1..] == [b, c];
    assert [b, c][1..] == [c];
    assert [c][1..] == [];
    var fs3 := Apply(Apply(Apply(fs, a), b), c);
    assert ApplyAll(fs3, []) == fs3;
    assert ApplyAll(Apply(Apply(fs, a), b), [c]) == fs3;
    assert ApplyAll(Apply(fs, a), [b, c]) == fs3;
  }

  /** The file system after a daemon's launch: the PID file holds the child's PID
      in decimal, and no file other than the log and the PID file has changed. */
  lemma DaemonLeavesPid(l: Starter.Launch, env: Starter.Env, childPid: nat)
    requires !Starter.Attached(l) && Starter.LogWritable(env.fs, l)
    requires l.logPath != l.pidPath
    ensures var fs' := ApplyAll(env.fs, Starter.Launched(l, env, childPid).effects);
      && l.pidPath in fs'.files && fs'.files[l.pidPath] == Decimal(childPid)
      && (forall p :: p != l.pidPath && p != l.logPath ==>
            (p in fs'.files <==> p in env.fs.files) && (p in env.fs.files ==> fs'.files[p] == env.fs.files[p]))
  {
    var es := Starter.Launched(l, env, childPid).effects;
    assert es == [es[0], es[1], es[2]];
    ApplyThree(env.fs, es[0], es[1], es[2]);
  }

  /** A daemon launched with an absolute base directory is stopped by naming its
      PID file: the stopper reads back exactly the child's PID, kills it, and
      removes the file. */
  lemma LaunchThenStopByPidFile(l: Starter.Launch, env: Starter.Env, childPid: nat, nodejs: Path, scriptDir: Path)
    requires !Starter.Attached(l) && Starter.LogWritable(env.fs, l)
    requires l.pidPath == Resolve(l.baseDir, l.name + ".pid") && l.logPath != l.pidPath
    requires |l.baseDir| > 0 && l.baseDir[0] == '/' && l.pidPath !in env.fs.unreadable
    ensures Stopper.Stop(nodejs, scriptDir, [l.pidPath], ApplyAll(env.fs, Starter.Launched(l, env, childPid).effects), 0)
      == Outcome([Exec(Stopper.KillCommand(nodejs, Stopper.KillerPath(scriptDir), Num(childPid))),
                  RemoveFile(l.pidPath)], Exit(0))
  {
    var fs' := ApplyAll(env.fs, Starter.Launched(l, env, childPid).effects);
    var p := l.pidPath;
    assert p in fs'.files && fs'.files[p] == Decimal(childPid) && p !in fs'.unreadable by {
      DaemonLeavesPid(l, env, childPid);
    }
    assert p[0] == '/' && p[|p| - 1] == 'd' by {
      assert p[..|l.baseDir|][0] == p[0];
    }
    TrimKeeps(p);
    ParseIntNoLeadingDigit(p);
    assert ParseInt(Decimal(childPid)) == Num(childPid) by {
      ParseIntDecimal(childPid, "");
      assert Decimal(childPid) + "" == Decimal(childPid);
    }
    Stopper.StopByPidFile(nodejs, scriptDir, p, fs');
  }

  /** The same, for a whole `start` run that passed its checks. */
  lemma StopByPidFileAfterDaemonStart(args: seq<string>, env: Starter.Env, childPid: nat, nodejs: Path, scriptDir: Path)
    requires Starter.Plan(args, env.fs).Ok?
    requires var l := Starter.Plan(args, env.fs).value;
      && !Starter.Attached(l) && Starter.LogWritable(env.fs, l)
      && |l.baseDir| > 0 && l.baseDir[0] == '/'
      && l.pidPath !in env.fs.unreadable
    ensures var l := Starter.Plan(args, env.fs).value;
      var fs' := ApplyAll(env.fs, Starter.Start(args, env, childPid).effects);
      Stopper.Stop(nodejs, scriptDir, [l.pidPath], fs', 0)
        == Outcome([Exec(Stopper.KillCommand(nodejs, Stopper.KillerPath(scriptDir), Num(childPid))),
                    RemoveFile(l.pidPath)], Exit(0))
  {
    LaunchThenStopByPidFile(Starter.Plan(args, env.fs).value, env, childPid, nodejs, scriptDir);
  }

  lemma ApplyTwo(fs: FileSystem, a: Effect, b: Effect)
    ensures ApplyAll(fs, [a, b]) == Apply(Apply(fs, a), b)
  {
    assert [a, b][1..] == [b];
    assert [b][1..] == [];
    var fs2 := Apply(Apply(fs, a), b);
    assert ApplyAll(fs2, []) == fs2;
    assert ApplyAll(Apply(fs, a), [b]) == fs2;
  }

  /** The disk after a stop: the PID file is gone if the PID came from it, and
      nothing else has changed. */
  lemma StopRemovesOnlyPidFile(nodejs: Path, scriptDir: Path, t: Stopper.Target, fs: FileSystem)
    requires t.fromFile
    ensures var fs' := ApplyAll(fs, Stopper.Killed(t, nodejs, scriptDir, 0).effects);
      && fs'.dirs == fs.dirs && fs'.unreadable == fs.unreadable
      && t.pidPath !in fs'.files
      && forall p :: p != t.pidPath ==>
           (p in fs'.files <==> p in fs.files) && (p in fs.files ==> fs'.files[p] == fs.files[p])
  {
    var es := Stopper.Killed(t, nodejs, scriptDir, 0).effects;
    assert es == [es[0], es[1]];
    ApplyTwo(fs, es[0], es[1]);
  }

  /** Running a command alone leaves the disk as it was. */
  lemma ApplyCommand(fs: FileSystem, e: Effect)
    requires e.Exec?
    ensures ApplyAll(fs, [e]) == fs
  {
    assert [e][1..] == [];
  }

  /** A kill command that fails throws before the PID file is removed, so the disk
      is left exactly as it was and the PID file survives. */
  lemma FailedKillKeepsPidFile(nodejs: Path, scriptDir: Path, t: Stopper.Target, fs: FileSystem, killStatus: int)
    requires killStatus != 0
    ensures ApplyAll(fs, Stopper.Killed(t, nodejs, scriptDir, killStatus).effects) == fs
  {
    var es := Stopper.Killed(t, nodejs, scriptDir, killStatus).effects;
    assert es == [es[0]];
    ApplyCommand(fs, es[0]);
  }

  /** A PID given on the command line never touches the disk: whatever the kill
      returns, nothing is removed, so only a PID that came from a file costs that
      file. */
  lemma GivenPidLeavesDisk(nodejs: Path, scriptDir: Path, t: Stopper.Target, fs: FileSystem, killStatus: int)
    requires !t.fromFile
    ensures ApplyAll(fs, Stopper.Killed(t, nodejs, scriptDir, killStatus).effects) == fs
  {
    var es := Stopper.Killed(t, nodejs, scriptDir, killStatus).effects;
    assert es == [es[0]];
    ApplyCommand(fs, es[0]);
  }

  /** A stop that took its PID from the file removes it, so repeating the same stop
      finds no PID and exits with failure without running anything. */
  lemma SecondStopFindsNothing(nodejs: Path, scriptDir: Path, args: seq<string>, fs: FileSystem, killStatus: int)
    requires Stopper.Plan(args, fs).Ok? && Stopper.Plan(args, fs).value.fromFile
    ensures var fs' := ApplyAll(fs, Stopper.Stop(nodejs, scriptDir, args, fs, 0).effects);
      Stopper.Stop(nodejs, scriptDir, args, fs', killStatus) == Outcome([], Exit(ExitFailure))
  {
    var t := Stopper.Plan(args, fs).value;
    var fs' := ApplyAll(fs, Stopper.Killed(t, nodejs, scriptDir, 0).effects);
    StopRemovesOnlyPidFile(nodejs, scriptDir, t, fs);
    assert forall p :: Exists(fs', p) ==> Exists(fs, p);
    Stopper.ScanOnSmallerDisk(fs, fs', Stopper.Initial, args);
    assert Stopper.Plan(args, fs').Err? by {
      if Stopper.Parse(fs', args).Ok? {
        var o := Stopper.Parse(fs, args).value;
        assert Stopper.Parse(fs', args) == Ok(o);
        assert Stopper.Locate(o, fs).Ok?;
        assert Stopper.Locate(o, fs') == Err(Stopper.NoPidFile(t.pidPath));
      }
    }
  }

  /** After a daemon launch under any other name than `bin/server`, a stop that
      only names the base directory finds no PID file (unless one was already
      there) and kills nothing. */
  lemma LaunchThenDefaultStopMisses(l: Starter.Launch, env: Starter.Env, childPid: nat, nodejs: Path, scriptDir: Path, killStatus: int)
    requires !Starter.Attached(l) && Starter.LogWritable(env.fs, l)
    requires l.pidPath == Resolve(l.baseDir, l.name + ".pid") && l.logPath == Resolve(l.logDir, l.name + ".log")
    requires l.name != "bin/server" && Trimmed(l.baseDir) && l.baseDir in env.fs.dirs
    requires Stopper.DefaultPidPath(l.baseDir) !in env.fs.files
    ensures Stopper.Stop(nodejs, scriptDir, ["-d", l.baseDir], ApplyAll(env.fs, Starter.Launched(l, env, childPid).effects), killStatus)
      == Outcome([], Exit(ExitFailure))
  {
    var fs' := ApplyAll(env.fs, Starter.Launched(l, env, childPid).effects);
    LaunchLeavesDefaultPidPath(l, env, childPid);
    Stopper.StopDefaultMissing(nodejs, scriptDir, l.baseDir, fs', killStatus);
  }

  /** A daemon launch under a name other than `bin/server` writes neither its log
      nor its PID file at the stopper's default PID-file path, so whatever that
      path held before, it holds after. */
  lemma LaunchLeavesDefaultPidPath(l: Starter.Launch, env: Starter.Env, childPid: nat)
    requires !Starter.Attached(l) && Starter.LogWritable(env.fs, l)
    requires l.pidPath == Resolve(l.baseDir, l.name + ".pid") && l.logPath == Resolve(l.logDir, l.name + ".log")
    requires l.name != "bin/server"
    ensures var d := Stopper.DefaultPidPath(l.baseDir);
      var fs' := ApplyAll(env.fs, Starter.Launched(l, env, childPid).effects);
      && d != l.pidPath && d != l.logPath
      && (d in fs'.files <==> d in env.fs.files)
      && (d in env.fs.files ==> fs'.files[d] == env.fs.files[d])
  {
    var d := Stopper.DefaultPidPath(l.baseDir);
    assert d != l.pidPath by {
      PidPathsMeetOnlyForBinServer(l.baseDir, l.name);
    }
    assert d != l.logPath by {
      DistinctExtensions(l.logDir, l.name, Resolve(l.baseDir, "bin"), "server", ".log", ".pid");
      assert "server" + ".pid" == "server.pid";
    }
    assert l.logPath != l.pidPath by {
      DistinctExtensions(l.logDir, l.name, l.baseDir, l.name, ".log", ".pid");
    }
    DaemonLeavesPid(l, env, childPid);
  }

  /** The same, for a whole `start` run that passed its checks. */
  lemma DefaultStopMissesDaemon(args: seq<string>, env: Starter.Env, childPid: nat, nodejs: Path, scriptDir: Path, killStatus: int)
    requires Starter.Plan(args, env.fs).Ok?
    requires var l := Starter.Plan(args, env.fs).value;
      && !Starter.Attached(l) && Starter.LogWritable(env.fs, l)
      && l.name != "bin/server"
      && l.baseDir in env.fs.dirs
      && Stopper.DefaultPidPath(l.baseDir) !in env.fs.files
    ensures var l := Starter.Plan(args, env.fs).value;
      var fs' := ApplyAll(env.fs, Starter.Start(args, env, childPid).effects);
      Stopper.Stop(nodejs, scriptDir, ["-d", l.baseDir], fs', killStatus) == Outcome([], Exit(ExitFailure))
  {
    var l := Starter.Plan(args, env.fs).value;
    assert Trimmed(l.baseDir) by { TrimFixedIffTrimmed(l.baseDir); }
    LaunchThenDefaultStopMisses(l, env, childPid, nodejs, scriptDir, killStatus);
  }
}
