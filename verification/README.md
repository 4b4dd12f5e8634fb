# gv-scripts: start, stop and configure, as pure functions

This project models the deterministic core of three Node.js command-line scripts
that manage a server process and its Haraka mail configuration:

- `start <server name> -d <base dir> [-f] [-g] [-l <log dir>] [-n]`
  (`server-starter.js`) folds over its trimmed arguments with pending-value
  states for `-d` and `-l`. It then checks the result, derives the log, script
  and PID-file paths, writes a start marker, and spawns the server. The server
  runs attached to the terminal (`-f`/`-g`) or as a daemon whose PID is written
  to `<base>/<name>.pid`.
- `stop <pid>|<pid file> [-d <base dir>]` (`server-stopper.js`) folds over its
  arguments and settles on a PID. The PID comes from the command line, from a
  named PID file, or from the default `<base>/bin/server.pid`. The script
  issues one kill command and deletes the PID file when that was where the PID
  came from.
- `config inbound|outbound -d <base dir>` (`haraka-config.js`) fills in each
  template `<base>/config/templates/<file>.tmpl` of the chosen set. Every
  `${name}` placeholder is replaced, case-insensitively and at every
  occurrence, and the result goes to `<base>/config/<file>`.

Each script is modelled as a pure function. Its inputs are the argument list, a
snapshot of the disk, and the values the script takes from its surroundings.
Its output is an `Outcome`: the ordered list of effects it performs and how it
ends.

The effects are output on stdout, appending to a file, writing a file, removing
a file, running a shell command, and spawning a process. A run ends in one of
three ways:
- an exit with a code (`process.exit(-1)` is `Exit(-1)`);
- an uncaught exception;
- staying resident with an attached child.

The disk (`Files.FileSystem`) is a set of directories, a map from file paths to
contents, and a set of files that cannot be read:
- `existsSync` is membership in either the directories or the files;
- `statSync(...).isFile()` is membership in the files;
- `path.resolve(dir, name)` is `dir + "/" + name`.

The modules:
- `Results` holds `Option` and `Result`.
- `Js` holds the JavaScript semantics the scripts rely on:
  - `trim` over the ECMAScript white-space set (sections 12.2 and 12.3 of ECMA-262);
  - the truthiness of numbers;
  - `parseInt(s, 10)`;
  - the decimal rendering `'' + n`.
- `Files` holds the disk, the paths and the effects.
- `Cli` holds the `forEach` argument scan all three scripts share. A
  `process.exit` inside the callback ends the scan at that token.
- `Substitution` holds the global, case-insensitive placeholder replacement.
- `Starter`, `Stopper` and `HarakaConfig` hold the three scripts.
- `Lifecycle` relates a `start` to a later `stop` through the PID file, the
  only state the two scripts share.

Behaviour of the code that the model keeps as written:
- **`haraka-config.js:72` assigns instead of comparing.** Every positional
  other than `inbound` selects `outbound`. A positional is never rejected, and
  a later positional overrides an earlier one.
- **The stopper's default PID file does not match the starter's.** The starter
  writes `<base>/<name>.pid`. The stopper's default is `<base>/bin/server.pid`,
  and the two agree only for the server name `bin/server`.
- **`0` is not a PID.** `parseInt` gives a falsy 0, so the stopper takes the
  token `0` as the path of a PID file.
- **The starter's usage text lists `-b, --build`,** but the argument switch has
  no case for it, so `-b` is a usage error.
- **The starter never checks the default log directory.** An explicit `-l`
  value must exist, but the default `<base>/log` is never checked. Nor is the
  subdirectory a server name with a `/` adds, such as `<log dir>/bin` for
  `bin/server`. When the directory holding the log file is missing,
  `appendFileSync` (daemon) or `openSync` (attached) throws before anything
  is spawned.
- **A failed kill keeps the PID file.** `execSync` throws when the kill
  command exits non-zero, so the PID file is not removed and the run ends
  with an uncaught exception.
- **The stopper does not validate a PID read from a file.** Whatever
  `parseInt` makes of the contents, NaN included, goes into the kill command.
- **An empty `serverDomains` list** renders as `undefined` in the outbound
  configuration.

## Model

| member | source | states |
|---|---|---|
| `Js.Trim` | server-starter.js:39 | the result is the argument with its leading and trailing white space removed and nothing else; it starts and ends with a non-space character |
| `Js.TrimIdempotent` | server-starter.js:39 | trimming a trimmed token changes nothing, so a step never sees white space at either end |
| `Js.TrimFixedIffTrimmed` | server-stopper.js:29 | `trim` leaves a token unchanged exactly when it neither starts nor ends with white space |
| `Js.ParseInt` | server-stopper.js:53 | a number comes only out of text that holds a decimal digit |
| `Js.ParseIntSkipsSpace` | server-stopper.js:104 | leading white space does not change what `parseInt` reads |
| `Js.ParseIntLeadingDigits` | server-stopper.js:53 | text starting with digits, bare or after a minus sign, reads as the value of those digits, negated after the sign |
| `Js.NumberToString` | server-stopper.js:118 | the rendering of a number is non-empty and holds no space, so it is a single word of the kill command |
| `Js.ParseIntDecimal` | server-stopper.js:102-104 | `parseInt` reads back a decimal rendering, with or without a minus sign, whatever non-digit text follows it |
| `Js.ParseIntRoundTrip` | server-stopper-kill.js:8-15 | `parseInt('' + x)` gives back `x`, NaN included, so the kill helper receives the PID the stopper rendered |
| `Js.DecimalValue` | server-starter.js:236 | the PID written by `'' + child.pid` is a digit string whose decimal value is the PID |
| `Js.ParseIntNoLeadingDigit` | server-stopper.js:53-56 | a token starting with neither white space, a sign nor a digit (an absolute path, say) parses to NaN |
| `Files.ResolveInjective` | server-starter.js:114-116 | two names resolved against the same directory give the same path only if the names are equal |
| `Files.DistinctExtensions` | server-starter.js:114-116 | names with different extensions of equal length never resolve to the same path, whatever the directories |
| `Files.DirOfResolve` | server-starter.js:114-116 | a name without `/` sits directly in the directory it is joined to, and a name `sub/name` sits in `<dir>/sub` |
| `Files.Apply` | server-starter.js:236 | a write leaves exactly the text, an append keeps the old contents and adds exactly the text after them, an unlink removes the file, and no other path changes |
| `Cli.ScanAppend` | server-starter.js:38-91 | scanning `a + b` is scanning `a` and then `b` from where `a` stopped, unless `a` already failed |
| `Cli.ScanStops` | server-starter.js:38-91 | a token whose step exits ends the run with that error, whatever follows it |
| `Cli.ScanInvariant` | server-starter.js:38-91 | a property every step preserves holds of the final state |
| `Cli.ScanSeesTrimmed` | server-starter.js:38-39 | a property preserved by every step on trimmed tokens holds of the final state |
| `Substitution.ReplaceAll` | haraka-config.js:123-125 | a body without the placeholder comes back unchanged |
| `Substitution.ReplaceAllLength` | haraka-config.js:123-125 | the result's length is the body's plus, per replaced occurrence, the difference between the value's and the placeholder's lengths |
| `Substitution.MatchCountZero` | haraka-config.js:123-125 | the scan replaces nothing exactly when the placeholder does not occur, in any letter case |
| `Substitution.UnchangedIffAbsent` | haraka-config.js:125-129 | when the value's length differs from the placeholder's, the body is unchanged exactly when the placeholder is absent |
| `Substitution.CaseVariantReplaced` | haraka-config.js:123 | a spelling of the placeholder that differs only in ASCII case is replaced, and the scan goes on after it |
| `Substitution.SelfReplacementUnchanged` | haraka-config.js:125-129 | replacing the placeholder by itself leaves every body unchanged in which each occurrence is spelled exactly as the placeholder |
| `Substitution.SelfReplacementExample` | haraka-config.js:125-129 | such a body can hold the placeholder, so the test on line 126 fails a file whose placeholder is present |
| `Starter.Step` | server-starter.js:41-90 | a pending `-d`/`-l` takes the next token whatever it looks like, and fails when it does not exist; with nothing pending an option goes to the switch; the first positional is the name and a second one is a usage error; taking a value or the name changes no other option; `Valid` is kept; the first `-d`/`-l` and the name are never replaced, and no switch is ever cleared |
| `Starter.Switch` | server-starter.js:59-83 | `-f`, `-g` and `-n` (and their long forms) set the foreground, debug and nvm switches and change nothing else; `-d`/`-l` make the next token their value while that directory is unset and are ignored once it is set; any other option is a usage error |
| `Starter.SwitchesStick` | server-starter.js:61-79 | a switch read while no value is pending is still set when a successful scan ends, whatever follows it |
| `Starter.Parse` | server-starter.js:38-91 | a successful scan ends with at most one pending flag, and a pending flag only for a directory not yet set |
| `Starter.FirstValuesWin` | server-starter.js:67-76 | once the base directory, log directory or server name is set, no later token changes it |
| `Starter.ParsedDirsTrimmed` | server-starter.js:39-52 | the base and log directories the scan settles on are trimmed tokens |
| `Starter.PendingValueMustExist` | server-starter.js:41-57 | after `-d` or `-l`, a value that does not exist ends the run with the matching error, whatever follows |
| `Starter.PendingBaseDirTaken` | server-starter.js:41-48 | after a pending `-d`, an existing value becomes the base directory, even if it starts with `-` |
| `Starter.PendingLogDirTaken` | server-starter.js:50-57 | after a pending `-l`, an existing value becomes the log directory, even if it starts with `-` |
| `Starter.Check` | server-starter.js:93-127 | a missing name is reported first, then a missing base directory, then a missing `<base>/<name>.js`; the log directory defaults to `<base>/log`; the log, script and PID paths are derived as the script does and are three different files |
| `Starter.Plan` | server-starter.js:103-116 | an accepted plan's base directory is a trimmed token, its PID file is `<base>/<name>.pid`, and its log file differs from the PID file |
| `Starter.Command` | server-starter.js:170-226 | the vector has three entries ending with the script path; `node-debug` is used exactly when debugging; `sudo` is used exactly when nvm is not, and nvm uses the scripts' `nodeVer` wrapper |
| `Starter.Launched` | server-starter.js:133-239 | an attached run prints the marker, opens the log without writing to it and spawns once with the child's output piped through, staying resident; a daemon appends the marker to the log, spawns into the log, writes the decimal child PID and exits 0; when the directory holding the log file is missing, or the log path is a directory, the run throws before any spawn, having done nothing but print an attached run's marker; only a daemon writes a PID file |
| `Starter.NestedNameNeedsLogSubdir` | server-starter.js:139-147 | a server name `sub/name` can be launched only when `<log dir>/sub` exists, since the log file lives there |
| `Starter.Start` | server-starter.js:93-140 | every parse or check error exits -1 with no effect at all; otherwise the run is the launch of the checked plan |
| `Stopper.Step` | server-stopper.js:31-63 | a pending `-d` takes the next token, changes nothing else, and fails when it does not exist; `-d`/`--basedir` is the only option, and it makes the next token its value only while the base directory is unset; the first positional is `parseInt`-ed, and it is the PID-file path exactly when the number is falsy, and nothing else changes; a second positional is a usage error |
| `Stopper.Parse` | server-stopper.js:28-64 | a successful scan has a PID-file path exactly when its number is falsy |
| `Stopper.FirstValuesWin` | server-stopper.js:42-56 | once the base directory or the positional is set, no later token changes it |
| `Stopper.ScanOnSmallerDisk` | server-stopper.js:31-38 | the scan reads the disk only to check that a `-d` value exists, so a disk with fewer paths gives the same result or a failure |
| `Stopper.ParseOnePositional` | server-stopper.js:52-59 | a lone positional is the PID when its number is truthy and the PID-file path otherwise |
| `Stopper.ZeroIsAPath` | server-stopper.js:53-56 | the token `0` becomes the PID-file path |
| `Stopper.ParseBaseDirOnly` | server-stopper.js:31-46 | `-d <dir>` for an existing directory sets just the base directory |
| `Stopper.Locate` | server-stopper.js:67-111 | without a PID-file path a base directory is required even when a PID was given; the path defaults to `<base>/bin/server.pid`; a given PID is used as is and the file is left alone; otherwise the path must be a readable regular file and its contents are `parseInt`-ed unvalidated |
| `Stopper.KillCommandCarriesPid` | server-stopper.js:117-118 | the kill helper's last argument parses back to exactly the PID the stopper settled on |
| `Stopper.Killed` | server-stopper.js:117-123 | exactly one kill command, aimed at the PID, comes first; the only other effect is the removal of the PID file, which follows exactly when the PID came from it and the command succeeded; the run exits 0 after a successful command and throws after a failed one |
| `Stopper.Stop` | server-stopper.js:67-123 | any parse or location failure exits -1 without running or removing anything; otherwise the run is the kill of the located target |
| `Stopper.StopByPidFile` | server-stopper.js:83-123 | naming a readable PID file whose name is not a number kills the PID it holds and, when the kill succeeds, removes the file |
| `Stopper.StopDefaultMissing` | server-stopper.js:67-98 | naming only a base directory whose `bin/server.pid` is missing exits -1 and runs nothing |
| `HarakaConfig.Step` | haraka-config.js:50-77 | a pending `-d` takes the next token and fails when it does not exist; `-d`/`--basedir` is the only option, and it makes the next token its value only while the base directory is unset; every positional is accepted, selects inbound exactly when it is `inbound`, and replaces any earlier choice |
| `HarakaConfig.Parse` | haraka-config.js:47-78 | a successful scan has a pending `-d` only while no base directory is set |
| `HarakaConfig.ParseFailsOnlyOnOptions` | haraka-config.js:70-77 | the scan fails only with a usage error or an invalid base directory; no positional is rejected |
| `HarakaConfig.LaterPositionalWins` | haraka-config.js:70-73 | a positional appended to a successful scan overrides the direction chosen before it |
| `HarakaConfig.Check` | haraka-config.js:80-89 | a missing direction is reported before a missing base directory, and the checks pass exactly when both are set |
| `HarakaConfig.Settings` | haraka-config.js:14-31 | inbound has four files and outbound five, each with one variable, under distinct names none of which starts with `t` |
| `HarakaConfig.OutputsAreNotTemplates` | haraka-config.js:109-112 | no output path of the table is a template path, so a written file is never a template read later |
| `HarakaConfig.Substitute` | haraka-config.js:121-132 | no variables leave the body as it is, and a failure names one of the variables |
| `HarakaConfig.SubstituteAppend` | haraka-config.js:121-132 | the variables apply one after another, each to the body the previous ones produced, and the first failure ends the file |
| `HarakaConfig.AbsentPlaceholderFatal` | haraka-config.js:123-129 | a variable whose placeholder is absent from the running body is fatal |
| `HarakaConfig.PresentPlaceholderReplaced` | haraka-config.js:123-131 | a present placeholder whose value has a different length is replaced, and the remaining variables see the new body |
| `HarakaConfig.Render` | haraka-config.js:107-134 | the writes go, in order, to `<base>/config/<file>` and hold the substituted `<base>/config/templates/<file>.tmpl`; the loop completes exactly when nothing fails; a failure concerns the file after the last write and is real: its template is missing, exists but is not a readable file, or lacks the placeholder of the variable named |
| `HarakaConfig.RenderCompletes` | haraka-config.js:107-134 | every file of the set is written exactly when every template is a readable file holding the placeholders its variables need |
| `HarakaConfig.Config` | haraka-config.js:80-137 | a parse or check failure exits -1 before any write; otherwise the files written before a failure stay written, the run exits 0 exactly when every file was written; an unreadable template throws, and a missing template or placeholder exits -1 |
| `Lifecycle.PidPathsMeetOnlyForBinServer` | server-stopper.js:74 | the starter's `<base>/<name>.pid` is the stopper's default PID file exactly when the name is `bin/server` |
| `Lifecycle.DaemonLeavesPid` | server-starter.js:228-239 | after a daemon start the PID file holds the child's PID in decimal, and no file other than the log and the PID file has changed |
| `Lifecycle.LaunchThenStopByPidFile` | server-stopper.js:100-123 | for a daemon with an absolute base directory, stopping by its PID file kills exactly the child's PID and, when the kill succeeds, removes the file |
| `Lifecycle.StopByPidFileAfterDaemonStart` | server-starter.js:216-239 | the same for a whole `start` run that passed its checks |
| `Lifecycle.StopRemovesOnlyPidFile` | server-stopper.js:120-123 | a stop that read the PID file removes it and leaves every other path as it was |
| `Lifecycle.FailedKillKeepsPidFile` | server-stopper.js:118-123 | a stop whose kill command fails leaves the disk exactly as it was, PID file included |
| `Lifecycle.GivenPidLeavesDisk` | server-stopper.js:83-123 | a stop with a PID given on the command line leaves the disk exactly as it was, whatever the kill returns: a PID file is deleted only when the PID came from it |
| `Lifecycle.SecondStopFindsNothing` | server-stopper.js:85-98 | after a successful stop that read its PID from the file, repeating it exits -1 and runs nothing |
| `Lifecycle.LaunchLeavesDefaultPidPath` | server-starter.js:114-116 | a daemon launch under a name other than `bin/server` puts neither its log nor its PID file at the stopper's default path, which keeps both its membership and its contents |
| `Lifecycle.LaunchThenDefaultStopMisses` | server-stopper.js:67-98 | after a daemon launch of a checked plan under another name, `stop -d <base>` finds no PID file (unless one was already there), exits -1 and kills nothing, whatever a kill would return |
| `Lifecycle.DefaultStopMissesDaemon` | server-stopper.js:67-98 | after such a start, `stop -d <base>` finds no PID file (unless one was already there) and kills nothing |

## Left out

- Process spawning, the `sudo date` probes, `child.unref`, the streaming of the
  child's output and the SIGINT `exitHandler` (server-starter.js:146-167,
  197-212) involve operating-system processes and signals. The spawn is an
  effect in the plan, and the child's PID is a parameter.
- A failed spawn, where `child.pid` is `undefined`, is not modelled; the
  child's PID is always a natural number.
- The console messages other than the start marker, and the usage text, are
  not modelled; only the exits they precede are.
- `server-stopper-kill.js` and the `tree-kill` library it calls are not part of
  this model. Only the helper's reading of its last argument (`KillerPid`) is
  kept.
- `path.resolve` normalisation is not modelled: there is no handling of `..`,
  of absolute second arguments, or of relative base directories resolved
  against the working directory. Paths are joined with `/`.
- The file-system calls are modelled only by membership, contents and
  readability. Symbolic links, permissions beyond "cannot be read", and write
  or unlink failures are not modelled.
- The kill command's exit status is a parameter. What `sudo` and the kill
  helper do to produce it is not modelled.
- `Date` and `toISOString` are not modelled: the timestamp is an opaque
  string parameter.
- The values `gv-config` supplies (`serverName`, `serverAdr`,
  `serverDomains`) are parameters.
- Substitution.ReplaceAll: not the JavaScript regular-expression engine.
  Placeholder names are taken to hold no regular-expression metacharacters.
  Case folding covers ASCII letters only. Replacement values are taken
  literally, so `$`-patterns in a value are not expanded.
- Js.ParseInt: does not model number precision beyond 2^53, `-0`, or the
  conversion of a file buffer to a string. It reads a sign and then decimal
  digits after leading white space.
- Starter.Start: the exit code is the argument of `process.exit`; the
  operating system's mapping of -1 to 255 is not modelled.
