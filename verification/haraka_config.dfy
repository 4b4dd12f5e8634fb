/**
 * `config inbound|outbound -d <base dir>`: fill in the Haraka configuration
 * templates of the chosen set. For each file of the set, in order, the template
 * `<base>/config/templates/<file>.tmpl` is read, each of the file's variables is
 * substituted for its `${name}` placeholder, and the result is written to
 * `<base>/config/<file>`.
 */
module HarakaConfig {
  import opened Results
  import opened Js
  import opened Files
  import opened Cli
  import opened Substitution

  datatype Direction = Inbound | Outbound

  /** The script's accumulator variables while it scans its arguments. */
  datatype Options = Options(
    dir: Option<Direction>,
    baseDir: Option<Path>,
    baseDirFlag: bool)   // the next token is the value of -d

  const Initial: Options := Options(None, None, false)

  datatype ConfigError =
    | InvalidBaseDir(dir: Path)
    | Usage
    | NoDirection
    | NoBaseDir

  predicate Valid(o: Options)
  {
    o.baseDirFlag ==> o.baseDir.None?
  }

  /** The direction a positional selects. The test for "outbound" is an
      assignment, so it always succeeds: anything but "inbound" is outbound. */
  function Select(option: string): Direction
  {
    if option == "inbound" then Inbound else Outbound
  }

  /** One call of the `forEach` callback, on the already trimmed token. */
  function Step(o: Options, fs: FileSystem, option: string): (r: Result<Options, ConfigError>)
    // a pending -d value is taken whatever it looks like, and must exist
    ensures o.baseDirFlag ==>
      && (r.Ok? <==> Exists(fs, option))
      && (r.Err? ==> r.error == InvalidBaseDir(option))
      && (r.Ok? ==> r.value.baseDir == Some(option) && !r.value.baseDirFlag && r.value.dir == o.dir)
    // with nothing pending, -d/--basedir is the only option
    ensures !o.baseDirFlag && StartsWithDash(option) ==>
      && (r.Ok? <==> option == "-d" || option == "--basedir")
      && (r.Err? ==> r.error == Usage)
      && (r.Ok? ==> r.value.dir == o.dir)
    // -d makes the next token its value while the base directory is unset, and is
    // ignored once it is set
    ensures !o.baseDirFlag && (option == "-d" || option == "--basedir") ==>
      r == Ok(if o.baseDir.None? then o.(baseDirFlag := true) else o)
    // every positional is accepted, selects "inbound" only when it is exactly that,
    // and replaces any earlier choice
    ensures !o.baseDirFlag && !StartsWithDash(option) ==>
      && r.Ok?
      && (r.value.dir == Some(Inbound) <==> option == "inbound")
      && r.value.dir.Some?
      && r.value.baseDir == o.baseDir && r.value.baseDirFlag == o.baseDirFlag
    ensures Valid(o) && r.Ok? ==> Valid(r.value)
    ensures Valid(o) && o.baseDir.Some? && r.Ok? ==> r.value.baseDir == o.baseDir && !r.value.baseDirFlag
  {
    if o.baseDirFlag then
      if Exists(fs, option) then Ok(o.(baseDirFlag := false, baseDir := Some(option)))
      else Err(InvalidBaseDir(option))
    else if StartsWithDash(option) then
      if option == "-d" || option == "--basedir" then
        Ok(if o.baseDir.None? then o.(baseDirFlag := true) else o)
      else Err(Usage)
    else Ok(o.(dir := Some(Select(option))))
  }

  function Stepper(fs: FileSystem): (Options, string) -> Result<Options, ConfigError>
  {
    (o, option) => Step(o, fs, option)
  }

  /** The whole scan of the arguments, from the script's initial values. */
  function Parse(fs: FileSystem, args: seq<string>): (r: Result<Options, ConfigError>)
    ensures r.Ok? ==> Valid(r.value)
  {
    ScanInvariant(Stepper(fs), Valid, Initial, args);
    Scan(Stepper(fs), Initial, args)
  }

  /** Only a dash option or a missing base directory can make the scan fail: no
      positional is ever rejected. */
  lemma ParseFailsOnlyOnOptions(fs: FileSystem, args: seq<string>)
    ensures Parse(fs, args).Err? ==> Parse(fs, args).error == Usage || Parse(fs, args).error.InvalidBaseDir?
  {
    ScanErrors(fs, Initial, args);
  }

  lemma {:induction false} ScanErrors(fs: FileSystem, o: Options, args: seq<string>)
    ensures Scan(Stepper(fs), o, args).Err? ==>
      Scan(Stepper(fs), o, args).error == Usage || Scan(Stepper(fs), o, args).error.InvalidBaseDir?
    decreases |args|
  {
    if |args| > 0 {
      match Step(o, fs, Trim(args[0]))
      case Err(e) =>
      case Ok(o') => ScanErrors(fs, o', args[1..]);
    }
  }

  /** A later positional overrides an earlier one. */
  lemma LaterPositionalWins(fs: FileSystem, before: seq<string>, positional: string)
    requires Parse(fs, before).Ok? && !Parse(fs, before).value.baseDirFlag
    requires !StartsWithDash(Trim(positional))
    ensures Parse(fs, before + [positional]) == Ok(Parse(fs, before).value.(dir := Some(Select(Trim(positional)))))
  {
    ScanGoesOn(Stepper(fs), Initial, before, positional, []);
    assert before + [positional] + [] == before + [positional];
  }

  /** The checks after parsing, in the script's order. */
  function Check(o: Options): (r: Result<(Direction, Path), ConfigError>)
    ensures o.dir.None? ==> r == Err(NoDirection)
    ensures o.dir.Some? && o.baseDir.None? ==> r == Err(NoBaseDir)
    ensures r.Ok? <==> o.dir.Some? && o.baseDir.Some?
    ensures r.Ok? ==> r.value == (o.dir.value, o.baseDir.value)
  {
    if o.dir.None? then Err(NoDirection)
    else if o.baseDir.None? then Err(NoBaseDir)
    else Ok((o.dir.value, o.baseDir.value))
  }

  /** The values taken from the `gv-config` module. */
  datatype GvConfig = GvConfig(serverName: string, serverAdr: string, serverDomains: seq<string>)

  /** `serverDomains[0]`, which string concatenation and `replace` render as
      "undefined" when the list is empty. */
  function FirstDomain(gv: GvConfig): string
  {
    if |gv.serverDomains| > 0 then gv.serverDomains[0] else "undefined"
  }

  datatype Variable = Variable(name: string, value: string)

  /** One output file and its variables, in declaration order. */
  datatype ConfigFile = ConfigFile(key: string, vars: seq<Variable>)

  /** The `configSettings` table, in the order `Object.keys` lists it. */
  function Settings(d: Direction, gv: GvConfig): (files: seq<ConfigFile>)
    ensures |files| == (if d == Inbound then 4 else 5)
    ensures forall i :: 0 <= i < |files| ==> |files[i].vars| == 1 && |files[i].key| > 0 && files[i].key[0] != 't'
    ensures forall i, j :: 0 <= i < j < |files| ==> files[i].key != files[j].key
  {
    match d
    case Inbound => [
      ConfigFile("databytes", [Variable("databytes", "20000000")]),
      ConfigFile("me", [Variable("serverName", gv.serverName)]),
      ConfigFile("host_list", [Variable("hostList", gv.serverName)]),
      ConfigFile("smtp.ini", [Variable("listenAdr", gv.serverAdr + ":25")])]
    case Outbound => [
      ConfigFile("databytes", [Variable("databytes", "40000000")]),
      ConfigFile("me", [Variable("serverName", gv.serverName)]),
      ConfigFile("host_list", [Variable("hostList", gv.serverName)]),
      ConfigFile("mail_from.access.whitelist_regex", [Variable("regex", ".*@" + FirstDomain(gv))]),
      ConfigFile("dkim_sign.ini", [Variable("domain", FirstDomain(gv))])]
  }

  function ConfigDir(baseDir: Path): Path
  {
    Resolve(baseDir, "config")
  }

  function TemplatePath(baseDir: Path, key: string): Path
  {
    Resolve(Resolve(ConfigDir(baseDir), "templates"), key + ".tmpl")
  }

  function OutputPath(baseDir: Path, key: string): Path
  {
    Resolve(ConfigDir(baseDir), key)
  }

  /** No output file of the table is a template file, so writing the outputs one
      by one never changes a template a later file reads. */
  lemma OutputsAreNotTemplates(baseDir: Path, d: Direction, gv: GvConfig, i: nat, j: nat)
    requires i < |Settings(d, gv)| && j < |Settings(d, gv)|
    ensures OutputPath(baseDir, Settings(d, gv)[i].key) != TemplatePath(baseDir, Settings(d, gv)[j].key)
  {
    var out := Settings(d, gv)[i].key;
    var tmpl := Settings(d, gv)[j].key;
    var c := ConfigDir(baseDir);
    assert OutputPath(baseDir, out)[|c| + 1] == out[0];
    assert TemplatePath(baseDir, tmpl)[|c| + 1] == 't';
  }

  function Placeholder(name: string): (p: string)
    ensures |p| > 0
  {
    "${" + name + "}"
  }

  /** Apply the variables one after another to the running body; a substitution
      that leaves the body as it was fails with that variable's name. */
  function Substitute(body: string, vars: seq<Variable>): (r: Result<string, string>)
    ensures |vars| == 0 ==> r == Ok(body)
    ensures r.Err? ==> exists j :: 0 <= j < |vars| && vars[j].name == r.error
    decreases |vars|
  {
    if |vars| == 0 then Ok(body)
    else
      var next := ReplaceAll(body, Placeholder(vars[0].name), vars[0].value);
      if next == body then Err(vars[0].name)
      else
        var r := Substitute(next, vars[1..]);
        assert r.Err? ==> vars[1..][0].name == r.error || exists j :: 1 <= j < |vars| && vars[j].name == r.error;
        r
  }

  /** Each variable sees the output of the ones before it. */
  lemma {:induction false} SubstituteAppend(body: string, a: seq<Variable>, b: seq<Variable>)
    ensures Substitute(body, a + b) ==
      match Substitute(body, a)
      case Err(e) => Err(e)
      case Ok(body') => Substitute(body', b)
    decreases |a|
  {
    if |a| == 0 {
      assert a + b == b;
    } else {
      assert (a + b)[0] == a[0];
      assert (a + b)[1..] == a[1..] + b;
      var next := ReplaceAll(body, Placeholder(a[0].name), a[0].value);
      if next != body {
        SubstituteAppend(next, a[1..], b);
      }
    }
  }

  /** A variable whose placeholder is absent from the running body is fatal. */
  lemma AbsentPlaceholderFatal(body: string, v: Variable, rest: seq<Variable>)
    requires !Occurs(body, Placeholder(v.name))
    ensures Substitute(body, [v] + rest) == Err(v.name)
  {
    assert ([v] + rest)[0] == v;
  }

  /** A present placeholder whose value differs in length from it is replaced, and
      the remaining variables go on from the new body. */
  lemma PresentPlaceholderReplaced(body: string, v: Variable, rest: seq<Variable>)
    requires Occurs(body, Placeholder(v.name))
    requires |v.value| != |Placeholder(v.name)|
    ensures Substitute(body, [v] + rest) == Substitute(ReplaceAll(body, Placeholder(v.name), v.value), rest)
  {
    UnchangedIffAbsent(body, Placeholder(v.name), v.value);
    assert ([v] + rest)[0] == v;
    assert ([v] + rest)[1..] == rest;
  }

  datatype RenderError =
    | TemplateMissing(template: Path)
    | TemplateUnreadable(template: Path)
    | VariableNotFound(variable: string, template: Path)

  /** The writes made so far and, when the loop stopped early, why. */
  datatype Rendered = Rendered(writes: seq<Effect>, failure: Option<RenderError>)

  /** `w` writes `f`'s output: its template with every variable substituted. */
  predicate Renders(fs: FileSystem, baseDir: Path, f: ConfigFile, w: Effect)
  {
    && w.WriteFile?
    && w.path == OutputPath(baseDir, f.key)
    && TemplatePath(baseDir, f.key) in fs.files
    && TemplatePath(baseDir, f.key) !in fs.unreadable
    && Substitute(fs.files[TemplatePath(baseDir, f.key)], f.vars) == Ok(w.text)
  }

  /** `e` is what stops the loop at `f`: a missing template, one that cannot be
      read, or a variable whose placeholder the template lacks. */
  predicate Fails(fs: FileSystem, baseDir: Path, f: ConfigFile, e: RenderError)
  {
    var t := TemplatePath(baseDir, f.key);
    && e.template == t
    && match e
       case TemplateMissing(_) => !Exists(fs, t)
       case TemplateUnreadable(_) => Exists(fs, t) && (t !in fs.files || t in fs.unreadable)
       case VariableNotFound(v, _) =>
         t in fs.files && t !in fs.unreadable && Substitute(fs.files[t], f.vars) == Err(v)
  }

  /** The template of `f` is a readable file holding every placeholder it needs. */
  predicate Renderable(fs: FileSystem, baseDir: Path, f: ConfigFile)
  {
    var t := TemplatePath(baseDir, f.key);
    t in fs.files && t !in fs.unreadable && Substitute(fs.files[t], f.vars).Ok?
  }

  /** The loop over the files of the set. A template that `existsSync` accepts but
      that cannot be read (a directory, say) makes `readFileSync` throw. */
  function Render(fs: FileSystem, baseDir: Path, files: seq<ConfigFile>): (r: Rendered)
    ensures |r.writes| <= |files|
    // the writes are the files' outputs, in order, each the substituted template
    ensures forall j :: 0 <= j < |r.writes| ==> Renders(fs, baseDir, files[j], r.writes[j])
    // the loop runs to the end unless a file fails; the failing file is the one after the last write
    ensures r.failure.None? <==> |r.writes| == |files|
    ensures r.failure.Some? ==> r.failure.value.template == TemplatePath(baseDir, files[|r.writes|].key)
    // and it fails for a reason the source checks
    ensures r.failure.Some? ==> Fails(fs, baseDir, files[|r.writes|], r.failure.value)
    decreases |files|
  {
    if |files| == 0 then Rendered([], None)
    else
      var template := TemplatePath(baseDir, files[0].key);
      if !Exists(fs, template) then Rendered([], Some(TemplateMissing(template)))
      else if template !in fs.files || template in fs.unreadable then Rendered([], Some(TemplateUnreadable(template)))
      else
        match Substitute(fs.files[template], files[0].vars)
        case Err(name) => Rendered([], Some(VariableNotFound(name, template)))
        case Ok(body) =>
          var rest := Render(fs, baseDir, files[1..]);
          Rendered([WriteFile(OutputPath(baseDir, files[0].key), body)] + rest.writes, rest.failure)
  }

  /** Every file of the set is written exactly when every template is a readable
      file holding the placeholders its variables need. */
  lemma RenderCompletes(fs: FileSystem, baseDir: Path, files: seq<ConfigFile>)
    ensures Render(fs, baseDir, files).failure.None? <==>
      forall j :: 0 <= j < |files| ==> Renderable(fs, baseDir, files[j])
  {
    var r := Render(fs, baseDir, files);
    if r.failure.None? {
      forall j | 0 <= j < |files|
        ensures Renderable(fs, baseDir, files[j])
      {
        assert Renders(fs, baseDir, files[j], r.writes[j]);
      }
    } else {
      var f := files[|r.writes|];
      assert Fails(fs, baseDir, f, r.failure.value);
      assert !Renderable(fs, baseDir, f);
    }
  }

  /** A whole `config` run, given the `gv-config` values. */
  function Config(args: seq<string>, fs: FileSystem, gv: GvConfig): (out: Outcome)
    // a failed scan or check exits before anything is written
    ensures Parse(fs, args).Err? || Check(Parse(fs, args).value).Err? ==> out == Outcome([], Exit(ExitFailure))
    ensures Parse(fs, args).Ok? && Check(Parse(fs, args).value).Ok? ==>
      var (d, baseDir) := Check(Parse(fs, args).value).value;
      var r := Render(fs, baseDir, Settings(d, gv));
      // the files written before a failure stay written
      && out.effects == r.writes
      && (r.failure.None? <==> out.ending == Exit(0))
      && (r.failure.Some? && r.failure.value.TemplateUnreadable? <==> out.ending == Uncaught)
      // a missing template or placeholder exits with failure
      && (r.failure.Some? && !r.failure.value.TemplateUnreadable? ==> out.ending == Exit(ExitFailure))
  {
    match Parse(fs, args)
    case Err(_) => Outcome([], Exit(ExitFailure))
    case Ok(o) =>
      match Check(o)
      case Err(_) => Outcome([], Exit(ExitFailure))
      case Ok((d, baseDir)) =>
        var r := Render(fs, baseDir, Settings(d, gv));
        Outcome(r.writes,
          match r.failure
          case None => Exit(0)
          case Some(TemplateUnreadable(_)) => Uncaught
          case Some(_) => Exit(ExitFailure))
  }
}
