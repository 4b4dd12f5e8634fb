/**
 * The file system as the scripts see it (a snapshot of existing directories and
 * files), path construction, and the observable effects a run produces.
 */
module Files {

  type Path = string

  /** `path.resolve(dir, name)`, modelled as joining with a separator (no
      normalisation of `..` or of absolute names). */
  function Resolve(dir: Path, name: string): (p: Path)
    ensures |p| == |dir| + 1 + |name|
    ensures p[..|dir|] == dir && p[|dir|] == '/' && p[|dir| + 1..] == name
  {
    dir + "/" + name
  }

  /** A joined path determines the name joined onto a given directory. */
  lemma ResolveInjective(dir: Path, a: string, b: string)
    requires Resolve(dir, a) == Resolve(dir, b)
    ensures a == b
  {
    assert a == Resolve(dir, a)[|dir| + 1..];
  }

  /** The directory part of a path: everything before its last separator, and
      empty when there is none. */
  function Dir(p: Path): (d: Path)
    ensures |d| <= |p| && d == p[..|d|]
    decreases |p|
  {
    if |p| == 0 then ""
    else if p[|p| - 1] == '/' then p[..|p| - 1]
    else Dir(p[..|p| - 1])
  }

  /** The directory of `x/b`, for a last component `b`, is `x`. */
  lemma {:induction false} DirAfterSlash(x: Path, b: string)
    requires '/' !in b
    ensures Dir(x + "/" + b) == x
    decreases |b|
  {
    var p := x + "/" + b;
    if |b| > 0 {
      assert p[|p| - 1] == b[|b| - 1];
      assert p[..|p| - 1] == x + "/" + b[..|b| - 1];
      DirAfterSlash(x, b[..|b| - 1]);
    } else {
      assert p[..|p| - 1] == x;
    }
  }

  /** A name without a separator sits directly in the directory it is joined to;
      a name with one sits in a subdirectory of it. */
  lemma DirOfResolve(dir: Path, sub: string, name: string)
    requires '/' !in name
    ensures Dir(Resolve(dir, name)) == dir
    ensures Dir(Resolve(dir, sub + "/" + name)) == Resolve(dir, sub)
  {
    DirAfterSlash(dir, name);
    assert Resolve(dir, sub + "/" + name) == Resolve(dir, sub) + "/" + name;
    DirAfterSlash(Resolve(dir, sub), name);
  }

  predicate EndsWith(s: string, suffix: string)
  {
    |suffix| <= |s| && s[|s| - |suffix|..] == suffix
  }

  /** Two names ending in different extensions of the same length never join to
      the same path. */
  lemma DistinctExtensions(d1: Path, n1: string, d2: Path, n2: string, e1: string, e2: string)
    requires |e1| == |e2| && e1 != e2
    ensures Resolve(d1, n1 + e1) != Resolve(d2, n2 + e2)
  {
    var p1 := Resolve(d1, n1 + e1);
    var p2 := Resolve(d2, n2 + e2);
    assert p1[|p1| - |e1|..] == e1;
    assert p2[|p2| - |e2|..] == e2;
  }

  /** What the scripts can observe of the disk: `existsSync` holds of directories
      and files, `statSync(p).isFile()` of files only, and reading the files in
      `unreadable` throws. */
  datatype FileSystem = FileSystem(dirs: set<Path>, files: map<Path, string>, unreadable: set<Path>)

  predicate Exists(fs: FileSystem, p: Path)
  {
    p in fs.dirs || p in fs.files
  }

  predicate IsFile(fs: FileSystem, p: Path)
  {
    p in fs.files
  }

  /** Where a spawned child's standard output and error go. */
  datatype Output = Piped | ToFile(path: Path)

  /** One observable action of a run, in the order it happens. Console messages
      other than the start marker are not modelled. */
  datatype Effect =
    | Stdout(text: string)                                   // console.log
    | AppendFile(path: Path, text: string)                   // appendFileSync, or openSync(p, 'a')
    | WriteFile(path: Path, text: string)                    // writeFileSync
    | RemoveFile(path: Path)                                 // unlinkSync
    | Exec(command: string)                                  // execSync of a shell command line
    | Spawn(argv: seq<string>, cwd: Path, output: Output)    // spawn(argv[0], argv[1..], {detached: true})

  /** How a run ends: `process.exit(code)` (or falling off the end, code 0), an
      uncaught exception, or staying resident beside an attached child. */
  datatype Ending = Exit(code: int) | Uncaught | Resident

  /** The argument every failing path passes to `process.exit`. */
  const ExitFailure: int := -1

  datatype Outcome = Outcome(effects: seq<Effect>, ending: Ending)

  predicate TouchesFile(e: Effect)
  {
    e.AppendFile? || e.WriteFile? || e.RemoveFile?
  }

  /** The file-system change one effect makes: a write leaves exactly the written
      text, an append adds the text after the old contents, a removal leaves nothing, and no
      other path changes. */
  function Apply(fs: FileSystem, e: Effect): (fs': FileSystem)
    ensures fs'.dirs == fs.dirs && fs'.unreadable == fs.unreadable
    ensures e.WriteFile? ==> e.path in fs'.files && fs'.files[e.path] == e.text
    ensures e.AppendFile? ==> e.path in fs'.files && EndsWith(fs'.files[e.path], e.text)
    // an append keeps what the file held, and adds exactly the text
    ensures e.AppendFile? ==>
      var before := if e.path in fs.files then fs.files[e.path] else "";
      |fs'.files[e.path]| == |before| + |e.text| && fs'.files[e.path][..|before|] == before
    ensures e.RemoveFile? ==> e.path !in fs'.files
    ensures forall p :: (!TouchesFile(e) || p != e.path) ==>
      (p in fs'.files <==> p in fs.files) && (p in fs.files ==> fs'.files[p] == fs.files[p])
  {
    match e
    case AppendFile(p, text) =>
      fs.(files := fs.files[p := (if p in fs.files then fs.files[p] else "") + text])
    case WriteFile(p, text) => fs.(files := fs.files[p := text])
    case RemoveFile(p) => fs.(files := fs.files - {p})
    case _ => fs
  }

  function ApplyAll(fs: FileSystem, es: seq<Effect>): (fs': FileSystem)
    ensures fs'.dirs == fs.dirs && fs'.unreadable == fs.unreadable
    decreases |es|
  {
    if |es| == 0 then fs else ApplyAll(Apply(fs, es[0]), es[1..])
  }
}
