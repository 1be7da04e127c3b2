/** Recursive expansion of the plugin archives (workbench.py, with a copy in
    lib/utils.py): `is_archive`, `get_expanded_dir_name`, `unzip`,
    `walk_files` and `extract_jar`.

    `unzip(f)` makes sure the target directory `PATH_TO_PLUGINS + basename(f) +
    ".contents"` can be written, runs the external `unzip` command into it, and
    walks it, calling `unzip` again on every file whose name ends in ".jar".
    The recursion is stated once over an arbitrary `Stepper` (what one call does
    before it walks: the external extractor and the `os.walk` listing), so that
    its properties are proved for any step that has the property needed; `StepAt`
    is the step of the program itself. Python's recursion limit is the `depth`
    budget: reaching it raises, and the exception ends the whole run. The class
    `PluginStore` performs the same run one statement at a time. */
module Archives {
  import opened Wrappers
  import opened Text
  import opened Paths
  import opened Files

  /** `is_archive(file_name)`: `file_name[-4:] in [".jar"]`. */
  predicate IsArchive(name: string)
  {
    Tail(name, 4) == ".jar"
  }

  /** A name is an archive name exactly when it is at least four characters
      long and ends in ".jar", in lower case. */
  lemma IsArchiveMeans(name: string)
    ensures IsArchive(name) <==> |name| >= 4 && name[|name| - 4..] == ".jar"
    ensures !IsArchive("plugin.JAR") && !IsArchive("jar") && IsArchive(".jar")
  {
  }

  /** `PATH_TO_PLUGINS = os.path.join(CURRENT_DIR, "sources/plugins/")` */
  function PathToPlugins(currentDir: Path): (root: Path)
    ensures ValidRoot(root)
  {
    JoinPath(currentDir, "sources/plugins/")
  }

  /** The plugin directory ends with a slash, as `PathToPlugins` makes it. */
  predicate ValidRoot(root: Path)
  {
    root != [] && root[|root| - 1] == '/'
  }

  /** `get_expanded_dir_name(file_name)` */
  function ExpandedDirName(root: Path, fileName: Path): Path
  {
    JoinPath(root, Basename(fileName) + ".contents")
  }

  /** The target directory is the plugin directory, the basename and
      ".contents", and it is always a direct child of the plugin directory:
      a nested archive is expanded next to its parent's tree, never inside it,
      and two files with one basename share one target. */
  lemma ExpandedDirIsFlat(root: Path, fileName: Path)
    requires ValidRoot(root)
    ensures ExpandedDirName(root, fileName) == root + Basename(fileName) + ".contents"
    ensures Basename(ExpandedDirName(root, fileName)) == Basename(fileName) + ".contents"
    ensures Dirname(ExpandedDirName(root, fileName)) == Dirname(root)
  {
    var base := Basename(fileName);
    var name := base + ".contents";
    BasenameSpec(fileName);
    ContentsName(base);
    assert JoinPath(root, name) == root + name;
    assert root + name == root + base + ".contents";
    ChildOf(root, name);
  }

  lemma ContentsName(base: string)
    requires Lacks(base, '/')
    ensures Lacks(base + ".contents", '/')
    ensures (base + ".contents")[0] != '/'
  {
    assert Lacks(".contents", '/');
    LacksConcat(base, ".contents", '/');
  }

  /** The shell command `unzip <source> -d <outDir>`. When `source` is an
      archive, `outDir` is created unless it is a directory already, and the
      members are written below it in member order, over what is there; the
      status is zero when every member was written. When `source` is not an
      archive, or `outDir` cannot be created, nothing is written and the
      status is non-zero. */
  function Extract(fs: FileSystem, source: Path, outDir: Path): (FileSystem, bool)
  {
    match Find(fs, source)
    case Some(File(Archive(members))) =>
      (match (if IsDir(fs, outDir) then Ok(fs) else Mkdir(fs, outDir))
       case Err(_) => (fs, false)
       case Ok(fs1) => WriteMembers(fs1, outDir, members))
    case _ => (fs, false)
  }

  /** The members one after another, and whether every one was written. */
  function WriteMembers(fs: FileSystem, outDir: Path, members: seq<Member>): (FileSystem, bool)
    decreases members
  {
    if members == [] then (fs, true)
    else
      var placed := Place(fs, outDir + "/" + members[0].path, members[0].node);
      var rest := WriteMembers(placed.0, outDir, members[1..]);
      (rest.0, placed.1 && rest.1)
  }

  /** One member at `t`: the missing directories above it first, then the
      member itself, replacing a file. A member whose directories cannot be
      made is skipped, and one that meets an entry of the other kind leaves
      that entry; either makes the status non-zero. */
  function Place(fs: FileSystem, t: Path, n: Node): (FileSystem, bool)
  {
    var up := Dirname(t);
    DirnameSpec(t);
    match (if Enterable(fs, up) then Ok(fs) else MakeDirs(fs, up))
    case Err(_) => (fs, false)
    case Ok(fs1) => (Write(fs1, t, n), Fits(fs1, t, n))
  }

  /** `n` can stand at `t`: nothing is there, or an entry of the same kind. */
  predicate Fits(fs: FileSystem, t: Path, n: Node)
  {
    match Find(fs, t)
    case None => true
    case Some(was) => was.Dir? == n.Dir?
  }

  /** What a call of `unzip` has done when it starts walking: the tree, whether
      the extractor succeeded (a status the program computes and never reads),
      and the files the walk of the target directory reports. */
  datatype Stage = Stage(fs: FileSystem, extracted: bool, walked: seq<Path>)

  /** One call's work before the recursion, given the tree and the file name;
      it fails when `ensure_dir` raises. */
  type Stepper = (FileSystem, Path) -> Result<Stage, OsError>

  /** The step of `unzip` itself: `ensure_dir(o_dir)`, the extractor on
      `os.path.join(PATH_TO_PLUGINS, file_name)`, then `os.walk(o_dir)`. */
  function Step(fs: FileSystem, root: Path, fileName: Path): Result<Stage, OsError>
  {
    var outDir := ExpandedDirName(root, fileName);
    match EnsureDir(fs, outDir)
    case Err(e) => Err(e)
    case Ok(fs1) =>
      var x := Extract(fs1, JoinPath(root, fileName), outDir);
      Ok(Stage(x.0, x.1, WalkFiles(x.0, outDir)))
  }

  function StepAt(root: Path): Stepper
  {
    (fs: FileSystem, fileName: Path) => Step(fs, root, fileName)
  }

  /** One `unzip` call: the file it was given, whether the extractor
      succeeded, and the calls made while walking its target directory. */
  datatype Call = Call(file: Path, extracted: bool, nested: seq<Call>)

  /** Why a run stopped early. */
  datatype Failure = RecursionLimit | OsFailure(error: OsError)

  /** The tree after a run, and either its result or the exception that ended
      it; what was written before an exception stays written. */
  datatype Run<T> = Run(fs: FileSystem, outcome: Result<T, Failure>)

  function Prepend(calls: seq<Call>, run: Run<seq<Call>>): Run<seq<Call>>
  {
    if run.outcome.Ok? then Run(run.fs, Ok(calls + run.outcome.value)) else run
  }

  /** `unzip(file_name)`: the step, then the walk of what it reports. */
  function UnzipRun(step: Stepper, fs: FileSystem, fileName: Path, depth: nat): Run<Call>
    decreases depth, 0
  {
    if depth == 0 then Run(fs, Err(RecursionLimit))
    else
      match step(fs, fileName)
      case Err(e) => Run(fs, Err(OsFailure(e)))
      case Ok(s) =>
        var w := WalkRun(step, s.fs, s.walked, depth - 1);
        Run(w.fs, if w.outcome.Ok? then Ok(Call(fileName, s.extracted, w.outcome.value)) else Err(w.outcome.error))
  }

  /** The loop of `walk_files` over the files its walk reports: `unzip` every
      file whose name is an archive name, in walk order, stopping at the first
      exception. */
  function WalkRun(step: Stepper, fs: FileSystem, files: seq<Path>, depth: nat): Run<seq<Call>>
    decreases depth, |files| + 1
  {
    if files == [] then Run(fs, Ok([]))
    else if !IsArchive(Basename(files[0])) then WalkRun(step, fs, files[1..], depth)
    else
      var u := UnzipRun(step, fs, files[0], depth);
      if u.outcome.Err? then Run(u.fs, Err(u.outcome.error))
      else Prepend([u.outcome.value], WalkRun(step, u.fs, files[1..], depth))
  }

  /** `unzip` on every name in turn, stopping at the first exception. */
  function UnzipAll(step: Stepper, fs: FileSystem, names: seq<Path>, depth: nat): Run<seq<Call>>
    decreases names
  {
    if names == [] then Run(fs, Ok([]))
    else
      var u := UnzipRun(step, fs, names[0], depth);
      if u.outcome.Err? then Run(u.fs, Err(u.outcome.error))
      else Prepend([u.outcome.value], UnzipAll(step, u.fs, names[1..], depth))
  }

  /** `extract_jar()`: `unzip` every regular file directly inside the plugin
      directory, whatever its name; listing a missing directory raises. */
  function ExtractJarRun(fs: FileSystem, root: Path, depth: nat): Run<seq<Call>>
  {
    match ListFiles(fs, root)
    case Err(e) => Run(fs, Err(OsFailure(e)))
    case Ok(names) => UnzipAll(StepAt(root), fs, names, depth)
  }

  /** The names among `files` that `walk_files` hands to `unzip`. */
  function ArchivesAmong(files: seq<Path>): seq<Path>
  {
    if files == [] then []
    else if IsArchive(Basename(files[0])) then [files[0]] + ArchivesAmong(files[1..])
    else ArchivesAmong(files[1..])
  }

  /** `walk_files` calls `unzip` on exactly the walked files with an archive
      name, in walk order, and on nothing else. */
  lemma {:induction false} WalkUnzipsArchives(step: Stepper, fs: FileSystem, files: seq<Path>, depth: nat)
    ensures WalkRun(step, fs, files, depth) == UnzipAll(step, fs, ArchivesAmong(files), depth)
    decreases files
  {
    if files != [] {
      if !IsArchive(Basename(files[0])) {
        WalkUnzipsArchives(step, fs, files[1..], depth);
      } else {
        var u := UnzipRun(step, fs, files[0], depth);
        assert ArchivesAmong(files)[1..] == ArchivesAmong(files[1..]);
        if u.outcome.Ok? {
          WalkUnzipsArchives(step, u.fs, files[1..], depth);
        }
      }
    }
  }

  /** A run over a list of names that completes made one top-level call per
      name, in the same order. */
  lemma {:induction false} UnzipAllCalls(step: Stepper, fs: FileSystem, names: seq<Path>, depth: nat)
    ensures UnzipAll(step, fs, names, depth).outcome.Ok? ==>
              var calls := UnzipAll(step, fs, names, depth).outcome.value;
              |calls| == |names| && forall k :: 0 <= k < |names| ==> calls[k].file == names[k]
    decreases names
  {
    if names != [] {
      var u := UnzipRun(step, fs, names[0], depth);
      if u.outcome.Ok? {
        UnzipAllCalls(step, u.fs, names[1..], depth);
        var rest := UnzipAll(step, u.fs, names[1..], depth);
        if rest.outcome.Ok? {
          var calls := [u.outcome.value] + rest.outcome.value;
          assert forall k :: 0 < k < |calls| ==> calls[k] == rest.outcome.value[k - 1];
        }
      }
    }
  }

  /** The step never turns a directory into a file or a file into a directory. */
  ghost predicate StepKeepsKind(step: Stepper)
  {
    forall fs: FileSystem, f: Path, q: Path :: step(fs, f).Ok? ==> KeepsKind(fs, step(fs, f).value.fs, q)
  }

  /** The step never raises while `base` is a directory. */
  ghost predicate StepSafeWhere(step: Stepper, base: Path)
  {
    forall fs: FileSystem, f: Path :: IsDir(fs, base) ==> step(fs, f).Ok?
  }

  lemma PlaceKeepsKind(fs: FileSystem, t: Path, n: Node, q: Path)
    ensures KeepsKind(fs, Place(fs, t, n).0, q)
  {
    var up := Dirname(t);
    DirnameSpec(t);
    if Enterable(fs, up) {
      WriteKeepsKind(fs, t, n, q);
    } else if MakeDirs(fs, up).Ok? {
      MakeDirsKeepsKind(fs, up, q);
      WriteKeepsKind(MakeDirs(fs, up).value, t, n, q);
    }
  }

  lemma {:induction false} WriteMembersKeepsKind(fs: FileSystem, outDir: Path, members: seq<Member>, q: Path)
    ensures KeepsKind(fs, WriteMembers(fs, outDir, members).0, q)
    decreases members
  {
    if members != [] {
      var fs1 := Place(fs, outDir + "/" + members[0].path, members[0].node).0;
      PlaceKeepsKind(fs, outDir + "/" + members[0].path, members[0].node, q);
      WriteMembersKeepsKind(fs1, outDir, members[1..], q);
    }
  }

  lemma ExtractKeepsKind(fs: FileSystem, source: Path, outDir: Path, q: Path)
    ensures KeepsKind(fs, Extract(fs, source, outDir).0, q)
  {
    match Find(fs, source)
    case Some(File(Archive(members))) =>
      if IsDir(fs, outDir) {
        WriteMembersKeepsKind(fs, outDir, members, q);
      } else if Mkdir(fs, outDir).Ok? {
        WriteKeepsKind(fs, outDir, Dir, q);
        WriteMembersKeepsKind(Write(fs, outDir, Dir), outDir, members, q);
      }
    case _ =>
  }

  /** The extractor writes the member at `t` and touches nothing but `t`
      and the directories above it. */
  lemma PlaceFrame(fs: FileSystem, t: Path, n: Node, q: Path)
    requires q != t && !StartsWith(t, q + "/")
    ensures Find(Place(fs, t, n).0, q) == Find(fs, q)
  {
    var up := Dirname(t);
    DirnameSpec(t);
    if Enterable(fs, up) {
      WriteSpec(fs, t, n, q);
    } else if MakeDirs(fs, up).Ok? {
      DirnamePrefix(t);
      StartsWithTrans(t, up + "/", up);
      if StartsWith(up, q + "/") {
        StartsWithTrans(t, up, q + "/");
      }
      MakeDirsAbove(fs, up, q);
      WriteSpec(MakeDirs(fs, up).value, t, n, q);
    }
  }

  /** A file member in an existing directory, where no directory stands, is
      written with its content. */
  lemma PlaceInDir(fs: FileSystem, t: Path, c: Content)
    requires Enterable(fs, Dirname(t)) && !IsDir(fs, t)
    ensures Find(Place(fs, t, File(c)).0, t) == Some(File(c))
  {
    WriteSpec(fs, t, File(c), t);
  }

  lemma {:induction false} MembersFrame(fs: FileSystem, outDir: Path, members: seq<Member>, q: Path)
    requires forall j :: 0 <= j < |members| ==>
               outDir + "/" + members[j].path != q && !StartsWith(outDir + "/" + members[j].path, q + "/")
    ensures Find(WriteMembers(fs, outDir, members).0, q) == Find(fs, q)
    decreases |members|
  {
    if members != [] {
      var placed := Place(fs, outDir + "/" + members[0].path, members[0].node);
      PlaceFrame(fs, outDir + "/" + members[0].path, members[0].node, q);
      MembersFrame(placed.0, outDir, members[1..], q);
    }
  }

  /** A file member that no other member shares or lies below, in a target
      directory that exists, ends up on disk with its content. */
  lemma {:induction false} MemberWritten(fs: FileSystem, outDir: Path, members: seq<Member>, k: nat)
    requires k < |members| && members[k].node.File?
    requires IsDir(fs, outDir) && Dirname(outDir + "/" + members[k].path) == outDir
    requires !IsDir(fs, outDir + "/" + members[k].path)
    requires forall j :: 0 <= j < |members| && j != k ==>
               && outDir + "/" + members[j].path != outDir + "/" + members[k].path
               && !StartsWith(outDir + "/" + members[j].path, outDir + "/" + members[k].path + "/")
    ensures Find(WriteMembers(fs, outDir, members).0, outDir + "/" + members[k].path) == Some(members[k].node)
    decreases |members|
  {
    var t := outDir + "/" + members[k].path;
    var t0 := outDir + "/" + members[0].path;
    var placed := Place(fs, t0, members[0].node);
    if k == 0 {
      PlaceInDir(fs, t, members[0].node.content);
      MembersFrame(placed.0, outDir, members[1..], t);
    } else {
      PlaceFrame(fs, t0, members[0].node, t);
      PlaceKeepsKind(fs, t0, members[0].node, outDir);
      MemberWritten(placed.0, outDir, members[1..], k - 1);
    }
  }

  /** The program's step keeps every kind. */
  lemma StepKeeps(fs: FileSystem, root: Path, fileName: Path, q: Path)
    ensures Step(fs, root, fileName).Ok? ==> KeepsKind(fs, Step(fs, root, fileName).value.fs, q)
  {
    var outDir := ExpandedDirName(root, fileName);
    if EnsureDir(fs, outDir).Ok? {
      var fs1 := EnsureDir(fs, outDir).value;
      EnsureDirKeepsKind(fs, outDir, q);
      ExtractKeepsKind(fs1, JoinPath(root, fileName), outDir, q);
      KeepsKindTrans(fs, fs1, Extract(fs1, JoinPath(root, fileName), outDir).0, q);
    }
  }

  /** With a plugin directory that ends in '/', the program's step raises
      exactly when that directory is missing and looking it up stops at a
      regular file: `ensure_dir` on the target then raises
      `NotADirectoryError`. A failing extractor never raises. */
  lemma StepSucceeds(fs: FileSystem, root: Path, fileName: Path)
    requires ValidRoot(root)
    ensures Step(fs, root, fileName).Ok? <==>
              Exists(fs, TrimSlashes(root)) || !MeetsFile(fs, TrimSlashes(root))
  {
    var outDir := ExpandedDirName(root, fileName);
    ExpandedDirIsFlat(root, fileName);
    DirnameOfDir(root);
    assert outDir[|root| - 1] == '/';
    EnsureDirSpec(fs, outDir);
  }

  /** `step` is the step `Step` takes under `root`: applying it is running
      `ensure_dir` and `unzip` there. */
  ghost predicate Performs(step: Stepper, root: Path)
  {
    forall fs: FileSystem, f: Path {:trigger Step(fs, root, f)} :: step(fs, f) == Step(fs, root, f)
  }

  lemma StepAtPerforms(root: Path)
    ensures Performs(StepAt(root), root)
  {
  }

  lemma StepAtSafe(step: Stepper, root: Path)
    requires Performs(step, root)
    ensures StepKeepsKind(step)
    ensures ValidRoot(root) ==> StepSafeWhere(step, TrimSlashes(root))
  {
    forall fs: FileSystem, f: Path, q: Path
      ensures step(fs, f).Ok? ==> KeepsKind(fs, step(fs, f).value.fs, q)
    {
      assert step(fs, f) == Step(fs, root, f);
      StepKeeps(fs, root, f, q);
    }
    if ValidRoot(root) {
      forall fs: FileSystem, f: Path | IsDir(fs, TrimSlashes(root))
        ensures step(fs, f).Ok?
      {
        assert step(fs, f) == Step(fs, root, f);
        StepSucceeds(fs, root, f);
      }
    }
  }

  /** No run turns a directory into a file or a file into a directory, even one
      that ends in an exception. */
  lemma {:induction false} UnzipKeepsKind(step: Stepper, fs: FileSystem, fileName: Path, depth: nat, q: Path)
    requires StepKeepsKind(step)
    ensures KeepsKind(fs, UnzipRun(step, fs, fileName, depth).fs, q)
    decreases depth, 0
  {
    if depth > 0 && step(fs, fileName).Ok? {
      var s := step(fs, fileName).value;
      WalkKeepsKind(step, s.fs, s.walked, depth - 1, q);
      KeepsKindTrans(fs, s.fs, WalkRun(step, s.fs, s.walked, depth - 1).fs, q);
    }
  }

  lemma {:induction false} WalkKeepsKind(step: Stepper, fs: FileSystem, files: seq<Path>, depth: nat, q: Path)
    requires StepKeepsKind(step)
    ensures KeepsKind(fs, WalkRun(step, fs, files, depth).fs, q)
    decreases depth, |files| + 1
  {
    if files != [] {
      if !IsArchive(Basename(files[0])) {
        WalkKeepsKind(step, fs, files[1..], depth, q);
      } else {
        var u := UnzipRun(step, fs, files[0], depth);
        UnzipKeepsKind(step, fs, files[0], depth, q);
        if u.outcome.Ok? {
          WalkKeepsKind(step, u.fs, files[1..], depth, q);
          KeepsKindTrans(fs, u.fs, WalkRun(step, u.fs, files[1..], depth).fs, q);
        }
      }
    }
  }

  /** When the step cannot raise while `base` is a directory, and `base` is
      one, the only exception a run can end in is the recursion limit. */
  lemma {:induction false} UnzipFailsOnlyAtLimit(step: Stepper, base: Path, fs: FileSystem, fileName: Path, depth: nat)
    requires StepKeepsKind(step) && StepSafeWhere(step, base) && IsDir(fs, base)
    ensures UnzipRun(step, fs, fileName, depth).outcome.Err? ==>
              UnzipRun(step, fs, fileName, depth).outcome.error == RecursionLimit
    decreases depth, 0
  {
    if depth > 0 {
      var s := step(fs, fileName).value;
      assert KeepsKind(fs, s.fs, base);
      WalkFailsOnlyAtLimit(step, base, s.fs, s.walked, depth - 1);
    }
  }

  lemma {:induction false} WalkFailsOnlyAtLimit(step: Stepper, base: Path, fs: FileSystem, files: seq<Path>, depth: nat)
    requires StepKeepsKind(step) && StepSafeWhere(step, base) && IsDir(fs, base)
    ensures WalkRun(step, fs, files, depth).outcome.Err? ==>
              WalkRun(step, fs, files, depth).outcome.error == RecursionLimit
    decreases depth, |files| + 1
  {
    if files != [] {
      if !IsArchive(Basename(files[0])) {
        WalkFailsOnlyAtLimit(step, base, fs, files[1..], depth);
      } else {
        var u := UnzipRun(step, fs, files[0], depth);
        UnzipFailsOnlyAtLimit(step, base, fs, files[0], depth);
        if u.outcome.Ok? {
          UnzipKeepsKind(step, fs, files[0], depth, base);
          WalkFailsOnlyAtLimit(step, base, u.fs, files[1..], depth);
        }
      }
    }
  }

  lemma {:induction false} UnzipAllFailsOnlyAtLimit(step: Stepper, base: Path, fs: FileSystem, names: seq<Path>, depth: nat)
    requires StepKeepsKind(step) && StepSafeWhere(step, base) && IsDir(fs, base)
    ensures UnzipAll(step, fs, names, depth).outcome.Err? ==>
              UnzipAll(step, fs, names, depth).outcome.error == RecursionLimit
    decreases names
  {
    if names != [] {
      var u := UnzipRun(step, fs, names[0], depth);
      UnzipFailsOnlyAtLimit(step, base, fs, names[0], depth);
      if u.outcome.Ok? {
        UnzipKeepsKind(step, fs, names[0], depth, base);
        UnzipAllFailsOnlyAtLimit(step, base, u.fs, names[1..], depth);
      }
    }
  }

  /** `extract_jar` ends in an exception only when listing the plugin
      directory raises, or at the recursion limit: once the plugin directory
      is listed, no `ensure_dir` can raise. */
  lemma ExtractJarFailsOnlyAtLimit(fs: FileSystem, root: Path, depth: nat)
    requires ValidRoot(root)
    ensures ExtractJarRun(fs, root, depth).outcome.Err? ==>
              || (ListFiles(fs, root).Err? && ExtractJarRun(fs, root, depth).outcome == Err(OsFailure(ListFiles(fs, root).error)))
              || ExtractJarRun(fs, root, depth).outcome == Err(RecursionLimit)
  {
    if ListFiles(fs, root).Ok? {
      StepAtPerforms(root);
      StepAtSafe(StepAt(root), root);
      UnzipAllFailsOnlyAtLimit(StepAt(root), TrimSlashes(root), fs, ListFiles(fs, root).value, depth);
    }
  }

  /** The directories `dirs` and the files `files` are all there. */
  ghost predicate Present(fs: FileSystem, dirs: set<Path>, files: set<Path>)
  {
    (forall d :: d in dirs ==> IsDir(fs, d)) && (forall f :: f in files ==> IsFile(fs, f))
  }

  lemma PresentKept(fs: FileSystem, fs2: FileSystem, dirs: set<Path>, files: set<Path>)
    requires Present(fs, dirs, files) && forall q :: KeepsKind(fs, fs2, q)
    ensures Present(fs2, dirs, files)
  {
    forall d | d in dirs ensures IsDir(fs2, d) {
      assert KeepsKind(fs, fs2, d);
    }
    forall f | f in files ensures IsFile(fs2, f) {
      assert KeepsKind(fs, fs2, f);
    }
  }

  /** The step on any file of `files`, while the directories `dirs` and the
      files `files` are there, succeeds and reports a file of `files`. */
  ghost predicate Recurs(step: Stepper, dirs: set<Path>, files: set<Path>)
  {
    forall fs: FileSystem, p: Path :: p in files && Present(fs, dirs, files) ==>
      step(fs, p).Ok? && exists q :: q in files && q in step(fs, p).value.walked
  }

  /** The archives `files` form a cycle under `step`: the step keeps every
      kind, never raises while `base`, one of `dirs`, is a directory, and on
      each of them reports one of them again. */
  ghost predicate Cycle(step: Stepper, base: Path, dirs: set<Path>, files: set<Path>)
  {
    && StepKeepsKind(step) && StepSafeWhere(step, base) && Recurs(step, dirs, files)
    && base in dirs && forall f :: f in files ==> IsArchive(Basename(f))
  }

  /** No cycle guard: archives that the steps keep reporting among
      themselves are unzipped again and again, and a run on any of them ends
      at the recursion limit, whatever the depth allowed. */
  lemma {:induction false} CycleNeverFinishes(step: Stepper, base: Path, dirs: set<Path>, files: set<Path>,
                                              fs: FileSystem, p: Path, depth: nat)
    requires Cycle(step, base, dirs, files) && Present(fs, dirs, files) && p in files
    ensures UnzipRun(step, fs, p, depth).outcome == Err(RecursionLimit)
    decreases depth, 0
  {
    if depth > 0 {
      var s := step(fs, p).value;
      forall q ensures KeepsKind(fs, s.fs, q) {
        assert step(fs, p).Ok?;
      }
      PresentKept(fs, s.fs, dirs, files);
      var q :| q in files && q in s.walked;
      WalkCycleNeverFinishes(step, base, dirs, files, s.fs, q, s.walked, depth - 1);
    }
  }

  lemma {:induction false} WalkCycleNeverFinishes(step: Stepper, base: Path, dirs: set<Path>, files: set<Path>,
                                                  fs: FileSystem, q: Path, walked: seq<Path>, depth: nat)
    requires Cycle(step, base, dirs, files) && Present(fs, dirs, files) && q in files && q in walked
    ensures WalkRun(step, fs, walked, depth).outcome == Err(RecursionLimit)
    decreases depth, |walked| + 1
  {
    if walked[0] == q {
      CycleNeverFinishes(step, base, dirs, files, fs, q, depth);
    } else {
      assert q in walked[1..];
      if !IsArchive(Basename(walked[0])) {
        WalkCycleNeverFinishes(step, base, dirs, files, fs, q, walked[1..], depth);
      } else {
        var u := UnzipRun(step, fs, walked[0], depth);
        UnzipFailsOnlyAtLimit(step, base, fs, walked[0], depth);
        if u.outcome.Ok? {
          forall r ensures KeepsKind(fs, u.fs, r) {
            UnzipKeepsKind(step, fs, walked[0], depth, r);
          }
          PresentKept(fs, u.fs, dirs, files);
          WalkCycleNeverFinishes(step, base, dirs, files, u.fs, q, walked[1..], depth);
        }
      }
    }
  }

  /** From the target directory of `f`, the file `g` is reached through
      directories of `dirs`, one name at a time. */
  ghost predicate Leads(root: Path, dirs: set<Path>, f: Path, g: Path, names: seq<Path>)
  {
    var o := ExpandedDirName(root, f);
    && o in dirs
    && Basename(g) != []
    && g == Down(o, names) + "/" + Basename(g)
    && PlainNames(names) && RouteDirs(o, names) <= dirs
  }

  /** A file lying directly in the target directory of `f` is reached from it. */
  lemma LeadsToChild(root: Path, dirs: set<Path>, f: Path, x: Path)
    requires ExpandedDirName(root, f) in dirs && x != [] && Lacks(x, '/')
    ensures Leads(root, dirs, f, ExpandedDirName(root, f) + "/" + x, [])
  {
    ChildOf(ExpandedDirName(root, f) + "/", x);
  }

  /** `f` is an archive that leads from its own target directory, through
      `dirs`, to one of `files`. */
  ghost predicate LeadsOn(root: Path, dirs: set<Path>, files: set<Path>, f: Path)
  {
    IsArchive(Basename(f)) && exists g, names :: g in files && Leads(root, dirs, f, g, names)
  }

  /** Every archive of `files` leads to one of them; the plugin directory is
      among `dirs`. */
  ghost predicate AllLead(root: Path, dirs: set<Path>, files: set<Path>)
  {
    && TrimSlashes(root) in dirs
    && forall f {:trigger LeadsOn(root, dirs, files, f)} :: f in files ==> LeadsOn(root, dirs, files, f)
  }

  /** In the program, archives each of which leads to one of them form a
      cycle. */
  lemma ProgramCycle(step: Stepper, root: Path, dirs: set<Path>, files: set<Path>)
    requires Performs(step, root) && ValidRoot(root) && AllLead(root, dirs, files)
    ensures Cycle(step, TrimSlashes(root), dirs, files)
  {
    StepAtSafe(step, root);
    ProgramRecurs(step, root, dirs, files);
    forall f | f in files ensures IsArchive(Basename(f)) {
      assert LeadsOn(root, dirs, files, f);
    }
  }

  lemma ProgramRecurs(step: Stepper, root: Path, dirs: set<Path>, files: set<Path>)
    requires Performs(step, root) && ValidRoot(root) && AllLead(root, dirs, files)
    ensures Recurs(step, dirs, files)
  {
    forall fs: FileSystem, p: Path | p in files && Present(fs, dirs, files)
      ensures step(fs, p).Ok? && exists q :: q in files && q in step(fs, p).value.walked
    {
      assert LeadsOn(root, dirs, files, p);
      var g, names :| g in files && Leads(root, dirs, p, g, names);
      StepLeads(step, fs, root, dirs, p, g, names);
    }
  }

  /** In the program, the step on `f` reports every file `f` leads to, while
      the directories on the way are there. */
  lemma StepLeads(step: Stepper, fs: FileSystem, root: Path, dirs: set<Path>, f: Path, g: Path, names: seq<Path>)
    requires Performs(step, root) && ValidRoot(root) && TrimSlashes(root) in dirs
    requires (forall d :: d in dirs ==> IsDir(fs, d)) && IsFile(fs, g) && Leads(root, dirs, f, g, names)
    ensures step(fs, f).Ok? && g in step(fs, f).value.walked
  {
    BasenameSpec(g);
    StepWalksTarget(fs, root, f, names, Basename(g));
    assert step(fs, f) == Step(fs, root, f);
  }

  /** In the program, archives each of which leads to one of them never
      finish: `unzip` on any of them, with the directories and archives on
      the way present, ends at the recursion limit. */
  lemma ProgramCycles(step: Stepper, fs: FileSystem, root: Path, dirs: set<Path>, files: set<Path>, p: Path, depth: nat)
    requires Performs(step, root) && ValidRoot(root) && AllLead(root, dirs, files)
    requires Present(fs, dirs, files) && p in files
    ensures UnzipRun(step, fs, p, depth).outcome == Err(RecursionLimit)
  {
    ProgramCycle(step, root, dirs, files);
    CycleNeverFinishes(step, TrimSlashes(root), dirs, files, fs, p, depth);
  }

  /** In the program, an archive named `b` lying in `b.contents` under the
      plugin directory, directly or in directories below it, is extracted
      into a directory that holds it again, and `unzip` on it never
      finishes. */
  lemma SelfNamedNeverFinishes(fs: FileSystem, root: Path, b: Path, names: seq<Path>, depth: nat)
    requires ValidRoot(root) && IsDir(fs, TrimSlashes(root)) && IsArchive(b) && Lacks(b, '/')
    requires IsDir(fs, root + b + ".contents")
    requires PlainNames(names) && forall d :: d in RouteDirs(root + b + ".contents", names) ==> IsDir(fs, d)
    requires IsFile(fs, Down(root + b + ".contents", names) + "/" + b)
    ensures UnzipRun(StepAt(root), fs, Down(root + b + ".contents", names) + "/" + b, depth).outcome == Err(RecursionLimit)
  {
    var o := root + b + ".contents";
    var p := Down(o, names) + "/" + b;
    var dirs := {TrimSlashes(root), o} + RouteDirs(o, names);
    ChildOf(Down(o, names) + "/", b);
    ExpandedDirIsFlat(root, p);
    assert Leads(root, dirs, p, p, names);
    assert AllLead(root, dirs, {p});
    StepAtPerforms(root);
    ProgramCycles(StepAt(root), fs, root, dirs, {p}, p, depth);
  }

  /** Two archives `a` and `b`, each lying in the other's `.contents`
      directory, are extracted into each other's directories, and `unzip`
      on either never finishes. */
  lemma MutualNeverFinishes(fs: FileSystem, root: Path, a: Path, b: Path, depth: nat)
    requires ValidRoot(root) && IsDir(fs, TrimSlashes(root))
    requires IsArchive(a) && Lacks(a, '/') && IsArchive(b) && Lacks(b, '/')
    requires IsDir(fs, root + a + ".contents") && IsDir(fs, root + b + ".contents")
    requires IsFile(fs, root + a + ".contents" + "/" + b) && IsFile(fs, root + b + ".contents" + "/" + a)
    ensures UnzipRun(StepAt(root), fs, root + a + ".contents" + "/" + b, depth).outcome == Err(RecursionLimit)
  {
    var oa := root + a + ".contents";
    var ob := root + b + ".contents";
    var dirs := {TrimSlashes(root), oa, ob};
    MutualLead(root, a, b);
    StepAtPerforms(root);
    ProgramCycles(StepAt(root), fs, root, dirs, {oa + "/" + b, ob + "/" + a}, oa + "/" + b, depth);
  }

  /** Each of two archives lying in the other's `.contents` directory leads
      to the other. */
  lemma MutualLead(root: Path, a: Path, b: Path)
    requires ValidRoot(root) && IsArchive(a) && Lacks(a, '/') && IsArchive(b) && Lacks(b, '/')
    ensures var oa, ob := root + a + ".contents", root + b + ".contents";
      AllLead(root, {TrimSlashes(root), oa, ob}, {oa + "/" + b, ob + "/" + a})
  {
    var oa := root + a + ".contents";
    var ob := root + b + ".contents";
    var pa := oa + "/" + b;
    var pb := ob + "/" + a;
    var dirs := {TrimSlashes(root), oa, ob};
    ChildOf(oa + "/", b);
    ChildOf(ob + "/", a);
    ExpandedDirIsFlat(root, pa);
    ExpandedDirIsFlat(root, pb);
    LeadsToChild(root, dirs, pa, a);
    LeadsToChild(root, dirs, pb, b);
    PairLeads(root, dirs, pa, pb);
  }

  /** Two archives each leading straight to the other. */
  lemma PairLeads(root: Path, dirs: set<Path>, p: Path, q: Path)
    requires TrimSlashes(root) in dirs && IsArchive(Basename(p)) && IsArchive(Basename(q))
    requires Leads(root, dirs, p, q, []) && Leads(root, dirs, q, p, [])
    ensures AllLead(root, dirs, {p, q})
  {
    assert LeadsOn(root, dirs, {p, q}, p) && LeadsOn(root, dirs, {p, q}, q);
  }

  /** The step on a plugin directory that exists succeeds, and its walk is
      the walk of the target directory in the tree it leaves. */
  lemma StepShape(fs: FileSystem, root: Path, fileName: Path)
    requires ValidRoot(root) && IsDir(fs, TrimSlashes(root))
    ensures Step(fs, root, fileName).Ok?
    ensures Step(fs, root, fileName).value.walked ==
              WalkFiles(Step(fs, root, fileName).value.fs, ExpandedDirName(root, fileName))
  {
    StepSucceeds(fs, root, fileName);
  }

  /** A regular file reached from an existing target directory through
      existing directories is among the files the walk after the extraction
      reports. */
  lemma StepWalksTarget(fs: FileSystem, root: Path, fileName: Path, names: seq<Path>, name: Path)
    requires ValidRoot(root) && IsDir(fs, TrimSlashes(root))
    requires IsDir(fs, ExpandedDirName(root, fileName))
    requires PlainNames(names) && forall d :: d in RouteDirs(ExpandedDirName(root, fileName), names) ==> IsDir(fs, d)
    requires name != [] && Lacks(name, '/') && IsFile(fs, Down(ExpandedDirName(root, fileName), names) + "/" + name)
    ensures Step(fs, root, fileName).Ok?
    ensures Down(ExpandedDirName(root, fileName), names) + "/" + name in Step(fs, root, fileName).value.walked
  {
    var o := ExpandedDirName(root, fileName);
    ExpandedDirIsFlat(root, fileName);
    StepShape(fs, root, fileName);
    var s := Step(fs, root, fileName).value;
    forall d | d in RouteDirs(o, names)
      ensures KeepsKind(fs, s.fs, d)
    {
      StepKeeps(fs, root, fileName, d);
    }
    StepKeeps(fs, root, fileName, o);
    StepKeeps(fs, root, fileName, Down(o, names) + "/" + name);
    assert o[|o| - 1] == 's';
    WalkedThrough(s.fs, o, names, name);
  }

  /** A file member at the top of an archive that no other member shares or
      lies below is on disk after the step, at `<target>/<name>` with its
      content, and the walk after the extraction reports it; a missing
      target directory is created first. */
  lemma ExtractedMemberWalked(fs: FileSystem, root: Path, fileName: Path, members: seq<Member>, k: nat)
    requires ValidRoot(root) && IsDir(fs, TrimSlashes(root))
    requires Find(fs, JoinPath(root, fileName)) == Some(File(Archive(members)))
    requires !IsFile(fs, ExpandedDirName(root, fileName))
    requires k < |members| && members[k].node.File?
    requires members[k].path != [] && Lacks(members[k].path, '/')
    requires !IsDir(fs, ExpandedDirName(root, fileName) + "/" + members[k].path)
    requires forall j :: 0 <= j < |members| && j != k ==>
               members[j].path != members[k].path && !StartsWith(members[j].path, members[k].path + "/")
    ensures Step(fs, root, fileName).Ok?
    ensures Find(Step(fs, root, fileName).value.fs, ExpandedDirName(root, fileName) + "/" + members[k].path)
              == Some(members[k].node)
    ensures ExpandedDirName(root, fileName) + "/" + members[k].path in Step(fs, root, fileName).value.walked
  {
    var o := ExpandedDirName(root, fileName);
    var x := members[k].path;
    var t := o + "/" + x;
    StepOnArchive(fs, root, fileName, members);
    ExpandedDirIsFlat(root, fileName);
    assert o[|o| - 1] == 's';
    PlainDir(o);
    DirnameOfChild(o, x);
    var fs1 := if IsDir(fs, o) then fs else Write(fs, o, Dir);
    if !IsDir(fs, o) {
      WriteSpec(fs, o, Dir, o);
      WriteSpec(fs, o, Dir, t);
    }
    MembersApart(o, members, k);
    MemberWritten(fs1, o, members, k);
    WriteMembersKeepsKind(fs1, o, members, o);
    FileWalked(WriteMembers(fs1, o, members).0, o, x);
  }

  /** With the plugin directory there and no regular file in the way, the
      step on an archive makes the target directory when it is missing, then
      writes the members into it. */
  lemma StepOnArchive(fs: FileSystem, root: Path, fileName: Path, members: seq<Member>)
    requires ValidRoot(root) && IsDir(fs, TrimSlashes(root))
    requires Find(fs, JoinPath(root, fileName)) == Some(File(Archive(members)))
    requires !IsFile(fs, ExpandedDirName(root, fileName))
    ensures var o := ExpandedDirName(root, fileName);
      var fs1 := if IsDir(fs, o) then fs else Write(fs, o, Dir);
      var x := WriteMembers(fs1, o, members);
      Step(fs, root, fileName) == Ok(Stage(x.0, x.1, WalkFiles(x.0, o)))
  {
    var o := ExpandedDirName(root, fileName);
    ExpandedDirIsFlat(root, fileName);
    DirnameOfDir(root);
    assert o[|root| - 1] == '/';
    EnsureDirSpec(fs, o);
    assert EnsureDir(fs, o) == Ok(fs);
    if !IsDir(fs, o) {
      assert !Exists(fs, o);
      assert Mkdir(fs, o) == Ok(Write(fs, o, Dir));
    }
  }

  /** The paths of the other members under `o` are neither `o/x` nor below it. */
  lemma MembersApart(o: Path, members: seq<Member>, k: nat)
    requires k < |members|
    requires forall j :: 0 <= j < |members| && j != k ==>
               members[j].path != members[k].path && !StartsWith(members[j].path, members[k].path + "/")
    ensures forall j :: 0 <= j < |members| && j != k ==>
              && o + "/" + members[j].path != o + "/" + members[k].path
              && !StartsWith(o + "/" + members[j].path, o + "/" + members[k].path + "/")
  {
    forall j | 0 <= j < |members| && j != k
      ensures o + "/" + members[j].path != o + "/" + members[k].path
      ensures !StartsWith(o + "/" + members[j].path, o + "/" + members[k].path + "/")
    {
      StartsWithAfter(o + "/", members[j].path, members[k].path + "/");
      assert o + "/" + members[k].path + "/" == (o + "/") + (members[k].path + "/");
      assert (o + "/" + members[j].path)[|o| + 1..] == members[j].path;
      assert (o + "/" + members[k].path)[|o| + 1..] == members[k].path;
    }
  }

  /** A run whose step succeeded walks what the step reports. */
  lemma UnzipRunAfterStep(step: Stepper, fs: FileSystem, fileName: Path, depth: nat, s: Stage,
                           fs1: FileSystem, nested: Result<seq<Call>, Failure>)
    requires depth > 0 && step(fs, fileName) == Ok(s)
    requires Run(fs1, nested) == WalkRun(step, s.fs, s.walked, depth - 1)
    ensures UnzipRun(step, fs, fileName, depth) ==
              Run(fs1, if nested.Err? then Err(nested.error) else Ok(Call(fileName, s.extracted, nested.value)))
  {
  }

  /** A run whose step raised ends with that exception, the tree unchanged. */
  lemma UnzipRunAfterFailedStep(step: Stepper, fs: FileSystem, fileName: Path, depth: nat, e: OsError)
    requires depth > 0 && step(fs, fileName) == Err(e)
    ensures UnzipRun(step, fs, fileName, depth) == Run(fs, Err(OsFailure(e)))
  {
  }

  lemma PrependNothing(run: Run<seq<Call>>)
    ensures Prepend([], run) == run
  {
    if run.outcome.Ok? {
      assert [] + run.outcome.value == run.outcome.value;
    }
  }

  lemma PrependPrepend(a: seq<Call>, b: seq<Call>, run: Run<seq<Call>>)
    ensures Prepend(a, Prepend(b, run)) == Prepend(a + b, run)
  {
    if run.outcome.Ok? {
      assert a + (b + run.outcome.value) == (a + b) + run.outcome.value;
    }
  }

  /** `walk` lists the files `os.walk` reports under a directory. */
  ghost predicate Lists(walk: (FileSystem, Path) -> seq<Path>)
  {
    forall fs: FileSystem, d: Path {:trigger Files.WalkFiles(fs, d)} :: walk(fs, d) == Files.WalkFiles(fs, d)
  }

  /** The plugin directory and the tree under it, changed in place by the
      commands, one statement at a time. */
  class PluginStore {
    const root: Path
    /** The step `unzip` takes on this store, as a value the specification
        functions can be applied to. */
    ghost const step: Stepper
    /** `os.walk`'s file listing, as a value. */
    ghost const walk: (FileSystem, Path) -> seq<Path>
    var fs: FileSystem

    constructor (root: Path, fs: FileSystem)
      ensures this.root == root && this.fs == fs && step == StepAt(root) && Lists(walk)
    {
      this.root := root;
      this.step := StepAt(root);
      this.walk := (fs, d) => Files.WalkFiles(fs, d);
      this.fs := fs;
    }

    /** `ensure_dir(file_path)`: create the directory that holds `filePath`,
        with its missing ancestors, unless it exists. */
    method EnsureDir(filePath: Path) returns (r: Result<(), OsError>)
      modifies this
      ensures Files.EnsureDir(old(fs), filePath).Ok? ==> r.Ok? && fs == Files.EnsureDir(old(fs), filePath).value
      ensures Files.EnsureDir(old(fs), filePath).Err? ==> r == Err(Files.EnsureDir(old(fs), filePath).error) && fs == old(fs)
    {
      var directory := Dirname(filePath);
      DirnameSpec(filePath);
      if !Exists(fs, directory) {
        if directory == [] {
          return Err(FileNotFound(directory));
        }
        var made := MakeDirs(fs, directory);
        if made.Err? {
          return Err(made.error);
        }
        fs := made.value;
      }
      return Ok(());
    }

    /** `open(file_path, "wb")` and writing `content` through it. */
    method Save(filePath: Path, content: Content) returns (r: Result<(), OsError>)
      modifies this
      ensures Create(old(fs), filePath, content).Ok? ==> r.Ok? && fs == Create(old(fs), filePath, content).value
      ensures Create(old(fs), filePath, content).Err? ==> r == Err(Create(old(fs), filePath, content).error) && fs == old(fs)
    {
      if filePath == [] {
        return Err(FileNotFound(filePath));
      }
      var directory := Dirname(filePath);
      if !Enterable(fs, directory) {
        return Err(LookupError(fs, directory, filePath));
      }
      if AllSlashes(filePath) || IsDir(fs, filePath) {
        return Err(IsADirectory(filePath));
      }
      fs := Write(fs, filePath, File(content));
      return Ok(());
    }

    /** The first half of `unzip(file_name)`: `ensure_dir` on the output
        directory, then the `unzip` process on the archive. */
    method Expand(fileName: Path) returns (s: Result<Stage, OsError>)
      requires Performs(step, root) && Lists(walk)
      modifies this
      ensures s == step(old(fs), fileName)
      ensures fs == (if s.Ok? then s.value.fs else old(fs))
      ensures s.Ok? ==> s.value.walked == walk(fs, ExpandedDirName(root, fileName))
    {
      ghost var fs0 := fs;
      var outDir := ExpandedDirName(root, fileName);
      var made := EnsureDir(outDir);
      if made.Err? {
        assert Step(fs0, root, fileName) == Err(made.error);
        return Err(made.error);
      }
      var status := Extract(fs, JoinPath(root, fileName), outDir);
      fs := status.0;
      s := Ok(Stage(fs, status.1, Files.WalkFiles(fs, outDir)));
      assert s == Step(fs0, root, fileName);
    }

    /** `unzip(file_name)` */
    method Unzip(fileName: Path, depth: nat) returns (r: Result<Call, Failure>)
      requires Performs(step, root) && Lists(walk)
      modifies this
      ensures Run(fs, r) == UnzipRun(step, old(fs), fileName, depth)
      decreases depth, 0
    {
      if depth == 0 {
        return Err(RecursionLimit);
      }
      ghost var fs0 := fs;
      var stage := Expand(fileName);
      if stage.Err? {
        UnzipRunAfterFailedStep(step, fs0, fileName, depth, stage.error);
        return Err(OsFailure(stage.error));
      }
      var nested := WalkFiles(ExpandedDirName(root, fileName), depth - 1);
      UnzipRunAfterStep(step, fs0, fileName, depth, stage.value, fs, nested);
      if nested.Err? {
        return Err(nested.error);
      }
      return Ok(Call(fileName, stage.value.extracted, nested.value));
    }

    /** The files `os.walk(dir_name)` reports, top-down. */
    method Walk(dirName: Path) returns (files: seq<Path>)
      requires Lists(walk)
      ensures files == walk(fs, dirName)
    {
      files := Files.WalkFiles(fs, dirName);
    }

    /** `walk_files(dir_name)`: `unzip` every archive the walk reports. */
    method WalkFiles(dirName: Path, depth: nat) returns (r: Result<seq<Call>, Failure>)
      requires Performs(step, root) && Lists(walk)
      modifies this
      ensures Run(fs, r) == WalkRun(step, old(fs), walk(old(fs), dirName), depth)
      decreases depth, 1
    {
      var files := Walk(dirName);
      var calls: seq<Call> := [];
      var i := 0;
      assert files[i..] == files;
      PrependNothing(WalkRun(step, fs, files, depth));
      while i < |files|
        invariant 0 <= i <= |files|
        invariant WalkRun(step, old(fs), files, depth) == Prepend(calls, WalkRun(step, fs, files[i..], depth))
      {
        assert files[i..][0] == files[i] && files[i..][1..] == files[i + 1..];
        if IsArchive(Basename(files[i])) {
          var c := Unzip(files[i], depth);
          if c.Err? {
            return Err(c.error);
          }
          PrependPrepend(calls, [c.value], WalkRun(step, fs, files[i + 1..], depth));
          calls := calls + [c.value];
        }
        i := i + 1;
      }
      assert files[i..] == [];
      assert calls + [] == calls;
      return Ok(calls);
    }

    /** `extract_jar()`: `unzip` every regular file directly inside the
        plugin directory. */
    method ExtractJar(depth: nat) returns (r: Result<seq<Call>, Failure>)
      requires step == StepAt(root) && Lists(walk)
      modifies this
      ensures Run(fs, r) == ExtractJarRun(old(fs), root, depth)
    {
      StepAtPerforms(root);
      var listing := ListFiles(fs, root);
      if listing.Err? {
        return Err(OsFailure(listing.error));
      }
      var names := listing.value;
      var calls: seq<Call> := [];
      var i := 0;
      assert names[i..] == names;
      PrependNothing(UnzipAll(StepAt(root), fs, names, depth));
      while i < |names|
        invariant 0 <= i <= |names|
        invariant UnzipAll(StepAt(root), old(fs), names, depth) == Prepend(calls, UnzipAll(StepAt(root), fs, names[i..], depth))
      {
        assert names[i..][0] == names[i] && names[i..][1..] == names[i + 1..];
        var c := Unzip(names[i], depth);
        if c.Err? {
          return Err(c.error);
        }
        PrependPrepend(calls, [c.value], UnzipAll(StepAt(root), fs, names[i + 1..], depth));
        calls := calls + [c.value];
        i := i + 1;
      }
      assert names[i..] == [];
      assert calls + [] == calls;
      return Ok(calls);
    }
  }
}
