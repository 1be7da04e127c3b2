/** The plugin directory tree as a value: an ordered list of entries, each a
    directory or a file, kept in the order the entries were created. The
    operating system leaves the order of `os.listdir` and `os.walk`
    unspecified; this model chooses creation order for every listing. */
module Files {
  import opened Wrappers
  import opened Text
  import opened Paths
  import Yaml

  /** What a file holds: a zip/jar archive (as the list of members `unzip`
      would write), a YAML document (as `yaml.load` reads it), or anything
      else, which `yaml.load` rejects. */
  datatype Content =
    | Archive(members: seq<Member>)
    | Document(doc: Yaml.Value)
    | Other

  /** An archive member, at a path relative to the extraction directory. */
  datatype Member = Member(path: Path, node: Node)

  datatype Node = Dir | File(content: Content)

  datatype Entry = Entry(path: Path, node: Node)

  type FileSystem = seq<Entry>

  /** Errors of the operating system calls the pipeline makes. */
  datatype OsError =
    | FileNotFound(path: Path)
    | FileExists(path: Path)
    | IsADirectory(path: Path)
    | NotADirectory(path: Path)

  /** The node at `p`, if any. */
  function Find(fs: FileSystem, p: Path): Option<Node>
  {
    if fs == [] then None
    else if fs[0].path == p then Some(fs[0].node)
    else Find(fs[1..], p)
  }

  predicate IsDir(fs: FileSystem, p: Path)
  {
    Find(fs, p) == Some(Dir)
  }

  predicate IsFile(fs: FileSystem, p: Path)
  {
    Find(fs, p).Some? && Find(fs, p).value.File?
  }

  /** `os.path.exists(p)`; a path of slashes only is the file-system root. */
  predicate Exists(fs: FileSystem, p: Path)
  {
    p != [] && (AllSlashes(p) || Find(fs, p).Some?)
  }

  /** A directory something can be created in: the current directory (the
      empty path), the root, or an existing directory. */
  predicate Enterable(fs: FileSystem, d: Path)
  {
    AllSlashes(d) || IsDir(fs, d)
  }

  /** Looking `p` up stops at a regular file: `p` is one, or nothing is at
      `p` and looking up its directory stops at one. */
  predicate MeetsFile(fs: FileSystem, p: Path)
    decreases |p|
  {
    && !AllSlashes(p)
    && (|| IsFile(fs, p)
        || (Find(fs, p).None? && |Dirname(p)| < |p| && MeetsFile(fs, Dirname(p))))
  }

  /** What the system raises when `p` is to be created in `d`, a directory
      that cannot be entered: `NotADirectoryError` when looking `d` up stops
      at a regular file, `FileNotFoundError` when it stops at a missing one. */
  function LookupError(fs: FileSystem, d: Path, p: Path): OsError
  {
    if MeetsFile(fs, d) then NotADirectory(p) else FileNotFound(p)
  }

  /** Creating or overwriting the entry at `p`: a new path is added at the end,
      a file may be replaced by a file, and any other clash (a directory where
      one exists, or a file where a directory is, or the reverse) leaves the
      tree as it was. */
  function Write(fs: FileSystem, p: Path, n: Node): FileSystem
  {
    if fs == [] then [Entry(p, n)]
    else if fs[0].path == p then (if fs[0].node.File? && n.File? then [Entry(p, n)] + fs[1..] else fs)
    else [fs[0]] + Write(fs[1..], p, n)
  }

  /** What a lookup sees after `Write`: at `p` the new node, unless a directory
      meets a file or a directory already stands there; elsewhere the tree as
      it was. */
  lemma {:induction false} WriteSpec(fs: FileSystem, p: Path, n: Node, q: Path)
    ensures Find(Write(fs, p, n), q) ==
      if q != p then Find(fs, q)
      else match Find(fs, p)
        case None => Some(n)
        case Some(was) => if was.File? && n.File? then Some(n) else Some(was)
  {
    if fs != [] && fs[0].path != p {
      WriteSpec(fs[1..], p, n, q);
      assert Write(fs, p, n)[1..] == Write(fs[1..], p, n);
    }
  }

  /** `open(p, "wb")` and writing `content` to it. */
  function Create(fs: FileSystem, p: Path, content: Content): Result<FileSystem, OsError>
  {
    if p == [] then Err(FileNotFound(p))
    else if !Enterable(fs, Dirname(p)) then Err(LookupError(fs, Dirname(p), p))
    else if AllSlashes(p) || IsDir(fs, p) then Err(IsADirectory(p))
    else Ok(Write(fs, p, File(content)))
  }

  /** `open(p, "wb")` raises exactly for the empty path, for a path whose
      directory cannot be entered (`NotADirectoryError` when looking that
      directory up stops at a regular file, `FileNotFoundError` otherwise)
      and for a directory (`IsADirectoryError`); otherwise `p` holds
      `content` afterwards, replacing a file that was there, and nothing
      else changes. */
  lemma CreateSpec(fs: FileSystem, p: Path, content: Content, q: Path)
    ensures Create(fs, p, content).Err? <==>
              p == [] || !Enterable(fs, Dirname(p)) || AllSlashes(p) || IsDir(fs, p)
    ensures p != [] && !Enterable(fs, Dirname(p)) ==>
              Create(fs, p, content) == Err(if MeetsFile(fs, Dirname(p)) then NotADirectory(p) else FileNotFound(p))
    ensures p != [] && Enterable(fs, Dirname(p)) && (AllSlashes(p) || IsDir(fs, p)) ==>
              Create(fs, p, content) == Err(IsADirectory(p))
    ensures Create(fs, p, content).Ok? ==> Find(Create(fs, p, content).value, p) == Some(File(content))
    ensures Create(fs, p, content).Ok? && q != p ==> Find(Create(fs, p, content).value, q) == Find(fs, q)
  {
    WriteSpec(fs, p, File(content), q);
    WriteSpec(fs, p, File(content), p);
  }

  /** `fs2` keeps every directory and every file of `fs` as a directory or a
      file, at `q`. */
  predicate KeepsKind(fs: FileSystem, fs2: FileSystem, q: Path)
  {
    (IsDir(fs, q) ==> IsDir(fs2, q)) && (IsFile(fs, q) ==> IsFile(fs2, q))
  }

  lemma KeepsKindTrans(fs: FileSystem, fs1: FileSystem, fs2: FileSystem, q: Path)
    requires KeepsKind(fs, fs1, q) && KeepsKind(fs1, fs2, q)
    ensures KeepsKind(fs, fs2, q)
  {
  }

  lemma WriteKeepsKind(fs: FileSystem, p: Path, n: Node, q: Path)
    ensures KeepsKind(fs, Write(fs, p, n), q)
  {
    WriteSpec(fs, p, n, q);
  }

  /** `os.mkdir(d)`: raises when `d` exists or its directory cannot be
      entered, and otherwise adds the directory `d`. */
  function Mkdir(fs: FileSystem, d: Path): Result<FileSystem, OsError>
  {
    if d == [] then Err(FileNotFound(d))
    else if Exists(fs, d) then Err(FileExists(d))
    else if !Enterable(fs, Dirname(d)) then Err(LookupError(fs, Dirname(d), d))
    else Ok(Write(fs, d, Dir))
  }

  /** `os.makedirs(d)` for a directory path without a trailing slash: the
      missing directories above `d` first, outermost first, then `d`
      itself; the first `os.mkdir` that raises ends it. */
  function MakeDirs(fs: FileSystem, d: Path): Result<FileSystem, OsError>
    requires d != [] && d[|d| - 1] != '/'
    decreases |d|
  {
    var parent := Dirname(d);
    DirnameSpec(d);
    if parent != [] && !Exists(fs, parent) then
      match MakeDirs(fs, parent)
      case Err(e) => Err(e)
      case Ok(fs1) => Mkdir(fs1, d)
    else Mkdir(fs, d)
  }

  /** For a `d` that does not exist, `os.makedirs(d)` raises exactly when
      looking up its directory stops at a regular file, and then raises
      `NotADirectoryError`; otherwise `d` is a directory afterwards. */
  lemma {:induction false} MakeDirsSpec(fs: FileSystem, d: Path)
    requires d != [] && d[|d| - 1] != '/' && !Exists(fs, d)
    ensures MakeDirs(fs, d).Err? <==> MeetsFile(fs, Dirname(d))
    ensures MakeDirs(fs, d).Err? ==> MakeDirs(fs, d).error.NotADirectory?
    ensures MakeDirs(fs, d).Ok? ==> IsDir(MakeDirs(fs, d).value, d)
    decreases |d|
  {
    var parent := Dirname(d);
    DirnameSpec(d);
    if parent != [] && !Exists(fs, parent) {
      DirnameSpec(parent);
      MakeDirsSpec(fs, parent);
      assert MeetsFile(fs, parent) == MeetsFile(fs, Dirname(parent));
      if MakeDirs(fs, parent).Ok? {
        var fs1 := MakeDirs(fs, parent).value;
        MakeDirsFrame(fs, parent, d);
        WriteSpec(fs1, d, Dir, d);
      }
    } else {
      WriteSpec(fs, d, Dir, d);
    }
  }

  /** `os.makedirs(d)` touches no path longer than `d`. */
  lemma {:induction false} MakeDirsFrame(fs: FileSystem, d: Path, q: Path)
    requires d != [] && d[|d| - 1] != '/' && MakeDirs(fs, d).Ok?
    requires |q| > |d|
    ensures Find(MakeDirs(fs, d).value, q) == Find(fs, q)
    decreases |d|
  {
    var parent := Dirname(d);
    DirnameSpec(d);
    if parent != [] && !Exists(fs, parent) {
      MakeDirsFrame(fs, parent, q);
      WriteSpec(MakeDirs(fs, parent).value, d, Dir, q);
    } else {
      WriteSpec(fs, d, Dir, q);
    }
  }

  /** `os.makedirs(d)` touches nothing but `d` and the directories above it. */
  lemma {:induction false} MakeDirsAbove(fs: FileSystem, d: Path, q: Path)
    requires d != [] && d[|d| - 1] != '/' && MakeDirs(fs, d).Ok?
    requires q != d && !StartsWith(d, q + "/")
    ensures Find(MakeDirs(fs, d).value, q) == Find(fs, q)
    decreases |d|
  {
    var parent := Dirname(d);
    DirnameSpec(d);
    if parent != [] && !Exists(fs, parent) {
      DirnamePrefix(d);
      StartsWithTrans(d, parent + "/", parent);
      if StartsWith(parent, q + "/") {
        StartsWithTrans(d, parent, q + "/");
      }
      MakeDirsAbove(fs, parent, q);
      WriteSpec(MakeDirs(fs, parent).value, d, Dir, q);
    } else {
      WriteSpec(fs, d, Dir, q);
    }
  }

  lemma {:induction false} MakeDirsKeepsKind(fs: FileSystem, d: Path, q: Path)
    requires d != [] && d[|d| - 1] != '/' && MakeDirs(fs, d).Ok?
    ensures KeepsKind(fs, MakeDirs(fs, d).value, q)
    decreases |d|
  {
    var parent := Dirname(d);
    DirnameSpec(d);
    if parent != [] && !Exists(fs, parent) {
      MakeDirsKeepsKind(fs, parent, q);
      WriteKeepsKind(MakeDirs(fs, parent).value, d, Dir, q);
    } else {
      WriteKeepsKind(fs, d, Dir, q);
    }
  }

  /** `os.makedirs` never replaces a file nor changes what it holds. */
  lemma {:induction false} MakeDirsKeepsFile(fs: FileSystem, d: Path, q: Path)
    requires d != [] && d[|d| - 1] != '/' && MakeDirs(fs, d).Ok?
    requires IsFile(fs, q)
    ensures Find(MakeDirs(fs, d).value, q) == Find(fs, q)
    decreases |d|
  {
    var parent := Dirname(d);
    DirnameSpec(d);
    if parent != [] && !Exists(fs, parent) {
      MakeDirsKeepsFile(fs, parent, q);
      MakeDirsKeepsKind(fs, parent, q);
      WriteSpec(MakeDirs(fs, parent).value, d, Dir, q);
    } else {
      WriteSpec(fs, d, Dir, q);
    }
  }

  /** `ensure_dir(file_path)`: create the directory that would hold
      `file_path` when nothing exists there yet. */
  function EnsureDir(fs: FileSystem, filePath: Path): Result<FileSystem, OsError>
  {
    var directory := Dirname(filePath);
    DirnameSpec(filePath);
    if Exists(fs, directory) then Ok(fs)
    else if directory == [] then Err(FileNotFound(directory))
    else MakeDirs(fs, directory)
  }

  /** `ensure_dir` raises for a bare file name (`os.makedirs('')`), and, with
      `NotADirectoryError`, when the directory is missing and looking it up
      stops at a regular file; otherwise the directory exists afterwards, a
      second call changes nothing, and the path itself is left as it was. */
  lemma EnsureDirSpec(fs: FileSystem, filePath: Path)
    ensures EnsureDir(fs, filePath).Err? <==>
              || Lacks(filePath, '/')
              || (!Exists(fs, Dirname(filePath)) && MeetsFile(fs, Dirname(filePath)))
    ensures Lacks(filePath, '/') ==> EnsureDir(fs, filePath) == Err(FileNotFound([]))
    ensures EnsureDir(fs, filePath).Err? && !Lacks(filePath, '/') ==>
              EnsureDir(fs, filePath).error.NotADirectory?
    ensures EnsureDir(fs, filePath).Ok? ==>
              && Exists(EnsureDir(fs, filePath).value, Dirname(filePath))
              && EnsureDir(EnsureDir(fs, filePath).value, filePath) == EnsureDir(fs, filePath)
    ensures EnsureDir(fs, filePath).Ok? && filePath[|filePath| - 1] != '/' ==>
              Find(EnsureDir(fs, filePath).value, filePath) == Find(fs, filePath)
  {
    var d := Dirname(filePath);
    DirnameSpec(filePath);
    if !Lacks(filePath, '/') && !Exists(fs, d) {
      assert d != [] && !AllSlashes(d);
      DirnameSpec(d);
      MakeDirsSpec(fs, d);
      assert MeetsFile(fs, d) == MeetsFile(fs, Dirname(d));
      if MakeDirs(fs, d).Ok? && filePath[|filePath| - 1] != '/' {
        MakeDirsFrame(fs, d, filePath);
      }
    }
  }

  lemma EnsureDirKeepsKind(fs: FileSystem, filePath: Path, q: Path)
    requires EnsureDir(fs, filePath).Ok?
    ensures KeepsKind(fs, EnsureDir(fs, filePath).value, q)
  {
    var d := Dirname(filePath);
    DirnameSpec(filePath);
    if !Exists(fs, d) {
      MakeDirsKeepsKind(fs, d, q);
    }
  }

  lemma EnsureDirKeepsFile(fs: FileSystem, filePath: Path, q: Path)
    requires EnsureDir(fs, filePath).Ok? && IsFile(fs, q)
    ensures Find(EnsureDir(fs, filePath).value, q) == Find(fs, q)
  {
    var d := Dirname(filePath);
    DirnameSpec(filePath);
    if !Exists(fs, d) {
      MakeDirsKeepsFile(fs, d, q);
    }
  }

  /** `ensure_dir(p)` followed by `open(p, "wb")`: the pair succeeds exactly
      when looking up the directory of `p` does not stop at a regular file
      and `p` is not a directory. A directory that exists as a regular file
      passes `ensure_dir` and makes `open` raise `NotADirectoryError`. */
  lemma EnsureDirThenCreate(fs: FileSystem, p: Path, content: Content)
    requires p != [] && p[|p| - 1] != '/' && !Lacks(p, '/')
    ensures (EnsureDir(fs, p).Ok? && Create(EnsureDir(fs, p).value, p, content).Ok?) <==>
              !MeetsFile(fs, Dirname(p)) && !IsDir(fs, p)
    ensures IsFile(fs, Dirname(p)) && !AllSlashes(Dirname(p)) ==>
              EnsureDir(fs, p) == Ok(fs) && Create(fs, p, content) == Err(NotADirectory(p))
  {
    var d := Dirname(p);
    DirnameSpec(p);
    assert !AllSlashes(p);
    EnsureDirSpec(fs, p);
    if !Exists(fs, d) {
      DirnameSpec(d);
      MakeDirsSpec(fs, d);
      assert MeetsFile(fs, d) == MeetsFile(fs, Dirname(d));
      if MakeDirs(fs, d).Ok? {
        MakeDirsFrame(fs, d, p);
      }
    }
  }

  /** The prefix every path below the directory `top` starts with. */
  function Below(top: Path): Path
  {
    if top != [] && top[|top| - 1] == '/' then top else top + "/"
  }

  /** A directory path without a trailing slash names itself, and what lies
      below it starts with it and a '/'. */
  lemma PlainDir(dir: Path)
    requires dir != [] && dir[|dir| - 1] != '/'
    ensures TrimSlashes(dir) == dir && Below(dir) == dir + "/"
  {
    assert StripSlashes(dir) == dir;
  }

  /** The names of the entries directly inside the directory whose paths
      start with `prefix`: the directories when `dirs` holds, the regular
      files otherwise, in listing order. */
  function Names(fs: FileSystem, prefix: Path, dirs: bool): (r: seq<Path>)
    ensures forall k :: 0 <= k < |r| ==>
              r[k] != [] && Lacks(r[k], '/') && |prefix| + |r[k]| <= Longest(fs)
  {
    if fs == [] then []
    else
      var rest := Names(fs[1..], prefix, dirs);
      var p := fs[0].path;
      if fs[0].node.Dir? == dirs && StartsWith(p, prefix) && |p| > |prefix| && Lacks(p[|prefix|..], '/')
      then [p[|prefix|..]] + rest else rest
  }

  /** Every entry directly inside is listed by name. */
  lemma {:induction false} NameListed(fs: FileSystem, prefix: Path, name: Path, dirs: bool)
    requires name != [] && Lacks(name, '/')
    requires Find(fs, prefix + name).Some? && Find(fs, prefix + name).value.Dir? == dirs
    ensures name in Names(fs, prefix, dirs)
  {
    if fs[0].path != prefix + name {
      NameListed(fs[1..], prefix, name, dirs);
    } else {
      assert fs[0].path[..|prefix|] == prefix && fs[0].path[|prefix|..] == name;
    }
  }

  /** The length of the longest path in the tree. */
  function Longest(fs: FileSystem): nat
  {
    if fs == [] then 0
    else if |fs[0].path| > Longest(fs[1..]) then |fs[0].path|
    else Longest(fs[1..])
  }

  /** How far below `top` a path of the tree can still reach: what the walk
      decreases. */
  function Room(fs: FileSystem, top: Path): nat
  {
    if |top| < Longest(fs) then Longest(fs) - |top| else 0
  }

  /** One triple `os.walk` yields: a directory path, the names of the
      directories in it and the names of the files in it. */
  datatype Visit = Visit(dirPath: Path, dirNames: seq<Path>, fileNames: seq<Path>)

  /** `os.path.join(top, name)` for a name without '/'. */
  lemma JoinChild(top: Path, name: Path)
    requires name != [] && Lacks(name, '/')
    ensures JoinPath(top, name) == if top == [] then name else Below(top) + name
  {
    assert name[0] != '/';
  }

  /** `os.walk(top)`, top down: `top` with what lies directly in it, then
      the walk of each directory in it, in listing order, reached as
      `os.path.join(top, name)`; nothing when `top` is not a directory. */
  function Walk(fs: FileSystem, top: Path): (r: seq<Visit>)
    ensures r == [] <==> !IsDir(fs, TrimSlashes(top))
    ensures r != [] ==> r[0].dirPath == top
    decreases Room(fs, top), 1
  {
    if !IsDir(fs, TrimSlashes(top)) then []
    else
      var dirs := Names(fs, Below(top), true);
      [Visit(top, dirs, Names(fs, Below(top), false))] + WalkEach(fs, top, dirs)
  }

  /** `names` are names of directories inside `top`: plain names, each short
      enough to fit in the tree. */
  ghost predicate ChildNames(fs: FileSystem, top: Path, names: seq<Path>)
  {
    forall k :: 0 <= k < |names| ==>
      names[k] != [] && Lacks(names[k], '/') && |Below(top)| + |names[k]| <= Longest(fs)
  }

  /** The walks of the directories `names` inside `top`, one after another. */
  function WalkEach(fs: FileSystem, top: Path, names: seq<Path>): seq<Visit>
    requires ChildNames(fs, top, names)
    decreases Room(fs, top), 0, |names|
  {
    if names == [] then []
    else
      JoinChild(top, names[0]);
      Walk(fs, JoinPath(top, names[0])) + WalkEach(fs, top, names[1..])
  }

  /** The full paths `os.path.join(dir_path, file_name)` of the files the
      visits report, in walk order. */
  function FilesOf(visits: seq<Visit>): seq<Path>
  {
    if visits == [] then []
    else JoinEach(visits[0].dirPath, visits[0].fileNames) + FilesOf(visits[1..])
  }

  /** `os.path.join(dir, name)` for each name in turn. */
  function JoinEach(dir: Path, names: seq<Path>): (r: seq<Path>)
    ensures |r| == |names| && forall k :: 0 <= k < |names| ==> r[k] == JoinPath(dir, names[k])
  {
    seq(|names|, k requires 0 <= k < |names| => JoinPath(dir, names[k]))
  }

  lemma {:induction false} FilesOfAppend(a: seq<Visit>, b: seq<Visit>)
    ensures FilesOf(a + b) == FilesOf(a) + FilesOf(b)
  {
    if a != [] {
      assert (a + b)[0] == a[0] && (a + b)[1..] == a[1..] + b;
      FilesOfAppend(a[1..], b);
    } else {
      assert a + b == b;
    }
  }

  /** The full paths of the files the walk of `top` reports. */
  function WalkFiles(fs: FileSystem, top: Path): seq<Path>
  {
    FilesOf(Walk(fs, top))
  }

  /** The `dirpath` of every triple `os.walk(top)` yields: `top` itself as
      given first; nothing when `top` is not a directory. */
  function WalkDirs(fs: FileSystem, top: Path): (r: seq<Path>)
    ensures r == [] <==> !IsDir(fs, TrimSlashes(top))
    ensures r != [] ==> r[0] == top
  {
    var visits := Walk(fs, top);
    seq(|visits|, k requires 0 <= k < |visits| => visits[k].dirPath)
  }

  /** A regular file directly inside a walked directory is reported. */
  lemma FileWalked(fs: FileSystem, top: Path, name: Path)
    requires top != [] && IsDir(fs, TrimSlashes(top))
    requires name != [] && Lacks(name, '/') && IsFile(fs, Below(top) + name)
    ensures Below(top) + name in WalkFiles(fs, top)
  {
    var dirs := Names(fs, Below(top), true);
    var files := Names(fs, Below(top), false);
    NameListed(fs, Below(top), name, false);
    JoinChild(top, name);
    var first := Visit(top, dirs, files);
    FilesOfAppend([first], WalkEach(fs, top, dirs));
    var k :| 0 <= k < |files| && files[k] == name;
    assert FilesOf([first])[k] == Below(top) + name;
  }

  /** The walk of a directory directly inside a walked directory is part of
      the walk. */
  lemma SubWalked(fs: FileSystem, top: Path, name: Path, p: Path)
    requires top != [] && IsDir(fs, TrimSlashes(top))
    requires name != [] && Lacks(name, '/') && IsDir(fs, Below(top) + name)
    requires p in WalkFiles(fs, Below(top) + name)
    ensures p in WalkFiles(fs, top)
  {
    var dirs := Names(fs, Below(top), true);
    var files := Names(fs, Below(top), false);
    NameListed(fs, Below(top), name, true);
    JoinChild(top, name);
    var k :| 0 <= k < |dirs| && dirs[k] == name;
    WalkEachHas(fs, top, dirs, k, p);
    FilesOfAppend([Visit(top, dirs, files)], WalkEach(fs, top, dirs));
  }

  /** What the walk of one of `names` reports, the walks of all of them
      report. */
  lemma WalkEachHas(fs: FileSystem, top: Path, names: seq<Path>, k: nat, p: Path)
    requires ChildNames(fs, top, names)
    requires k < |names| && p in FilesOf(Walk(fs, JoinPath(top, names[k])))
    ensures p in FilesOf(WalkEach(fs, top, names))
  {
    SuffixHas(fs, top, names, k, p, 0);
    assert names[0..] == names;
  }

  /** What the walk of `names[k]` reports, the walks of every suffix of
      `names` from before `k` report. */
  lemma {:induction false} SuffixHas(fs: FileSystem, top: Path, names: seq<Path>, k: nat, p: Path, i: nat)
    requires ChildNames(fs, top, names)
    requires i <= k < |names| && p in FilesOf(Walk(fs, JoinPath(top, names[k])))
    ensures ChildNames(fs, top, names[i..]) && p in FilesOf(WalkEach(fs, top, names[i..]))
    decreases k - i
  {
    WalkEachSuffix(fs, top, names, i);
    if i < k {
      SuffixHas(fs, top, names, k, p, i + 1);
    }
  }

  /** The walks of a suffix of `names`: that of its first name, then those of
      the rest. */
  lemma WalkEachSuffix(fs: FileSystem, top: Path, names: seq<Path>, i: nat)
    requires ChildNames(fs, top, names) && i < |names|
    ensures ChildNames(fs, top, names[i..]) && ChildNames(fs, top, names[i + 1..])
    ensures FilesOf(WalkEach(fs, top, names[i..])) ==
              FilesOf(Walk(fs, JoinPath(top, names[i]))) + FilesOf(WalkEach(fs, top, names[i + 1..]))
  {
    assert names[i..][0] == names[i] && names[i..][1..] == names[i + 1..];
    WalkEachSplit(fs, top, names[i..]);
  }

  /** There is a regular-file entry at `p`. */
  ghost predicate HasFile(fs: FileSystem, p: Path)
  {
    exists e :: e in fs && e.path == p && e.node.File?
  }

  /** A listed name is that of an entry of the listed kind directly inside. */
  lemma {:induction false} NameSound(fs: FileSystem, prefix: Path, name: Path, dirs: bool)
    requires name in Names(fs, prefix, dirs)
    ensures exists e :: e in fs && e.path == prefix + name && e.node.Dir? == dirs
  {
    var p := fs[0].path;
    if fs[0].node.Dir? == dirs && StartsWith(p, prefix) && |p| > |prefix| && Lacks(p[|prefix|..], '/')
       && name == p[|prefix|..] {
      assert p == prefix + name;
      assert fs[0] in fs;
    } else {
      NameSound(fs[1..], prefix, name, dirs);
      var e :| e in fs[1..] && e.path == prefix + name && e.node.Dir? == dirs;
      assert e in fs;
    }
  }

  /** Every path the walk of `top` reports is a regular file below `top`:
      the converse of `WalkedThrough`. */
  lemma {:induction false} WalkFilesSound(fs: FileSystem, top: Path, p: Path)
    requires top != [] && p in WalkFiles(fs, top)
    ensures StartsWith(p, Below(top)) && HasFile(fs, p)
    decreases Room(fs, top), 1
  {
    var dirs := Names(fs, Below(top), true);
    var files := Names(fs, Below(top), false);
    FilesOfAppend([Visit(top, dirs, files)], WalkEach(fs, top, dirs));
    if p in FilesOf([Visit(top, dirs, files)]) {
      VisitFileSound(fs, top, dirs, p);
    } else {
      WalkEachSound(fs, top, dirs, p);
    }
  }

  /** A file reported by the visit of `top` itself. */
  lemma VisitFileSound(fs: FileSystem, top: Path, dirs: seq<Path>, p: Path)
    requires top != [] && p in FilesOf([Visit(top, dirs, Names(fs, Below(top), false))])
    ensures StartsWith(p, Below(top)) && HasFile(fs, p)
  {
    var files := Names(fs, Below(top), false);
    assert FilesOf([Visit(top, dirs, files)]) == JoinEach(top, files) + FilesOf([]);
    var k :| 0 <= k < |files| && p == JoinPath(top, files[k]);
    JoinChild(top, files[k]);
    NameSound(fs, Below(top), files[k], false);
    assert p[..|Below(top)|] == Below(top);
  }

  /** Every path the walks of `names` inside `top` report is a regular file
      below `top`. */
  lemma {:induction false} WalkEachSound(fs: FileSystem, top: Path, names: seq<Path>, p: Path)
    requires top != [] && ChildNames(fs, top, names) && p in FilesOf(WalkEach(fs, top, names))
    ensures StartsWith(p, Below(top)) && HasFile(fs, p)
    decreases Room(fs, top), 0, |names|
  {
    var sub := JoinPath(top, names[0]);
    WalkEachSplit(fs, top, names);
    if p in FilesOf(Walk(fs, sub)) {
      JoinChild(top, names[0]);
      WalkFilesSound(fs, sub, p);
      SubBelow(top, names[0]);
      StartsWithTrans(p, Below(sub), Below(top));
    } else {
      WalkEachSound(fs, top, names[1..], p);
    }
  }

  /** The files the walks of `names` report: those of the first, then those
      of the rest. */
  lemma WalkEachSplit(fs: FileSystem, top: Path, names: seq<Path>)
    requires names != [] && ChildNames(fs, top, names)
    ensures ChildNames(fs, top, names[1..])
    ensures FilesOf(WalkEach(fs, top, names)) ==
              FilesOf(Walk(fs, JoinPath(top, names[0]))) + FilesOf(WalkEach(fs, top, names[1..]))
  {
    FilesOfAppend(Walk(fs, JoinPath(top, names[0])), WalkEach(fs, top, names[1..]));
  }

  /** What lies below a subdirectory lies below its parent. */
  lemma SubBelow(top: Path, name: Path)
    requires top != [] && name != [] && Lacks(name, '/')
    ensures Below(JoinPath(top, name)) == Below(top) + name + "/"
    ensures StartsWith(Below(JoinPath(top, name)), Below(top))
  {
    JoinChild(top, name);
    var sub := Below(top) + name;
    assert sub[|sub| - 1] == name[|name| - 1];
    assert (Below(top) + name + "/")[..|Below(top)|] == Below(top);
  }

  /** The directory reached from `dir` through the directories `names`,
      one level each. */
  function Down(dir: Path, names: seq<Path>): Path
    decreases |names|
  {
    if names == [] then dir else Down(dir + "/" + names[0], names[1..])
  }

  /** Names of single path components: non-empty, without '/'. */
  predicate PlainNames(names: seq<Path>)
  {
    forall k :: 0 <= k < |names| ==> names[k] != [] && Lacks(names[k], '/')
  }

  /** The directories passed on the way down from `dir` through `names`. */
  function RouteDirs(dir: Path, names: seq<Path>): set<Path>
    decreases |names|
  {
    if names == [] then {} else {dir + "/" + names[0]} + RouteDirs(dir + "/" + names[0], names[1..])
  }

  /** A regular file reached from the directory `dir` through existing
      directories, one name at a time, is reported by the walk of `dir`. */
  lemma {:induction false} WalkedThrough(fs: FileSystem, dir: Path, names: seq<Path>, name: Path)
    requires dir != [] && dir[|dir| - 1] != '/' && IsDir(fs, dir)
    requires PlainNames(names) && forall d :: d in RouteDirs(dir, names) ==> IsDir(fs, d)
    requires name != [] && Lacks(name, '/') && IsFile(fs, Down(dir, names) + "/" + name)
    ensures Down(dir, names) + "/" + name in WalkFiles(fs, dir)
    decreases |names|
  {
    PlainDir(dir);
    if names == [] {
      FileWalked(fs, dir, name);
    } else {
      var sub := dir + "/" + names[0];
      assert sub in RouteDirs(dir, names);
      assert sub[|sub| - 1] == names[0][|names[0]| - 1];
      assert PlainNames(names[1..]) by {
        forall k | 0 <= k < |names[1..]|
          ensures names[1..][k] != [] && Lacks(names[1..][k], '/')
        {
          assert names[1..][k] == names[k + 1];
        }
      }
      WalkedThrough(fs, sub, names[1..], name);
      SubWalked(fs, dir, names[0], Down(dir, names) + "/" + name);
    }
  }

  /** The names `f` of the regular files directly inside the directory `top`
      (`os.listdir(top)` filtered by `os.path.isfile(os.path.join(top, f))`),
      or the error `os.listdir` raises when `top` is not a directory. */
  function ListFiles(fs: FileSystem, top: Path): Result<seq<Path>, OsError>
  {
    if IsDir(fs, TrimSlashes(top)) then Ok(Names(fs, Below(top), false))
    else if IsFile(fs, TrimSlashes(top)) then Err(NotADirectory(top))
    else Err(FileNotFound(top))
  }
}
