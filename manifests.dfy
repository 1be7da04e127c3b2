/** Finding and reading the tool manifests inside the expanded plugins
    (workbench.py, with copies in lib/tools.py): `get_fullpath_for_tool_yaml`,
    `read_tool_set_file`, and the two list comprehensions that apply them to
    every plugin file (`read_from_plugins`, and the start of `install_tools`). */
module Manifests {
  import opened Wrappers
  import opened Text
  import opened Paths
  import opened Files
  import opened Yaml

  /** The exceptions these steps can raise. */
  datatype Failure =
    | IndexError
    | KeyError(key: string)
    | TypeError
    | YamlError
    | OsFailure(error: OsError)

  /** `os.path.join(plugin_dir, os.path.join(file + ".contents", "workflows/"))` */
  function ToolYamlBase(pluginDir: Path, file: Path): Path
  {
    JoinPath(pluginDir, JoinPath(file + ".contents", "workflows/"))
  }

  /** For a plugin directory ending in '/' and a relative file name, the
      search root is the file's expanded directory's "workflows/" folder. */
  lemma ToolYamlBaseIs(pluginDir: Path, file: Path)
    requires pluginDir != [] && pluginDir[|pluginDir| - 1] == '/'
    requires file != [] && file[0] != '/'
    ensures ToolYamlBase(pluginDir, file) == pluginDir + file + ".contents/workflows/"
  {
    var inner := file + ".contents";
    assert inner[|inner| - 1] == 's';
    assert JoinPath(inner, "workflows/") == inner + "/" + "workflows/";
    assert (inner + "/" + "workflows/")[0] == file[0];
    assert pluginDir + (inner + "/" + "workflows/") == pluginDir + file + ".contents/workflows/";
  }

  /** The last element of `sorted(paths)`: the greatest path in Python's string
      order. */
  function Greatest(paths: seq<Path>): Path
    requires |paths| > 0
  {
    if |paths| == 1 then paths[0]
    else
      var rest := Greatest(paths[1..]);
      if LessEq(paths[0], rest) then rest else paths[0]
  }

  /** `Greatest` is one of the paths and no path comes after it. */
  lemma {:induction false} GreatestIsMax(paths: seq<Path>)
    requires |paths| > 0
    ensures Greatest(paths) in paths
    ensures forall p :: p in paths ==> LessEq(p, Greatest(paths))
  {
    if |paths| > 1 {
      var rest := Greatest(paths[1..]);
      GreatestIsMax(paths[1..]);
      LessEqTotal(paths[0], rest);
      forall p | p in paths
        ensures LessEq(p, Greatest(paths))
      {
        if p != paths[0] {
          assert p in paths[1..];
          if !LessEq(paths[0], rest) {
            LessEqTransitive(p, rest, paths[0]);
          }
        } else if LessEq(paths[0], rest) {
        } else {
          LessEqReflexive(p);
        }
      }
    } else {
      LessEqReflexive(paths[0]);
    }
  }

  /** Whatever order `sorted` leaves equal keys in, its last element is the one
      path that no other path comes after: any path of the list that every path
      is at most equals `Greatest`. */
  lemma GreatestUnique(paths: seq<Path>, m: Path)
    requires m in paths
    requires forall p :: p in paths ==> LessEq(p, m)
    ensures m == Greatest(paths)
  {
    GreatestIsMax(paths);
    LessEqAntisymmetric(m, Greatest(paths));
  }

  /** The order is by code point, not by number: "v2" sorts after "v10", so a
      "v2" folder wins over a "v10" folder next to it. */
  lemma VersionsAreNotNumbers(base: Path)
    ensures Greatest([base + "v10", base + "v2"]) == base + "v2"
    ensures Greatest([base + "v2", base + "v10"]) == base + "v2"
  {
    assert LessEq("v10", "v2") by {
      assert "v10"[1..] == "10" && "v2"[1..] == "2";
    }
    assert !LessEq("v2", "v10") by {
      assert "v10"[1..] == "10" && "v2"[1..] == "2";
    }
    LessEqAfterPrefix(base, "v10", "v2");
    LessEqAfterPrefix(base, "v2", "v10");
    assert [base + "v10", base + "v2"][1..] == [base + "v2"];
    assert [base + "v2", base + "v10"][1..] == [base + "v10"];
  }

  /** `get_fullpath_for_tool_yaml(file)`: walk `<file>.contents/workflows/`,
      sort the walk, take the directory of the last entry and add
      "tools.yaml"; an empty walk makes `dd[-1]` raise `IndexError`. */
  function ToolYamlPath(fs: FileSystem, pluginDir: Path, file: Path): Result<Path, Failure>
  {
    var walk := WalkDirs(fs, ToolYamlBase(pluginDir, file));
    if walk == [] then Err(IndexError) else Ok(JoinPath(Greatest(walk), "tools.yaml"))
  }

  /** The lookup fails exactly when the search root is not a directory;
      otherwise it names "tools.yaml" in a walked directory that every walked
      directory, the root included, sorts at or before. */
  lemma ToolYamlPathSpec(fs: FileSystem, pluginDir: Path, file: Path)
    ensures ToolYamlPath(fs, pluginDir, file).Err? <==> !IsDir(fs, TrimSlashes(ToolYamlBase(pluginDir, file)))
    ensures ToolYamlPath(fs, pluginDir, file).Err? ==> ToolYamlPath(fs, pluginDir, file).error == IndexError
    ensures ToolYamlPath(fs, pluginDir, file).Ok? ==>
      var walk := WalkDirs(fs, ToolYamlBase(pluginDir, file));
      exists m :: m in walk && ToolYamlPath(fs, pluginDir, file).value == JoinPath(m, "tools.yaml") &&
        LessEq(ToolYamlBase(pluginDir, file), m) && forall p :: p in walk ==> LessEq(p, m)
  {
    var walk := WalkDirs(fs, ToolYamlBase(pluginDir, file));
    if walk != [] {
      GreatestIsMax(walk);
      assert walk[0] in walk;
    }
  }

  /** With no folder below "workflows/", the manifest is read from
      "workflows/tools.yaml" itself. */
  lemma NoSubfolders(fs: FileSystem, pluginDir: Path, file: Path)
    requires IsDir(fs, TrimSlashes(ToolYamlBase(pluginDir, file)))
    requires Names(fs, Below(ToolYamlBase(pluginDir, file)), true) == []
    ensures ToolYamlPath(fs, pluginDir, file) == Ok(JoinPath(ToolYamlBase(pluginDir, file), "tools.yaml"))
  {
    var base := ToolYamlBase(pluginDir, file);
    assert Walk(fs, base) == [Visit(base, [], Names(fs, Below(base), false))] + WalkEach(fs, base, []);
    assert WalkDirs(fs, base) == [base];
  }

  /** `[t for t in doc["tools"]]` */
  function ToolEntries(doc: Value): Result<seq<Value>, Failure>
  {
    match doc
    case Mapping(fields) =>
      (match Get(fields, "tools")
       case None => Err(KeyError("tools"))
       case Some(tools) => Iterate(tools))
    case _ => Err(TypeError)
  }

  /** What `for t in v` goes over: a list's items, a string's characters, a
      mapping's keys; any other scalar cannot be iterated over. */
  function Iterate(v: Value): Result<seq<Value>, Failure>
  {
    match v
    case List(items) => Ok(items)
    case Str(s) => Ok(Chars(s))
    case Mapping(fields) => Ok(KeyValues(Keys(fields)))
    case Scalar(_) => Err(TypeError)
  }

  function KeyValues(keys: seq<string>): (r: seq<Value>)
    ensures |r| == |keys|
    ensures forall k :: 0 <= k < |keys| ==> r[k] == Str(keys[k])
  {
    if keys == [] then [] else [Str(keys[0])] + KeyValues(keys[1..])
  }

  /** `read_tool_set_file(tool_file)`: open the file, load it as YAML and list
      its "tools". */
  function ReadToolSet(fs: FileSystem, toolFile: Path): Result<seq<Value>, Failure>
  {
    match Find(fs, toolFile)
    case None => Err(OsFailure(FileNotFound(toolFile)))
    case Some(Dir) => Err(OsFailure(IsADirectory(toolFile)))
    case Some(File(Document(doc))) => ToolEntries(doc)
    case Some(File(_)) => Err(YamlError)
  }

  /** A manifest whose "tools" is a list gives that list back, element for
      element and in order; one without "tools" raises `KeyError`. */
  lemma ReadToolSetSpec(fs: FileSystem, toolFile: Path, fields: seq<(string, Value)>)
    requires Find(fs, toolFile) == Some(File(Document(Mapping(fields))))
    ensures "tools" !in Keys(fields) ==> ReadToolSet(fs, toolFile) == Err(KeyError("tools"))
    ensures forall items :: Get(fields, "tools") == Some(List(items)) ==> ReadToolSet(fs, toolFile) == Ok(items)
  {
    GetKeys(fields, "tools");
  }

  /** Evaluating `[f(x) for x in xs]`: the values in order, or the first
      exception raised. */
  function Collect<X, T>(f: X -> Result<T, Failure>, xs: seq<X>): Result<seq<T>, Failure>
  {
    if xs == [] then Ok([])
    else match f(xs[0])
      case Err(e) => Err(e)
      case Ok(v) =>
        match Collect(f, xs[1..])
        case Err(e) => Err(e)
        case Ok(vs) => Ok([v] + vs)
  }

  /** A comprehension succeeds exactly when every element does, and then gives
      one value per element, in order; otherwise it reports the error of the
      first element that fails. */
  lemma {:induction false} CollectSpec<X, T>(f: X -> Result<T, Failure>, xs: seq<X>)
    ensures Collect(f, xs).Ok? <==> forall k :: 0 <= k < |xs| ==> f(xs[k]).Ok?
    ensures Collect(f, xs).Ok? ==>
      |Collect(f, xs).value| == |xs| &&
      forall k :: 0 <= k < |xs| ==> Collect(f, xs).value[k] == f(xs[k]).value
    ensures Collect(f, xs).Err? ==>
      exists k :: 0 <= k < |xs| && f(xs[k]) == Err(Collect(f, xs).error) &&
        forall j :: 0 <= j < k ==> f(xs[j]).Ok?
  {
    if xs != [] && f(xs[0]).Ok? {
      var rest := xs[1..];
      CollectSpec(f, rest);
      forall k | 0 < k < |xs| ensures xs[k] == rest[k - 1] { }
      if Collect(f, rest).Err? {
        var k :| 0 <= k < |rest| && f(rest[k]) == Err(Collect(f, rest).error) &&
          forall j :: 0 <= j < k ==> f(rest[j]).Ok?;
        assert f(xs[k + 1]) == Err(Collect(f, xs).error);
      }
    }
  }

  /** `read_from_plugins(plugin_dir)`: list the regular files of the plugin
      directory, find every manifest, then read every manifest. All manifests
      are located before any is read, and the first exception ends the whole
      step. */
  function ReadFromPlugins(fs: FileSystem, pluginDir: Path): Result<seq<seq<Value>>, Failure>
  {
    match ListFiles(fs, pluginDir)
    case Err(e) => Err(OsFailure(e))
    case Ok(names) =>
      match Collect(name => ToolYamlPath(fs, pluginDir, name), names)
      case Err(e) => Err(e)
      case Ok(files) => Collect(file => ReadToolSet(fs, file), files)
  }

  /** One tool list per regular file of the plugin directory, in listing order,
      each the "tools" of that file's manifest; a failed listing is reported as
      it is. */
  lemma ReadFromPluginsSpec(fs: FileSystem, pluginDir: Path)
    ensures ReadFromPlugins(fs, pluginDir).Ok? ==>
      ListFiles(fs, pluginDir).Ok? &&
      |ReadFromPlugins(fs, pluginDir).value| == |ListFiles(fs, pluginDir).value| &&
      forall k :: 0 <= k < |ListFiles(fs, pluginDir).value| ==>
        var name := ListFiles(fs, pluginDir).value[k];
        ToolYamlPath(fs, pluginDir, name).Ok? &&
        ReadToolSet(fs, ToolYamlPath(fs, pluginDir, name).value) == Ok(ReadFromPlugins(fs, pluginDir).value[k])
    ensures ListFiles(fs, pluginDir).Err? ==>
      ReadFromPlugins(fs, pluginDir) == Err(OsFailure(ListFiles(fs, pluginDir).error))
    ensures ListFiles(fs, pluginDir).Ok? ==>
      (ReadFromPlugins(fs, pluginDir).Ok? <==>
        forall k :: 0 <= k < |ListFiles(fs, pluginDir).value| ==> Readable(fs, pluginDir, ListFiles(fs, pluginDir).value[k]))
  {
    if ListFiles(fs, pluginDir).Ok? {
      var names := ListFiles(fs, pluginDir).value;
      var locate := name => ToolYamlPath(fs, pluginDir, name);
      CollectSpec(locate, names);
      if Collect(locate, names).Ok? {
        var files := Collect(locate, names).value;
        var read := file => ReadToolSet(fs, file);
        CollectSpec(read, files);
        forall k | 0 <= k < |names| ensures Readable(fs, pluginDir, names[k]) <==> read(files[k]).Ok? {
          assert files[k] == locate(names[k]).value;
        }
      } else {
        var k :| 0 <= k < |names| && locate(names[k]).Err?;
        assert !Readable(fs, pluginDir, names[k]);
      }
    }
  }

  /** The manifest for the plugin file `name` is found and reads. */
  ghost predicate Readable(fs: FileSystem, pluginDir: Path, name: Path)
  {
    ToolYamlPath(fs, pluginDir, name).Ok? && ReadToolSet(fs, ToolYamlPath(fs, pluginDir, name).value).Ok?
  }

  /** A failing step reports the first manifest that cannot be found, and only
      when every manifest is found, the first one that cannot be read. */
  lemma ReadFromPluginsFirstError(fs: FileSystem, pluginDir: Path)
    requires ListFiles(fs, pluginDir).Ok? && ReadFromPlugins(fs, pluginDir).Err?
    ensures var names, e := ListFiles(fs, pluginDir).value, ReadFromPlugins(fs, pluginDir).error;
      || (exists k :: 0 <= k < |names| && ToolYamlPath(fs, pluginDir, names[k]) == Err(e) &&
            forall j :: 0 <= j < k ==> ToolYamlPath(fs, pluginDir, names[j]).Ok?)
      || ((forall k :: 0 <= k < |names| ==> ToolYamlPath(fs, pluginDir, names[k]).Ok?) &&
          exists k :: 0 <= k < |names| && ReadToolSet(fs, ToolYamlPath(fs, pluginDir, names[k]).value) == Err(e) &&
            forall j :: 0 <= j < k ==> ReadToolSet(fs, ToolYamlPath(fs, pluginDir, names[j]).value).Ok?)
  {
    var names := ListFiles(fs, pluginDir).value;
    var locate := name => ToolYamlPath(fs, pluginDir, name);
    CollectSpec(locate, names);
    if Collect(locate, names).Ok? {
      var files := Collect(locate, names).value;
      CollectSpec(file => ReadToolSet(fs, file), files);
    }
  }

  /** The copy in lib/tools.py as written: it calls the two-argument locator
      with the file name alone, so the call raises `TypeError` before the
      locator runs. */
  function LocateOneArgument(name: Path): Result<Path, Failure>
  {
    Err(TypeError)
  }

  function ReadFromPluginsAsWritten(fs: FileSystem, pluginDir: Path): Result<seq<seq<Value>>, Failure>
  {
    match ListFiles(fs, pluginDir)
    case Err(e) => Err(OsFailure(e))
    case Ok(names) =>
      match Collect(LocateOneArgument, names)
      case Err(e) => Err(e)
      case Ok(files) => Collect(file => ReadToolSet(fs, file), files)
  }

  /** As written, any plugin directory holding a regular file makes the step
      fail with `TypeError`, even one whose manifests all read correctly; only
      an empty directory gets through, with no tools. */
  lemma AsWrittenNeverReads(fs: FileSystem, pluginDir: Path)
    requires ListFiles(fs, pluginDir).Ok?
    ensures ListFiles(fs, pluginDir).value != [] ==> ReadFromPluginsAsWritten(fs, pluginDir) == Err(TypeError)
    ensures ListFiles(fs, pluginDir).value != [] && ReadFromPlugins(fs, pluginDir).Ok? ==>
      ReadFromPluginsAsWritten(fs, pluginDir) != ReadFromPlugins(fs, pluginDir)
    ensures ListFiles(fs, pluginDir).value == [] ==> ReadFromPluginsAsWritten(fs, pluginDir) == Ok([])
  {
  }
}
