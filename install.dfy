/** Installing the tools the manifests list (`install_tools` in workbench.py;
    `install_gx_tools` in lib/tools.py is a copy that cannot run): one
    `shed-tools install` invocation per manifest entry, in manifest order. The
    invocation is modelled as its sequence of words, the way the format string
    lays them out; shell quoting and word splitting are not modelled. */
module Install {
  import opened Wrappers
  import opened Text
  import opened Paths
  import opened Files
  import opened Yaml
  import opened Manifests

  /** The Galaxy instance and credentials given on the command line. */
  datatype Login = Login(galaxy: string, user: string, password: string, apiKey: string)

  /** What one manifest entry contributes to its command. */
  datatype Tool = Tool(toolShed: string, name: string, owner: string, revisions: string, section: string)

  /** An exception leaving the install loop: the `ClickException` the handler
      raises, or an exception raised outside the `try` (reading the manifests)
      or inside the handler itself. */
  datatype Abort = Click(cause: Failure) | Raised(error: Failure)

  /** `str(v)`, as an f-string interpolates a value. Inside a list or a
      mapping a string is shown as `repr` shows it, between single quotes. */
  function Show(v: Value, quoted: bool): string
  {
    match v
    case Str(s) => if quoted then "'" + s + "'" else s
    case Scalar(t) => t
    case List(items) => "[" + Join(", ", ShowItems(items)) + "]"
    case Mapping(fields) => "{" + Join(", ", ShowFields(fields)) + "}"
  }

  function ShowItems(items: seq<Value>): seq<string>
  {
    if items == [] then [] else [Show(items[0], true)] + ShowItems(items[1..])
  }

  function ShowFields(fields: seq<(string, Value)>): seq<string>
  {
    if fields == [] then []
    else
      var (key, v) := fields[0];
      assert v < fields[0];
      ["'" + key + "': " + Show(v, true)] + ShowFields(fields[1..])
  }

  /** `t[key]` */
  function Index(t: Value, key: string): Result<Value, Failure>
  {
    match t
    case Mapping(fields) =>
      (match Get(fields, key)
       case None => Err(KeyError(key))
       case Some(v) => Ok(v))
    case _ => Err(TypeError)
  }

  /** The interpolated text of `t[key]`. */
  function Field(t: Value, key: string): Result<string, Failure>
  {
    match Index(t, key)
    case Err(e) => Err(e)
    case Ok(v) => Ok(Show(v, false))
  }

  /** The strings `" ".join(v)` joins: a list's items, which must all be
      strings, a string's characters, or a mapping's keys. */
  function JoinItems(v: Value): Result<seq<string>, Failure>
  {
    match v
    case List(items) =>
      if forall k :: 0 <= k < |items| ==> items[k].Str?
      then Ok(seq(|items|, k requires 0 <= k < |items| => items[k].s))
      else Err(TypeError)
    case Str(s) => Ok(seq(|s|, k requires 0 <= k < |s| => [s[k]]))
    case Mapping(fields) => Ok(Keys(fields))
    case Scalar(_) => Err(TypeError)
  }

  /** `" ".join(t["revisions"])` */
  function Revisions(t: Value): Result<string, Failure>
  {
    match Index(t, "revisions")
    case Err(e) => Err(e)
    case Ok(v) =>
      match JoinItems(v)
      case Err(e) => Err(e)
      case Ok(revs) => Ok(Join(" ", revs))
  }

  /** Evaluating the format string's fields from left to right: the first one
      that raises ends the evaluation. */
  function ToolOf(t: Value): Result<Tool, Failure>
  {
    match Field(t, "tool_shed_url")
    case Err(e) => Err(e)
    case Ok(url) =>
      match Field(t, "name")
      case Err(e) => Err(e)
      case Ok(name) =>
        match Field(t, "owner")
        case Err(e) => Err(e)
        case Ok(owner) =>
          match Revisions(t)
          case Err(e) => Err(e)
          case Ok(revs) =>
            match Field(t, "tool_panel_section_label")
            case Err(e) => Err(e)
            case Ok(section) => Ok(Tool(url, name, owner, revs, section))
  }

  /** The words of the `shed-tools install` command line. */
  function Args(login: Login, tool: Tool): seq<string>
  {
    ["shed-tools", "install", "-g", login.galaxy, "-a", login.apiKey, "-u", login.user,
     "-p", login.password, "--toolshed", tool.toolShed,
     "--skip_install_resolver_dependencies", "--skip_install_repository_dependencies",
     "--name", tool.name, "--owner", tool.owner, "--revisions", tool.revisions,
     "--section_label", tool.section]
  }

  /** Reading a command line back: the value after each option, when the words
      are laid out as `Args` lays them out. */
  function ParseArgs(args: seq<string>): Option<(Login, Tool)>
  {
    if |args| == 22 && args[0] == "shed-tools" && args[1] == "install" && args[2] == "-g" &&
       args[4] == "-a" && args[6] == "-u" && args[8] == "-p" && args[10] == "--toolshed" &&
       args[12] == "--skip_install_resolver_dependencies" &&
       args[13] == "--skip_install_repository_dependencies" && args[14] == "--name" &&
       args[16] == "--owner" && args[18] == "--revisions" && args[20] == "--section_label"
    then Some((Login(args[3], args[7], args[9], args[5]),
               Tool(args[11], args[15], args[17], args[19], args[21])))
    else None
  }

  /** Every command carries each credential and each field of its entry as the
      value of its own option. */
  lemma ParseArgsOfArgs(login: Login, tool: Tool)
    ensures ParseArgs(Args(login, tool)) == Some((login, tool))
  {
  }

  /** Conversely, every command line `ParseArgs` accepts is the one `Args`
      builds from what it reads. */
  lemma ArgsOfParseArgs(args: seq<string>)
    requires ParseArgs(args).Some?
    ensures Args(ParseArgs(args).value.0, ParseArgs(args).value.1) == args
  {
    var (login, tool) := ParseArgs(args).value;
    var built := Args(login, tool);
    assert |built| == |args|;
    forall k | 0 <= k < |args| ensures built[k] == args[k] { }
  }

  /** The entry's revisions appear, in manifest order, separated by single
      spaces, in the word after `--revisions`: splitting that word on " "
      gives them back when no revision holds a space. */
  lemma RevisionsInOrder(t: Value, revs: seq<string>)
    requires ToolOf(t).Ok?
    requires Index(t, "revisions") == Ok(List(seq(|revs|, k requires 0 <= k < |revs| => Str(revs[k]))))
    requires |revs| > 0 && forall k :: 0 <= k < |revs| ==> Lacks(revs[k], ' ')
    ensures Split(ToolOf(t).value.revisions, " ") == revs
  {
    var items := seq(|revs|, k requires 0 <= k < |revs| => Str(revs[k]));
    assert seq(|items|, k requires 0 <= k < |items| => items[k].s) == revs;
    SplitJoin(revs, " ");
  }

  /** A well-formed entry: a mapping whose four text fields are strings and
      whose revisions are a list of strings. Its command carries those strings
      as they are, and the revisions joined by single spaces in manifest
      order. */
  lemma ToolOfEntry(fields: seq<(string, Value)>, url: string, name: string, owner: string,
                    revs: seq<string>, section: string)
    requires Get(fields, "tool_shed_url") == Some(Str(url))
    requires Get(fields, "name") == Some(Str(name))
    requires Get(fields, "owner") == Some(Str(owner))
    requires Get(fields, "revisions") == Some(List(seq(|revs|, k requires 0 <= k < |revs| => Str(revs[k]))))
    requires Get(fields, "tool_panel_section_label") == Some(Str(section))
    ensures ToolOf(Mapping(fields)) == Ok(Tool(url, name, owner, Join(" ", revs), section))
  {
    var items := seq(|revs|, k requires 0 <= k < |revs| => Str(revs[k]));
    assert seq(|items|, k requires 0 <= k < |items| => items[k].s) == revs;
  }

  /** The outcome of the install loop: the commands launched, in order, and
      whether the loop ran to the end or was aborted. */
  datatype Run = Run(launched: seq<seq<string>>, outcome: Result<(), Abort>)

  /** What the `except` clause raises for entry `t` after `cause`: it logs
      `t['name']` first, so an entry without a readable name replaces the
      `ClickException` with that lookup's own exception. */
  function Handle(t: Value, cause: Failure): Abort
  {
    match Index(t, "name")
    case Err(e) => Raised(e)
    case Ok(_) => Click(cause)
  }

  /** One pass of the loop body for entry `t`: the command to launch, or the
      exception that leaves the loop. */
  function Entry(login: Login, t: Value): Result<seq<string>, Abort>
  {
    match ToolOf(t)
    case Err(e) => Err(Handle(t, e))
    case Ok(tool) => Ok(Args(login, tool))
  }

  /** An entry without a "name" never gets its `ClickException`: the handler's
      own lookup of "name" raises `KeyError` in its place. */
  lemma MissingNameEscapes(login: Login, fields: seq<(string, Value)>, url: Value)
    requires Get(fields, "tool_shed_url") == Some(url)
    requires Get(fields, "name") == None
    ensures Entry(login, Mapping(fields)) == Err(Raised(KeyError("name")))
  {
  }

  /** A loop that launches `entry(t)` for each entry `t` in turn and stops at
      the first one that raises. */
  function Loop(entry: Value -> Result<seq<string>, Abort>, entries: seq<Value>): Run
  {
    if entries == [] then Run([], Ok(()))
    else match entry(entries[0])
      case Err(e) => Run([], Err(e))
      case Ok(args) =>
        var rest := Loop(entry, entries[1..]);
        Run([args] + rest.launched, rest.outcome)
  }

  /** The loop launches the entries' commands in order, up to the first entry
      that raises; it then stops and reports that exception. It completes
      exactly when no entry raises. */
  lemma {:induction false} LoopSpec(entry: Value -> Result<seq<string>, Abort>, entries: seq<Value>)
    ensures var r := Loop(entry, entries);
      |r.launched| <= |entries| &&
      (forall k :: 0 <= k < |r.launched| ==> entry(entries[k]) == Ok(r.launched[k])) &&
      (r.outcome.Ok? <==> |r.launched| == |entries|) &&
      (r.outcome.Err? ==> entry(entries[|r.launched|]) == Err(r.outcome.error))
  {
    if entries != [] && entry(entries[0]).Ok? {
      LoopSpec(entry, entries[1..]);
      var r := Loop(entry, entries);
      var rest := Loop(entry, entries[1..]);
      forall k | 0 < k <= |rest.launched|
        ensures entries[k] == entries[1..][k - 1] && r.launched[k] == rest.launched[k - 1]
      { }
    }
  }

  /** Running the loop over two runs of entries: the first run's launches,
      then, unless the first run aborted, the second run's. */
  lemma {:induction false} LoopAppend(entry: Value -> Result<seq<string>, Abort>, xs: seq<Value>, ys: seq<Value>)
    ensures var first := Loop(entry, xs);
      Loop(entry, xs + ys) ==
        if first.outcome.Err? then first
        else Run(first.launched + Loop(entry, ys).launched, Loop(entry, ys).outcome)
  {
    if xs == [] {
      assert xs + ys == ys;
    } else {
      assert (xs + ys)[0] == xs[0] && (xs + ys)[1..] == xs[1..] + ys;
      if entry(xs[0]).Ok? {
        LoopAppend(entry, xs[1..], ys);
        var first := Loop(entry, xs[1..]);
        assert [entry(xs[0]).value] + (first.launched + Loop(entry, ys).launched)
            == [entry(xs[0]).value] + first.launched + Loop(entry, ys).launched;
      }
    }
  }

  /** The entries of all manifests, manifest by manifest. */
  function Flatten(plugins: seq<seq<Value>>): seq<Value>
  {
    if plugins == [] then [] else plugins[0] + Flatten(plugins[1..])
  }

  /** `install_tools`: read every plugin's manifest, then run the install loop
      over their entries. */
  function InstallTools(fs: FileSystem, pluginDir: Path, login: Login): Run
  {
    match ReadFromPlugins(fs, pluginDir)
    case Err(e) => Run([], Err(Raised(e)))
    case Ok(plugins) => Loop(t => Entry(login, t), Flatten(plugins))
  }

  /** What `install_tools` does, entry by entry: one `shed-tools install` per
      entry, in manifest order, up to the first entry whose command cannot be
      built; that entry's exception, as the handler passes it on, ends the
      run. A manifest that cannot be read ends it before anything is launched. */
  lemma InstallToolsSpec(fs: FileSystem, pluginDir: Path, login: Login)
    ensures ReadFromPlugins(fs, pluginDir).Err? ==>
      InstallTools(fs, pluginDir, login) == Run([], Err(Raised(ReadFromPlugins(fs, pluginDir).error)))
    ensures ReadFromPlugins(fs, pluginDir).Ok? ==>
      var entries := Flatten(ReadFromPlugins(fs, pluginDir).value);
      var r := InstallTools(fs, pluginDir, login);
      |r.launched| <= |entries| &&
      (forall k :: 0 <= k < |r.launched| ==>
        ToolOf(entries[k]).Ok? && r.launched[k] == Args(login, ToolOf(entries[k]).value)) &&
      (r.outcome.Ok? <==> |r.launched| == |entries|) &&
      (r.outcome.Err? ==>
        ToolOf(entries[|r.launched|]).Err? &&
        r.outcome.error == Handle(entries[|r.launched|], ToolOf(entries[|r.launched|]).error))
  {
    if ReadFromPlugins(fs, pluginDir).Ok? {
      var entry := t => Entry(login, t);
      LoopSpec(entry, Flatten(ReadFromPlugins(fs, pluginDir).value));
    }
  }

  /** The inner loop, over the entries of one manifest: build the command,
      launch it and wait for it. `run` stands for the process; its exit status
      is read and then not looked at. */
  method InstallPlugin(entry: Value -> Result<seq<string>, Abort>, tools: seq<Value>, run: seq<string> -> int)
    returns (launched: seq<seq<string>>, outcome: Result<(), Abort>)
    ensures Run(launched, outcome) == Loop(entry, tools)
  {
    launched := [];
    var j := 0;
    while j < |tools|
      invariant 0 <= j <= |tools|
      invariant Loop(entry, tools[..j]) == Run(launched, Ok(()))
    {
      var t := tools[j];
      var command := entry(t);
      assert tools[..j + 1] == tools[..j] + [t];
      LoopAppend(entry, tools[..j], [t]);
      if command.Err? {
        LoopAppend(entry, tools[..j + 1], tools[j + 1..]);
        assert tools[..j + 1] + tools[j + 1..] == tools;
        return launched, Err(command.error);
      }
      var status := run(command.value);
      launched := launched + [command.value];
      j := j + 1;
    }
    assert tools[..j] == tools;
    outcome := Ok(());
  }

  /** The outer loop, over the manifests in listing order; the first
      exception ends the whole loop. */
  method InstallAll(entry: Value -> Result<seq<string>, Abort>, plugins: seq<seq<Value>>, run: seq<string> -> int)
    returns (launched: seq<seq<string>>, outcome: Result<(), Abort>)
    ensures Run(launched, outcome) == Loop(entry, Flatten(plugins))
  {
    launched := [];
    var i := 0;
    while i < |plugins|
      invariant 0 <= i <= |plugins|
      invariant Loop(entry, Flatten(plugins)) ==
        Run(launched + Loop(entry, Flatten(plugins[i..])).launched, Loop(entry, Flatten(plugins[i..])).outcome)
    {
      assert Flatten(plugins[i..]) == plugins[i] + Flatten(plugins[i + 1..]) by {
        assert plugins[i..][1..] == plugins[i + 1..];
      }
      LoopAppend(entry, plugins[i], Flatten(plugins[i + 1..]));
      var more, result := InstallPlugin(entry, plugins[i], run);
      if result.Err? {
        return launched + more, result;
      }
      launched := launched + more;
      i := i + 1;
    }
    outcome := Ok(());
    assert plugins[i..] == [];
  }

  /** `install_tools` as the program runs it: read the manifests, then run the
      loop with the `shed-tools install` command of each entry. */
  method InstallToolsRun(fs: FileSystem, pluginDir: Path, login: Login, run: seq<string> -> int)
    returns (launched: seq<seq<string>>, outcome: Result<(), Abort>)
    ensures Run(launched, outcome) == InstallTools(fs, pluginDir, login)
  {
    var plugins := ReadFromPlugins(fs, pluginDir);
    if plugins.Err? {
      return [], Err(Raised(plugins.error));
    }
    launched, outcome := InstallAll(t => Entry(login, t), plugins.value, run);
  }
}
