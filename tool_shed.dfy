/** The requirement specifications `complete_metadata` prints (lib/tool_shed.py).
    The Tool Shed query `basic_metadata` is a network call, so its answer is
    an input: the list of metadata records, each as the JSON value bioblend
    returns. The function returns nothing; its result is the lines it prints,
    in order, and the exception that stops it, if any. */
module ToolShed {
  import opened Wrappers
  import opened Text
  import opened Yaml
  import opened Manifests
  import opened Install

  /** Why `complete_metadata` stops: no tool was given (a `ClickException`),
      or a lookup in the metadata raised. */
  datatype Error = NoTool | LookupFailed(failure: Failure)

  /** Python's truth value of a value. */
  predicate Truthy(v: Value)
  {
    match v
    case Str(s) => s != ""
    case List(items) => items != []
    case Mapping(fields) => fields != []
    case Scalar(text) => text !in {"None", "False", "0", "0.0", "-0.0", "0j"}
  }

  /** `key in v`: a key of a mapping, an element of a list, a substring of a
      string; any other value cannot be searched. */
  function Contains(v: Value, key: string): Result<bool, Failure>
  {
    match v
    case Mapping(fields) => Ok(key in Keys(fields))
    case List(items) => Ok(Str(key) in items)
    case Str(s) => Ok(exists i :: 0 <= i <= |s| - |key| && OccursAt(s, key, i))
    case Scalar(_) => Err(TypeError)
  }

  predicate OccursAt(s: string, key: string, i: int)
    requires 0 <= i <= |s| - |key|
  {
    s[i..i + |key|] == key
  }

  /** The printed lines so far, the specifications collected for the current
      record, and the exception that ended the run, if any. */
  datatype Out = Out(lines: seq<string>, specs: seq<string>, error: Option<Failure>)

  /** What has been done before `out`: `lines` and `specs` come first. */
  function After(lines: seq<string>, specs: seq<string>, out: Out): Out
  {
    Out(lines + out.lines, specs + out.specs, out.error)
  }

  lemma AfterAfter(l1: seq<string>, s1: seq<string>, l2: seq<string>, s2: seq<string>, out: Out)
    ensures After(l1, s1, After(l2, s2, out)) == After(l1 + l2, s1 + s2, out)
  {
    assert l1 + (l2 + out.lines) == l1 + l2 + out.lines;
    assert s1 + (s2 + out.specs) == s1 + s2 + out.specs;
  }

  lemma AfterNothing(lines: seq<string>, specs: seq<string>)
    ensures After(lines, specs, Out([], [], None)) == Out(lines, specs, None)
  {
    assert lines + [] == lines && specs + [] == specs;
  }

  /** One requirement: `name==version` when it has a version; otherwise
      nothing, once its name has been read for the log message. */
  function RequirementSpec(req: Value): Result<Option<string>, Failure>
  {
    match Contains(req, "version")
    case Err(e) => Err(e)
    case Ok(versioned) =>
      match Index(req, "name")
      case Err(e) => Err(e)
      case Ok(name) =>
        if !versioned then Ok(None)
        else
          match Index(req, "version")
          case Err(e) => Err(e)
          case Ok(version) => Ok(Some(Show(name, false) + "==" + Show(version, false)))
  }

  /** The loop over one tool's requirements: each specification is collected
      and printed. */
  function Requirements(reqs: seq<Value>): Out
  {
    if reqs == [] then Out([], [], None)
    else match RequirementSpec(reqs[0])
      case Err(e) => Out([], [], Some(e))
      case Ok(None) => Requirements(reqs[1..])
      case Ok(Some(spec)) => After([spec], [spec], Requirements(reqs[1..]))
  }

  /** One tool of a record: print its id, then go through its
      requirements. */
  function ToolStep(tool: Value): Out
  {
    match Index(tool, "id")
    case Err(e) => Out([], [], Some(e))
    case Ok(id) =>
      var idLine := Show(id, false);
      match Index(tool, "requirements")
      case Err(e) => Out([idLine], [], Some(e))
      case Ok(rv) =>
        match Iterate(rv)
        case Err(e) => Out([idLine], [], Some(e))
        case Ok(reqs) => After([idLine], [], Requirements(reqs))
  }

  /** The loop over a record's `valid_tools`. */
  function Tools(tools: seq<Value>): Out
  {
    if tools == [] then Out([], [], None)
    else
      var here := ToolStep(tools[0]);
      if here.error.Some? then here
      else After(here.lines, here.specs, Tools(tools[1..]))
  }

  /** One metadata record: nothing unless it has `valid_tools`; otherwise
      the tools' lines and then the record's specifications joined by ",".
      The specifications gathered for one record are not passed on. */
  function Record(meta: Value): (r: Out)
    ensures r.specs == []
  {
    match Contains(meta, "valid_tools")
    case Err(e) => Out([], [], Some(e))
    case Ok(false) => Out([], [], None)
    case Ok(true) =>
      match Index(meta, "valid_tools")
      case Err(e) => Out([], [], Some(e))
      case Ok(vt) =>
        match Iterate(vt)
        case Err(e) => Out([], [], Some(e))
        case Ok(tools) =>
          var out := Tools(tools);
          if out.error.Some? then Out(out.lines, [], out.error)
          else Out(out.lines + [Join(",", out.specs)], [], None)
  }

  /** The loop over the metadata records. */
  function Records(metaData: seq<Value>): Out
  {
    if metaData == [] then Out([], [], None)
    else
      var here := Record(metaData[0]);
      if here.error.Some? then here
      else After(here.lines, [], Records(metaData[1..]))
  }

  /** `complete_metadata(tool)`, with `metaData` the answer of the query. */
  function CompleteMetadata(tool: Value, metaData: seq<Value>): (seq<string>, Result<(), Error>)
  {
    if !Truthy(tool) then ([], Err(NoTool))
    else
      var out := Records(metaData);
      (out.lines, if out.error.Some? then Err(LookupFailed(out.error.value)) else Ok(()))
  }

  /** A missing or empty tool raises before the registry is asked anything,
      and nothing is printed. */
  lemma FalsyToolRaises(metaData: seq<Value>)
    ensures CompleteMetadata(Scalar("None"), metaData) == ([], Err(NoTool))
    ensures CompleteMetadata(Mapping([]), metaData) == ([], Err(NoTool))
  {
  }

  /** A record without `valid_tools` prints nothing, not even an empty line. */
  lemma RecordWithoutTools(fields: seq<(string, Value)>)
    requires "valid_tools" !in Keys(fields)
    ensures Record(Mapping(fields)) == Out([], [], None)
  {
  }

  /** A requirement with a name and a version yields exactly
      `name + "==" + version`; one without a version yields nothing. */
  lemma RequirementSpecSpec(fields: seq<(string, Value)>, name: string, version: string)
    requires Get(fields, "name") == Some(Str(name))
    ensures "version" in Keys(fields) && Get(fields, "version") == Some(Str(version)) ==>
      RequirementSpec(Mapping(fields)) == Ok(Some(name + "==" + version))
    ensures "version" !in Keys(fields) ==> RequirementSpec(Mapping(fields)) == Ok(None)
  {
  }

  /** Within a tool the printed lines are exactly the specifications, in the
      order of the requirements, and there is one for each versioned
      requirement up to the first that raises. */
  lemma {:induction false} RequirementsSpec(reqs: seq<Value>)
    ensures Requirements(reqs).lines == Requirements(reqs).specs
    ensures Requirements(reqs).error.None? <==> forall k :: 0 <= k < |reqs| ==> RequirementSpec(reqs[k]).Ok?
    ensures Requirements(reqs).error.None? ==>
      Requirements(reqs).specs == Versioned(Outcomes(reqs))
  {
    if reqs != [] {
      RequirementsSpec(reqs[1..]);
      forall k | 0 < k < |reqs| ensures reqs[k] == reqs[1..][k - 1] { }
    }
  }

  /** What each requirement yields on its own, reading an exception as
      nothing. */
  function Outcomes(reqs: seq<Value>): (r: seq<Option<string>>)
  {
    if reqs == [] then []
    else [if RequirementSpec(reqs[0]).Ok? then RequirementSpec(reqs[0]).value else None] + Outcomes(reqs[1..])
  }

  /** The specifications among a list of outcomes, in order. */
  function Versioned(specs: seq<Option<string>>): seq<string>
  {
    if specs == [] then []
    else if specs[0].Some? then [specs[0].value] + Versioned(specs[1..])
    else Versioned(specs[1..])
  }

  /** The line printed for a record splits back on "," into its
      specifications, when none of them contains a comma. */
  lemma JoinedLineSplits(specs: seq<string>)
    requires |specs| > 0 && forall k :: 0 <= k < |specs| ==> Lacks(specs[k], ',')
    ensures Split(Join(",", specs), ",") == specs
  {
    SplitJoin(specs, ",");
  }

  /** A record whose tools carry no versioned requirement still prints its
      specification line, and it is empty. */
  lemma NothingVersioned(tools: seq<Value>)
    requires Tools(tools).error.None? && Tools(tools).specs == []
    ensures Record(Mapping([("valid_tools", List(tools))])).lines == Tools(tools).lines + [""]
  {
  }

  /** The specifications of each tool, one tool after another. */
  function ToolSpecs(tools: seq<Value>): seq<string>
  {
    if tools == [] then [] else ToolStep(tools[0]).specs + ToolSpecs(tools[1..])
  }

  /** The tools of a record run to the end exactly when none of them raises,
      and then the specifications are collected in tool order, each tool's in
      requirement order. */
  lemma {:induction false} ToolsInOrder(tools: seq<Value>)
    ensures Tools(tools).error.None? <==> forall k :: 0 <= k < |tools| ==> ToolStep(tools[k]).error.None?
    ensures Tools(tools).error.None? ==> Tools(tools).specs == ToolSpecs(tools)
  {
    if tools != [] {
      ToolsInOrder(tools[1..]);
      forall k | 0 < k < |tools| ensures tools[k] == tools[1..][k - 1] { }
    }
  }

  /** A tool that has an id and a list of requirements, none of which
      raises, prints its id and then its specifications. */
  lemma ToolStepSpec(fields: seq<(string, Value)>, reqs: seq<Value>)
    requires Get(fields, "id").Some? && Get(fields, "requirements") == Some(List(reqs))
    requires forall k :: 0 <= k < |reqs| ==> RequirementSpec(reqs[k]).Ok?
    ensures ToolStep(Mapping(fields)).error.None?
    ensures ToolStep(Mapping(fields)).lines == [Show(Get(fields, "id").value, false)] + Versioned(Outcomes(reqs))
    ensures ToolStep(Mapping(fields)).specs == Versioned(Outcomes(reqs))
  {
    RequirementsSpec(reqs);
  }

  /** A record whose tools all run prints their lines and then one line:
      all their specifications, in order, joined by ",". */
  lemma RecordLine(fields: seq<(string, Value)>, tools: seq<Value>)
    requires Get(fields, "valid_tools") == Some(List(tools))
    requires forall k :: 0 <= k < |tools| ==> ToolStep(tools[k]).error.None?
    ensures Record(Mapping(fields)) == Out(Tools(tools).lines + [Join(",", ToolSpecs(tools))], [], None)
  {
    ToolsInOrder(tools);
    GetKeys(fields, "valid_tools");
  }

  /** The lines of each record in turn. */
  function RecordLines(metaData: seq<Value>): seq<string>
  {
    if metaData == [] then [] else Record(metaData[0]).lines + RecordLines(metaData[1..])
  }

  /** The records are handled one after another, each starting afresh: no
      specification is carried from one record to the next; the loop raises
      exactly when a record does, and when none does, the output is the lines
      of each record in turn. */
  lemma {:induction false} RecordsInOrder(metaData: seq<Value>)
    ensures Records(metaData).specs == []
    ensures Records(metaData).error.None? <==> forall k :: 0 <= k < |metaData| ==> Record(metaData[k]).error.None?
    ensures Records(metaData).error.None? ==> Records(metaData).lines == RecordLines(metaData)
  {
    if metaData != [] && Record(metaData[0]).error.None? {
      var rest := metaData[1..];
      RecordsInOrder(rest);
      assert forall k :: 0 < k < |metaData| ==> metaData[k] == rest[k - 1];
    }
  }

  /** The loop ends at record `k`, the first that raises, after the lines of
      the records before it and the lines that record printed itself. */
  ghost predicate StopsAt(metaData: seq<Value>, k: nat)
  {
    && k < |metaData| && Record(metaData[k]).error.Some?
    && (forall j :: 0 <= j < k ==> Record(metaData[j]).error.None?)
    && Records(metaData) == Out(RecordLines(metaData[..k]) + Record(metaData[k]).lines, [], Record(metaData[k]).error)
  }

  /** A loop that raises stops at the first record that raises. */
  lemma {:induction false} RecordsFirstError(metaData: seq<Value>)
    requires Records(metaData).error.Some?
    ensures exists k :: StopsAt(metaData, k)
  {
    if Record(metaData[0]).error.Some? {
      assert metaData[..0] == [];
      assert [] + Record(metaData[0]).lines == Record(metaData[0]).lines;
      assert StopsAt(metaData, 0);
    } else {
      RecordsFirstError(metaData[1..]);
      var k :| StopsAt(metaData[1..], k);
      StopsLater(metaData, k);
    }
  }

  lemma StopsLater(metaData: seq<Value>, k: nat)
    requires metaData != [] && Record(metaData[0]).error.None? && StopsAt(metaData[1..], k)
    ensures StopsAt(metaData, k + 1)
  {
    var here := Record(metaData[0]);
    var rest := metaData[1..];
    var last := Record(rest[k]);
    RecordLinesCons(metaData, k);
    AfterAfter(here.lines, [], RecordLines(rest[..k]), [], Out(last.lines, [], last.error));
    assert metaData[k + 1] == rest[k];
    assert forall j :: 0 < j < k + 1 ==> metaData[j] == rest[j - 1];
  }

  lemma RecordLinesCons(metaData: seq<Value>, k: nat)
    requires k < |metaData|
    ensures RecordLines(metaData[..k + 1]) == Record(metaData[0]).lines + RecordLines(metaData[1..][..k])
  {
    assert metaData[..k + 1][0] == metaData[0] && metaData[..k + 1][1..] == metaData[1..][..k];
  }

  /** The loop over one tool's requirements, as the program runs it. */
  method AddRequirements(reqs: seq<Value>) returns (out: Out)
    ensures out == Requirements(reqs)
  {
    var lines: seq<string> := [];
    var specs: seq<string> := [];
    var i := 0;
    while i < |reqs|
      invariant 0 <= i <= |reqs|
      invariant Requirements(reqs) == After(lines, specs, Requirements(reqs[i..]))
    {
      assert reqs[i..][0] == reqs[i] && reqs[i..][1..] == reqs[i + 1..];
      var spec := RequirementSpec(reqs[i]);
      if spec.Err? {
        return Out(lines, specs, Some(spec.error));
      }
      if spec.value.Some? {
        var s := spec.value.value;
        AfterAfter(lines, specs, [s], [s], Requirements(reqs[i + 1..]));
        specs := specs + [s];
        lines := lines + [s];
      }
      i := i + 1;
    }
    AfterNothing(lines, specs);
    return Out(lines, specs, None);
  }

  /** The loop over a record's `valid_tools`. */
  method AddTools(tools: seq<Value>) returns (out: Out)
    ensures out == Tools(tools)
  {
    var lines: seq<string> := [];
    var specs: seq<string> := [];
    var i := 0;
    while i < |tools|
      invariant 0 <= i <= |tools|
      invariant Tools(tools) == After(lines, specs, Tools(tools[i..]))
    {
      assert tools[i..][0] == tools[i] && tools[i..][1..] == tools[i + 1..];
      var here := AddTool(tools[i]);
      if here.error.Some? {
        return After(lines, specs, here);
      }
      AfterAfter(lines, specs, here.lines, here.specs, Tools(tools[i + 1..]));
      lines := lines + here.lines;
      specs := specs + here.specs;
      i := i + 1;
    }
    AfterNothing(lines, specs);
    return Out(lines, specs, None);
  }

  /** The body of the loop over the tools. */
  method AddTool(tool: Value) returns (out: Out)
    ensures out == ToolStep(tool)
  {
    var id := Index(tool, "id");
    if id.Err? {
      return Out([], [], Some(id.error));
    }
    var idLine := Show(id.value, false);
    var rv := Index(tool, "requirements");
    if rv.Err? {
      return Out([idLine], [], Some(rv.error));
    }
    var reqs := Iterate(rv.value);
    if reqs.Err? {
      return Out([idLine], [], Some(reqs.error));
    }
    var here := AddRequirements(reqs.value);
    return After([idLine], [], here);
  }

  /** `complete_metadata(tool)` as the program runs it: the check on `tool`,
      then the loop over the records, printing as it goes. */
  method Complete(tool: Value, metaData: seq<Value>) returns (lines: seq<string>, r: Result<(), Error>)
    ensures (lines, r) == CompleteMetadata(tool, metaData)
  {
    if !Truthy(tool) {
      return [], Err(NoTool);
    }
    var out := RunRecords(metaData);
    lines := out.lines;
    r := if out.error.Some? then Err(LookupFailed(out.error.value)) else Ok(());
  }

  /** The loop over the metadata records. */
  method RunRecords(metaData: seq<Value>) returns (out: Out)
    ensures out == Records(metaData)
  {
    var lines: seq<string> := [];
    var i := 0;
    while i < |metaData|
      invariant 0 <= i <= |metaData|
      invariant Records(metaData) == After(lines, [], Records(metaData[i..]))
    {
      assert metaData[i..][0] == metaData[i] && metaData[i..][1..] == metaData[i + 1..];
      var record := RecordM(metaData[i]);
      if record.error.Some? {
        return Out(lines + record.lines, [], record.error);
      }
      AfterAfter(lines, [], record.lines, [], Records(metaData[i + 1..]));
      lines := lines + record.lines;
      i := i + 1;
    }
    AfterNothing(lines, []);
    return Out(lines, [], None);
  }

  /** The body of the loop over the records. */
  method RecordM(meta: Value) returns (out: Out)
    ensures out == Record(meta)
  {
    var has := Contains(meta, "valid_tools");
    if has.Err? {
      return Out([], [], Some(has.error));
    }
    if !has.value {
      return Out([], [], None);
    }
    var vt := Index(meta, "valid_tools");
    if vt.Err? {
      return Out([], [], Some(vt.error));
    }
    var tools := Iterate(vt.value);
    if tools.Err? {
      return Out([], [], Some(tools.error));
    }
    var found := AddTools(tools.value);
    if found.error.Some? {
      return Out(found.lines, [], found.error);
    }
    return Out(found.lines + [Join(",", found.specs)], [], None);
  }
}
