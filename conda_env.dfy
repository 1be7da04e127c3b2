/** `requirements_to_conda_env_yml.py`: a pip requirements file becomes a conda
    environment. The lines of the file are an input, as Python's iteration over
    a text file yields them (each keeps its line break). The environment is the
    ordered mapping handed to `yaml.dump`, and the text appended after it is the
    footer listing the excluded packages. */
module CondaEnv {
  import opened Wrappers
  import opened Text
  import opened Yaml

  /** A package name and its version. */
  type Pin = (string, string)

  /** A Python dict from package name to version: its items in insertion
      order, with distinct names. */
  type Dict = seq<Pin>

  /** `(package_name, version) = parts` fails unless there are exactly two
      parts: Python's `ValueError`, with the number of parts it got. */
  datatype Error = Unpack(got: nat)

  /** The two collections the main loop fills. */
  datatype Parsed = Parsed(requirements: Dict, excluded: seq<Pin>)

  /** `d[name] = version`: a new name goes at the end; a name already there
      keeps its place and takes the new version. */
  function Put(d: Dict, name: string, version: string): Dict
  {
    if d == [] then [(name, version)]
    else if d[0].0 == name then [(name, version)] + d[1..]
    else [d[0]] + Put(d[1..], name, version)
  }

  lemma {:induction false} PutSpec(d: Dict, name: string, version: string)
    ensures Keys(Put(d, name, version)) == if name in Keys(d) then Keys(d) else Keys(d) + [name]
    ensures Get(Put(d, name, version), name) == Some(version)
    ensures forall other :: other != name ==> Get(Put(d, name, version), other) == Get(d, other)
  {
    if d != [] && d[0].0 != name {
      PutSpec(d[1..], name, version);
    }
  }

  /** The assignments `d[name] = version` for each pin in turn. */
  function PutAll(d: Dict, pins: seq<Pin>): Dict
  {
    if pins == [] then d
    else
      var last := pins[|pins| - 1];
      Put(PutAll(d, pins[..|pins| - 1]), last.0, last.1)
  }

  /** The version the last pin of `name` gives it, if any pin does. */
  function LastVersion(pins: seq<Pin>, name: string): Option<string>
  {
    if pins == [] then None
    else if pins[|pins| - 1].0 == name then Some(pins[|pins| - 1].1)
    else LastVersion(pins[..|pins| - 1], name)
  }

  /** A repeated package keeps the place of its first assignment, every name
      of `d` keeps its place, and each name ends with the version its last
      pin gives it. */
  lemma {:induction false} PutAllSpec(d: Dict, pins: seq<Pin>)
    ensures forall name :: name in Keys(PutAll(d, pins)) <==> name in Keys(d) || name in Keys(pins)
    ensures Keys(d) <= Keys(PutAll(d, pins))
    ensures forall name ::
      Get(PutAll(d, pins), name) == (if LastVersion(pins, name).Some? then LastVersion(pins, name) else Get(d, name))
  {
    if pins != [] {
      var init, last := pins[..|pins| - 1], pins[|pins| - 1];
      assert pins == init + [last];
      PutAllSpec(d, init);
      PutSpec(PutAll(d, init), last.0, last.1);
      KeysSnoc(init, last);
    }
  }

  lemma {:induction false} KeysSnoc<V>(fields: seq<(string, V)>, last: (string, V))
    ensures Keys(fields + [last]) == Keys(fields) + [last.0]
  {
    if fields != [] {
      assert (fields + [last])[1..] == fields[1..] + [last];
      KeysSnoc(fields[1..], last);
    }
  }

  /** Every name occurs at most once. */
  predicate Distinct(names: seq<string>)
  {
    forall i, j :: 0 <= i < j < |names| ==> names[i] != names[j]
  }

  /** The dict never holds a name twice. */
  lemma {:induction false} PutAllDistinct(pins: seq<Pin>)
    ensures Distinct(Keys(PutAll([], pins)))
  {
    if pins != [] {
      var init, last := pins[..|pins| - 1], pins[|pins| - 1];
      PutAllDistinct(init);
      PutSpec(PutAll([], init), last.0, last.1);
    }
  }

  /** `set(exclude.split(','))`, or the empty set when `--exclude` is not
      given. */
  function ExcludeSet(exclude: Option<string>): set<string>
  {
    match exclude
    case None => {}
    case Some(s) => set name | name in Split(s, ",")
  }

  /** One line of the requirements file: nothing for a comment; otherwise the
      stripped line must split on "==" into a name and a version. */
  function ParseLine(line: string): Result<Option<Pin>, Error>
  {
    if StartsWith(line, "#") then Ok(None)
    else
      var parts := Split(RStrip(line), "==");
      if |parts| != 2 then Err(Unpack(|parts|)) else Ok(Some((parts[0], parts[1])))
  }

  /** `name==version` followed by a line break reads back as that pin, when
      the name does not start a comment and neither part holds a `=` or ends
      in white space. */
  lemma LineRoundTrip(name: string, version: string)
    requires !StartsWith(name, "#") && Lacks(name, '=') && Lacks(version, '=')
    requires version == [] || !IsSpace(version[|version| - 1])
    ensures ParseLine(name + "==" + version + "\n") == Ok(Some((name, version)))
  {
    LineParts([name, version]);
    assert [name, version][1..] == [version];
  }

  /** A line made of parts joined by "==" unpacks exactly when there are two
      of them; otherwise it fails with their number. */
  lemma LineParts(parts: seq<string>)
    requires |parts| >= 2 && forall k :: 0 <= k < |parts| ==> Lacks(parts[k], '=')
    requires !StartsWith(parts[0], "#")
    requires var last := parts[|parts| - 1]; last == [] || !IsSpace(last[|last| - 1])
    ensures ParseLine(Join("==", parts) + "\n") ==
      (if |parts| == 2 then Ok(Some((parts[0], parts[1]))) else Err(Unpack(|parts|)))
  {
    var line := Join("==", parts);
    SplitJoin(parts, "==");
    var init, last := parts[..|parts| - 1], parts[|parts| - 1];
    assert init + [last] == parts;
    JoinSnoc("==", init, last);
    var front := Join("==", init) + "==";
    assert line == front + last;
    if last == [] {
      assert line[|line| - 1] == front[|front| - 1] == '=';
      assert !IsSpace('=');
    } else {
      assert line[|line| - 1] == last[|last| - 1];
      assert !IsSpace(last[|last| - 1]);
    }
    assert !IsSpace(line[|line| - 1]);
    RStripLineBreak(line);
    JoinCons("==", parts[0], parts[1..]);
    assert [parts[0]] + parts[1..] == parts;
    NotComment(parts[0], Join("==", parts[1..]));
  }

  lemma RStripLineBreak(s: string)
    requires s != [] && !IsSpace(s[|s| - 1])
    ensures RStrip(s + "\n") == s
  {
    assert (s + "\n")[..|s|] == s;
  }

  /** A blank line fails to unpack: it strips to "", one part. */
  lemma BlankLineFails(line: string)
    requires forall k :: 0 <= k < |line| ==> IsSpace(line[k])
    ensures ParseLine(line) == Err(Unpack(1))
  {
    if line != [] {
      assert line[0] != '#';
      assert line[..1] != "#";
    }
    assert Split(RStrip(line), "==") == [""];
  }

  lemma NotComment(name: string, rest: string)
    requires !StartsWith(name, "#")
    ensures !StartsWith(name + "==" + rest + "\n", "#")
  {
    var line := name + "==" + rest + "\n";
    if name == [] {
      assert line[0] == '=';
    } else {
      assert line[..1] == name[..1];
    }
  }

  /** The pin goes to the requirements unless its name is excluded, in which
      case it is set aside. */
  function Take(p: Parsed, pin: Pin, exclude: set<string>): Parsed
  {
    if pin.0 !in exclude then Parsed(Put(p.requirements, pin.0, pin.1), p.excluded)
    else Parsed(p.requirements, p.excluded + [pin])
  }

  /** The main loop over the lines: it stops at the first line that fails to
      unpack. */
  function Scan(lines: seq<string>, exclude: set<string>): Result<Parsed, Error>
  {
    if lines == [] then Ok(Parsed([], []))
    else
      match Scan(lines[..|lines| - 1], exclude)
      case Err(e) => Err(e)
      case Ok(p) =>
        match ParseLine(lines[|lines| - 1])
        case Err(e) => Err(e)
        case Ok(None) => Ok(p)
        case Ok(Some(pin)) => Ok(Take(p, pin, exclude))
  }

  /** The pins of the file, in order, or the first line's failure. */
  function Pins(lines: seq<string>): Result<seq<Pin>, Error>
  {
    if lines == [] then Ok([])
    else
      match Pins(lines[..|lines| - 1])
      case Err(e) => Err(e)
      case Ok(pins) =>
        match ParseLine(lines[|lines| - 1])
        case Err(e) => Err(e)
        case Ok(None) => Ok(pins)
        case Ok(Some(pin)) => Ok(pins + [pin])
  }

  /** The pins whose name is not excluded, in order. */
  function Kept(pins: seq<Pin>, exclude: set<string>): seq<Pin>
  {
    if pins == [] then []
    else Kept(pins[..|pins| - 1], exclude) + if pins[|pins| - 1].0 !in exclude then [pins[|pins| - 1]] else []
  }

  /** The pins whose name is excluded, in order. */
  function Dropped(pins: seq<Pin>, exclude: set<string>): seq<Pin>
  {
    if pins == [] then []
    else Dropped(pins[..|pins| - 1], exclude) + if pins[|pins| - 1].0 in exclude then [pins[|pins| - 1]] else []
  }

  /** The loop reads the whole file exactly when every line unpacks; the
      requirements are then the dict the kept pins build, and the excluded
      list is the excluded pins in file order. */
  lemma {:induction false} ScanSpec(lines: seq<string>, exclude: set<string>)
    ensures Scan(lines, exclude).Ok? <==> Pins(lines).Ok?
    ensures Scan(lines, exclude).Err? ==> Scan(lines, exclude).error == Pins(lines).error
    ensures Pins(lines).Ok? ==> Scan(lines, exclude).value == Sorted(Pins(lines).value, exclude)
  {
    if lines != [] {
      var init := lines[..|lines| - 1];
      ScanSpec(init, exclude);
      if Pins(init).Ok? {
        var line := ParseLine(lines[|lines| - 1]);
        if line.Ok? && line.value.Some? {
          SortedSnoc(Pins(init).value, line.value.value, exclude);
        }
      }
    }
  }

  /** Where the pins end up: the dict the kept ones build, and the excluded
      ones in file order. */
  function Sorted(pins: seq<Pin>, exclude: set<string>): Parsed
  {
    Parsed(PutAll([], Kept(pins, exclude)), Dropped(pins, exclude))
  }

  lemma SortedSnoc(pins: seq<Pin>, pin: Pin, exclude: set<string>)
    ensures Sorted(pins + [pin], exclude) == Take(Sorted(pins, exclude), pin, exclude)
  {
    var all := pins + [pin];
    assert all[..|pins|] == pins;
    var kept := Kept(pins, exclude);
    if pin.0 !in exclude {
      assert (kept + [pin])[..|kept|] == kept;
    } else {
      assert kept + [] == kept;
    }
  }

  /** The loop stops for good at the first line that fails to unpack. */
  lemma {:induction false} ScanStops(lines: seq<string>, j: nat, exclude: set<string>)
    requires j <= |lines| && Scan(lines[..j], exclude).Err?
    ensures Scan(lines, exclude) == Scan(lines[..j], exclude)
  {
    if j < |lines| {
      assert lines[..|lines| - 1][..j] == lines[..j];
      ScanStops(lines[..|lines| - 1], j, exclude);
    } else {
      assert lines[..j] == lines;
    }
  }

  /** Every pin goes to exactly one side: the requirements never hold an
      excluded name, and the excluded list holds nothing else. */
  lemma {:induction false} Partition(pins: seq<Pin>, exclude: set<string>)
    ensures |Kept(pins, exclude)| + |Dropped(pins, exclude)| == |pins|
    ensures forall k :: 0 <= k < |Kept(pins, exclude)| ==> Kept(pins, exclude)[k].0 !in exclude
    ensures forall k :: 0 <= k < |Dropped(pins, exclude)| ==> Dropped(pins, exclude)[k].0 in exclude
    ensures forall name :: name in Keys(PutAll([], Kept(pins, exclude))) ==> name !in exclude
  {
    if pins != [] {
      Partition(pins[..|pins| - 1], exclude);
    }
    var kept := Kept(pins, exclude);
    PutAllSpec([], kept);
    forall name | name in Keys(kept) ensures name !in exclude {
      KeysIn(kept, name);
    }
  }

  lemma {:induction false} KeysIn<V>(fields: seq<(string, V)>, name: string)
    requires name in Keys(fields)
    ensures exists k :: 0 <= k < |fields| && fields[k].0 == name
  {
    if fields[0].0 != name {
      KeysIn(fields[1..], name);
      var k :| 0 <= k < |fields[1..]| && fields[1..][k].0 == name;
      assert fields[k + 1].0 == name;
    }
  }

  /** `f'{package_name}={value}'` */
  function Dependency(pin: Pin): string
  {
    pin.0 + "=" + pin.1
  }

  /** A dependency splits back on "=" into its name and version, when
      neither holds a `=`. */
  lemma DependencyParses(pin: Pin)
    requires Lacks(pin.0, '=') && Lacks(pin.1, '=')
    ensures Split(Dependency(pin), "=") == [pin.0, pin.1]
  {
    SplitJoin([pin.0, pin.1], "=");
  }

  /** The dependency list, in the dict's order. */
  function Dependencies(d: Dict): (r: seq<string>)
  {
    if d == [] then [] else Dependencies(d[..|d| - 1]) + [Dependency(d[|d| - 1])]
  }

  /** One dependency per dict item, at the same position. */
  lemma {:induction false} DependenciesSpec(d: Dict)
    ensures |Dependencies(d)| == |d|
    ensures forall k :: 0 <= k < |d| ==> Dependencies(d)[k] == Dependency(d[k])
  {
    if d != [] {
      DependenciesSpec(d[..|d| - 1]);
    }
  }

  /** The strings of a list. */
  function Strs(items: seq<string>): (r: seq<Value>)
  {
    if items == [] then [] else [Str(items[0])] + Strs(items[1..])
  }

  /** The texts of a list of strings. */
  function Texts(items: seq<Value>): seq<string>
  {
    if items == [] then [] else [if items[0].Str? then items[0].s else ""] + Texts(items[1..])
  }

  lemma {:induction false} TextsStrs(items: seq<string>)
    ensures Texts(Strs(items)) == items
  {
    if items != [] {
      TextsStrs(items[1..]);
    }
  }

  /** The dict `write_yaml` dumps: `name`, then `channels` when given, then
      `dependencies`. */
  function Environment(name: string, requirements: Dict, channels: Option<string>): Value
  {
    Mapping([("name", Str(name))]
      + (if channels.Some? then [("channels", List(Strs(Split(channels.value, ","))))] else [])
      + [("dependencies", List(Strs(Dependencies(requirements))))])
  }

  /** The keys come in the order `name`, `channels` (only when given),
      `dependencies`; the channels joined back by "," give the argument, and
      the dependencies are the requirements' items in order. */
  lemma EnvironmentSpec(name: string, requirements: Dict, channels: Option<string>)
    ensures Keys(Environment(name, requirements, channels).fields) ==
      ["name"] + (if channels.Some? then ["channels"] else []) + ["dependencies"]
    ensures Get(Environment(name, requirements, channels).fields, "name") == Some(Str(name))
    ensures Get(Environment(name, requirements, channels).fields, "channels").Some? <==> channels.Some?
    ensures channels.Some? ==>
      Get(Environment(name, requirements, channels).fields, "channels").value.List? &&
      Join(",", Texts(Get(Environment(name, requirements, channels).fields, "channels").value.items)) == channels.value
    ensures Get(Environment(name, requirements, channels).fields, "dependencies") ==
      Some(List(Strs(Dependencies(requirements))))
  {
    var fields := Environment(name, requirements, channels).fields;
    var deps := ("dependencies", List(Strs(Dependencies(requirements))));
    var none: seq<(string, Value)> := [];
    if channels.Some? {
      var chans := Split(channels.value, ",");
      assert fields == [("name", Str(name)), ("channels", List(Strs(chans))), deps];
      assert fields[1..] == [("channels", List(Strs(chans))), deps];
      assert fields[1..][1..] == [deps];
      assert [deps][1..] == none;
      assert Keys([deps]) == ["dependencies"] && Get([deps], "dependencies") == Some(deps.1);
      assert Keys(fields[1..]) == ["channels", "dependencies"] && Get(fields[1..], "dependencies") == Some(deps.1);
      TextsStrs(chans);
      JoinSplit(channels.value, ",");
    } else {
      assert fields == [("name", Str(name)), deps];
      assert fields[1..] == [deps];
      assert [deps][1..] == none;
      assert Keys([deps]) == ["dependencies"] && Get([deps], "channels") == None;
    }
  }

  /** `#name==version` */
  function Comment(pin: Pin): string
  {
    "#" + pin.0 + "==" + pin.1
  }

  function Comments(pins: seq<Pin>): (r: seq<string>)
    ensures |r| == |pins|
    ensures forall k :: 0 <= k < |pins| ==> r[k] == Comment(pins[k])
  {
    if pins == [] then [] else [Comment(pins[0])] + Comments(pins[1..])
  }

  /** The text appended after the dumped environment. */
  function Footer(excluded: seq<Pin>): string
  {
    if excluded == [] then ""
    else "\n# packages excluded\n" + Join("\n", Comments(excluded)) + "\n"
  }

  /** There is a footer exactly when some package was excluded; its lines
      are a blank line, the heading, one comment per excluded package in file
      order, and the empty text after the final line break. */
  lemma FooterSpec(excluded: seq<Pin>)
    requires forall k :: 0 <= k < |excluded| ==> Lacks(excluded[k].0, '\n') && Lacks(excluded[k].1, '\n')
    ensures Footer(excluded) == "" <==> excluded == []
    ensures excluded != [] ==>
      Split(Footer(excluded), "\n") == ["", "# packages excluded"] + Comments(excluded) + [""]
  {
    if excluded != [] {
      var parts := ["", "# packages excluded"] + Comments(excluded) + [""];
      FooterJoins(excluded);
      FooterPartsLack(excluded);
      SplitJoin(parts, "\n");
    }
  }

  lemma FooterJoins(excluded: seq<Pin>)
    requires excluded != []
    ensures Join("\n", ["", "# packages excluded"] + Comments(excluded) + [""]) == Footer(excluded)
  {
    JoinFramed("\n", "# packages excluded", Comments(excluded));
    assert "\n" + "# packages excluded" + "\n" == "\n# packages excluded\n";
  }

  /** Joining a blank, a heading, some lines and a blank puts a separator
      before and after the heading and after the last line. */
  lemma JoinFramed(sep: string, heading: string, lines: seq<string>)
    requires lines != []
    ensures Join(sep, ["", heading] + lines + [""]) == sep + heading + sep + Join(sep, lines) + sep
  {
    var rest := lines + [""];
    JoinSnoc(sep, lines, "");
    JoinCons(sep, heading, rest);
    JoinCons(sep, "", [heading] + rest);
    assert ["", heading] + lines + [""] == [""] + ([heading] + rest);
    var body := Join(sep, lines);
    assert body + sep + "" == body + sep;
  }

  lemma FooterPartsLack(excluded: seq<Pin>)
    requires forall k :: 0 <= k < |excluded| ==> Lacks(excluded[k].0, '\n') && Lacks(excluded[k].1, '\n')
    ensures var parts := ["", "# packages excluded"] + Comments(excluded) + [""];
      forall k :: 0 <= k < |parts| ==> Lacks(parts[k], '\n')
  {
    var parts := ["", "# packages excluded"] + Comments(excluded) + [""];
    forall k | 0 <= k < |parts| ensures Lacks(parts[k], '\n') {
      if 2 <= k < |parts| - 1 {
        var pin := excluded[k - 2];
        assert parts[k] == "#" + pin.0 + "==" + pin.1;
      }
    }
  }

  lemma JoinCons(sep: string, first: string, rest: seq<string>)
    requires rest != []
    ensures Join(sep, [first] + rest) == first + sep + Join(sep, rest)
  {
    assert ([first] + rest)[1..] == rest;
  }

  lemma {:induction false} JoinSnoc(sep: string, parts: seq<string>, last: string)
    requires parts != []
    ensures Join(sep, parts + [last]) == Join(sep, parts) + sep + last
  {
    if |parts| > 1 {
      assert (parts + [last])[1..] == parts[1..] + [last];
      JoinSnoc(sep, parts[1..], last);
    }
  }

  /** The script run on the lines of a requirements file: the environment it
      dumps and the footer it appends, or the `ValueError` of the first line
      that does not unpack. */
  function Convert(name: string, lines: seq<string>, channels: Option<string>, exclude: Option<string>)
    : Result<(Value, string), Error>
  {
    match Scan(lines, ExcludeSet(exclude))
    case Err(e) => Err(e)
    case Ok(p) => Ok((Environment(name, p.requirements, channels), Footer(p.excluded)))
  }

  /** `write_yaml`, up to the dump: the dependency list is built by a loop
      over the dict's items. */
  method WriteYaml(name: string, requirements: Dict, channels: Option<string>) returns (env: Value)
    ensures env == Environment(name, requirements, channels)
  {
    var fields := [("name", Str(name))];
    if channels.Some? {
      fields := fields + [("channels", List(Strs(Split(channels.value, ","))))];
    }
    var dependencies: seq<string> := [];
    var i := 0;
    while i < |requirements|
      invariant 0 <= i <= |requirements|
      invariant dependencies == Dependencies(requirements[..i])
    {
      assert requirements[..i + 1][..i] == requirements[..i];
      dependencies := dependencies + [Dependency(requirements[i])];
      i := i + 1;
    }
    assert requirements[..i] == requirements;
    env := Mapping(fields + [("dependencies", List(Strs(dependencies)))]);
  }

  /** The main loop over the lines of the requirements file. */
  method ReadRequirements(lines: seq<string>, exclude: set<string>) returns (r: Result<Parsed, Error>)
    ensures r == Scan(lines, exclude)
  {
    var requirements: Dict := [];
    var excluded: seq<Pin> := [];
    var i := 0;
    while i < |lines|
      invariant 0 <= i <= |lines|
      invariant Scan(lines[..i], exclude) == Ok(Parsed(requirements, excluded))
    {
      var line := lines[i];
      assert lines[..i + 1][..i] == lines[..i] && lines[..i + 1][i] == line;
      if StartsWith(line, "#") {
        i := i + 1;
        continue;
      }
      var parts := Split(RStrip(line), "==");
      if |parts| != 2 {
        ScanStops(lines, i + 1, exclude);
        return Err(Unpack(|parts|));
      }
      if parts[0] !in exclude {
        requirements := Put(requirements, parts[0], parts[1]);
      } else {
        excluded := excluded + [(parts[0], parts[1])];
      }
      i := i + 1;
    }
    assert lines[..i] == lines;
    return Ok(Parsed(requirements, excluded));
  }

  /** The script's `__main__` block, up to the dump and the write. */
  method Run(name: string, lines: seq<string>, channels: Option<string>, exclude: Option<string>)
    returns (r: Result<(Value, string), Error>)
    ensures r == Convert(name, lines, channels, exclude)
  {
    var packagesToExclude: set<string> := {};
    if exclude.Some? {
      packagesToExclude := set pkg | pkg in Split(exclude.value, ",");
    }
    var parsed := ReadRequirements(lines, packagesToExclude);
    if parsed.Err? {
      return Err(parsed.error);
    }
    var env := WriteYaml(name, parsed.value.requirements, channels);
    var footer := "";
    if parsed.value.excluded != [] {
      footer := footer + "\n# packages excluded\n";
      footer := footer + Join("\n", Comments(parsed.value.excluded));
      footer := footer + "\n";
    }
    assert footer == Footer(parsed.value.excluded);
    return Ok((env, footer));
  }
}
