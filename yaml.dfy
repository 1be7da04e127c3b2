/** A YAML document as `yaml.load` hands it to the program. Strings, lists and
    mappings are told apart; every other scalar (a number, a boolean, `null`)
    is kept only as the text Python's `str()` gives it, because the program can
    neither iterate over it nor index it. A mapping keeps the order of its keys,
    as a Python dict does; the loader gives it distinct keys. */
module Yaml {
  import opened Wrappers

  datatype Value =
    | Str(s: string)
    | Scalar(text: string)
    | List(items: seq<Value>)
    | Mapping(fields: seq<(string, Value)>)

  /** `m[key]` on a mapping or a dict: the value bound to `key`, if any. */
  function Get<V>(fields: seq<(string, V)>, key: string): Option<V>
  {
    if fields == [] then None
    else if fields[0].0 == key then Some(fields[0].1)
    else Get(fields[1..], key)
  }

  /** The keys of a mapping, in order: what iterating over a dict yields. */
  function Keys<V>(fields: seq<(string, V)>): seq<string>
  {
    if fields == [] then [] else [fields[0].0] + Keys(fields[1..])
  }

  /** A key is bound exactly when it is one of the keys. */
  lemma {:induction false} GetKeys<V>(fields: seq<(string, V)>, key: string)
    ensures Get(fields, key).Some? <==> key in Keys(fields)
  {
    if fields != [] {
      GetKeys(fields[1..], key);
    }
  }

  /** The one-character strings iterating over a Python string yields. */
  function Chars(s: string): (r: seq<Value>)
    ensures |r| == |s|
    ensures forall k :: 0 <= k < |s| ==> r[k] == Str([s[k]])
  {
    if s == [] then [] else [Str([s[0]])] + Chars(s[1..])
  }
}
