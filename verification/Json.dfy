/** JSON documents as Python sees them, and the dotted-path lookup of the fact tree. */
module Json {
  import opened PyStrings

  datatype Json =
    | Null
    | Bool(b: bool)
    | Num(n: real)
    | Str(s: string)
    | Arr(items: seq<Json>)
    | Obj(fields: Fields)

  type Fields = map<string, Json>

  /** `bool(value)` */
  predicate Truthy(j: Json) {
    match j
    case Null => false
    case Bool(b) => b
    case Num(n) => n != 0.0
    case Str(s) => s != ""
    case Arr(items) => items != []
    case Obj(fields) => fields != map[]
  }

  /** Python's `==` identifies True with 1 and False with 0, at every depth. */
  function Normal(j: Json): Json {
    match j
    case Bool(b) => Num(if b then 1.0 else 0.0)
    case Arr(items) => Arr(seq(|items|, i requires 0 <= i < |items| => Normal(items[i])))
    case Obj(fields) => Obj(map k | k in fields :: Normal(fields[k]))
    case _ => j
  }

  predicate PyEq(a: Json, b: Json) {
    Normal(a) == Normal(b)
  }

  function GetOrNull(fields: Fields, key: string): Json {
    if key in fields then fields[key] else Null
  }

  /** The loop of `_lookup_mapping` over the parts of a path; empty parts are skipped. */
  function Walk(current: Json, parts: seq<string>): Json
    decreases |parts|
  {
    if parts == [] then current
    else if parts[0] == "" then Walk(current, parts[1..])
    else if !current.Obj? then Null
    else
      var next := GetOrNull(current.fields, parts[0]);
      if next.Null? then Null else Walk(next, parts[1..])
  }

  /** `_lookup_mapping` */
  function LookupMapping(mapping: Json, path: string): Json {
    if path == "" then mapping else Walk(mapping, Split(path, DOT))
  }

  /** A path written as dot-free, non-empty names joined by dots walks exactly those names. */
  lemma LookupNames(mapping: Json, names: seq<string>)
    requires names != [] && forall p :: p in names ==> p != "" && '.' !in p
    ensures LookupMapping(mapping, Join(names, DOT)) == Walk(mapping, names)
  {
    SplitJoin(names, '.');
    assert Join(names, DOT) != "" by {
      assert names[0] in names;
    }
  }
}
