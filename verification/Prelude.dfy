/** Values shared by every other module. */
module Prelude {

  datatype Option<+T> = None | Some(value: T)

  /** Python's dict: a map that remembers the order in which keys were first inserted. */
  datatype Dict<V> = Dict(keys: seq<string>, vals: map<string, V>) {

    ghost predicate Valid() {
      && (forall i, j :: 0 <= i < j < |keys| ==> keys[i] != keys[j])
      && (forall k :: k in keys <==> k in vals)
    }

    function Get(key: string): Option<V> {
      if key in vals then Some(vals[key]) else None
    }

    /** `d[key] = value`: a key that is already present keeps its place. */
    function Put(key: string, value: V): (d: Dict<V>)
      requires Valid()
      ensures d.Valid()
    {
      if key in vals then Dict(keys, vals[key := value]) else Dict(keys + [key], vals[key := value])
    }
  }

  function EmptyDict<V>(): (d: Dict<V>)
    ensures d.Valid()
  {
    Dict([], map[])
  }

  predicate NoDuplicates<T(==)>(s: seq<T>) {
    forall i, j :: 0 <= i < j < |s| ==> s[i] != s[j]
  }
}
