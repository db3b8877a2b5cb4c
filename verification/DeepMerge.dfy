/** Merging a tenant's rules_config over the baseline's (app/services/tenant_templates/service.py). */
module DeepMerge {
  import opened Prelude
  import opened Json

  /** `_deep_merge`: override wins, nested dicts are merged key by key. */
  function Merge(base: Fields, over: Fields): (m: Fields)
    ensures m.Keys == base.Keys + over.Keys
    decreases Obj(over)
  {
    map k | k in base.Keys + over.Keys ::
      if k !in over then base[k]
      else if k in base && base[k].Obj? && over[k].Obj? then Obj(Merge(base[k].fields, over[k].fields))
      else over[k]
  }

  /** The node reached by following a sequence of keys, if there is one. */
  function At(j: Json, path: seq<string>): Option<Json>
    decreases |path|
  {
    if path == [] then Some(j)
    else if j.Obj? && path[0] in j.fields then At(j.fields[path[0]], path[1..])
    else None
  }

  lemma AtOne(a: Fields, path: seq<string>)
    requires path != []
    ensures path[..0] == [] && path[..1][1..] == []
    ensures At(Obj(a), path[..1]) == if path[0] in a then Some(a[path[0]]) else None
  {
  }

  predicate BothDicts(base: Fields, over: Fields, path: seq<string>) {
    var x, y := At(Obj(base), path), At(Obj(over), path);
    x.Some? && y.Some? && x.value.Obj? && y.value.Obj?
  }

  /** Down to key n - 1 both trees have dicts; there the override has a value and one of the two is no dict. */
  predicate CutsAt(base: Fields, over: Fields, path: seq<string>, n: nat)
    requires 0 < n <= |path|
  {
    && BothDicts(base, over, path[..n - 1])
    && !BothDicts(base, over, path[..n])
    && At(Obj(over), path[..n]).Some?
  }

  predicate Overrides(base: Fields, over: Fields, path: seq<string>) {
    exists n :: 0 < n <= |path| && CutsAt(base, over, path, n)
  }

  /** What a path shows in the merged tree, said without the merge. */
  ghost predicate ShowsPathwise(base: Fields, over: Fields, path: seq<string>) {
    var x, y := At(Obj(base), path), At(Obj(over), path);
    At(Obj(Merge(base, over)), path) ==
      if BothDicts(base, over, path) then Some(Obj(Merge(x.value.fields, y.value.fields)))
      else if Overrides(base, over, path) then y
      else x
  }

  lemma {:induction false} MergePathwise(base: Fields, over: Fields, path: seq<string>)
    ensures ShowsPathwise(base, over, path)
    decreases |path|
  {
    if path != [] {
      var k, rest := path[0], path[1..];
      AtOne(base, path);
      AtOne(over, path);
      if k in base && k in over && base[k].Obj? && over[k].Obj? {
        MergePathwise(base[k].fields, over[k].fields, rest);
        OverridesBelow(base, over, path);
      } else if k in over {
        assert CutsAt(base, over, path, 1);
      } else {
        forall n | 0 < n <= |path| ensures !CutsAt(base, over, path, n) {
          assert path[..n][0] == k;
        }
      }
    }
  }

  /** Below a pair of dicts, the cut is where the sub-trees have theirs. */
  lemma OverridesBelow(base: Fields, over: Fields, path: seq<string>)
    requires path != [] && path[0] in base && path[0] in over
    requires base[path[0]].Obj? && over[path[0]].Obj?
    ensures Overrides(base, over, path) <==>
            Overrides(base[path[0]].fields, over[path[0]].fields, path[1..])
  {
    var b, o, rest := base[path[0]].fields, over[path[0]].fields, path[1..];
    AtOne(base, path);
    AtOne(over, path);
    assert !CutsAt(base, over, path, 1);
    forall n | 1 < n <= |path| ensures CutsAt(base, over, path, n) <==> CutsAt(b, o, rest, n - 1) {
      assert path[..n][1..] == rest[..n - 1];
      assert path[..n - 1][1..] == rest[..n - 1 - 1];
    }
    if n :| 0 < n <= |rest| && CutsAt(b, o, rest, n) {
      assert CutsAt(base, over, path, n + 1);
    }
  }

  /** Merging a tree with itself changes nothing. */
  lemma {:induction false} MergeSelf(a: Fields)
    ensures Merge(a, a) == a
    decreases Obj(a)
  {
    forall k | k in a && a[k].Obj? ensures Merge(a[k].fields, a[k].fields) == a[k].fields {
      MergeSelf(a[k].fields);
    }
  }

  /** Applying the same override again changes nothing. */
  lemma {:induction false} MergeTwice(a: Fields, b: Fields)
    ensures Merge(Merge(a, b), b) == Merge(a, b)
    decreases Obj(b)
  {
    forall k | k in b && b[k].Obj?
      ensures k in a && a[k].Obj? ==>
              Merge(Merge(a[k].fields, b[k].fields), b[k].fields) == Merge(a[k].fields, b[k].fields)
      ensures Merge(b[k].fields, b[k].fields) == b[k].fields
    {
      MergeSelf(b[k].fields);
      if k in a && a[k].Obj? {
        MergeTwice(a[k].fields, b[k].fields);
      }
    }
  }
}
