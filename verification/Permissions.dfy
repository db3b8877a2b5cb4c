/** Permission closure and the maker/checker rules (app/core/authz.py). */
module Permissions {

  type Graph<P> = map<P, set<P>>

  function Successors<P>(g: Graph<P>, p: P): set<P> {
    if p in g then g[p] else {}
  }

  /** A walk along implication edges. */
  predicate IsPath<P(==)>(g: Graph<P>, path: seq<P>) {
    && path != []
    && forall i :: 0 <= i < |path| - 1 ==> path[i + 1] in Successors(g, path[i])
  }

  ghost predicate Connects<P>(g: Graph<P>, start: set<P>, path: seq<P>, p: P) {
    IsPath(g, path) && path[0] in start && path[|path| - 1] == p
  }

  ghost predicate Reachable<P(!new)>(g: Graph<P>, start: set<P>, p: P) {
    exists path :: Connects(g, start, path, p)
  }

  lemma ReachSelf<P(!new)>(g: Graph<P>, start: set<P>, p: P)
    requires p in start
    ensures Reachable(g, start, p)
  {
    assert Connects(g, start, [p], p);
  }

  lemma ReachNext<P(!new)>(g: Graph<P>, start: set<P>, p: P, q: P)
    requires Reachable(g, start, p) && q in Successors(g, p)
    ensures Reachable(g, start, q)
  {
    var path :| Connects(g, start, path, p);
    assert Connects(g, start, path + [q], q);
  }

  ghost predicate Closed<P>(g: Graph<P>, s: set<P>) {
    forall p :: p in s ==> Successors(g, p) <= s
  }

  /** A closed set that contains the start contains everything a path leads to. */
  lemma {:induction false} ClosedContains<P(!new)>(g: Graph<P>, s: set<P>, path: seq<P>)
    requires Closed(g, s) && IsPath(g, path) && path[0] in s
    ensures path[|path| - 1] in s
  {
    if |path| > 1 {
      assert path[1] in Successors(g, path[0]);
      ClosedContains(g, s, path[1..]);
    }
  }

  ghost function Nodes<P>(g: Graph<P>, start: set<P>): set<P> {
    start + set p, q | p in g && q in g[p] :: q
  }

  /** `list(s)`, in whatever order */
  method ToList<P(==)>(s: set<P>) returns (l: seq<P>)
    ensures forall p :: p in l <==> p in s
  {
    l := [];
    var rest := s;
    while rest != {}
      invariant rest <= s && forall p :: p in l <==> p in s - rest
      decreases rest
    {
      var p :| p in rest;
      rest := rest - {p};
      l := l + [p];
    }
  }

  /** The inner loop: pushes the successors that have not been visited yet. */
  method Push<P(==)>(stack: seq<P>, nexts: seq<P>, visited: set<P>) returns (stack': seq<P>)
    ensures forall q :: q in stack' <==> q in stack || (q in nexts && q !in visited)
  {
    stack' := stack;
    for i := 0 to |nexts|
      invariant forall q :: q in stack' <==> q in stack || (q in nexts[..i] && q !in visited)
    {
      assert nexts[..i + 1] == nexts[..i] + [nexts[i]];
      if nexts[i] !in visited {
        stack' := stack' + [nexts[i]];
      }
    }
    assert nexts[..|nexts|] == nexts;
  }

  /** What is on the stack or has been visited is reachable, and among the finitely many nodes at hand. */
  ghost predicate ReachedNode<P(!new)>(g: Graph<P>, start: set<P>, p: P) {
    Reachable(g, start, p) && p in Nodes(g, start)
  }

  lemma ReachedNext<P(!new)>(g: Graph<P>, start: set<P>, p: P, q: P)
    requires ReachedNode(g, start, p) && q in Successors(g, p)
    ensures ReachedNode(g, start, q)
  {
    ReachNext(g, start, p, q);
  }

  lemma ClosedIsComplete<P(!new)>(g: Graph<P>, start: set<P>, s: set<P>)
    requires Closed(g, s) && start <= s
    ensures forall p :: Reachable(g, start, p) ==> p in s
  {
    forall p | Reachable(g, start, p) ensures p in s {
      var path :| Connects(g, start, path, p);
      ClosedContains(g, s, path);
    }
  }

  /** `_permission_closure`: exactly what is reachable, whatever order the sets are walked in. */
  method PermissionClosure<P(==,!new)>(g: Graph<P>, start: set<P>) returns (visited: set<P>)
    ensures forall p :: p in visited <==> Reachable(g, start, p)
  {
    hide Reachable, Nodes, Successors;
    visited := {};
    var stack := ToList(start);
    forall p | p in stack ensures ReachedNode(g, start, p) {
      ReachedStart(g, start, p);
    }
    while stack != []
      invariant forall p :: p in visited || p in stack ==> ReachedNode(g, start, p)
      invariant forall p :: p in start ==> p in visited || p in stack
      invariant forall p, q :: p in visited && q in Successors(g, p) ==> q in visited || q in stack
      decreases Nodes(g, start) - visited, |stack|
    {
      var p := stack[|stack| - 1];
      var rest := stack[..|stack| - 1];
      assert stack == rest + [p];
      if p in visited {
        stack := rest;
        continue;
      }
      assert p in Nodes(g, start) - visited;
      visited := visited + {p};
      var nexts := ToList(Successors(g, p));
      forall q | q in nexts ensures ReachedNode(g, start, q) {
        ReachedNext(g, start, p, q);
      }
      stack := Push(rest, nexts, visited);
    }
    assert Closed(g, visited);
    ClosedIsComplete(g, start, visited);
  }

  lemma ReachedStart<P(!new)>(g: Graph<P>, start: set<P>, p: P)
    requires p in start
    ensures ReachedNode(g, start, p)
  {
    ReachSelf(g, start, p);
  }

  // ----- the closure as an operator -----

  ghost predicate IsClosure<P(!new)>(g: Graph<P>, start: set<P>, c: set<P>) {
    forall p :: p in c <==> Reachable(g, start, p)
  }

  /** A closure contains its start and is its own closure. */
  lemma ClosureIdempotent<P(!new)>(g: Graph<P>, a: set<P>, c: set<P>)
    requires IsClosure(g, a, c)
    ensures a <= c && IsClosure(g, c, c)
  {
    hide Reachable;
    forall p | p in a ensures p in c { ReachSelf(g, a, p); }
    forall p, q | p in c && q in Successors(g, p) ensures q in c { ReachNext(g, a, p, q); }
    ClosedIsComplete(g, c, c);
    forall p | p in c ensures Reachable(g, c, p) { ReachSelf(g, c, p); }
  }

  /** Granting more never reaches less. */
  lemma ClosureMonotone<P(!new)>(g: Graph<P>, a: set<P>, b: set<P>, ca: set<P>, cb: set<P>)
    requires IsClosure(g, a, ca) && IsClosure(g, b, cb) && a <= b
    ensures ca <= cb
  {
    hide Reachable;
    forall p | p in ca ensures p in cb { Widen(g, a, b, p); }
  }

  /** Nothing is reached by two grants together that neither reaches alone. */
  lemma ClosureOfUnion<P(!new)>(g: Graph<P>, a: set<P>, b: set<P>, ca: set<P>, cb: set<P>)
    requires IsClosure(g, a, ca) && IsClosure(g, b, cb)
    ensures IsClosure(g, a + b, ca + cb)
  {
    forall p ensures p in ca + cb <==> Reachable(g, a + b, p) {
      Widen(g, a, a + b, p);
      Widen(g, b, a + b, p);
      ReachEither(g, a, b, p);
    }
  }

  lemma ReachEither<P(!new)>(g: Graph<P>, a: set<P>, b: set<P>, p: P)
    ensures Reachable(g, a + b, p) ==> Reachable(g, a, p) || Reachable(g, b, p)
  {
    if Reachable(g, a + b, p) {
      var path :| Connects(g, a + b, path, p);
      assert Connects(g, a, path, p) || Connects(g, b, path, p);
    }
  }

  lemma Widen<P(!new)>(g: Graph<P>, a: set<P>, b: set<P>, p: P)
    requires a <= b
    ensures Reachable(g, a, p) ==> Reachable(g, b, p)
  {
    if Reachable(g, a, p) {
      var path :| Connects(g, a, path, p);
      assert Connects(g, b, path, p);
    }
  }

  // ----- the registry -----

  datatype Action = Create | Read | ReadOwn | ReadAll | Update | Delete | Submit | Comment | Transition
                  | Activate | Deactivate | Publish

  datatype Permission =
    | Submissions(action: Action)
    | Products(action: Action)
    | Templates(action: Action)
    | Baselines(action: Action)
    | BaselineDefinitions(action: Action)
    | Other(name: string)

  /** The implication graph inside `_permission_closure`. */
  function Implies(): Graph<Permission> {
    map[
      Submissions(ReadAll) := {Submissions(Read)},
      Submissions(Transition) := {Submissions(ReadAll)},
      Submissions(Update) := {Submissions(Read)},
      Submissions(Delete) := {Submissions(Read)},
      Submissions(Submit) := {Submissions(Read)},
      Submissions(Comment) := {Submissions(Read)},
      Products(Create) := {Products(Read)},
      Products(Update) := {Products(Read)},
      Products(Delete) := {Products(Read)},
      Products(Activate) := {Products(Read)},
      Products(Deactivate) := {Products(Read)},
      Templates(Create) := {Templates(Read)},
      Templates(Update) := {Templates(Read)},
      Templates(Publish) := {Templates(Read)},
      Baselines(Create) := {Baselines(Read)},
      Baselines(Update) := {Baselines(Read)},
      Baselines(Delete) := {Baselines(Read)},
      BaselineDefinitions(Create) := {Baselines(Read)},
      BaselineDefinitions(Update) := {Baselines(Read)},
      BaselineDefinitions(Delete) := {Baselines(Read)}]
  }

  /** `_normalize_permission` */
  function Normalize(p: Permission): Permission {
    if p == Submissions(ReadOwn) then Submissions(Read) else p
  }

  datatype Role = Maker | Checker | OtherRole

  function Forbidden(r: Role): set<Permission> {
    match r
    case Maker => {Submissions(ReadAll), Submissions(Transition)}
    case Checker => {Submissions(Create), Submissions(Update), Submissions(Delete), Submissions(Submit)}
    case OtherRole => {}
  }

  /** `validate_policy_role_permissions` for a non-blank role name. */
  method ValidateRole(role: Role, permissions: set<Permission>) returns (ok: bool)
    ensures var granted := set p | p in permissions :: Normalize(p);
            ok <==> forall f :: f in Forbidden(role) ==> !Reachable(Implies(), granted, f)
  {
    hide Implies, Reachable;
    var granted := set p | p in permissions :: Normalize(p);
    var effective := PermissionClosure(Implies(), granted);
    ok := effective * Forbidden(role) == {};
    if f :| f in Forbidden(role) && f in effective {
      assert f in effective * Forbidden(role);
    }
  }

  /** In this graph only forbidden permissions lead to a forbidden one. */
  lemma {:induction false} ForbiddenBackwards(role: Role, path: seq<Permission>)
    requires IsPath(Implies(), path) && path[|path| - 1] in Forbidden(role)
    ensures path[0] in Forbidden(role)
    decreases |path|
  {
    if |path| > 1 {
      ForbiddenBackwards(role, path[1..]);
      assert path[1] in Successors(Implies(), path[0]);
    }
  }

  /** So with the graph as it stands the closure refuses exactly the sets that contain a forbidden permission. */
  lemma AcceptedIffNoneForbidden(role: Role, granted: set<Permission>)
    ensures (forall f :: f in Forbidden(role) ==> !Reachable(Implies(), granted, f)) <==> granted !! Forbidden(role)
  {
    hide Implies;
    forall f | f in Forbidden(role) && Reachable(Implies(), granted, f) ensures !(granted !! Forbidden(role)) {
      var path :| Connects(Implies(), granted, path, f);
      ForbiddenBackwards(role, path);
      assert path[0] in granted && path[0] in Forbidden(role);
    }
    forall f | f in granted && f in Forbidden(role) ensures Reachable(Implies(), granted, f) {
      ReachSelf(Implies(), granted, f);
    }
  }

  /** What that means for the two roles. */
  lemma RolesKeptApart(granted: set<Permission>)
    ensures (forall f :: f in Forbidden(Maker) ==> !Reachable(Implies(), granted, f)) <==>
            Submissions(ReadAll) !in granted && Submissions(Transition) !in granted
    ensures (forall f :: f in Forbidden(Checker) ==> !Reachable(Implies(), granted, f)) <==>
            Submissions(Create) !in granted && Submissions(Update) !in granted
            && Submissions(Delete) !in granted && Submissions(Submit) !in granted
    ensures forall f :: f !in Forbidden(OtherRole)
  {
    hide Reachable, Implies;
    AcceptedIffNoneForbidden(Maker, granted);
    AcceptedIffNoneForbidden(Checker, granted);
    assert granted !! Forbidden(Maker) <==> Submissions(ReadAll) !in granted && Submissions(Transition) !in granted;
    assert granted !! Forbidden(Checker) <==>
           Submissions(Create) !in granted && Submissions(Update) !in granted
           && Submissions(Delete) !in granted && Submissions(Submit) !in granted;
  }

  /** What reading is for a resource; the definitions of baselines are read with them. */
  function ReadOf(p: Permission): Permission {
    match p
    case Submissions(_) => Submissions(Read)
    case Products(_) => Products(Read)
    case Templates(_) => Templates(Read)
    case Baselines(_) => Baselines(Read)
    case BaselineDefinitions(_) => Baselines(Read)
    case Other(_) => p
  }

  /** The grants that imply others. */
  function Implying(): set<Permission> {
    {Submissions(ReadAll), Submissions(Transition), Submissions(Update), Submissions(Delete), Submissions(Submit),
     Submissions(Comment), Products(Create), Products(Update), Products(Delete), Products(Activate), Products(Deactivate),
     Templates(Create), Templates(Update), Templates(Publish), Baselines(Create), Baselines(Update), Baselines(Delete),
     BaselineDefinitions(Create), BaselineDefinitions(Update), BaselineDefinitions(Delete)}
  }

  lemma ImpliesAtMost(p: Permission)
    ensures Successors(Implies(), p) <= {ReadOf(p), Submissions(ReadAll)}
    ensures Successors(Implies(), p) != {} <==> p in Implying()
    ensures Submissions(ReadAll) in Successors(Implies(), p) <==> p == Submissions(Transition)
    ensures p in Implying() && p != Submissions(Transition) ==> ReadOf(p) in Successors(Implies(), p)
  {
  }

  /** Every one of them lets its holder read the resource, by way of reading all for a transition. */
  lemma GrantsReachReading(granted: set<Permission>, p: Permission)
    requires p in granted && p in Implying()
    ensures Reachable(Implies(), granted, ReadOf(p))
    ensures p == Submissions(Transition) ==> Reachable(Implies(), granted, Submissions(ReadAll))
  {
    hide Implies, Reachable, Implying;
    ReachSelf(Implies(), granted, p);
    ImpliesAtMost(p);
    if p == Submissions(Transition) {
      ReachNext(Implies(), granted, p, Submissions(ReadAll));
      ImpliesAtMost(Submissions(ReadAll));
      assert Submissions(ReadAll) in Implying() by { ReadAllImplies(); }
      ReachNext(Implies(), granted, Submissions(ReadAll), Submissions(Read));
    } else {
      ReachNext(Implies(), granted, p, ReadOf(p));
    }
  }

  lemma ReadAllImplies()
    ensures Submissions(ReadAll) in Implying()
  {
  }
}
