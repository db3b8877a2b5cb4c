/**
  The passes of `_advance_run` (app/services/verifications/service.py:356-392): they always end, they end at
  a quiescent table, the order of the rows does not matter, and what stays pending is exactly what no order
  could ever have started.
 */
module VerificationAdvance {
  import opened Prelude
  import opened VerificationModel
  import opened VerificationScheduler

  /** The listing order of the rows, each listed once. */
  ghost predicate Lists(order: seq<string>, rows: Rows) {
    NoDuplicates(order) && forall k :: k in order <==> k in rows
  }

  /** One pass of the for loop from position i on; it stops after a step that now waits for its user. */
  function PassFrom(ctx: Context, rows: Rows, order: seq<string>, i: nat): (Rows, bool)
    requires i <= |order|
    decreases |order| - i
  {
    if i == |order| then (rows, false)
    else
      var k := order[i];
      if !Ready(rows, k) then PassFrom(ctx, rows, order, i + 1)
      else
        var rows' := Fire(ctx, rows, k);
        if Waiting(rows'[k]) then (rows', true)
        else (PassFrom(ctx, rows', order, i + 1).0, true)
  }

  lemma PassUnfolds(ctx: Context, rows: Rows, order: seq<string>, i: nat)
    requires i <= |order|
    ensures PassFrom(ctx, rows, order, i) ==
            if i == |order| then (rows, false)
            else if !Ready(rows, order[i]) then PassFrom(ctx, rows, order, i + 1)
            else if Waiting(Fire(ctx, rows, order[i])[order[i]]) then (Fire(ctx, rows, order[i]), true)
            else (PassFrom(ctx, Fire(ctx, rows, order[i]), order, i + 1).0, true)
  {
    hide Execute;
  }

  /** A pass is a schedule; it is empty only when nothing from position i on is ready. */
  lemma {:induction false} PassSchedules(ctx: Context, rows: Rows, order: seq<string>, i: nat)
      returns (ks: seq<string>)
    requires i <= |order|
    ensures var (rows', progress) := PassFrom(ctx, rows, order, i);
            && Schedule(ctx, rows, ks) && After(ctx, rows, ks) == rows'
            && progress == (ks != [])
    ensures ks == [] ==> forall j :: i <= j < |order| ==> !Ready(rows, order[j])
    decreases |order| - i
  {
    if i == |order| {
      ks := [];
    } else if !Ready(rows, order[i]) {
      ks := PassSchedules(ctx, rows, order, i + 1);
    } else {
      var rows' := Fire(ctx, rows, order[i]);
      var rest := [];
      if !Waiting(rows'[order[i]]) {
        rest := PassSchedules(ctx, rows', order, i + 1);
      }
      ks := [order[i]] + rest;
      assert ks[1..] == rest;
    }
  }

  lemma PassKeeps(ctx: Context, rows: Rows, order: seq<string>)
    ensures var (rows', progress) := PassFrom(ctx, rows, order, 0);
            && Keeps(rows, rows')
            && (progress ==> Unstarted(rows') < Unstarted(rows))
  {
    var ks := PassSchedules(ctx, rows, order, 0);
    ScheduleKeeps(ctx, rows, ks);
  }

  /** The outer loop: passes until one makes no progress. */
  function AdvanceRows(ctx: Context, rows: Rows, order: seq<string>): Rows
    decreases Unstarted(rows)
  {
    var (rows', progress) := PassFrom(ctx, rows, order, 0);
    PassKeeps(ctx, rows, order);
    if progress then AdvanceRows(ctx, rows', order) else rows'
  }

  lemma {:induction false} ScheduleConcat(ctx: Context, rows: Rows, ks: seq<string>, ls: seq<string>)
    requires Schedule(ctx, rows, ks) && Schedule(ctx, After(ctx, rows, ks), ls)
    ensures Schedule(ctx, rows, ks + ls)
    ensures After(ctx, rows, ks + ls) == After(ctx, After(ctx, rows, ks), ls)
    decreases |ks|
  {
    if ks == [] {
      assert ks + ls == ls;
    } else {
      assert (ks + ls)[0] == ks[0] && (ks + ls)[1..] == ks[1..] + ls;
      ScheduleConcat(ctx, Fire(ctx, rows, ks[0]), ks[1..], ls);
    }
  }

  /** The loop executes a complete schedule: it never stops while some step could still be started. */
  lemma {:induction false} AdvanceCompletes(ctx: Context, rows: Rows, order: seq<string>) returns (ks: seq<string>)
    requires forall k :: k in rows ==> k in order
    ensures Schedule(ctx, rows, ks) && After(ctx, rows, ks) == AdvanceRows(ctx, rows, order)
    ensures Quiescent(AdvanceRows(ctx, rows, order))
    decreases Unstarted(rows)
  {
    var (rows', progress) := PassFrom(ctx, rows, order, 0);
    ks := PassSchedules(ctx, rows, order, 0);
    PassKeeps(ctx, rows, order);
    if progress {
      assert forall k :: k in rows' ==> k in PlanOf(rows');
      var ls := AdvanceCompletes(ctx, rows', order);
      ScheduleConcat(ctx, rows, ks, ls);
      ks := ks + ls;
    } else {
      forall k | k in rows ensures !Ready(rows, k) {
        var j :| 0 <= j < |order| && order[j] == k;
      }
    }
  }

  lemma AdvanceKeeps(ctx: Context, rows: Rows, order: seq<string>)
    requires forall k :: k in rows ==> k in order
    ensures Keeps(rows, AdvanceRows(ctx, rows, order))
    ensures WellStarted(rows) ==> WellStarted(AdvanceRows(ctx, rows, order))
  {
    var ks := AdvanceCompletes(ctx, rows, order);
    ScheduleKeeps(ctx, rows, ks);
  }

  /** The rows end up the same whatever order the database lists them in. */
  lemma AdvanceOrderIndependent(ctx: Context, rows: Rows, order: seq<string>, order': seq<string>)
    requires WellStarted(rows) && ReadsComparable(PlanOf(rows))
    requires Lists(order, rows) && Lists(order', rows)
    ensures AdvanceRows(ctx, rows, order) == AdvanceRows(ctx, rows, order')
  {
    var ks := AdvanceCompletes(ctx, rows, order);
    var ls := AdvanceCompletes(ctx, rows, order');
    Confluence(ctx, rows, ks, ls);
  }

  // ----- which steps can ever be started -----

  /** The keys whose chains of dependencies all bottom out within n levels. */
  function Level(plan: Plan, n: nat): set<string> {
    if n == 0 then {}
    else set k | k in plan && forall d :: d in plan[k].dependsOn ==> d in Level(plan, n - 1)
  }

  /** No chain of dependencies from k runs into a cycle or into a step that does not exist. */
  ghost predicate Grounded(plan: Plan, k: string) {
    exists n: nat :: k in Level(plan, n)
  }

  lemma {:induction false} LevelGrows(plan: Plan, m: nat, n: nat)
    requires m <= n
    ensures Level(plan, m) <= Level(plan, n)
    decreases m
  {
    if m > 0 {
      LevelGrows(plan, m - 1, n - 1);
    }
  }

  lemma {:induction false} CommonLevel(plan: Plan, deps: seq<string>) returns (n: nat)
    requires forall d :: d in deps ==> Grounded(plan, d)
    ensures forall d :: d in deps ==> d in Level(plan, n)
  {
    if deps == [] {
      n := 0;
    } else {
      var m := CommonLevel(plan, deps[1..]);
      assert Grounded(plan, deps[0]);
      var l: nat :| deps[0] in Level(plan, l);
      n := if m < l then l else m;
      LevelGrows(plan, m, n);
      LevelGrows(plan, l, n);
      forall d | d in deps ensures d in Level(plan, n) {
        if d != deps[0] { assert d in deps[1..]; }
      }
    }
  }

  ghost predicate StartedGrounded(rows: Rows) {
    forall k :: k in rows && !Startable(rows[k]) ==> Grounded(PlanOf(rows), k)
  }

  lemma FireGrounds(ctx: Context, rows: Rows, k: string)
    requires Ready(rows, k) && StartedGrounded(rows)
    ensures StartedGrounded(Fire(ctx, rows, k))
  {
    FireKeeps(ctx, rows, k);
    var plan := PlanOf(rows);
    var n := CommonLevel(plan, plan[k].dependsOn);
    assert k in Level(plan, n + 1);
    var rows' := Fire(ctx, rows, k);
    forall x | x in rows' && !Startable(rows'[x]) ensures Grounded(PlanOf(rows'), x) {
      assert x == k || x !in Unstarted(rows);
    }
  }

  lemma {:induction false} ScheduleGrounds(ctx: Context, rows: Rows, ks: seq<string>)
    requires Schedule(ctx, rows, ks) && StartedGrounded(rows)
    ensures StartedGrounded(After(ctx, rows, ks))
    decreases |ks|
  {
    if ks != [] {
      FireGrounds(ctx, rows, ks[0]);
      ScheduleGrounds(ctx, Fire(ctx, rows, ks[0]), ks[1..]);
    }
  }

  lemma {:induction false} GroundedSettles(rows: Rows, k: string, n: nat)
    requires Quiescent(rows) && forall x :: x in rows ==> !Waiting(rows[x])
    requires k in Level(PlanOf(rows), n)
    ensures k in rows && Terminal(rows[k])
    decreases n
  {
    forall d | d in rows[k].def.dependsOn ensures d in rows && Terminal(rows[d]) {
      GroundedSettles(rows, d, n - 1);
    }
    assert !Ready(rows, k);
  }

  /** When nobody is waited for, the terminal steps are exactly the grounded ones. */
  lemma SettledIffGrounded(rows: Rows)
    requires Quiescent(rows) && StartedGrounded(rows)
    requires forall x :: x in rows ==> !Waiting(rows[x])
    ensures forall k :: k in rows ==> (Terminal(rows[k]) <==> Grounded(PlanOf(rows), k))
  {
    forall k | k in rows ensures Terminal(rows[k]) <==> Grounded(PlanOf(rows), k) {
      if Grounded(PlanOf(rows), k) {
        var n: nat :| k in Level(PlanOf(rows), n);
        GroundedSettles(rows, k, n);
      }
    }
  }

  /** A ranking that every dependency lowers, over steps that all exist, grounds every step. */
  ghost predicate Acyclic(plan: Plan, rank: map<string, nat>) {
    && rank.Keys == plan.Keys
    && forall k, d :: k in plan && d in plan[k].dependsOn ==> d in plan && rank[d] < rank[k]
  }

  lemma {:induction false} AcyclicGrounded(plan: Plan, rank: map<string, nat>, k: string)
    requires Acyclic(plan, rank) && k in plan
    ensures k in Level(plan, rank[k] + 1) && Grounded(plan, k)
    decreases rank[k]
  {
    forall d | d in plan[k].dependsOn ensures d in Level(plan, rank[k]) {
      AcyclicGrounded(plan, rank, d);
      LevelGrows(plan, rank[d] + 1, rank[k]);
    }
  }

  /** Conversely, a table whose steps are all grounded has such a ranking. */
  lemma GroundedAcyclic(plan: Plan) returns (rank: map<string, nat>)
    requires forall k :: k in plan ==> Grounded(plan, k)
    ensures Acyclic(plan, rank)
  {
    hide LeastLevel;
    rank := map k | k in plan :: LeastLevel(plan, k);
    forall k, d | k in plan && d in plan[k].dependsOn ensures d in plan && rank[d] < rank[k] {
      DependencyBelow(plan, k, d);
    }
  }

  lemma DependencyBelow(plan: Plan, k: string, d: string)
    requires Grounded(plan, k) && k in plan && d in plan[k].dependsOn
    ensures d in plan && Grounded(plan, d) && LeastLevel(plan, d) < LeastLevel(plan, k)
  {
    hide LeastLevel;
    var n := LeastLevel(plan, k);
    assert d in Level(plan, n - 1);
    LeastLevelBelow(plan, d, n - 1);
  }

  ghost function LevelFrom(plan: Plan, k: string, from: nat, bound: nat): (n: nat)
    requires from <= bound && k in Level(plan, bound)
    requires forall m :: 0 <= m < from ==> k !in Level(plan, m)
    ensures k in Level(plan, n) && forall m :: 0 <= m < n ==> k !in Level(plan, m)
    decreases bound - from
  {
    if k in Level(plan, from) then from else LevelFrom(plan, k, from + 1, bound)
  }

  ghost function LeastLevel(plan: Plan, k: string): (n: nat)
    requires Grounded(plan, k)
    ensures n > 0 && k in Level(plan, n) && forall m :: 0 <= m < n ==> k !in Level(plan, m)
  {
    var bound: nat :| k in Level(plan, bound);
    LevelFrom(plan, k, 0, bound)
  }

  lemma LeastLevelBelow(plan: Plan, k: string, n: nat)
    requires k in Level(plan, n)
    ensures k in plan && Grounded(plan, k) && LeastLevel(plan, k) <= n
  {
  }
}
