/**
  The fixpoint loop of `_advance_run` (app/services/verifications/service.py:356-402) seen as a rewriting
  system on step rows: which schedules exist, where they end, and that they all end in the same place.
 */
module VerificationScheduler {
  import opened Prelude
  import opened Json
  import opened VerificationModel

  type Plan = map<string, StepDef>

  function PlanOf(rows: Rows): Plan {
    map k | k in rows :: rows[k].def
  }

  /** `_deps_satisfied`: a missing dependency blocks, a failed one does not. */
  predicate DepsSatisfied(rows: Rows, def: StepDef) {
    forall d :: d in def.dependsOn ==> d in rows && Terminal(rows[d])
  }

  predicate Ready(rows: Rows, k: string) {
    k in rows && Startable(rows[k]) && DepsSatisfied(rows, rows[k].def)
  }

  predicate Quiescent(rows: Rows) {
    forall k :: k in rows ==> !Ready(rows, k)
  }

  function Fire(ctx: Context, rows: Rows, k: string): Rows
    requires k in rows
  {
    rows[k := Execute(ctx, rows, rows[k])]
  }

  function Unstarted(rows: Rows): set<string> {
    set k | k in rows && Startable(rows[k])
  }

  // ----- what executing a step does -----

  /** A step taken up does not stay pending; only challenges wait, and no challenge passes by starting. */
  predicate Started(s: Step, t: Step) {
    && t.def == s.def
    && t.attempts == s.attempts
    && !Startable(t)
    && (Waiting(t) ==> s.def.stepType.ChallengeResponse? && !s.def.adapter.OtherAdapter? && t.outcome == s.outcome)
    && (t.outcome == Some(Pass) ==> s.def.stepType.Comparison? || s.outcome == Some(Pass))
  }

  lemma PhoneStarts(ctx: Context, s: Step)
    requires s.def.stepType.ChallengeResponse? && s.def.adapter.DemoPhoneOtp?
    ensures Started(s, PhoneChallenge(ctx, s))
  {
    FailsStarts(s, MissingPhoneNumber);
    hide PhoneCode, NonBlankText, GetOrNull, Fails;
  }

  lemma FaydaStarts(ctx: Context, s: Step)
    requires s.def.stepType.ChallengeResponse? && s.def.adapter.DemoFaydaOtp?
    ensures Started(s, FaydaChallenge(ctx, s))
  {
    FailsStarts(s, MissingNationalId);
    FailsStarts(s, FaydaProfileNotFound);
    hide Registry, FaydaCode, TextOr, NonBlankText, GetOrNull, Fails;
  }

  lemma ChallengeStarts(ctx: Context, rows: Rows, s: Step)
    requires s.def.stepType.ChallengeResponse?
    ensures Started(s, StartChallenge(ctx, rows, s))
  {
    var t := s.(input := ResolveInput(ctx, rows, s.def.config.input), started := true);
    hide ResolveInput, PhoneChallenge, FaydaChallenge;
    match s.def.adapter
    case DemoPhoneOtp => PhoneStarts(ctx, t);
    case DemoFaydaOtp => FaydaStarts(ctx, t);
    case OtherAdapter =>
  }

  lemma FailsStarts(s: Step, code: ErrorCode)
    ensures Started(s, Fails(s, code))
  {
  }

  lemma GradedStarts(ctx: Context, s: Step, cs: seq<Compared>)
    requires s.def.stepType.Comparison? && cs != []
    ensures Started(s, Graded(ctx, s, cs))
  {
    hide TotalScore, AsJson, OutcomeText, Grade;
  }

  lemma ComparisonStarts(ctx: Context, rows: Rows, s: Step)
    requires s.def.stepType.Comparison?
    ensures Started(s, RunComparison(ctx, rows, s))
  {
    var pairs := s.def.config.pairs;
    FailsStarts(s, PairsMissing);
    FailsStarts(s, PairsInvalid);
    if pairs.Some? && ComparePairs(ctx, rows, pairs.value) != [] {
      GradedStarts(ctx, s, ComparePairs(ctx, rows, pairs.value));
    }
    hide ComparePairs, Graded, Fails, Started;
  }

  lemma ExecuteStarts(ctx: Context, rows: Rows, s: Step)
    ensures Started(s, Execute(ctx, rows, s))
  {
    match s.def.stepType
    case ChallengeResponse => ChallengeStarts(ctx, rows, s);
    case Comparison => ComparisonStarts(ctx, rows, s);
    case OtherType =>
  }

  /** Execution looks at other rows only through the steps that the definition reads. */
  lemma ExecuteReads(ctx: Context, rows: Rows, rows': Rows, s: Step)
    requires forall x :: Reads(s.def, x) ==> Visible(rows, x) == Visible(rows', x)
    ensures Execute(ctx, rows, s) == Execute(ctx, rows', s)
  {
    match s.def.stepType
    case ChallengeResponse =>
      var spec := s.def.config.input;
      forall k | k in spec ensures ResolveRef(ctx, rows, spec[k]) == ResolveRef(ctx, rows', spec[k]) {
        ResolveReads(ctx, rows, rows', spec[k]);
      }
      assert ResolveInput(ctx, rows, spec) == ResolveInput(ctx, rows', spec);
    case Comparison =>
      if s.def.config.pairs.Some? {
        ComparePairsReads(ctx, rows, rows', s.def.config.pairs.value);
      }
    case OtherType =>
  }

  lemma ResolveReads(ctx: Context, rows: Rows, rows': Rows, ref: Json)
    requires StepRead(ref).Some? ==> Visible(rows, StepRead(ref).value) == Visible(rows', StepRead(ref).value)
    ensures ResolveRef(ctx, rows, ref) == ResolveRef(ctx, rows', ref)
  {
  }

  lemma {:induction false} ComparePairsReads(ctx: Context, rows: Rows, rows': Rows, pairs: seq<PairEntry>)
    requires forall p, x :: p in pairs && p.Pair? && (StepRead(p.left) == Some(x) || StepRead(p.right) == Some(x))
               ==> Visible(rows, x) == Visible(rows', x)
    ensures ComparePairs(ctx, rows, pairs) == ComparePairs(ctx, rows', pairs)
  {
    if pairs != [] {
      var p := pairs[|pairs| - 1];
      ComparePairsReads(ctx, rows, rows', pairs[..|pairs| - 1]);
      if p.Pair? {
        ResolveReads(ctx, rows, rows', p.left);
        ResolveReads(ctx, rows, rows', p.right);
      }
    }
  }

  // ----- dependencies -----

  predicate DependsWithin(plan: Plan, k: string, x: string, n: nat)
    decreases n
  {
    && n > 0
    && k in plan
    && exists d :: d in plan[k].dependsOn && (d == x || DependsWithin(plan, d, x, n - 1))
  }

  /** x is a direct or indirect dependency of k. */
  ghost predicate Depends(plan: Plan, k: string, x: string) {
    exists n: nat :: DependsWithin(plan, k, x, n)
  }

  /** Two steps of which one is a direct or indirect dependency of the other, or which are the same. */
  ghost predicate Comparable(plan: Plan, k: string, x: string) {
    k == x || Depends(plan, k, x) || Depends(plan, x, k)
  }

  /** Every step reference names a step that is comparable with the one that reads it (or no step at all). */
  ghost predicate ReadsComparable(plan: Plan) {
    forall k, x :: k in plan && x in plan && Reads(plan[k], x) ==> Comparable(plan, k, x)
  }

  /** Whatever has been started had all its dependencies terminal. */
  ghost predicate WellStarted(rows: Rows) {
    forall k :: k in rows && !Startable(rows[k]) ==> DepsSatisfied(rows, rows[k].def)
  }

  lemma {:induction false} DependenciesTerminal(rows: Rows, k: string, x: string, n: nat)
    requires WellStarted(rows) && k in rows && DepsSatisfied(rows, rows[k].def)
    requires DependsWithin(PlanOf(rows), k, x, n)
    ensures x in rows && Terminal(rows[x])
    decreases n
  {
    var d :| d in rows[k].def.dependsOn && (d == x || DependsWithin(PlanOf(rows), d, x, n - 1));
    if d != x {
      DependenciesTerminal(rows, d, x, n - 1);
    }
  }

  /** What replacing a row by one that is no longer startable leaves as it was. */
  predicate Keeps(rows: Rows, rows': Rows) {
    && PlanOf(rows') == PlanOf(rows)
    && Unstarted(rows') <= Unstarted(rows)
    && (forall x :: x in rows && !Startable(rows[x]) ==> x in rows' && rows'[x] == rows[x])
  }

  lemma UpdateKeeps(rows: Rows, k: string, t: Step)
    requires Ready(rows, k) && Started(rows[k], t)
    ensures var rows' := rows[k := t];
            && Keeps(rows, rows')
            && Unstarted(rows') == Unstarted(rows) - {k}
            && (WellStarted(rows) ==> WellStarted(rows'))
  {
    var rows' := rows[k := t];
    assert forall x :: x in rows' <==> x in rows;
    if WellStarted(rows) {
      forall x | x in rows' && !Startable(rows'[x]) ensures DepsSatisfied(rows', rows'[x].def) {
        assert DepsSatisfied(rows, rows[x].def);
      }
    }
  }

  lemma FireKeeps(ctx: Context, rows: Rows, k: string)
    requires Ready(rows, k)
    ensures var rows' := Fire(ctx, rows, k);
            && Keeps(rows, rows')
            && Unstarted(rows') == Unstarted(rows) - {k}
            && (WellStarted(rows) ==> WellStarted(rows'))
  {
    ExecuteStarts(ctx, rows, rows[k]);
    UpdateKeeps(rows, k, Execute(ctx, rows, rows[k]));
  }

  /** Of two steps that are ready at once neither depends on the other. */
  lemma Incomparable(rows: Rows, j: string, k: string)
    requires WellStarted(rows) && Ready(rows, j) && Ready(rows, k)
    ensures !Depends(PlanOf(rows), k, j)
  {
    if Depends(PlanOf(rows), k, j) {
      var n: nat :| DependsWithin(PlanOf(rows), k, j, n);
      DependenciesTerminal(rows, k, j, n);
    }
  }

  lemma UndisturbedBy(ctx: Context, rows: Rows, j: string, k: string)
    requires WellStarted(rows) && ReadsComparable(PlanOf(rows))
    requires Ready(rows, j) && Ready(rows, k) && j != k
    ensures Execute(ctx, Fire(ctx, rows, j), rows[k]) == Execute(ctx, rows, rows[k])
  {
    var rows' := Fire(ctx, rows, j);
    forall x | Reads(rows[k].def, x) ensures Visible(rows, x) == Visible(rows', x) {
      if x == j {
        assert Comparable(PlanOf(rows), k, j);
        Incomparable(rows, j, k);
        Incomparable(rows, k, j);
        assert false;
      }
    }
    ExecuteReads(ctx, rows, rows', rows[k]);
  }

  lemma StaysReady(ctx: Context, rows: Rows, j: string, k: string)
    requires Ready(rows, j) && Ready(rows, k) && j != k
    ensures Ready(Fire(ctx, rows, j), k) && Fire(ctx, rows, j)[k] == rows[k]
  {
    hide Execute;
    FireKeeps(ctx, rows, j);
  }

  /** Two ready steps may be executed in either order. */
  lemma Diamond(ctx: Context, rows: Rows, j: string, k: string)
    requires WellStarted(rows) && ReadsComparable(PlanOf(rows))
    requires Ready(rows, j) && Ready(rows, k) && j != k
    ensures Ready(Fire(ctx, rows, j), k)
    ensures Fire(ctx, Fire(ctx, rows, j), k) == Fire(ctx, Fire(ctx, rows, k), j)
  {
    hide Execute, Startable, DepsSatisfied, WellStarted, ReadsComparable;
    StaysReady(ctx, rows, j, k);
    StaysReady(ctx, rows, k, j);
    UndisturbedBy(ctx, rows, j, k);
    UndisturbedBy(ctx, rows, k, j);
  }

  // ----- schedules -----

  /** ks can be executed one after the other, each being ready when its turn comes. */
  predicate Schedule(ctx: Context, rows: Rows, ks: seq<string>)
    decreases |ks|
  {
    ks != [] ==> Ready(rows, ks[0]) && Schedule(ctx, Fire(ctx, rows, ks[0]), ks[1..])
  }

  function After(ctx: Context, rows: Rows, ks: seq<string>): Rows
    requires Schedule(ctx, rows, ks)
    decreases |ks|
  {
    if ks == [] then rows else After(ctx, Fire(ctx, rows, ks[0]), ks[1..])
  }

  lemma {:induction false} ScheduleKeeps(ctx: Context, rows: Rows, ks: seq<string>)
    requires Schedule(ctx, rows, ks)
    ensures var rows' := After(ctx, rows, ks);
            && Keeps(rows, rows')
            && (ks != [] ==> Unstarted(rows') < Unstarted(rows))
            && (WellStarted(rows) ==> WellStarted(rows'))
    decreases |ks|
  {
    if ks != [] {
      FireKeeps(ctx, rows, ks[0]);
      var mid := Fire(ctx, rows, ks[0]);
      ScheduleKeeps(ctx, mid, ks[1..]);
      assert ks[0] in Unstarted(rows);
      forall x | x in rows && !Startable(rows[x])
        ensures x in After(ctx, rows, ks) && After(ctx, rows, ks)[x] == rows[x]
      {
        assert mid[x] == rows[x];
      }
    }
  }

  /** A ready step that a complete schedule must execute at some point can be moved to its front. */
  lemma {:induction false} MoveToFront(ctx: Context, rows: Rows, ks: seq<string>, k: string)
      returns (rest: seq<string>)
    requires WellStarted(rows) && ReadsComparable(PlanOf(rows))
    requires Schedule(ctx, rows, ks) && Quiescent(After(ctx, rows, ks)) && Ready(rows, k)
    ensures |rest| + 1 == |ks|
    ensures Schedule(ctx, Fire(ctx, rows, k), rest)
    ensures After(ctx, Fire(ctx, rows, k), rest) == After(ctx, rows, ks)
    decreases |ks|
  {
    assert ks != [];
    var j := ks[0];
    if j == k {
      rest := ks[1..];
    } else {
      Diamond(ctx, rows, j, k);
      Diamond(ctx, rows, k, j);
      FireKeeps(ctx, rows, j);
      var tail := MoveToFront(ctx, Fire(ctx, rows, j), ks[1..], k);
      rest := [j] + tail;
      assert rest[1..] == tail;
    }
  }

  /** Confluence: all complete schedules end with the same rows, and take equally many steps. */
  lemma {:induction false} Confluence(ctx: Context, rows: Rows, ks: seq<string>, ls: seq<string>)
    requires WellStarted(rows) && ReadsComparable(PlanOf(rows))
    requires Schedule(ctx, rows, ks) && Quiescent(After(ctx, rows, ks))
    requires Schedule(ctx, rows, ls) && Quiescent(After(ctx, rows, ls))
    ensures After(ctx, rows, ks) == After(ctx, rows, ls) && |ks| == |ls|
    decreases |ks|
  {
    if ks == [] {
      if ls != [] {
        assert false;
      }
    } else {
      var rest := MoveToFront(ctx, rows, ls, ks[0]);
      FireKeeps(ctx, rows, ks[0]);
      Confluence(ctx, Fire(ctx, rows, ks[0]), ks[1..], rest);
    }
  }
}
