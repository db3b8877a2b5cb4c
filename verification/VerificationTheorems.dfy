/** What holds over whole verification runs. */
module VerificationTheorems {
  import opened Prelude
  import opened VerificationModel
  import opened VerificationScheduler
  import opened VerificationAdvance
  import opened VerificationDecision
  import opened VerificationRuns

  // ----- terminal steps stay as they are -----

  lemma TerminalAbsorbs(run: Run, call: Call, key: string)
    requires Sound(run) && key in run.rows && Terminal(run.rows[key])
    ensures key in Perform(run, call).rows && Perform(run, call).rows[key] == run.rows[key]
  {
    hide Perform, Acted, AdvanceRows, RowsSound, ActsOn, Advances;
    PerformPhases(run, call);
    ActedSound(run, call);
    AdvanceRowsSound(call.ctx, Acted(run, call));
  }

  // ----- the bound on accepted actions -----

  /** Actions a step can still consume. */
  function Allowance(s: Step): int {
    if Terminal(s) then 0 else if Waiting(s) then Budget(s.def) - s.attempts else Budget(s.def)
  }

  function TotalAllowance(rows: Rows, order: seq<string>): int
    requires forall k :: k in order ==> k in rows
  {
    if order == [] then 0 else Allowance(rows[order[0]]) + TotalAllowance(rows, order[1..])
  }

  function TotalBudget(plan: Plan, order: seq<string>): nat
    requires forall k :: k in order ==> k in plan
  {
    if order == [] then 0 else Budget(plan[order[0]]) + TotalBudget(plan, order[1..])
  }

  function AcceptedCount(run: Run, calls: seq<Call>): nat {
    if calls == [] then 0
    else
      var before := calls[..|calls| - 1];
      AcceptedCount(run, before) + if Accepted(Replay(run, before), calls[|calls| - 1]) then 1 else 0
  }

  lemma {:induction false} AllowanceDrops(rows: Rows, rows': Rows, order: seq<string>, spent: Option<string>)
    requires forall k :: k in order ==> k in rows && k in rows' && Allowance(rows'[k]) <= Allowance(rows[k])
    requires spent.Some? && spent.value in order ==> Allowance(rows'[spent.value]) < Allowance(rows[spent.value])
    ensures TotalAllowance(rows', order) + (if spent.Some? && spent.value in order then 1 else 0)
         <= TotalAllowance(rows, order)
  {
    if order != [] {
      AllowanceDrops(rows, rows', order[1..], spent);
    }
  }

  lemma AdvanceAllowance(ctx: Context, run: Run)
    requires Sound(run)
    ensures var rows := AdvanceRows(ctx, run.rows, run.order);
            forall k :: k in run.rows ==> k in rows && Allowance(rows[k]) <= Allowance(run.rows[k])
  {
    AdvanceRowsSound(ctx, run);
    SameKeys(run.rows, AdvanceRows(ctx, run.rows, run.order));
  }

  lemma PerformAllowance(run: Run, call: Call)
    requires Sound(run)
    ensures var rows := Perform(run, call).rows;
            && (forall k :: k in run.rows ==> k in rows && Allowance(rows[k]) <= Allowance(run.rows[k]))
            && (Accepted(run, call) ==>
                  call.op.key in run.rows && Allowance(rows[call.op.key]) < Allowance(run.rows[call.op.key]))
  {
    hide Perform, Acted, AdvanceRows, RowsSound, ActsOn, Advances, Allowance;
    PerformPhases(run, call);
    ActedSound(run, call);
    AdvanceAllowance(call.ctx, Acted(run, call));
    ActedAllowance(run, call);
  }

  lemma ActedAllowance(run: Run, call: Call)
    requires Sound(run)
    ensures var rows := Acted(run, call).rows;
            && (forall k :: k in run.rows ==> k in rows && Allowance(rows[k]) <= Allowance(run.rows[k]))
            && (Accepted(run, call) ==>
                  call.op.key in run.rows && Allowance(rows[call.op.key]) < Allowance(run.rows[call.op.key]))
  {
    hide Acted, RowsSound, ActsOn, ActedRow;
    ActedShape(run, call);
    ActedSound(run, call);
  }

  lemma {:induction false} InitialAllowance(plan: Plan, order: seq<string>, rows: Rows)
    requires forall k :: k in order ==> k in plan && k in rows && rows[k] == NewStep(plan[k])
    ensures TotalAllowance(rows, order) == TotalBudget(plan, order)
  {
    if order != [] {
      InitialAllowance(plan, order[1..], rows);
    }
  }

  lemma {:induction false} AllowanceLeft(plan: Plan, order: seq<string>, calls: seq<Call>)
    requires NoDuplicates(order) && forall k :: k in order <==> k in plan
    ensures var run := Replay(NewRun(plan, order), calls);
            && run.order == order && run.rows.Keys == plan.Keys
            && AcceptedCount(NewRun(plan, order), calls) + TotalAllowance(run.rows, order) <= TotalBudget(plan, order)
  {
    var start := NewRun(plan, order);
    RunInvariant(plan, order, calls);
    if calls == [] {
      InitialAllowance(plan, order, start.rows);
    } else {
      var before, call := calls[..|calls| - 1], calls[|calls| - 1];
      var run := Replay(start, before);
      RunInvariant(plan, order, before);
      AllowanceLeft(plan, order, before);
      PerformPhases(run, call);
      PerformSound(run, call);
      SameKeys(run.rows, Perform(run, call).rows);
      PerformAllowance(run, call);
      AllowanceDrops(run.rows, Perform(run, call).rows, order, if Accepted(run, call) then Some(call.op.key) else None);
    }
  }

  lemma {:induction false} AllowanceNonNegative(rows: Rows, order: seq<string>)
    requires forall k :: k in order ==> k in rows && StepSound(rows[k])
    ensures TotalAllowance(rows, order) >= 0
  {
    if order != [] {
      AllowanceNonNegative(rows, order[1..]);
    }
  }

  /** No run accepts more actions than its steps allow together, and no step more than its own share. */
  lemma ActionBound(plan: Plan, order: seq<string>, calls: seq<Call>)
    requires NoDuplicates(order) && forall k :: k in order <==> k in plan
    ensures AcceptedCount(NewRun(plan, order), calls) <= TotalBudget(plan, order)
    ensures forall k :: k in Replay(NewRun(plan, order), calls).rows ==>
              var s := Replay(NewRun(plan, order), calls).rows[k];
              s.attempts <= Budget(s.def)
  {
    AllowanceLeft(plan, order, calls);
    RunInvariant(plan, order, calls);
    AllowanceNonNegative(Replay(NewRun(plan, order), calls).rows, order);
  }

  lemma {:induction false} NothingLeft(rows: Rows, order: seq<string>, key: string)
    requires forall k :: k in order ==> k in rows && StepSound(rows[k])
    requires key in order && !Terminal(rows[key])
    ensures TotalAllowance(rows, order) > 0
  {
    AllowanceNonNegative(rows, order[1..]);
    if key != order[0] {
      NothingLeft(rows, order[1..], key);
    }
  }

  /** A run that has accepted as many actions as its steps allow together has come to its end. */
  lemma ExhaustedRunEnds(plan: Plan, order: seq<string>, calls: seq<Call>)
    requires NoDuplicates(order) && forall k :: k in order <==> k in plan
    requires AcceptedCount(NewRun(plan, order), calls) == TotalBudget(plan, order)
    ensures AllTerminal(Replay(NewRun(plan, order), calls).rows)
  {
    hide Replay, AcceptedCount, TotalBudget, TotalAllowance, StepSound;
    AllowanceLeft(plan, order, calls);
    RunInvariant(plan, order, calls);
    var rows := Replay(NewRun(plan, order), calls).rows;
    forall k | k in rows ensures Terminal(rows[k]) {
      if !Terminal(rows[k]) {
        NothingLeft(rows, order, k);
      }
    }
  }

  // ----- approval soundness -----

  lemma PerformPass(run: Run, call: Call, key: string)
    requires Sound(run) && key in run.rows && run.rows[key].def.stepType.ChallengeResponse?
    requires key in Perform(run, call).rows && Perform(run, call).rows[key].outcome == Some(Pass)
    ensures run.rows[key].outcome == Some(Pass) || CorrectCode(run, call, key)
  {
    hide Perform, Acted, AdvanceRows, RowsSound, ActsOn, Advances, RightCode, StepSound;
    var acted := Acted(run, call);
    PerformPhases(run, call);
    ActedSound(run, call);
    SameKeys(run.rows, acted.rows);
    AdvanceRowsSound(call.ctx, acted);
    SameKeys(acted.rows, AdvanceRows(call.ctx, acted.rows, acted.order));
  }

  /** A challenge step that has passed was sent, at some earlier call, the code expected at that moment. */
  lemma {:induction false} PassNeedsCode(plan: Plan, order: seq<string>, calls: seq<Call>, key: string)
      returns (i: nat)
    requires NoDuplicates(order) && forall k :: k in order <==> k in plan
    requires key in plan && plan[key].stepType.ChallengeResponse?
    requires var run := Replay(NewRun(plan, order), calls);
             key in run.rows && run.rows[key].outcome == Some(Pass)
    ensures i < |calls| && CorrectCode(Replay(NewRun(plan, order), calls[..i]), calls[i], key)
  {
    hide Perform, CorrectCode;
    var start := NewRun(plan, order);
    if calls != [] {
      var before, call := calls[..|calls| - 1], calls[|calls| - 1];
      var run := Replay(start, before);
      RunInvariant(plan, order, before);
      assert key in PlanOf(run.rows) && run.rows[key].def == plan[key];
      PerformPass(run, call, key);
      if CorrectCode(run, call, key) {
        i := |calls| - 1;
      } else {
        i := PassNeedsCode(plan, order, before, key);
        assert before[..i] == calls[..i];
      }
    }
  }

  /** The call advances the run and finds nothing left to do. */
  predicate Finalizes(run: Run, call: Call) {
    Advances(run, call) && !Perform(run, call).active
  }

  lemma FinalVerdict(run: Run, call: Call)
    requires Finalizes(run, call)
    ensures var run' := Perform(run, call);
            && run'.verdict == Some(Decide(call.ctx.lib, call.ctx.flow, Facts(call.ctx.submission, run'.rows)))
            && run'.status == StatusOf(run'.verdict.value.decision)
  {
    hide Decide, Facts, AdvanceRows, ActedRow;
  }

  /** When the call that finalizes a run matched a rule that demands `steps.K.outcome equals "pass"`
      of a challenge step, the code expected of K was sent in an accepted action of this very run. */
  lemma ApprovalSound(plan: Plan, order: seq<string>, calls: seq<Call>, run: Run, call: Call, key: string, m: nat)
      returns (i: nat)
    requires NoDuplicates(order) && forall k :: k in order <==> k in plan
    requires key in plan && plan[key].stepType.ChallengeResponse? && Dotless(key)
    requires run == Replay(NewRun(plan, order), calls) && Finalizes(run, call)
    requires var v := Perform(run, call).verdict; v.Some? && v.value.matchedRule == Some(m)
    requires var d := call.ctx.flow.decision; d.Some? && m < |d.value.rules| && RuleDemandsPass(d.value.rules[m], key)
    ensures var all := calls + [call];
            i < |all| && CorrectCode(Replay(NewRun(plan, order), all[..i]), all[i], key)
  {
    hide Perform, Facts, Finalizes, RuleDemandsPass, RuleMatches, CorrectCode;
    var all := calls + [call];
    assert all[..|all| - 1] == calls;
    FinalVerdict(run, call);
    MatchedRule(call.ctx, Perform(run, call).rows, call.ctx.flow.decision.value.rules, key, m);
    i := PassNeedsCode(plan, order, all, key);
  }

  lemma MatchedRule(ctx: Context, rows: Rows, rules: seq<RuleEntry>, key: string, m: nat)
    requires FirstMatch(ctx.lib, rules, Facts(ctx.submission, rows), 0) == Some(m)
    requires m < |rules| && RuleDemandsPass(rules[m], key) && Dotless(key)
    ensures key in rows && rows[key].outcome == Some(Pass)
  {
    hide Facts, RuleMatches, RuleDemandsPass;
    MatchSawPass(ctx.lib, rules[m], ctx.submission, rows, key);
  }

  /** Every way the configuration can say "approved" goes through a rule that demands the pass of K. */
  predicate ApprovalDemandsPass(flow: FlowConfig, key: string) {
    && flow.decision.Some?
    && (forall r :: r in flow.decision.value.rules && r.Rule? && r.answer.decision == "approved" ==> RuleDemandsPass(r, key))
    && (flow.decision.value.fallback.Some? ==> flow.decision.value.fallback.value.decision != "approved")
  }

  lemma ApprovedByRule(ctx: Context, rows: Rows, key: string)
    requires ApprovalDemandsPass(ctx.flow, key)
    requires Decide(ctx.lib, ctx.flow, Facts(ctx.submission, rows)).decision == "approved"
    ensures var m := Decide(ctx.lib, ctx.flow, Facts(ctx.submission, rows)).matchedRule;
            m.Some? && m.value < |ctx.flow.decision.value.rules| && RuleDemandsPass(ctx.flow.decision.value.rules[m.value], key)
  {
    var cfg := ctx.flow.decision.value;
    var m := FirstMatch(ctx.lib, cfg.rules, Facts(ctx.submission, rows), 0);
    if m.Some? {
      assert cfg.rules[m.value] in cfg.rules;
    }
  }

  /** A run ends as completed only after the right code for K, if approval always demands it. */
  lemma CompletedNeedsCode(plan: Plan, order: seq<string>, calls: seq<Call>, run: Run, call: Call, key: string)
      returns (i: nat)
    requires NoDuplicates(order) && forall k :: k in order <==> k in plan
    requires key in plan && plan[key].stepType.ChallengeResponse? && Dotless(key)
    requires run == Replay(NewRun(plan, order), calls) && Finalizes(run, call)
    requires Perform(run, call).status.RunCompleted? && ApprovalDemandsPass(call.ctx.flow, key)
    ensures var all := calls + [call];
            i < |all| && CorrectCode(Replay(NewRun(plan, order), all[..i]), all[i], key)
  {
    hide Perform, Decide, Finalizes, RuleDemandsPass, CorrectCode;
    FinalVerdict(run, call);
    ApprovedByRule(call.ctx, Perform(run, call).rows, key);
    i := ApprovalSound(plan, order, calls, run, call, key, Perform(run, call).verdict.value.matchedRule.value);
  }

  // ----- where an advance can leave a run -----

  lemma FinalizeStatus(ctx: Context, run: Run)
    requires Lists(run.order, run.rows)
    ensures var run' := Finalize(ctx, run);
            var waits := exists k :: k in run.rows && Waiting(run.rows[k]);
            && run'.rows == run.rows
            && (run'.status.RunWaiting? <==> waits)
            && (run'.status.RunInProgress? <==> !waits && !AllTerminal(run.rows))
            && (!run'.active <==> AllTerminal(run.rows))
            && (waits ==> run'.currentStep.Some? && run'.currentStep.value in run.rows && Waiting(run.rows[run'.currentStep.value]))
            && (!waits ==> run'.currentStep.None?)
  {
    hide Decide, Facts;
  }

  /** Right after an advance the run's status says exactly how its steps stand. */
  lemma AdvanceOutcome(ctx: Context, run: Run)
    requires Sound(run)
    ensures var run' := Advance(ctx, run);
            var waits := exists k :: k in run'.rows && Waiting(run'.rows[k]);
            var stuck := exists k :: k in run'.rows && !Grounded(PlanOf(run.rows), k);
            && (run'.status.RunWaiting? <==> waits)
            && (run'.status.RunInProgress? <==> !waits && stuck)
            && (!run'.active <==> !waits && !stuck)
            && (!run'.active <==> AllTerminal(run'.rows))
            && (waits ==> run'.currentStep.Some? && run'.currentStep.value in run'.rows && Waiting(run'.rows[run'.currentStep.value]))
            && (!waits ==> run'.currentStep.None?)
            && Quiescent(run'.rows)
  {
    hide Finalize, AdvanceRows, WellStarted, FirstWaiting, Grounded, StepSound, Quiescent, StartedGrounded;
    AdvanceRowsSound(ctx, run);
    var rows := AdvanceRows(ctx, run.rows, run.order);
    FinalizeStatus(ctx, run.(rows := rows, deferred := false));
    SameKeys(run.rows, rows);
    if forall k :: k in rows ==> !Waiting(rows[k]) {
      SettledIffGrounded(rows);
    }
  }

  /** With acyclic dependencies on existing steps an advance never leaves the run stuck. */
  lemma DeadlockFree(ctx: Context, run: Run, rank: map<string, nat>)
    requires Sound(run) && Acyclic(PlanOf(run.rows), rank)
    ensures var run' := Advance(ctx, run);
            !run'.status.RunInProgress? && (run'.status.RunWaiting? || (!run'.active && AllTerminal(run'.rows)))
  {
    AdvanceOutcome(ctx, run);
    AdvanceSound(ctx, run);
    SameKeys(run.rows, Advance(ctx, run).rows);
    forall k | k in run.rows ensures Grounded(PlanOf(run.rows), k) {
      AcyclicGrounded(PlanOf(run.rows), rank, k);
    }
  }

  /** Steps, facts, verdict and status do not depend on the order in which the rows are listed. */
  lemma RunOrderIndependent(ctx: Context, run: Run, order: seq<string>)
    requires Sound(run) && Lists(order, run.rows) && ReadsComparable(PlanOf(run.rows))
    ensures var a, b := Advance(ctx, run), Advance(ctx, run.(order := order));
            a.rows == b.rows && b == a.(order := order, currentStep := b.currentStep)
  {
    hide Decide, Facts, AdvanceRows, WellStarted, StartedGrounded, Grounded, StepSound, ReadsComparable;
    AdvanceOrderIndependent(ctx, run.rows, run.order, order);
    var rows := AdvanceRows(ctx, run.rows, order);
    AdvanceRowsSound(ctx, run);
    SameKeys(run.rows, rows);
    var a, b := run.(rows := rows, deferred := false), run.(order := order, rows := rows, deferred := false);
    assert FirstWaiting(rows, run.order).Some? <==> FirstWaiting(rows, order).Some?;
  }

  /** Two runs that differ only in the listing order of their rows, and in the waiting step they show. */
  predicate SameButOrder(a: Run, b: Run) {
    b == a.(order := b.order, currentStep := b.currentStep)
  }

  lemma ActedSameButOrder(a: Run, b: Run, call: Call)
    requires SameButOrder(a, b)
    ensures SameButOrder(Acted(a, call), Acted(b, call)) && Acted(b, call).order == b.order
    ensures Advances(a, call) == Advances(b, call)
  {
    hide ApplyUserAction;
  }

  lemma PerformSameButOrder(a: Run, b: Run, call: Call)
    requires Sound(a) && SameButOrder(a, b) && Lists(b.order, a.rows) && ReadsComparable(PlanOf(a.rows))
    ensures SameButOrder(Perform(a, call), Perform(b, call)) && Perform(b, call).order == b.order
  {
    hide Acted, Advances, Advance, RowsSound, ReadsComparable, ActionPhase;
    ActedSameButOrder(a, b, call);
    ActedSound(a, call);
    PerformPhases(b, call);
    var a', b' := Acted(a, call), Acted(b, call);
    SameKeys(a.rows, a'.rows);
    assert Lists(b.order, a'.rows);
    RunOrderIndependent(call.ctx, a', b.order);
    CurrentIrrelevant(call.ctx, a'.(order := b.order), b');
  }

  lemma CurrentIrrelevant(ctx: Context, a: Run, b: Run)
    requires b == a.(currentStep := b.currentStep)
    ensures Advance(ctx, a) == Advance(ctx, b)
  {
    hide Decide, Facts, AdvanceRows, FirstWaiting;
  }

  /** Whatever calls are made, a run's rows, status and verdict never depend on the listing order. */
  lemma {:induction false} ReplayOrderIndependent(plan: Plan, order: seq<string>, order': seq<string>, calls: seq<Call>)
    requires NoDuplicates(order) && (forall k :: k in order <==> k in plan)
    requires NoDuplicates(order') && (forall k :: k in order' <==> k in plan)
    requires ReadsComparable(plan)
    ensures SameButOrder(Replay(NewRun(plan, order), calls), Replay(NewRun(plan, order'), calls))
    ensures Replay(NewRun(plan, order'), calls).order == order'
  {
    hide Perform, ReadsComparable, RowsSound;
    if calls != [] {
      var before := calls[..|calls| - 1];
      ReplayOrderIndependent(plan, order, order', before);
      RunInvariant(plan, order, before);
      var a, b := Replay(NewRun(plan, order), before), Replay(NewRun(plan, order'), before);
      assert a.rows.Keys == PlanOf(a.rows).Keys;
      PerformSameButOrder(a, b, calls[|calls| - 1]);
    }
  }

  /** A finished run keeps its rows through every further call; advancing it again only decides anew. */
  lemma FinishedRowsFixed(run: Run, call: Call)
    requires Sound(run) && !run.active
    ensures Perform(run, call).rows == run.rows && !Perform(run, call).active
    ensures call.op.ActivityAdvance? ==>
              Perform(run, call).verdict ==
                Some(Decide(call.ctx.lib, call.ctx.flow, Facts(call.ctx.submission, run.rows)))
  {
    PerformSound(run, call);
    SameKeys(run.rows, Perform(run, call).rows);
    forall k | k in run.rows ensures Perform(run, call).rows[k] == run.rows[k] {
      TerminalAbsorbs(run, call, k);
    }
    StillFinished(run, call);
  }

  lemma StillFinished(run: Run, call: Call)
    requires Sound(run) && !run.active && Perform(run, call).rows == run.rows
    ensures !Perform(run, call).active
    ensures call.op.ActivityAdvance? ==>
              Perform(run, call).verdict ==
                Some(Decide(call.ctx.lib, call.ctx.flow, Facts(call.ctx.submission, run.rows)))
  {
    hide Decide, Facts, AdvanceRows, ActedRow, RowsSound;
    ActedShape(run, call);
    FirstWaitingNone(run.rows, run.order);
    assert !Accepted(run, call);
  }

  lemma FirstWaitingNone(rows: Rows, order: seq<string>)
    requires AllTerminal(rows)
    ensures FirstWaiting(rows, order).None?
  {
  }

  /** A run without steps, such as a refused configuration leaves behind, is decided by the next call that advances
      it, on facts without any step. */
  lemma EmptyRunDecided(call: Call)
    requires call.op == Start(false) || call.op == ActivityAdvance
    ensures var run' := Perform(NewRun(map[], []), call);
            && !run'.active && run'.rows == map[]
            && run'.verdict == Some(Decide(call.ctx.lib, call.ctx.flow, Facts(call.ctx.submission, map[])))
            && run'.status == StatusOf(run'.verdict.value.decision)
  {
    hide Decide, Facts, Execute;
    var start := NewRun(map[], []);
    assert start.rows == map[];
    assert AdvanceRows(call.ctx, map[], []) == map[];
  }

  // ----- deferring a run -----

  /** Two runs that differ at most in the status, the current step and the deferral that they show. */
  predicate SameButShown(a: Run, b: Run) {
    b == a.(status := b.status, currentStep := b.currentStep, deferred := b.deferred)
  }

  /** Finalizing sets status and current step afresh, whatever they showed before. */
  lemma AdvanceForgetsShown(ctx: Context, a: Run, b: Run)
    requires SameButShown(a, b)
    ensures Advance(ctx, a) == Advance(ctx, b)
  {
    hide Decide, Facts, AdvanceRows, FirstWaiting;
  }

  lemma ActedForgetsShown(a: Run, b: Run, call: Call)
    requires SameButShown(a, b)
    ensures SameButShown(Acted(a, call), Acted(b, call))
    ensures Advances(a, call) == Advances(b, call) && forall k :: ActsOn(a, call, k) == ActsOn(b, call, k)
  {
    hide ApplyUserAction;
  }

  lemma PerformForgetsShown(a: Run, b: Run, call: Call)
    requires SameButShown(a, b)
    ensures SameButShown(Perform(a, call), Perform(b, call))
    ensures Advances(a, call) ==> Perform(a, call) == Perform(b, call)
  {
    hide Acted, Advances, Advance;
    ActedForgetsShown(a, b, call);
    AdvanceForgetsShown(call.ctx, Acted(a, call), Acted(b, call));
    if call.op == Start(true) {
      ActedStart(a, call);
      ActedStart(b, call);
      StartDoesNotAdvance(a, call);
    }
  }

  lemma ActedStart(run: Run, call: Call)
    requires call.op.Start?
    ensures Acted(run, call) == run
  {
  }

  lemma StartDoesNotAdvance(run: Run, call: Call)
    requires call.op == Start(true)
    ensures !Advances(run, call)
  {
  }

  /** Deferring a run changes nothing but what it shows. Its waiting steps go on accepting exactly the actions they
      accepted before, and the next call that advances the run leaves it as if it had never been deferred. */
  lemma {:induction false} DeferralOnlyShows(run: Run, ctx: Context, calls: seq<Call>)
    ensures var deferred := Perform(run, Call(ctx, Start(true)));
            && SameButShown(Replay(run, calls), Replay(deferred, calls))
            && (run.active ==> deferred.status.RunPending? && deferred.currentStep.None?)
            && (forall call, k :: ActsOn(Replay(run, calls), call, k) == ActsOn(Replay(deferred, calls), call, k))
            && (forall i :: 0 <= i < |calls| && Advances(Replay(run, calls[..i]), calls[i]) ==>
                  Replay(run, calls) == Replay(deferred, calls))
  {
    hide Perform, Advances, ActsOn;
    var deferred := Perform(run, Call(ctx, Start(true)));
    DeferralShows(run, ctx);
    if calls != [] {
      var before, last := calls[..|calls| - 1], calls[|calls| - 1];
      DeferralOnlyShows(run, ctx, before);
      PerformForgetsShown(Replay(run, before), Replay(deferred, before), last);
      forall i | 0 <= i < |calls| && Advances(Replay(run, calls[..i]), calls[i])
        ensures Replay(run, calls) == Replay(deferred, calls)
      {
        assert i < |before| ==> before[..i] == calls[..i] && before[i] == calls[i];
      }
    }
    forall call, k ensures ActsOn(Replay(run, calls), call, k) == ActsOn(Replay(deferred, calls), call, k) {
      ActedForgetsShown(Replay(run, calls), Replay(deferred, calls), call);
    }
  }

  lemma DeferralShows(run: Run, ctx: Context)
    ensures var deferred := Perform(run, Call(ctx, Start(true)));
            SameButShown(run, deferred) && (run.active ==> deferred.status.RunPending? && deferred.currentStep.None?)
  {
  }
}
