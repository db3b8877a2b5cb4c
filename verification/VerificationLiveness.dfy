/**
  What the right code achieves (app/services/verifications/service.py): it is always accepted, it passes its
  step, and on the last open step of a run it brings about the decision that the passed steps have earned.
 */
module VerificationLiveness {
  import opened Prelude
  import opened PyStrings
  import opened Json
  import opened VerificationModel
  import opened VerificationScheduler
  import opened VerificationAdvance
  import opened VerificationDecision
  import opened VerificationRuns
  import opened VerificationTheorems
  import opened VerificationChallenges

  /** In every reachable state of an active run the right code is accepted and passes the step it is for. */
  lemma RightCodePasses(run: Run, ctx: Context, key: string, s: Step, code: Json)
    requires Sound(run) && run.active && key in run.rows && run.rows[key] == s && Waiting(s)
    requires RightCode(ctx, s, code) && NonBlankText(code)
    ensures var call := Call(ctx, Act(key, code));
            var run' := Perform(run, call);
            && CorrectCode(run, call, key)
            && key in run'.rows && run'.rows[key].outcome == Some(Pass) && Terminal(run'.rows[key])
            && (forall k :: k in run.rows && Terminal(run.rows[k]) ==> k in run'.rows && run'.rows[k] == run.rows[k])
  {
    hide Advance, Perform, Acted, ApplyUserAction, RightCode, NonBlankText, AdvanceRows, StepSound, Advances;
    var call := Call(ctx, Act(key, code));
    RightCodeApplies(ctx, s, code);
    ActCall(run, ctx, key, code);
    ActedSound(run, call);
    PerformPhases(run, call);
    assert Advances(run, call) by { ActAdvances(run, call); }
    PassedIsTerminal(Acted(run, call).rows[key]);
    AdvanceRowsSound(ctx, Acted(run, call));
    forall k | k in run.rows && Terminal(run.rows[k])
      ensures k in Perform(run, call).rows && Perform(run, call).rows[k] == run.rows[k]
    {
      TerminalAbsorbs(run, call, k);
    }
  }

  lemma ActAdvances(run: Run, call: Call)
    requires call.op.Act? && ActsOn(run, call, call.op.key)
    ensures Advances(run, call)
  {
    hide ActedRow;
  }

  lemma PassedIsTerminal(s: Step)
    requires StepSound(s) && !Startable(s) && s.outcome == Some(Pass)
    ensures Terminal(s)
  {
  }

  lemma AdvanceIsRows(ctx: Context, run: Run)
    ensures Advance(ctx, run).rows == AdvanceRows(ctx, run.rows, run.order)
  {
    hide AdvanceRows, Decide, Facts;
  }

  /** On the last open step it ends the run and has it decided. */
  lemma RightCodeFinishes(run: Run, ctx: Context, key: string, s: Step, code: Json)
    requires Sound(run) && run.active && key in run.rows && run.rows[key] == s && Waiting(s)
    requires RightCode(ctx, s, code) && NonBlankText(code)
    requires forall k :: k in run.rows && k != key ==> Terminal(run.rows[k])
    ensures Finalizes(run, Call(ctx, Act(key, code)))
  {
    hide Perform, RightCode, NonBlankText, RowsSound, ActedRow;
    var call := Call(ctx, Act(key, code));
    RightCodePasses(run, ctx, key, s, code);
    PerformSound(run, call);
    SameKeys(run.rows, Perform(run, call).rows);
    FinishedIffTerminal(run, call);
  }

  lemma FinishedIffTerminal(run: Run, call: Call)
    requires Sound(run) && call.op.Act? && ActsOn(run, call, call.op.key)
    ensures Advances(run, call)
    ensures Perform(run, call).active <==> !AllTerminal(Perform(run, call).rows)
  {
    hide Advance, ApplyUserAction, RowsSound, Sound;
    ActedSound(run, call);
    AdvanceOutcome(call.ctx, Acted(run, call));
  }

  // ----- rules over passes -----

  /** The conditions of the rule ask for the pass of each of these steps, and for nothing else. */
  predicate PassRule(r: RuleEntry, keys: seq<string>) {
    && keys != [] && r.Rule? && r.all.Some? && |r.all.value| == |keys|
    && forall i :: 0 <= i < |keys| ==> Dotless(keys[i]) && DemandsPass(r.all.value[i], keys[i])
  }

  predicate AllPassed(rows: Rows, keys: seq<string>) {
    forall i :: 0 <= i < |keys| ==> keys[i] in rows && rows[keys[i]].outcome == Some(Pass)
  }

  lemma PassCondition(lib: Lib, c: ConditionEntry, submission: Submission, rows: Rows, key: string)
    requires Dotless(key) && DemandsPass(c, key)
    ensures ConditionMatches(lib, c, Facts(submission, rows)) <==> key in rows && rows[key].outcome == Some(Pass)
  {
    hide LookupMapping, Facts, Strip;
    OutcomeFact(submission, rows, key);
    NotBlankPath(key);
  }

  lemma NotBlankPath(key: string)
    ensures !Blank(OutcomePath(key))
  {
    hide Strip;
    var path := OutcomePath(key);
    assert path[0] == 's' && path[|path| - 1] == 'e';
    assert Trimmed(path);
    StripTrims(path);
  }

  /** Such a rule matches if and only if all of these steps have passed. */
  lemma PassRuleMatchesIff(lib: Lib, r: RuleEntry, submission: Submission, rows: Rows, keys: seq<string>)
    requires PassRule(r, keys)
    ensures RuleMatches(lib, r, Facts(submission, rows)) <==> AllPassed(rows, keys)
  {
    hide Facts, Dotless, ConditionMatches, OutcomePath;
    forall i | 0 <= i < |keys|
      ensures ConditionMatches(lib, r.all.value[i], Facts(submission, rows)) <==>
              keys[i] in rows && rows[keys[i]].outcome == Some(Pass)
    {
      PassCondition(lib, r.all.value[i], submission, rows, keys[i]);
    }
    forall c | c in r.all.value ensures exists i :: 0 <= i < |keys| && r.all.value[i] == c {
      var i :| 0 <= i < |r.all.value| && r.all.value[i] == c;
    }
    assert forall i :: 0 <= i < |keys| ==> r.all.value[i] in r.all.value;
  }

  /** The first rule approves on these passes, and nothing else in the configuration approves. */
  predicate ApprovesOnPasses(flow: FlowConfig, keys: seq<string>) {
    && flow.decision.Some?
    && var rules, fallback := flow.decision.value.rules, flow.decision.value.fallback;
       && rules != [] && PassRule(rules[0], keys) && rules[0].answer.decision == "approved"
       && (forall i :: 0 < i < |rules| && rules[i].Rule? ==> rules[i].answer.decision != "approved")
       && (fallback.Some? ==> fallback.value.decision != "approved")
  }

  lemma ApprovedIffPassed(ctx: Context, rows: Rows, keys: seq<string>)
    requires ApprovesOnPasses(ctx.flow, keys)
    ensures Decide(ctx.lib, ctx.flow, Facts(ctx.submission, rows)).decision == "approved" <==> AllPassed(rows, keys)
  {
    hide Facts, PassRule, RuleMatches, AllPassed;
    var rules, facts := ctx.flow.decision.value.rules, Facts(ctx.submission, rows);
    PassRuleMatchesIff(ctx.lib, rules[0], ctx.submission, rows, keys);
    var m := FirstMatch(ctx.lib, rules, facts, 0);
    if m.Some? {
      assert rules[m.value].Rule? by { MatchedIsRule(ctx.lib, rules[m.value], facts); }
    }
  }

  lemma MatchedIsRule(lib: Lib, r: RuleEntry, facts: Json)
    requires RuleMatches(lib, r, facts)
    ensures r.Rule?
  {
  }

  /** A run that a call finalizes under such a configuration is completed if and only if these steps have passed. */
  lemma CompletedIffPassed(run: Run, call: Call, keys: seq<string>)
    requires Finalizes(run, call) && ApprovesOnPasses(call.ctx.flow, keys)
    ensures Perform(run, call).status.RunCompleted? <==> AllPassed(Perform(run, call).rows, keys)
  {
    hide Perform, Decide, Facts, ApprovesOnPasses, AllPassed;
    FinalVerdict(run, call);
    ApprovedIffPassed(call.ctx, Perform(run, call).rows, keys);
  }

  /** So the right code for the last open step completes the run when the other steps have passed. */
  lemma RightCodeApproves(run: Run, ctx: Context, key: string, s: Step, code: Json, keys: seq<string>)
    requires Sound(run) && run.active && key in run.rows && run.rows[key] == s && Waiting(s)
    requires RightCode(ctx, s, code) && NonBlankText(code)
    requires forall k :: k in run.rows && k != key ==> Terminal(run.rows[k])
    requires ApprovesOnPasses(ctx.flow, keys)
    requires forall i :: 0 <= i < |keys| && keys[i] != key ==> keys[i] in run.rows && run.rows[keys[i]].outcome == Some(Pass)
    ensures Perform(run, Call(ctx, Act(key, code))).status.RunCompleted?
  {
    hide Perform, RightCode, NonBlankText, RowsSound, ApprovesOnPasses, Finalizes;
    RightCodeFinishes(run, ctx, key, s, code);
    RightCodePasses(run, ctx, key, s, code);
    CompletedIffPassed(run, Call(ctx, Act(key, code)), keys);
  }

  // ----- a run from start to approval -----

  /** One phone step, and approval on its pass. */
  function PhonePlan(): Plan {
    map["a" := PhoneStep("a", Str("1"))]
  }

  function PhoneFlow(): FlowConfig {
    var rule := Rule(Some([Condition(Some(OutcomePath("a")), Equals(Str("pass")))]), Answer("approved", "basic", []));
    FlowConfig(None, Some(DecisionConfig([rule], None)))
  }

  lemma PhoneRunWaits(ctx: Context)
    ensures var run := Perform(NewRun(PhonePlan(), ["a"]), Call(ctx, Start(false)));
            run.active && "a" in run.rows && Waiting(run.rows["a"])
  {
    hide Execute, PassFrom, AdvanceRows;
    var start := NewRun(PhonePlan(), ["a"]);
    var rows := start.rows;
    StartsA(ctx, rows);
    var one := Fire(ctx, rows, "a");
    assert Ready(rows, "a");
    PassUnfolds(ctx, rows, ["a"], 0);
    AdvanceUnfolds(ctx, rows, ["a"]);
    AdvanceKeeps(ctx, one, ["a"]);
    assert AdvanceRows(ctx, rows, ["a"]) == AdvanceRows(ctx, one, ["a"]);
    AdvanceIsRows(ctx, start);
    NewRunSound(PhonePlan(), ["a"]);
    AdvanceOutcome(ctx, start);
  }

  /** Started and answered with 111111, it is approved: the premises of the soundness theorems can be met. */
  lemma PhoneRunApproved(ctx: Context)
    requires ctx.flow == PhoneFlow()
    ensures var calls := [Call(ctx, Start(false)), Call(ctx, Act("a", Str("111111")))];
            Replay(NewRun(PhonePlan(), ["a"]), calls).status.RunCompleted?
  {
    hide Perform, PhoneCode, Sound, ApprovesOnPasses, RightCode, NonBlankText;
    var start, first, second := NewRun(PhonePlan(), ["a"]), Call(ctx, Start(false)), Call(ctx, Act("a", Str("111111")));
    var run := Perform(start, first);
    PhoneRunWaits(ctx);
    NewRunSound(PhonePlan(), ["a"]);
    PerformSound(start, first);
    SameKeys(start.rows, run.rows);
    DefaultCode(ctx, run.rows["a"]);
    PhoneFlowApproves();
    RightCodeApproves(run, ctx, "a", run.rows["a"], Str("111111"), ["a"]);
    assert [first, second][..1] == [first] && [first][..0] == [];
    assert Replay(start, [first]) == run;
  }

  lemma DefaultCode(ctx: Context, s: Step)
    requires s.def == PhoneStep("a", Str("1"))
    ensures RightCode(ctx, s, Str("111111")) && NonBlankText(Str("111111"))
  {
    hide Strip;
    assert Trimmed("111111");
    StripTrims("111111");
  }

  lemma PhoneFlowApproves()
    ensures ApprovesOnPasses(PhoneFlow(), ["a"])
  {
    hide OutcomePath;
  }
}
