/**
  How final a decision is. Finalizing a run writes its summary into the submission's computed data, where a later
  advance of the same run reads it again (app/services/verifications/service.py:663-702).
 */
module VerificationFinality {
  import opened Prelude
  import opened PyStrings
  import opened Json
  import opened VerificationModel
  import opened VerificationAdvance
  import opened VerificationDecision
  import opened VerificationRuns
  import opened VerificationTheorems
  import opened VerificationLiveness
  import opened VerificationConditions

  // ----- paths that do not see the summary -----

  /** The parts of a path that are looked up; empty parts are skipped. */
  function Names(parts: seq<string>): (names: seq<string>)
    ensures forall n :: n in names ==> n != ""
  {
    if parts == [] then [] else (if parts[0] == "" then [] else [parts[0]]) + Names(parts[1..])
  }

  lemma {:induction false} WalkNames(j: Json, parts: seq<string>)
    ensures Walk(j, parts) == Walk(j, Names(parts))
    decreases |parts|
  {
    if parts != [] {
      if parts[0] == "" {
        WalkNames(j, parts[1..]);
        assert Names(parts) == Names(parts[1..]);
      } else {
        assert Names(parts) == [parts[0]] + Names(parts[1..]);
        assert Names(parts)[1..] == Names(parts[1..]);
        if j.Obj? {
          WalkNames(GetOrNull(j.fields, parts[0]), parts[1..]);
        }
      }
    }
  }

  const COMPUTED := "computed_data"
  const SUMMARY := "verification"

  /** The path leads into the facts, and not to the summary or to anything that contains it. */
  predicate StepsAside(path: string) {
    var names := Names(Split(path, DOT));
    names != [] && (names[0] == COMPUTED ==> |names| > 1 && names[1] != SUMMARY)
  }

  /** Two states of a submission between which only the summary was written. */
  predicate SameButSummary(a: Submission, b: Submission) {
    && a.header == b.header && a.formData == b.formData
    && a.computedData - {SUMMARY} == b.computedData - {SUMMARY}
  }

  lemma OtherComputed(a: Submission, b: Submission, name: string)
    requires SameButSummary(a, b) && name != SUMMARY
    ensures GetOrNull(a.computedData, name) == GetOrNull(b.computedData, name)
  {
    assert name in a.computedData <==> name in a.computedData - {SUMMARY};
    assert name in b.computedData <==> name in b.computedData - {SUMMARY};
    if name in a.computedData {
      assert (a.computedData - {SUMMARY})[name] == a.computedData[name];
      assert (b.computedData - {SUMMARY})[name] == b.computedData[name];
    }
  }

  lemma LookupIsWalk(facts: Json, path: string)
    ensures LookupMapping(facts, path) == Walk(facts, Names(Split(path, DOT)))
  {
    WalkNames(facts, Split(path, DOT));
    if path == "" {
      assert Split(path, DOT) == [""];
      assert Names([""]) == [];
    }
  }

  lemma WalkFirst(j: Json, names: seq<string>)
    requires names != [] && names[0] != "" && j.Obj?
    ensures Walk(j, names) == if GetOrNull(j.fields, names[0]).Null? then Null else Walk(GetOrNull(j.fields, names[0]), names[1..])
  {
  }

  /** What such a path shows does not depend on the summary. */
  lemma ReadsAside(a: Submission, b: Submission, rows: Rows, path: string)
    requires SameButSummary(a, b) && StepsAside(path)
    ensures LookupMapping(Facts(a, rows), path) == LookupMapping(Facts(b, rows), path)
  {
    hide Split, Walk;
    var names := Names(Split(path, DOT));
    LookupIsWalk(Facts(a, rows), path);
    LookupIsWalk(Facts(b, rows), path);
    assert names[0] in names;
    WalkFirst(Facts(a, rows), names);
    WalkFirst(Facts(b, rows), names);
    if names[0] == COMPUTED {
      assert names[1] in names && names[1..][0] == names[1];
      WalkFirst(Obj(a.computedData), names[1..]);
      WalkFirst(Obj(b.computedData), names[1..]);
      OtherComputed(a, b, names[1]);
    }
  }

  /** A document in which this path leads to a text. */
  function Along(names: seq<string>): (j: Json)
    ensures !j.Null?
  {
    if names == [] then Str("x") else Obj(map[names[0] := Along(names[1..])])
  }

  lemma {:induction false} WalkAlong(names: seq<string>)
    requires forall i :: 0 <= i < |names| ==> names[i] != ""
    ensures Walk(Along(names), names) == Str("x")
  {
    if names != [] {
      WalkAlong(names[1..]);
    }
  }

  ghost predicate NeverSeesSummary(path: string) {
    forall a: Submission, b: Submission, rows: Rows :: SameButSummary(a, b) ==>
      LookupMapping(Facts(a, rows), path) == LookupMapping(Facts(b, rows), path)
  }

  function WithComputed(computed: Fields): Submission {
    Submission(map[], map[], computed, map[])
  }

  /** A path never depends on the summary if and only if it steps aside. */
  lemma AsideIffUnseen(path: string)
    ensures NeverSeesSummary(path) <==> StepsAside(path)
  {
    if StepsAside(path) {
      forall a: Submission, b: Submission, rows: Rows | SameButSummary(a, b)
        ensures LookupMapping(Facts(a, rows), path) == LookupMapping(Facts(b, rows), path)
      {
        ReadsAside(a, b, rows, path);
      }
    } else {
      SeesSummary(path);
    }
  }

  lemma SeesSummary(path: string)
    requires !StepsAside(path)
    ensures !NeverSeesSummary(path)
  {
    hide Split, Walk;
    var names := Names(Split(path, DOT));
    var rest := if |names| > 1 then names[2..] else [];
    var a, b := WithComputed(map[]), WithComputed(map[SUMMARY := Along(rest)]);
    assert SameButSummary(a, b);
    LookupIsWalk(Facts(a, map[]), path);
    LookupIsWalk(Facts(b, map[]), path);
    assert SUMMARY in b.computedData && SUMMARY !in a.computedData;
    WalkEnd(Facts(a, map[]));
    WalkEnd(Facts(b, map[]));
    assert forall i :: 0 <= i < |names| ==> names[i] in names;
    if names == [] {
      assert Facts(a, map[]).fields[COMPUTED] != Facts(b, map[]).fields[COMPUTED];
    } else {
      WalkFirst(Facts(a, map[]), names);
      WalkFirst(Facts(b, map[]), names);
      WalkEnd(Obj(a.computedData));
      WalkEnd(Obj(b.computedData));
      if |names| > 1 {
        assert names[1..][0] == names[1] && names[1..][1..] == rest;
        WalkFirst(Obj(a.computedData), names[1..]);
        WalkFirst(Obj(b.computedData), names[1..]);
        WalkAlong(rest);
      } else {
        assert names[1..] == [];
      }
    }
    assert LookupMapping(Facts(a, map[]), path) != LookupMapping(Facts(b, map[]), path);
  }

  lemma WalkEnd(j: Json)
    ensures Walk(j, []) == j
  {
  }

  // ----- configurations whose decision stands -----

  /** Every condition that can hold at all reads past the summary. */
  predicate RuleIgnoresSummary(r: RuleEntry) {
    r.Rule? && r.all.Some? ==>
      forall c :: c in r.all.value && c.Condition? && c.fact.Some? && !Blank(c.fact.value) ==> StepsAside(c.fact.value)
  }

  predicate IgnoresSummary(flow: FlowConfig) {
    flow.decision.Some? ==> forall r :: r in flow.decision.value.rules ==> RuleIgnoresSummary(r)
  }

  lemma SameMatch(lib: Lib, r: RuleEntry, a: Submission, b: Submission, rows: Rows)
    requires RuleIgnoresSummary(r) && SameButSummary(a, b)
    ensures RuleMatches(lib, r, Facts(a, rows)) == RuleMatches(lib, r, Facts(b, rows))
  {
    hide Facts, LookupMapping, StepsAside, Strip, SameButSummary;
    if r.Rule? && r.all.Some? {
      forall c | c in r.all.value && c.Condition?
        ensures ConditionMatches(lib, c, Facts(a, rows)) == ConditionMatches(lib, c, Facts(b, rows))
      {
        if c.fact.Some? && !Blank(c.fact.value) {
          ReadsAside(a, b, rows, c.fact.value);
        }
      }
    }
  }

  lemma {:induction false} SameFirstMatch(lib: Lib, rules: seq<RuleEntry>, a: Submission, b: Submission, rows: Rows, from: nat)
    requires from <= |rules| && SameButSummary(a, b) && forall r :: r in rules ==> RuleIgnoresSummary(r)
    ensures FirstMatch(lib, rules, Facts(a, rows), from) == FirstMatch(lib, rules, Facts(b, rows), from)
    decreases |rules| - from
  {
    hide Facts, RuleMatches, RuleIgnoresSummary, SameButSummary;
    if from < |rules| {
      SameMatch(lib, rules[from], a, b, rows);
      SameFirstMatch(lib, rules, a, b, rows, from + 1);
    }
  }

  lemma SameDecision(lib: Lib, flow: FlowConfig, a: Submission, b: Submission, rows: Rows)
    requires IgnoresSummary(flow) && SameButSummary(a, b)
    ensures Decide(lib, flow, Facts(a, rows)) == Decide(lib, flow, Facts(b, rows))
  {
    hide Facts, FirstMatch, RuleIgnoresSummary, SameButSummary;
    if flow.decision.Some? {
      SameFirstMatch(lib, flow.decision.value.rules, a, b, rows, 0);
    }
  }

  /** The library and the flow are the same, and of the submission at most the summary differs. */
  ghost predicate SameSetting(a: Context, b: Context) {
    a.lib == b.lib && a.flow == b.flow && SameButSummary(a.submission, b.submission)
  }

  /** The run as finalizing it in this context leaves it. */
  ghost predicate FinalIn(run: Run, ctx: Context) {
    && Sound(run) && !run.active && run.completed && run.currentStep.None? && !run.deferred
    && run.verdict == Some(Decide(ctx.lib, ctx.flow, Facts(ctx.submission, run.rows)))
    && run.status == StatusOf(run.verdict.value.decision)
  }

  lemma FinalizedIsFinal(run: Run, call: Call)
    requires Sound(run) && Finalizes(run, call)
    ensures FinalIn(Perform(run, call), call.ctx)
  {
    hide Perform, Decide, Facts, Sound;
    PerformSound(run, call);
    FinalVerdict(run, call);
    FinalFields(run, call);
  }

  lemma FinalFields(run: Run, call: Call)
    requires Finalizes(run, call)
    ensures var end := Perform(run, call);
            !end.active && end.completed && end.currentStep.None? && !end.deferred
  {
    hide Decide, Facts, AdvanceRows, ActedRow, FirstWaiting;
  }

  lemma FinalStays(run: Run, ctx: Context, call: Call)
    requires FinalIn(run, ctx) && SameSetting(ctx, call.ctx) && IgnoresSummary(ctx.flow)
    ensures Perform(run, call) == run.(facts := Perform(run, call).facts) && FinalIn(Perform(run, call), ctx)
  {
    FinishedRowsFixed(run, call);
    SameDecision(ctx.lib, ctx.flow, ctx.submission, call.ctx.submission, run.rows);
    PerformSound(run, call);
    if call.op.ActivityAdvance? {
      FinalizedIsFinal(run, call);
      FinalShape(run, call);
    } else {
      NoAdvanceNoChange(run, call);
    }
  }

  lemma FinalShape(run: Run, call: Call)
    requires call.op.ActivityAdvance? && Finalizes(run, call)
    ensures var r := Perform(run, call);
            r == run.(rows := r.rows, status := r.status, currentStep := r.currentStep, verdict := r.verdict,
                      facts := r.facts, completed := r.completed, active := r.active, deferred := r.deferred)
  {
    hide Decide, Facts, AdvanceRows, FirstWaiting;
  }

  lemma NoAdvanceNoChange(run: Run, call: Call)
    requires !run.active && AllTerminal(run.rows) && !call.op.ActivityAdvance?
    ensures Perform(run, call) == run
  {
    hide ApplyUserAction, Advance;
  }

  /** Once finalized under a configuration whose rules read past the summary, a run keeps its rows, its verdict and
      its status for good: whatever is called later, it changes at most its copy of the facts. */
  lemma {:induction false} FinalForGood(run: Run, call: Call, calls: seq<Call>)
    requires Sound(run) && Finalizes(run, call) && IgnoresSummary(call.ctx.flow)
    requires forall c :: c in calls ==> SameSetting(call.ctx, c.ctx)
    ensures var end := Perform(run, call);
            var later := Replay(end, calls);
            later == end.(facts := later.facts) && FinalIn(later, call.ctx)
  {
    hide Perform, FinalIn, SameSetting, IgnoresSummary;
    if calls == [] {
      FinalizedIsFinal(run, call);
    } else {
      var before, last := calls[..|calls| - 1], calls[|calls| - 1];
      assert last in calls;
      FinalForGood(run, call, before);
      FinalStays(Replay(Perform(run, call), before), call.ctx, last);
    }
  }

  lemma WrittenIsSameButSummary(id: string, run: Run, before: Submission, after: Submission)
    requires SummaryWritten(id, run, before, after)
    ensures SameButSummary(before, after)
  {
    hide Summary, Payload;
    assert before.computedData - {SUMMARY} == after.computedData - {SUMMARY};
  }

  lemma SummaryIgnoresFacts(id: string, a: Run, b: Run)
    requires b == a.(facts := b.facts)
    ensures Summary(id, a) == Summary(id, b)
  {
  }

  /** Under such a configuration a repeated advance of a finished run, with the submission that the first one wrote,
      decides the same and writes nothing new. */
  lemma SecondAdvanceIdle(id: string, run: Run, call: Call, written: Submission)
    requires Sound(run) && Finalizes(run, call) && IgnoresSummary(call.ctx.flow)
    requires SummaryWritten(id, Perform(run, call), call.ctx.submission, written)
    ensures var end := Perform(run, call);
            var again := Perform(end, Call(call.ctx.(submission := written), ActivityAdvance));
            && again == end.(facts := again.facts)
            && forall s :: SummaryWritten(id, again, written, s) ==> s == written
  {
    hide Perform, FinalIn, IgnoresSummary, Summary, Payload, SameButSummary;
    var end, second := Perform(run, call), Call(call.ctx.(submission := written), ActivityAdvance);
    WrittenIsSameButSummary(id, end, call.ctx.submission, written);
    FinalizedIsFinal(run, call);
    FinalStays(end, call.ctx, second);
    SummaryIgnoresFacts(id, end, Perform(end, second));
    forall s | SummaryWritten(id, Perform(end, second), written, s) ensures s == written {
      assert s.computedData == written.computedData && s.validation == written.validation;
    }
  }

  // ----- what the summary shows -----

  /** What the summary of a run says of it under each name. */
  function Told(id: string, run: Run, name: string): Json {
    if name == "run_id" then Str(id)
    else if name == "decision" then (if run.verdict.Some? then Str(run.verdict.value.decision) else Null)
    else if name == "kyc_level" then (if run.verdict.Some? then Str(run.verdict.value.kycLevel) else Null)
    else if name == "status" then
      Str(match run.status
          case RunPending => "pending"
          case RunInProgress => "in_progress"
          case RunWaiting => "waiting_user_action"
          case RunCompleted => "completed"
          case RunFailed => "failed"
          case RunManualReview => "manual_review")
    else Null
  }

  lemma SummaryTells(id: string, run: Run, name: string)
    requires name in {"run_id", "decision", "kyc_level", "status"}
    ensures Summary(id, run).Obj? && GetOrNull(Summary(id, run).fields, name) == Told(id, run, name)
  {
  }

  lemma SummarySteps(id: string, run: Run, key: string, name: string)
    requires name in {"status", "outcome", "result"}
    ensures "steps" in Summary(id, run).fields && Summary(id, run).fields["steps"].Obj?
    ensures var steps := Summary(id, run).fields["steps"].fields;
            && (key in steps <==> key in run.rows)
            && (key in steps ==> steps[key].Obj? && GetOrNull(steps[key].fields, name) == StepField(run.rows[key], name))
  {
  }

  /** The decision document on the submission tells the verdict. */
  lemma PayloadTells(v: Verdict)
    ensures var p := Payload(v).fields;
            && p.Keys == {"decision", "kyc_level", "matched_rule", "reason_codes"}
            && p["decision"] == Str(v.decision) && p["kyc_level"] == Str(v.kycLevel)
            && p["matched_rule"] == (match v.matchedRule case Some(m) => Num(m as real) case None => Null)
            && p["reason_codes"].Arr? && |p["reason_codes"].items| == |v.reasons|
            && forall i :: 0 <= i < |v.reasons| ==> p["reason_codes"].items[i] == Str(v.reasons[i])
  {
  }

  /** After a run is finalized the fact paths under `computed_data.verification` tell its id, status and decision, and
      of every step its status, outcome and result. */
  lemma SummaryFacts(id: string, run: Run, before: Submission, after: Submission, rows: Rows, name: string)
    requires SummaryWritten(id, run, before, after) && name in {"run_id", "decision", "kyc_level", "status"}
    ensures LookupMapping(Facts(after, rows), PathOf([COMPUTED] + [SUMMARY, name])) == Told(id, run, name)
  {
    hide Walk, Facts, Summary, Payload, LookupMapping, PathOf, Told;
    var summary := Summary(id, run);
    assert [SUMMARY, name] == [SUMMARY] + ([name] + []);
    assert Plain([SUMMARY, name]) by { OneOfFour(name); }
    SubmissionFact(after, rows, [SUMMARY, name]);
    WalkStep(Obj(after.computedData), SUMMARY, [name] + []);
    SummaryTells(id, run, name);
    WalkStep(summary, name, []);
    WalkEnd(GetOrNull(summary.fields, name));
  }

  lemma OneOfFour(name: string)
    requires name in {"run_id", "decision", "kyc_level", "status"}
    ensures name != "" && '.' !in name
  {
  }

  lemma SummaryStepFacts(id: string, run: Run, before: Submission, after: Submission, rows: Rows, key: string, name: string)
    requires SummaryWritten(id, run, before, after) && name in {"status", "outcome", "result"} && Dotless(key)
    ensures LookupMapping(Facts(after, rows), PathOf([COMPUTED] + [SUMMARY, "steps", key, name])) ==
            if key in run.rows then StepField(run.rows[key], name) else Null
  {
    hide Walk, Facts, Summary, Payload, LookupMapping, PathOf, StepField;
    var summary := Summary(id, run);
    assert [SUMMARY, "steps", key, name] == [SUMMARY] + (["steps"] + ([key] + ([name] + [])));
    assert Plain([SUMMARY, "steps", key, name]) by { OneOfThree(name); }
    SubmissionFact(after, rows, [SUMMARY, "steps", key, name]);
    WalkStep(Obj(after.computedData), SUMMARY, ["steps"] + ([key] + ([name] + [])));
    SummarySteps(id, run, key, name);
    SummaryTells(id, run, "status");
    WalkStep(summary, "steps", [key] + ([name] + []));
    WalkStep(summary.fields["steps"], key, [name] + []);
    if key in run.rows {
      var told := summary.fields["steps"].fields[key];
      WalkStep(told, name, []);
      WalkEnd(GetOrNull(told.fields, name));
    }
  }

  lemma OneOfThree(name: string)
    requires name in {"status", "outcome", "result"}
    ensures name != "" && '.' !in name
  {
  }

  // ----- a configuration whose decision does not stand -----

  const SUMMARY_PATH := "computed_data.verification"

  /** Reject what has a summary, approve everything else. */
  function FlipFlow(): FlowConfig {
    var rule := Rule(Some([Condition(Some(SUMMARY_PATH), IsTruthy)]), Answer("rejected", "none", []));
    FlowConfig(None, Some(DecisionConfig([rule], Some(Answer("approved", "basic", [])))))
  }

  lemma SummaryFact(submission: Submission, rows: Rows)
    ensures LookupMapping(Facts(submission, rows), SUMMARY_PATH) == GetOrNull(submission.computedData, SUMMARY)
    ensures !Blank(SUMMARY_PATH)
  {
    hide Split, Strip;
    var names := [COMPUTED, SUMMARY];
    assert names[1..] == [SUMMARY] && [SUMMARY][1..] == [];
    assert Join(names, DOT) == SUMMARY_PATH by { assert Join([SUMMARY], DOT) == SUMMARY; }
    LookupNames(Facts(submission, rows), names);
    hide Walk;
    WalkFirst(Facts(submission, rows), names);
    WalkFirst(Obj(submission.computedData), [SUMMARY]);
    WalkEnd(GetOrNull(submission.computedData, SUMMARY));
    assert Trimmed(SUMMARY_PATH);
    StripTrims(SUMMARY_PATH);
  }

  lemma FlipDecides(lib: Lib, submission: Submission, rows: Rows)
    ensures Decide(lib, FlipFlow(), Facts(submission, rows)).decision ==
            if Truthy(GetOrNull(submission.computedData, SUMMARY)) then "rejected" else "approved"
  {
    hide Facts, LookupMapping, Strip, GetOrNull;
    SummaryFact(submission, rows);
    var rules := FlipFlow().decision.value.rules;
    var c := Condition(Some(SUMMARY_PATH), IsTruthy);
    assert rules[0].all.value == [c];
    assert RuleMatches(lib, rules[0], Facts(submission, rows)) == ConditionMatches(lib, c, Facts(submission, rows));
  }

  /** Under it every run that finishes is approved, and a repeated advance rejects it. */
  lemma VerdictFlips(id: string, run: Run, call: Call, written: Submission)
    requires Finalizes(run, call) && call.ctx.flow == FlipFlow() && SUMMARY !in call.ctx.submission.computedData
    requires Sound(run) && SummaryWritten(id, Perform(run, call), call.ctx.submission, written)
    ensures var end := Perform(run, call);
            var again := Perform(end, Call(call.ctx.(submission := written), ActivityAdvance));
            end.status.RunCompleted? && again.status.RunFailed?
  {
    hide Perform, Decide, Facts, Summary, Payload, FlipFlow;
    var end, second := Perform(run, call), Call(call.ctx.(submission := written), ActivityAdvance);
    FinalVerdict(run, call);
    FlipDecides(call.ctx.lib, call.ctx.submission, end.rows);
    FinalizedIsFinal(run, call);
    FinishedRowsFixed(end, second);
    SecondFinalizes(end, second);
    FinalVerdict(end, second);
    FlipDecides(call.ctx.lib, written, end.rows);
    SummaryTruthy(id, end);
  }

  lemma SecondFinalizes(run: Run, call: Call)
    requires call.op.ActivityAdvance? && !Perform(run, call).active
    ensures Finalizes(run, call)
  {
    hide Perform;
  }

  lemma SummaryTruthy(id: string, run: Run)
    ensures Truthy(Summary(id, run))
  {
    assert "run_id" in Summary(id, run).fields;
  }

  /** For instance one phone step, answered with the right code. */
  lemma PhoneRunFlips(id: string, ctx: Context, written: Submission)
    requires ctx.flow == FlipFlow() && SUMMARY !in ctx.submission.computedData
    requires SummaryWritten(id, Replay(NewRun(PhonePlan(), ["a"]), [Call(ctx, Start(false)), Call(ctx, Act("a", Str("111111")))]),
                            ctx.submission, written)
    ensures var calls := [Call(ctx, Start(false)), Call(ctx, Act("a", Str("111111")))];
            var end := Replay(NewRun(PhonePlan(), ["a"]), calls);
            var again := Perform(end, Call(ctx.(submission := written), ActivityAdvance));
            end.status.RunCompleted? && again.status.RunFailed?
  {
    hide Perform, PhoneCode, Sound, RightCode, NonBlankText, FlipFlow, SummaryWritten;
    var start, first, second := NewRun(PhonePlan(), ["a"]), Call(ctx, Start(false)), Call(ctx, Act("a", Str("111111")));
    var run := Perform(start, first);
    PhoneRunWaits(ctx);
    NewRunSound(PhonePlan(), ["a"]);
    PerformSound(start, first);
    SameKeys(start.rows, run.rows);
    DefaultCode(ctx, run.rows["a"]);
    RightCodeFinishes(run, ctx, "a", run.rows["a"], Str("111111"));
    assert [first, second][..1] == [first] && [first][..0] == [];
    assert Replay(start, [first]) == run;
    assert Replay(start, [first, second]) == Perform(run, second);
    VerdictFlips(id, run, second, written);
  }
}
