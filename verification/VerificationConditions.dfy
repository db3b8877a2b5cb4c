/** What the conditions of decision rules test and what they decide (app/services/verifications/service.py:476-535, 646-785). */
module VerificationConditions {
  import opened Prelude
  import opened PyStrings
  import opened Json
  import opened VerificationModel
  import opened VerificationScheduler
  import opened VerificationAdvance
  import opened VerificationDecision
  import opened VerificationReferences
  import opened VerificationRuns
  import opened VerificationTheorems
  import opened VerificationLiveness

  // ----- the facts that paths lead to -----

  /** Names that a path can be made of: neither empty nor with a dot. */
  predicate Plain(names: seq<string>) {
    forall i :: 0 <= i < |names| ==> names[i] != "" && '.' !in names[i]
  }

  function PathOf(names: seq<string>): string {
    Join(names, DOT)
  }

  lemma WalkStep(j: Json, name: string, names: seq<string>)
    requires j.Obj? && name != ""
    ensures Walk(j, [name] + names) == if name in j.fields then Walk(j.fields[name], names) else Null
  {
    assert ([name] + names)[1..] == names;
    if name in j.fields && j.fields[name].Null? {
      NullWalks(names);
    }
  }

  lemma {:induction false} NullWalks(names: seq<string>)
    ensures Walk(Null, names) == Null
  {
    if names != [] && names[0] == "" {
      NullWalks(names[1..]);
    }
  }

  lemma PathWalks(facts: Json, names: seq<string>)
    requires names != [] && Plain(names)
    ensures LookupMapping(facts, PathOf(names)) == Walk(facts, names)
  {
    hide Walk;
    LookupNames(facts, names);
  }

  /** Paths under `submission`, `answers` and `computed_data` lead into the submission. */
  lemma SubmissionFact(submission: Submission, rows: Rows, names: seq<string>)
    requires Plain(names)
    ensures LookupMapping(Facts(submission, rows), PathOf(["submission"] + names)) == Walk(Obj(submission.header), names)
    ensures LookupMapping(Facts(submission, rows), PathOf(["answers"] + names)) == Walk(Obj(submission.formData), names)
    ensures LookupMapping(Facts(submission, rows), PathOf(["computed_data"] + names)) == Walk(Obj(submission.computedData), names)
  {
    hide Walk, LookupMapping, PathOf;
    var facts := Facts(submission, rows);
    PathWalks(facts, ["submission"] + names);
    PathWalks(facts, ["answers"] + names);
    PathWalks(facts, ["computed_data"] + names);
    WalkStep(facts, "submission", names);
    WalkStep(facts, "answers", names);
    WalkStep(facts, "computed_data", names);
  }

  /** What the facts show of a step under each of its five names. */
  function StepField(s: Step, field: string): Json {
    if field == "status" then
      Str(if s.status.Pending? then "pending" else if s.status.WaitingUserAction? then "waiting_user_action"
          else if s.status.Completed? then "completed" else if s.status.Failed? then "failed"
          else if s.status.InProgress? then "in_progress" else if s.status.Skipped? then "skipped" else "expired")
    else if field == "outcome" then
      if s.outcome.None? then Null
      else Str(if s.outcome.value.Pass? then "pass" else if s.outcome.value.Review? then "review"
               else if s.outcome.value.Fail? then "fail" else "pending")
    else if field == "input" then Obj(s.input)
    else if field == "output" then Obj(s.output)
    else if field == "result" then Obj(s.result)
    else Null
  }

  lemma StepFieldShown(s: Step, field: string)
    ensures GetOrNull(StepFacts(s).fields, field) == StepField(s, field)
  {
  }

  /** Paths under `steps.K` lead to these, and nowhere when there is no step K. */
  lemma StepFact(submission: Submission, rows: Rows, key: string, field: string, names: seq<string>)
    requires Plain([key, field]) && Plain(names)
    ensures LookupMapping(Facts(submission, rows), PathOf(["steps", key, field] + names)) ==
            if key in rows then Walk(StepField(rows[key], field), names) else Null
  {
    hide Walk, LookupMapping, PathOf, StepFacts, StepField;
    var facts := Facts(submission, rows);
    var steps: Json := Obj(map k | k in rows :: StepFacts(rows[k]));
    var parts := ["steps", key, field] + names;
    assert [key, field][0] == key && [key, field][1] == field;
    assert Plain(parts) by {
      assert forall i :: 3 <= i < |parts| ==> parts[i] == names[i - 3];
    }
    PathWalks(facts, parts);
    assert parts == ["steps"] + ([key] + ([field] + names));
    WalkStep(facts, "steps", [key] + ([field] + names));
    assert facts.fields["steps"] == steps;
    WalkStep(steps, key, [field] + names);
    if key in rows {
      StepFactsObj(rows[key]);
      WalkStep(StepFacts(rows[key]), field, names);
      StepFieldShown(rows[key], field);
      NullWalks(names);
    }
  }

  lemma StepFactsObj(s: Step)
    ensures StepFacts(s).Obj?
  {
  }

  // ----- what a condition tests -----

  /** The fact under the path is this value. */
  predicate Shows(facts: Json, path: string, value: Json) {
    !Blank(path) && LookupMapping(facts, path) == value
  }

  /** On a number the tests compare it in the direction they say; the bound belongs to both. */
  lemma NumberConditions(lib: Lib, facts: Json, path: string, x: real, b: real)
    requires Shows(facts, path, Num(x))
    ensures ConditionMatches(lib, Condition(Some(path), Gte(Num(b))), facts) <==> x >= b
    ensures ConditionMatches(lib, Condition(Some(path), Lte(Num(b))), facts) <==> x <= b
    ensures ConditionMatches(lib, Condition(Some(path), IsTruthy), facts) <==> x != 0.0
    ensures ConditionMatches(lib, Condition(Some(path), Equals(Num(b))), facts) <==> x == b
  {
    hide LookupMapping, Blank;
  }

  /** A text is compared by the number it reads as, true as 1 and false as 0. */
  lemma ConvertedConditions(lib: Lib, facts: Json, path: string, s: string, b: real)
    requires Shows(facts, path, Str(s))
    ensures ConditionMatches(lib, Condition(Some(path), Gte(Num(b))), facts) <==> lib.number(s).Some? && lib.number(s).value >= b
    ensures ConditionMatches(lib, Condition(Some(path), Lte(Num(b))), facts) <==> lib.number(s).Some? && lib.number(s).value <= b
  {
    hide LookupMapping, Blank;
  }

  lemma BooleanConditions(lib: Lib, facts: Json, path: string, v: bool, b: real)
    requires Shows(facts, path, Bool(v))
    ensures ConditionMatches(lib, Condition(Some(path), Gte(Num(b))), facts) <==> (if v then 1.0 else 0.0) >= b
    ensures ConditionMatches(lib, Condition(Some(path), Lte(Num(b))), facts) <==> (if v then 1.0 else 0.0) <= b
    ensures ConditionMatches(lib, Condition(Some(path), IsTruthy), facts) <==> v
  {
    hide LookupMapping, Blank;
  }

  /** Neither numeric test holds on what is no number, nor against a bound that is none. */
  lemma NoNumberNoMatch(lib: Lib, facts: Json, path: string, actual: Json, bound: Json)
    requires Shows(facts, path, actual)
    requires actual.Null? || actual.Arr? || actual.Obj? || bound.Null? || bound.Arr? || bound.Obj?
    ensures !ConditionMatches(lib, Condition(Some(path), Gte(bound)), facts)
    ensures !ConditionMatches(lib, Condition(Some(path), Lte(bound)), facts)
  {
    hide LookupMapping, Blank;
  }

  /** The choice tests hold if and only if some choice is equal to the fact, as Python compares. */
  lemma ChoiceConditions(lib: Lib, facts: Json, path: string, actual: Json, choices: seq<Json>, choice: Json)
    requires Shows(facts, path, actual)
    ensures ConditionMatches(lib, Condition(Some(path), In(choices)), facts) <==> exists c :: c in choices && PyEq(actual, c)
    ensures ConditionMatches(lib, Condition(Some(path), Equals(choice)), facts) <==> PyEq(actual, choice)
    ensures !ConditionMatches(lib, Condition(Some(path), NoTest), facts)
  {
    hide LookupMapping, Blank, PyEq;
    if c :| c in choices && PyEq(actual, c) {
      var i :| 0 <= i < |choices| && choices[i] == c;
      assert PyEq(actual, choices[i]);
    }
    if i :| 0 <= i < |choices| && PyEq(actual, choices[i]) {
      assert choices[i] in choices;
    }
  }

  /** Text equals only the same text, whether Python compares it or not. */
  lemma TextEquality(s: string, j: Json)
    ensures PyEq(j, Str(s)) <==> j == Str(s)
  {
  }

  // ----- what a comparison step leaves to be tested -----

  /** The score is in the result and the output, and the outcome is the grade it earns. */
  predicate GradedBy(s: Step, x: real) {
    && s.status.Completed? && s.completed
    && "score" in s.result && s.result["score"] == Num(x) && "score" in s.output && s.output["score"] == Num(x)
    && "outcome" in s.result && s.result["outcome"] == StepField(s, "outcome")
    && (s.outcome == Some(Pass) <==> x >= s.def.config.passScore)
    && (s.outcome == Some(Review) <==> x < s.def.config.passScore && x >= s.def.config.reviewScore)
    && (s.outcome == Some(Fail) <==> x < s.def.config.passScore && x < s.def.config.reviewScore)
  }

  /** The maps that a graded comparison writes, each under the names that are looked up. */
  lemma GradedMaps(outcome: Json, score: Json, list: Json)
    ensures var result := map["outcome" := outcome, "score" := score, "comparisons" := list];
            "score" in result && result["score"] == score && "outcome" in result && result["outcome"] == outcome
    ensures var output := map["score" := score, "comparisons" := list];
            "score" in output && output["score"] == score
  {
  }

  lemma GradedFields(ctx: Context, s: Step, cs: seq<Compared>) returns (list: Json)
    requires cs != []
    ensures var t, x := Graded(ctx, s, cs), ctx.lib.round4(TotalScore(cs) / (|cs| as real));
            && t.status.Completed? && t.completed && t.def == s.def && t.outcome == Some(Grade(x, s.def.config))
            && t.output == map["score" := Num(x), "comparisons" := list]
            && t.result == map["outcome" := OutcomeText(t.outcome), "score" := Num(x), "comparisons" := list]
  {
    hide TotalScore, AsJson, Grade, OutcomeText;
    list := Arr(seq(|cs|, i requires 0 <= i < |cs| => AsJson(cs[i])));
  }

  lemma GradedIsGraded(ctx: Context, s: Step, cs: seq<Compared>)
    requires cs != []
    ensures GradedBy(Graded(ctx, s, cs), ctx.lib.round4(TotalScore(cs) / (|cs| as real)))
  {
    hide Graded, TotalScore, Grade, OutcomeText, StepField;
    var x, t := ctx.lib.round4(TotalScore(cs) / (|cs| as real)), Graded(ctx, s, cs);
    var list := GradedFields(ctx, s, cs);
    GradedMaps(OutcomeText(t.outcome), Num(x), list);
    GradeMeans(x, s.def.config);
    OutcomeShown(t);
  }

  lemma GradeMeans(x: real, cfg: StepConfig)
    ensures Grade(x, cfg) == Pass <==> x >= cfg.passScore
    ensures Grade(x, cfg) == Review <==> x < cfg.passScore && x >= cfg.reviewScore
    ensures Grade(x, cfg) == Fail <==> x < cfg.passScore && x < cfg.reviewScore
  {
  }

  lemma OutcomeShown(s: Step)
    ensures StepField(s, "outcome") == OutcomeText(s.outcome)
  {
  }

  /** A comparison step is graded by the rounded average over its pairs, if there are any, and fails otherwise. */
  lemma ComparisonResult(ctx: Context, rows: Rows, s: Step)
    requires s.def.stepType.Comparison?
    ensures var t, pairs := Execute(ctx, rows, s), s.def.config.pairs;
            if pairs.None? || pairs.value == [] then t == Fails(s, PairsMissing)
            else if PairsAmong(pairs.value) == [] then t == Fails(s, PairsInvalid)
            else
              var cs := ComparePairs(ctx, rows, pairs.value);
              cs != [] && GradedBy(t, ctx.lib.round4(TotalScore(cs) / (|cs| as real)))
  {
    hide TotalScore, Graded, Fails, GradedBy, ComparePairs, PairsAmong;
    var pairs := s.def.config.pairs;
    if pairs.Some? {
      ComparesEachPair(ctx, rows, pairs.value);
      var cs := ComparePairs(ctx, rows, pairs.value);
      if cs != [] {
        GradedIsGraded(ctx, s, cs);
      }
    }
  }

  /** A comparison row is pending with nothing in it, graded, or failed with nothing in it. */
  ghost predicate ComparisonRow(s: Step) {
    s.def.stepType.Comparison? ==>
      || (s.status.Pending? && s.result == map[])
      || (exists x :: GradedBy(s, x))
      || (s.status.Failed? && s.result == map[])
  }

  lemma ComparisonRowStarted(ctx: Context, rows: Rows, s: Step)
    requires Startable(s) && ComparisonRow(s) && s.def.stepType.Comparison?
    ensures ComparisonRow(Execute(ctx, rows, s))
  {
    hide Execute, GradedBy, TotalScore, ComparePairs, PairsAmong;
    assert s.result == map[] by { StartableNotGraded(s); }
    ComparisonResult(ctx, rows, s);
    ExecuteStarts(ctx, rows, s);
  }

  lemma StartableNotGraded(s: Step)
    requires Startable(s) && ComparisonRow(s) && s.def.stepType.Comparison?
    ensures s.result == map[]
  {
  }

  ghost predicate ComparisonRows(rows: Rows) {
    forall k :: k in rows ==> ComparisonRow(rows[k])
  }

  lemma {:induction false} ScheduleComparisons(ctx: Context, rows: Rows, ks: seq<string>)
    requires Schedule(ctx, rows, ks) && ComparisonRows(rows)
    ensures ComparisonRows(After(ctx, rows, ks))
    decreases |ks|
  {
    hide Execute, ComparisonRow, DepsSatisfied;
    if ks != [] {
      var s := rows[ks[0]];
      ExecuteStarts(ctx, rows, s);
      if s.def.stepType.Comparison? {
        ComparisonRowStarted(ctx, rows, s);
      } else {
        OtherRow(Execute(ctx, rows, s));
      }
      ScheduleComparisons(ctx, Fire(ctx, rows, ks[0]), ks[1..]);
    }
  }

  lemma OtherRow(s: Step)
    requires !s.def.stepType.Comparison?
    ensures ComparisonRow(s)
  {
  }

  lemma PerformComparisons(run: Run, call: Call)
    requires Sound(run) && ComparisonRows(run.rows)
    ensures ComparisonRows(Perform(run, call).rows)
  {
    hide Perform, Acted, AdvanceRows, ComparisonRow, RowsSound, ActsOn, Advances, StepSound;
    var acted := Acted(run, call);
    PerformPhases(run, call);
    ActedSound(run, call);
    SameKeys(run.rows, acted.rows);
    forall k | k in acted.rows ensures ComparisonRow(acted.rows[k]) {
      if ActsOn(run, call, k) {
        WaitingIsChallenge(run, k);
        OtherRow(acted.rows[k]);
      }
    }
    SoundLists(acted);
    var ks := AdvanceCompletes(call.ctx, acted.rows, acted.order);
    ScheduleComparisons(call.ctx, acted.rows, ks);
  }

  lemma SoundLists(run: Run)
    requires Sound(run)
    ensures forall k :: k in run.rows ==> k in run.order
  {
  }

  lemma WaitingIsChallenge(run: Run, k: string)
    requires Sound(run) && k in run.rows && Waiting(run.rows[k])
    ensures run.rows[k].def.stepType.ChallengeResponse?
  {
    assert StepSound(run.rows[k]);
  }

  /** In every reachable state. */
  lemma {:induction false} ReachedComparisons(plan: Plan, order: seq<string>, calls: seq<Call>)
    requires NoDuplicates(order) && forall k :: k in order <==> k in plan
    ensures ComparisonRows(Replay(NewRun(plan, order), calls).rows)
  {
    if calls != [] {
      var before := calls[..|calls| - 1];
      ReachedComparisons(plan, order, before);
      RunInvariant(plan, order, before);
      hide Perform, ComparisonRows, Sound;
      PerformComparisons(Replay(NewRun(plan, order), before), calls[|calls| - 1]);
    }
  }

  // ----- rules over scores -----

  /** The path `steps.K.result.score` */
  function ScorePath(key: string): string {
    PathOf(["steps", key, "result", "score"])
  }

  function ScoreAtLeast(key: string, b: real): ConditionEntry {
    Condition(Some(ScorePath(key)), Gte(Num(b)))
  }

  lemma ScoreShown(submission: Submission, rows: Rows, key: string)
    requires Dotless(key)
    ensures Shows(Facts(submission, rows), ScorePath(key),
                  if key in rows then GetOrNull(rows[key].result, "score") else Null)
  {
    hide LookupMapping, Walk, Facts, Blank;
    var names := ["steps", key, "result"] + ["score"];
    assert names == ["steps", key, "result", "score"];
    assert Plain([key, "result"]) && Plain(["score"]);
    StepFact(submission, rows, key, "result", ["score"]);
    if key in rows {
      assert ["score"] == ["score"] + [];
      WalkStep(Obj(rows[key].result), "score", []);
      WalkNothing(GetOrNull(rows[key].result, "score"));
    }
    ScorePathNotBlank(key);
  }

  lemma ScorePathNotBlank(key: string)
    ensures !Blank(ScorePath(key))
  {
    hide Strip;
    var tail := [key, "result", "score"];
    assert ["steps", key, "result", "score"][1..] == tail;
    var path := ScorePath(key);
    assert path == "steps" + DOT + Join(tail, DOT);
    assert path[0] == 's';
    SpaceFree(path);
  }

  lemma SpaceFree(path: string)
    requires path != "" && path[0] == 's'
    ensures !Blank(path)
  {
    if Blank(path) {
      hide Strip;
      BlankHead(path);
    }
  }

  lemma BlankHead(s: string)
    requires s != "" && Blank(s)
    ensures IsSpace(s[0])
  {
    if !IsSpace(s[0]) {
      assert StripLeft(s) == s;
      StripRightKeeps(s);
    }
  }

  lemma {:induction false} StripRightKeeps(s: string)
    requires s != "" && !IsSpace(s[0])
    ensures StripRight(s) != ""
  {
    if |s| > 1 && IsSpace(s[|s| - 1]) {
      StripRightKeeps(s[..|s| - 1]);
    }
  }

  /** A row's score is a number that reaches the bound. */
  predicate ScoreReached(lib: Lib, rows: Rows, key: string, b: real) {
    && key in rows
    && match GetOrNull(rows[key].result, "score")
       case Num(x) => x >= b
       case Bool(v) => (if v then 1.0 else 0.0) >= b
       case Str(s) => lib.number(s).Some? && lib.number(s).value >= b
       case _ => false
  }

  lemma ScoreConditionIff(lib: Lib, submission: Submission, rows: Rows, key: string, b: real)
    requires Dotless(key)
    ensures ConditionMatches(lib, ScoreAtLeast(key, b), Facts(submission, rows)) <==> ScoreReached(lib, rows, key, b)
  {
    hide Facts, ConditionMatches, LookupMapping, ScorePath, Dotless, Blank;
    ScoreShown(submission, rows, key);
    var facts, path := Facts(submission, rows), ScorePath(key);
    match if key in rows then GetOrNull(rows[key].result, "score") else Null
    case Num(x) => NumberConditions(lib, facts, path, x, b);
    case Bool(v) => BooleanConditions(lib, facts, path, v, b);
    case Str(s) => ConvertedConditions(lib, facts, path, s, b);
    case other => NoNumberNoMatch(lib, facts, path, other, Num(b));
  }

  /** The rule asks for the passes of these steps and then for a score, as a flow does that compares names. */
  predicate PassAndScoreRule(r: RuleEntry, keys: seq<string>, key: string, b: real) {
    && r.Rule? && r.all.Some? && |r.all.value| == |keys| + 1
    && (forall i :: 0 <= i < |keys| ==> Dotless(keys[i]) && DemandsPass(r.all.value[i], keys[i]))
    && Dotless(key) && r.all.value[|keys|] == ScoreAtLeast(key, b)
  }

  /** It matches if and only if all of them have passed and the score is reached. */
  lemma PassAndScoreRuleIff(lib: Lib, r: RuleEntry, submission: Submission, rows: Rows, keys: seq<string>, key: string, b: real)
    requires PassAndScoreRule(r, keys, key, b)
    ensures RuleMatches(lib, r, Facts(submission, rows)) <==> AllPassed(rows, keys) && ScoreReached(lib, rows, key, b)
  {
    hide Facts, Dotless, ConditionMatches, OutcomePath, ScoreReached, ScoreAtLeast;
    forall i | 0 <= i < |keys|
      ensures ConditionMatches(lib, r.all.value[i], Facts(submission, rows)) <==>
              keys[i] in rows && rows[keys[i]].outcome == Some(Pass)
    {
      PassCondition(lib, r.all.value[i], submission, rows, keys[i]);
    }
    ScoreConditionIff(lib, submission, rows, key, b);
    assert ScoreAtLeast(key, b).Condition? by { ScoreIsCondition(key, b); }
    forall c | c in r.all.value ensures exists i :: 0 <= i < |r.all.value| && r.all.value[i] == c {
    }
    assert forall i :: 0 <= i < |r.all.value| ==> r.all.value[i] in r.all.value;
  }

  lemma ScoreIsCondition(key: string, b: real)
    ensures ScoreAtLeast(key, b).Condition?
  {
  }

  /** When the call that finalizes a run matched a rule that demands a score of a comparison step, the step was
      completed with a score that reaches it, and graded by that score. */
  lemma DecidedByScore(plan: Plan, order: seq<string>, calls: seq<Call>, run: Run, call: Call, key: string, b: real, m: nat)
      returns (x: real)
    requires NoDuplicates(order) && forall k :: k in order <==> k in plan
    requires key in plan && plan[key].stepType.Comparison? && Dotless(key)
    requires run == Replay(NewRun(plan, order), calls) && Finalizes(run, call)
    requires var v := Perform(run, call).verdict; v.Some? && v.value.matchedRule == Some(m)
    requires var d := call.ctx.flow.decision;
             d.Some? && m < |d.value.rules| && d.value.rules[m].Rule? && d.value.rules[m].all.Some?
             && ScoreAtLeast(key, b) in d.value.rules[m].all.value
    ensures var rows := Perform(run, call).rows;
            key in rows && GradedBy(rows[key], x) && x >= b
  {
    hide Perform, Facts, Finalizes, ConditionMatches, GradedBy, ScoreAtLeast, ComparisonRows, Sound;
    var rows := Perform(run, call).rows;
    FinalVerdict(run, call);
    var rules := call.ctx.flow.decision.value.rules;
    assert FirstMatch(call.ctx.lib, rules, Facts(call.ctx.submission, rows), 0) == Some(m);
    ScoreIsCondition(key, b);
    ScoreConditionIff(call.ctx.lib, call.ctx.submission, rows, key, b);
    RunInvariant(plan, order, calls);
    ReachedComparisons(plan, order, calls);
    PerformComparisons(run, call);
    PerformSound(run, call);
    x := ScoreOfRow(call.ctx.lib, plan, rows, key, b);
  }

  lemma ScoreOfRow(lib: Lib, plan: Plan, rows: Rows, key: string, b: real) returns (x: real)
    requires PlanOf(rows) == plan && key in plan && plan[key].stepType.Comparison?
    requires ComparisonRows(rows) && ScoreReached(lib, rows, key, b)
    ensures key in rows && GradedBy(rows[key], x) && x >= b
  {
    assert rows[key].def == PlanOf(rows)[key];
    assert ComparisonRow(rows[key]);
    x :| GradedBy(rows[key], x);
  }

  /** A rule matches if and only if its list is not empty and every dict in it holds. What is no dict is passed over, so
      a list that holds nothing else matches whatever the facts are. */
  lemma RuleMatchesIff(lib: Lib, all: Option<seq<ConditionEntry>>, answer: Answer, facts: Json)
    ensures RuleMatches(lib, Rule(all, answer), facts) <==>
            && all.Some? && |all.value| > 0
            && forall i :: 0 <= i < |all.value| && all.value[i].Condition? ==> ConditionMatches(lib, all.value[i], facts)
    ensures !RuleMatches(lib, NotARule, facts)
    ensures all == Some([NotACondition]) ==> RuleMatches(lib, Rule(all, answer), facts)
  {
    hide ConditionMatches;
    if all.Some? {
      assert forall i :: 0 <= i < |all.value| ==> all.value[i] in all.value;
    }
  }

  // ----- the verdict -----

  /** The decision of an answer: its own, or manual review when it names none. */
  function Said(text: string, default: string): string {
    if |text| == 0 then default else text
  }

  /** A verdict is that of the first rule that matches; without one it is the fallback's, and without a fallback or
      any configuration it is manual review. */
  lemma DecideCases(lib: Lib, flow: FlowConfig, facts: Json)
    ensures var v := Decide(lib, flow, facts);
            match flow.decision
            case None => v == Verdict("manual_review", "pending_review", None, ["decision_config_missing"])
            case Some(cfg) =>
              match v.matchedRule
              case Some(m) =>
                && m < |cfg.rules| && RuleMatches(lib, cfg.rules[m], facts)
                && (forall i :: 0 <= i < m ==> !RuleMatches(lib, cfg.rules[i], facts))
                && var a := cfg.rules[m].answer;
                   v == Verdict(Said(a.decision, "manual_review"), Said(a.kycLevel, "pending_review"), Some(m), a.reasons)
              case None =>
                && (forall i :: 0 <= i < |cfg.rules| ==> !RuleMatches(lib, cfg.rules[i], facts))
                && v == match cfg.fallback
                        case Some(a) => Verdict(Said(a.decision, "manual_review"), Said(a.kycLevel, "pending_review"), None, a.reasons)
                        case None => Verdict("manual_review", "pending_review", None, ["decision_fallback_used"])
  {
    hide RuleMatches;
  }

  /** A call that finalizes a run leaves it completed, failed or in manual review by what the verdict says. */
  lemma FinalStatusIff(run: Run, call: Call)
    requires Finalizes(run, call)
    ensures var run' := Perform(run, call);
            && run'.verdict.Some? && run'.completed
            && (run'.status.RunCompleted? <==> run'.verdict.value.decision == "approved")
            && (run'.status.RunFailed? <==> run'.verdict.value.decision == "rejected")
            && (run'.status.RunManualReview? <==> run'.verdict.value.decision !in {"approved", "rejected"})
            && run'.facts == Some(Facts(call.ctx.submission, run'.rows))
  {
    hide Decide, Facts, AdvanceRows, ActedRow, FirstWaiting;
  }

  /** Input and output of a graded comparison list what was compared, pair by pair. */
  lemma ComparisonListed(ctx: Context, s: Step, cs: seq<Compared>, i: nat)
    requires i < |cs|
    ensures var t := Graded(ctx, s, cs);
            && "pairs" in t.input && "comparisons" in t.output && "comparisons" in t.result
            && t.input["pairs"] == t.output["comparisons"] == t.result["comparisons"] && t.output["comparisons"].Arr?
            && |t.output["comparisons"].items| == |cs|
            && t.output["comparisons"].items[i] ==
                 Obj(map["label" := cs[i].title, "left" := cs[i].left, "right" := cs[i].right, "score" := Num(cs[i].score)])
  {
    hide TotalScore, Grade, OutcomeText;
  }

  /** While a run waits, the step it shows is the first in the listing order that does. */
  lemma ShowsFirstWaiting(ctx: Context, run: Run)
    requires Sound(run) && Advance(ctx, run).status.RunWaiting?
    ensures var run' := Advance(ctx, run);
            && run'.currentStep.Some? && run'.currentStep.value in run'.rows && Waiting(run'.rows[run'.currentStep.value])
            && exists i :: 0 <= i < |run.order| && run.order[i] == run'.currentStep.value
                 && forall j :: 0 <= j < i && run.order[j] in run'.rows ==> !Waiting(run'.rows[run.order[j]])
  {
    AdvanceOutcome(ctx, run);
    hide Decide, Facts, AdvanceRows, Sound, WellStarted, StatusOf, AllTerminal;
    NotWaitingStatus(ctx, run);
    var i := FirstWaitingIsFirst(Advance(ctx, run).rows, run.order);
  }

  lemma NotWaitingStatus(ctx: Context, run: Run)
    ensures var rows := AdvanceRows(ctx, run.rows, run.order);
            && Advance(ctx, run).rows == rows
            && (Advance(ctx, run).status.RunWaiting? ==> Advance(ctx, run).currentStep == FirstWaiting(rows, run.order))
  {
    hide Decide, Facts, AdvanceRows, FirstWaiting;
  }
}
