/** Facts and first-match decision rules (app/services/verifications/service.py:691-785). */
module VerificationDecision {
  import opened Prelude
  import opened PyStrings
  import opened Json
  import opened VerificationModel

  datatype Verdict = Verdict(decision: string, kycLevel: string, matchedRule: Option<nat>, reasons: seq<string>)

  function StatusText(s: StepStatus): string {
    match s
    case Pending => "pending"
    case InProgress => "in_progress"
    case WaitingUserAction => "waiting_user_action"
    case Completed => "completed"
    case Failed => "failed"
    case Skipped => "skipped"
    case Expired => "expired"
  }

  function StepFacts(s: Step): Json {
    Obj(map[
      "status" := Str(StatusText(s.status)),
      "outcome" := OutcomeText(s.outcome),
      "input" := Obj(s.input),
      "output" := Obj(s.output),
      "result" := Obj(s.result)])
  }

  /** `_build_facts` */
  function Facts(submission: Submission, rows: Rows): Json {
    Obj(map[
      "submission" := Obj(submission.header),
      "answers" := Obj(submission.formData),
      "computed_data" := Obj(submission.computedData),
      "steps" := Obj(map k | k in rows :: StepFacts(rows[k]))])
  }

  /** `float(value)`; None stands for the exception that the comparisons swallow. */
  function ToFloat(lib: Lib, j: Json): Option<real> {
    match j
    case Bool(b) => Some(if b then 1.0 else 0.0)
    case Num(n) => Some(n)
    case Str(s) => lib.number(s)
    case _ => None
  }

  function Compare(lib: Lib, a: Json, b: Json, atLeast: bool): bool {
    var x, y := ToFloat(lib, a), ToFloat(lib, b);
    x.Some? && y.Some? && if atLeast then x.value >= y.value else x.value <= y.value
  }

  /** `_condition_matches` */
  predicate ConditionMatches(lib: Lib, c: ConditionEntry, facts: Json)
    requires c.Condition?
  {
    && c.fact.Some? && !Blank(c.fact.value)
    && var actual := LookupMapping(facts, c.fact.value);
       match c.test
       case Equals(expected) => PyEq(actual, expected)
       case Gte(bound) => Compare(lib, actual, bound, true)
       case Lte(bound) => Compare(lib, actual, bound, false)
       case In(choices) => exists i :: 0 <= i < |choices| && PyEq(actual, choices[i])
       case IsTruthy => Truthy(actual)
       case NoTest => false
  }

  /** `_rule_matches`: entries of "all" that are no dicts are passed over. */
  predicate RuleMatches(lib: Lib, r: RuleEntry, facts: Json) {
    && r.Rule? && r.all.Some? && r.all.value != []
    && forall c :: c in r.all.value && c.Condition? ==> ConditionMatches(lib, c, facts)
  }

  function FirstMatch(lib: Lib, rules: seq<RuleEntry>, facts: Json, from: nat): (m: Option<nat>)
    requires from <= |rules|
    ensures m.Some? ==> from <= m.value < |rules| && RuleMatches(lib, rules[m.value], facts)
    ensures forall i :: from <= i < (if m.Some? then m.value else |rules|) ==> !RuleMatches(lib, rules[i], facts)
    decreases |rules| - from
  {
    if from == |rules| then None
    else if RuleMatches(lib, rules[from], facts) then Some(from)
    else FirstMatch(lib, rules, facts, from + 1)
  }

  function OrElse(text: string, default: string): string {
    if text == "" then default else text
  }

  function Give(answer: Answer, matched: Option<nat>): Verdict {
    Verdict(OrElse(answer.decision, "manual_review"), OrElse(answer.kycLevel, "pending_review"), matched, answer.reasons)
  }

  /** `_evaluate_demo_decision` */
  function Decide(lib: Lib, flow: FlowConfig, facts: Json): Verdict {
    if flow.decision.None? then
      Verdict("manual_review", "pending_review", None, ["decision_config_missing"])
    else
      var cfg := flow.decision.value;
      var m := FirstMatch(lib, cfg.rules, facts, 0);
      if m.Some? then Give(cfg.rules[m.value].answer, m)
      else if cfg.fallback.Some? then Give(cfg.fallback.value, None)
      else Verdict("manual_review", "pending_review", None, ["decision_fallback_used"])
  }

  predicate Dotless(key: string) {
    key != "" && '.' !in key
  }

  /** The path `steps.K.outcome` */
  function OutcomePath(key: string): string {
    "steps." + key + ".outcome"
  }

  lemma JoinThree(a: string, b: string, c: string)
    ensures Join([a, b, c], DOT) == a + DOT + (b + DOT + c)
  {
    assert [a, b, c][1..] == [b, c] && [b, c][1..] == [c];
    assert Join([b, c], DOT) == b + DOT + c;
  }

  lemma WalkInto(j: Json, name: string, rest: seq<string>)
    requires j.Obj? && name != ""
    ensures Walk(j, [name] + rest) ==
            if GetOrNull(j.fields, name).Null? then Null else Walk(GetOrNull(j.fields, name), rest)
  {
    assert ([name] + rest)[1..] == rest;
  }

  /** The path of a dot-free step key leads to that step's outcome and nowhere else. */
  lemma OutcomeFact(submission: Submission, rows: Rows, key: string)
    requires Dotless(key)
    ensures LookupMapping(Facts(submission, rows), OutcomePath(key)) ==
            if key in rows then OutcomeText(rows[key].outcome) else Null
  {
    var facts := Facts(submission, rows);
    var steps: Json := Obj(map k | k in rows :: StepFacts(rows[k]));
    var names := ["steps", key, "outcome"];
    JoinThree("steps", key, "outcome");
    assert Join(names, DOT) == OutcomePath(key);
    LookupNames(facts, names);
    assert names == ["steps"] + ([key] + (["outcome"] + []));
    assert facts.fields["steps"] == steps;
    WalkInto(facts, "steps", [key] + (["outcome"] + []));
    WalkInto(steps, key, ["outcome"] + []);
    if key in rows {
      WalkInto(StepFacts(rows[key]), "outcome", []);
    }
  }

  /** A condition that asks for the outcome "pass" of a step. */
  predicate DemandsPass(c: ConditionEntry, key: string) {
    c.Condition? && c.fact == Some(OutcomePath(key)) && c.test == Equals(Str("pass"))
  }

  predicate RuleDemandsPass(r: RuleEntry, key: string) {
    r.Rule? && r.all.Some? && exists c :: c in r.all.value && DemandsPass(c, key)
  }

  /** A matched rule with such a condition really saw the step pass. */
  lemma MatchSawPass(lib: Lib, r: RuleEntry, submission: Submission, rows: Rows, key: string)
    requires Dotless(key) && RuleDemandsPass(r, key)
    requires RuleMatches(lib, r, Facts(submission, rows))
    ensures key in rows && rows[key].outcome == Some(Pass)
  {
    var c :| c in r.all.value && DemandsPass(c, key);
    OutcomeFact(submission, rows, key);
    assert ConditionMatches(lib, c, Facts(submission, rows));
    assert PyEq(LookupMapping(Facts(submission, rows), OutcomePath(key)), Str("pass"));
  }
}
