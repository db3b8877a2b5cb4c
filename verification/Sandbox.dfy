/** The dry run of a rule list on synthetic answers (app/services/transforms/sandbox.py). */
module Sandbox {
  import opened Prelude
  import opened Forms
  import opened Executor
  import opened DiffService
  import opened DiffCoverage

  datatype Finding = MissingParam(name: string) | UnknownSource | UnknownTarget | Crashed | RuleFailed(id: nat)

  datatype RuleResult = RuleResult(index: nat, target: string, success: bool, output: Answer, warnings: nat, findings: seq<Finding>)

  /** `validate_rule_params` for parameters that have their types. */
  function MissingParams(op: Operation, p: Params): seq<Finding> {
    match op
    case MapValues => if p.mapping.None? then [MissingParam("mapping")] else []
    case CoerceType => if p.toType.None? then [MissingParam("to_type")] else []
    case SplitText =>
      (if p.separator.None? then [MissingParam("separator")] else [])
      + (if p.index.None? then [MissingParam("index")] else [])
    case MergeTexts => if p.sources.None? then [MissingParam("sources")] else []
    case Compute => if p.expr.None? then [MissingParam("expr")] else []
    case _ => []
  }

  function SampleValue(t: FieldType): string {
    match t
    case Text => "sample_text"
    case Date => "2000-01-15"
    case Dropdown => "option_a"
    case Radio => "option_a"
    case Checkbox => "option_a,option_b"
    case FileUpload => "https://example.com/sample.pdf"
    case Signature => "data:image/png;base64,AAAA"
    case Other(_) => "sample_text"
  }

  function Sample(q: Question): string {
    if q.options != [] then q.options[0] else SampleValue(q.fieldType)
  }

  function Synthetic(src: Questions): Answers {
    map k | k in src.vals :: Some(Sample(src.vals[k]))
  }

  /** `_generate_synthetic_answers` */
  method GenerateSyntheticAnswers(src: Questions) returns (answers: Answers)
    requires src.Valid()
    ensures answers == Synthetic(src)
  {
    answers := map[];
    for i := 0 to |src.keys|
      invariant forall k :: k in answers <==> k in src.keys[..i]
      invariant forall k :: k in answers ==> k in src.vals && answers[k] == Some(Sample(src.vals[k]))
    {
      answers := answers[src.keys[i] := Some(Sample(src.vals[src.keys[i]]))];
    }
    assert src.keys[..|src.keys|] == src.keys;
  }

  /** What the dry run of one rule finds; nothing means success. */
  function Findings(lib: Lib, r: Rule, src: Questions, tgt: Questions, answers: Answers): seq<Finding> {
    if MissingParams(r.operation, r.params) != [] then MissingParams(r.operation, r.params)
    else if HasSource(r) && r.source.value !in src.vals && !r.operation.DefaultValue? && !r.operation.Drop? then [UnknownSource]
    else if r.target !in tgt.vals && !r.operation.Drop? then [UnknownTarget]
    else
      match Operate(lib, r, answers)
      case Raised => [Crashed]
      case Yields(_, failed, _) => if failed then [RuleFailed(r.id)] else []
  }

  function AllFindings(lib: Lib, rules: seq<Rule>, src: Questions, tgt: Questions, answers: Answers): seq<Finding> {
    if rules == [] then []
    else AllFindings(lib, rules[..|rules| - 1], src, tgt, answers) + Findings(lib, rules[|rules| - 1], src, tgt, answers)
  }

  lemma {:induction false} NothingFound(lib: Lib, rules: seq<Rule>, src: Questions, tgt: Questions, answers: Answers)
    ensures AllFindings(lib, rules, src, tgt, answers) == [] <==>
            forall r :: r in rules ==> Findings(lib, r, src, tgt, answers) == []
  {
    hide Findings;
    if rules != [] {
      assert rules == rules[..|rules| - 1] + [rules[|rules| - 1]];
      NothingFound(lib, rules[..|rules| - 1], src, tgt, answers);
    }
  }

  /** The value a dry run shows: none for a rule that is not run, that raises, or that discards. */
  function Output(lib: Lib, r: Rule, src: Questions, tgt: Questions, answers: Answers): Answer {
    var found := Findings(lib, r, src, tgt, answers);
    if found != [] && !found[0].RuleFailed? then None
    else
      match Operate(lib, r, answers)
      case Raised => None
      case Yields(v, _, _) => if v == DROPPED then None else v
  }

  /** The warnings of a rule that is run and does not raise. */
  function Warnings(lib: Lib, r: Rule, src: Questions, tgt: Questions, answers: Answers): nat {
    var found := Findings(lib, r, src, tgt, answers);
    if found != [] && !found[0].RuleFailed? then 0
    else
      match Operate(lib, r, answers)
      case Raised => 0
      case Yields(_, _, n) => n
  }

  function Report(lib: Lib, i: nat, r: Rule, src: Questions, tgt: Questions, answers: Answers): RuleResult {
    var found := Findings(lib, r, src, tgt, answers);
    RuleResult(i, r.target, found == [], Output(lib, r, src, tgt, answers), Warnings(lib, r, src, tgt, answers), found)
  }

  /** One result per rule, in order. */
  ghost predicate Reported(lib: Lib, rules: seq<Rule>, src: Questions, tgt: Questions, answers: Answers,
                           results: seq<RuleResult>)
  {
    && |results| == |rules|
    && forall i :: 0 <= i < |rules| ==> results[i] == Report(lib, i, rules[i], src, tgt, answers)
  }

  /** `sandbox_validate_rules` */
  method ValidateRules(lib: Lib, rules: seq<Rule>, src: Questions, tgt: Questions)
      returns (valid: bool, results: seq<RuleResult>, errors: seq<Finding>)
    requires src.Valid()
    ensures errors == AllFindings(lib, SortRules(rules), src, tgt, Synthetic(src))
    ensures valid <==> forall r :: r in rules ==> Findings(lib, r, src, tgt, Synthetic(src)) == []
    ensures Reported(lib, SortRules(rules), src, tgt, Synthetic(src), results)
  {
    hide Findings, SortRules, Reported, Synthetic, AllFindings;
    var answers := GenerateSyntheticAnswers(src);
    var sorted := SortRules(rules);
    results, errors := RunAll(lib, sorted, src, tgt, answers);
    valid := |errors| == 0;
    NothingFound(lib, sorted, src, tgt, answers);
    SortOrders(rules);
    forall r ensures r in rules <==> r in sorted {
      assert r in multiset(rules) <==> r in multiset(sorted);
    }
  }

  lemma FindingsNext(lib: Lib, rules: seq<Rule>, src: Questions, tgt: Questions, answers: Answers, i: nat)
    requires i < |rules|
    ensures AllFindings(lib, rules[..i + 1], src, tgt, answers) ==
            AllFindings(lib, rules[..i], src, tgt, answers) + Findings(lib, rules[i], src, tgt, answers)
  {
    hide Findings;
    assert rules[..i + 1][..i] == rules[..i];
  }

  method RunAll(lib: Lib, sorted: seq<Rule>, src: Questions, tgt: Questions, answers: Answers)
      returns (results: seq<RuleResult>, errors: seq<Finding>)
    ensures errors == AllFindings(lib, sorted, src, tgt, answers)
    ensures Reported(lib, sorted, src, tgt, answers, results)
  {
    hide Report, Findings, AllFindings;
    results, errors := [], [];
    EmptyList(lib, src, tgt, answers);
    for i := 0 to |sorted|
      invariant |results| == i && errors == AllFindings(lib, sorted[..i], src, tgt, answers)
      invariant forall j :: 0 <= j < i ==> results[j] == Report(lib, j, sorted[j], src, tgt, answers)
    {
      FindingsNext(lib, sorted, src, tgt, answers, i);
      var result := DryRun(lib, i, sorted[i], src, tgt, answers);
      results := results + [result];
      errors := errors + result.findings;
    }
    assert sorted[..|sorted|] == sorted;
  }

  lemma EmptyList(lib: Lib, src: Questions, tgt: Questions, answers: Answers)
    ensures AllFindings(lib, [], src, tgt, answers) == []
  {
  }

  /** The body of the sandbox loop. */
  method DryRun(lib: Lib, i: nat, r: Rule, src: Questions, tgt: Questions, answers: Answers) returns (result: RuleResult)
    ensures result == Report(lib, i, r, src, tgt, answers)
    ensures result.findings == Findings(lib, r, src, tgt, answers)
  {
    hide Operate;
    var missing := MissingParams(r.operation, r.params);
    if missing != [] {
      return RuleResult(i, r.target, false, None, 0, missing);
    }
    if HasSource(r) && r.source.value !in src.vals {
      if !r.operation.DefaultValue? && !r.operation.Drop? {
        return RuleResult(i, r.target, false, None, 0, [UnknownSource]);
      }
    }
    if r.target !in tgt.vals {
      if !r.operation.Drop? {
        return RuleResult(i, r.target, false, None, 0, [UnknownTarget]);
      }
    }
    var effect, errors, warnings := ApplyOperation(lib, r, answers, [], 0);
    if effect.Raised? {
      return RuleResult(i, r.target, false, None, 0, [Crashed]);
    }
    var output := if effect.value != DROPPED then effect.value else None;
    var found := seq(|errors|, i requires 0 <= i < |errors| => RuleFailed(errors[i]));
    result := RuleResult(i, r.target, |found| == 0, output, warnings, found);
  }

  // ----- generated programs in the sandbox -----

  /** The generated rule for this source key converts it to a date. */
  predicate BecomesDate(src: Questions, tgt: Questions, key: string)
    requires tgt.Valid()
  {
    && key != "" && key in src.vals && key in tgt.vals && key !in Renames(tgt)
    && src.vals[key].fieldType != tgt.vals[key].fieldType && tgt.vals[key].fieldType.Date?
  }

  /** The synthetic answer of a source key parses under one of the formats its conversion tries. */
  predicate SampleParses(lib: Lib, src: Questions, tgt: Questions, key: string)
    requires key in src.vals && key in tgt.vals
  {
    var q := src.vals[key];
    ParseDate(lib, DateFormats(CoerceParams(q.fieldType, tgt.vals[key].fieldType).format), Sample(q)).Some?
  }

  lemma SourceRulePasses(lib: Lib, src: Questions, tgt: Questions, key: string, i: nat)
    requires src.Valid() && tgt.Valid() && key in src.vals
    ensures Findings(lib, SourceRule(src, tgt, key, i), src, tgt, Synthetic(src)) == [] <==>
            (BecomesDate(src, tgt, key) ==> SampleParses(lib, src, tgt, key))
  {
    RenameTargets(tgt);
    hide Renames, ParseDate, MapAnswer, MapWarnings, OptionMapping, Sample;
  }

  lemma DefaultRulePasses(lib: Lib, src: Questions, tgt: Questions, r: Rule)
    requires r.operation.DefaultValue? && r.target in tgt.vals
    ensures Findings(lib, r, src, tgt, Synthetic(src)) == []
  {
  }

  lemma ProgramRulePasses(lib: Lib, src: Questions, tgt: Questions, i: nat)
    requires src.Valid() && tgt.Valid() && i < |GeneratedRules(src, tgt)|
    ensures Findings(lib, GeneratedRules(src, tgt)[i], src, tgt, Synthetic(src)) == [] <==>
            (i < |src.keys| && BecomesDate(src, tgt, src.keys[i]) ==> SampleParses(lib, src, tgt, src.keys[i]))
  {
    hide Findings, SourceRule, NewKeys, BecomesDate, SampleParses;
    ProgramShape(src, tgt);
    if i < |src.keys| {
      assert src.keys[i] in src.keys && src.keys[i] in src.vals;
      SourceRulePasses(lib, src, tgt, src.keys[i], i);
    } else {
      assert Shaped(src, tgt, GeneratedRules(src, tgt)[i], i);
      DefaultRulePasses(lib, src, tgt, GeneratedRules(src, tgt)[i]);
    }
  }

  /** A generated program passes the dry run exactly when every synthetic answer that it turns into a date parses;
      in particular always when it turns none into a date. */
  lemma GeneratedPassesIff(lib: Lib, src: Questions, tgt: Questions)
    requires src.Valid() && tgt.Valid()
    ensures AllFindings(lib, SortRules(GeneratedRules(src, tgt)), src, tgt, Synthetic(src)) == [] <==>
            forall key :: BecomesDate(src, tgt, key) ==> SampleParses(lib, src, tgt, key)
  {
    var rules := GeneratedRules(src, tgt);
    ProgramShape(src, tgt);
    hide Findings, GeneratedRules, BecomesDate, SampleParses, Synthetic;
    assert Ordered(rules) by {
      forall i | 0 <= i < |rules| ensures rules[i].order == i {
        assert Shaped(src, tgt, rules[i], i);
      }
    }
    SortFixed(rules);
    forall i | 0 <= i < |rules|
      ensures Findings(lib, rules[i], src, tgt, Synthetic(src)) == [] <==>
              (i < |src.keys| && BecomesDate(src, tgt, src.keys[i]) ==> SampleParses(lib, src, tgt, src.keys[i]))
    {
      ProgramRulePasses(lib, src, tgt, i);
    }
    NothingFoundIff(lib, src, tgt, rules);
  }

  lemma NothingFoundIff(lib: Lib, src: Questions, tgt: Questions, rules: seq<Rule>)
    requires src.Valid() && tgt.Valid() && |rules| >= |src.keys|
    requires forall i :: 0 <= i < |rules| ==>
               (Findings(lib, rules[i], src, tgt, Synthetic(src)) == [] <==>
                (i < |src.keys| && BecomesDate(src, tgt, src.keys[i]) ==> SampleParses(lib, src, tgt, src.keys[i])))
    ensures AllFindings(lib, rules, src, tgt, Synthetic(src)) == [] <==>
            forall key :: BecomesDate(src, tgt, key) ==> SampleParses(lib, src, tgt, key)
  {
    hide Findings, Synthetic, SampleParses, Renames;
    var answers := Synthetic(src);
    NothingFound(lib, rules, src, tgt, answers);
    if AllFindings(lib, rules, src, tgt, answers) == [] {
      forall key | BecomesDate(src, tgt, key) ensures SampleParses(lib, src, tgt, key) {
        assert key in src.keys;
        var i :| 0 <= i < |src.keys| && src.keys[i] == key;
        assert rules[i] in rules;
      }
    }
    if forall key :: BecomesDate(src, tgt, key) ==> SampleParses(lib, src, tgt, key) {
      forall r | r in rules ensures Findings(lib, r, src, tgt, answers) == [] {
        var i :| 0 <= i < |rules| && rules[i] == r;
      }
    }
  }

  // ----- what the dry run demands of a rule -----

  /** The parameters an operation cannot do without. */
  predicate HasParams(op: Operation, p: Params) {
    && (op.MapValues? ==> p.mapping.Some?) && (op.CoerceType? ==> p.toType.Some?)
    && (op.SplitText? ==> p.separator.Some? && p.index.Some?)
    && (op.MergeTexts? ==> p.sources.Some?) && (op.Compute? ==> p.expr.Some?)
  }

  /** A rule passes the dry run if and only if it has its parameters, its source key, if it has one and reads it, is one
      of the source version, its target key, unless it discards, is one of the target version, and running it on the
      answers neither raises nor fails. */
  lemma RulePassesIff(lib: Lib, r: Rule, src: Questions, tgt: Questions, answers: Answers)
    ensures Findings(lib, r, src, tgt, answers) == [] <==>
            && HasParams(r.operation, r.params)
            && (r.source.Some? && r.source.value != "" && !r.operation.DefaultValue? && !r.operation.Drop? ==> r.source.value in src.vals)
            && (!r.operation.Drop? ==> r.target in tgt.vals)
            && Operate(lib, r, answers).Yields? && !Operate(lib, r, answers).failed
  {
    hide Operate;
    ParamsFoundMissing(r.operation, r.params);
  }

  lemma ParamsFoundMissing(op: Operation, p: Params)
    ensures MissingParams(op, p) == [] <==> HasParams(op, p)
  {
  }

  /** For instance a text question without options that becomes a date passes exactly if the made-up text parses. */
  lemma TextToDatePasses(lib: Lib, src: Questions, tgt: Questions, key: string, i: nat)
    requires src.Valid() && tgt.Valid() && BecomesDate(src, tgt, key)
    requires src.vals[key].fieldType.Text? && src.vals[key].options == []
    ensures Findings(lib, SourceRule(src, tgt, key, i), src, tgt, Synthetic(src)) == [] <==>
            exists f :: f in ["YYYY-MM-DD", "%Y-%m-%d", "%m/%d/%Y", "%d/%m/%Y"] && lib.strptime("sample_text", f).Some?
  {
    hide Findings, SourceRule, Renames;
    SourceRulePasses(lib, src, tgt, key, i);
    var formats := ["YYYY-MM-DD", "%Y-%m-%d", "%m/%d/%Y", "%d/%m/%Y"];
    assert DateFormats(CoerceParams(src.vals[key].fieldType, tgt.vals[key].fieldType).format) == formats;
    ParsesIff(lib, formats, "sample_text");
  }

  lemma {:induction false} ParsesIff(lib: Lib, formats: seq<string>, raw: string)
    requires forall i :: 0 <= i < |formats| ==> formats[i] != ""
    ensures ParseDate(lib, formats, raw).Some? <==> exists f :: f in formats && lib.strptime(raw, f).Some?
  {
    if formats != [] {
      assert formats == [formats[0]] + formats[1..];
      ParsesIff(lib, formats[1..], raw);
    }
  }

  /** A rule that passes shows what running it yields, the marker as nothing, and its warnings. */
  lemma PassingReport(lib: Lib, i: nat, r: Rule, src: Questions, tgt: Questions, answers: Answers)
    requires Findings(lib, r, src, tgt, answers) == []
    ensures var shown, effect := Report(lib, i, r, src, tgt, answers), Operate(lib, r, answers);
            && effect.Yields? && shown.success && shown.index == i && shown.target == r.target
            && shown.output == (if effect.value == Some("__DROP__") then None else effect.value)
            && shown.warnings == effect.warnings
  {
    hide Operate;
  }

  /** The made-up answer of a question with options is its first; otherwise it is a fixed one of its type. */
  lemma SampleMeans(q: Question)
    ensures q.options != [] ==> Sample(q) == q.options[0]
    ensures q.options == [] ==>
              && (q.fieldType.Date? ==> Sample(q) == "2000-01-15")
              && (q.fieldType.Dropdown? || q.fieldType.Radio? ==> Sample(q) == "option_a")
              && (q.fieldType.Checkbox? ==> Sample(q) == "option_a,option_b")
              && (q.fieldType.FileUpload? ==> Sample(q) == "https://example.com/sample.pdf")
              && (q.fieldType.Signature? ==> Sample(q) == "data:image/png;base64,AAAA")
              && (q.fieldType.Text? || q.fieldType.Other? ==> Sample(q) == "sample_text")
  {
  }
}
