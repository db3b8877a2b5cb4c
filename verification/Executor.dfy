/** The rule interpreter of answer migration (app/services/transforms/executor.py). */
module Executor {
  import opened Prelude
  import opened PyStrings
  import opened Forms
  import opened AnswerValidator

  datatype Operation =
    | Identity | Rename | MapValues | CoerceType | SplitText | MergeTexts | DefaultValue | Compute | Drop | Unknown(name: string)

  type ValueMap = map<string, Option<string>>

  /** Rule parameters; None stands for a key that is absent from params. */
  datatype Params = Params(
    mapping: Option<ValueMap>,
    default: Option<string>,
    toType: Option<FieldType>,
    format: string,
    separator: Option<string>,
    index: Option<int>,
    sources: Option<seq<string>>,
    expr: Option<string>,
    value: Option<string>)

  const NO_PARAMS := Params(None, None, None, "", None, None, None, None, None)

  datatype Rule = Rule(
    id: nat, source: Option<string>, target: string, operation: Operation, params: Params, order: int, required: bool)

  /** The marker that the interpreter uses for discarded answers; a literal answer of this text is discarded too. */
  const DROPPED: Answer := Some("__DROP__")

  /** What one rule yields: a value, perhaps an error entry, some warnings; or an exception. */
  datatype Effect = Raised | Yields(value: Answer, failed: bool, warnings: nat)

  function Or<T>(o: Option<T>, default: T): T {
    if o.Some? then o.value else default
  }

  /** The answer under the rule's own source key. */
  function Raw(r: Rule, answers: Answers): Answer {
    if r.source.Some? && r.source.value != "" then Lookup(answers, r.source.value) else None
  }

  /** `mapping.get(value, default)` */
  function Mapped(mapping: ValueMap, default: Option<string>, value: string): Option<string> {
    if value in mapping then mapping[value] else default
  }

  function MappedPieces(mapping: ValueMap, default: Option<string>, pieces: seq<string>): seq<string> {
    if pieces == [] then []
    else MappedPieces(mapping, default, pieces[..|pieces| - 1]) + [Or(Mapped(mapping, default, pieces[|pieces| - 1]), "")]
  }

  function UnmappedPieces(mapping: ValueMap, default: Option<string>, pieces: seq<string>): nat {
    if pieces == [] then 0
    else UnmappedPieces(mapping, default, pieces[..|pieces| - 1])
         + if Mapped(mapping, default, pieces[|pieces| - 1]).None? then 1 else 0
  }

  /** MAP_VALUES: a comma makes the answer a multiple choice, mapped piece by piece. */
  function MapAnswer(mapping: ValueMap, default: Option<string>, raw: string): Option<string> {
    if ',' in raw then Some(Join(MappedPieces(mapping, default, Selected(raw)), COMMA))
    else Mapped(mapping, default, raw)
  }

  function MapWarnings(mapping: ValueMap, default: Option<string>, raw: string): nat {
    if ',' in raw then UnmappedPieces(mapping, default, Selected(raw))
    else if Mapped(mapping, default, raw).None? && raw !in mapping then 1 else 0
  }

  /** The first of the formats that parses; an empty format is skipped. */
  function ParseDate(lib: Lib, formats: seq<string>, raw: string): Option<string> {
    if formats == [] then None
    else if formats[0] != "" && lib.strptime(raw, formats[0]).Some? then lib.strptime(raw, formats[0])
    else ParseDate(lib, formats[1..], raw)
  }

  function DateFormats(format: string): seq<string> {
    [format, "%Y-%m-%d", "%m/%d/%Y", "%d/%m/%Y"]
  }

  function CoerceAnswer(lib: Lib, p: Params, raw: string): Effect {
    if Or(p.toType, Text).Date? then
      var d := ParseDate(lib, DateFormats(p.format), raw);
      Yields(d, d.None?, 0)
    else Yields(Some(raw), false, 0)
  }

  /** SPLIT: an empty separator raises, and so does a negative index beyond the first piece. */
  function SplitAnswer(separator: string, index: int, raw: string): Effect {
    if separator == "" then Raised
    else
      var parts := Split(raw, separator);
      if index >= |parts| then Yields(None, false, 1)
      else if index >= 0 then Yields(Some(Strip(parts[index])), false, 0)
      else if index + |parts| >= 0 then Yields(Some(Strip(parts[index + |parts|])), false, 0)
      else Raised
  }

  function MergeParts(answers: Answers, sources: seq<string>): seq<string> {
    seq(|sources|, i requires 0 <= i < |sources| => Or(Lookup(answers, sources[i]), ""))
  }

  function MergeAnswer(answers: Answers, sources: seq<string>, separator: string): Answer {
    var merged := Strip(Join(MergeParts(answers, sources), separator));
    if merged == "" then None else Some(merged)
  }

  function HasSource(r: Rule): bool {
    r.source.Some? && r.source.value != ""
  }

  /** The names that a COMPUTE expression sees. */
  function ComputeNames(r: Rule, answers: Answers): Answers {
    var sources := Or(r.params.sources, if HasSource(r) then [r.source.value] else []);
    if |sources| == 1 then map["value" := Lookup(answers, sources[0])][sources[0] := Lookup(answers, sources[0])]
    else
      var names := map s | s in sources :: Lookup(answers, s);
      if sources == [] && HasSource(r) then names["value" := Raw(r, answers)] else names
  }

  function ComputeAnswer(lib: Lib, r: Rule, answers: Answers): Effect {
    var result := lib.evaluate(Or(r.params.expr, ""), ComputeNames(r, answers));
    if result.None? then Yields(None, true, 0) else Yields(result.value, false, 0)
  }

  /** `_apply_operation` */
  function Operate(lib: Lib, r: Rule, answers: Answers): Effect {
    var p, raw := r.params, Raw(r, answers);
    match r.operation
    case Identity => Yields(raw, false, 0)
    case Rename => Yields(raw, false, 0)
    case Drop => Yields(DROPPED, false, 0)
    case DefaultValue => Yields(p.value, false, 0)
    case MapValues =>
      if raw.None? then Yields(None, false, 0)
      else
        var mapping := Or(p.mapping, map[]);
        Yields(MapAnswer(mapping, p.default, raw.value), false, MapWarnings(mapping, p.default, raw.value))
    case CoerceType => if raw.None? then Yields(None, false, 0) else CoerceAnswer(lib, p, raw.value)
    case SplitText =>
      if raw.None? then Yields(None, false, 0) else SplitAnswer(Or(p.separator, " "), Or(p.index, 0), raw.value)
    case MergeTexts => Yields(MergeAnswer(answers, Or(p.sources, []), Or(p.separator, " ")), false, 0)
    case Compute => ComputeAnswer(lib, r, answers)
    case Unknown(_) => Yields(raw, false, 1)
  }

  /** The loop of MAP_VALUES over the pieces of a comma-separated answer. */
  method MapPieces(mapping: ValueMap, default: Option<string>, raw: string) returns (value: string, warnings: nat)
    ensures value == Join(MappedPieces(mapping, default, Selected(raw)), COMMA)
    ensures warnings == UnmappedPieces(mapping, default, Selected(raw))
  {
    var pieces := Selected(raw);
    var mapped := [];
    warnings := 0;
    for i := 0 to |pieces|
      invariant mapped == MappedPieces(mapping, default, pieces[..i])
      invariant warnings == UnmappedPieces(mapping, default, pieces[..i])
    {
      assert pieces[..i + 1][..i] == pieces[..i];
      var v := Mapped(mapping, default, pieces[i]);
      if v.None? {
        warnings := warnings + 1;
      }
      mapped := mapped + [Or(v, "")];
    }
    assert pieces[..|pieces|] == pieces;
    value := Join(mapped, COMMA);
  }

  /** One rule applied with the shared error and warning lists, of which only rule ids and the count are kept. */
  method ApplyOperation(lib: Lib, r: Rule, answers: Answers, errors: seq<nat>, warnings: nat)
      returns (effect: Effect, errors': seq<nat>, warnings': nat)
    ensures effect == Operate(lib, r, answers)
    ensures errors' == if effect.Yields? && effect.failed then errors + [r.id] else errors
    ensures warnings' == if effect.Yields? then warnings + effect.warnings else warnings
  {
    hide MapAnswer, CoerceAnswer, SplitAnswer, MergeAnswer, ComputeAnswer, Join, Split, Selected;
    var p, raw := r.params, Raw(r, answers);
    match r.operation {
    case MapValues =>
      MapAnswerCases(Or(p.mapping, map[]), p.default, raw);
      if raw.Some? && ',' in raw.value {
        var value, count := MapPieces(Or(p.mapping, map[]), p.default, raw.value);
        effect := Yields(Some(value), false, count);
      } else {
        effect := Operate(lib, r, answers);
      }
    case _ => effect := Operate(lib, r, answers);
    }
    errors' := if effect.Yields? && effect.failed then errors + [r.id] else errors;
    warnings' := if effect.Yields? then warnings + effect.warnings else warnings;
  }

  lemma MapAnswerCases(mapping: ValueMap, default: Option<string>, raw: Answer)
    ensures raw.Some? && ',' in raw.value ==>
              MapAnswer(mapping, default, raw.value) == Some(Join(MappedPieces(mapping, default, Selected(raw.value)), COMMA))
  {
  }

  // ----- the rule loop -----

  datatype Progress = Progress(after: Dict<Answer>, errors: seq<nat>, warnings: nat, stopped: bool, raised: bool)

  function Idle(): (p: Progress)
    ensures p.after.Valid()
  {
    Progress(EmptyDict(), [], 0, false, false)
  }

  /** One turn of the loop; a discarded value skips the check for required rules. */
  function Take(p: Progress, r: Rule, effect: Effect): (p': Progress)
    requires p.after.Valid()
    ensures p'.after.Valid()
  {
    if effect.Raised? then p.(raised := true)
    else
      var errors := if effect.failed then p.errors + [r.id] else p.errors;
      var warnings := p.warnings + effect.warnings;
      if effect.value == DROPPED then p.(errors := errors, warnings := warnings)
      else Progress(p.after.Put(r.target, effect.value), errors, warnings, r.required && errors != [], false)
  }

  function Finished(p: Progress): bool {
    p.stopped || p.raised
  }

  /** The loop over rules that are already in order. */
  function RunRules(lib: Lib, rules: seq<Rule>, before: Answers): (p: Progress)
    ensures p.after.Valid()
  {
    if rules == [] then Idle()
    else
      var r := rules[|rules| - 1];
      var p := RunRules(lib, rules[..|rules| - 1], before);
      if Finished(p) then p else Take(p, r, Operate(lib, r, before))
  }

  lemma {:induction false} FinishedStays(lib: Lib, rules: seq<Rule>, before: Answers, n: nat)
    requires n <= |rules| && Finished(RunRules(lib, rules[..n], before))
    ensures RunRules(lib, rules, before) == RunRules(lib, rules[..n], before)
    decreases |rules|
  {
    if n < |rules| {
      var init := rules[..|rules| - 1];
      assert init[..n] == rules[..n];
      FinishedStays(lib, init, before, n);
    } else {
      assert rules[..n] == rules;
    }
  }

  lemma RunNext(lib: Lib, rules: seq<Rule>, before: Answers, i: nat)
    requires i <= |rules|
    ensures RunRules(lib, rules[..0], before) == Idle()
    ensures i < |rules| ==>
              var p := RunRules(lib, rules[..i], before);
              RunRules(lib, rules[..i + 1], before) == if Finished(p) then p else Take(p, rules[i], Operate(lib, rules[i], before))
  {
    hide Operate, Take;
    if i < |rules| {
      assert rules[..i + 1][..i] == rules[..i];
    }
  }

  /** The for loop of `apply_rule_set`. */
  method ApplyRules(lib: Lib, rules: seq<Rule>, before: Answers) returns (p: Progress)
    ensures p == RunRules(lib, rules, before)
  {
    hide Operate, RunRules;
    p := Idle();
    RunNext(lib, rules, before, 0);
    for i := 0 to |rules|
      invariant p == RunRules(lib, rules[..i], before) && !Finished(p)
    {
      RunNext(lib, rules, before, i);
      var effect, errors, warnings := ApplyOperation(lib, rules[i], before, p.errors, p.warnings);
      if effect.Raised? {
        p := p.(raised := true);
        FinishedStays(lib, rules, before, i + 1);
        return;
      }
      if effect.value == DROPPED {
        p := p.(errors := errors, warnings := warnings);
        continue;
      }
      p := Progress(p.after.Put(rules[i].target, effect.value), errors, warnings, false, false);
      if rules[i].required && errors != [] {
        p := p.(stopped := true);
        FinishedStays(lib, rules, before, i + 1);
        return;
      }
    }
    assert rules[..|rules|] == rules;
  }

  // ----- sorting by display_order -----

  function Insert(r: Rule, rules: seq<Rule>): seq<Rule> {
    if rules == [] || r.order <= rules[0].order then [r] + rules else [rules[0]] + Insert(r, rules[1..])
  }

  /** `sorted(rules, key=display_order)`, which keeps rules of equal order as they come. */
  function SortRules(rules: seq<Rule>): seq<Rule> {
    if rules == [] then [] else Insert(rules[0], SortRules(rules[1..]))
  }

  predicate Ordered(rules: seq<Rule>) {
    forall i, j :: 0 <= i < j < |rules| ==> rules[i].order <= rules[j].order
  }

  lemma {:induction false} InsertMembers(r: Rule, rules: seq<Rule>)
    ensures multiset(Insert(r, rules)) == multiset(rules) + multiset{r}
    ensures forall x :: x in Insert(r, rules) <==> x == r || x in rules
  {
    if rules != [] {
      assert rules == [rules[0]] + rules[1..];
      InsertMembers(r, rules[1..]);
    }
  }

  lemma OrderedCons(r: Rule, rules: seq<Rule>)
    requires Ordered(rules) && forall x :: x in rules ==> r.order <= x.order
    ensures Ordered([r] + rules)
  {
  }

  lemma {:induction false} InsertOrders(r: Rule, rules: seq<Rule>)
    requires Ordered(rules)
    ensures Ordered(Insert(r, rules))
  {
    if rules == [] || r.order <= rules[0].order {
      OrderedCons(r, rules);
    } else {
      InsertOrders(r, rules[1..]);
      InsertMembers(r, rules[1..]);
      OrderedCons(rules[0], Insert(r, rules[1..]));
    }
  }

  lemma {:induction false} SortOrders(rules: seq<Rule>)
    ensures Ordered(SortRules(rules)) && multiset(SortRules(rules)) == multiset(rules)
  {
    if rules != [] {
      SortOrders(rules[1..]);
      InsertOrders(rules[0], SortRules(rules[1..]));
      InsertMembers(rules[0], SortRules(rules[1..]));
      assert rules == [rules[0]] + rules[1..];
    }
  }

  /** The rules of one display order, as they come. */
  function WithOrder(rules: seq<Rule>, order: int): seq<Rule> {
    if rules == [] then []
    else (if rules[0].order == order then [rules[0]] else []) + WithOrder(rules[1..], order)
  }

  lemma {:induction false} InsertKeepsTies(r: Rule, rules: seq<Rule>, order: int)
    ensures WithOrder(Insert(r, rules), order) == WithOrder([r] + rules, order)
  {
    assert ([r] + rules)[1..] == rules;
    if rules != [] && r.order > rules[0].order {
      InsertKeepsTies(r, rules[1..], order);
      assert ([r] + rules[1..])[1..] == rules[1..];
      assert Insert(r, rules)[1..] == Insert(r, rules[1..]);
    }
  }

  /** Sorting is stable: rules of equal display order keep their places among each other. */
  lemma {:induction false} SortStable(rules: seq<Rule>, order: int)
    ensures WithOrder(SortRules(rules), order) == WithOrder(rules, order)
  {
    if rules != [] {
      var rest := SortRules(rules[1..]);
      SortStable(rules[1..], order);
      InsertKeepsTies(rules[0], rest, order);
      assert ([rules[0]] + rest)[1..] == rest;
    }
  }

  /** Rules that already are in order stay where they are. */
  lemma {:induction false} SortFixed(rules: seq<Rule>)
    requires Ordered(rules)
    ensures SortRules(rules) == rules
  {
    if rules != [] {
      SortFixed(rules[1..]);
      assert rules == [rules[0]] + rules[1..];
    }
  }
}
