/** Inputs on which migration does less than one might expect, each at a failure that is characterized elsewhere. */
module MigrationExamples {
  import opened Prelude
  import opened PyStrings
  import opened Forms
  import opened AnswerValidator
  import opened Executor
  import opened RuleMeaning
  import opened DiffService
  import opened DiffCoverage
  import opened OptionMaps
  import opened AnswerStore

  /** An optional question without options. */
  function Plain(id: nat, key: string, renamedFrom: Option<string>): Question {
    Question(id, key, Text, false, [], "", "", "", "", None, renamedFrom, map[])
  }

  function Choice(fieldType: FieldType, options: seq<string>): Question {
    Plain(1, "q", None).(fieldType := fieldType, options := options)
  }

  // ----- a truncated migration goes through -----

  const PLAIN_PARAMS := Params(None, None, None, "", None, None, None, None, None)

  /** An optional computation without sources, a required copy of a, and a copy of b. */
  function TruncatedRules(): seq<Rule> {
    [Rule(0, None, "c", Compute, PLAIN_PARAMS, 0, false),
     Rule(1, Some("a"), "a", Identity, PLAIN_PARAMS, 1, true),
     Rule(2, Some("b"), "b", Identity, PLAIN_PARAMS, 2, false)]
  }

  lemma TruncatedEffects(lib: Lib, before: Answers)
    requires lib.evaluate("", map[]) == None
    ensures var rules := TruncatedRules();
            && Operate(lib, rules[0], before) == Yields(None, true, 0)
            && Operate(lib, rules[1], before) == Yields(Lookup(before, "a"), false, 0)
            && Operate(lib, rules[2], before) == Yields(Lookup(before, "b"), false, 0)
  {
    assert ComputeNames(TruncatedRules()[0], before) == map[];
  }

  lemma TruncatedShape()
    ensures |TruncatedRules()| == 3 && Ordered(TruncatedRules()) && !RequiredFailure(TruncatedRules(), [0])
  {
  }

  function OnlyC(): Dict<Answer> {
    Dict(["c"], map["c" := None])
  }

  lemma FirstTaken()
    ensures Take(Idle(), TruncatedRules()[0], Yields(None, true, 0)) == Progress(OnlyC(), [0], 0, false, false)
    ensures OnlyC().Valid()
  {
  }

  lemma SecondTaken(a: Answer)
    requires a != DROPPED && OnlyC().Valid()
    ensures Take(Progress(OnlyC(), [0], 0, false, false), TruncatedRules()[1], Yields(a, false, 0)) ==
            Progress(OnlyC().Put("a", a), [0], 0, true, false)
  {
    hide OnlyC;
  }

  /** When the computation fails, the loop stops after the required copy, which has not failed. The answer to b is
      lost, and the run is not refused. */
  lemma TruncatedRun(lib: Lib, before: Answers)
    requires lib.evaluate("", map[]) == None && Lookup(before, "a") != DROPPED
    ensures var p := RunRules(lib, SortRules(TruncatedRules()), before);
            && p.after.vals == map["c" := None, "a" := Lookup(before, "a")]
            && p.errors == [0] && p.stopped && !p.raised && !RequiredFailure(TruncatedRules(), p.errors)
  {
    hide Operate, RunRules, SortRules, RequiredFailure, TruncatedRules, Ordered, Take;
    var rules := TruncatedRules();
    TruncatedShape();
    SortFixed(rules);
    TruncatedEffects(lib, before);
    FirstTaken();
    SecondTaken(Lookup(before, "a"));
    RunNext(lib, rules, before, 0);
    RunNext(lib, rules, before, 1);
    FinishedStays(lib, rules, before, 2);
  }

  /** Two versions that ask for a, b and c, all optional. */
  function TwoVersions(): Versions {
    map[1 := [Plain(1, "a", None), Plain(2, "b", None), Plain(3, "c", None)],
        2 := [Plain(4, "a", None), Plain(5, "b", None), Plain(6, "c", None)]]
  }

  lemma PlainValid(lib: Lib, qs: seq<Question>, sheet: Sheet)
    requires forall q :: q in qs ==> q == Plain(q.id, q.key, None)
    ensures Errors(lib, qs, sheet) == []
  {
    hide IsVisible, Blank;
    NoErrorsIff(lib, qs, sheet);
  }

  /** So it goes through: answers and version are switched, and yet it is no success for the bulk service. */
  lemma TruncatedMigration(lib: Lib, sub: nat, own: seq<Row>)
    requires lib.evaluate("", map[]) == None
    requires Lookup(LoadAnswers(own, QuestionMap(QuestionsOf(TwoVersions(), 1))), "a") != DROPPED
    ensures var m := Migrate(lib, TwoVersions(), RuleSet(true, 1, 2, TruncatedRules()), sub, own);
            Switches(m) && !Faultless(m) && "b" !in m.progress.after.vals
  {
    hide RunRules, SortRules, Errors, SheetOf, QuestionMap, LoadAnswers, NewRows, RequiredFailure;
    var m := Migrate(lib, TwoVersions(), RuleSet(true, 1, 2, TruncatedRules()), sub, own);
    TruncatedRun(lib, LoadAnswers(own, QuestionMap(QuestionsOf(TwoVersions(), 1))));
    var questions := QuestionsOf(TwoVersions(), 2);
    PlainValid(lib, questions, SheetOf(questions, Payload(m.rows)));
  }

  // ----- options that do not survive -----

  /** The kept option " a" is stripped by the validator and then is no option any more. */
  lemma BlankEndRejected(lib: Lib)
    ensures var s, t := Choice(Checkbox, [" a", "b"]), Choice(Checkbox, [" a"]);
            OptionsChanged(s, t) && OptionError(lib, t, MapAnswer(OptionMapping(s, t), None, " a"))
  {
    hide Strip, OptionError;
    var s, t := Choice(Checkbox, [" a", "b"]), Choice(Checkbox, [" a"]);
    assert " a" in s.options && " a" in t.options && "b" in s.options && "b" !in t.options;
    assert "b" in OptionValues(s) && "b" !in OptionValues(t) && " a" in OptionValues(t);
    StripTrims(" a");
    assert !Trimmed(" a") && " a"[1] == 'a';
    InkNotBlank(" a", 'a');
    assert Strip(" a") != " a";
    KeptOptionRejected(lib, s, t, " a");
  }

  /** The kept option "a,b" is taken for two choices, of which neither is known. */
  lemma CommaRejected(lib: Lib)
    ensures var s, t := Choice(Dropdown, ["a,b", "c"]), Choice(Dropdown, ["a,b"]);
            OptionsChanged(s, t) && OptionError(lib, t, MapAnswer(OptionMapping(s, t), None, "a,b"))
  {
    hide Strip, Split, OptionError, Mapped, OptionMapping;
    var s, t := Choice(Dropdown, ["a,b", "c"]), Choice(Dropdown, ["a,b"]);
    var mapping := OptionMapping(s, t);
    assert "c" in s.options && "c" !in t.options && "a,b" in t.options;
    assert "c" in OptionValues(s) && "c" !in OptionValues(t) && "a,b" in OptionValues(t);
    TwoPieces();
    GeneratedPiece(s, t, "a");
    GeneratedPiece(s, t, "b");
    assert ["a", "b"][..1] == ["a"] && ["a"][..0] == [];
    assert MappedPieces(mapping, None, ["a"]) == [""];
    assert MappedPieces(mapping, None, ["a", "b"]) == ["", ""];
    JoinsToComma();
    assert MapAnswer(mapping, None, "a,b") == Some(",");
    assert "," !in t.options;
    SingleChoiceMap(lib, s, t, "a,b");
  }

  lemma JoinsToComma()
    ensures Join(["", ""], COMMA) == ","
  {
    var parts: seq<string> := ["", ""];
    assert parts[1..] == [""];
    assert Join(parts[1..], COMMA) == "";
    assert Join(parts, COMMA) == "" + COMMA + "";
  }

  lemma TwoPieces()
    ensures ',' in "a,b" && Selected("a,b") == ["a", "b"]
  {
    hide Strip;
    assert "a,b" == "a" + [','] + "b";
    SplitPiece("a", ',', "b");
    SplitPiece("b", ',', "");
    StripTrims("a");
    StripTrims("b");
    assert Trimmed("a") && Trimmed("b");
    assert Split("a,b", COMMA) == ["a", "b"];
    assert ["a", "b"][1..] == ["b"] && ["b"][1..] == [];
    assert Selections(["b"]) == ["b"];
  }

  lemma OneQuestion(q: Question)
    ensures QuestionMap([q]) == Dict([q.key], map[q.key := q])
  {
    assert [q][..0] == [];
  }

  // ----- target keys with no rule and with two -----

  /** The target names a key that the source does not have: the new question gets no rule at all. */
  lemma RenameFromNowhere()
    ensures var src, tgt := QuestionMap([]), QuestionMap([Plain(1, "t", Some("x"))]);
            "t" in tgt.vals && GeneratedRules(src, tgt) == []
  {
    var t := Plain(1, "t", Some("x"));
    OneQuestion(t);
    var src, tgt := QuestionMap([]), QuestionMap([t]);
    assert RenameIndex(tgt, 0) == map[];
    assert Renames(tgt)["x"] == "t";
    assert "t" in Renames(tgt).Values;
    assert NewKeys(src, tgt, 0) == [];
  }

  function KeptAndRenamed(): (Questions, Questions) {
    (QuestionMap([Plain(1, "x", None), Plain(2, "t", None)]), QuestionMap([Plain(3, "t", Some("x"))]))
  }

  lemma KeptAndRenamedMaps()
    ensures var (src, tgt) := KeptAndRenamed();
            && src == Dict(["x", "t"], map["x" := Plain(1, "x", None), "t" := Plain(2, "t", None)])
            && tgt == Dict(["t"], map["t" := Plain(3, "t", Some("x"))])
            && Renames(tgt) == map["x" := "t"]
  {
    var x, y, t := Plain(1, "x", None), Plain(2, "t", None), Plain(3, "t", Some("x"));
    assert [x, y][..1] == [x];
    OneQuestion(x);
    OneQuestion(t);
    assert QuestionMap([x, y]) == QuestionMap([x]).Put("t", y);
    assert RenameIndex(QuestionMap([t]), 0) == map[];
  }

  /** The target keeps a key and renames another one to it as well: two rules write the same question. */
  lemma RenameOntoKept()
    ensures var (src, tgt) := KeptAndRenamed();
            var rules := GeneratedRules(src, tgt);
            && "t" in tgt.vals && |rules| >= 2
            && rules[0].operation.Rename? && rules[0].target == "t"
            && rules[1].operation.Identity? && rules[1].target == "t"
            && !FedOnce(rules, "t")
  {
    hide QuestionMap, NewKeys, Renames;
    KeptAndRenamedMaps();
    var (src, tgt) := KeptAndRenamed();
    assert OptionValues(src.vals["t"]) == {};
    var rules := GeneratedRules(src, tgt);
    assert rules[0] == SourceRule(src, tgt, "x", 0) && rules[1] == SourceRule(src, tgt, "t", 1);
    assert Feeds(rules, 0, "t") && Feeds(rules, 1, "t");
  }

  // ----- a submission loses its answers -----

  /** Three versions that ask for a name, each with a question of its own. */
  function NameVersions(): Versions {
    map[1 := [Plain(1, "name", None)], 2 := [Plain(2, "name", None)], 3 := [Plain(3, "name", None)]]
  }

  function CopyName(): Rule {
    Rule(0, Some("name"), "name", Identity, PLAIN_PARAMS, 0, false)
  }

  /** A draft of version 1 in which the name is given. */
  function NamedDraft(): Store {
    Store(map[7 := Record(Submissions.Draft, 1)], [Row(7, 1, Text, Some("Ann"))], [])
  }

  lemma EmptyCopy(lib: Lib)
    ensures RunRules(lib, SortRules([CopyName()]), map[]) == Progress(Dict(["name"], map["name" := None]), [], 0, false, false)
  {
    hide Operate, RunRules;
    var r := CopyName();
    SortFixed([r]);
    NothingToCopy(lib);
    assert [r][..1] == [r];
    RunNext(lib, [r], map[], 0);
  }

  lemma NothingToCopy(lib: Lib)
    ensures Operate(lib, CopyName(), map[]) == Yields(None, false, 0)
  {
  }

  /** The rule set that takes version 2 to version 3 is applied to it, and the name is gone. */
  lemma NameLost(lib: Lib)
    ensures var rs, store := RuleSet(true, 2, 3, [CopyName()]), NamedDraft();
            var store' := Apply(lib, NameVersions(), rs, store, 7, false).0;
            && Consistent(NameVersions(), store) && OffSource(NameVersions(), rs, store, 7)
            && store'.subs == map[7 := Record(Submissions.Draft, 3)] && RowsOf(store'.rows, 7) == [Row(7, 3, Text, None)]
  {
    hide Apply, RunRules, SortRules, Errors, SheetOf, QuestionMap, RowsOf;
    var versions, rs, store := NameVersions(), RuleSet(true, 2, 3, [CopyName()]), NamedDraft();
    NamedDraftConsistent();
    assert OffSource(versions, rs, store, 7);
    OneQuestion(versions[2][0]);
    OneQuestion(versions[3][0]);
    EmptyCopy(lib);
    NameMigration(lib);
    hide Migrate, Consistent, OffSource;
    OffSourceSwitches(lib, versions, rs, store, 7);
  }

  lemma NameMigration(lib: Lib)
    ensures var m := Migrate(lib, NameVersions(), RuleSet(true, 2, 3, [CopyName()]), 7, []);
            Switches(m) && m.rows == [Row(7, 3, Text, None)]
  {
    hide RunRules, SortRules, Errors, SheetOf, QuestionMap;
    var q := Plain(3, "name", None);
    OneQuestion(q);
    EmptyCopy(lib);
    PlainValid(lib, [q], SheetOf([q], [(q.id, None)]));
    var after := Dict(["name"], map["name" := None]);
    var tgt := Dict(["name"], map["name" := q]);
    assert NewRows(7, after, tgt, 0) == [];
    assert NewRows(7, after, tgt, 1) == [Row(7, 3, Text, None)];
    assert Payload([Row(7, 3, Text, None)]) == [(3, None)];
  }

  lemma NamedDraftConsistent()
    ensures Consistent(NameVersions(), NamedDraft())
  {
    assert Plain(1, "name", None) in QuestionsOf(NameVersions(), 1);
  }
}
