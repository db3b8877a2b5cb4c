/**
  A generated program put to work (app/services/transforms/diff_service.py:135-232,
  app/services/transforms/executor.py:315-393): it is never refused, every rule of it runs whatever the answers
  are, and the options it migrates pass the target's validator.
 */
module GeneratedMigration {
  import opened Prelude
  import opened PyStrings
  import opened Forms
  import opened AnswerValidator
  import opened Executor
  import opened RuleMeaning
  import opened DiffService
  import opened DiffCoverage
  import opened OptionMaps
  import opened AnswerStore

  /** The only rule that feeds a target key decides what the key holds. */
  lemma SoleFeeder(lib: Lib, src: Questions, tgt: Questions, before: Answers, i: nat, t: string)
    requires src.Valid() && tgt.Valid() && t in tgt.vals && Covered(src, tgt, t)
    requires i < |GeneratedRules(src, tgt)| && Feeds(GeneratedRules(src, tgt), i, t)
    ensures RunRules(lib, GeneratedRules(src, tgt), before).after.Get(t) ==
            Outcome(Operate(lib, GeneratedRules(src, tgt)[i], before))
  {
    var rules := GeneratedRules(src, tgt);
    ProgramRunsThrough(lib, src, tgt, before);
    FedOnceIffCovered(src, tgt, t);
    hide GeneratedRules, Operate, RunRules, Covered;
    forall j | 0 <= j < |rules| && WritesTo(lib, rules, before, j, t) ensures j == i {
      DropWritesNothing(lib, rules[j], before);
      assert Feeds(rules, j, t);
    }
    var w := LastWriter(lib, rules, before, |rules|, t);
    assert w.None? ==> !WritesTo(lib, rules, before, i, t);
    assert Written(lib, rules, before, |rules|, t) == Outcome(EffectAt(lib, rules, before, i));
  }

  // ----- refusals -----

  lemma GeneratedSorted(src: Questions, tgt: Questions)
    requires src.Valid() && tgt.Valid()
    ensures SortRules(GeneratedRules(src, tgt)) == GeneratedRules(src, tgt)
    ensures forall r :: r in GeneratedRules(src, tgt) ==> !r.required
  {
    var rules := GeneratedRules(src, tgt);
    ProgramShape(src, tgt);
    hide GeneratedRules;
    forall i | 0 <= i < |rules| ensures rules[i].order == i && !rules[i].required {
      assert Shaped(src, tgt, rules[i], i);
    }
    SortFixed(rules);
  }

  /** The rule set is the one generated for its two versions. */
  predicate IsGenerated(versions: Versions, rs: RuleSet) {
    rs.rules == GeneratedRules(QuestionMap(QuestionsOf(versions, rs.source)), QuestionMap(QuestionsOf(versions, rs.target)))
  }

  /** A migration by a generated rule set is never refused and never raises: only the validator can stop it. */
  lemma GeneratedCompletes(lib: Lib, versions: Versions, rs: RuleSet, sub: nat, own: seq<Row>)
    requires IsGenerated(versions, rs)
    ensures var src := QuestionMap(QuestionsOf(versions, rs.source));
            var m := Migrate(lib, versions, rs, sub, own);
            && m.Completes?
            && m.progress == RunRules(lib, rs.rules, LoadAnswers(own, src))
            && m.rows == NewRows(sub, m.progress.after, QuestionMap(QuestionsOf(versions, rs.target)), |m.progress.after.keys|)
            && var questions := QuestionsOf(versions, rs.target);
               m.invalid == Errors(lib, questions, SheetOf(questions, Payload(m.rows)))
  {
    var src, tgt := QuestionMap(QuestionsOf(versions, rs.source)), QuestionMap(QuestionsOf(versions, rs.target));
    GeneratedSorted(src, tgt);
    ProgramRunsThrough(lib, src, tgt, LoadAnswers(own, src));
    hide QuestionMap, GeneratedRules, RunRules, SortRules, LoadAnswers, Errors, SheetOf, NewRows, Means;
  }

  // ----- options -----

  /** The question keeps its key and type while its options change without a hint. A checkbox question needs the
      options it keeps to be legal once stripped, a single-choice question an answer without commas. */
  predicate OptionsMigrate(src: Questions, tgt: Questions, before: Answers, key: string)
    requires tgt.Valid()
  {
    && Kept(src, tgt, key) && key in tgt.vals && !RenamedInto(src, tgt, key)
    && var s, t := src.vals[key], tgt.vals[key];
       && s.fieldType == t.fieldType && OptionsChanged(s, t) && s.valueMapping == map[]
       && (t.fieldType.Checkbox? ==> KeptOptionsLegal(s, t))
       && (SingleChoice(t) ==> Lookup(before, key).Some? ==> ',' !in Lookup(before, key).value)
  }

  lemma NoAnswerNoOptionError(lib: Lib, q: Question)
    ensures !OptionError(lib, q, None)
  {
  }

  lemma OtherTypesNoOptionError(lib: Lib, q: Question, raw: Answer)
    requires !q.fieldType.Checkbox? && !SingleChoice(q)
    ensures !OptionError(lib, q, raw)
  {
    hide Blank;
  }

  lemma MappedAnswerLegal(lib: Lib, s: Question, t: Question, raw: string)
    requires OptionsChanged(s, t) && s.valueMapping == map[]
    requires t.fieldType.Checkbox? ==> KeptOptionsLegal(s, t)
    requires SingleChoice(t) ==> ',' !in raw
    ensures !OptionError(lib, t, MapAnswer(OptionMapping(s, t), None, raw))
  {
    hide OptionError, MapAnswer, OptionMapping, KeptOptionsLegal;
    assert t.options != [];
    if t.fieldType.Checkbox? {
      GeneratedCheckboxMap(lib, s, t);
    } else if SingleChoice(t) {
      PlainSingleChoiceLegal(lib, s, t, raw);
    } else {
      OtherTypesNoOptionError(lib, t, MapAnswer(OptionMapping(s, t), None, raw));
    }
  }

  /** The rule generated for such a question maps its answer, if there is one. */
  lemma MapRule(lib: Lib, src: Questions, tgt: Questions, before: Answers, key: string, i: nat)
    requires tgt.Valid() && OptionsMigrate(src, tgt, before, key)
    ensures var r := SourceRule(src, tgt, key, i);
            var raw := if key == "" then None else Lookup(before, key);
            && r.target == key && r.operation.MapValues?
            && Operate(lib, r, before).Yields?
            && Operate(lib, r, before).value ==
                 if raw.None? then None else MapAnswer(OptionMapping(src.vals[key], tgt.vals[key]), None, raw.value)
  {
    hide MapAnswer, MapWarnings, OptionMapping, Renames, OptionsChanged, KeptOptionsLegal;
  }

  /** Whatever the other answers are, the program never leaves an illegal option under such a key. */
  lemma MigratedOptionLegal(lib: Lib, src: Questions, tgt: Questions, before: Answers, key: string)
    requires src.Valid() && tgt.Valid() && OptionsMigrate(src, tgt, before, key)
    ensures var after := RunRules(lib, GeneratedRules(src, tgt), before).after;
            key in after.vals ==> !OptionError(lib, tgt.vals[key], after.vals[key])
  {
    hide OptionError, MapAnswer, OptionMapping, KeptOptionsLegal, OptionsChanged, RunRules, Renames, Operate, NewKeys;
    assert key in src.keys;
    var i :| 0 <= i < |src.keys| && src.keys[i] == key;
    var raw := if key == "" then None else Lookup(before, key);
    MapRule(lib, src, tgt, before, key, i);
    assert GeneratedRules(src, tgt)[i] == SourceRule(src, tgt, key, i);
    hide GeneratedRules, SourceRule;
    SoleFeeder(lib, src, tgt, before, i, key);
    NoAnswerNoOptionError(lib, tgt.vals[key]);
    if raw.Some? {
      MappedAnswerLegal(lib, src.vals[key], tgt.vals[key], raw.value);
    }
  }

  // ----- the validator sees exactly the migrated answers -----

  lemma {:induction false} ByIdEntries(rows: seq<Row>, id: nat)
    ensures id in ById(Payload(rows)) ==> exists row :: row in rows && row.question == id && row.answer == ById(Payload(rows))[id]
  {
    if rows != [] {
      var before, last := rows[..|rows| - 1], rows[|rows| - 1];
      ByIdEntries(before, id);
      assert Payload(rows)[..|rows| - 1] == Payload(before);
      assert Payload(rows)[|rows| - 1] == (last.question, last.answer);
      assert rows == before + [last];
    }
  }

  lemma {:induction false} RowAnswers(sub: nat, after: Dict<Answer>, tgt: Questions, n: nat, row: Row)
    requires after.Valid() && n <= |after.keys| && row in NewRows(sub, after, tgt, n)
    ensures exists k :: k in after.vals && k in tgt.vals && row.question == tgt.vals[k].id && row.answer == after.vals[k]
  {
    var k := after.keys[n - 1];
    assert k in after.keys;
    if row in NewRows(sub, after, tgt, n - 1) {
      RowAnswers(sub, after, tgt, n - 1, row);
    }
  }

  /** The validator judges a target question by the answer that the run left under its key. */
  lemma SeenByValidator(versions: Versions, target: nat, sub: nat, after: Dict<Answer>, key: string)
    requires DistinctQuestionIds(versions) && after.Valid()
    requires key in QuestionMap(QuestionsOf(versions, target)).vals
    ensures var tgt := QuestionMap(QuestionsOf(versions, target));
            var raw := GetById(ById(Payload(NewRows(sub, after, tgt, |after.keys|))), tgt.vals[key].id);
            raw.None? || (key in after.vals && raw == after.vals[key])
  {
    var tgt := QuestionMap(QuestionsOf(versions, target));
    var rows, id := NewRows(sub, after, tgt, |after.keys|), tgt.vals[key].id;
    QuestionMapEntries(QuestionsOf(versions, target));
    hide QuestionMap, ById, Payload, NewRows;
    ByIdEntries(rows, id);
    if id in ById(Payload(rows)) {
      var row :| row in rows && row.question == id && row.answer == ById(Payload(rows))[id];
      RowAnswers(sub, after, tgt, |after.keys|, row);
      var k :| k in after.vals && k in tgt.vals && row.question == tgt.vals[k].id && row.answer == after.vals[k];
      assert tgt.vals[k] == tgt.vals[key];
    }
  }

  predicate AboutOptions(c: Complaint) {
    c.NotAnOption? || c.InvalidOptions?
  }

  lemma {:induction false} ErrorsOf(lib: Lib, qs: seq<Question>, sheet: Sheet, e: AnswerError)
    requires e in Errors(lib, qs, sheet)
    ensures exists q :: q in qs && q.id == e.questionId && e.complaint in Complaints(lib, q, GetById(sheet.byId, q.id))
  {
    hide Complaints, IsVisible;
    if qs != [] {
      var q := qs[|qs| - 1];
      if e in Errors(lib, qs[..|qs| - 1], sheet) {
        ErrorsOf(lib, qs[..|qs| - 1], sheet, e);
      } else {
        assert e in Report(q, Complaints(lib, q, GetById(sheet.byId, q.id)));
      }
    }
  }

  lemma NoOptionComplaint(lib: Lib, qs: seq<Question>, sheet: Sheet, q: Question, e: AnswerError)
    requires forall p :: p in qs && p.id == q.id ==> p == q
    requires !OptionError(lib, q, GetById(sheet.byId, q.id))
    requires e in Errors(lib, qs, sheet) && e.questionId == q.id
    ensures !AboutOptions(e.complaint)
  {
    hide Complaints, Errors;
    ErrorsOf(lib, qs, sheet, e);
  }

  /** From the diff to the validator: a migration by a generated rule set completes, and the validator never
      reports an illegal option on a question whose options have migrated. */
  lemma MigrationKeepsOptionsLegal(lib: Lib, versions: Versions, rs: RuleSet, sub: nat, own: seq<Row>, key: string)
    requires DistinctQuestionIds(versions) && IsGenerated(versions, rs)
    requires var src, tgt := QuestionMap(QuestionsOf(versions, rs.source)), QuestionMap(QuestionsOf(versions, rs.target));
             OptionsMigrate(src, tgt, LoadAnswers(own, src), key)
    ensures var m := Migrate(lib, versions, rs, sub, own);
            && m.Completes?
            && forall e :: e in m.invalid && e.questionId == QuestionMap(QuestionsOf(versions, rs.target)).vals[key].id ==>
                 !AboutOptions(e.complaint)
  {
    var src, tgt := QuestionMap(QuestionsOf(versions, rs.source)), QuestionMap(QuestionsOf(versions, rs.target));
    var questions := QuestionsOf(versions, rs.target);
    QuestionMapEntries(questions);
    GeneratedCompletes(lib, versions, rs, sub, own);
    MigratedOptionLegal(lib, src, tgt, LoadAnswers(own, src), key);
    NoAnswerNoOptionError(lib, tgt.vals[key]);
    hide QuestionMap, GeneratedRules, RunRules, LoadAnswers, Migrate, Errors, NewRows, Payload, OptionError, ById, ByKey,
         OptionsMigrate, AboutOptions;
    var m := Migrate(lib, versions, rs, sub, own);
    SeenByValidator(versions, rs.target, sub, m.progress.after, key);
    forall e | e in m.invalid && e.questionId == tgt.vals[key].id ensures !AboutOptions(e.complaint) {
      NoOptionComplaint(lib, questions, SheetOf(questions, Payload(m.rows)), tgt.vals[key], e);
    }
  }
}
