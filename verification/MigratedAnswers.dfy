/**
  Answers followed from the old rows of a submission to its new ones (app/services/transforms/executor.py:105-120,
  310-404): what is loaded, what a copying rule makes of it, and what is written.
 */
module MigratedAnswers {
  import opened Prelude
  import opened Forms
  import opened AnswerValidator
  import opened Executor
  import opened RuleMeaning
  import opened OperationMeaning
  import opened DiffService
  import opened DiffCoverage
  import opened AnswerStore
  import opened GeneratedMigration

  // ----- what is loaded -----

  /** The last row that answers this question; -1 when none does. */
  function LastRow(own: seq<Row>, id: nat): (i: int)
    ensures -1 <= i < |own| && (i >= 0 ==> own[i].question == id) && forall j :: i < j < |own| ==> own[j].question != id
  {
    if own == [] || own[|own| - 1].question == id then |own| - 1 else LastRow(own[..|own| - 1], id)
  }

  /** The answer that the rows hold for a question. */
  function Stored(own: seq<Row>, id: nat): Option<Answer> {
    var i := LastRow(own, id);
    if i >= 0 then Some(own[i].answer) else None
  }

  /** The questions are found under their own keys, and no two have the same id. */
  predicate Identified(qs: Questions) {
    && (forall k :: k in qs.vals ==> qs.vals[k].key == k)
    && forall j, k :: j in qs.vals && k in qs.vals && qs.vals[j].id == qs.vals[k].id ==> j == k
  }

  lemma VersionIdentified(versions: Versions, v: nat)
    requires DistinctQuestionIds(versions)
    ensures Identified(QuestionMap(QuestionsOf(versions, v)))
  {
    QuestionMapEntries(QuestionsOf(versions, v));
    hide QuestionMap;
  }

  lemma {:induction false} KeysByIdHas(qs: Questions, n: nat, id: nat)
    requires qs.Valid() && Identified(qs) && n <= |qs.keys|
    ensures id in KeysById(qs, n) <==> exists i :: 0 <= i < n && qs.keys[i] in qs.vals && qs.vals[qs.keys[i]].id == id
    ensures id in KeysById(qs, n) ==> KeysById(qs, n)[id] in qs.vals && qs.vals[KeysById(qs, n)[id]].id == id
  {
    if n > 0 {
      KeysByIdHas(qs, n - 1, id);
      assert qs.keys[n - 1] in qs.keys;
    }
  }

  lemma KeyOf(qs: Questions, key: string)
    requires qs.Valid() && Identified(qs) && key in qs.vals
    ensures var id := qs.vals[key].id; id in KeysById(qs, |qs.keys|) && KeysById(qs, |qs.keys|)[id] == key
  {
    hide KeysById;
    assert key in qs.keys;
    var i :| 0 <= i < |qs.keys| && qs.keys[i] == key;
    KeysByIdHas(qs, |qs.keys|, qs.vals[key].id);
  }

  lemma {:induction false} FromRows(own: seq<Row>, keys: map<nat, string>, id: nat, key: string)
    requires id in keys && keys[id] == key && key != ""
    requires forall x :: x in keys && keys[x] == key ==> x == id
    ensures var loaded := AnswersFrom(own, keys);
            (key in loaded <==> LastRow(own, id) >= 0) && (key in loaded ==> loaded[key] == own[LastRow(own, id)].answer)
  {
    if own != [] {
      FromRows(own[..|own| - 1], keys, id, key);
    }
  }

  /** A source question with a key is loaded if and only if some row answers it, and then with the last such answer. */
  lemma LoadedAnswer(own: seq<Row>, src: Questions, key: string)
    requires src.Valid() && Identified(src) && key in src.vals && key != ""
    ensures key in LoadAnswers(own, src) <==> Stored(own, src.vals[key].id).Some?
    ensures Stored(own, src.vals[key].id).Some? ==> LoadAnswers(own, src)[key] == Stored(own, src.vals[key].id).value
  {
    hide KeysById, AnswersFrom, LastRow;
    var keys, id := KeysById(src, |src.keys|), src.vals[key].id;
    KeyOf(src, key);
    forall x | x in keys && keys[x] == key ensures x == id {
      KeysByIdHas(src, |src.keys|, x);
    }
    FromRows(own, keys, id, key);
  }

  lemma {:induction false} FromRowsKeys(own: seq<Row>, keys: map<nat, string>, k: string)
    requires k in AnswersFrom(own, keys)
    ensures k != "" && exists id :: id in keys && keys[id] == k
  {
    if k in AnswersFrom(own[..|own| - 1], keys) {
      FromRowsKeys(own[..|own| - 1], keys, k);
    }
  }

  /** Nothing but keys of source questions is loaded. */
  lemma OnlySourceKeys(own: seq<Row>, src: Questions, k: string)
    requires src.Valid() && Identified(src) && k in LoadAnswers(own, src)
    ensures k in src.vals && k != ""
  {
    hide KeysById, AnswersFrom;
    var keys := KeysById(src, |src.keys|);
    FromRowsKeys(own, keys, k);
    var id :| id in keys && keys[id] == k;
    KeysByIdHas(src, |src.keys|, id);
  }

  /** What the rows hold under a key of the source version. */
  function Held(own: seq<Row>, src: Questions, key: string): Answer {
    if key != "" && key in src.vals && Stored(own, src.vals[key].id).Some? then Stored(own, src.vals[key].id).value else None
  }

  lemma LookupIsHeld(own: seq<Row>, src: Questions, key: string)
    requires src.Valid() && Identified(src)
    ensures Lookup(LoadAnswers(own, src), key) == Held(own, src, key)
  {
    hide LoadAnswers, Stored;
    if key in src.vals && key != "" {
      LoadedAnswer(own, src, key);
    } else if key in LoadAnswers(own, src) {
      OnlySourceKeys(own, src, key);
    }
  }

  // ----- what is written -----

  /** The rows answer this question, and every row that does holds this answer. */
  predicate Answered(rows: seq<Row>, id: nat, answer: Answer) {
    && (exists row :: row in rows && row.question == id)
    && forall row :: row in rows && row.question == id ==> row.answer == answer
  }

  lemma {:induction false} NewRowsAnswer(sub: nat, after: Dict<Answer>, tgt: Questions, n: nat, key: string)
    requires after.Valid() && Identified(tgt) && n <= |after.keys| && key in tgt.vals && key in after.keys[..n]
    ensures Answered(NewRows(sub, after, tgt, n), tgt.vals[key].id, after.vals[key])
  {
    var rows, id := NewRows(sub, after, tgt, n), tgt.vals[key].id;
    NewRowsHave(sub, after, tgt, n, key);
    forall row | row in rows && row.question == id ensures row.answer == after.vals[key] {
      RowAnswers(sub, after, tgt, n, row);
    }
  }

  lemma {:induction false} NewRowsHave(sub: nat, after: Dict<Answer>, tgt: Questions, n: nat, key: string)
    requires after.Valid() && n <= |after.keys| && key in tgt.vals && key in after.keys[..n]
    ensures exists row :: row in NewRows(sub, after, tgt, n) && row.question == tgt.vals[key].id
  {
    if after.keys[n - 1] == key {
      assert Row(sub, tgt.vals[key].id, tgt.vals[key].fieldType, after.vals[key]) in NewRows(sub, after, tgt, n);
    } else {
      assert after.keys[..n] == after.keys[..n - 1] + [after.keys[n - 1]];
      NewRowsHave(sub, after, tgt, n - 1, key);
      var row :| row in NewRows(sub, after, tgt, n - 1) && row.question == tgt.vals[key].id;
      assert row in NewRows(sub, after, tgt, n);
    }
  }

  // ----- from row to row -----

  /** The rule copies its source answer: IDENTITY, RENAME, and a conversion to anything but a date. */
  predicate Copies(r: Rule) {
    r.operation.Identity? || r.operation.Rename? || (r.operation.CoerceType? && !ToDate(r.params))
  }

  lemma CopiesSource(lib: Lib, r: Rule, answers: Answers)
    requires Copies(r) && r.source.Some?
    ensures Operate(lib, r, answers) == Yields(if r.source.value == "" then None else Lookup(answers, r.source.value), false, 0)
  {
    hide Operate;
    if r.operation.CoerceType? {
      CoerceKeeps(lib, r, answers);
    } else {
      CopyMeans(lib, r, answers);
    }
  }

  /** Rule i is executed and is the only executed rule that writes under its target. */
  predicate SoleWriter(lib: Lib, rules: seq<Rule>, before: Answers, n: nat, i: nat)
    requires n <= |rules|
  {
    i < n && forall j :: 0 <= j < n && WritesTo(lib, rules, before, j, rules[i].target) ==> j == i
  }

  lemma SoleWriterHolds(lib: Lib, rules: seq<Rule>, before: Answers, n: nat, i: nat, p: Progress)
    requires n <= |rules| && SoleWriter(lib, rules, before, n, i) && Means(lib, rules, before, n, p)
    ensures p.after.Get(rules[i].target) == Outcome(Operate(lib, rules[i], before))
  {
    hide Operate;
    var w := LastWriter(lib, rules, before, n, rules[i].target);
    assert w.None? ==> !WritesTo(lib, rules, before, i, rules[i].target);
    assert p.after.Get(rules[i].target) == Written(lib, rules, before, n, rules[i].target);
  }

  /** When a migration completes, a copying rule that alone writes a target question leaves in its new row exactly the
      answer of the old row, or no answer when there was no row, for every answer but the marker. */
  lemma MigrationCopies(lib: Lib, versions: Versions, rs: RuleSet, sub: nat, own: seq<Row>, n: nat, i: nat)
    requires DistinctQuestionIds(versions) && Migrate(lib, versions, rs, sub, own).Completes?
    requires var rules, src := SortRules(rs.rules), QuestionMap(QuestionsOf(versions, rs.source));
             var before := LoadAnswers(own, src);
             && Executed(lib, rules, before, n) && SoleWriter(lib, rules, before, n, i)
             && Copies(rules[i]) && rules[i].source.Some?
             && Held(own, src, rules[i].source.value) != Some("__DROP__")
    ensures var r, src, tgt := SortRules(rs.rules)[i], QuestionMap(QuestionsOf(versions, rs.source)), QuestionMap(QuestionsOf(versions, rs.target));
            r.target in tgt.vals ==>
              Answered(Migrate(lib, versions, rs, sub, own).rows, tgt.vals[r.target].id, Held(own, src, r.source.value))
  {
    hide QuestionMap, SortRules, LoadAnswers, RunRules, Errors, SheetOf, Operate, Executed, NewRows, Answered, WritesTo, Means, Copies;
    var src, tgt := QuestionMap(QuestionsOf(versions, rs.source)), QuestionMap(QuestionsOf(versions, rs.target));
    var rules, before := SortRules(rs.rules), LoadAnswers(own, src);
    var p := RunRules(lib, rules, before);
    VersionIdentified(versions, rs.source);
    VersionIdentified(versions, rs.target);
    ExecutedMeans(lib, rules, before, n);
    SoleWriterHolds(lib, rules, before, n, i, p);
    CopiesSource(lib, rules[i], before);
    LookupIsHeld(own, src, rules[i].source.value);
    var key := rules[i].target;
    if key in tgt.vals {
      assert p.after.Get(key) == Some(Held(own, src, rules[i].source.value));
      GetInKeys(p.after, key);
      NewRowsAnswer(sub, p.after, tgt, |p.after.keys|, key);
    }
  }

  lemma GetInKeys(d: Dict<Answer>, key: string)
    requires d.Valid() && d.Get(key).Some?
    ensures key in d.vals && key in d.keys[..|d.keys|] && d.vals[key] == d.Get(key).value
  {
  }

  lemma ExecutedOnce(lib: Lib, rules: seq<Rule>, before: Answers, m: nat, n: nat)
    requires Executed(lib, rules, before, m) && Executed(lib, rules, before, n)
    ensures m == n
  {
    hide Ends;
  }

  /** The executed prefix is determined, so it is the one that the meaning of a run speaks of. */
  lemma ExecutedMeans(lib: Lib, rules: seq<Rule>, before: Answers, n: nat)
    requires Executed(lib, rules, before, n)
    ensures n <= |rules| && Means(lib, rules, before, n, RunRules(lib, rules, before))
  {
    hide Means, RunRules, Ends;
    var m := RuleListMeaning(lib, rules, before);
    ExecutedOnce(lib, rules, before, m, n);
  }

  // ----- generated programs -----

  /** The question is renamed, or is kept with the same options or with a type that is no date. */
  predicate CopiedFrom(src: Questions, tgt: Questions, key: string, t: string)
    requires tgt.Valid()
  {
    && key in src.vals && t in tgt.vals
    && if key in Renames(tgt) then Renames(tgt)[key] == t
       else
         && key == t
         && var s, q := src.vals[key], tgt.vals[key];
            if s.fieldType == q.fieldType then !OptionsChanged(s, q) else !q.fieldType.Date?
  }

  lemma CopiedByCopyingRule(src: Questions, tgt: Questions, key: string, t: string, i: nat)
    requires tgt.Valid() && CopiedFrom(src, tgt, key, t)
    ensures var r := SourceRule(src, tgt, key, i); Copies(r) && r.source == Some(key) && r.target == t
  {
    hide Renames, OptionsChanged;
  }

  /** Under a covered target key a generated program leaves exactly the source answer of the question it is copied
      from, whatever happens to the other questions; the marker alone is discarded. */
  lemma ProgramCopies(lib: Lib, src: Questions, tgt: Questions, before: Answers, key: string, t: string)
    requires src.Valid() && tgt.Valid() && CopiedFrom(src, tgt, key, t) && Covered(src, tgt, t)
    ensures var answer := if key == "" then None else Lookup(before, key);
            RunRules(lib, GeneratedRules(src, tgt), before).after.Get(t) ==
            if answer == Some("__DROP__") then None else Some(answer)
  {
    hide RunRules, Operate, SourceRule, NewKeys, Covered, CopiedFrom, Copies;
    assert key in src.vals && t in tgt.vals by { CopiedKnown(src, tgt, key, t); }
    assert key in src.keys;
    var i :| 0 <= i < |src.keys| && src.keys[i] == key;
    CopiedByCopyingRule(src, tgt, key, t, i);
    assert GeneratedRules(src, tgt)[i] == SourceRule(src, tgt, key, i);
    assert Feeds(GeneratedRules(src, tgt), i, t) by { CopiesIsNoDrop(SourceRule(src, tgt, key, i)); }
    SoleFeeder(lib, src, tgt, before, i, t);
    CopiesSource(lib, SourceRule(src, tgt, key, i), before);
  }

  lemma CopiedKnown(src: Questions, tgt: Questions, key: string, t: string)
    requires tgt.Valid() && CopiedFrom(src, tgt, key, t)
    ensures key in src.vals && t in tgt.vals
  {
  }

  lemma CopiesIsNoDrop(r: Rule)
    requires Copies(r)
    ensures !r.operation.Drop?
  {
  }

  /** From the old row to the new one: a migration by a generated rule set leaves such a question the answer it had. */
  lemma GeneratedKeepsAnswer(lib: Lib, versions: Versions, rs: RuleSet, sub: nat, own: seq<Row>, key: string, t: string)
    requires DistinctQuestionIds(versions) && IsGenerated(versions, rs)
    requires var src, tgt := QuestionMap(QuestionsOf(versions, rs.source)), QuestionMap(QuestionsOf(versions, rs.target));
             && CopiedFrom(src, tgt, key, t) && t in tgt.vals && Covered(src, tgt, t)
             && Held(own, src, key) != Some("__DROP__")
    ensures var src, tgt := QuestionMap(QuestionsOf(versions, rs.source)), QuestionMap(QuestionsOf(versions, rs.target));
            var m := Migrate(lib, versions, rs, sub, own);
            m.Completes? && t in tgt.vals && Answered(m.rows, tgt.vals[t].id, Held(own, src, key))
  {
    hide QuestionMap, GeneratedRules, LoadAnswers, RunRules, Errors, SheetOf, NewRows, Migrate, Covered, CopiedFrom, Answered, Stored;
    var src, tgt := QuestionMap(QuestionsOf(versions, rs.source)), QuestionMap(QuestionsOf(versions, rs.target));
    GeneratedCompletes(lib, versions, rs, sub, own);
    VersionIdentified(versions, rs.source);
    VersionIdentified(versions, rs.target);
    LookupIsHeld(own, src, key);
    ProgramCopies(lib, src, tgt, LoadAnswers(own, src), key, t);
    var after := Migrate(lib, versions, rs, sub, own).progress.after;
    GetInKeys(after, t);
    NewRowsAnswer(sub, after, tgt, |after.keys|, t);
  }

  /** A new target question gets a row without an answer. */
  lemma NewQuestionUnanswered(lib: Lib, src: Questions, tgt: Questions, before: Answers, t: string)
    requires src.Valid() && tgt.Valid() && t in tgt.vals && IsNew(src, tgt, t)
    ensures RunRules(lib, GeneratedRules(src, tgt), before).after.Get(t) == Some(None)
  {
    var news := NewKeys(src, tgt, |tgt.keys|);
    assert tgt.keys[..|tgt.keys|] == tgt.keys && t in tgt.keys;
    assert t in news;
    var c :| 0 <= c < |news| && news[c] == t;
    var i := |src.keys| + c;
    NewIsCovered(src, tgt, t);
    hide RunRules, NewKeys, SourceRule, Covered, IsNew;
    var rules := GeneratedRules(src, tgt);
    assert rules[i] == NewRule(None, t, DefaultValue, NO_PARAMS, i);
    assert Feeds(rules, i, t);
    SoleFeeder(lib, src, tgt, before, i, t);
    CopyMeans(lib, rules[i], before);
  }

  lemma NewIsCovered(src: Questions, tgt: Questions, t: string)
    requires tgt.Valid() && t in tgt.vals && IsNew(src, tgt, t)
    ensures Covered(src, tgt, t)
  {
  }

  /** A kept question that becomes a date holds what its answer parses to, by the first format that does; from a text
      question the first format tried is the literal one that the program carries. */
  lemma ProgramDates(lib: Lib, src: Questions, tgt: Questions, before: Answers, t: string, raw: string) returns (i: nat)
    requires src.Valid() && tgt.Valid() && t in tgt.vals && Kept(src, tgt, t) && Covered(src, tgt, t) && t != ""
    requires src.vals[t].fieldType != tgt.vals[t].fieldType && tgt.vals[t].fieldType.Date?
    requires Lookup(before, t) == Some(raw)
    ensures i <= 4
    ensures var formats := [if src.vals[t].fieldType.Text? then "YYYY-MM-DD" else "", "%Y-%m-%d", "%m/%d/%Y", "%d/%m/%Y"];
            && (forall j :: 0 <= j < i ==> !ParsesBy(lib, raw, formats[j]))
            && var held := RunRules(lib, GeneratedRules(src, tgt), before).after.Get(t);
               if i < 4 then
                 && ParsesBy(lib, raw, formats[i])
                 && held == (if lib.strptime(raw, formats[i]) == Some("__DROP__") then None else Some(lib.strptime(raw, formats[i])))
               else held == Some(None)
  {
    hide RunRules, Operate, NewKeys, Covered, SourceRule, ParsesBy;
    assert t in src.keys;
    var k :| 0 <= k < |src.keys| && src.keys[k] == t;
    var r := SourceRule(src, tgt, t, k);
    DateRule(src, tgt, t, k);
    assert GeneratedRules(src, tgt)[k] == r && Feeds(GeneratedRules(src, tgt), k, t);
    SoleFeeder(lib, src, tgt, before, k, t);
    i := CoerceToDate(lib, r, before, raw);
  }

  lemma DateRule(src: Questions, tgt: Questions, t: string, k: nat)
    requires tgt.Valid() && t in tgt.vals && Kept(src, tgt, t)
    requires src.vals[t].fieldType != tgt.vals[t].fieldType && tgt.vals[t].fieldType.Date?
    ensures var r := SourceRule(src, tgt, t, k);
            && r.operation.CoerceType? && ToDate(r.params) && r.source == Some(t) && r.target == t
            && Formats(r.params) == [if src.vals[t].fieldType.Text? then "YYYY-MM-DD" else "", "%Y-%m-%d", "%m/%d/%Y", "%d/%m/%Y"]
  {
    hide Renames;
  }

  /** A kept question whose options have changed holds what its answer is mapped to: by the hint, if there is one, and
      otherwise itself when the target still has it and nothing when it has not. */
  lemma ProgramMaps(lib: Lib, src: Questions, tgt: Questions, before: Answers, t: string, raw: string)
    requires src.Valid() && tgt.Valid() && t in tgt.vals && Kept(src, tgt, t) && Covered(src, tgt, t) && t != ""
    requires src.vals[t].fieldType == tgt.vals[t].fieldType && OptionsChanged(src.vals[t], tgt.vals[t])
    requires Lookup(before, t) == Some(raw) && ',' !in raw
    ensures var s, q := src.vals[t], tgt.vals[t];
            var image := if raw !in s.options then None
                         else if raw in s.valueMapping then s.valueMapping[raw]
                         else if raw in q.options then Some(raw) else None;
            RunRules(lib, GeneratedRules(src, tgt), before).after.Get(t) ==
            if image == Some("__DROP__") then None else Some(image)
  {
    hide RunRules, Operate, NewKeys, Covered, SourceRule, OptionsChanged, OptionMapping;
    assert t in src.keys;
    var k :| 0 <= k < |src.keys| && src.keys[k] == t;
    var r := SourceRule(src, tgt, t, k);
    OptionRule(src, tgt, t, k);
    assert GeneratedRules(src, tgt)[k] == r && Feeds(GeneratedRules(src, tgt), k, t);
    SoleFeeder(lib, src, tgt, before, k, t);
    MapPlain(lib, r, before, raw);
    OptionMappingMeans(src.vals[t], tgt.vals[t], raw);
  }

  lemma OptionRule(src: Questions, tgt: Questions, t: string, k: nat)
    requires tgt.Valid() && t in tgt.vals && Kept(src, tgt, t)
    requires src.vals[t].fieldType == tgt.vals[t].fieldType && OptionsChanged(src.vals[t], tgt.vals[t])
    ensures var r := SourceRule(src, tgt, t, k);
            && r.operation.MapValues? && r.source == Some(t) && r.target == t && r.params.default.None?
            && r.params.mapping == Some(OptionMapping(src.vals[t], tgt.vals[t]))
  {
    hide Renames, OptionsChanged, OptionMapping;
  }
}
