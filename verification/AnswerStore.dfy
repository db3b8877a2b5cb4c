/** Applying a rule set to one submission in the database (app/services/transforms/executor.py:105-120, 272-410). */
module AnswerStore {
  import opened Prelude
  import opened Forms
  import opened AnswerValidator
  import opened Executor
  import opened RuleMeaning
  import opened DiffService
  import Submissions

  datatype Row = Row(submission: nat, question: nat, fieldType: FieldType, answer: Answer)

  datatype Record = Record(status: Submissions.Status, version: nat)

  datatype LogError = RuleError(id: nat) | Invalid(error: AnswerError)

  datatype Log = Log(submission: nat, before: Answers, after: Answers, errors: seq<LogError>, warnings: nat, isPreview: bool)

  datatype Store = Store(subs: map<nat, Record>, rows: seq<Row>, logs: seq<Log>)

  datatype RuleSet = RuleSet(published: bool, source: nat, target: nat, rules: seq<Rule>)

  type Versions = map<nat, seq<Question>>

  /** The questions of a version; a version that does not exist has none. */
  function QuestionsOf(versions: Versions, v: nat): seq<Question> {
    if v in versions then versions[v] else []
  }

  /** {question id: unique key} over the first n entries. */
  function KeysById(qs: Questions, n: nat): map<nat, string>
    requires qs.Valid() && n <= |qs.keys|
  {
    if n == 0 then map[] else KeysById(qs, n - 1)[qs.vals[qs.keys[n - 1]].id := qs.keys[n - 1]]
  }

  function RowsOf(rows: seq<Row>, sub: nat): seq<Row> {
    if rows == [] then []
    else RowsOf(rows[..|rows| - 1], sub) + if rows[|rows| - 1].submission == sub then [rows[|rows| - 1]] else []
  }

  function RowsWithout(rows: seq<Row>, sub: nat): seq<Row> {
    if rows == [] then []
    else RowsWithout(rows[..|rows| - 1], sub) + if rows[|rows| - 1].submission == sub then [] else [rows[|rows| - 1]]
  }

  /** The answers under the keys of the source version; rows of other questions are passed over. */
  function AnswersFrom(own: seq<Row>, keys: map<nat, string>): Answers {
    if own == [] then map[]
    else
      var row, before := own[|own| - 1], AnswersFrom(own[..|own| - 1], keys);
      if row.question in keys && keys[row.question] != "" then before[keys[row.question] := row.answer] else before
  }

  function LoadAnswers(own: seq<Row>, src: Questions): Answers
    requires src.Valid()
  {
    AnswersFrom(own, KeysById(src, |src.keys|))
  }

  /** The rows for the first n answers whose keys exist in the target version. */
  function NewRows(sub: nat, after: Dict<Answer>, tgt: Questions, n: nat): seq<Row>
    requires after.Valid() && n <= |after.keys|
  {
    if n == 0 then []
    else
      var k := after.keys[n - 1];
      NewRows(sub, after, tgt, n - 1)
      + if k in tgt.vals then [Row(sub, tgt.vals[k].id, tgt.vals[k].fieldType, after.vals[k])] else []
  }

  function Payload(rows: seq<Row>): seq<(nat, Answer)> {
    seq(|rows|, i requires 0 <= i < |rows| => (rows[i].question, rows[i].answer))
  }

  // ----- what a rule set makes of the rows of one submission -----

  datatype Migration =
    | Raises
    | Refuses(before: Answers, progress: Progress)
    | Completes(before: Answers, progress: Progress, rows: seq<Row>, invalid: seq<AnswerError>)

  function Migrate(lib: Lib, versions: Versions, rs: RuleSet, sub: nat, own: seq<Row>): Migration {
    var src, tgt := QuestionMap(QuestionsOf(versions, rs.source)), QuestionMap(QuestionsOf(versions, rs.target));
    var before := LoadAnswers(own, src);
    var p := RunRules(lib, SortRules(rs.rules), before);
    if p.raised then Raises
    else if RequiredFailure(rs.rules, p.errors) then Refuses(before, p)
    else
      var rows := NewRows(sub, p.after, tgt, |p.after.keys|);
      var questions := QuestionsOf(versions, rs.target);
      Completes(before, p, rows, Errors(lib, questions, SheetOf(questions, Payload(rows))))
  }

  /** The answers and the version are switched. */
  predicate Switches(m: Migration) {
    m.Completes? && m.invalid == []
  }

  /** The log of the run has no error entry at all; this is what the bulk service counts as success. */
  predicate Faultless(m: Migration) {
    m.Completes? && m.invalid == [] && m.progress.errors == []
  }

  function RuleErrors(ids: seq<nat>): seq<LogError> {
    seq(|ids|, i requires 0 <= i < |ids| => RuleError(ids[i]))
  }

  function InvalidErrors(es: seq<AnswerError>): seq<LogError> {
    seq(|es|, i requires 0 <= i < |es| => Invalid(es[i]))
  }

  function LogOf(m: Migration, sub: nat, preview: bool): Log
    requires !m.Raises?
  {
    var errors := RuleErrors(m.progress.errors) + if m.Completes? then InvalidErrors(m.invalid) else [];
    Log(sub, m.before, m.progress.after.vals, errors, m.progress.warnings, preview || m.Refuses?)
  }

  // ----- one call -----

  /** Rejected stands for the guards, Failed for an exception or a required failure, Logged for a returned log. */
  datatype Result = Rejected | Failed | Logged(log: Log)

  predicate Migratable(s: Submissions.Status) {
    s.Draft? || s.Returned?
  }

  predicate Admits(store: Store, rs: RuleSet, sub: nat, preview: bool) {
    rs.published && sub in store.subs && (preview || Migratable(store.subs[sub].status))
  }

  /** `apply_rule_set` */
  function Apply(lib: Lib, versions: Versions, rs: RuleSet, store: Store, sub: nat, preview: bool): (Store, Result) {
    if !Admits(store, rs, sub, preview) then (store, Rejected)
    else
      var m := Migrate(lib, versions, rs, sub, RowsOf(store.rows, sub));
      if m.Raises? then (store, Failed)
      else
        var log := LogOf(m, sub, preview);
        var logged := store.(logs := store.logs + [log]);
        if m.Refuses? then (logged, Failed)
        else if preview || !Switches(m) then (logged, Logged(log))
        else (Switched(logged, sub, m.rows, rs.target), Logged(log))
  }

  function Switched(store: Store, sub: nat, rows: seq<Row>, target: nat): Store
    requires sub in store.subs
  {
    store.(rows := RowsWithout(store.rows, sub) + rows,
           subs := store.subs[sub := store.subs[sub].(version := target)])
  }

  class AnswerDatabase {
    const versions: Versions
    var subs: map<nat, Record>
    var rows: seq<Row>
    var logs: seq<Log>

    function View(): Store
      reads this
    {
      Store(subs, rows, logs)
    }

    constructor (versions: Versions, subs: map<nat, Record>, rows: seq<Row>)
      ensures this.versions == versions && View() == Store(subs, rows, [])
    {
      this.versions, this.subs, this.rows, logs := versions, subs, rows, [];
    }

    /** The loop of `_load_submission_answers`. */
    method LoadSubmissionAnswers(sub: nat, src: Questions) returns (answers: Answers)
      requires src.Valid()
      ensures answers == LoadAnswers(RowsOf(rows, sub), src)
    {
      var keys: map<nat, string> := map[];
      for i := 0 to |src.keys|
        invariant keys == KeysById(src, i)
      {
        keys := keys[src.vals[src.keys[i]].id := src.keys[i]];
      }
      var own := RowsOf(rows, sub);
      answers := map[];
      for i := 0 to |own|
        invariant answers == AnswersFrom(own[..i], keys)
      {
        assert own[..i + 1][..i] == own[..i];
        if own[i].question in keys && keys[own[i].question] != "" {
          answers := answers[keys[own[i].question] := own[i].answer];
        }
      }
      assert own[..|own|] == own;
    }

    static method BuildRows(sub: nat, after: Dict<Answer>, tgt: Questions) returns (created: seq<Row>)
      requires after.Valid()
      ensures created == NewRows(sub, after, tgt, |after.keys|)
    {
      created := [];
      for i := 0 to |after.keys|
        invariant created == NewRows(sub, after, tgt, i)
      {
        var k := after.keys[i];
        if k in tgt.vals {
          created := created + [Row(sub, tgt.vals[k].id, tgt.vals[k].fieldType, after.vals[k])];
        }
      }
    }

    /** Everything up to the validation of the migrated answers. */
    method RunMigration(lib: Lib, rs: RuleSet, sub: nat) returns (m: Migration)
      ensures m == Migrate(lib, versions, rs, sub, RowsOf(rows, sub))
    {
      hide LoadAnswers, RowsOf, RunRules, SortRules, Errors, SheetOf, NewRows, QuestionMap;
      var src, tgt := QuestionMap(QuestionsOf(versions, rs.source)), QuestionMap(QuestionsOf(versions, rs.target));
      var before := LoadSubmissionAnswers(sub, src);
      var p := ApplyRules(lib, SortRules(rs.rules), before);
      if p.raised {
        return Raises;
      }
      if RequiredFailure(rs.rules, p.errors) {
        return Refuses(before, p);
      }
      var created := BuildRows(sub, p.after, tgt);
      var invalid := ValidateAnswers(lib, QuestionsOf(versions, rs.target), Payload(created));
      m := Completes(before, p, created, invalid);
    }

    /** `apply_rule_set` */
    method ApplyRuleSet(lib: Lib, rs: RuleSet, sub: nat, preview: bool) returns (result: Result)
      modifies this
      ensures (View(), result) == Apply(lib, versions, rs, old(View()), sub, preview)
    {
      hide Migrate, RowsOf, RowsWithout, LogOf;
      if !rs.published || sub !in subs {
        return Rejected;
      }
      if !preview && !Migratable(subs[sub].status) {
        return Rejected;
      }
      var m := RunMigration(lib, rs, sub);
      if m.Raises? {
        return Failed;
      }
      var log := LogOf(m, sub, preview);
      logs := logs + [log];
      if m.Refuses? {
        return Failed;
      }
      if !preview && m.invalid == [] {
        rows := RowsWithout(rows, sub) + m.rows;
        subs := subs[sub := subs[sub].(version := rs.target)];
      }
      result := Logged(log);
    }
  }

  // ----- the rows of different submissions do not touch -----

  lemma {:induction false} RowsConcat(a: seq<Row>, b: seq<Row>, sub: nat)
    ensures RowsOf(a + b, sub) == RowsOf(a, sub) + RowsOf(b, sub)
  {
    if b == [] {
      assert a + b == a;
    } else {
      assert (a + b)[..|a + b| - 1] == a + b[..|b| - 1];
      RowsConcat(a, b[..|b| - 1], sub);
    }
  }

  lemma OneRow(row: Row, sub: nat)
    ensures RowsOf([row], sub) == if row.submission == sub then [row] else []
  {
    assert [row][..0] == [];
  }

  lemma {:induction false} WithoutLeaves(rows: seq<Row>, sub: nat, other: nat)
    ensures RowsOf(RowsWithout(rows, sub), other) == if other == sub then [] else RowsOf(rows, other)
  {
    if rows != [] {
      var n := |rows| - 1;
      WithoutLeaves(rows[..n], sub, other);
      var last := if rows[n].submission == sub then [] else [rows[n]];
      RowsConcat(RowsWithout(rows[..n], sub), last, other);
      if last != [] {
        OneRow(last[0], other);
      }
    }
  }

  lemma {:induction false} RowsOfOne(rows: seq<Row>, sub: nat, other: nat)
    requires forall i :: 0 <= i < |rows| ==> rows[i].submission == sub
    ensures RowsOf(rows, other) == if other == sub then rows else []
  {
    if rows != [] {
      RowsOfOne(rows[..|rows| - 1], sub, other);
      assert rows == rows[..|rows| - 1] + [rows[|rows| - 1]];
    }
  }

  lemma {:induction false} NewRowsBelong(sub: nat, after: Dict<Answer>, tgt: Questions, n: nat)
    requires after.Valid() && n <= |after.keys|
    ensures forall i :: 0 <= i < |NewRows(sub, after, tgt, n)| ==> NewRows(sub, after, tgt, n)[i].submission == sub
  {
    if n > 0 {
      NewRowsBelong(sub, after, tgt, n - 1);
    }
  }

  /** What a call does to the database, by its kind: nothing but logs, or both answers and version at once. */
  lemma AllOrNothing(lib: Lib, versions: Versions, rs: RuleSet, store: Store, sub: nat, preview: bool)
    ensures var (store', result) := Apply(lib, versions, rs, store, sub, preview);
            var m := Migrate(lib, versions, rs, sub, RowsOf(store.rows, sub));
            if Admits(store, rs, sub, preview) && !preview && Switches(m) then
              && result.Logged?
              && RowsOf(store'.rows, sub) == m.rows
              && store'.subs == store.subs[sub := store.subs[sub].(version := rs.target)]
            else store'.rows == store.rows && store'.subs == store.subs
  {
    hide RowsOf, RowsWithout, RunRules, SortRules, Errors, SheetOf, QuestionMap, LogOf;
    var m := Migrate(lib, versions, rs, sub, RowsOf(store.rows, sub));
    if Switches(m) {
      WithoutLeaves(store.rows, sub, sub);
      RowsConcat(RowsWithout(store.rows, sub), m.rows, sub);
      var tgt := QuestionMap(QuestionsOf(versions, rs.target));
      NewRowsBelong(sub, m.progress.after, tgt, |m.progress.after.keys|);
      RowsOfOne(m.rows, sub, sub);
    }
  }

  /** Other submissions keep their rows and their version. */
  lemma OthersUntouched(lib: Lib, versions: Versions, rs: RuleSet, store: Store, sub: nat, preview: bool, other: nat)
    requires other != sub
    ensures var store' := Apply(lib, versions, rs, store, sub, preview).0;
            && RowsOf(store'.rows, other) == RowsOf(store.rows, other)
            && store'.subs.Keys == store.subs.Keys
            && (other in store.subs ==> store'.subs[other] == store.subs[other])
  {
    hide RowsOf, RowsWithout, RunRules, SortRules, Errors, SheetOf, QuestionMap, LogOf;
    var m := Migrate(lib, versions, rs, sub, RowsOf(store.rows, sub));
    if Switches(m) {
      WithoutLeaves(store.rows, sub, other);
      RowsConcat(RowsWithout(store.rows, sub), m.rows, other);
      var tgt := QuestionMap(QuestionsOf(versions, rs.target));
      NewRowsBelong(sub, m.progress.after, tgt, |m.progress.after.keys|);
      RowsOfOne(m.rows, sub, other);
    }
  }

  // ----- the invariant of the answer table -----

  /** The row answers a question of this version, with that question's field type. */
  predicate Fits(versions: Versions, v: nat, row: Row) {
    exists q :: q in QuestionsOf(versions, v) && q.id == row.question && q.fieldType == row.fieldType
  }

  predicate NoQuestionTwice(rows: seq<Row>) {
    forall i, j :: 0 <= i < j < |rows| && rows[i].submission == rows[j].submission ==> rows[i].question != rows[j].question
  }

  /** Every row belongs to a submission and fits its current version, and no question is answered twice. */
  predicate Consistent(versions: Versions, store: Store) {
    && (forall row :: row in store.rows ==>
          row.submission in store.subs && Fits(versions, store.subs[row.submission].version, row))
    && NoQuestionTwice(store.rows)
  }

  /** Question ids are unique within a version. */
  predicate DistinctQuestionIds(versions: Versions) {
    forall v, q, q' :: v in versions && q in versions[v] && q' in versions[v] && q.id == q'.id ==> q == q'
  }

  lemma {:induction false} WithoutMembers(rows: seq<Row>, sub: nat)
    ensures forall row :: row in RowsWithout(rows, sub) <==> row in rows && row.submission != sub
    ensures NoQuestionTwice(rows) ==> NoQuestionTwice(RowsWithout(rows, sub))
  {
    if rows != [] {
      var n := |rows| - 1;
      WithoutMembers(rows[..n], sub);
      assert rows == rows[..n] + [rows[n]];
      if NoQuestionTwice(rows) && rows[n].submission != sub {
        var rest := RowsWithout(rows[..n], sub);
        forall row | row in rest ensures row.submission == rows[n].submission ==> row.question != rows[n].question {
          assert row in rows[..n];
        }
        TwiceAppend(rest, rows[n]);
      }
    }
  }

  lemma TwiceAppend(rows: seq<Row>, row: Row)
    requires NoQuestionTwice(rows)
    requires forall r :: r in rows ==> r.submission == row.submission ==> r.question != row.question
    ensures NoQuestionTwice(rows + [row])
  {
    assert forall i :: 0 <= i < |rows| ==> rows[i] in rows;
  }

  lemma {:induction false} NewRowsFit(versions: Versions, target: nat, sub: nat, after: Dict<Answer>, n: nat)
    requires DistinctQuestionIds(versions) && after.Valid() && n <= |after.keys|
    ensures var tgt := QuestionMap(QuestionsOf(versions, target));
            var rows := NewRows(sub, after, tgt, n);
            && (forall row :: row in rows ==>
                  row.submission == sub && Fits(versions, target, row)
                  && exists i :: 0 <= i < n && after.keys[i] in tgt.vals && tgt.vals[after.keys[i]].id == row.question)
            && NoQuestionTwice(rows)
  {
    var tgt := QuestionMap(QuestionsOf(versions, target));
    QuestionMapEntries(QuestionsOf(versions, target));
    hide QuestionMap;
    if n > 0 {
      NewRowsFit(versions, target, sub, after, n - 1);
      var k := after.keys[n - 1];
      if k in tgt.vals {
        var rest, row := NewRows(sub, after, tgt, n - 1), Row(sub, tgt.vals[k].id, tgt.vals[k].fieldType, after.vals[k]);
        forall r | r in rest ensures r.question != row.question {
          var i :| 0 <= i < n - 1 && after.keys[i] in tgt.vals && tgt.vals[after.keys[i]].id == r.question;
          assert tgt.vals[after.keys[i]].key != tgt.vals[k].key;
        }
        TwiceAppend(rest, row);
      }
    }
  }

  lemma TwiceUnion(a: seq<Row>, b: seq<Row>, sub: nat)
    requires NoQuestionTwice(a) && NoQuestionTwice(b)
    requires (forall r :: r in a ==> r.submission != sub) && (forall r :: r in b ==> r.submission == sub)
    ensures NoQuestionTwice(a + b)
  {
    assert forall i :: 0 <= i < |a| ==> a[i] in a;
    assert forall i :: 0 <= i < |b| ==> b[i] in b;
  }

  /** Every call, preview or not, refused or not, keeps the answer table consistent. */
  lemma ApplyKeepsConsistent(lib: Lib, versions: Versions, rs: RuleSet, store: Store, sub: nat, preview: bool)
    requires DistinctQuestionIds(versions) && Consistent(versions, store)
    ensures Consistent(versions, Apply(lib, versions, rs, store, sub, preview).0)
  {
    hide RowsOf, RunRules, SortRules, Errors, SheetOf, QuestionMap, LogOf, Fits, RowsWithout, NoQuestionTwice;
    var m := Migrate(lib, versions, rs, sub, RowsOf(store.rows, sub));
    if Switches(m) {
      var after := m.progress.after;
      NewRowsFit(versions, rs.target, sub, after, |after.keys|);
      WithoutMembers(store.rows, sub);
      TwiceUnion(RowsWithout(store.rows, sub), m.rows, sub);
    }
  }

  datatype Call = Call(lib: Lib, rs: RuleSet, sub: nat, preview: bool)

  function Replay(versions: Versions, store: Store, calls: seq<Call>): Store {
    if calls == [] then store
    else
      var c := calls[|calls| - 1];
      Apply(c.lib, versions, c.rs, Replay(versions, store, calls[..|calls| - 1]), c.sub, c.preview).0
  }

  /** So the table stays consistent through any sequence of previews, applications and refusals. */
  lemma {:induction false} AlwaysConsistent(versions: Versions, store: Store, calls: seq<Call>)
    requires DistinctQuestionIds(versions) && Consistent(versions, store)
    ensures Consistent(versions, Replay(versions, store, calls))
  {
    hide Apply, Consistent;
    if calls != [] {
      var c := calls[|calls| - 1];
      AlwaysConsistent(versions, store, calls[..|calls| - 1]);
      ApplyKeepsConsistent(c.lib, versions, c.rs, Replay(versions, store, calls[..|calls| - 1]), c.sub, c.preview);
    }
  }

  // ----- applying a rule set to a submission of another version -----

  lemma {:induction false} KeysByIdKnown(qs: Questions, n: nat)
    requires qs.Valid() && n <= |qs.keys|
    ensures forall id :: id in KeysById(qs, n) ==> exists k :: k in qs.vals && qs.vals[k].id == id
  {
    if n > 0 {
      KeysByIdKnown(qs, n - 1);
      assert qs.keys[n - 1] in qs.keys;
    }
  }

  /** The rows that answer a question of the source version. */
  function KnownRows(own: seq<Row>, keys: map<nat, string>): seq<Row> {
    if own == [] then []
    else KnownRows(own[..|own| - 1], keys) + if own[|own| - 1].question in keys then [own[|own| - 1]] else []
  }

  lemma {:induction false} ForeignRowsUnread(own: seq<Row>, keys: map<nat, string>)
    ensures AnswersFrom(own, keys) == AnswersFrom(KnownRows(own, keys), keys)
  {
    if own != [] {
      var before, last := own[..|own| - 1], own[|own| - 1];
      ForeignRowsUnread(before, keys);
      if last.question in keys {
        assert KnownRows(own, keys)[..|KnownRows(own, keys)| - 1] == KnownRows(before, keys);
      } else {
        assert KnownRows(own, keys) == KnownRows(before, keys);
      }
    }
  }

  /** Which version the submission is at plays no part: a migration is decided by the rows that happen to answer
      questions of the source version, and by no others. */
  lemma OnlyKnownRowsMatter(lib: Lib, versions: Versions, rs: RuleSet, sub: nat, own: seq<Row>)
    ensures var src := QuestionMap(QuestionsOf(versions, rs.source));
            Migrate(lib, versions, rs, sub, own) ==
            Migrate(lib, versions, rs, sub, KnownRows(own, KeysById(src, |src.keys|)))
  {
    var src := QuestionMap(QuestionsOf(versions, rs.source));
    ForeignRowsUnread(own, KeysById(src, |src.keys|));
    hide RunRules, SortRules, Errors, SheetOf, QuestionMap, NewRows, KeysById, AnswersFrom;
  }

  lemma {:induction false} NoneKnown(own: seq<Row>, keys: map<nat, string>)
    requires forall row :: row in own ==> row.question !in keys
    ensures KnownRows(own, keys) == []
  {
    if own != [] {
      assert own == own[..|own| - 1] + [own[|own| - 1]];
      NoneKnown(own[..|own| - 1], keys);
    }
  }

  /** The submission's version has no question in common with the source version of the rule set. */
  predicate OffSource(versions: Versions, rs: RuleSet, store: Store, sub: nat) {
    && sub in store.subs
    && forall q, q' :: q in QuestionsOf(versions, rs.source) && q' in QuestionsOf(versions, store.subs[sub].version)
         ==> q.id != q'.id
  }

  /** The source version is not checked: the rules then see no answers at all. */
  lemma OffSourceReadsNothing(lib: Lib, versions: Versions, rs: RuleSet, store: Store, sub: nat)
    requires Consistent(versions, store) && OffSource(versions, rs, store, sub)
    ensures Migrate(lib, versions, rs, sub, RowsOf(store.rows, sub)) == Migrate(lib, versions, rs, sub, [])
  {
    var src, own := QuestionMap(QuestionsOf(versions, rs.source)), RowsOf(store.rows, sub);
    QuestionMapEntries(QuestionsOf(versions, rs.source));
    KeysByIdKnown(src, |src.keys|);
    RowsOfMembers(store.rows, sub);
    OnlyKnownRowsMatter(lib, versions, rs, sub, own);
    hide QuestionMap, KeysById, RowsOf, NoQuestionTwice, Migrate;
    forall row | row in own ensures row.question !in KeysById(src, |src.keys|) {
      assert Fits(versions, store.subs[sub].version, row);
    }
    NoneKnown(own, KeysById(src, |src.keys|));
  }

  /** What then happens to the submission: it loses all its answers to rows made from none, and is switched, if and
      only if the rule set run on no answers passes the target's validator. Otherwise nothing happens to it. */
  lemma OffSourceSwitches(lib: Lib, versions: Versions, rs: RuleSet, store: Store, sub: nat)
    requires Consistent(versions, store) && OffSource(versions, rs, store, sub) && Admits(store, rs, sub, false)
    ensures var m := Migrate(lib, versions, rs, sub, []);
            var store' := Apply(lib, versions, rs, store, sub, false).0;
            if Switches(m) then
              && RowsOf(store'.rows, sub) == m.rows
              && store'.subs == store.subs[sub := store.subs[sub].(version := rs.target)]
            else store'.rows == store.rows && store'.subs == store.subs
  {
    hide Migrate, Apply, RowsOf, Consistent, OffSource;
    OffSourceReadsNothing(lib, versions, rs, store, sub);
    AllOrNothing(lib, versions, rs, store, sub, false);
  }

  lemma {:induction false} RowsOfMembers(rows: seq<Row>, sub: nat)
    ensures forall row :: row in RowsOf(rows, sub) <==> row in rows && row.submission == sub
  {
    if rows != [] {
      assert rows == rows[..|rows| - 1] + [rows[|rows| - 1]];
      RowsOfMembers(rows[..|rows| - 1], sub);
    }
  }

  // ----- what is logged -----

  /** An admitted call that does not raise appends one log: the answers before and after, its errors first of rules and
      then of the validator, and the preview flag, which a refused run carries as well. Any other call appends none. */
  lemma LogAppended(lib: Lib, versions: Versions, rs: RuleSet, store: Store, sub: nat, preview: bool)
    ensures var (store', result) := Apply(lib, versions, rs, store, sub, preview);
            var m := Migrate(lib, versions, rs, sub, RowsOf(store.rows, sub));
            if Admits(store, rs, sub, preview) && !m.Raises? then
              && |store'.logs| == |store.logs| + 1 && store'.logs[..|store.logs|] == store.logs
              && var log := store'.logs[|store.logs|];
                 && log.submission == sub && log.before == m.before && log.after == m.progress.after.vals
                 && log.warnings == m.progress.warnings
                 && log.isPreview == (preview || m.Refuses?)
                 && |log.errors| == |m.progress.errors| + (if m.Completes? then |m.invalid| else 0)
                 && (forall i :: 0 <= i < |m.progress.errors| ==> log.errors[i] == RuleError(m.progress.errors[i]))
                 && (m.Completes? ==> forall i :: 0 <= i < |m.invalid| ==>
                       log.errors[|m.progress.errors| + i] == Invalid(m.invalid[i]))
                 && (result.Logged? <==> m.Completes?) && (result.Logged? ==> result.log == log)
            else store'.logs == store.logs && !result.Logged?
  {
    hide Migrate, RowsOf, RowsWithout;
  }
}
