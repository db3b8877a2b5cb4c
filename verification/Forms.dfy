/** Form versions, answers and the library functions that migration calls. */
module Forms {
  import opened Prelude

  type Answer = Option<string>
  type Answers = map<string, Answer>

  datatype FieldType = Text | Dropdown | Radio | Checkbox | Date | FileUpload | Signature | Other(name: string)

  /** regex, minDate, maxDate and dependsOn are "" when they are not set. */
  datatype Question = Question(
    id: nat,
    key: string,
    fieldType: FieldType,
    required: bool,
    options: seq<string>,
    regex: string,
    minDate: string,
    maxDate: string,
    dependsOn: string,
    visibleWhen: Option<string>,
    renamedFrom: Option<string>,                  // transform_hints.renamed_from
    valueMapping: map<string, Option<string>>)    // transform_hints.value_mapping

  /** re.fullmatch (None for a bad pattern), date.fromisoformat, datetime.strptime and the COMPUTE evaluator. */
  datatype Lib = Lib(
    fullmatch: (string, string) -> Option<bool>,
    isoDate: string -> Option<int>,
    strptime: (string, string) -> Option<string>,
    evaluate: (string, Answers) -> Option<Answer>)

  /** `answers.get(key)` */
  function Lookup(answers: Answers, key: string): Answer {
    if key in answers then answers[key] else None
  }

  /** {unique_key: question}; a repeated key keeps its place and takes the later question. */
  function QuestionMap(qs: seq<Question>): (d: Dict<Question>)
    ensures d.Valid()
  {
    if qs == [] then EmptyDict()
    else QuestionMap(qs[..|qs| - 1]).Put(qs[|qs| - 1].key, qs[|qs| - 1])
  }

  lemma {:induction false} QuestionMapEntries(qs: seq<Question>)
    ensures forall k :: k in QuestionMap(qs).vals ==> QuestionMap(qs).vals[k].key == k && QuestionMap(qs).vals[k] in qs
    ensures forall q :: q in qs ==> q.key in QuestionMap(qs).vals
  {
    if qs != [] {
      QuestionMapEntries(qs[..|qs| - 1]);
    }
  }

  /** Where a key is seen first; |qs| when it is not. */
  function FirstAt(qs: seq<Question>, key: string): (i: nat)
    ensures i <= |qs| && (i < |qs| ==> qs[i].key == key) && forall j :: 0 <= j < i ==> qs[j].key != key
  {
    if qs == [] || qs[0].key == key then 0 else 1 + FirstAt(qs[1..], key)
  }

  /** Where a key is seen last; -1 when it is not. */
  function LastAt(qs: seq<Question>, key: string): (i: int)
    ensures -1 <= i < |qs| && (i >= 0 ==> qs[i].key == key) && forall j :: i < j < |qs| ==> qs[j].key != key
  {
    if qs == [] || qs[|qs| - 1].key == key then |qs| - 1 else LastAt(qs[..|qs| - 1], key)
  }

  /** The map has the keys that are seen, each with the question that is seen last. */
  lemma {:induction false} QuestionMapLast(qs: seq<Question>, k: string)
    ensures k in QuestionMap(qs).vals <==> LastAt(qs, k) >= 0
    ensures k in QuestionMap(qs).vals ==> QuestionMap(qs).vals[k] == qs[LastAt(qs, k)]
  {
    if qs != [] {
      QuestionMapLast(qs[..|qs| - 1], k);
    }
  }

  lemma FirstInPrefix(qs: seq<Question>, n: nat, key: string)
    requires n <= |qs| && FirstAt(qs[..n], key) < n
    ensures FirstAt(qs, key) == FirstAt(qs[..n], key)
  {
    hide FirstAt;
    var i := FirstAt(qs[..n], key);
    assert qs[i] == qs[..n][i];
    assert forall j :: 0 <= j < i ==> qs[j] == qs[..n][j];
  }

  predicate InFirstSeenOrder(qs: seq<Question>, keys: seq<string>) {
    && (forall i :: 0 <= i < |keys| ==> FirstAt(qs, keys[i]) < |qs|)
    && forall i, j :: 0 <= i < j < |keys| ==> FirstAt(qs, keys[i]) < FirstAt(qs, keys[j])
  }

  lemma StillFirst(qs: seq<Question>, keys: seq<string>)
    requires qs != [] && InFirstSeenOrder(qs[..|qs| - 1], keys)
    ensures InFirstSeenOrder(qs, keys) && forall i :: 0 <= i < |keys| ==> FirstAt(qs, keys[i]) < |qs| - 1
  {
    hide FirstAt;
    forall i | 0 <= i < |keys| ensures FirstAt(qs, keys[i]) == FirstAt(qs[..|qs| - 1], keys[i]) < |qs| - 1 {
      FirstInPrefix(qs, |qs| - 1, keys[i]);
    }
  }

  lemma OrderExtends(qs: seq<Question>, keys: seq<string>, key: string)
    requires InFirstSeenOrder(qs, keys) && FirstAt(qs, key) < |qs|
    requires forall i :: 0 <= i < |keys| ==> FirstAt(qs, keys[i]) < FirstAt(qs, key)
    ensures InFirstSeenOrder(qs, keys + [key])
  {
    hide FirstAt;
  }

  /** Its keys come in the order in which they are first seen. */
  lemma {:induction false} QuestionMapOrder(qs: seq<Question>)
    ensures InFirstSeenOrder(qs, QuestionMap(qs).keys)
  {
    if qs != [] {
      hide FirstAt, LastAt, InFirstSeenOrder;
      var before, last := qs[..|qs| - 1], qs[|qs| - 1];
      QuestionMapOrder(before);
      StillFirst(qs, QuestionMap(before).keys);
      if last.key !in QuestionMap(before).vals {
        QuestionMapLast(before, last.key);
        SeenOnlyLast(before, last);
        assert before + [last] == qs;
        OrderExtends(qs, QuestionMap(before).keys, last.key);
      }
    }
  }

  lemma {:induction false} SeenOnlyLast(before: seq<Question>, q: Question)
    requires forall j :: 0 <= j < |before| ==> before[j].key != q.key
    ensures FirstAt(before + [q], q.key) == |before|
  {
    if before != [] {
      assert (before + [q])[1..] == before[1..] + [q];
      SeenOnlyLast(before[1..], q);
    }
  }
}
