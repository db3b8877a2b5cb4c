/** Validation of answers against a form version (app/services/submissions/answer_validator.py). */
module AnswerValidator {
  import opened Prelude
  import opened PyStrings
  import opened Forms

  datatype Complaint =
    | MissingAnswer | EmptyFile | WrongFormat | NotAnOption | InvalidOptions | NotADate | TooEarly | TooLate

  datatype AnswerError = AnswerError(questionId: nat, key: string, complaint: Complaint)

  predicate IsBlank(raw: Answer) {
    raw.None? || Blank(raw.value)
  }

  /** `_is_visible` */
  predicate IsVisible(q: Question, answers: Answers) {
    || q.dependsOn == ""
    || (q.visibleWhen.None? && Lookup(answers, q.dependsOn).Some? && Lookup(answers, q.dependsOn) != Some(""))
    || (q.visibleWhen.Some? && Lookup(answers, q.dependsOn) == q.visibleWhen)
  }

  /** The pieces of a comma-separated answer, stripped, without the empty ones. */
  function Selections(parts: seq<string>): seq<string> {
    if parts == [] then []
    else (if Strip(parts[0]) == "" then [] else [Strip(parts[0])]) + Selections(parts[1..])
  }

  function Selected(raw: string): seq<string> {
    Selections(Split(raw, COMMA))
  }

  function DateComplaints(lib: Lib, q: Question, raw: string): seq<Complaint> {
    var parsed, lo, hi := lib.isoDate(raw), lib.isoDate(q.minDate), lib.isoDate(q.maxDate);
    if parsed.None? then [NotADate]
    else
      (if q.minDate != "" && lo.Some? && parsed.value < lo.value then [TooEarly] else [])
      + (if q.maxDate != "" && hi.Some? && parsed.value > hi.value then [TooLate] else [])
  }

  /** `_validate_question` */
  function Complaints(lib: Lib, q: Question, raw: Answer): seq<Complaint> {
    if q.required && IsBlank(raw) then [MissingAnswer]
    else if q.fieldType.FileUpload? && raw.Some? && IsBlank(raw) then [EmptyFile]
    else if IsBlank(raw) then []
    else
      match q.fieldType
      case Text => if q.regex != "" && lib.fullmatch(q.regex, raw.value) == Some(false) then [WrongFormat] else []
      case Dropdown => if q.options != [] && raw.value !in q.options then [NotAnOption] else []
      case Radio => if q.options != [] && raw.value !in q.options then [NotAnOption] else []
      case Checkbox =>
        if q.options != [] && exists v :: v in Selected(raw.value) && v !in q.options then [InvalidOptions] else []
      case Date => DateComplaints(lib, q, raw.value)
      case _ => []
  }

  /** What an answer must be like to pass, said without the order of the checks. */
  predicate Acceptable(lib: Lib, q: Question, raw: Answer) {
    if IsBlank(raw) then !q.required && (q.fieldType.FileUpload? ==> raw.None?)
    else
      && (q.fieldType.Text? && q.regex != "" ==> lib.fullmatch(q.regex, raw.value) != Some(false))
      && ((q.fieldType.Dropdown? || q.fieldType.Radio?) && q.options != [] ==> raw.value in q.options)
      && (q.fieldType.Checkbox? && q.options != [] ==> forall v :: v in Selected(raw.value) ==> v in q.options)
      && (q.fieldType.Date? ==>
            && lib.isoDate(raw.value).Some?
            && (q.minDate != "" && lib.isoDate(q.minDate).Some? ==> lib.isoDate(q.minDate).value <= lib.isoDate(raw.value).value)
            && (q.maxDate != "" && lib.isoDate(q.maxDate).Some? ==> lib.isoDate(raw.value).value <= lib.isoDate(q.maxDate).value))
  }

  lemma ComplaintsIffUnacceptable(lib: Lib, q: Question, raw: Answer)
    ensures Complaints(lib, q, raw) == [] <==> Acceptable(lib, q, raw)
  {
    hide Selected, Blank;
  }

  function Report(q: Question, complaints: seq<Complaint>): seq<AnswerError> {
    seq(|complaints|, i requires 0 <= i < |complaints| => AnswerError(q.id, q.key, complaints[i]))
  }

  /** The answer to each question, and the answers that decide visibility, as the two validators see them. */
  datatype Sheet = Sheet(byId: map<nat, Answer>, byKey: Answers)

  function QuestionReport(lib: Lib, q: Question, raw: Answer, byKey: Answers): seq<AnswerError> {
    if IsVisible(q, byKey) then Report(q, Complaints(lib, q, raw)) else []
  }

  function GetById(byId: map<nat, Answer>, id: nat): Answer {
    if id in byId then byId[id] else None
  }

  /** The errors of `validate_answers`, question by question. */
  function Errors(lib: Lib, qs: seq<Question>, sheet: Sheet): seq<AnswerError> {
    if qs == [] then []
    else
      var q := qs[|qs| - 1];
      Errors(lib, qs[..|qs| - 1], sheet) + QuestionReport(lib, q, GetById(sheet.byId, q.id), sheet.byKey)
  }

  /** `{a.question_id: a.answer for a in answers}` */
  function ById(answers: seq<(nat, Answer)>): map<nat, Answer> {
    if answers == [] then map[]
    else ById(answers[..|answers| - 1])[answers[|answers| - 1].0 := answers[|answers| - 1].1]
  }

  function ByKey(qs: seq<Question>, byId: map<nat, Answer>): Answers {
    if qs == [] then map[]
    else
      var q, before := qs[|qs| - 1], ByKey(qs[..|qs| - 1], byId);
      if q.id in byId then before[q.key := byId[q.id]] else before
  }

  function SheetOf(qs: seq<Question>, answers: seq<(nat, Answer)>): Sheet {
    var byId := ById(answers);
    Sheet(byId, ByKey(qs, byId))
  }

  /** `validate_answers` for the questions of a version. */
  method ValidateAnswers(lib: Lib, qs: seq<Question>, answers: seq<(nat, Answer)>) returns (errors: seq<AnswerError>)
    ensures errors == Errors(lib, qs, SheetOf(qs, answers))
    ensures var sheet := SheetOf(qs, answers);
            errors == [] <==>
            forall q :: q in qs && IsVisible(q, sheet.byKey) ==> Acceptable(lib, q, GetById(sheet.byId, q.id))
  {
    var byId := map[];
    for i := 0 to |answers|
      invariant byId == ById(answers[..i])
    {
      assert answers[..i + 1][..i] == answers[..i];
      byId := byId[answers[i].0 := answers[i].1];
    }
    assert answers[..|answers|] == answers;
    var byKey: Answers := map[];
    for i := 0 to |qs|
      invariant byKey == ByKey(qs[..i], byId)
    {
      assert qs[..i + 1][..i] == qs[..i];
      if qs[i].id in byId {
        byKey := byKey[qs[i].key := byId[qs[i].id]];
      }
    }
    assert qs[..|qs|] == qs;
    hide Complaints, IsVisible, ById, ByKey;
    var sheet := Sheet(byId, byKey);
    errors := [];
    for i := 0 to |qs|
      invariant errors == Errors(lib, qs[..i], sheet)
    {
      assert qs[..i + 1][..i] == qs[..i];
      if IsVisible(qs[i], byKey) {
        var found := Complaints(lib, qs[i], GetById(byId, qs[i].id));
        errors := errors + Report(qs[i], found);
      }
    }
    NoErrorsIff(lib, qs, sheet);
  }

  lemma {:induction false} NoErrorsIff(lib: Lib, qs: seq<Question>, sheet: Sheet)
    ensures Errors(lib, qs, sheet) == [] <==>
            forall q :: q in qs && IsVisible(q, sheet.byKey) ==> Acceptable(lib, q, GetById(sheet.byId, q.id))
  {
    if qs != [] {
      var q, before := qs[|qs| - 1], qs[..|qs| - 1];
      NoErrorsIff(lib, before, sheet);
      ComplaintsIffUnacceptable(lib, q, GetById(sheet.byId, q.id));
      hide IsVisible, Complaints, Acceptable;
      assert qs == before + [q];
      assert Report(q, Complaints(lib, q, GetById(sheet.byId, q.id))) == [] <==> Complaints(lib, q, GetById(sheet.byId, q.id)) == [];
    }
  }

  /** The errors of `validate_form_data`, once the answers have become strings. */
  function FormErrors(lib: Lib, qs: seq<Question>, byKey: Answers): seq<AnswerError> {
    if qs == [] then []
    else
      var q := qs[|qs| - 1];
      FormErrors(lib, qs[..|qs| - 1], byKey) + QuestionReport(lib, q, Lookup(byKey, q.key), byKey)
  }

  lemma {:induction false} ByKeyEntries(qs: seq<Question>, byId: map<nat, Answer>, k: string)
    requires forall i, j :: 0 <= i < j < |qs| ==> qs[i].key != qs[j].key
    ensures forall q :: q in qs && q.key == k ==> Lookup(ByKey(qs, byId), k) == GetById(byId, q.id)
    ensures (forall q :: q in qs ==> q.key != k) ==> k !in ByKey(qs, byId)
  {
    if qs != [] {
      var q, before := qs[|qs| - 1], qs[..|qs| - 1];
      ByKeyEntries(before, byId, k);
      assert qs == before + [q];
    }
  }

  /** With version-wide unique keys both validators find the same errors in the same answers. */
  lemma {:induction false} ValidatorsAgree(lib: Lib, all: seq<Question>, byId: map<nat, Answer>, n: nat)
    requires n <= |all| && forall i, j :: 0 <= i < j < |all| ==> all[i].key != all[j].key
    ensures var sheet := Sheet(byId, ByKey(all, byId));
            Errors(lib, all[..n], sheet) == FormErrors(lib, all[..n], sheet.byKey)
  {
    if n > 0 {
      ValidatorsAgree(lib, all, byId, n - 1);
      assert all[..n][..n - 1] == all[..n - 1];
      ByKeyEntries(all, byId, all[n - 1].key);
      hide QuestionReport, ByKey;
      assert all[n - 1] in all;
    }
  }

  /** A question without a controlling one is visible; another one is visible exactly if the controlling question has an
      answer, the one asked for if one is asked for and a non-empty one otherwise. */
  lemma VisibleIff(q: Question, answers: Answers)
    ensures IsVisible(q, answers) <==>
            || q.dependsOn == ""
            || exists v: string :: Lookup(answers, q.dependsOn) == Some(v)
                 && match q.visibleWhen
                    case Some(wanted) => v == wanted
                    case None => v != ""
  {
    if Lookup(answers, q.dependsOn).Some? {
      var v := Lookup(answers, q.dependsOn).value;
      assert Lookup(answers, q.dependsOn) == Some(v);
    }
  }

  /** Of several answers to the same question the last one counts. */
  lemma {:induction false} LastAnswerCounts(answers: seq<(nat, Answer)>, i: nat)
    requires i < |answers| && forall j :: i < j < |answers| ==> answers[j].0 != answers[i].0
    ensures GetById(ById(answers), answers[i].0) == answers[i].1
    decreases |answers|
  {
    if i < |answers| - 1 {
      LastAnswerCounts(answers[..|answers| - 1], i);
    }
  }

  /** Each complaint is made if and only if its own condition holds. */
  lemma ComplaintsByKind(lib: Lib, q: Question, raw: Answer)
    ensures var cs := Complaints(lib, q, raw);
            && (MissingAnswer in cs <==> q.required && IsBlank(raw))
            && (EmptyFile in cs <==> !q.required && q.fieldType.FileUpload? && raw.Some? && IsBlank(raw))
            && (WrongFormat in cs <==>
                  !IsBlank(raw) && q.fieldType.Text? && q.regex != "" && lib.fullmatch(q.regex, raw.value) == Some(false))
            && (NotAnOption in cs <==>
                  !IsBlank(raw) && (q.fieldType.Dropdown? || q.fieldType.Radio?) && q.options != [] && raw.value !in q.options)
            && (InvalidOptions in cs <==>
                  !IsBlank(raw) && q.fieldType.Checkbox? && q.options != []
                  && exists v :: v in Selected(raw.value) && v !in q.options)
            && (NotADate in cs <==> !IsBlank(raw) && q.fieldType.Date? && lib.isoDate(raw.value).None?)
  {
    hide Blank, Selected;
  }

  /** Dates are complained of as too early or too late by the bounds that are set and parse. */
  lemma DateComplaintsByKind(lib: Lib, q: Question, raw: string)
    requires q.fieldType.Date? && !Blank(raw) && lib.isoDate(raw).Some?
    ensures var cs, day := Complaints(lib, q, Some(raw)), lib.isoDate(raw).value;
            && (TooEarly in cs <==> q.minDate != "" && lib.isoDate(q.minDate).Some? && day < lib.isoDate(q.minDate).value)
            && (TooLate in cs <==> q.maxDate != "" && lib.isoDate(q.maxDate).Some? && day > lib.isoDate(q.maxDate).value)
  {
    hide Blank;
  }

  /** The errors reported are exactly the complaints about visible questions, each under the question's id and key. */
  lemma {:induction false} ReportedErrors(lib: Lib, qs: seq<Question>, sheet: Sheet, e: AnswerError)
    ensures e in Errors(lib, qs, sheet) <==>
            exists q :: q in qs && IsVisible(q, sheet.byKey) && e.questionId == q.id && e.key == q.key
                     && e.complaint in Complaints(lib, q, GetById(sheet.byId, q.id))
  {
    hide Complaints, IsVisible;
    if qs != [] {
      var q, before := qs[|qs| - 1], qs[..|qs| - 1];
      ReportedErrors(lib, before, sheet, e);
      assert qs == before + [q];
      ReportHas(q, Complaints(lib, q, GetById(sheet.byId, q.id)), e);
    }
  }

  lemma ReportHas(q: Question, complaints: seq<Complaint>, e: AnswerError)
    ensures e in Report(q, complaints) <==> e.questionId == q.id && e.key == q.key && e.complaint in complaints
  {
    if e.questionId == q.id && e.key == q.key && e.complaint in complaints {
      var i :| 0 <= i < |complaints| && complaints[i] == e.complaint;
      assert Report(q, complaints)[i] == e;
    }
  }
}
