/** Form data as it is stored, a dict of JSON values, and its validation (answer_validator.py:37-85). */
module FormData {
  import opened Prelude
  import opened PyStrings
  import opened Json
  import opened Forms
  import opened AnswerValidator
  import opened OptionMaps

  /** `str(value)` of the library, for what is neither a string nor a scalar boolean. */
  type Printer = Json -> string

  function ItemText(text: Printer, item: Json): string {
    if item.Str? then item.s else text(item)
  }

  /** The items of a list answer; None is left out. */
  function ItemTexts(text: Printer, items: seq<Json>): seq<string> {
    if items == [] then []
    else
      var last := items[|items| - 1];
      ItemTexts(text, items[..|items| - 1]) + if last.Null? then [] else [ItemText(text, last)]
  }

  /** `_coerce_answer_value` */
  function Coerced(text: Printer, value: Json): Answer {
    match value
    case Null => None
    case Str(s) => Some(s)
    case Bool(b) => Some(if b then "true" else "false")
    case Num(_) => Some(text(value))
    case Arr(items) => Some(Join(ItemTexts(text, items), COMMA))
    case Obj(_) => Some(text(value))
  }

  method CoerceAnswerValue(text: Printer, value: Json) returns (answer: Answer)
    ensures answer == Coerced(text, value)
    ensures value.Null? <==> answer.None?
    ensures value.Str? ==> answer == Some(value.s)
    ensures value.Bool? ==> answer == Some(if value.b then "true" else "false")
    ensures value.Num? || value.Obj? ==> answer == Some(text(value))
  {
    match value
    case Null => answer := None;
    case Str(s) => answer := Some(s);
    case Bool(b) => answer := Some(if b then "true" else "false");
    case Arr(items) =>
      var parts := [];
      for i := 0 to |items|
        invariant parts == ItemTexts(text, items[..i])
      {
        assert items[..i + 1][..i] == items[..i];
        if !items[i].Null? {
          parts := parts + [ItemText(text, items[i])];
        }
      }
      assert items[..|items|] == items;
      answer := Some(Join(parts, COMMA));
    case _ => answer := Some(text(value));
  }

  /** The answers that a form stands for. */
  function FormAnswers(text: Printer, form: Fields): Answers {
    map k | k in form :: Coerced(text, form[k])
  }

  method CoerceForm(text: Printer, form: Fields) returns (answers: Answers)
    ensures answers == FormAnswers(text, form)
  {
    hide Coerced;
    answers := map[];
    var keys := form.Keys;
    while keys != {}
      invariant keys <= form.Keys && answers.Keys == form.Keys - keys
      invariant forall k :: k in answers ==> answers[k] == Coerced(text, form[k])
      decreases |keys|
    {
      var k :| k in keys;
      var answer := CoerceAnswerValue(text, form[k]);
      answers := answers[k := answer];
      keys := keys - {k};
    }
  }

  /** `validate_form_data` for the questions of a version. */
  method ValidateFormData(lib: Lib, text: Printer, qs: seq<Question>, form: Fields) returns (errors: seq<AnswerError>)
    ensures errors == FormErrors(lib, qs, FormAnswers(text, form))
    ensures errors == [] <==>
            forall q :: q in qs && IsVisible(q, FormAnswers(text, form)) ==>
              Acceptable(lib, q, Lookup(FormAnswers(text, form), q.key))
  {
    hide Complaints, IsVisible, FormAnswers, Acceptable;
    var byKey := CoerceForm(text, form);
    errors := [];
    for i := 0 to |qs|
      invariant errors == FormErrors(lib, qs[..i], byKey)
    {
      assert qs[..i + 1][..i] == qs[..i];
      if IsVisible(qs[i], byKey) {
        var found := Complaints(lib, qs[i], Lookup(byKey, qs[i].key));
        errors := errors + Report(qs[i], found);
      }
    }
    assert qs[..|qs|] == qs;
    NoFormErrorsIff(lib, qs, byKey);
  }

  lemma {:induction false} NoFormErrorsIff(lib: Lib, qs: seq<Question>, byKey: Answers)
    ensures FormErrors(lib, qs, byKey) == [] <==>
            forall q :: q in qs && IsVisible(q, byKey) ==> Acceptable(lib, q, Lookup(byKey, q.key))
  {
    if qs != [] {
      var q, before := qs[|qs| - 1], qs[..|qs| - 1];
      NoFormErrorsIff(lib, before, byKey);
      ComplaintsIffUnacceptable(lib, q, Lookup(byKey, q.key));
      hide IsVisible, Complaints, Acceptable;
      assert qs == before + [q];
      assert Report(q, Complaints(lib, q, Lookup(byKey, q.key))) == [] <==> Complaints(lib, q, Lookup(byKey, q.key)) == [];
    }
  }

  lemma {:induction false} ItemTextsMembers(text: Printer, items: seq<Json>, w: string)
    ensures w in ItemTexts(text, items) <==> exists item :: item in items && !item.Null? && w == ItemText(text, item)
  {
    if items != [] {
      assert items == items[..|items| - 1] + [items[|items| - 1]];
      ItemTextsMembers(text, items[..|items| - 1], w);
    }
  }

  /** A checkbox answer given as a list draws no option error if and only if every selection of every item is an
      option of the question. */
  lemma ListAnswerLegalIff(lib: Lib, text: Printer, q: Question, items: seq<Json>)
    requires q.fieldType.Checkbox? && q.options != []
    ensures !OptionError(lib, q, Coerced(text, Arr(items))) <==>
            forall item, v :: item in items && !item.Null? && v in Selected(ItemText(text, item)) ==> v in q.options
  {
    hide OptionError, Selected, ItemTexts;
    var ws := ItemTexts(text, items);
    CheckboxError(lib, q, Coerced(text, Arr(items)));
    forall v ensures v in Selected(Join(ws, COMMA)) <==> exists w :: w in ws && v in Selected(w) {
      SelectedJoin(ws, v);
    }
    forall w ensures w in ws <==> exists item :: item in items && !item.Null? && w == ItemText(text, item) {
      ItemTextsMembers(text, items, w);
    }
  }
}
