/**
  Answers migrated through an option map and judged by the target's validator: the split, strip, map, join
  of the executor against the split and strip of the validator.
 */
module OptionMaps {
  import opened Prelude
  import opened PyStrings
  import opened Forms
  import opened AnswerValidator
  import opened Executor
  import opened DiffService

  /** The validator complains about the options of this answer. */
  predicate OptionError(lib: Lib, q: Question, raw: Answer) {
    NotAnOption in Complaints(lib, q, raw) || InvalidOptions in Complaints(lib, q, raw)
  }

  // ----- blank answers select nothing -----

  lemma {:induction false} AllSpaceLeft(s: string)
    requires StripLeft(s) == []
    ensures forall c :: c in s ==> IsSpace(c)
  {
    if s != [] {
      AllSpaceLeft(s[1..]);
    }
  }

  lemma {:induction false} AllSpaceRight(s: string)
    requires StripRight(s) == []
    ensures forall c :: c in s ==> IsSpace(c)
  {
    if s != [] {
      AllSpaceRight(s[..|s| - 1]);
    }
  }

  lemma BlankIsSpace(s: string)
    requires Blank(s)
    ensures forall c :: c in s ==> IsSpace(c)
  {
    AllSpaceRight(StripLeft(s));
    NoHead(StripLeft(s));
    AllSpaceLeft(s);
  }

  lemma NoHead(s: string)
    requires forall c :: c in s ==> IsSpace(c)
    requires s == [] || !IsSpace(s[0])
    ensures s == []
  {
  }

  lemma BlankSelectsNothing(s: string)
    requires Blank(s)
    ensures Selected(s) == []
  {
    BlankIsSpace(s);
    assert ',' !in s;
    SelectedPlain(s);
  }

  /** An answer without commas selects itself, stripped. */
  lemma SelectedPlain(s: string)
    requires ',' !in s
    ensures Selected(s) == if Strip(s) == "" then [] else [Strip(s)]
  {
    hide Split, Strip;
    SplitPiece(s, ',', "");
    assert Split(s, COMMA) == [s];
    assert Selections([s][1..]) == [];
  }

  // ----- joined answers select what their parts select -----

  lemma {:induction false} SelectionsConcat(a: seq<string>, b: seq<string>)
    ensures Selections(a + b) == Selections(a) + Selections(b)
  {
    hide Strip;
    if a == [] {
      assert a + b == b;
    } else {
      assert (a + b)[1..] == a[1..] + b;
      SelectionsConcat(a[1..], b);
    }
  }

  lemma SelectedConcat(a: string, b: string)
    ensures Selected(a + COMMA + b) == Selected(a) + Selected(b)
  {
    hide Split, Selections;
    SplitConcat(a, ',', b);
    SelectionsConcat(Split(a, COMMA), Split(b, COMMA));
  }

  lemma {:induction false} SelectedJoin(ws: seq<string>, v: string)
    ensures v in Selected(Join(ws, COMMA)) <==> exists w :: w in ws && v in Selected(w)
  {
    hide Selected;
    if ws == [] {
      SelectedEmpty();
    } else if |ws| == 1 {
      assert ws == [ws[0]];
    } else {
      assert ws == [ws[0]] + ws[1..];
      SelectedJoin(ws[1..], v);
      SelectedConcat(ws[0], Join(ws[1..], COMMA));
    }
  }

  lemma SelectedEmpty()
    ensures Selected("") == []
  {
    assert Strip("") == "";
    SelectedPlain("");
  }

  /** Selected pieces have no comma and no blank ends, so they select themselves. */
  lemma {:induction false} SelectionPieces(parts: seq<string>)
    requires forall p :: p in parts ==> ',' !in p
    ensures forall v :: v in Selections(parts) ==> ',' !in v && v != "" && Strip(v) == v
  {
    hide Strip, Trimmed;
    if parts != [] {
      SelectionPieces(parts[1..]);
      StripTrims(parts[0]);
      StripTrims(Strip(parts[0]));
    }
  }

  lemma SelectedPieces(raw: string)
    ensures forall v :: v in Selected(raw) ==> ',' !in v && v != "" && Strip(v) == v
  {
    hide Split, Selections, Strip;
    SplitPieces(raw, ',');
    SelectionPieces(Split(raw, COMMA));
  }

  lemma {:induction false} MappedPiecesMembers(mapping: ValueMap, pieces: seq<string>, w: string)
    ensures w in MappedPieces(mapping, None, pieces) <==>
            exists p :: p in pieces && w == Or(Mapped(mapping, None, p), "")
  {
    if pieces != [] {
      var n := |pieces| - 1;
      assert pieces == pieces[..n] + [pieces[n]];
      MappedPiecesMembers(mapping, pieces[..n], w);
    }
  }

  // ----- checkbox questions -----

  lemma CheckboxError(lib: Lib, q: Question, raw: Answer)
    requires q.fieldType.Checkbox?
    ensures OptionError(lib, q, raw) <==>
            q.options != [] && raw.Some? && exists v :: v in Selected(raw.value) && v !in q.options
  {
    hide Selected, Blank, DateComplaints;
    if raw.Some? && Blank(raw.value) {
      BlankSelectsNothing(raw.value);
    }
  }

  /** All selections of the value a source option is mapped to are options of the target. */
  predicate LegalImage(mapping: ValueMap, options: seq<string>, v: string)
    requires v in mapping
  {
    mapping[v].Some? ==> forall x :: x in Selected(mapping[v].value) ==> x in options
  }

  predicate LegalMap(mapping: ValueMap, options: seq<string>) {
    forall v :: v in mapping && ',' !in v ==> LegalImage(mapping, options, v)
  }

  /** The map is checked against the options once, and then no answer whatever migrates to a wrong selection. */
  lemma CheckboxMapLegal(lib: Lib, q: Question, mapping: ValueMap, raw: string)
    requires q.fieldType.Checkbox? && LegalMap(mapping, q.options)
    ensures !OptionError(lib, q, MapAnswer(mapping, None, raw))
  {
    hide Selected, MappedPieces, Complaints;
    var migrated := MapAnswer(mapping, None, raw);
    CheckboxError(lib, q, migrated);
    if migrated.Some? {
      forall x | x in Selected(migrated.value) ensures x in q.options {
        if ',' in raw {
          var ws := MappedPieces(mapping, None, Selected(raw));
          SelectedJoin(ws, x);
          var w :| w in ws && x in Selected(w);
          MappedPiecesMembers(mapping, Selected(raw), w);
          var p :| p in Selected(raw) && w == Or(Mapped(mapping, None, p), "");
          SelectedPieces(raw);
          SelectedEmpty();
          assert p in mapping && LegalImage(mapping, q.options, p);
        } else {
          assert LegalImage(mapping, q.options, raw);
        }
      }
    }
  }

  /** Exactly the legal maps never draw an option error, whatever the source answer. */
  lemma CheckboxMapLegalIff(lib: Lib, q: Question, mapping: ValueMap)
    requires q.fieldType.Checkbox? && q.options != []
    ensures (forall raw :: !OptionError(lib, q, MapAnswer(mapping, None, raw))) <==> LegalMap(mapping, q.options)
  {
    hide Selected, MappedPieces, OptionError;
    if LegalMap(mapping, q.options) {
      forall raw ensures !OptionError(lib, q, MapAnswer(mapping, None, raw)) {
        CheckboxMapLegal(lib, q, mapping, raw);
      }
    } else {
      var v :| v in mapping && ',' !in v && !LegalImage(mapping, q.options, v);
      CheckboxError(lib, q, mapping[v]);
      assert MapAnswer(mapping, None, v) == mapping[v];
    }
  }

  /** For the map generated without hints the test is on the options kept: stripped they must still be options. */
  predicate KeptOptionsLegal(s: Question, t: Question) {
    forall v :: v in s.options && v in t.options && ',' !in v ==> Strip(v) == "" || Strip(v) in t.options
  }

  lemma GeneratedCheckboxMap(lib: Lib, s: Question, t: Question)
    requires t.fieldType.Checkbox? && t.options != [] && s.valueMapping == map[]
    ensures (forall raw :: !OptionError(lib, t, MapAnswer(OptionMapping(s, t), None, raw))) <==> KeptOptionsLegal(s, t)
  {
    hide OptionError, MapAnswer, Selected, Strip;
    var mapping := OptionMapping(s, t);
    CheckboxMapLegalIff(lib, t, mapping);
    forall v | v in mapping && ',' !in v
      ensures LegalImage(mapping, t.options, v) <==>
              (v in t.options ==> Strip(v) == "" || Strip(v) in t.options)
    {
      SelectedPlain(v);
    }
    assert forall v :: v in mapping <==> v in s.options;
  }

  /** Every kept option that fails the test is an answer that becomes illegal. */
  lemma KeptOptionRejected(lib: Lib, s: Question, t: Question, v: string)
    requires t.fieldType.Checkbox? && s.valueMapping == map[]
    requires v in s.options && v in t.options && ',' !in v && !Blank(v) && Strip(v) !in t.options
    ensures OptionError(lib, t, MapAnswer(OptionMapping(s, t), None, v))
  {
    hide OptionError, Selected;
    assert OptionMapping(s, t)[v] == Some(v);
    SelectedPlain(v);
    assert Strip(v) in Selected(v);
    CheckboxError(lib, t, Some(v));
  }

  /** Option values without blank ends are always legal. */
  lemma TrimmedOptionsLegal(s: Question, t: Question)
    requires forall v :: v in t.options ==> Trimmed(v)
    ensures KeptOptionsLegal(s, t)
  {
    forall v | v in s.options && v in t.options ensures Strip(v) in t.options {
      StripTrims(v);
    }
  }

  // ----- dropdown and radio questions -----

  predicate SingleChoice(q: Question) {
    q.fieldType.Dropdown? || q.fieldType.Radio?
  }

  lemma SingleChoiceError(lib: Lib, q: Question, raw: Answer)
    requires SingleChoice(q)
    ensures OptionError(lib, q, raw) <==> q.options != [] && !IsBlank(raw) && raw.value !in q.options
  {
    hide Blank;
  }

  /** Under the generated map a piece stays itself when the target still has it, and is emptied otherwise. */
  lemma GeneratedPiece(s: Question, t: Question, p: string)
    requires s.valueMapping == map[]
    ensures Mapped(OptionMapping(s, t), None, p) == if p in s.options && p in t.options then Some(p) else None
  {
  }

  lemma {:induction false} MappedPiecesLength(mapping: ValueMap, pieces: seq<string>)
    ensures |MappedPieces(mapping, None, pieces)| == |pieces|
    ensures |pieces| == 1 ==> MappedPieces(mapping, None, pieces) == [Or(Mapped(mapping, None, pieces[0]), "")]
  {
    if pieces != [] {
      MappedPiecesLength(mapping, pieces[..|pieces| - 1]);
    }
  }

  /** A single-choice answer migrates to an illegal option exactly when a comma makes the executor take it for
      several choices and their images joined are no option of the target. */
  lemma SingleChoiceMap(lib: Lib, s: Question, t: Question, raw: string)
    requires SingleChoice(t) && t.options != [] && s.valueMapping == map[]
    ensures var migrated := MapAnswer(OptionMapping(s, t), None, raw);
            OptionError(lib, t, migrated) <==>
            ',' in raw && |Selected(raw)| >= 2 && migrated.value !in t.options
  {
    hide OptionMapping, Selected, MappedPieces, Complaints, Mapped, Blank, OptionError;
    var mapping := OptionMapping(s, t);
    var migrated := MapAnswer(mapping, None, raw);
    SingleChoiceError(lib, t, migrated);
    if ',' in raw {
      var pieces := Selected(raw);
      var ws := MappedPieces(mapping, None, pieces);
      MappedPiecesLength(mapping, pieces);
      EmptyIsBlank();
      if |pieces| == 1 {
        GeneratedPiece(s, t, pieces[0]);
      } else if |pieces| >= 2 {
        assert ',' in Join(ws, COMMA);
        InkNotBlank(Join(ws, COMMA), ',');
      }
    } else {
      GeneratedPiece(s, t, raw);
    }
  }

  lemma InkNotBlank(s: string, c: char)
    requires c in s && !IsSpace(c)
    ensures !Blank(s)
  {
    if Blank(s) {
      BlankIsSpace(s);
    }
  }

  /** In particular no comma-free answer of a dropdown or radio question becomes an illegal option. */
  lemma PlainSingleChoiceLegal(lib: Lib, s: Question, t: Question, raw: string)
    requires SingleChoice(t) && t.options != [] && s.valueMapping == map[] && ',' !in raw
    ensures !OptionError(lib, t, MapAnswer(OptionMapping(s, t), None, raw))
  {
    hide OptionError;
    SingleChoiceMap(lib, s, t, raw);
  }
}
