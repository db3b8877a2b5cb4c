/** What each transform operation makes of an answer, operation by operation (app/services/transforms/executor.py:125-267). */
module OperationMeaning {
  import opened Prelude
  import opened PyStrings
  import opened Forms
  import opened AnswerValidator
  import opened Executor

  /** The answer that a rule reads under its own source key. */
  function SourceAnswer(r: Rule, answers: Answers): Answer {
    match r.source
    case Some(key) => if key != "" && key in answers then answers[key] else None
    case None => None
  }

  lemma RawIsSource(r: Rule, answers: Answers)
    ensures Raw(r, answers) == SourceAnswer(r, answers)
  {
  }

  /** IDENTITY and RENAME copy, DROP leaves the marker, DEFAULT_VALUE its parameter; an operation that is not known
      copies with a warning. */
  lemma CopyMeans(lib: Lib, r: Rule, answers: Answers)
    ensures r.operation.Identity? || r.operation.Rename? ==>
              Operate(lib, r, answers) == Yields(SourceAnswer(r, answers), false, 0)
    ensures r.operation.Unknown? ==> Operate(lib, r, answers) == Yields(SourceAnswer(r, answers), false, 1)
    ensures r.operation.Drop? ==> Operate(lib, r, answers) == Yields(Some("__DROP__"), false, 0)
    ensures r.operation.DefaultValue? ==> Operate(lib, r, answers) == Yields(r.params.value, false, 0)
  {
    RawIsSource(r, answers);
  }

  /** Without a source answer there is nothing to map, to convert or to split. */
  lemma NothingMeans(lib: Lib, r: Rule, answers: Answers)
    requires r.operation.MapValues? || r.operation.CoerceType? || r.operation.SplitText?
    requires SourceAnswer(r, answers).None?
    ensures Operate(lib, r, answers) == Yields(None, false, 0)
  {
    RawIsSource(r, answers);
  }

  // ----- COERCE_TYPE -----

  predicate ToDate(p: Params) {
    p.toType == Some(Date)
  }

  /** A conversion to anything but a date keeps the answer as it is. */
  lemma CoerceKeeps(lib: Lib, r: Rule, answers: Answers)
    requires r.operation.CoerceType? && !ToDate(r.params)
    ensures Operate(lib, r, answers) == Yields(SourceAnswer(r, answers), false, 0)
  {
    RawIsSource(r, answers);
  }

  /** The formats that a conversion to a date tries, in order. */
  function Formats(p: Params): seq<string> {
    [p.format, "%Y-%m-%d", "%m/%d/%Y", "%d/%m/%Y"]
  }

  predicate ParsesBy(lib: Lib, raw: string, format: string) {
    format != "" && lib.strptime(raw, format).Some?
  }

  lemma {:induction false} FirstParse(lib: Lib, formats: seq<string>, raw: string) returns (i: nat)
    ensures i <= |formats| && forall j :: 0 <= j < i ==> !ParsesBy(lib, raw, formats[j])
    ensures if i < |formats| then ParsesBy(lib, raw, formats[i]) && ParseDate(lib, formats, raw) == lib.strptime(raw, formats[i])
            else ParseDate(lib, formats, raw).None?
  {
    if formats == [] || ParsesBy(lib, raw, formats[0]) {
      i := 0;
    } else {
      var k := FirstParse(lib, formats[1..], raw);
      i := k + 1;
    }
  }

  /** A conversion to a date takes the first format that parses, and fails if and only if none does. */
  lemma CoerceToDate(lib: Lib, r: Rule, answers: Answers, raw: string) returns (i: nat)
    requires r.operation.CoerceType? && ToDate(r.params) && SourceAnswer(r, answers) == Some(raw)
    ensures i <= 4 && forall j :: 0 <= j < i ==> !ParsesBy(lib, raw, Formats(r.params)[j])
    ensures if i < 4 then
              ParsesBy(lib, raw, Formats(r.params)[i])
              && Operate(lib, r, answers) == Yields(lib.strptime(raw, Formats(r.params)[i]), false, 0)
            else Operate(lib, r, answers) == Yields(None, true, 0)
  {
    RawIsSource(r, answers);
    i := FirstParse(lib, Formats(r.params), raw);
    hide ParseDate;
  }

  // ----- MAP_VALUES -----

  /** What a value is mapped to: its entry, or the default when it has none. */
  function Image(p: Params, value: string): Option<string> {
    if p.mapping.Some? && value in p.mapping.value then p.mapping.value[value] else p.default
  }

  /** An answer without commas is mapped as a whole; only a missing entry without a default is worth a warning. */
  lemma MapPlain(lib: Lib, r: Rule, answers: Answers, raw: string)
    requires r.operation.MapValues? && SourceAnswer(r, answers) == Some(raw) && ',' !in raw
    ensures var known := r.params.mapping.Some? && raw in r.params.mapping.value;
            Operate(lib, r, answers) ==
              Yields(Image(r.params, raw), false, if !known && r.params.default.None? then 1 else 0)
  {
    RawIsSource(r, answers);
  }

  /** The texts into which the pieces of a multiple answer are mapped; what is mapped to nothing becomes empty. */
  function Images(p: Params, pieces: seq<string>): seq<string> {
    seq(|pieces|, i requires 0 <= i < |pieces| => var v := Image(p, pieces[i]); if v.Some? then v.value else "")
  }

  lemma {:induction false} MappedAreImages(p: Params, pieces: seq<string>)
    ensures MappedPieces(Or(p.mapping, map[]), p.default, pieces) == Images(p, pieces)
  {
    if pieces != [] {
      MappedAreImages(p, pieces[..|pieces| - 1]);
    }
  }

  function Lost(p: Params, pieces: seq<string>): nat {
    if pieces == [] then 0
    else Lost(p, pieces[..|pieces| - 1]) + if Image(p, pieces[|pieces| - 1]).None? then 1 else 0
  }

  lemma {:induction false} UnmappedAreLost(p: Params, pieces: seq<string>)
    ensures UnmappedPieces(Or(p.mapping, map[]), p.default, pieces) == Lost(p, pieces)
  {
    if pieces != [] {
      UnmappedAreLost(p, pieces[..|pieces| - 1]);
    }
  }

  /** An answer with commas is mapped piece by piece, with a warning for each piece that is lost. */
  lemma MapMultiple(lib: Lib, r: Rule, answers: Answers, raw: string)
    requires r.operation.MapValues? && SourceAnswer(r, answers) == Some(raw) && ',' in raw
    ensures Operate(lib, r, answers) ==
            Yields(Some(Join(Images(r.params, Selected(raw)), COMMA)), false, Lost(r.params, Selected(raw)))
  {
    hide Selected, Join;
    RawIsSource(r, answers);
    MappedAreImages(r.params, Selected(raw));
    UnmappedAreLost(r.params, Selected(raw));
  }

  // ----- SPLIT and MERGE -----

  /** SPLIT counts from the front for an index of at least 0 and from the end for a negative one. An index past the
      last piece yields nothing, one before the first raises, and so does an empty separator. */
  lemma SplitMeans(lib: Lib, r: Rule, answers: Answers, raw: string, separator: string, index: int)
    requires r.operation.SplitText? && SourceAnswer(r, answers) == Some(raw)
    requires separator == (if r.params.separator.Some? then r.params.separator.value else " ")
    requires index == (if r.params.index.Some? then r.params.index.value else 0)
    ensures separator == "" ==> Operate(lib, r, answers) == Raised
    ensures separator != "" ==>
              var parts := Split(raw, separator);
              && (0 <= index < |parts| ==> Operate(lib, r, answers) == Yields(Some(Strip(parts[index])), false, 0))
              && (-|parts| <= index < 0 ==> Operate(lib, r, answers) == Yields(Some(Strip(parts[|parts| + index])), false, 0))
              && (index >= |parts| ==> Operate(lib, r, answers) == Yields(None, false, 1))
              && (index < -|parts| ==> Operate(lib, r, answers) == Raised)
  {
    hide Split, Strip;
    RawIsSource(r, answers);
  }

  /** MERGE joins the answers of its sources, a missing one being empty, and yields nothing when all of it is blank. */
  lemma MergeMeans(lib: Lib, r: Rule, answers: Answers, sources: seq<string>, separator: string, parts: seq<string>)
    requires r.operation.MergeTexts? && sources == (if r.params.sources.Some? then r.params.sources.value else [])
    requires separator == (if r.params.separator.Some? then r.params.separator.value else " ")
    requires |parts| == |sources|
    requires forall i :: 0 <= i < |sources| ==>
               parts[i] == (if sources[i] in answers && answers[sources[i]].Some? then answers[sources[i]].value else "")
    ensures var merged := Strip(Join(parts, separator));
            Operate(lib, r, answers) == Yields(if merged == "" then None else Some(merged), false, 0)
  {
    hide Join, Strip;
    assert MergeParts(answers, sources) == parts;
  }

  // ----- COMPUTE -----

  /** The sources of a computation: those listed, else the rule's own source, if it has one. */
  function Sources(r: Rule): seq<string> {
    if r.params.sources.Some? then r.params.sources.value
    else if r.source.Some? && r.source.value != "" then [r.source.value] else []
  }

  /** A computation sees the answers of exactly its sources. A single one is also seen as `value`, and so is the rule's
      own source when the list of sources is empty. */
  lemma ComputeSees(r: Rule, answers: Answers)
    ensures var names, sources := ComputeNames(r, answers), Sources(r);
            && (forall s :: s in sources ==> s in names && names[s] == Lookup(answers, s))
            && (|sources| != 1 && (sources != [] || SourceKey(r).None?) ==> names.Keys == (set s | s in sources))
            && (|sources| == 1 ==> names == map["value" := Lookup(answers, sources[0]), sources[0] := Lookup(answers, sources[0])])
            && (sources == [] && SourceKey(r).Some? ==> names == map["value" := SourceAnswer(r, answers)])
  {
    RawIsSource(r, answers);
  }

  function SourceKey(r: Rule): Option<string> {
    if r.source.Some? && r.source.value != "" then r.source else None
  }

  /** Its value is what the evaluator makes of the expression and these names; it fails if and only if that does. */
  lemma ComputeMeans(lib: Lib, r: Rule, answers: Answers)
    requires r.operation.Compute?
    ensures var expr := if r.params.expr.Some? then r.params.expr.value else "";
            Operate(lib, r, answers) ==
              match lib.evaluate(expr, ComputeNames(r, answers))
              case None => Yields(None, true, 0)
              case Some(value) => Yields(value, false, 0)
  {
    hide ComputeNames;
  }
}
