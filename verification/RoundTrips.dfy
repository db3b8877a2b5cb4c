/** Programs that undo one another (app/services/transforms/executor.py:142-150, 215-234). */
module RoundTrips {
  import opened Prelude
  import opened PyStrings
  import opened Forms
  import opened Executor
  import opened RuleMeaning

  // ----- MERGE, then SPLIT -----

  /** An answer that survives being merged with this separator: present, not empty, trimmed, separator-free. */
  predicate Mergeable(a: Answer, c: char) {
    a.Some? && a.value != "" && Trimmed(a.value) && c !in a.value
  }

  lemma {:induction false} JoinEnds(parts: seq<string>, sep: string)
    requires parts != [] && forall i :: 0 <= i < |parts| ==> parts[i] != ""
    ensures var j := Join(parts, sep);
            j != "" && j[0] == parts[0][0] && j[|j| - 1] == parts[|parts| - 1][|parts[|parts| - 1]| - 1]
  {
    if |parts| > 1 {
      JoinEnds(parts[1..], sep);
    }
  }

  lemma MergeKeepsParts(answers: Answers, sources: seq<string>, c: char)
    requires sources != [] && forall k :: k in sources ==> Mergeable(Lookup(answers, k), c)
    ensures var m := MergeAnswer(answers, sources, [c]);
            && m.Some? && m != Some("")
            && Split(m.value, [c]) == MergeParts(answers, sources)
  {
    hide Strip, Split, Join, Trimmed;
    var parts := MergeParts(answers, sources);
    forall i | 0 <= i < |parts| ensures parts[i] != "" && c !in parts[i] && Trimmed(parts[i]) {
      assert sources[i] in sources;
    }
    JoinEnds(parts, [c]);
    assert Trimmed(Join(parts, [c])) by { TrimmedEnds(parts, Join(parts, [c])); }
    StripTrims(Join(parts, [c]));
    SplitJoin(parts, c);
  }

  lemma TrimmedEnds(parts: seq<string>, j: string)
    requires parts != [] && forall i :: 0 <= i < |parts| ==> parts[i] != "" && Trimmed(parts[i])
    requires j != "" && j[0] == parts[0][0] && j[|j| - 1] == parts[|parts| - 1][|parts[|parts| - 1]| - 1]
    ensures Trimmed(j)
  {
  }

  /** Splitting a merged answer at index i gives back the answer of source i. */
  lemma SplitUndoesMerge(lib: Lib, merge: Rule, split: Rule, before: Answers, after: Answers, c: char, i: nat)
    requires merge.operation.MergeTexts? && merge.params.sources.Some? && merge.params.separator == Some([c])
    requires split.operation.SplitText? && split.params.separator == Some([c]) && split.params.index == Some(i)
    requires split.source == Some(merge.target) && merge.target != ""
    requires i < |merge.params.sources.value|
    requires forall k :: k in merge.params.sources.value ==> Mergeable(Lookup(before, k), c)
    ensures var m := MergeAnswer(before, merge.params.sources.value, [c]);
            && Operate(lib, merge, before) == Yields(m, false, 0)
            && (Lookup(after, merge.target) == m ==>
                  Operate(lib, split, after) == Yields(Lookup(before, merge.params.sources.value[i]), false, 0))
  {
    hide MergeAnswer, Split, Strip, Trimmed;
    var sources := merge.params.sources.value;
    MergeKeepsParts(before, sources, c);
    assert sources[i] in sources;
    var v := Lookup(before, sources[i]).value;
    StripTrims(v);
    assert Strip(v) == v;
    assert MergeParts(before, sources)[i] == v;
  }

  // ----- copying programs and their inverses -----

  predicate Copying(rules: seq<Rule>) {
    && DistinctTargets(rules)
    && (forall i :: 0 <= i < |rules| ==>
          && (rules[i].operation.Identity? || rules[i].operation.Rename?)
          && rules[i].source.Some? && rules[i].source.value != "" && rules[i].target != "")
    && (forall i, j :: 0 <= i < j < |rules| ==> rules[i].source != rules[j].source)
  }

  function Reversed(r: Rule): Rule
    requires r.source.Some?
  {
    r.(source := Some(r.target), target := r.source.value)
  }

  function Inverse(rules: seq<Rule>): (inv: seq<Rule>)
    requires forall i :: 0 <= i < |rules| ==> rules[i].source.Some?
  {
    seq(|rules|, i requires 0 <= i < |rules| => Reversed(rules[i]))
  }

  lemma InverseCopies(rules: seq<Rule>)
    requires Copying(rules)
    ensures Copying(Inverse(rules)) && Inverse(Inverse(rules)) == rules
  {
  }

  lemma CopyRun(lib: Lib, rules: seq<Rule>, before: Answers, r: Rule)
    requires Copying(rules) && r in rules
    ensures RunRules(lib, rules, before).after.Get(r.target) ==
            if Lookup(before, r.source.value) == DROPPED then None else Some(Lookup(before, r.source.value))
  {
    forall x | x in rules ensures Operate(lib, x, before) == Yields(Lookup(before, x.source.value), false, 0) {
      var i :| 0 <= i < |rules| && rules[i] == x;
    }
    hide Operate, RunRules;
    CleanRun(lib, rules, before);
  }

  /** A copying program followed by its inverse restores every answer but the drop marker. */
  lemma InverseRestores(lib: Lib, rules: seq<Rule>, before: Answers, r: Rule)
    requires Copying(rules) && r in rules
    ensures var after := RunRules(lib, rules, before).after.vals;
            var back := RunRules(lib, Inverse(rules), after).after.vals;
            Lookup(back, r.source.value) ==
              if Lookup(before, r.source.value) == DROPPED then None else Lookup(before, r.source.value)
  {
    hide RunRules, Copying;
    var after := RunRules(lib, rules, before).after.vals;
    var i :| 0 <= i < |rules| && rules[i] == r;
    assert Copying(rules) ==> rules[i].source.Some? by { SourcesSet(rules); }
    InverseCopies(rules);
    assert Inverse(rules)[i] == Reversed(r);
    assert Reversed(r) in Inverse(rules);
    CopyRun(lib, rules, before, r);
    CopyRun(lib, Inverse(rules), after, Reversed(r));
  }

  lemma SourcesSet(rules: seq<Rule>)
    requires Copying(rules)
    ensures forall i :: 0 <= i < |rules| ==> rules[i].source.Some?
  {
  }
}
