/** What a generated program covers (app/services/transforms/diff_service.py:135-232). */
module DiffCoverage {
  import opened Prelude
  import opened PyStrings
  import opened Forms
  import opened AnswerValidator
  import opened Executor
  import opened DiffService
  import opened RuleMeaning

  // ----- the rename index -----

  lemma {:induction false} RenameEntries(tgt: Questions, n: nat)
    requires tgt.Valid() && n <= |tgt.keys|
    ensures forall s :: s in RenameIndex(tgt, n) ==>
              RenameIndex(tgt, n)[s] in tgt.vals && tgt.vals[RenameIndex(tgt, n)[s]].renamedFrom == Some(s)
    ensures forall i :: 0 <= i < n && tgt.vals[tgt.keys[i]].renamedFrom.Some? ==>
              tgt.vals[tgt.keys[i]].renamedFrom.value in RenameIndex(tgt, n)
  {
    if n > 0 {
      RenameEntries(tgt, n - 1);
    }
  }

  /** A target key is entered at most under the one source key it names. */
  lemma RenameTargets(tgt: Questions)
    requires tgt.Valid()
    ensures forall s :: s in Renames(tgt) ==>
              Renames(tgt)[s] in tgt.vals && tgt.vals[Renames(tgt)[s]].renamedFrom == Some(s)
    ensures forall t :: t in tgt.vals && tgt.vals[t].renamedFrom.Some? ==> tgt.vals[t].renamedFrom.value in Renames(tgt)
  {
    RenameEntries(tgt, |tgt.keys|);
    forall t | t in tgt.vals && tgt.vals[t].renamedFrom.Some? ensures tgt.vals[t].renamedFrom.value in Renames(tgt) {
      assert t in tgt.keys;
    }
  }

  // ----- every program -----

  /** Display orders count up, each source question has the rule at its position, new targets follow,
      rules that are kept write existing targets, and dropped keys are no targets. */
  predicate Shaped(src: Questions, tgt: Questions, r: Rule, i: nat) {
    && r.order == i && r.id == i && !r.required
    && (if i < |src.keys| then r.source == Some(src.keys[i]) && !r.operation.DefaultValue?
        else r.source.None? && r.operation.DefaultValue?)
    && (if r.operation.Drop? then i < |src.keys| && r.target == src.keys[i] && r.target !in tgt.vals
        else r.target in tgt.vals)
  }

  lemma SourceShape(src: Questions, tgt: Questions, i: nat)
    requires src.Valid() && tgt.Valid() && i < |src.keys|
    ensures src.keys[i] in src.vals && Shaped(src, tgt, SourceRule(src, tgt, src.keys[i], i), i)
  {
    RenameTargets(tgt);
    hide Renames;
    assert src.keys[i] in src.keys;
  }

  lemma DefaultShape(src: Questions, tgt: Questions, i: nat)
    requires src.Valid() && tgt.Valid() && i < |NewKeys(src, tgt, |tgt.keys|)|
    ensures var news := NewKeys(src, tgt, |tgt.keys|);
            Shaped(src, tgt, DefaultRules(news, |src.keys|)[i], |src.keys| + i)
  {
    hide NewKeys, IsNew, Renames;
    var news := NewKeys(src, tgt, |tgt.keys|);
    var k := news[i];
    assert k in news;
    assert k in tgt.keys[..|tgt.keys|];
    assert k in tgt.keys && k in tgt.vals;
  }

  lemma ProgramShape(src: Questions, tgt: Questions)
    requires src.Valid() && tgt.Valid()
    ensures var rules := GeneratedRules(src, tgt);
            |rules| >= |src.keys| && forall i :: 0 <= i < |rules| ==> Shaped(src, tgt, rules[i], i)
  {
    hide NewKeys, SourceRule, Shaped;
    forall i | 0 <= i < |GeneratedRules(src, tgt)| ensures Shaped(src, tgt, GeneratedRules(src, tgt)[i], i) {
      if i < |src.keys| {
        SourceShape(src, tgt, i);
      } else {
        DefaultShape(src, tgt, i - |src.keys|);
      }
    }
  }

  /** Every source key has exactly one rule. */
  lemma OneRulePerSource(src: Questions, tgt: Questions, key: string) returns (i: nat)
    requires src.Valid() && tgt.Valid() && key in src.vals
    ensures var rules := GeneratedRules(src, tgt);
            && i < |rules| && rules[i].source == Some(key)
            && forall j :: 0 <= j < |rules| && rules[j].source == Some(key) ==> j == i
  {
    assert key in src.keys;
    i :| 0 <= i < |src.keys| && src.keys[i] == key;
    ProgramShape(src, tgt);
    hide GeneratedRules;
  }

  // ----- how often a target key is written -----

  /** A source key of the program is renamed to t. */
  predicate RenamedInto(src: Questions, tgt: Questions, t: string)
    requires tgt.Valid() && t in tgt.vals
  {
    var hint := tgt.vals[t].renamedFrom;
    hint.Some? && hint.value in src.vals && hint.value in Renames(tgt) && Renames(tgt)[hint.value] == t
  }

  /** t exists in both versions and its source question is not renamed away. */
  predicate Kept(src: Questions, tgt: Questions, t: string)
    requires tgt.Valid()
  {
    t in src.vals && t !in Renames(tgt)
  }

  /** Rule i writes the target key t. */
  predicate Feeds(rules: seq<Rule>, i: nat, t: string)
    requires i < |rules|
  {
    rules[i].target == t && !rules[i].operation.Drop?
  }

  predicate FedOnce(rules: seq<Rule>, t: string) {
    && (exists i :: 0 <= i < |rules| && Feeds(rules, i, t))
    && forall i, j :: 0 <= i < |rules| && 0 <= j < |rules| && Feeds(rules, i, t) && Feeds(rules, j, t) ==> i == j
  }

  /** Exactly one of the three ways to write t applies. */
  predicate Covered(src: Questions, tgt: Questions, t: string)
    requires tgt.Valid() && t in tgt.vals
  {
    && (RenamedInto(src, tgt, t) || Kept(src, tgt, t) || IsNew(src, tgt, t))
    && !(RenamedInto(src, tgt, t) && Kept(src, tgt, t))
  }

  lemma SourceFeeds(src: Questions, tgt: Questions, i: nat, t: string)
    requires src.Valid() && tgt.Valid() && t in tgt.vals && i < |src.keys|
    ensures var rules := GeneratedRules(src, tgt);
            && i < |rules|
            && (Feeds(rules, i, t) <==>
                  || (RenamedInto(src, tgt, t) && src.keys[i] == tgt.vals[t].renamedFrom.value)
                  || (Kept(src, tgt, t) && src.keys[i] == t))
  {
    RenameTargets(tgt);
    hide Renames;
    assert src.keys[i] in src.keys;
  }

  lemma DefaultFeeds(src: Questions, tgt: Questions, i: nat, t: string)
    requires src.Valid() && tgt.Valid() && t in tgt.vals && |src.keys| <= i < |GeneratedRules(src, tgt)|
    ensures var news := NewKeys(src, tgt, |tgt.keys|);
            && i - |src.keys| < |news|
            && (Feeds(GeneratedRules(src, tgt), i, t) <==> news[i - |src.keys|] == t)
  {
    hide NewKeys, SourceRule;
  }

  /** A target key is written by exactly one rule if and only if it is covered. */
  lemma FedOnceIffCovered(src: Questions, tgt: Questions, t: string)
    requires src.Valid() && tgt.Valid() && t in tgt.vals
    ensures FedOnce(GeneratedRules(src, tgt), t) <==> Covered(src, tgt, t)
  {
    var rules, news := GeneratedRules(src, tgt), NewKeys(src, tgt, |tgt.keys|);
    assert |rules| == |src.keys| + |news|;
    RenameTargets(tgt);
    assert t in tgt.keys && tgt.keys[..|tgt.keys|] == tgt.keys;
    hide GeneratedRules, Renames, NewKeys;
    forall i | 0 <= i < |rules|
      ensures Feeds(rules, i, t) <==>
                || (i < |src.keys| && RenamedInto(src, tgt, t) && src.keys[i] == tgt.vals[t].renamedFrom.value)
                || (i < |src.keys| && Kept(src, tgt, t) && src.keys[i] == t)
                || (i >= |src.keys| && news[i - |src.keys|] == t)
    {
      if i < |src.keys| {
        SourceFeeds(src, tgt, i, t);
      } else {
        DefaultFeeds(src, tgt, i, t);
      }
    }
    FedByWhom(src, tgt, rules, news, t);
  }

  lemma FedByWhom(src: Questions, tgt: Questions, rules: seq<Rule>, news: seq<string>, t: string)
    requires src.Valid() && tgt.Valid() && t in tgt.vals && |rules| == |src.keys| + |news| && NoDuplicates(news)
    requires t in news <==> IsNew(src, tgt, t)
    requires forall s :: s in Renames(tgt) ==> Renames(tgt)[s] in tgt.vals && tgt.vals[Renames(tgt)[s]].renamedFrom == Some(s)
    requires forall i :: 0 <= i < |rules| ==>
               (Feeds(rules, i, t) <==>
                || (i < |src.keys| && RenamedInto(src, tgt, t) && src.keys[i] == tgt.vals[t].renamedFrom.value)
                || (i < |src.keys| && Kept(src, tgt, t) && src.keys[i] == t)
                || (i >= |src.keys| && news[i - |src.keys|] == t))
    ensures FedOnce(rules, t) <==> Covered(src, tgt, t)
  {
    hide Renames, Feeds;
    if RenamedInto(src, tgt, t) {
      var s := tgt.vals[t].renamedFrom.value;
      assert s in src.keys;
      var a :| 0 <= a < |src.keys| && src.keys[a] == s;
      assert Feeds(rules, a, t);
      assert t in Renames(tgt).Values;
      if Kept(src, tgt, t) {
        assert t in src.keys;
        var b :| 0 <= b < |src.keys| && src.keys[b] == t;
        assert Feeds(rules, b, t);
      }
    } else if Kept(src, tgt, t) {
      assert t in src.keys;
      var b :| 0 <= b < |src.keys| && src.keys[b] == t;
      assert Feeds(rules, b, t);
    } else if IsNew(src, tgt, t) {
      var c :| 0 <= c < |news| && news[c] == t;
      assert Feeds(rules, |src.keys| + c, t);
    }
  }

  // ----- well-formed renames -----

  /** Each renamed_from names its own source key, absent from the target, and sits on a key absent from the source. */
  predicate ProperRenames(src: Questions, tgt: Questions) {
    && (forall t :: t in tgt.vals && tgt.vals[t].renamedFrom.Some? ==>
          t !in src.vals && tgt.vals[t].renamedFrom.value in src.vals && tgt.vals[t].renamedFrom.value !in tgt.vals)
    && forall t, u ::
         t in tgt.vals && u in tgt.vals && tgt.vals[t].renamedFrom.Some? && t != u ==>
         tgt.vals[t].renamedFrom != tgt.vals[u].renamedFrom
  }

  lemma ProperRenamesCover(src: Questions, tgt: Questions)
    requires src.Valid() && tgt.Valid() && ProperRenames(src, tgt)
    ensures forall t :: t in tgt.vals ==> Covered(src, tgt, t)
  {
    RenameTargets(tgt);
    hide Renames;
  }

  predicate AllCovered(src: Questions, tgt: Questions)
    requires tgt.Valid()
  {
    forall t :: t in tgt.vals ==> Covered(src, tgt, t)
  }

  /** When every target key is covered, no two rules of the program share a target. */
  lemma CoveredDistinct(src: Questions, tgt: Questions)
    requires src.Valid() && tgt.Valid() && AllCovered(src, tgt)
    ensures DistinctTargets(GeneratedRules(src, tgt))
  {
    var rules := GeneratedRules(src, tgt);
    ProgramShape(src, tgt);
    hide GeneratedRules, Covered;
    forall i, j | 0 <= i < j < |rules| ensures rules[i].target != rules[j].target {
      assert Shaped(src, tgt, rules[i], i) && Shaped(src, tgt, rules[j], j);
      if rules[i].target in tgt.vals {
        FedOnceIffCovered(src, tgt, rules[i].target);
        assert Feeds(rules, i, rules[i].target) && Feeds(rules, j, rules[j].target) == !rules[j].operation.Drop?;
      }
    }
  }

  // ----- running the program -----

  lemma SourceNeverRaises(lib: Lib, src: Questions, tgt: Questions, before: Answers, key: string, i: nat)
    requires tgt.Valid() && key in src.vals
    ensures Operate(lib, SourceRule(src, tgt, key, i), before).Yields?
  {
    hide MapAnswer, MapWarnings, ParseDate, OptionMapping, Renames, OptionsChanged;
  }

  lemma NeverEnds(lib: Lib, src: Questions, tgt: Questions, before: Answers, i: nat)
    requires src.Valid() && tgt.Valid() && i < |GeneratedRules(src, tgt)|
    ensures !Ends(lib, GeneratedRules(src, tgt), before, i)
  {
    hide Operate, SourceRule, NewKeys;
    ProgramShape(src, tgt);
    assert Shaped(src, tgt, GeneratedRules(src, tgt)[i], i);
    if i < |src.keys| {
      assert src.keys[i] in src.keys;
      SourceNeverRaises(lib, src, tgt, before, src.keys[i], i);
    } else {
      DefaultYields(lib, GeneratedRules(src, tgt)[i], before);
    }
  }

  lemma DefaultYields(lib: Lib, r: Rule, before: Answers)
    requires r.operation.DefaultValue?
    ensures Operate(lib, r, before).Yields?
  {
  }

  /** Every rule of a generated program is executed, on any answers, and nothing is raised. */
  lemma ProgramRunsThrough(lib: Lib, src: Questions, tgt: Questions, before: Answers)
    requires src.Valid() && tgt.Valid()
    ensures var rules := GeneratedRules(src, tgt);
            Means(lib, rules, before, |rules|, RunRules(lib, rules, before)) && !Finished(RunRules(lib, rules, before))
  {
    var rules := GeneratedRules(src, tgt);
    forall i | 0 <= i < |rules| ensures !Ends(lib, rules, before, i) {
      NeverEnds(lib, src, tgt, before, i);
    }
    hide GeneratedRules, Ends, RunRules, Means;
    var n := RuleListMeaning(lib, rules, before);
    assert n == |rules|;
    if Finished(RunRules(lib, rules, before)) {
      FinishedEnds(lib, rules, before, n, RunRules(lib, rules, before));
    }
  }

  lemma ProgramTargets(src: Questions, tgt: Questions)
    requires src.Valid() && tgt.Valid()
    ensures forall r :: r in GeneratedRules(src, tgt) ==> r.operation.Drop? || r.target in tgt.vals
  {
    hide GeneratedRules;
    var rules := GeneratedRules(src, tgt);
    ProgramShape(src, tgt);
    forall r | r in rules ensures r.operation.Drop? || r.target in tgt.vals {
      var i :| 0 <= i < |rules| && rules[i] == r;
      assert Shaped(src, tgt, rules[i], i);
    }
  }

  /** Every target key holds exactly what its one rule yields, and nothing else is answered. */
  lemma ProgramRun(lib: Lib, src: Questions, tgt: Questions, before: Answers)
    requires src.Valid() && tgt.Valid() && AllCovered(src, tgt)
    ensures var rules := GeneratedRules(src, tgt);
            var after := RunRules(lib, rules, before).after;
            && (forall r :: r in rules ==> after.Get(r.target) == Outcome(Operate(lib, r, before)))
            && (forall key :: (forall r :: r in rules ==> r.target != key) ==> key !in after.vals)
  {
    hide GeneratedRules, RunRules, Operate, AllCovered, DistinctTargets, Means, Finished, Outcome;
    var rules := GeneratedRules(src, tgt);
    CoveredDistinct(src, tgt);
    ProgramRunsThrough(lib, src, tgt, before);
    TargetsHold(lib, rules, before, RunRules(lib, rules, before));
  }

  lemma OnlyTargetsAnswered(lib: Lib, src: Questions, tgt: Questions, before: Answers, key: string)
    requires src.Valid() && tgt.Valid() && AllCovered(src, tgt)
    requires key in RunRules(lib, GeneratedRules(src, tgt), before).after.vals
    ensures key in tgt.vals
  {
    var rules := GeneratedRules(src, tgt);
    ProgramRun(lib, src, tgt, before);
    ProgramTargets(src, tgt);
    hide GeneratedRules, RunRules, Operate, Covered;
    var r :| r in rules && r.target == key;
    DropWritesNothing(lib, r, before);
  }

  lemma TargetAnswered(lib: Lib, src: Questions, tgt: Questions, before: Answers, t: string) returns (r: Rule)
    requires src.Valid() && tgt.Valid() && AllCovered(src, tgt) && t in tgt.vals
    ensures r in GeneratedRules(src, tgt) && r.target == t && !r.operation.Drop?
    ensures t in RunRules(lib, GeneratedRules(src, tgt), before).after.vals <==> Writes(Operate(lib, r, before))
  {
    var rules := GeneratedRules(src, tgt);
    ProgramRun(lib, src, tgt, before);
    ProgramTargets(src, tgt);
    CoveredOf(src, tgt, t);
    FedOnceIffCovered(src, tgt, t);
    hide GeneratedRules, RunRules, Operate, Covered, AllCovered;
    var i :| 0 <= i < |rules| && Feeds(rules, i, t);
    r := rules[i];
    assert r in rules;
  }

  /** Every rule but the discards yields a value that is kept. */
  predicate AllWrite(lib: Lib, rules: seq<Rule>, before: Answers) {
    forall r :: r in rules && !r.operation.Drop? ==> Writes(Operate(lib, r, before))
  }

  lemma AllAnsweredAllWrite(lib: Lib, src: Questions, tgt: Questions, before: Answers)
    requires src.Valid() && tgt.Valid() && AllCovered(src, tgt)
    requires RunRules(lib, GeneratedRules(src, tgt), before).after.vals.Keys == tgt.vals.Keys
    ensures AllWrite(lib, GeneratedRules(src, tgt), before)
  {
    var rules := GeneratedRules(src, tgt);
    var after := RunRules(lib, rules, before).after;
    ProgramRun(lib, src, tgt, before);
    ProgramTargets(src, tgt);
    hide GeneratedRules, RunRules, Operate, AllCovered;
    forall r | r in rules && !r.operation.Drop? ensures Writes(Operate(lib, r, before)) {
      assert r.target in after.vals.Keys;
      assert after.Get(r.target) == Outcome(Operate(lib, r, before));
    }
  }

  /** Failures or not, the program answers exactly the target questions, unless some rule hits the drop marker. */
  lemma RunAnswersTarget(lib: Lib, src: Questions, tgt: Questions, before: Answers)
    requires src.Valid() && tgt.Valid() && AllCovered(src, tgt)
    ensures var p := RunRules(lib, GeneratedRules(src, tgt), before);
            && p.after.vals.Keys <= tgt.vals.Keys
            && (p.after.vals.Keys == tgt.vals.Keys <==> AllWrite(lib, GeneratedRules(src, tgt), before))
  {
    hide GeneratedRules, RunRules, Operate, AllCovered;
    var rules := GeneratedRules(src, tgt);
    var after := RunRules(lib, rules, before).after;
    forall k | k in after.vals ensures k in tgt.vals {
      OnlyTargetsAnswered(lib, src, tgt, before, k);
    }
    if after.vals.Keys == tgt.vals.Keys {
      AllAnsweredAllWrite(lib, src, tgt, before);
    }
    if AllWrite(lib, rules, before) {
      forall t | t in tgt.vals ensures t in after.vals {
        var r := TargetAnswered(lib, src, tgt, before, t);
      }
    }
  }

  lemma CoveredOf(src: Questions, tgt: Questions, t: string)
    requires tgt.Valid() && AllCovered(src, tgt) && t in tgt.vals
    ensures Covered(src, tgt, t)
  {
  }

  lemma DropWritesNothing(lib: Lib, r: Rule, before: Answers)
    ensures r.operation.Drop? ==> !Writes(Operate(lib, r, before))
  {
  }

  // ----- when the drop marker stays out -----

  /** Neither the answers nor the options and hints contain the marker, and no parsed date looks like it. */
  ghost predicate MarkerFree(lib: Lib, src: Questions, tgt: Questions, before: Answers) {
    && (forall k :: k in before ==> before[k] != DROPPED)
    && (forall s, f :: lib.strptime(s, f) != DROPPED)
    && (forall s, t, v :: s in src.vals && t in tgt.vals && v in OptionMapping(src.vals[s], tgt.vals[t]) ==>
          OptionMapping(src.vals[s], tgt.vals[t])[v] != DROPPED)
  }

  lemma {:induction false} ParsedDate(lib: Lib, formats: seq<string>, raw: string)
    requires forall s, f :: lib.strptime(s, f) != DROPPED
    ensures ParseDate(lib, formats, raw) != DROPPED
  {
    if formats != [] {
      ParsedDate(lib, formats[1..], raw);
    }
  }

  lemma {:induction false} PiecesMarked(mapping: ValueMap, pieces: seq<string>)
    requires forall v :: v in mapping ==> mapping[v] != DROPPED
    ensures "__DROP__" !in MappedPieces(mapping, None, pieces)
  {
    if pieces != [] {
      PiecesMarked(mapping, pieces[..|pieces| - 1]);
    }
  }

  lemma MapAnswerMarked(mapping: ValueMap, raw: string)
    requires forall v :: v in mapping ==> mapping[v] != DROPPED
    ensures MapAnswer(mapping, None, raw) != DROPPED
  {
    var ps := MappedPieces(mapping, None, Selected(raw));
    PiecesMarked(mapping, Selected(raw));
    hide MappedPieces, Selected;
    if |ps| >= 2 {
      assert ',' in Join(ps, COMMA);
    } else if |ps| == 1 {
      assert ps[0] in ps;
    }
  }

  lemma RuleWrites(lib: Lib, src: Questions, tgt: Questions, before: Answers, key: string, i: nat)
    requires src.Valid() && tgt.Valid() && MarkerFree(lib, src, tgt, before) && key in src.vals
    requires !SourceRule(src, tgt, key, i).operation.Drop?
    ensures Writes(Operate(lib, SourceRule(src, tgt, key, i), before))
  {
    hide Renames, ParseDate, MapAnswer, MapWarnings, OptionMapping;
    var r := SourceRule(src, tgt, key, i);
    if r.operation.CoerceType? && Raw(r, before).Some? {
      ParsedDate(lib, DateFormats(r.params.format), Raw(r, before).value);
    }
    if r.operation.MapValues? && Raw(r, before).Some? {
      var mapping := OptionMapping(src.vals[key], tgt.vals[key]);
      MapAnswerMarked(mapping, Raw(r, before).value);
    }
  }

  lemma RuleAtWrites(lib: Lib, src: Questions, tgt: Questions, before: Answers, i: nat)
    requires src.Valid() && tgt.Valid() && MarkerFree(lib, src, tgt, before)
    requires i < |GeneratedRules(src, tgt)|
    requires !GeneratedRules(src, tgt)[i].operation.Drop?
    ensures Writes(Operate(lib, GeneratedRules(src, tgt)[i], before))
  {
    hide Operate, NewKeys, SourceRule, MarkerFree;
    if i < |src.keys| {
      assert src.keys[i] in src.keys;
      RuleWrites(lib, src, tgt, before, src.keys[i], i);
    } else {
      DefaultWrites(lib, GeneratedRules(src, tgt)[i], before);
    }
  }

  /** On marker-free data every run of a covering program answers the whole target version. */
  lemma MarkerFreeAnswersAll(lib: Lib, src: Questions, tgt: Questions, before: Answers)
    requires src.Valid() && tgt.Valid() && AllCovered(src, tgt)
    requires MarkerFree(lib, src, tgt, before)
    ensures RunRules(lib, GeneratedRules(src, tgt), before).after.vals.Keys == tgt.vals.Keys
  {
    hide Operate, GeneratedRules, AllCovered, RunRules, MarkerFree;
    var rules := GeneratedRules(src, tgt);
    forall r | r in rules && !r.operation.Drop? ensures Writes(Operate(lib, r, before)) {
      var i :| 0 <= i < |rules| && rules[i] == r;
      RuleAtWrites(lib, src, tgt, before, i);
    }
    RunAnswersTarget(lib, src, tgt, before);
  }

  lemma DefaultWrites(lib: Lib, r: Rule, before: Answers)
    requires r.operation.DefaultValue? && r.params.value.None?
    ensures Writes(Operate(lib, r, before))
  {
  }
}
