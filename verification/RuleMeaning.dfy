/** What running a rule list means, said without running it (app/services/transforms/executor.py:319-334). */
module RuleMeaning {
  import opened Prelude
  import opened Forms
  import opened Executor

  function EffectAt(lib: Lib, rules: seq<Rule>, before: Answers, i: nat): Effect
    requires i < |rules|
  {
    Operate(lib, rules[i], before)
  }

  predicate Fails(e: Effect) {
    e.Yields? && e.failed
  }

  predicate Writes(e: Effect) {
    e.Yields? && e.value != DROPPED
  }

  /** The loop ends after this rule: it is required, its value is kept, and some rule so far has failed. */
  predicate Stops(lib: Lib, rules: seq<Rule>, before: Answers, i: nat)
    requires i < |rules|
  {
    && rules[i].required
    && Writes(EffectAt(lib, rules, before, i))
    && exists j :: 0 <= j <= i && Fails(EffectAt(lib, rules, before, j))
  }

  predicate Ends(lib: Lib, rules: seq<Rule>, before: Answers, i: nat)
    requires i < |rules|
  {
    EffectAt(lib, rules, before, i).Raised? || Stops(lib, rules, before, i)
  }

  /** Exactly the first n rules are executed: up to the first that ends the loop, or all of them. */
  predicate Executed(lib: Lib, rules: seq<Rule>, before: Answers, n: nat) {
    && n <= |rules|
    && (forall i :: 0 <= i < n - 1 ==> !Ends(lib, rules, before, i))
    && (n < |rules| ==> n > 0 && Ends(lib, rules, before, n - 1))
  }

  predicate WritesTo(lib: Lib, rules: seq<Rule>, before: Answers, i: nat, key: string)
    requires i < |rules|
  {
    rules[i].target == key && Writes(EffectAt(lib, rules, before, i))
  }

  /** The last of the first n rules that writes under this key. */
  function LastWriter(lib: Lib, rules: seq<Rule>, before: Answers, n: nat, key: string): (w: Option<nat>)
    requires n <= |rules|
    ensures w.Some? ==> w.value < n && WritesTo(lib, rules, before, w.value, key)
    ensures forall j :: (if w.Some? then w.value + 1 else 0) <= j < n ==> !WritesTo(lib, rules, before, j, key)
  {
    if n == 0 then None
    else if WritesTo(lib, rules, before, n - 1, key) then Some(n - 1)
    else LastWriter(lib, rules, before, n - 1, key)
  }

  /** What the key holds after the first n rules. */
  function Written(lib: Lib, rules: seq<Rule>, before: Answers, n: nat, key: string): Option<Answer>
    requires n <= |rules|
  {
    var w := LastWriter(lib, rules, before, n, key);
    if w.Some? then Some(EffectAt(lib, rules, before, w.value).value) else None
  }

  /** The ids of the failing rules among the first n, in order. */
  function FailedIds(lib: Lib, rules: seq<Rule>, before: Answers, n: nat): (ids: seq<nat>)
    requires n <= |rules|
    ensures ids == [] <==> forall j :: 0 <= j < n ==> !Fails(EffectAt(lib, rules, before, j))
  {
    if n == 0 then []
    else FailedIds(lib, rules, before, n - 1) + if Fails(EffectAt(lib, rules, before, n - 1)) then [rules[n - 1].id] else []
  }

  /** The result after the first n rules, none of which but the last may have ended the loop. */
  ghost predicate Means(lib: Lib, rules: seq<Rule>, before: Answers, n: nat, p: Progress)
    requires n <= |rules|
  {
    && p.errors == FailedIds(lib, rules, before, n)
    && (p.raised <==> n > 0 && EffectAt(lib, rules, before, n - 1).Raised?)
    && (p.stopped <==> n > 0 && Stops(lib, rules, before, n - 1))
    && (forall key :: p.after.Get(key) == Written(lib, rules, before, n, key))
  }

  lemma StepMeans(lib: Lib, rules: seq<Rule>, before: Answers, n: nat, p: Progress)
    requires n < |rules| && p.after.Valid() && Means(lib, rules, before, n, p) && !Finished(p)
    ensures Means(lib, rules, before, n + 1, Take(p, rules[n], EffectAt(lib, rules, before, n)))
  {
    hide Operate;
    var e := EffectAt(lib, rules, before, n);
    var q := Take(p, rules[n], e);
    forall key ensures q.after.Get(key) == Written(lib, rules, before, n + 1, key) {
      assert p.after.Get(key) == Written(lib, rules, before, n, key);
    }
    hide EffectAt, Written;
    assert FailedIds(lib, rules, before, n + 1) == q.errors || e.Raised?;
  }

  /** The executed rules are a prefix, and the result is what the last writers of that prefix wrote. */
  lemma {:induction false} RunMeans(lib: Lib, rules: seq<Rule>, before: Answers, k: nat) returns (n: nat)
    requires k <= |rules|
    ensures n <= k && (n == k || Finished(RunRules(lib, rules[..k], before)))
    ensures forall i :: 0 <= i < n - 1 ==> !Ends(lib, rules, before, i)
    ensures n < k ==> n > 0 && Ends(lib, rules, before, n - 1)
    ensures Means(lib, rules, before, n, RunRules(lib, rules[..k], before))
  {
    hide Operate, Ends, Take, RunRules;
    if k == 0 {
      n := 0;
      NothingMeans(lib, rules, before);
    } else {
      RunNext(lib, rules, before, k - 1);
      var p := RunRules(lib, rules[..k - 1], before);
      n := RunMeans(lib, rules, before, k - 1);
      if Finished(p) {
        FinishedEnds(lib, rules, before, n, p);
      } else {
        EndsFinishes(lib, rules, before, n, p);
        StepMeans(lib, rules, before, n, p);
        n := k;
      }
    }
  }

  lemma NothingMeans(lib: Lib, rules: seq<Rule>, before: Answers)
    ensures Means(lib, rules, before, 0, RunRules(lib, rules[..0], before))
  {
    hide Operate;
  }

  lemma FinishedEnds(lib: Lib, rules: seq<Rule>, before: Answers, n: nat, p: Progress)
    requires n <= |rules| && Means(lib, rules, before, n, p) && Finished(p)
    ensures n > 0 && Ends(lib, rules, before, n - 1)
  {
    hide Operate;
  }

  lemma EndsFinishes(lib: Lib, rules: seq<Rule>, before: Answers, n: nat, p: Progress)
    requires n <= |rules| && Means(lib, rules, before, n, p) && !Finished(p)
    ensures n > 0 ==> !Ends(lib, rules, before, n - 1)
  {
    hide Operate;
  }

  /** The meaning of a whole run. */
  lemma RuleListMeaning(lib: Lib, rules: seq<Rule>, before: Answers) returns (n: nat)
    ensures Executed(lib, rules, before, n) && Means(lib, rules, before, n, RunRules(lib, rules, before))
  {
    hide Operate, Stops, Means;
    assert rules[..|rules|] == rules;
    n := RunMeans(lib, rules, before, |rules|);
  }

  // ----- independence of the order -----

  /** No rule fails or raises on these answers. */
  predicate Clean(lib: Lib, rules: seq<Rule>, before: Answers) {
    forall r :: r in rules ==> Operate(lib, r, before).Yields? && !Operate(lib, r, before).failed
  }

  predicate DistinctTargets(rules: seq<Rule>) {
    forall i, j :: 0 <= i < j < |rules| ==> rules[i].target != rules[j].target
  }

  /** When every rule is executed and targets differ, each key holds exactly what its rule yields. */
  lemma TargetsHold(lib: Lib, rules: seq<Rule>, before: Answers, p: Progress)
    requires DistinctTargets(rules) && Means(lib, rules, before, |rules|, p)
    ensures forall r :: r in rules ==> p.after.Get(r.target) == Outcome(Operate(lib, r, before))
    ensures forall key :: (forall r :: r in rules ==> r.target != key) ==> key !in p.after.vals
  {
    hide Operate, Stops, FailedIds, Written, DistinctTargets;
    forall r | r in rules ensures p.after.Get(r.target) == Outcome(Operate(lib, r, before)) {
      var i :| 0 <= i < |rules| && rules[i] == r;
      OnlyWriter(lib, rules, before, i);
    }
    forall key | forall r :: r in rules ==> r.target != key ensures key !in p.after.vals {
      assert p.after.Get(key) == Written(lib, rules, before, |rules|, key);
      NoWriter(lib, rules, before, |rules|, key);
    }
  }

  /** A clean list with distinct targets executes every rule and writes exactly what each of them yields. */
  lemma CleanRun(lib: Lib, rules: seq<Rule>, before: Answers)
    requires Clean(lib, rules, before) && DistinctTargets(rules)
    ensures var p := RunRules(lib, rules, before);
            && p.errors == [] && !p.raised && !p.stopped
            && (forall r :: r in rules ==> p.after.Get(r.target) == Outcome(Operate(lib, r, before)))
            && (forall key :: (forall r :: r in rules ==> r.target != key) ==> key !in p.after.vals)
  {
    hide Operate, DistinctTargets;
    var n := RuleListMeaning(lib, rules, before);
    CleanEffects(lib, rules, before);
    assert n == |rules|;
    TargetsHold(lib, rules, before, RunRules(lib, rules, before));
  }

  lemma NoWriter(lib: Lib, rules: seq<Rule>, before: Answers, n: nat, key: string)
    requires n <= |rules| && forall r :: r in rules ==> r.target != key
    ensures Written(lib, rules, before, n, key).None?
  {
    hide Operate;
    assert forall i :: 0 <= i < |rules| ==> rules[i] in rules;
  }

  /** What a rule leaves under its target: nothing when its value is dropped. */
  function Outcome(e: Effect): Option<Answer> {
    if Writes(e) then Some(e.value) else None
  }

  lemma CleanEffects(lib: Lib, rules: seq<Rule>, before: Answers)
    requires Clean(lib, rules, before)
    ensures forall i :: 0 <= i < |rules| ==> !Ends(lib, rules, before, i) && !Fails(EffectAt(lib, rules, before, i))
  {
    hide Operate;
    forall i | 0 <= i < |rules| ensures EffectAt(lib, rules, before, i).Yields? && !Fails(EffectAt(lib, rules, before, i)) {
      assert rules[i] in rules;
    }
  }

  lemma OnlyWriter(lib: Lib, rules: seq<Rule>, before: Answers, i: nat)
    requires DistinctTargets(rules) && i < |rules|
    ensures Written(lib, rules, before, |rules|, rules[i].target) == Outcome(EffectAt(lib, rules, before, i))
  {
    hide Operate;
    var w := LastWriter(lib, rules, before, |rules|, rules[i].target);
    if w.Some? {
      assert w.value == i;
    } else {
      assert !WritesTo(lib, rules, before, i, rules[i].target);
    }
  }

  /** Without errors and with distinct targets, the order of the rules does not matter. */
  lemma RuleOrderIndependent(lib: Lib, rules: seq<Rule>, rules': seq<Rule>, before: Answers)
    requires multiset(rules) == multiset(rules')
    requires Clean(lib, rules, before) && DistinctTargets(rules) && DistinctTargets(rules')
    ensures RunRules(lib, rules, before).after.vals == RunRules(lib, rules', before).after.vals
    ensures RunRules(lib, rules', before).errors == []
  {
    hide Operate, RunRules, DistinctTargets, Outcome;
    forall r ensures r in rules <==> r in rules' {
      assert r in multiset(rules) <==> r in multiset(rules');
    }
    CleanRun(lib, rules, before);
    CleanRun(lib, rules', before);
    var p, p' := RunRules(lib, rules, before), RunRules(lib, rules', before);
    forall key ensures p.after.Get(key) == p'.after.Get(key) {
      if r :| r in rules && r.target == key {
        assert p.after.Get(r.target) == p'.after.Get(r.target);
      }
    }
    SameEntries(p.after, p'.after);
  }

  lemma SameEntries<V>(d: Dict<V>, d': Dict<V>)
    requires forall key :: d.Get(key) == d'.Get(key)
    ensures d.vals == d'.vals
  {
    forall key ensures key in d.vals <==> key in d'.vals {
      assert d.Get(key) == d'.Get(key);
    }
    forall key | key in d.vals ensures d.vals[key] == d'.vals[key] {
      assert d.Get(key) == d'.Get(key);
    }
  }

  // ----- required rules -----

  /** `has_required_failure`: some required rule has an error entry under its own id. */
  predicate RequiredFailure(rules: seq<Rule>, errors: seq<nat>) {
    exists r :: r in rules && r.required && r.id in errors
  }

  predicate DistinctIds(rules: seq<Rule>) {
    forall i, j :: 0 <= i < j < |rules| ==> rules[i].id != rules[j].id
  }

  lemma {:induction false} FailedId(lib: Lib, rules: seq<Rule>, before: Answers, n: nat, i: nat)
    requires n <= |rules| && i < |rules| && DistinctIds(rules)
    ensures rules[i].id in FailedIds(lib, rules, before, n) <==> i < n && Fails(EffectAt(lib, rules, before, i))
  {
    hide Operate;
    if n > 0 {
      FailedId(lib, rules, before, n - 1, i);
    }
  }

  /** A run is refused exactly when a required rule among the executed ones has itself failed. So a loop cut
      short at a required rule that succeeded, after an optional one had failed, goes through without the
      rules behind it. */
  lemma RefusedIff(lib: Lib, rules: seq<Rule>, before: Answers, n: nat)
    requires DistinctIds(rules) && Executed(lib, rules, before, n)
    ensures RequiredFailure(rules, FailedIds(lib, rules, before, n)) <==>
            exists i :: 0 <= i < n && rules[i].required && Fails(EffectAt(lib, rules, before, i))
  {
    hide Operate, Ends, FailedIds;
    forall i | 0 <= i < |rules|
      ensures rules[i].id in FailedIds(lib, rules, before, n) <==> i < n && Fails(EffectAt(lib, rules, before, i))
    {
      FailedId(lib, rules, before, n, i);
    }
    if i :| 0 <= i < n && rules[i].required && Fails(EffectAt(lib, rules, before, i)) {
      assert rules[i] in rules;
    }
  }

  // ----- warnings -----

  /** The warnings of the first n rules together. */
  function Warned(lib: Lib, rules: seq<Rule>, before: Answers, n: nat): nat
    requires n <= |rules|
  {
    if n == 0 then 0
    else
      match EffectAt(lib, rules, before, n - 1)
      case Raised => Warned(lib, rules, before, n - 1)
      case Yields(_, _, w) => Warned(lib, rules, before, n - 1) + w
  }

  lemma {:induction false} PrefixWarnings(lib: Lib, rules: seq<Rule>, before: Answers, n: nat, k: nat)
    requires Executed(lib, rules, before, n) && k <= n
    ensures RunRules(lib, rules[..k], before).warnings == Warned(lib, rules, before, k)
    decreases k
  {
    hide Operate, Ends, Means, RunRules, FailedIds, Written;
    if k == 0 {
      RunNext(lib, rules, before, 0);
    } else {
      PrefixWarnings(lib, rules, before, n, k - 1);
      RunNext(lib, rules, before, k - 1);
      NotYetFinished(lib, rules, before, n, k - 1);
    }
  }

  lemma NotYetFinished(lib: Lib, rules: seq<Rule>, before: Answers, n: nat, k: nat)
    requires Executed(lib, rules, before, n) && k < n
    ensures !Finished(RunRules(lib, rules[..k], before))
  {
    hide Operate, Ends, Means, RunRules;
    var m := RunMeans(lib, rules, before, k);
    if Finished(RunRules(lib, rules[..k], before)) {
      FinishedEnds(lib, rules, before, m, RunRules(lib, rules[..k], before));
    }
  }

  /** A run counts the warnings of exactly the rules it has executed. */
  lemma RunWarnings(lib: Lib, rules: seq<Rule>, before: Answers, n: nat)
    requires Executed(lib, rules, before, n)
    ensures RunRules(lib, rules, before).warnings == Warned(lib, rules, before, n)
  {
    hide Operate, Means, RunRules;
    PrefixWarnings(lib, rules, before, n, n);
    if n < |rules| {
      var m := RunMeans(lib, rules, before, n);
      assert Finished(RunRules(lib, rules[..n], before)) by { EndedIsFinished(lib, rules, before, n); }
      FinishedStays(lib, rules, before, n);
    } else {
      assert rules[..n] == rules;
    }
  }

  lemma EndedIsFinished(lib: Lib, rules: seq<Rule>, before: Answers, n: nat)
    requires Executed(lib, rules, before, n) && n < |rules|
    ensures Finished(RunRules(lib, rules[..n], before))
  {
    hide Operate, Ends, Means, RunRules;
    var m := RunMeans(lib, rules, before, n);
    if !Finished(RunRules(lib, rules[..n], before)) {
      EndsFinishes(lib, rules, before, n, RunRules(lib, rules[..n], before));
    }
  }
}
