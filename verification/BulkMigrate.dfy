/** Migrating all eligible submissions of a version (app/services/transforms/bulk_migrate.py). */
module BulkMigrate {
  import opened Prelude
  import opened Forms
  import opened AnswerStore

  datatype Outcome = Outcome(sub: nat, success: bool, errors: seq<LogError>, warnings: nat)

  datatype Bulk = Bulk(store: Store, results: seq<Outcome>, succeeded: nat, failed: nat, skipped: nat)

  /** The query for eligible submissions; an empty list of ids selects them all. */
  predicate Selects(store: Store, rs: RuleSet, ids: seq<nat>, sub: nat) {
    && sub in store.subs
    && store.subs[sub].version == rs.source
    && Migratable(store.subs[sub].status)
    && (ids == [] || sub in ids)
  }

  /** The selected submissions in the order in which the database lists them. */
  function Selection(store: Store, rs: RuleSet, ids: seq<nat>, listing: seq<nat>): (subs: seq<nat>)
    ensures forall s :: s in subs <==> s in listing && Selects(store, rs, ids, s)
    ensures NoDuplicates(listing) ==> NoDuplicates(subs)
  {
    if listing == [] then []
    else
      var last := listing[|listing| - 1];
      assert listing == listing[..|listing| - 1] + [last];
      Selection(store, rs, ids, listing[..|listing| - 1]) + if Selects(store, rs, ids, last) then [last] else []
  }

  /** What the loop records for a result. */
  function OutcomeOf(sub: nat, result: Result): Outcome {
    match result
    case Logged(log) => Outcome(sub, log.errors == [], log.errors, log.warnings)
    case _ => Outcome(sub, false, [], 0)
  }

  /** One turn of the loop. */
  function Turn(lib: Lib, versions: Versions, rs: RuleSet, b: Bulk, sub: nat, dryRun: bool): Bulk {
    if sub in b.store.subs && !Migratable(b.store.subs[sub].status) then
      b.(results := b.results + [Outcome(sub, false, [], 0)], skipped := b.skipped + 1)
    else
      var (store, result) := Apply(lib, versions, rs, b.store, sub, dryRun);
      var o := OutcomeOf(sub, result);
      Bulk(store, b.results + [o], b.succeeded + (if o.success then 1 else 0), b.failed + (if o.success then 0 else 1), b.skipped)
  }

  function Loop(lib: Lib, versions: Versions, rs: RuleSet, store: Store, subs: seq<nat>, dryRun: bool): Bulk {
    if subs == [] then Bulk(store, [], 0, 0, 0)
    else Turn(lib, versions, rs, Loop(lib, versions, rs, store, subs[..|subs| - 1], dryRun), subs[|subs| - 1], dryRun)
  }

  /** `bulk_migrate` for a published rule set */
  function Run(lib: Lib, versions: Versions, rs: RuleSet, store: Store, ids: seq<nat>, listing: seq<nat>, dryRun: bool): Bulk {
    Loop(lib, versions, rs, store, Selection(store, rs, ids, listing), dryRun)
  }

  lemma LoopUnfolds(lib: Lib, versions: Versions, rs: RuleSet, store: Store, subs: seq<nat>, i: nat, dryRun: bool)
    requires i < |subs|
    ensures Loop(lib, versions, rs, store, subs[..i + 1], dryRun) ==
            Turn(lib, versions, rs, Loop(lib, versions, rs, store, subs[..i], dryRun), subs[i], dryRun)
  {
    hide Turn;
    assert subs[..i + 1][..i] == subs[..i];
  }

  datatype Report = NotPublished | Done(total: nat, succeeded: nat, failed: nat, skipped: nat, results: seq<Outcome>)

  method MigrateAll(lib: Lib, db: AnswerDatabase, rs: RuleSet, ids: seq<nat>, listing: seq<nat>, dryRun: bool)
      returns (report: Report)
    modifies db
    ensures !rs.published ==> report == NotPublished && db.View() == old(db.View())
    ensures rs.published ==>
              var b := Run(lib, db.versions, rs, old(db.View()), ids, listing, dryRun);
              && db.View() == b.store
              && report == Done(|b.results|, b.succeeded, b.failed, b.skipped, b.results)
  {
    hide Apply;
    if !rs.published {
      return NotPublished;
    }
    var subs := Selection(db.View(), rs, ids, listing);
    var results: seq<Outcome> := [];
    var succeeded, failed, skipped := 0, 0, 0;
    for i := 0 to |subs|
      invariant Bulk(db.View(), results, succeeded, failed, skipped) ==
                Loop(lib, db.versions, rs, old(db.View()), subs[..i], dryRun)
      invariant |results| == i
    {
      LoopUnfolds(lib, db.versions, rs, old(db.View()), subs, i, dryRun);
      hide Loop;
      if subs[i] in db.subs && !Migratable(db.subs[subs[i]].status) {
        skipped := skipped + 1;
        results := results + [Outcome(subs[i], false, [], 0)];
        continue;
      }
      var result := db.ApplyRuleSet(lib, rs, subs[i], dryRun);
      var o := OutcomeOf(subs[i], result);
      results := results + [o];
      if o.success {
        succeeded := succeeded + 1;
      } else {
        failed := failed + 1;
      }
    }
    assert subs[..|subs|] == subs;
    report := Done(|subs|, succeeded, failed, skipped, results);
  }

  // ----- the counters -----

  function Successes(results: seq<Outcome>): nat {
    if results == [] then 0
    else Successes(results[..|results| - 1]) + if results[|results| - 1].success then 1 else 0
  }

  lemma TurnCounts(lib: Lib, versions: Versions, rs: RuleSet, b: Bulk, sub: nat, dryRun: bool)
    ensures var b' := Turn(lib, versions, rs, b, sub, dryRun);
            exists o :: b'.results == b.results + [o] && o.sub == sub
                     && b'.succeeded == b.succeeded + (if o.success then 1 else 0)
                     && b'.succeeded + b'.failed + b'.skipped == b.succeeded + b.failed + b.skipped + 1
  {
    hide Apply;
    var o := if sub in b.store.subs && !Migratable(b.store.subs[sub].status) then Outcome(sub, false, [], 0)
             else OutcomeOf(sub, Apply(lib, versions, rs, b.store, sub, dryRun).1);
    assert Turn(lib, versions, rs, b, sub, dryRun).results == b.results + [o];
  }

  /** Every selected submission gets one result, and the counters add up to their number. */
  lemma {:induction false} Totals(lib: Lib, versions: Versions, rs: RuleSet, store: Store, subs: seq<nat>, dryRun: bool)
    ensures var b := Loop(lib, versions, rs, store, subs, dryRun);
            && |b.results| == |subs| == b.succeeded + b.failed + b.skipped
            && b.succeeded == Successes(b.results)
            && forall i :: 0 <= i < |subs| ==> b.results[i].sub == subs[i]
  {
    hide Turn;
    if subs != [] {
      var before := Loop(lib, versions, rs, store, subs[..|subs| - 1], dryRun);
      Totals(lib, versions, rs, store, subs[..|subs| - 1], dryRun);
      TurnCounts(lib, versions, rs, before, subs[|subs| - 1], dryRun);
      var b := Loop(lib, versions, rs, store, subs, dryRun);
      assert b.results[..|before.results|] == before.results;
    }
  }

  // ----- each submission is judged by its own rows -----

  /** The migration of a submission from the rows it has in this store. */
  function MigrationIn(lib: Lib, versions: Versions, rs: RuleSet, store: Store, sub: nat): Migration {
    Migrate(lib, versions, rs, sub, RowsOf(store.rows, sub))
  }

  /** The store still has the rows and the record that the submission had. */
  predicate SameFor(store: Store, store': Store, sub: nat) {
    && RowsOf(store'.rows, sub) == RowsOf(store.rows, sub)
    && sub in store.subs && sub in store'.subs && store'.subs[sub] == store.subs[sub]
  }

  /** The record of a published rule set's result: success exactly for a faultless migration. */
  function Judged(m: Migration, sub: nat): Outcome {
    if m.Completes? then
      Outcome(sub, Faultless(m), RuleErrors(m.progress.errors) + InvalidErrors(m.invalid), m.progress.warnings)
    else Outcome(sub, false, [], 0)
  }

  lemma TurnJudges(lib: Lib, versions: Versions, rs: RuleSet, b: Bulk, sub: nat, dryRun: bool)
    requires rs.published && sub in b.store.subs && Migratable(b.store.subs[sub].status)
    ensures var b' := Turn(lib, versions, rs, b, sub, dryRun);
            var o := Judged(MigrationIn(lib, versions, rs, b.store, sub), sub);
            && b'.results == b.results + [o]
            && b'.succeeded == b.succeeded + (if o.success then 1 else 0)
            && b'.failed == b.failed + (if o.success then 0 else 1)
            && b'.skipped == b.skipped
            && b'.store == Apply(lib, versions, rs, b.store, sub, dryRun).0
  {
    hide Migrate, RowsOf, Switched;
  }

  /** The loop leaves alone the submissions it has not come to yet. */
  lemma {:induction false} LoopKeepsOthers(lib: Lib, versions: Versions, rs: RuleSet, store: Store, subs: seq<nat>,
                                           dryRun: bool, other: nat)
    requires other !in subs && other in store.subs
    ensures SameFor(store, Loop(lib, versions, rs, store, subs, dryRun).store, other)
  {
    hide Apply, RowsOf;
    if subs != [] {
      var n := |subs| - 1;
      assert subs[n] in subs;
      LoopKeepsOthers(lib, versions, rs, store, subs[..n], dryRun, other);
      OthersUntouched(lib, versions, rs, Loop(lib, versions, rs, store, subs[..n], dryRun).store, subs[n], dryRun, other);
    }
  }

  function JudgedAll(lib: Lib, versions: Versions, rs: RuleSet, store: Store, subs: seq<nat>): seq<Outcome> {
    seq(|subs|, i requires 0 <= i < |subs| => Judged(MigrationIn(lib, versions, rs, store, subs[i]), subs[i]))
  }

  /** Dry or real, the results are the judgements of the submissions as they were before the run. */
  lemma {:induction false} ResultsJudged(lib: Lib, versions: Versions, rs: RuleSet, store: Store, subs: seq<nat>, dryRun: bool)
    requires rs.published && NoDuplicates(subs)
    requires forall s :: s in subs ==> s in store.subs && Migratable(store.subs[s].status)
    ensures var b := Loop(lib, versions, rs, store, subs, dryRun);
            && b.results == JudgedAll(lib, versions, rs, store, subs)
            && b.skipped == 0
  {
    hide Apply, RowsOf, Migrate, Judged, Turn;
    if subs != [] {
      var n := |subs| - 1;
      var s, init := subs[n], subs[..n];
      assert subs == init + [s];
      ResultsJudged(lib, versions, rs, store, init, dryRun);
      var b := Loop(lib, versions, rs, store, init, dryRun);
      LoopKeepsOthers(lib, versions, rs, store, init, dryRun, s);
      TurnJudges(lib, versions, rs, b, s, dryRun);
      assert MigrationIn(lib, versions, rs, b.store, s) == MigrationIn(lib, versions, rs, store, s);
      assert JudgedAll(lib, versions, rs, store, subs) ==
             JudgedAll(lib, versions, rs, store, init) + [Judged(MigrationIn(lib, versions, rs, store, s), s)];
    }
  }

  /** A dry run reports exactly what the real run then reports, and leaves answers and versions alone. */
  lemma DryRunPredicts(lib: Lib, versions: Versions, rs: RuleSet, store: Store, ids: seq<nat>, listing: seq<nat>)
    requires rs.published && NoDuplicates(listing)
    ensures var dry := Run(lib, versions, rs, store, ids, listing, true);
            var actual := Run(lib, versions, rs, store, ids, listing, false);
            && dry.results == actual.results
            && dry.succeeded == actual.succeeded && dry.failed == actual.failed && dry.skipped == actual.skipped == 0
            && dry.store.rows == store.rows && dry.store.subs == store.subs
  {
    hide Loop, JudgedAll, Selection;
    var subs := Selection(store, rs, ids, listing);
    ResultsJudged(lib, versions, rs, store, subs, true);
    ResultsJudged(lib, versions, rs, store, subs, false);
    Totals(lib, versions, rs, store, subs, true);
    Totals(lib, versions, rs, store, subs, false);
    DryLoop(lib, versions, rs, store, subs);
  }

  lemma {:induction false} DryLoop(lib: Lib, versions: Versions, rs: RuleSet, store: Store, subs: seq<nat>)
    ensures var b := Loop(lib, versions, rs, store, subs, true);
            b.store.rows == store.rows && b.store.subs == store.subs
  {
    hide Apply, RowsOf, Migrate;
    if subs != [] {
      var n := |subs| - 1;
      DryLoop(lib, versions, rs, store, subs[..n]);
      AllOrNothing(lib, versions, rs, Loop(lib, versions, rs, store, subs[..n], true).store, subs[n], true);
    }
  }

  // ----- a second run -----

  /** None of these submissions would be switched. */
  predicate AllInert(lib: Lib, versions: Versions, rs: RuleSet, store: Store, subs: seq<nat>) {
    forall s :: s in subs ==> !Switches(MigrationIn(lib, versions, rs, store, s))
  }

  lemma {:induction false} InertLoop(lib: Lib, versions: Versions, rs: RuleSet, store: Store, subs: seq<nat>)
    requires AllInert(lib, versions, rs, store, subs)
    ensures var b := Loop(lib, versions, rs, store, subs, false);
            b.store.rows == store.rows && b.store.subs == store.subs
  {
    hide Apply, RowsOf, Migrate;
    if subs != [] {
      var n := |subs| - 1;
      assert subs == subs[..n] + [subs[n]];
      InertLoop(lib, versions, rs, store, subs[..n]);
      assert subs[n] in subs && !Switches(MigrationIn(lib, versions, rs, store, subs[n]));
      AllOrNothing(lib, versions, rs, Loop(lib, versions, rs, store, subs[..n], false).store, subs[n], false);
    }
  }

  /** After a real run a submission of the list has switched to the target, or is as it was. */
  lemma {:induction false} LoopSwitches(lib: Lib, versions: Versions, rs: RuleSet, store: Store, subs: seq<nat>, s: nat)
    requires rs.published && NoDuplicates(subs) && s in subs
    requires forall x :: x in subs ==> x in store.subs && Migratable(store.subs[x].status)
    ensures var store' := Loop(lib, versions, rs, store, subs, false).store;
            if Switches(MigrationIn(lib, versions, rs, store, s)) then
              s in store'.subs && store'.subs[s].version == rs.target
            else SameFor(store, store', s)
  {
    hide Apply, RowsOf, Migrate, Judged;
    var n := |subs| - 1;
    var init, last := subs[..n], subs[n];
    assert subs == init + [last];
    var b := Loop(lib, versions, rs, store, init, false);
    if s == last {
      LoopKeepsOthers(lib, versions, rs, store, init, false, s);
      AllOrNothing(lib, versions, rs, b.store, s, false);
      assert MigrationIn(lib, versions, rs, b.store, s) == MigrationIn(lib, versions, rs, store, s);
    } else {
      LoopSwitches(lib, versions, rs, store, init, s);
      OthersUntouched(lib, versions, rs, b.store, last, false, s);
    }
  }

  /** What a second real run selects was selected before and refused to switch. */
  lemma SecondSelection(lib: Lib, versions: Versions, rs: RuleSet, store: Store, ids: seq<nat>, listing: seq<nat>, s: nat)
    requires rs.published && rs.source != rs.target && NoDuplicates(listing)
    requires var store' := Run(lib, versions, rs, store, ids, listing, false).store;
             s in Selection(store', rs, ids, listing)
    requires s in store.subs
    ensures var store' := Run(lib, versions, rs, store, ids, listing, false).store;
            SameFor(store, store', s) && !Switches(MigrationIn(lib, versions, rs, store, s))
  {
    hide Apply, RowsOf, Migrate, Loop;
    var subs := Selection(store, rs, ids, listing);
    if s in subs {
      LoopSwitches(lib, versions, rs, store, subs, s);
    } else {
      LoopKeepsOthers(lib, versions, rs, store, subs, false, s);
    }
  }

  lemma {:induction false} LoopKeepsKeys(lib: Lib, versions: Versions, rs: RuleSet, store: Store, subs: seq<nat>, dryRun: bool)
    ensures Loop(lib, versions, rs, store, subs, dryRun).store.subs.Keys == store.subs.Keys
  {
    hide Apply, RowsOf, Migrate;
    if subs != [] {
      var n := |subs| - 1;
      LoopKeepsKeys(lib, versions, rs, store, subs[..n], dryRun);
      OthersUntouched(lib, versions, rs, Loop(lib, versions, rs, store, subs[..n], dryRun).store, subs[n], dryRun, subs[n] + 1);
    }
  }

  /** A second real run changes no answer and no version, and reports no success. */
  lemma SecondRunIdle(lib: Lib, versions: Versions, rs: RuleSet, store: Store, ids: seq<nat>, listing: seq<nat>)
    requires rs.published && rs.source != rs.target && NoDuplicates(listing)
    ensures var first := Run(lib, versions, rs, store, ids, listing, false);
            var second := Run(lib, versions, rs, first.store, ids, listing, false);
            && second.store.rows == first.store.rows && second.store.subs == first.store.subs
            && second.succeeded == 0
  {
    hide Apply, RowsOf, Migrate, Loop, Selection, JudgedAll;
    var first := Run(lib, versions, rs, store, ids, listing, false);
    var subs := Selection(first.store, rs, ids, listing);
    LoopKeepsKeys(lib, versions, rs, store, Selection(store, rs, ids, listing), false);
    forall s | s in subs ensures !Switches(MigrationIn(lib, versions, rs, first.store, s)) {
      SecondSelection(lib, versions, rs, store, ids, listing, s);
    }
    InertLoop(lib, versions, rs, first.store, subs);
    ResultsJudged(lib, versions, rs, first.store, subs, false);
    Totals(lib, versions, rs, first.store, subs, false);
    InertFail(lib, versions, rs, first.store, subs, |subs|);
  }

  lemma {:induction false} InertFail(lib: Lib, versions: Versions, rs: RuleSet, store: Store, subs: seq<nat>, n: nat)
    requires AllInert(lib, versions, rs, store, subs) && n <= |subs|
    ensures Successes(JudgedAll(lib, versions, rs, store, subs)[..n]) == 0
    ensures JudgedAll(lib, versions, rs, store, subs)[..|subs|] == JudgedAll(lib, versions, rs, store, subs)
  {
    hide Migrate, RowsOf;
    if n > 0 {
      InertFail(lib, versions, rs, store, subs, n - 1);
      var all := JudgedAll(lib, versions, rs, store, subs);
      assert all[..n][..n - 1] == all[..n - 1];
      assert subs[n - 1] in subs;
    }
  }

  // ----- who is migrated -----

  /** The run has a result for a submission if and only if the database lists it, it is a draft or returned, it is at the
      source version, and it is asked for, where an empty list of ids asks for everything. */
  lemma ReportedIff(lib: Lib, versions: Versions, rs: RuleSet, store: Store, ids: seq<nat>, listing: seq<nat>, dryRun: bool, s: nat)
    ensures (exists o :: o in Run(lib, versions, rs, store, ids, listing, dryRun).results && o.sub == s) <==>
            && s in listing && s in store.subs
            && (store.subs[s].status.Draft? || store.subs[s].status.Returned?)
            && store.subs[s].version == rs.source
            && (|ids| == 0 || exists i :: 0 <= i < |ids| && ids[i] == s)
  {
    var subs := Selection(store, rs, ids, listing);
    Totals(lib, versions, rs, store, subs, dryRun);
    hide Selection, Loop;
    var results := Run(lib, versions, rs, store, ids, listing, dryRun).results;
    assert s in subs <==> s in listing && Selects(store, rs, ids, s);
    if s in subs {
      var i :| 0 <= i < |subs| && subs[i] == s;
      assert results[i] in results && results[i].sub == s;
    }
    if o :| o in results && o.sub == s {
      var i :| 0 <= i < |results| && results[i] == o;
      assert subs[i] == s;
    }
  }
}
