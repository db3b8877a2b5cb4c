/**
  A whole verification run as a sequence of calls (app/services/verifications/service.py). Every call brings
  its own context, because the submission and the flow configuration are loaded afresh each time.
 */
module VerificationRuns {
  import opened Prelude
  import opened PyStrings
  import opened Json
  import opened VerificationModel
  import opened VerificationScheduler
  import opened VerificationAdvance
  import opened VerificationDecision

  datatype RunStatus = RunPending | RunInProgress | RunWaiting | RunCompleted | RunFailed | RunManualReview

  datatype Run = Run(
    order: seq<string>,            // listing order of the step rows
    rows: Rows,
    status: RunStatus,
    active: bool,
    currentStep: Option<string>,
    verdict: Option<Verdict>,      // decision, kyc_level and result_snapshot
    facts: Option<Json>,           // facts_snapshot
    deferred: bool,                // deferred_until is set
    completed: bool)               // completed_at is set

  /** The run that `start_verification` creates together with its step rows. */
  function NewRun(plan: Plan, order: seq<string>): Run {
    Run(order, map k | k in plan :: NewStep(plan[k]), RunPending, true, None, None, None, false, false)
  }

  /** An entry of the configured step list; the rest of a dict is its definition with whatever key. */
  datatype StepEntry = NotAStep | StepEntry(key: Json, rest: StepDef)

  /** `str(step.get("key") or "").strip()` */
  function EntryKey(lib: Lib, e: StepEntry): string
    requires e.StepEntry?
  {
    Strip(TextOr(lib, e.key, ""))
  }

  /** The steps that `_initialize_steps` creates. None stands for the exception of an empty key, or of a repeated
      one, which the unique constraint of the table refuses. */
  function Planned(lib: Lib, entries: seq<StepEntry>): Option<seq<StepDef>> {
    if entries == [] then Some([])
    else
      var before, e := Planned(lib, entries[..|entries| - 1]), entries[|entries| - 1];
      if before.None? || e.NotAStep? then before
      else if EntryKey(lib, e) == "" || (exists d :: d in before.value && d.key == EntryKey(lib, e)) then None
      else Some(before.value + [e.rest.(key := EntryKey(lib, e))])
  }

  function KeysOf(defs: seq<StepDef>): seq<string> {
    seq(|defs|, i requires 0 <= i < |defs| => defs[i].key)
  }

  function PlanFrom(defs: seq<StepDef>): Plan {
    if defs == [] then map[] else PlanFrom(defs[..|defs| - 1])[defs[|defs| - 1].key := defs[|defs| - 1]]
  }

  /** The keys of the steps created are distinct and not empty, and each step is found under its own. */
  lemma {:induction false} PlannedKeys(lib: Lib, entries: seq<StepEntry>)
    requires Planned(lib, entries).Some?
    ensures var defs := Planned(lib, entries).value;
            && NoDuplicates(KeysOf(defs)) && "" !in KeysOf(defs)
            && (forall k :: k in KeysOf(defs) <==> k in PlanFrom(defs))
            && (forall i :: 0 <= i < |defs| ==> defs[i].key in PlanFrom(defs) && PlanFrom(defs)[defs[i].key] == defs[i])
  {
    hide EntryKey;
    if entries != [] {
      PlannedKeys(lib, entries[..|entries| - 1]);
      var before := Planned(lib, entries[..|entries| - 1]).value;
      if entries[|entries| - 1].StepEntry? {
        PlanNext(before, Planned(lib, entries).value[|before|]);
      }
    }
  }

  lemma PlanNext(defs: seq<StepDef>, d: StepDef)
    requires NoDuplicates(KeysOf(defs)) && "" !in KeysOf(defs) && d.key != "" && forall x :: x in defs ==> x.key != d.key
    requires forall k :: k in KeysOf(defs) <==> k in PlanFrom(defs)
    requires forall i :: 0 <= i < |defs| ==> defs[i].key in PlanFrom(defs) && PlanFrom(defs)[defs[i].key] == defs[i]
    ensures var more := defs + [d];
            && NoDuplicates(KeysOf(more)) && "" !in KeysOf(more)
            && (forall k :: k in KeysOf(more) <==> k in PlanFrom(more))
            && (forall i :: 0 <= i < |more| ==> more[i].key in PlanFrom(more) && PlanFrom(more)[more[i].key] == more[i])
  {
    var more := defs + [d];
    assert more[..|defs|] == defs;
    assert KeysOf(more) == KeysOf(defs) + [d.key];
    forall i | 0 <= i < |defs| ensures KeysOf(defs)[i] != d.key {
      assert defs[i] in defs;
    }
  }

  /** The entries that are dicts. */
  function Dicts(entries: seq<StepEntry>): (dicts: seq<StepEntry>)
    ensures forall i :: 0 <= i < |dicts| ==> dicts[i].StepEntry?
  {
    if entries == [] then []
    else
      var before := Dicts(entries[..|entries| - 1]);
      if entries[|entries| - 1].StepEntry? then before + [entries[|entries| - 1]] else before
  }

  /** Every dict has a key, and no two have the same. */
  predicate ProperKeys(lib: Lib, dicts: seq<StepEntry>)
    requires forall i :: 0 <= i < |dicts| ==> dicts[i].StepEntry?
  {
    && (forall i :: 0 <= i < |dicts| ==> EntryKey(lib, dicts[i]) != "")
    && forall i, j :: 0 <= i < j < |dicts| ==> EntryKey(lib, dicts[i]) != EntryKey(lib, dicts[j])
  }

  lemma ProperNext(lib: Lib, dicts: seq<StepEntry>, e: StepEntry)
    requires e.StepEntry? && forall i :: 0 <= i < |dicts| ==> dicts[i].StepEntry?
    ensures ProperKeys(lib, dicts + [e]) <==>
            && ProperKeys(lib, dicts) && EntryKey(lib, e) != ""
            && forall i :: 0 <= i < |dicts| ==> EntryKey(lib, dicts[i]) != EntryKey(lib, e)
  {
    hide EntryKey;
    var more := dicts + [e];
    assert forall i :: 0 <= i < |dicts| ==> more[i] == dicts[i];
    assert more[|dicts|] == e;
  }

  /** The definitions that the dicts give, in order. */
  predicate DefinedBy(lib: Lib, defs: seq<StepDef>, dicts: seq<StepEntry>)
    requires forall i :: 0 <= i < |dicts| ==> dicts[i].StepEntry?
  {
    |defs| == |dicts| && forall i :: 0 <= i < |defs| ==> defs[i] == dicts[i].rest.(key := EntryKey(lib, dicts[i]))
  }

  lemma TakenBy(lib: Lib, defs: seq<StepDef>, dicts: seq<StepEntry>, key: string)
    requires forall i :: 0 <= i < |dicts| ==> dicts[i].StepEntry?
    requires DefinedBy(lib, defs, dicts)
    ensures (exists d :: d in defs && d.key == key) <==> exists i :: 0 <= i < |dicts| && EntryKey(lib, dicts[i]) == key
  {
    hide EntryKey;
    if d :| d in defs && d.key == key {
      var i :| 0 <= i < |defs| && defs[i] == d;
      assert EntryKey(lib, dicts[i]) == key;
    }
    if i :| 0 <= i < |dicts| && EntryKey(lib, dicts[i]) == key {
      assert defs[i] in defs && defs[i].key == key;
    }
  }

  /** Steps are created if and only if the keys of all dicts are distinct and not empty, and then one for each of them,
      in order, with the definition it gives. */
  lemma {:induction false} PlannedIff(lib: Lib, entries: seq<StepEntry>)
    ensures Planned(lib, entries).Some? <==> ProperKeys(lib, Dicts(entries))
    ensures Planned(lib, entries).Some? ==> DefinedBy(lib, Planned(lib, entries).value, Dicts(entries))
  {
    hide EntryKey, ProperKeys;
    if entries == [] {
      assert ProperKeys(lib, []) by { NoKeysProper(lib); }
    } else {
      PlannedIff(lib, entries[..|entries| - 1]);
      var e, dicts := entries[|entries| - 1], Dicts(entries[..|entries| - 1]);
      var before := Planned(lib, entries[..|entries| - 1]);
      if e.StepEntry? {
        ProperNext(lib, dicts, e);
        if before.Some? {
          TakenBy(lib, before.value, dicts, EntryKey(lib, e));
        }
      }
    }
  }

  lemma NoKeysProper(lib: Lib)
    ensures ProperKeys(lib, [])
  {
  }

  function FirstWaiting(rows: Rows, order: seq<string>): (w: Option<string>)
    ensures w.Some? ==> w.value in order && w.value in rows && Waiting(rows[w.value])
    ensures w.None? ==> forall k :: k in order && k in rows ==> !Waiting(rows[k])
  {
    if order == [] then None
    else if order[0] in rows && Waiting(rows[order[0]]) then Some(order[0])
    else FirstWaiting(rows, order[1..])
  }

  /** It is the first in the listing order. */
  lemma {:induction false} FirstWaitingIsFirst(rows: Rows, order: seq<string>) returns (i: nat)
    requires FirstWaiting(rows, order).Some?
    ensures i < |order| && order[i] == FirstWaiting(rows, order).value
    ensures forall j :: 0 <= j < i && order[j] in rows ==> !Waiting(rows[order[j]])
  {
    if order[0] in rows && Waiting(rows[order[0]]) {
      i := 0;
    } else {
      var k := FirstWaitingIsFirst(rows, order[1..]);
      i := k + 1;
    }
  }

  predicate AllTerminal(rows: Rows) {
    forall k :: k in rows ==> Terminal(rows[k])
  }

  function StatusOf(decision: string): RunStatus {
    if decision == "approved" then RunCompleted
    else if decision == "rejected" then RunFailed
    else RunManualReview
  }

  function DecisionText(run: Run): Json {
    if run.verdict.Some? then Str(run.verdict.value.decision) else Null
  }

  function LevelText(run: Run): Json {
    if run.verdict.Some? then Str(run.verdict.value.kycLevel) else Null
  }

  function RunStatusText(s: RunStatus): string {
    match s
    case RunPending => "pending"
    case RunInProgress => "in_progress"
    case RunWaiting => "waiting_user_action"
    case RunCompleted => "completed"
    case RunFailed => "failed"
    case RunManualReview => "manual_review"
  }

  /** The document written to the submission's computed_data["verification"]. */
  function Summary(id: string, run: Run): Json {
    Obj(map[
      "run_id" := Str(id),
      "status" := Str(RunStatusText(run.status)),
      "decision" := DecisionText(run),
      "kyc_level" := LevelText(run),
      "steps" := Obj(map k | k in run.rows ::
        Obj(map["status" := Str(StatusText(run.rows[k].status)),
                "outcome" := OutcomeText(run.rows[k].outcome),
                "result" := Obj(run.rows[k].result)]))])
  }

  /** The document written to validation_results["decision"]. */
  function Payload(v: Verdict): Json {
    Obj(map[
      "decision" := Str(v.decision),
      "kyc_level" := Str(v.kycLevel),
      "matched_rule" := if v.matchedRule.Some? then Num(v.matchedRule.value as real) else Null,
      "reason_codes" := Arr(seq(|v.reasons|, i requires 0 <= i < |v.reasons| => Str(v.reasons[i])))])
  }

  /** The last part of `_finalize_run`: every step is terminal and the rules decide. */
  function Conclude(ctx: Context, run: Run): Run {
    var facts := Facts(ctx.submission, run.rows);
    var verdict := Decide(ctx.lib, ctx.flow, facts);
    run.(status := StatusOf(verdict.decision), active := false,
         facts := Some(facts), verdict := Some(verdict), completed := true)
  }

  /** `_finalize_run` */
  function Finalize(ctx: Context, run: Run): Run {
    var waiting := FirstWaiting(run.rows, run.order);
    if waiting.Some? then run.(status := RunWaiting, currentStep := waiting, active := true)
    else if !AllTerminal(run.rows) then run.(status := RunInProgress, currentStep := None, active := true)
    else Conclude(ctx, run.(currentStep := None))
  }

  /** What finalizing leaves on the submission: the run's summary and its decision. */
  predicate SummaryWritten(id: string, run: Run, before: Submission, after: Submission) {
    && run.verdict.Some?
    && after == before.(
         computedData := before.computedData["verification" := Summary(id, run)],
         validation := before.validation["decision" := Payload(run.verdict.value)])
  }

  /** `_advance_run` */
  function Advance(ctx: Context, run: Run): Run {
    Finalize(ctx, run.(rows := AdvanceRows(ctx, run.rows, run.order), deferred := false))
  }

  // ----- calls -----

  datatype Operation =
    | Start(deferral: bool)            // start_verification on this run
    | Act(key: string, code: Json)     // submit_step_action without Temporal
    | ActivityAdvance                  // advance_verification_run_in_tenant
    | ActivityAct(key: string, code: Json)  // apply_verification_action_in_tenant

  datatype Call = Call(ctx: Context, op: Operation)

  /** The row after an action on a waiting step; None when the action is refused. */
  function ActedRow(ctx: Context, run: Run, key: string, code: Json): Option<Step> {
    if key !in run.rows || !Waiting(run.rows[key]) then None
    else
      match ApplyUserAction(ctx, run.rows[key], code)
      case Rejected => None
      case Applied(s) => Some(s)
  }

  /** The run after the action phase of a call: an accepted action replaces its row. */
  function Acted(run: Run, call: Call): Run {
    match call.op
    case Act(key, code) =>
      var row := ActedRow(call.ctx, run, key, code);
      if !run.active || row.None? then run else run.(rows := run.rows[key := row.value])
    case ActivityAct(key, code) =>
      var row := ActedRow(call.ctx, run, key, code);
      if row.None? then run else run.(rows := run.rows[key := row.value])
    case _ => run
  }

  /** The call goes on to advance the run. */
  predicate Advances(run: Run, call: Call) {
    match call.op
    case Start(deferral) => run.active && !deferral
    case Act(key, code) => run.active && ActedRow(call.ctx, run, key, code).Some?
    case ActivityAdvance => true
    case ActivityAct(_, _) => false
  }

  /** One call on this run. Starting a run that is no longer active creates another run and leaves this one alone. */
  function Perform(run: Run, call: Call): Run {
    if call.op == Start(true) && run.active then run.(status := RunPending, currentStep := None, deferred := true)
    else if Advances(run, call) then Advance(call.ctx, Acted(run, call))
    else Acted(run, call)
  }

  function Replay(run: Run, calls: seq<Call>): Run {
    if calls == [] then run else Perform(Replay(run, calls[..|calls| - 1]), calls[|calls| - 1])
  }

  /** The call is a user action on this step and is carried out. */
  predicate ActsOn(run: Run, call: Call, key: string) {
    match call.op
    case Act(k, code) => k == key && run.active && ActedRow(call.ctx, run, k, code).Some?
    case ActivityAct(k, code) => k == key && ActedRow(call.ctx, run, k, code).Some?
    case _ => false
  }

  predicate Accepted(run: Run, call: Call) {
    (call.op.Act? || call.op.ActivityAct?) && ActsOn(run, call, call.op.key)
  }

  /** The code the step's adapter expects at this moment. */
  predicate RightCode(ctx: Context, s: Step, code: Json) {
    code.Str? && ExpectedCode(ctx, s) == Some(Strip(code.s))
  }

  /** The accepted action carried the code that was expected at that moment. */
  predicate CorrectCode(run: Run, call: Call, key: string) {
    ActsOn(run, call, key) && RightCode(call.ctx, run.rows[key], call.op.code)
  }

  // ----- invariant -----

  function Budget(def: StepDef): nat {
    if def.config.maxAttempts < 1 then 1 else def.config.maxAttempts
  }

  predicate StepSound(s: Step) {
    && (Startable(s) ==> s.status.Pending? && s.attempts == 0 && s.outcome.None?)
    && (Waiting(s) ==>
          && s.def.stepType.ChallengeResponse? && !s.def.adapter.OtherAdapter?
          && s.attempts < Budget(s.def)
          && s.outcome != Some(Pass))
    && s.attempts <= Budget(s.def)
  }

  ghost predicate RowsSound(order: seq<string>, rows: Rows) {
    && Lists(order, rows)
    && WellStarted(rows)
    && StartedGrounded(rows)
    && forall k :: k in rows ==> StepSound(rows[k])
  }

  ghost predicate Sound(run: Run) {
    RowsSound(run.order, run.rows) && (!run.active ==> AllTerminal(run.rows))
  }

  lemma NewRunSound(plan: Plan, order: seq<string>)
    requires NoDuplicates(order) && forall k :: k in order <==> k in plan
    ensures Sound(NewRun(plan, order)) && PlanOf(NewRun(plan, order).rows) == plan
  {
    var rows := NewRun(plan, order).rows;
    assert forall k :: k in rows ==> Startable(rows[k]);
  }

  lemma {:induction false} ScheduleSteps(ctx: Context, rows: Rows, ks: seq<string>)
    requires Schedule(ctx, rows, ks) && forall k :: k in rows ==> StepSound(rows[k])
    ensures var rows' := After(ctx, rows, ks);
            && (forall k :: k in rows' ==> StepSound(rows'[k]))
            && (forall k :: k in rows && Startable(rows[k]) && k in rows' ==> rows'[k].attempts == 0)
            && (forall k :: k in rows && k in rows' && rows[k].def.stepType.ChallengeResponse? ==>
                  (rows'[k].outcome == Some(Pass) ==> rows[k].outcome == Some(Pass)))
    decreases |ks|
  {
    hide Execute, WellStarted, DepsSatisfied;
    if ks != [] {
      var k := ks[0];
      ExecuteStarts(ctx, rows, rows[k]);
      FireKeeps(ctx, rows, k);
      var mid := Fire(ctx, rows, k);
      assert StepSound(mid[k]) by { StartedSound(rows[k], mid[k]); }
      assert forall x :: x in mid && x != k ==> mid[x] == rows[x];
      ScheduleSteps(ctx, mid, ks[1..]);
      ScheduleKeeps(ctx, mid, ks[1..]);
    }
  }

  lemma StartedSound(s: Step, t: Step)
    requires StepSound(s) && Startable(s) && Started(s, t)
    ensures StepSound(t)
  {
  }

  /** Advancing the rows of a sound run. */
  lemma AdvanceRowsSound(ctx: Context, run: Run)
    requires Sound(run)
    ensures var rows := AdvanceRows(ctx, run.rows, run.order);
            && Keeps(run.rows, rows) && Quiescent(rows)
            && RowsSound(run.order, rows)
            && (forall k :: k in rows && k in run.rows && Startable(run.rows[k]) ==> rows[k].attempts == 0)
            && (forall k :: k in rows && k in run.rows && rows[k].def.stepType.ChallengeResponse? ==>
                  (rows[k].outcome == Some(Pass) ==> run.rows[k].outcome == Some(Pass)))
  {
    var ks := AdvanceCompletes(ctx, run.rows, run.order);
    ScheduleKeeps(ctx, run.rows, ks);
    ScheduleGrounds(ctx, run.rows, ks);
    ScheduleSteps(ctx, run.rows, ks);
    SameKeys(run.rows, AdvanceRows(ctx, run.rows, run.order));
  }

  lemma SameKeys(rows: Rows, rows': Rows)
    requires PlanOf(rows) == PlanOf(rows')
    ensures rows.Keys == rows'.Keys
    ensures forall k :: k in rows ==> rows[k].def == rows'[k].def
  {
    assert rows.Keys == PlanOf(rows).Keys && rows'.Keys == PlanOf(rows').Keys;
    forall k | k in rows ensures rows[k].def == rows'[k].def {
      assert PlanOf(rows)[k] == PlanOf(rows')[k];
    }
  }

  lemma FinalizeFrame(ctx: Context, run: Run)
    ensures var run' := Finalize(ctx, run);
            && run'.rows == run.rows && run'.order == run.order
            && (!run'.active ==> AllTerminal(run.rows))
  {
  }

  lemma AdvanceSound(ctx: Context, run: Run)
    requires Sound(run)
    ensures Sound(Advance(ctx, run)) && PlanOf(Advance(ctx, run).rows) == PlanOf(run.rows)
  {
    AdvanceRowsSound(ctx, run);
    FinalizeFrame(ctx, run.(rows := AdvanceRows(ctx, run.rows, run.order), deferred := false));
  }

  /** What an action that is carried out does to its step: one attempt is spent, and only a right code passes. */
  ghost predicate Spends(s: Step, t: Step, right: bool) {
    && t.def == s.def && t.attempts == s.attempts + 1 && !Startable(t) && StepSound(t)
    && (Waiting(t) ==> t.attempts < s.def.config.maxAttempts)
    && (t.outcome == Some(Pass) <==> right)
  }

  lemma ActionStep(ctx: Context, s: Step, code: Json)
    requires Waiting(s) && StepSound(s) && ApplyUserAction(ctx, s, code).Applied?
    ensures Spends(s, ApplyUserAction(ctx, s, code).step, RightCode(ctx, s, code))
  {
    match s.def.adapter
    case DemoPhoneOtp => PhoneSpends(ctx.lib, s, code.s);
    case DemoFaydaOtp =>
      var profile := ProfileNow(ctx, Counted(s));
      assert profile == ProfileNow(ctx, s);
      if profile.Obj? {
        FaydaSpends(ctx.lib, s, profile.fields, code.s);
      }
    case OtherAdapter =>
  }

  lemma PhoneSpends(lib: Lib, s: Step, code: string)
    requires Waiting(s) && StepSound(s)
    ensures Spends(s, PhoneAction(lib, Counted(s), code), Strip(code) == PhoneCode(lib, s.def.config))
  {
    RetrySpends(s);
    var (output, result) := PhoneAttributes(lib, Counted(s));
    PassSpends(s, output, result);
  }

  lemma FaydaSpends(lib: Lib, s: Step, profile: Fields, code: string)
    requires Waiting(s) && StepSound(s)
    ensures Spends(s, FaydaAction(lib, Counted(s), profile, code), Strip(code) == FaydaCode(lib, profile, s.def.config))
  {
    RetrySpends(s);
    var (output, result) := FaydaAttributes(lib, Counted(s), profile);
    PassSpends(s, output, result);
  }

  lemma RetrySpends(s: Step)
    requires Waiting(s) && StepSound(s)
    ensures Spends(s, RetryOrFail(Counted(s)), false)
  {
  }

  lemma PassSpends(s: Step, output: Fields, result: Fields)
    requires Waiting(s) && StepSound(s)
    ensures Spends(s, Passes(Counted(s), output, result), true)
  {
  }

  lemma ActionRowsSound(run: Run, key: string, t: Step)
    requires Sound(run) && key in run.rows && Waiting(run.rows[key])
    requires t.def == run.rows[key].def && !Startable(t) && StepSound(t)
    ensures var run' := run.(rows := run.rows[key := t]);
            && Sound(run') && PlanOf(run'.rows) == PlanOf(run.rows)
  {
    var rows := run.rows[key := t];
    assert PlanOf(rows) == PlanOf(run.rows);
    forall k | k in rows && !Startable(rows[k]) ensures DepsSatisfied(rows, rows[k].def) && Grounded(PlanOf(rows), k) {
      assert DepsSatisfied(run.rows, run.rows[k].def) && Grounded(PlanOf(run.rows), k);
    }
  }

  /** The action phase touches at most the row of the step acted on. */
  ghost predicate ActionPhase(run: Run, call: Call, run': Run) {
    && run'.order == run.order
    && run'.rows.Keys == run.rows.Keys
    && (forall k :: k in run.rows && !ActsOn(run, call, k) ==> run'.rows[k] == run.rows[k])
    && (forall k :: k in run.rows && ActsOn(run, call, k) ==>
          Waiting(run.rows[k]) && Spends(run.rows[k], run'.rows[k], RightCode(call.ctx, run.rows[k], call.op.code)))
  }

  lemma ActedShape(run: Run, call: Call)
    ensures forall k :: ActsOn(run, call, k) <==> Accepted(run, call) && k == call.op.key
    ensures !Accepted(run, call) ==> Acted(run, call) == run
    ensures Accepted(run, call) ==> call.op.Act? || call.op.ActivityAct?
    ensures Accepted(run, call) ==>
              var key, code := call.op.key, call.op.code;
              && key in run.rows && Waiting(run.rows[key])
              && ApplyUserAction(call.ctx, run.rows[key], code).Applied?
              && Acted(run, call) == run.(rows := run.rows[key := ApplyUserAction(call.ctx, run.rows[key], code).step])
  {
    hide ApplyUserAction;
  }

  /** A step action submitted through the service, spelled out. */
  lemma ActCall(run: Run, ctx: Context, key: string, code: Json)
    ensures var call := Call(ctx, Act(key, code));
            var carried := run.active && key in run.rows && Waiting(run.rows[key]) && ApplyUserAction(ctx, run.rows[key], code).Applied?;
            && ActsOn(run, call, key) == carried
            && Perform(run, call) ==
                 if carried then Advance(ctx, run.(rows := run.rows[key := ApplyUserAction(ctx, run.rows[key], code).step]))
                 else run
  {
    hide Advance, ApplyUserAction;
  }

  lemma ActedSound(run: Run, call: Call)
    requires Sound(run)
    ensures Sound(Acted(run, call)) && PlanOf(Acted(run, call).rows) == PlanOf(run.rows)
    ensures ActionPhase(run, call, Acted(run, call))
  {
    hide ApplyUserAction, RightCode, ActedRow, Acted, ActsOn, Accepted, WellStarted, StartedGrounded, Lists, StepSound, PlanOf;
    ActedShape(run, call);
    if Accepted(run, call) {
      var key, code := call.op.key, call.op.code;
      ActionStep(call.ctx, run.rows[key], code);
      ActionRowsSound(run, key, ApplyUserAction(call.ctx, run.rows[key], code).step);
    }
  }

  /** A call first acts and then, perhaps, advances. */
  lemma PerformPhases(run: Run, call: Call)
    ensures var run' := Perform(run, call);
            && run'.order == run.order
            && run'.rows == if Advances(run, call)
                            then AdvanceRows(call.ctx, Acted(run, call).rows, run.order)
                            else Acted(run, call).rows
  {
    hide Decide, Facts, AdvanceRows, ActedRow;
  }

  lemma PerformSound(run: Run, call: Call)
    requires Sound(run)
    ensures Sound(Perform(run, call)) && PlanOf(Perform(run, call).rows) == PlanOf(run.rows)
  {
    hide Advance, Acted, Advances, RowsSound;
    ActedSound(run, call);
    AdvanceSound(call.ctx, Acted(run, call));
  }

  /** The invariant holds in every state that any sequence of calls can reach. */
  lemma {:induction false} RunInvariant(plan: Plan, order: seq<string>, calls: seq<Call>)
    requires NoDuplicates(order) && forall k :: k in order <==> k in plan
    ensures Sound(Replay(NewRun(plan, order), calls))
    ensures PlanOf(Replay(NewRun(plan, order), calls).rows) == plan
  {
    if calls == [] {
      NewRunSound(plan, order);
    } else {
      RunInvariant(plan, order, calls[..|calls| - 1]);
      PerformSound(Replay(NewRun(plan, order), calls[..|calls| - 1]), calls[|calls| - 1]);
    }
  }
}
