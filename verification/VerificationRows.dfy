/**
  The mutable rows of a verification run and the code that updates them in place
  (app/services/verifications/service.py), proved against the functions of the run model.
 */
module VerificationRows {
  import opened Prelude
  import opened PyStrings
  import opened Json
  import M = VerificationModel
  import S = VerificationScheduler
  import A = VerificationAdvance
  import D = VerificationDecision
  import R = VerificationRuns

  class StepRun {
    const def: M.StepDef
    var status: M.StepStatus
    var outcome: Option<M.Outcome>
    var attemptCount: nat
    var waitingForCode: bool
    var inputSnapshot: Fields
    var outputSnapshot: Fields
    var resultSnapshot: Fields
    var sentCode: Option<string>
    var errorDetails: Option<M.ErrorCode>
    var started: bool
    var completed: bool

    function View(): M.Step
      reads this
    {
      M.Step(def, status, outcome, attemptCount, waitingForCode, inputSnapshot, outputSnapshot, resultSnapshot,
             sentCode, errorDetails, started, completed)
    }

    constructor (def: M.StepDef)
      ensures this.def == def && View() == M.NewStep(def)
    {
      this.def := def;
      status, outcome, attemptCount, waitingForCode := M.Pending, None, 0, false;
      inputSnapshot, outputSnapshot, resultSnapshot := map[], map[], map[];
      sentCode, errorDetails, started, completed := None, None, false, false;
    }

    method Fail(code: M.ErrorCode)
      modifies this
      ensures View() == M.Fails(old(View()), code)
    {
      status, outcome, errorDetails := M.Failed, Some(M.Fail), Some(code);
    }

    method Challenge(code: string, output: Fields)
      modifies this
      ensures View() == M.Challenged(old(View()), code, output)
    {
      status, waitingForCode, sentCode := M.WaitingUserAction, true, Some(code);
      outputSnapshot := output;
      resultSnapshot := map["phase" := Str("challenge_sent")];
    }

    method StartPhone(ctx: M.Context)
      modifies this
      ensures View() == M.PhoneChallenge(ctx, old(View()))
    {
      var phone := GetOrNull(inputSnapshot, "phone_number");
      if !M.NonBlankText(phone) {
        Fail(M.MissingPhoneNumber);
        return;
      }
      Challenge(M.PhoneCode(ctx.lib, def.config), map["channel" := Str("sms"), "target" := phone]);
    }

    method StartFayda(ctx: M.Context)
      modifies this
      ensures View() == M.FaydaChallenge(ctx, old(View()))
    {
      var id := GetOrNull(inputSnapshot, "national_id");
      if !M.NonBlankText(id) {
        Fail(M.MissingNationalId);
        return;
      }
      var profile := GetOrNull(M.Registry(ctx.flow, def.config), id.s);
      if !profile.Obj? {
        Fail(M.FaydaProfileNotFound);
        return;
      }
      var phone := Str(M.TextOr(ctx.lib, GetOrNull(profile.fields, "registered_phone"), ""));
      Challenge(M.FaydaCode(ctx.lib, profile.fields, def.config),
                map["registered_phone" := phone, "national_id" := id]);
    }

    method StartChallenge(ctx: M.Context, rows: M.Rows)
      modifies this
      ensures View() == M.StartChallenge(ctx, rows, old(View()))
    {
      hide M.PhoneChallenge, M.FaydaChallenge, M.Fails, M.ResolveInput;
      inputSnapshot := M.ResolveInput(ctx, rows, def.config.input);
      started := true;
      match def.adapter
      case DemoPhoneOtp => StartPhone(ctx);
      case DemoFaydaOtp => StartFayda(ctx);
      case OtherAdapter => Fail(M.UnsupportedAdapter);
    }

    /** The loop over the configured pairs, keeping the running total. */
    static method Compare(ctx: M.Context, rows: M.Rows, pairs: seq<M.PairEntry>)
        returns (comparisons: seq<M.Compared>, total: real)
      ensures comparisons == M.ComparePairs(ctx, rows, pairs) && total == M.TotalScore(comparisons)
    {
      comparisons, total := [], 0.0;
      for i := 0 to |pairs|
        invariant comparisons == M.ComparePairs(ctx, rows, pairs[..i])
        invariant total == M.TotalScore(comparisons)
      {
        hide M.ComparePair, M.ComparePairs, M.TotalScore;
        CompareNext(ctx, rows, pairs, i);
        if pairs[i].Pair? {
          var c := M.ComparePair(ctx, rows, pairs[i]);
          TotalNext(comparisons, c);
          comparisons, total := comparisons + [c], total + c.score;
        }
      }
      assert pairs[..|pairs|] == pairs;
    }

    static lemma CompareNext(ctx: M.Context, rows: M.Rows, pairs: seq<M.PairEntry>, i: nat)
      requires i < |pairs|
      ensures M.ComparePairs(ctx, rows, pairs[..i + 1]) ==
              M.ComparePairs(ctx, rows, pairs[..i]) + if pairs[i].Pair? then [M.ComparePair(ctx, rows, pairs[i])] else []
    {
      hide M.ComparePair;
      assert pairs[..i + 1][..i] == pairs[..i];
    }

    static lemma TotalNext(cs: seq<M.Compared>, c: M.Compared)
      ensures M.TotalScore(cs + [c]) == M.TotalScore(cs) + c.score
    {
      assert (cs + [c])[..|cs|] == cs;
    }

    method RunComparison(ctx: M.Context, rows: M.Rows)
      modifies this
      ensures View() == M.RunComparison(ctx, rows, old(View()))
    {
      hide M.ComparePairs, M.TotalScore, M.Fails, M.Graded;
      if def.config.pairs.None? || def.config.pairs.value == [] {
        Fail(M.PairsMissing);
        return;
      }
      var comparisons, total := Compare(ctx, rows, def.config.pairs.value);
      if comparisons == [] {
        Fail(M.PairsInvalid);
        return;
      }
      Grade(ctx, comparisons, total);
    }

    method Grade(ctx: M.Context, comparisons: seq<M.Compared>, total: real)
      requires comparisons != [] && total == M.TotalScore(comparisons)
      modifies this
      ensures View() == M.Graded(ctx, old(View()), comparisons)
    {
      hide M.AsJson, M.OutcomeText, M.TotalScore;
      var score := ctx.lib.round4(total / (|comparisons| as real));
      var grade := M.Grade(score, def.config);
      var list := Arr(seq(|comparisons|, i requires 0 <= i < |comparisons| => M.AsJson(comparisons[i])));
      started, completed, status, outcome := true, true, M.Completed, Some(grade);
      inputSnapshot := map["pairs" := list];
      outputSnapshot := map["score" := Num(score), "comparisons" := list];
      resultSnapshot := map["outcome" := M.OutcomeText(Some(grade)), "score" := Num(score), "comparisons" := list];
      sentCode, errorDetails := None, None;
    }

    /** The body of the loop of `_advance_run` for a step whose turn has come. */
    method Execute(ctx: M.Context, rows: M.Rows)
      modifies this
      ensures View() == M.Execute(ctx, rows, old(View()))
    {
      hide M.StartChallenge, M.RunComparison, M.Fails;
      match def.stepType
      case ChallengeResponse => StartChallenge(ctx, rows);
      case Comparison => RunComparison(ctx, rows);
      case OtherType => Fail(M.UnsupportedStepType);
    }

    method MarkRetryOrFail()
      modifies this
      ensures View() == M.RetryOrFail(old(View()))
    {
      if attemptCount >= def.config.maxAttempts {
        completed, status, outcome, waitingForCode := true, M.Failed, Some(M.Fail), false;
        sentCode, errorDetails := None, Some(M.MaxAttemptsReached);
        resultSnapshot := map["outcome" := Str("fail"), "reason" := Str("max_attempts_reached")];
        return;
      }
      status, outcome, errorDetails := M.WaitingUserAction, Some(M.Undecided), Some(M.InvalidOtp);
    }

    method Pass(output: Fields, result: Fields)
      modifies this
      ensures View() == M.Passes(old(View()), output, result)
    {
      completed, status, outcome, waitingForCode := true, M.Completed, Some(M.Pass), false;
      sentCode := None;
      outputSnapshot, resultSnapshot := output, result;
    }

    /** Returns false, with the row as it was, where the source raises and its session rolls back. */
    method ApplyUserAction(ctx: M.Context, code: Json) returns (accepted: bool)
      modifies this
      ensures match M.ApplyUserAction(ctx, old(View()), code)
              case Rejected => !accepted && View() == old(View())
              case Applied(s) => accepted && View() == s
    {
      hide M.PhoneCode, M.FaydaCode, M.PhoneAttributes, M.FaydaAttributes, M.RetryOrFail, M.Passes, M.Fails, M.ProfileNow;
      if !M.NonBlankText(code) {
        return false;
      }
      ghost var counted := M.Counted(View());
      var wasError := errorDetails;
      attemptCount, errorDetails := attemptCount + 1, None;
      assert View() == counted;
      if def.adapter.DemoPhoneOtp? {
        if Strip(code.s) != M.PhoneCode(ctx.lib, def.config) {
          MarkRetryOrFail();
          return true;
        }
        var (output, result) := M.PhoneAttributes(ctx.lib, View());
        Pass(output, result);
        return true;
      }
      if def.adapter.DemoFaydaOtp? {
        var profile := M.ProfileNow(ctx, View());
        if profile.Obj? {
          if Strip(code.s) != M.FaydaCode(ctx.lib, profile.fields, def.config) {
            MarkRetryOrFail();
            return true;
          }
          var (output, result) := M.FaydaAttributes(ctx.lib, View(), profile.fields);
          Pass(output, result);
          return true;
        }
        if !Truthy(profile) {
          Fail(M.FaydaProfileNotFound);
          return true;
        }
      }
      attemptCount, errorDetails := attemptCount - 1, wasError;
      return false;
    }
  }

  class SubmissionRecord {
    var header: Fields
    var formData: Fields
    var computedData: Fields
    var validationResults: Fields

    function View(): M.Submission
      reads this
    {
      M.Submission(header, formData, computedData, validationResults)
    }
  }

  class VerificationRun {
    const id: string
    const order: seq<string>
    const steps: map<string, StepRun>
    var status: R.RunStatus
    var isActive: bool
    var currentStepKey: Option<string>
    var verdict: Option<D.Verdict>
    var factsSnapshot: Option<Json>
    var deferred: bool
    var completed: bool

    /** One row per key, each listed once. */
    ghost predicate Valid() {
      && NoDuplicates(order)
      && (forall k :: k in order <==> k in steps)
      && (forall k :: k in steps ==> steps[k].def.key == k)
    }

    function Rows(): M.Rows
      reads steps.Values
    {
      map k | k in steps :: steps[k].View()
    }

    function State(): R.Run
      reads this, steps.Values
    {
      R.Run(order, Rows(), status, isActive, currentStepKey, verdict, factsSnapshot, deferred, completed)
    }

    /** The rows built by `_initialize_steps` for a freshly created run. */
    constructor (id: string, order: seq<string>, steps: map<string, StepRun>)
      requires NoDuplicates(order) && forall k :: k in order <==> k in steps
      requires forall k :: k in steps ==> steps[k].def.key == k && steps[k].View() == M.NewStep(steps[k].def)
      ensures Valid() && this.id == id && this.order == order && this.steps == steps
      ensures State() == R.NewRun(map k | k in steps :: steps[k].def, order)
    {
      this.id, this.order, this.steps := id, order, steps;
      status, isActive, currentStepKey, verdict := R.RunPending, true, None, None;
      factsSnapshot, deferred, completed := None, false, false;
      new;
      assert Rows() == R.NewRun(map k | k in steps :: steps[k].def, order).rows;
    }

    /** Only the row under key k has changed. */
    twostate lemma RowReplaced(k: string)
      requires Valid() && k in steps
      requires forall x :: x in steps && x != k ==> steps[x].View() == old(steps[x].View())
      ensures Rows() == old(Rows())[k := steps[k].View()]
    {
    }

    /** The loop of `_advance_run`. */
    method AdvanceSteps(ctx: M.Context)
      requires Valid()
      modifies steps.Values
      ensures Rows() == A.AdvanceRows(ctx, old(Rows()), order)
    {
      var progress := true;
      while progress
        invariant if progress then A.AdvanceRows(ctx, Rows(), order) == A.AdvanceRows(ctx, old(Rows()), order)
                  else Rows() == A.AdvanceRows(ctx, old(Rows()), order)
        decreases S.Unstarted(Rows()), progress
      {
        ghost var before := Rows();
        A.PassKeeps(ctx, before, order);
        progress := RunPass(ctx);
      }
    }

    /** Executes the step under key k with the rows as they stand. */
    method TakeUp(ctx: M.Context, k: string)
      requires Valid() && k in steps
      modifies steps[k]
      ensures Rows() == S.Fire(ctx, old(Rows()), k)
    {
      hide M.Execute;
      assert Rows()[k] == steps[k].View();
      steps[k].Execute(ctx, Rows());
      RowReplaced(k);
    }

    /** One pass of the for loop of `_advance_run`. */
    method RunPass(ctx: M.Context) returns (progress: bool)
      requires Valid()
      modifies steps.Values
      ensures (Rows(), progress) == A.PassFrom(ctx, old(Rows()), order, 0)
    {
      hide S.Fire, A.PassFrom;
      progress := false;
      var i := 0;
      while i < |order|
        invariant i <= |order|
        invariant var (end, more) := A.PassFrom(ctx, Rows(), order, i);
                  A.PassFrom(ctx, old(Rows()), order, 0) == (end, progress || more)
      {
        hide S.Fire, S.DepsSatisfied, A.PassFrom;
        A.PassUnfolds(ctx, Rows(), order, i);
        var step := steps[order[i]];
        assert step.View() == Rows()[order[i]];
        if step.status !in {M.Completed, M.Failed, M.Skipped, M.Expired, M.WaitingUserAction}
           && S.DepsSatisfied(Rows(), step.def)
        {
          TakeUp(ctx, order[i]);
          assert step.View() == Rows()[order[i]];
          progress := true;
          if step.status == M.WaitingUserAction {
            break;
          }
        }
        i := i + 1;
      }
      A.PassUnfolds(ctx, Rows(), order, |order|);
    }

    method Finalize(lib: M.Lib, flow: M.FlowConfig, submission: SubmissionRecord)
      requires Valid()
      modifies this, submission
      ensures State() == R.Finalize(M.Context(lib, old(submission.View()), flow), old(State()))
      ensures isActive ==> submission.View() == old(submission.View())
      ensures !isActive ==> R.SummaryWritten(id, State(), old(submission.View()), submission.View())
    {
      hide R.Conclude, R.SummaryWritten, R.FirstWaiting, R.AllTerminal;
      currentStepKey := None;
      var waiting := R.FirstWaiting(Rows(), order);
      if waiting.Some? {
        status, currentStepKey, isActive := R.RunWaiting, waiting, true;
        assert Rows() == old(Rows());
        return;
      }
      if !R.AllTerminal(Rows()) {
        status, isActive := R.RunInProgress, true;
        assert Rows() == old(Rows());
        return;
      }
      assert State() == old(State()).(currentStep := None);
      Conclude(lib, flow, submission);
    }

    method Conclude(lib: M.Lib, flow: M.FlowConfig, submission: SubmissionRecord)
      requires Valid()
      modifies this, submission
      ensures !isActive && State() == R.Conclude(M.Context(lib, old(submission.View()), flow), old(State()))
      ensures R.SummaryWritten(id, State(), old(submission.View()), submission.View())
    {
      Decide(lib, flow, submission.View());
      var run := State();
      WriteSummary(run, submission);
      assert State() == run;
    }

    method Decide(lib: M.Lib, flow: M.FlowConfig, submission: M.Submission)
      requires Valid()
      modifies this
      ensures !isActive && State() == R.Conclude(M.Context(lib, submission, flow), old(State()))
    {
      hide D.Facts, D.Decide;
      var facts := D.Facts(submission, Rows());
      var payload := D.Decide(lib, flow, facts);
      factsSnapshot, verdict, completed, isActive := Some(facts), Some(payload), true, false;
      if payload.decision == "approved" {
        status := R.RunCompleted;
      } else if payload.decision == "rejected" {
        status := R.RunFailed;
      } else {
        status := R.RunManualReview;
      }
      assert Rows() == old(Rows());
    }

    method WriteSummary(run: R.Run, submission: SubmissionRecord)
      requires run.verdict.Some?
      modifies submission
      ensures R.SummaryWritten(id, run, old(submission.View()), submission.View())
    {
      hide R.Summary, R.Payload;
      submission.computedData := submission.computedData["verification" := R.Summary(id, run)];
      submission.validationResults := submission.validationResults["decision" := R.Payload(run.verdict.value)];
    }

    method Advance(lib: M.Lib, flow: M.FlowConfig, submission: SubmissionRecord)
      requires Valid()
      modifies this, steps.Values, submission
      ensures State() == R.Advance(M.Context(lib, old(submission.View()), flow), old(State()))
    {
      hide R.Finalize, A.AdvanceRows;
      deferred := false;
      AdvanceSteps(M.Context(lib, submission.View(), flow));
      Finalize(lib, flow, submission);
    }

    /** `start_verification` on this run, once the flow configuration has been loaded. */
    method Start(lib: M.Lib, flow: M.FlowConfig, submission: SubmissionRecord, deferral: bool)
      requires Valid() && isActive
      modifies this, steps.Values, submission
      ensures State() == R.Perform(old(State()), R.Call(M.Context(lib, old(submission.View()), flow), R.Start(deferral)))
    {
      hide R.Advance, M.ApplyUserAction;
      if deferral {
        status, currentStepKey, deferred := R.RunPending, None, true;
        return;
      }
      Advance(lib, flow, submission);
    }

    /** `submit_step_action` applied directly, without Temporal. */
    method SubmitStepAction(lib: M.Lib, flow: M.FlowConfig, submission: SubmissionRecord, key: string, code: Json)
        returns (accepted: bool)
      requires Valid()
      modifies this, steps.Values, submission
      ensures var call := R.Call(M.Context(lib, old(submission.View()), flow), R.Act(key, code));
              State() == R.Perform(old(State()), call) && accepted == R.ActsOn(old(State()), call, key)
    {
      hide R.Advance, M.ApplyUserAction, R.Perform, R.ActsOn;
      R.ActCall(State(), M.Context(lib, submission.View(), flow), key, code);
      if !isActive || key !in steps || steps[key].status != M.WaitingUserAction {
        return false;
      }
      assert Rows()[key] == steps[key].View();
      accepted := steps[key].ApplyUserAction(M.Context(lib, submission.View(), flow), code);
      RowReplaced(key);
      if accepted {
        Advance(lib, flow, submission);
      } else {
        assert Rows() == old(Rows());
      }
    }
  }

  /** The rows of a new run, or false where the source raises and its session rolls back. */
  method InitializeSteps(lib: M.Lib, entries: seq<R.StepEntry>)
      returns (ok: bool, order: seq<string>, steps: map<string, StepRun>)
    ensures ok == R.Planned(lib, entries).Some?
    ensures ok ==> var defs := R.Planned(lib, entries).value;
                   && order == R.KeysOf(defs) && (forall k :: k in order <==> k in steps)
                   && (forall k :: k in steps ==> fresh(steps[k]) && k in R.PlanFrom(defs) && steps[k].def.key == k
                                                  && steps[k].View() == M.NewStep(R.PlanFrom(defs)[k]))
  {
    hide R.EntryKey;
    order, steps := [], map[];
    ghost var defs: seq<M.StepDef> := [];
    for i := 0 to |entries|
      invariant R.Planned(lib, entries[..i]) == Some(defs) && order == R.KeysOf(defs)
      invariant forall k :: k in order <==> k in steps
      invariant forall k :: k in steps ==> fresh(steps[k])
      invariant forall j :: 0 <= j < |defs| ==> defs[j].key in steps && steps[defs[j].key].View() == M.NewStep(defs[j])
    {
      assert entries[..i + 1][..i] == entries[..i];
      if entries[i].NotAStep? {
        continue;
      }
      var key := R.EntryKey(lib, entries[i]);
      KeyTaken(defs, key);
      if key == "" || key in steps {
        NeverPlanned(lib, entries, i + 1);
        return false, [], map[];
      }
      var step := new StepRun(entries[i].rest.(key := key));
      defs := defs + [entries[i].rest.(key := key)];
      order, steps := order + [key], steps[key := step];
    }
    assert entries[..|entries|] == entries;
    ok := true;
    R.PlannedKeys(lib, entries);
    forall k | k in steps
      ensures k in R.PlanFrom(defs) && steps[k].def.key == k && steps[k].View() == M.NewStep(R.PlanFrom(defs)[k])
    {
      var j :| 0 <= j < |defs| && R.KeysOf(defs)[j] == k;
    }
  }

  lemma KeyTaken(defs: seq<M.StepDef>, key: string)
    ensures key in R.KeysOf(defs) <==> exists d :: d in defs && d.key == key
  {
    if d :| d in defs && d.key == key {
      var j :| 0 <= j < |defs| && defs[j] == d;
      assert R.KeysOf(defs)[j] == key;
    }
  }

  lemma {:induction false} NeverPlanned(lib: M.Lib, entries: seq<R.StepEntry>, n: nat)
    requires n <= |entries| && R.Planned(lib, entries[..n]).None?
    ensures R.Planned(lib, entries).None?
    decreases |entries|
  {
    if n < |entries| {
      assert entries[..|entries| - 1][..n] == entries[..n];
      NeverPlanned(lib, entries[..|entries| - 1], n);
    } else {
      assert entries[..n] == entries;
    }
  }

  /** A new run is stored before its steps, so it stays behind without any when their configuration is refused. */
  method CreateRun(lib: M.Lib, entries: seq<R.StepEntry>, id: string) returns (run: VerificationRun, ok: bool)
    ensures fresh(run) && run.Valid() && forall k :: k in run.steps ==> fresh(run.steps[k])
    ensures match R.Planned(lib, entries)
            case None => !ok && run.State() == R.NewRun(map[], [])
            case Some(defs) => ok && run.State() == R.NewRun(R.PlanFrom(defs), R.KeysOf(defs))
  {
    hide R.Planned, R.EntryKey, R.PlanFrom, R.KeysOf;
    var created, order, steps := InitializeSteps(lib, entries);
    ok := created;
    if ok {
      R.PlannedKeys(lib, entries);
      run := new VerificationRun(id, order, steps);
      assert (map k | k in steps :: steps[k].def) == R.PlanFrom(R.Planned(lib, entries).value);
    } else {
      run := new VerificationRun(id, [], map[]);
    }
  }

  /** `start_verification`: the latest run is taken up while it is active; otherwise a new one is created. */
  method StartVerification(lib: M.Lib, flow: M.FlowConfig, entries: seq<R.StepEntry>, submission: SubmissionRecord,
                           latest: VerificationRun?, id: string, deferral: bool)
      returns (run: VerificationRun, ok: bool)
    requires latest != null ==> latest.Valid()
    modifies submission, if latest == null then {} else {latest} + latest.steps.Values
    ensures var call := R.Call(M.Context(lib, old(submission.View()), flow), R.Start(deferral));
            if latest != null && old(latest.isActive) then
              ok && run == latest && run.State() == R.Perform(old(latest.State()), call)
            else
              && fresh(run)
              && match R.Planned(lib, entries)
                 case None => !ok && run.State() == R.NewRun(map[], [])
                 case Some(defs) => ok && run.State() == R.Perform(R.NewRun(R.PlanFrom(defs), R.KeysOf(defs)), call)
    ensures run.Valid()
  {
    hide R.Perform, R.Planned, R.PlanFrom, R.KeysOf, VerificationRun.Rows;
    if latest != null && latest.isActive {
      run, ok := latest, true;
      run.Start(lib, flow, submission, deferral);
      return;
    }
    run, ok := CreateRun(lib, entries, id);
    if ok {
      run.Start(lib, flow, submission, deferral);
    }
  }
}
