/**
  The Temporal workflow around a verification run (app/temporal/workflows/verification.py). Signals may
  arrive whenever the workflow awaits something; between two awaits it runs on its own.
 */
module Workflow {
  import opened Prelude
  import opened PyStrings
  import opened Json
  import opened VerificationModel
  import M = VerificationModel
  import opened VerificationScheduler
  import opened VerificationDecision
  import opened VerificationRuns
  import opened VerificationTheorems

  datatype Action = Action(key: string, code: Json)

  /** What the workflow is awaiting. */
  datatype Phase = Idle | Applying(action: Action) | Advancing | Returned

  datatype Control = Control(phase: Phase, resume: bool, pending: seq<Action>)

  /** From the condition or an applied action to the next activity: drain the queue, then advance. */
  function Drain(c: Control): Control {
    if c.pending != [] then Control(Applying(c.pending[0]), c.resume, c.pending[1..])
    else Control(Advancing, false, c.pending)
  }

  /** The workflow takes up control again; active is what an advance has returned. */
  function Continue(c: Control, active: bool): Control {
    match c.phase
    case Idle => if c.resume || c.pending != [] then Drain(c) else c
    case Applying(_) => Drain(c)
    case Advancing => c.(phase := if active then Idle else Returned)
    case Returned => c
  }

  class SubmissionVerificationWorkflow {
    var phase: Phase
    var resumeRequested: bool
    var pendingActions: seq<Action>

    function View(): Control
      reads this
    {
      Control(phase, resumeRequested, pendingActions)
    }

    constructor ()
      ensures View() == Control(Advancing, false, [])
    {
      phase, resumeRequested, pendingActions := Advancing, false, [];
    }

    method Resume()
      modifies this
      ensures View() == old(View()).(resume := true)
    {
      resumeRequested := true;
    }

    method SubmitAction(action: Action)
      modifies this
      ensures View() == old(View()).(pending := old(pendingActions) + [action])
    {
      pendingActions := pendingActions + [action];
    }

    /** The stretch of `run` from the await that has just completed to the next one. */
    method Proceed(active: bool)
      modifies this
      ensures View() == Continue(old(View()), active)
    {
      match phase
      case Idle =>
        if resumeRequested || pendingActions != [] {
          NextActivity();
        }
      case Applying(_) => NextActivity();
      case Advancing => phase := if active then Idle else Returned;
      case Returned =>
    }

    method NextActivity()
      modifies this
      ensures View() == Drain(old(View()))
    {
      if pendingActions != [] {
        phase, pendingActions := Applying(pendingActions[0]), pendingActions[1..];
        return;
      }
      resumeRequested := false;
      phase := Advancing;
    }
  }

  // ----- the workflow together with the run it drives -----

  datatype System = System(
    control: Control,
    run: Run,
    calls: seq<Call>,         // every call made on the run so far
    delivered: seq<Action>,   // every action signal received so far
    applied: seq<Action>)     // every action taken from the queue so far

  datatype Event =
    | ResumeSignal
    | ActionSignal(action: Action)
    | Proceeds(ctx: Context)   // the awaited activity or condition completes
    | Direct(call: Call)       // a call on the run from outside the workflow, such as a deferral

  function Boot(plan: Plan, order: seq<string>): System {
    System(Control(Advancing, false, []), NewRun(plan, order), [], [], [])
  }

  function Record(s: System, call: Call): System {
    s.(run := Perform(s.run, call), calls := s.calls + [call])
  }

  function ActivityCall(ctx: Context, a: Action): Call {
    Call(ctx, ActivityAct(a.key, a.code))
  }

  /** Hands control back and notes the action that was taken from the queue, if one was. */
  function Resumes(s: System): System {
    var c := Continue(s.control, s.run.active);
    s.(control := c, applied := if |c.pending| < |s.control.pending| then s.applied + [s.control.pending[0]] else s.applied)
  }

  function Step(s: System, e: Event): System {
    match e
    case ResumeSignal => s.(control := s.control.(resume := true))
    case ActionSignal(a) => s.(control := s.control.(pending := s.control.pending + [a]), delivered := s.delivered + [a])
    case Direct(call) => Record(s, call)
    case Proceeds(ctx) =>
      match s.control.phase
      case Idle => Resumes(s)
      case Applying(a) =>
        var call := ActivityCall(ctx, a);
        if ActsOn(s.run, call, a.key) then Resumes(Record(s, call))
        else s  // the activity has failed and is tried again
      case Advancing => Resumes(Record(s, Call(ctx, ActivityAdvance)))
      case Returned => s
  }

  function Execute(s: System, events: seq<Event>): System {
    if events == [] then s else Step(Execute(s, events[..|events| - 1]), events[|events| - 1])
  }

  /** The event lets the workflow begin an advance of the run. */
  predicate BeginsAdvance(s: System, e: Event) {
    e.Proceeds? && !s.control.phase.Advancing? && Step(s, e).control.phase.Advancing?
  }

  // ----- signals are neither lost, repeated nor reordered -----

  lemma ContinueQueue(c: Control, active: bool)
    ensures var d := Continue(c, active);
            || d.pending == c.pending
            || (c.pending != [] && d.pending == c.pending[1..] && d.phase == Applying(c.pending[0]))
  {
  }

  predicate InOrder(s: System) {
    && s.delivered == s.applied + s.control.pending
    && (s.control.phase.Applying? ==> s.applied != [] && s.applied[|s.applied| - 1] == s.control.phase.action)
  }

  lemma ResumesInOrder(s: System)
    requires s.delivered == s.applied + s.control.pending
    ensures InOrder(Resumes(s)) && Resumes(s).delivered == s.delivered && s.applied <= Resumes(s).applied
  {
    ContinueQueue(s.control, s.run.active);
    if s.control.pending != [] {
      assert s.control.pending == [s.control.pending[0]] + s.control.pending[1..];
    }
  }

  lemma StepInOrder(s: System, e: Event)
    requires InOrder(s)
    ensures InOrder(Step(s, e))
    ensures s.applied <= Step(s, e).applied && s.delivered <= Step(s, e).delivered
  {
    hide Perform, ActsOn;
    match e
    case ResumeSignal =>
    case ActionSignal(a) =>
    case Direct(call) =>
    case Proceeds(ctx) =>
      hide Continue, Resumes;
      match s.control.phase
      case Idle => ResumesInOrder(s);
      case Applying(a) => ResumesInOrder(Record(s, ActivityCall(ctx, a)));
      case Advancing => ResumesInOrder(Record(s, Call(ctx, ActivityAdvance)));
      case Returned =>
  }

  /** Whatever the interleaving, the actions taken so far are a prefix of the actions delivered, in order. */
  lemma {:induction false} AppliedIsPrefix(plan: Plan, order: seq<string>, events: seq<Event>)
    ensures var s := Execute(Boot(plan, order), events);
            InOrder(s) && s.applied <= s.delivered
  {
    if events != [] {
      AppliedIsPrefix(plan, order, events[..|events| - 1]);
      hide Step;
      StepInOrder(Execute(Boot(plan, order), events[..|events| - 1]), events[|events| - 1]);
    }
  }

  lemma FlagCleared(s: System, e: Event)
    requires s.control.resume && !Step(s, e).control.resume
    ensures BeginsAdvance(s, e)
  {
    hide Perform, ActsOn;
  }

  /** A resume stays requested until an advance begins after it. */
  lemma {:induction false} NoResumeLost(s: System, events: seq<Event>, i: nat, j: nat) returns (m: nat)
    requires i < j <= |events| && events[i].ResumeSignal?
    ensures Execute(s, events[..j]).control.resume
         || (i < m < j && BeginsAdvance(Execute(s, events[..m]), events[m]))
    decreases j
  {
    m := 0;
    hide Step;
    assert events[..j][..j - 1] == events[..j - 1];
    var before := Execute(s, events[..j - 1]);
    if i == j - 1 {
      assert Step(before, ResumeSignal).control.resume by { ResumeRaisesFlag(before); }
    } else {
      m := NoResumeLost(s, events, i, j - 1);
      if before.control.resume && !Step(before, events[j - 1]).control.resume {
        FlagCleared(before, events[j - 1]);
        m := j - 1;
      }
    }
  }

  lemma ResumeRaisesFlag(s: System)
    ensures Step(s, ResumeSignal).control.resume
  {
  }

  /** Activities still to be run before the queue is drained and an advance begins. */
  function Backlog(c: Control): nat {
    |c.pending| + 1
  }

  /** Each stretch of the workflow either begins an advance or takes one more action from the queue. */
  lemma DrainProgress(s: System, ctx: Context)
    requires s.control.phase.Idle? ==> s.control.resume || s.control.pending != []
    requires s.control.phase.Applying? ==>
               ActsOn(s.run, ActivityCall(ctx, s.control.phase.action), s.control.phase.action.key)
    requires s.control.phase.Idle? || s.control.phase.Applying?
    ensures var s' := Step(s, Proceeds(ctx));
            if BeginsAdvance(s, Proceeds(ctx)) then s.control.pending == [] && !s'.control.resume
            else s'.control.phase.Applying? && Backlog(s'.control) < Backlog(s.control)
  {
    hide Perform, ActsOn;
  }

  /** An advance that leaves the run inactive ends the workflow, whatever is still requested or queued; any other advance
      makes it wait, and nothing else ever ends it. */
  lemma ReturnsIffInactive(s: System, e: Event)
    requires !s.control.phase.Returned?
    ensures var s' := Step(s, e);
            s'.control.phase.Returned? <==> e.Proceeds? && s.control.phase.Advancing? && !s'.run.active
    ensures var s' := Step(s, e);
            e.Proceeds? && s.control.phase.Advancing? ==>
              && (s'.run.active ==> s'.control.phase.Idle?)
              && s'.control.pending == s.control.pending && s'.control.resume == s.control.resume
              && s'.run == Perform(s.run, Call(e.ctx, ActivityAdvance))
  {
    hide Perform, ActsOn;
  }

  /** A workflow that has returned does nothing any more. */
  lemma {:induction false} ReturnedForEver(s: System, events: seq<Event>)
    requires s.control.phase.Returned?
    ensures var end := Execute(s, events);
            end.control.phase.Returned? && end.applied == s.applied && s.control.pending <= end.control.pending
  {
    hide Perform, ActsOn;
    if events != [] {
      ReturnedForEver(s, events[..|events| - 1]);
    }
  }

  // ----- the run behind the workflow -----

  /** The run is the result of its calls, and every action the workflow applied had been delivered. */
  ghost predicate Faithful(plan: Plan, order: seq<string>, s: System) {
    && s.run == Replay(NewRun(plan, order), s.calls)
    && InOrder(s)
  }

  lemma RecordFaithful(plan: Plan, order: seq<string>, s: System, call: Call)
    requires s.run == Replay(NewRun(plan, order), s.calls)
    ensures Record(s, call).run == Replay(NewRun(plan, order), Record(s, call).calls)
  {
    hide Perform;
    assert (s.calls + [call])[..|s.calls|] == s.calls;
  }

  lemma StepFaithful(plan: Plan, order: seq<string>, s: System, e: Event)
    requires Faithful(plan, order, s)
    ensures Faithful(plan, order, Step(s, e))
  {
    StepInOrder(s, e);
    hide Perform, ActsOn, InOrder;
    match e
    case ResumeSignal =>
    case ActionSignal(_) =>
    case Direct(call) => RecordFaithful(plan, order, s, call);
    case Proceeds(ctx) =>
      hide Continue;
      match s.control.phase
      case Idle =>
      case Applying(a) => RecordFaithful(plan, order, s, ActivityCall(ctx, a));
      case Advancing => RecordFaithful(plan, order, s, Call(ctx, ActivityAdvance));
      case Returned =>
  }

  lemma {:induction false} ExecuteFaithful(plan: Plan, order: seq<string>, events: seq<Event>)
    ensures Faithful(plan, order, Execute(Boot(plan, order), events))
  {
    if events != [] {
      ExecuteFaithful(plan, order, events[..|events| - 1]);
      hide Step, Faithful;
      StepFaithful(plan, order, Execute(Boot(plan, order), events[..|events| - 1]), events[|events| - 1]);
    }
  }

  // ----- what is carried out on the run -----

  /** Activities are run by the workflow only; everybody else calls the service. */
  ghost predicate OutsideCallsServices(events: seq<Event>) {
    forall e :: e in events && e.Direct? ==> !e.call.op.ActivityAct?
  }

  /** The actions that activities have carried out on the run, in the order in which they did. */
  function CarriedOut(calls: seq<Call>): seq<Action> {
    if calls == [] then []
    else
      var op := calls[|calls| - 1].op;
      CarriedOut(calls[..|calls| - 1]) + if op.ActivityAct? then [Action(op.key, op.code)] else []
  }

  lemma CarriedOutNext(calls: seq<Call>, call: Call)
    ensures CarriedOut(calls + [call]) ==
            CarriedOut(calls) + if call.op.ActivityAct? then [Action(call.op.key, call.op.code)] else []
  {
    assert (calls + [call])[..|calls|] == calls;
  }

  /** Carried out is exactly what has been taken from the queue, but for the action in hand. */
  predicate InStep(s: System) {
    && InOrder(s)
    && CarriedOut(s.calls) == if s.control.phase.Applying? then s.applied[..|s.applied| - 1] else s.applied
  }

  /** Handing back control takes at most one more action into hand. */
  lemma ResumesInStep(s: System)
    requires s.delivered == s.applied + s.control.pending && CarriedOut(s.calls) == s.applied
    ensures InStep(Resumes(s))
  {
    ResumesInOrder(s);
    ContinueQueue(s.control, s.run.active);
    TakesInHand(s.control, s.run.active);
    assert Resumes(s).applied != s.applied ==> Resumes(s).applied[..|Resumes(s).applied| - 1] == s.applied;
  }

  lemma TakesInHand(c: Control, active: bool)
    ensures !Continue(c, active).phase.Applying? ==> Continue(c, active).pending == c.pending
  {
  }

  lemma StepInStep(s: System, e: Event)
    requires InStep(s) && (e.Direct? ==> !e.call.op.ActivityAct?)
    ensures InStep(Step(s, e))
  {
    hide Perform, ActsOn, Resumes;
    StepInOrder(s, e);
    match e
    case ResumeSignal =>
    case ActionSignal(a) =>
    case Direct(call) => CarriedOutNext(s.calls, call);
    case Proceeds(ctx) =>
      match s.control.phase
      case Idle => ResumesInStep(s);
      case Applying(a) =>
        var call := ActivityCall(ctx, a);
        CarriedOutNext(s.calls, call);
        assert s.applied[..|s.applied| - 1] + [a] == s.applied;
        ResumesInStep(Record(s, call));
      case Advancing =>
        CarriedOutNext(s.calls, Call(ctx, ActivityAdvance));
        ResumesInStep(Record(s, Call(ctx, ActivityAdvance)));
      case Returned =>
  }

  /** Whatever the interleaving, the actions carried out on the run are a prefix of the actions delivered: in the
      order of their signals, each at most once, and none that was not delivered. */
  lemma {:induction false} CarriedOutIsPrefix(plan: Plan, order: seq<string>, events: seq<Event>)
    requires OutsideCallsServices(events)
    ensures var s := Execute(Boot(plan, order), events);
            InStep(s) && CarriedOut(s.calls) <= s.delivered
  {
    if events != [] {
      var before := events[..|events| - 1];
      assert events[|events| - 1] in events;
      assert OutsideCallsServices(before);
      CarriedOutIsPrefix(plan, order, before);
      hide Step, OutsideCallsServices;
      StepInStep(Execute(Boot(plan, order), before), events[|events| - 1]);
    }
  }

  lemma {:induction false} CarriedOutHas(calls: seq<Call>, i: nat)
    requires i < |calls| && calls[i].op.ActivityAct?
    ensures Action(calls[i].op.key, calls[i].op.code) in CarriedOut(calls)
    decreases |calls|
  {
    if i < |calls| - 1 {
      CarriedOutHas(calls[..|calls| - 1], i);
    }
  }

  // ----- actions that can never be carried out -----

  /** The workflow is at an action without a code, or on a step that does not exist or has already ended. */
  predicate Blocked(s: System) {
    && s.control.phase.Applying?
    && var a := s.control.phase.action;
       NonBlankText(a.code) && a.key in s.run.rows ==> Terminal(s.run.rows[a.key])
  }

  lemma BlockedCannotAct(s: System, ctx: Context)
    requires Blocked(s)
    ensures !ActsOn(s.run, ActivityCall(ctx, s.control.phase.action), s.control.phase.action.key)
  {
    hide PhoneAction, FaydaAction, ProfileNow, Strip;
  }

  /** For a step that has been started these are exactly the actions that no context lets the activity carry out. */
  lemma BlockedIff(s: System, ctx: Context)
    requires Sound(s.run) && s.control.phase.Applying?
    requires var key := s.control.phase.action.key; key in s.run.rows ==> !Startable(s.run.rows[key])
    ensures Blocked(s) <==>
            forall c: Context :: !ActsOn(s.run, ActivityCall(c, s.control.phase.action), s.control.phase.action.key)
  {
    hide ActsOn, Sound, Terminal;
    if Blocked(s) {
      forall c: Context ensures !ActsOn(s.run, ActivityCall(c, s.control.phase.action), s.control.phase.action.key) {
        BlockedCannotAct(s, c);
      }
    } else {
      var a := s.control.phase.action;
      var c := Knowing(ctx, s.run.rows[a.key]);
      StepIsSound(s.run, a.key);
      KnowingApplies(ctx, s.run.rows[a.key], a.code);
      assert ActsOn(s.run, ActivityCall(c, a), a.key) by { AppliesActs(s.run, c, a); }
    }
  }

  lemma StepIsSound(run: Run, key: string)
    requires Sound(run) && key in run.rows && !Startable(run.rows[key]) && !Terminal(run.rows[key])
    ensures StepSound(run.rows[key]) && Waiting(run.rows[key])
  {
  }

  lemma AppliesActs(run: Run, ctx: Context, a: Action)
    requires a.key in run.rows && Waiting(run.rows[a.key]) && ApplyUserAction(ctx, run.rows[a.key], a.code).Applied?
    ensures ActsOn(run, ActivityCall(ctx, a), a.key)
  {
    hide ApplyUserAction;
  }

  /** A context whose registry has a profile under the identifier that the step will look up. */
  function Knowing(ctx: Context, s: M.Step): Context {
    var id := TextOr(ctx.lib, GetOrNull(s.input, "national_id"), "");
    ctx.(flow := FlowConfig(Some(map[id := Obj(map[])]), None))
  }

  lemma KnowingApplies(ctx: Context, s: M.Step, code: Json)
    requires Waiting(s) && StepSound(s) && NonBlankText(code)
    ensures ApplyUserAction(Knowing(ctx, s), s, code).Applied?
  {
    hide PhoneAction, FaydaAction, Strip, Blank;
    assert ProfileNow(Knowing(ctx, s), Counted(s)).Obj?;
  }

  lemma StillBlocked(s: System, e: Event)
    requires Sound(s.run) && Blocked(s)
    ensures Sound(Step(s, e).run) && Blocked(Step(s, e)) && Step(s, e).control.phase == s.control.phase
  {
    hide Perform, ActsOn, Sound, Terminal;
    match e
    case ResumeSignal =>
    case ActionSignal(a) =>
    case Direct(call) =>
      hide NonBlankText;
      var key := s.control.phase.action.key;
      PerformSound(s.run, call);
      SameKeys(s.run.rows, Perform(s.run, call).rows);
      if key in s.run.rows && Terminal(s.run.rows[key]) {
        TerminalAbsorbs(s.run, call, key);
      }
    case Proceeds(ctx) => BlockedCannotAct(s, ctx);
  }

  /** Such an action blocks the workflow for ever: no sequence of events takes it any further. */
  lemma {:induction false} BlockedForEver(s: System, events: seq<Event>)
    requires Sound(s.run) && Blocked(s)
    ensures Sound(Execute(s, events).run) && Blocked(Execute(s, events))
    ensures Execute(s, events).control.phase == s.control.phase
  {
    hide Step, Sound, Blocked;
    if events != [] {
      BlockedForEver(s, events[..|events| - 1]);
      StillBlocked(Execute(s, events[..|events| - 1]), events[|events| - 1]);
    }
  }

  /** It is enough that the right code of a step has been sent twice before the first is carried out. */
  lemma RepeatedCodeBlocks(s: System, ctx: Context)
    requires Sound(s.run) && s.control.phase.Applying? && s.control.pending != []
    requires s.control.pending[0].key == s.control.phase.action.key
    requires CorrectCode(s.run, ActivityCall(ctx, s.control.phase.action), s.control.phase.action.key)
    ensures Sound(Step(s, Proceeds(ctx)).run) && Blocked(Step(s, Proceeds(ctx)))
  {
    hide Acted, ActsOn, RightCode, Sound, StepSound, Terminal, ActionPhase;
    var key, call := s.control.phase.action.key, ActivityCall(ctx, s.control.phase.action);
    assert Perform(s.run, call) == Acted(s.run, call) by { ActivityOnlyActs(s.run, call); }
    PerformSound(s.run, call);
    ActedSound(s.run, call);
    ActedHere(s.run, call, key);
  }

  lemma ActivityOnlyActs(run: Run, call: Call)
    requires call.op.ActivityAct?
    ensures Perform(run, call) == Acted(run, call)
  {
    hide Acted;
  }

  lemma ActedHere(run: Run, call: Call, key: string)
    requires ActionPhase(run, call, Acted(run, call)) && CorrectCode(run, call, key)
    ensures var rows := Acted(run, call).rows; key in rows && Terminal(rows[key])
  {
    hide Acted, ActsOn, RightCode, ApplyUserAction;
    ActedShape(run, call);
  }

  /** When the workflow returns with an approved run and approval demands that challenge K was passed, then
      the code expected of K was sent: in a signal that had been delivered, or directly to the service. */
  lemma ApprovedWorkflow(plan: Plan, order: seq<string>, events: seq<Event>, ctx: Context, key: string) returns (i: nat)
    requires NoDuplicates(order) && forall k :: k in order <==> k in plan
    requires OutsideCallsServices(events)
    requires key in plan && plan[key].stepType.ChallengeResponse? && Dotless(key)
    requires ApprovalDemandsPass(ctx.flow, key)
    requires var s := Execute(Boot(plan, order), events);
             var s' := Step(s, Proceeds(ctx));
             s.control.phase.Advancing? && s'.control.phase.Returned? && s'.run.status.RunCompleted?
    ensures var s := Step(Execute(Boot(plan, order), events), Proceeds(ctx));
            && i < |s.calls|
            && CorrectCode(Replay(NewRun(plan, order), s.calls[..i]), s.calls[i], key)
            && (s.calls[i].op.ActivityAct? ==> Action(key, s.calls[i].op.code) in s.delivered)
  {
    var s := Execute(Boot(plan, order), events);
    var call := Call(ctx, ActivityAdvance);
    var s' := Step(s, Proceeds(ctx));
    ExecuteFaithful(plan, order, events);
    CarriedOutIsPrefix(plan, order, events);
    StepInStep(s, Proceeds(ctx));
    Returns(s, ctx);
    hide Perform, Execute, Step, Replay, Finalizes, CarriedOut;
    i := CompletedNeedsCode(plan, order, s.calls, s.run, call, key);
    assert s'.calls == s.calls + [call];
    CorrectIsAct(Replay(NewRun(plan, order), s'.calls[..i]), s'.calls[i], key);
    if s'.calls[i].op.ActivityAct? {
      CarriedOutHas(s'.calls, i);
    }
  }

  lemma Returns(s: System, ctx: Context)
    requires s.control.phase.Advancing? && Step(s, Proceeds(ctx)).control.phase.Returned?
    ensures var s' := Step(s, Proceeds(ctx));
            && s'.run == Perform(s.run, Call(ctx, ActivityAdvance))
            && s'.calls == s.calls + [Call(ctx, ActivityAdvance)]
            && Finalizes(s.run, Call(ctx, ActivityAdvance))
  {
    hide Perform;
  }

  lemma CorrectIsAct(run: Run, call: Call, key: string)
    requires CorrectCode(run, call, key)
    ensures call.op.ActivityAct? ==> call.op.key == key
  {
    hide ActedRow, RightCode;
  }
}
