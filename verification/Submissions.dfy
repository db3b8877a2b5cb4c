/** The submission workflow with its status history and four-eyes rule (app/services/submissions/service.py). */
module Submissions {
  import opened Prelude
  import opened Json

  datatype Status = Draft | Submitted | UnderReview | Approved | Rejected | Returned | Completed | Cancelled

  /** VALID_TRANSITIONS */
  function ValidNext(s: Status): set<Status> {
    match s
    case Draft => {Submitted, Cancelled}
    case Submitted => {UnderReview, Approved, Rejected, Returned, Cancelled}
    case UnderReview => {Approved, Rejected, Returned}
    case Returned => {Submitted, Cancelled}
    case Approved => {Completed}
    case Rejected => {Completed}
    case Completed => {}
    case Cancelled => {}
  }

  datatype Entry = Entry(from: Option<Status>, to: Status, changedBy: Option<string>)

  datatype Submission = Submission(
    status: Status,
    createdBy: Option<string>,
    formData: Json,
    submitterId: Option<string>,
    externalRef: Option<string>,
    reviewedBy: Option<string>,
    validated: bool,              // validation_results says {"valid": true}
    history: seq<Entry>)

  datatype Caller = Caller(name: Option<string>, superAdmin: bool, makerOnly: bool)

  /** The fields an update sets; None leaves a field alone. */
  datatype Changes = Changes(formData: Option<Json>, submitterId: Option<Option<string>>, externalRef: Option<Option<string>>)

  datatype Call =
    | Update(caller: Caller, changes: Changes)
    | Submit(caller: Caller, validate: bool, formValid: bool)  // formValid: validate_form_data finds no error
    | Transition(caller: Caller, to: Status)

  function Create(caller: Caller, formData: Json, submitterId: Option<string>, externalRef: Option<string>): Submission {
    Submission(Draft, caller.name, formData, submitterId, externalRef, None, false, [Entry(None, Draft, caller.name)])
  }

  /** `_enforce_maker_ownership` */
  predicate MayAccess(s: Submission, caller: Caller) {
    caller.superAdmin || !caller.makerOnly || s.createdBy == caller.name
  }

  predicate ReviewStatus(to: Status) {
    to.UnderReview? || to.Approved? || to.Rejected? || to.Returned?
  }

  predicate FourEyesViolation(s: Submission, caller: Caller, to: Status) {
    !caller.superAdmin && s.createdBy == caller.name && ReviewStatus(to)
  }

  predicate MayTransition(s: Submission, caller: Caller, to: Status) {
    MayAccess(s, caller) && !FourEyesViolation(s, caller, to) && to in ValidNext(s.status)
  }

  /** The effect of a transition that is allowed. */
  function Moved(s: Submission, caller: Caller, to: Status): Submission {
    s.(status := to,
       reviewedBy := if to.Approved? || to.Rejected? || to.Returned? then caller.name else s.reviewedBy,
       history := s.history + [Entry(Some(s.status), to, caller.name)])
  }

  predicate Allowed(s: Submission, call: Call) {
    match call
    case Update(caller, _) => MayAccess(s, caller) && s.status.Draft?
    case Submit(caller, validate, formValid) =>
      MayAccess(s, caller) && s.status.Draft? && (validate ==> formValid) && MayTransition(s, caller, Submitted)
    case Transition(caller, to) => MayTransition(s, caller, to)
  }

  /** One call; a refused call leaves the submission as it is. */
  function Perform(s: Submission, call: Call): Submission {
    if !Allowed(s, call) then s
    else
      match call
      case Update(_, c) =>
        s.(formData := if c.formData.Some? then c.formData.value else s.formData,
           submitterId := if c.submitterId.Some? then c.submitterId.value else s.submitterId,
           externalRef := if c.externalRef.Some? then c.externalRef.value else s.externalRef)
      case Submit(caller, validate, _) => Moved(s.(validated := s.validated || validate), caller, Submitted)
      case Transition(caller, to) => Moved(s, caller, to)
  }

  function Replay(s: Submission, calls: seq<Call>): Submission {
    if calls == [] then s else Perform(Replay(s, calls[..|calls| - 1]), calls[|calls| - 1])
  }

  class SubmissionRow {
    const createdBy: Option<string>
    var status: Status
    var formData: Json
    var submitterId: Option<string>
    var externalRef: Option<string>
    var reviewedBy: Option<string>
    var validated: bool
    var history: seq<Entry>

    function View(): Submission
      reads this
    {
      Submission(status, createdBy, formData, submitterId, externalRef, reviewedBy, validated, history)
    }

    constructor (caller: Caller, formData: Json, submitterId: Option<string>, externalRef: Option<string>)
      ensures View() == Create(caller, formData, submitterId, externalRef)
    {
      createdBy, status, this.formData := caller.name, Draft, formData;
      this.submitterId, this.externalRef := submitterId, externalRef;
      reviewedBy, validated := None, false;
      history := [Entry(None, Draft, caller.name)];
    }

    method UpdateFields(caller: Caller, changes: Changes) returns (ok: bool)
      modifies this
      ensures ok == Allowed(old(View()), Update(caller, changes))
      ensures View() == Perform(old(View()), Update(caller, changes))
    {
      if !MayAccess(View(), caller) || status != Draft {
        return false;
      }
      if changes.formData.Some? {
        formData := changes.formData.value;
      }
      if changes.submitterId.Some? {
        submitterId := changes.submitterId.value;
      }
      if changes.externalRef.Some? {
        externalRef := changes.externalRef.value;
      }
      return true;
    }

    method TransitionStatus(caller: Caller, to: Status) returns (ok: bool)
      modifies this
      ensures ok == Allowed(old(View()), Transition(caller, to))
      ensures View() == Perform(old(View()), Transition(caller, to))
    {
      if !MayAccess(View(), caller) || FourEyesViolation(View(), caller, to) {
        return false;
      }
      if to !in ValidNext(status) {
        return false;
      }
      var from := status;
      status := to;
      if to.Approved? || to.Rejected? || to.Returned? {
        reviewedBy := caller.name;
      }
      history := history + [Entry(Some(from), to, caller.name)];
      return true;
    }

    method SubmitDraft(caller: Caller, validate: bool, formValid: bool) returns (ok: bool)
      modifies this
      ensures ok == Allowed(old(View()), Submit(caller, validate, formValid))
      ensures View() == Perform(old(View()), Submit(caller, validate, formValid))
    {
      if !MayAccess(View(), caller) || status != Draft {
        return false;
      }
      if validate {
        if !formValid {
          return false;
        }
        validated := true;
      }
      ok := TransitionStatus(caller, Submitted);
    }
  }

  // ----- over whole runs -----

  /** The history starts at creation, follows VALID_TRANSITIONS and ends at the current status. */
  predicate HistoryIsPath(s: Submission) {
    && s.history != []
    && s.history[0] == Entry(None, Draft, s.createdBy)
    && (forall i :: 0 < i < |s.history| ==>
          s.history[i].from == Some(s.history[i - 1].to) && s.history[i].to in ValidNext(s.history[i - 1].to))
    && s.history[|s.history| - 1].to == s.status
  }

  lemma PerformPath(s: Submission, call: Call)
    requires HistoryIsPath(s)
    ensures HistoryIsPath(Perform(s, call)) && s.history <= Perform(s, call).history
    ensures Perform(s, call).createdBy == s.createdBy
  {
  }

  lemma {:induction false} HistoryPath(caller: Caller, form: Json, id: Option<string>, ref: Option<string>, calls: seq<Call>)
    ensures var s := Replay(Create(caller, form, id, ref), calls);
            HistoryIsPath(s) && s.createdBy == caller.name
  {
    if calls != [] {
      HistoryPath(caller, form, id, ref, calls[..|calls| - 1]);
      PerformPath(Replay(Create(caller, form, id, ref), calls[..|calls| - 1]), calls[|calls| - 1]);
    }
  }

  lemma PerformFreezes(s: Submission, call: Call)
    requires !s.status.Draft?
    ensures !Perform(s, call).status.Draft? && Perform(s, call).formData == s.formData
  {
  }

  /** Once a submission has left DRAFT its form data never changes again, not even when it is returned. */
  lemma {:induction false} FormDataFrozen(s: Submission, calls: seq<Call>, i: nat)
    requires i <= |calls| && !Replay(s, calls[..i]).status.Draft?
    ensures !Replay(s, calls).status.Draft? && Replay(s, calls).formData == Replay(s, calls[..i]).formData
    decreases |calls|
  {
    if i < |calls| {
      var before := calls[..|calls| - 1];
      assert before[..i] == calls[..i];
      FormDataFrozen(s, before, i);
      PerformFreezes(Replay(s, before), calls[|calls| - 1]);
    } else {
      assert calls[..i] == calls;
    }
  }

  /** The call decides the submission, made by somebody other than its creator or by a super admin. */
  predicate IndependentReview(s: Submission, call: Call) {
    && call.Transition? && (call.to.Approved? || call.to.Rejected?)
    && Allowed(s, call)
    && (call.caller.superAdmin || call.caller.name != s.createdBy)
  }

  predicate Decided(s: Submission) {
    s.status.Approved? || s.status.Rejected? || s.status.Completed?
  }

  lemma DecisionStep(s: Submission, call: Call)
    requires Decided(Perform(s, call)) && !Decided(s)
    ensures IndependentReview(s, call)
  {
  }

  /** Nobody gets a submission approved, rejected or completed without an independent review, and the history
      keeps the entry of that review. */
  lemma {:induction false} DecidedNeedsReview(caller: Caller, form: Json, id: Option<string>, ref: Option<string>,
                                              calls: seq<Call>) returns (i: nat)
    requires Decided(Replay(Create(caller, form, id, ref), calls))
    ensures i < |calls| && IndependentReview(Replay(Create(caller, form, id, ref), calls[..i]), calls[i])
    ensures var s, end := Replay(Create(caller, form, id, ref), calls[..i]), Replay(Create(caller, form, id, ref), calls);
            && |s.history| < |end.history|
            && end.history[|s.history|] == Entry(Some(s.status), calls[i].to, calls[i].caller.name)
    decreases |calls|
  {
    var start := Create(caller, form, id, ref);
    var before := calls[..|calls| - 1];
    if Decided(Replay(start, before)) {
      i := DecidedNeedsReview(caller, form, id, ref, before);
      assert before[..i] == calls[..i];
      HistoryPath(caller, form, id, ref, before);
      PerformPath(Replay(start, before), calls[|calls| - 1]);
    } else {
      i := |calls| - 1;
      DecisionStep(Replay(start, before), calls[i]);
    }
  }

  // ----- what the fields of a submission come from -----

  /** What the last allowed update that set this field has set it to. */
  function LastSet<T>(s: Submission, calls: seq<Call>, field: Changes -> Option<T>, initial: T): T {
    if calls == [] then initial
    else
      var before, call := calls[..|calls| - 1], calls[|calls| - 1];
      if call.Update? && Allowed(Replay(s, before), call) && field(call.changes).Some? then field(call.changes).value
      else LastSet(s, before, field, initial)
  }

  function FormField(c: Changes): Option<Json> { c.formData }
  function SubmitterField(c: Changes): Option<Option<string>> { c.submitterId }
  function ReferenceField(c: Changes): Option<Option<string>> { c.externalRef }

  /** Each field is what the last allowed update of it has set, and an update is allowed exactly in draft. */
  lemma {:induction false} FieldsOfLastUpdate(s: Submission, calls: seq<Call>)
    ensures var end := Replay(s, calls);
            && end.formData == LastSet(s, calls, FormField, s.formData)
            && end.submitterId == LastSet(s, calls, SubmitterField, s.submitterId)
            && end.externalRef == LastSet(s, calls, ReferenceField, s.externalRef)
    ensures forall caller, changes ::
              Allowed(Replay(s, calls), Update(caller, changes)) <==>
              Replay(s, calls).status == Draft
              && (caller.superAdmin || !caller.makerOnly || Replay(s, calls).createdBy == caller.name)
  {
    if calls != [] {
      FieldsOfLastUpdate(s, calls[..|calls| - 1]);
      hide Allowed, Moved;
    }
  }

  /** Who took the last decision on a submission: approving, rejecting or returning it. */
  function LastDecider(history: seq<Entry>): Option<string> {
    if history == [] then None
    else
      var last := history[|history| - 1];
      if last.to in {Approved, Rejected, Returned} then last.changedBy else LastDecider(history[..|history| - 1])
  }

  lemma PerformDecider(s: Submission, call: Call)
    requires s.reviewedBy == LastDecider(s.history)
    ensures Perform(s, call).reviewedBy == LastDecider(Perform(s, call).history)
  {
    hide MayTransition, MayAccess;
    if Perform(s, call).history != s.history {
      assert Perform(s, call).history[..|s.history|] == s.history;
    }
  }

  /** The reviewer on record is the one of the last decision in the history. */
  lemma {:induction false} ReviewerOnRecord(caller: Caller, form: Json, id: Option<string>, ref: Option<string>, calls: seq<Call>)
    ensures var s := Replay(Create(caller, form, id, ref), calls);
            s.reviewedBy == LastDecider(s.history)
  {
    if calls == [] {
      assert Create(caller, form, id, ref).history[..0] == [];
    } else {
      ReviewerOnRecord(caller, form, id, ref, calls[..|calls| - 1]);
      hide Perform;
      PerformDecider(Replay(Create(caller, form, id, ref), calls[..|calls| - 1]), calls[|calls| - 1]);
    }
  }

  // ----- where histories lead -----

  /** Completed and cancelled submissions stay so. */
  lemma {:induction false} FinalStays(s: Submission, calls: seq<Call>)
    requires s.status == Completed || s.status == Cancelled
    ensures Replay(s, calls) == s
  {
    if calls != [] {
      FinalStays(s, calls[..|calls| - 1]);
    }
  }

  lemma {:induction false} SubmittedBefore(s: Submission, j: nat) returns (i: nat)
    requires HistoryIsPath(s) && j < |s.history| && s.history[j].to !in {Draft, Cancelled}
    ensures 0 < i <= j && s.history[i].to == Submitted
  {
    if s.history[j].to == Submitted {
      i := j;
    } else {
      assert s.history[j].to in ValidNext(s.history[j - 1].to);
      i := SubmittedBefore(s, j - 1);
    }
  }

  /** Whatever is in review, decided, returned or completed has been submitted before. */
  lemma ReviewedWasSubmitted(caller: Caller, form: Json, id: Option<string>, ref: Option<string>, calls: seq<Call>)
    ensures var s := Replay(Create(caller, form, id, ref), calls);
            s.status !in {Draft, Cancelled} ==> exists i :: 0 < i < |s.history| && s.history[i].to == Submitted
  {
    HistoryPath(caller, form, id, ref, calls);
    var s := Replay(Create(caller, form, id, ref), calls);
    hide Replay, HistoryIsPath;
    if s.status !in {Draft, Cancelled} {
      EndsAtStatus(s);
      var i := SubmittedBefore(s, |s.history| - 1);
    }
  }

  lemma EndsAtStatus(s: Submission)
    requires HistoryIsPath(s)
    ensures s.history != [] && s.history[|s.history| - 1].to == s.status
  {
  }

  /** A submission on record as valid went through a submit that validated its form data, which found no error. */
  lemma {:induction false} ValidatedWasValid(caller: Caller, form: Json, id: Option<string>, ref: Option<string>,
                                             calls: seq<Call>) returns (i: nat)
    requires Replay(Create(caller, form, id, ref), calls).validated
    ensures i < |calls| && calls[i].Submit? && calls[i].validate && calls[i].formValid
    ensures Allowed(Replay(Create(caller, form, id, ref), calls[..i]), calls[i])
    decreases |calls|
  {
    var start := Create(caller, form, id, ref);
    var before, call := calls[..|calls| - 1], calls[|calls| - 1];
    if Replay(start, before).validated {
      i := ValidatedWasValid(caller, form, id, ref, before);
      assert before[..i] == calls[..i];
    } else {
      i := |calls| - 1;
    }
  }

  /** From creation on: each field is what was given then, until an allowed update sets it. */
  lemma FieldsFromCreation(caller: Caller, form: Json, id: Option<string>, ref: Option<string>, calls: seq<Call>)
    ensures var start := Create(caller, form, id, ref);
            var end := Replay(start, calls);
            && end.formData == LastSet(start, calls, FormField, form)
            && end.submitterId == LastSet(start, calls, SubmitterField, id)
            && end.externalRef == LastSet(start, calls, ReferenceField, ref)
            && end.createdBy == caller.name
  {
    FieldsOfLastUpdate(Create(caller, form, id, ref), calls);
    HistoryPath(caller, form, id, ref, calls);
  }
}
