/** Review and publication of a template definition (app/services/tenant_templates/service.py). */
module Definitions {
  import opened Prelude
  import opened Json

  datatype Review = InDraft | PendingReview | Approved | ChangesRequested

  datatype LogAction = WasSubmitted | WasApproved | WasReturned

  /** The metadata that an update may set. */
  datatype Content = Content(versionTag: string, rulesConfig: Json, changelog: Option<string>)

  /** A question group and the unique keys of its questions. */
  datatype Group = Group(key: string, questionKeys: seq<string>)

  datatype Definition = Definition(
    content: Content,
    groups: seq<Group>,
    isDraft: bool,
    review: Review,
    submittedBy: Option<string>,
    reviewedBy: Option<string>,
    log: seq<LogAction>)

  datatype Call =
    | Update(versionTag: Option<string>, rulesConfig: Option<Json>, changelog: Option<Option<string>>)
    | EditQuestions(groups: seq<Group>)             // adding and deleting groups and questions
    | SubmitForReview(user: Option<string>)
    | Approve(user: Option<string>, authEnabled: bool)
    | RequestChanges(user: Option<string>)
    | Publish

  function Create(content: Content, groups: seq<Group>): Definition {
    Definition(content, groups, true, InDraft, None, None, [])
  }

  /** `_assert_definition_editable` */
  predicate Editable(d: Definition) {
    d.isDraft && !d.review.PendingReview?
  }

  predicate SelfApproval(d: Definition, user: Option<string>, authEnabled: bool) {
    authEnabled && d.submittedBy.Some? && d.submittedBy != Some("") && user == d.submittedBy
  }

  /** Group keys differ, and so do the question keys inside each group. */
  predicate KeysUnique(groups: seq<Group>) {
    && (forall i, j :: 0 <= i < j < |groups| ==> groups[i].key != groups[j].key)
    && forall i :: 0 <= i < |groups| ==> NoDuplicates(groups[i].questionKeys)
  }

  predicate Allowed(d: Definition, call: Call) {
    match call
    case Update(_, _, _) => Editable(d)
    case EditQuestions(_) => d.isDraft
    case SubmitForReview(_) => Editable(d) && !d.review.Approved?
    case Approve(user, authEnabled) => d.isDraft && d.review.PendingReview? && !SelfApproval(d, user, authEnabled)
    case RequestChanges(_) => d.isDraft && d.review.PendingReview?
    case Publish => d.isDraft && d.review.Approved? && KeysUnique(d.groups)
  }

  predicate ChangesAnything(call: Call)
    requires call.Update?
  {
    call.versionTag.Some? || call.rulesConfig.Some? || call.changelog.Some?
  }

  /** `_reset_review_state` */
  function ResetReview(d: Definition): Definition {
    d.(review := InDraft, submittedBy := None, reviewedBy := None)
  }

  function Updated(c: Content, call: Call): Content
    requires call.Update?
  {
    Content(if call.versionTag.Some? then call.versionTag.value else c.versionTag,
            if call.rulesConfig.Some? then call.rulesConfig.value else c.rulesConfig,
            if call.changelog.Some? then call.changelog.value else c.changelog)
  }

  /** One call; a refused call leaves the definition as it is. */
  function Perform(d: Definition, call: Call): Definition {
    if !Allowed(d, call) then d
    else
      match call
      case Update(_, _, _) =>
        var e := d.(content := Updated(d.content, call));
        if ChangesAnything(call) && (d.review.Approved? || d.review.ChangesRequested?) then ResetReview(e) else e
      case EditQuestions(groups) => d.(groups := groups)
      case SubmitForReview(user) =>
        d.(review := PendingReview, submittedBy := user, reviewedBy := None, log := d.log + [WasSubmitted])
      case Approve(user, _) => d.(review := Approved, reviewedBy := user, log := d.log + [WasApproved])
      case RequestChanges(user) => d.(review := ChangesRequested, reviewedBy := user, log := d.log + [WasReturned])
      case Publish => d.(isDraft := false)
  }

  function Replay(d: Definition, calls: seq<Call>): Definition {
    if calls == [] then d else Perform(Replay(d, calls[..|calls| - 1]), calls[|calls| - 1])
  }

  class DefinitionRow {
    var content: Content
    var groups: seq<Group>
    var isDraft: bool
    var review: Review
    var submittedBy: Option<string>
    var reviewedBy: Option<string>
    var log: seq<LogAction>

    function View(): Definition
      reads this
    {
      Definition(content, groups, isDraft, review, submittedBy, reviewedBy, log)
    }

    constructor (content: Content, groups: seq<Group>)
      ensures View() == Create(content, groups)
    {
      this.content, this.groups := content, groups;
      isDraft, review, submittedBy, reviewedBy, log := true, InDraft, None, None, [];
    }

    method ResetReviewState()
      modifies this
      ensures View() == ResetReview(old(View()))
    {
      review, submittedBy, reviewedBy := InDraft, None, None;
    }

    method UpdateDefinition(tag: Option<string>, rules: Option<Json>, changelog: Option<Option<string>>) returns (ok: bool)
      modifies this
      ensures ok == Allowed(old(View()), Update(tag, rules, changelog))
      ensures View() == Perform(old(View()), Update(tag, rules, changelog))
    {
      if !Editable(View()) {
        return false;
      }
      var call := Update(tag, rules, changelog);
      content := Updated(content, call);
      if ChangesAnything(call) && review in {Approved, ChangesRequested} {
        ResetReviewState();
      }
      return true;
    }

    method SubmitDefinition(user: Option<string>) returns (ok: bool)
      modifies this
      ensures ok == Allowed(old(View()), SubmitForReview(user))
      ensures View() == Perform(old(View()), SubmitForReview(user))
    {
      if !Editable(View()) || review == PendingReview || review == Approved {
        return false;
      }
      review, submittedBy, reviewedBy := PendingReview, user, None;
      log := log + [WasSubmitted];
      return true;
    }

    method ApproveDefinition(user: Option<string>, authEnabled: bool) returns (ok: bool)
      modifies this
      ensures ok == Allowed(old(View()), Approve(user, authEnabled))
      ensures View() == Perform(old(View()), Approve(user, authEnabled))
    {
      if !isDraft || review != PendingReview || SelfApproval(View(), user, authEnabled) {
        return false;
      }
      review, reviewedBy := Approved, user;
      log := log + [WasApproved];
      return true;
    }

    method RequestDefinitionChanges(user: Option<string>) returns (ok: bool)
      modifies this
      ensures ok == Allowed(old(View()), RequestChanges(user))
      ensures View() == Perform(old(View()), RequestChanges(user))
    {
      if !isDraft || review != PendingReview {
        return false;
      }
      review, reviewedBy := ChangesRequested, user;
      log := log + [WasReturned];
      return true;
    }

    /** The unique-key collision check of publishing. */
    static method CheckKeys(groups: seq<Group>) returns (unique: bool)
      ensures unique == KeysUnique(groups)
    {
      var seen: set<string> := {};
      for i := 0 to |groups|
        invariant seen == set j | 0 <= j < i :: groups[j].key
        invariant KeysUnique(groups[..i])
      {
        if groups[i].key in seen {
          assert exists j :: 0 <= j < i && groups[j].key == groups[i].key;
          return false;
        }
        seen := seen + {groups[i].key};
        var keys: set<string> := {};
        for q := 0 to |groups[i].questionKeys|
          invariant keys == set j | 0 <= j < q :: groups[i].questionKeys[j]
          invariant NoDuplicates(groups[i].questionKeys[..q])
        {
          if groups[i].questionKeys[q] in keys {
            assert !NoDuplicates(groups[i].questionKeys);
            return false;
          }
          keys := keys + {groups[i].questionKeys[q]};
        }
        assert groups[i].questionKeys[..|groups[i].questionKeys|] == groups[i].questionKeys;
      }
      assert groups[..|groups|] == groups;
      return true;
    }

    method PublishDefinition() returns (ok: bool)
      modifies this
      ensures ok == Allowed(old(View()), Publish)
      ensures View() == Perform(old(View()), Publish)
    {
      if !isDraft || review != Approved {
        return false;
      }
      var unique := CheckKeys(groups);
      if !unique {
        return false;
      }
      isDraft := false;
      return true;
    }
  }

  // ----- over whole runs -----

  /** The metadata at the last submission for review that was accepted. */
  function LastSubmitted(d: Definition, calls: seq<Call>): Option<Content> {
    if calls == [] then None
    else
      var before, call := calls[..|calls| - 1], calls[|calls| - 1];
      if call.SubmitForReview? && Allowed(Replay(d, before), call) then Some(Replay(d, before).content)
      else LastSubmitted(d, before)
  }

  predicate Alternating(log: seq<LogAction>) {
    forall i :: 0 <= i < |log| ==> (log[i].WasSubmitted? <==> i % 2 == 0)
  }

  predicate Sound(d: Definition, submitted: Option<Content>) {
    && (d.review.PendingReview? || d.review.Approved? ==> submitted == Some(d.content))
    && (!d.isDraft ==> d.review.Approved?)
    && Alternating(d.log)
    && (d.review.PendingReview? <==> |d.log| % 2 == 1)
  }

  lemma PerformSound(d: Definition, call: Call, submitted: Option<Content>)
    requires Sound(d, submitted)
    ensures Sound(Perform(d, call),
                  if call.SubmitForReview? && Allowed(d, call) then Some(d.content) else submitted)
  {
  }

  lemma {:induction false} RunSound(content: Content, groups: seq<Group>, calls: seq<Call>)
    ensures Sound(Replay(Create(content, groups), calls), LastSubmitted(Create(content, groups), calls))
  {
    if calls != [] {
      var start, before := Create(content, groups), calls[..|calls| - 1];
      RunSound(content, groups, before);
      PerformSound(Replay(start, before), calls[|calls| - 1], LastSubmitted(start, before));
    }
  }

  /** A published definition carries the metadata of its last submission, and the log alternates. */
  lemma PublishedAsSubmitted(content: Content, groups: seq<Group>, calls: seq<Call>)
    ensures var d := Replay(Create(content, groups), calls);
            && (!d.isDraft ==> LastSubmitted(Create(content, groups), calls) == Some(d.content))
            && Alternating(d.log)
  {
    RunSound(content, groups, calls);
  }

  /** The approval was given by somebody who had not submitted the definition, where that is enforced. */
  predicate IndependentApproval(d: Definition, call: Call) {
    call.Approve? && Allowed(d, call) && !SelfApproval(d, call.user, call.authEnabled)
  }

  lemma PerformApproves(d: Definition, call: Call)
    requires (!d.isDraft ==> d.review.Approved?) && Perform(d, call).review.Approved? && !d.review.Approved?
    ensures IndependentApproval(d, call)
  {
  }

  /** Every published definition went through such an approval, of exactly the metadata it carries. */
  lemma {:induction false} ApprovedByAnother(content: Content, groups: seq<Group>, calls: seq<Call>) returns (i: nat)
    requires Replay(Create(content, groups), calls).review.Approved?
    ensures i < |calls|
    ensures var d := Replay(Create(content, groups), calls[..i]);
            IndependentApproval(d, calls[i]) && d.content == Replay(Create(content, groups), calls).content
    decreases |calls|
  {
    var start, before := Create(content, groups), calls[..|calls| - 1];
    RunSound(content, groups, before);
    if Replay(start, before).review.Approved? {
      i := ApprovedByAnother(content, groups, before);
      assert before[..i] == calls[..i];
    } else {
      i := |calls| - 1;
      PerformApproves(Replay(start, before), calls[i]);
    }
  }

  // ----- the questions of a published definition -----

  /** The groups that the last allowed edit has left. */
  function LastEdited(d: Definition, calls: seq<Call>): seq<Group> {
    if calls == [] then d.groups
    else
      var before, call := calls[..|calls| - 1], calls[|calls| - 1];
      if call.EditQuestions? && Allowed(Replay(d, before), call) then call.groups else LastEdited(d, before)
  }

  /** The groups at the last submission for review that was accepted. */
  function SubmittedGroups(d: Definition, calls: seq<Call>): Option<seq<Group>> {
    if calls == [] then None
    else
      var before, call := calls[..|calls| - 1], calls[|calls| - 1];
      if call.SubmitForReview? && Allowed(Replay(d, before), call) then Some(Replay(d, before).groups)
      else SubmittedGroups(d, before)
  }

  /** A definition's groups are those of its last edit, reviewed or not; once published they have unique keys. */
  lemma {:induction false} GroupsOfLastEdit(content: Content, groups: seq<Group>, calls: seq<Call>)
    ensures var d := Replay(Create(content, groups), calls);
            d.groups == LastEdited(Create(content, groups), calls) && (!d.isDraft ==> KeysUnique(d.groups))
  {
    hide KeysUnique;
    if calls != [] {
      GroupsOfLastEdit(content, groups, calls[..|calls| - 1]);
    }
  }

  /** The review does not freeze the questions: submitted without any, approved by another user and then edited,
      a definition is published with a question that nobody has reviewed. */
  lemma UnreviewedQuestionPublished(content: Content)
    ensures var start, added := Create(content, []), [Group("g", ["q"])];
            var calls := [SubmitForReview(Some("maker")), Approve(Some("checker"), true), EditQuestions(added), Publish];
            var d := Replay(start, calls);
            !d.isDraft && d.groups == added && SubmittedGroups(start, calls) == Some([])
  {
    var start, added := Create(content, []), [Group("g", ["q"])];
    var calls := [SubmitForReview(Some("maker")), Approve(Some("checker"), true), EditQuestions(added), Publish];
    assert calls[..3][..2] == calls[..2] && calls[..2][..1] == calls[..1] && calls[..1][..0] == [];
    assert Replay(start, calls[..0]) == start;
    var submitted := Replay(start, calls[..1]);
    var approved := Replay(start, calls[..2]);
    assert submitted.review.PendingReview? && approved.review.Approved?;
    assert Replay(start, calls[..3]) == approved.(groups := added);
    assert SubmittedGroups(start, calls[..1]) == Some([]);
    assert SubmittedGroups(start, calls[..2]) == Some([]);
    assert SubmittedGroups(start, calls[..3]) == Some([]);
  }

  // ----- where the metadata and the approval come from -----

  /** What the last allowed update that set this field has set it to. */
  function LastSet<T>(d: Definition, calls: seq<Call>, field: Call -> Option<T>, initial: T): T {
    if calls == [] then initial
    else
      var before, call := calls[..|calls| - 1], calls[|calls| - 1];
      if call.Update? && Allowed(Replay(d, before), call) && field(call).Some? then field(call).value
      else LastSet(d, before, field, initial)
  }

  function TagField(call: Call): Option<string> {
    if call.Update? then call.versionTag else None
  }

  function RulesField(call: Call): Option<Json> {
    if call.Update? then call.rulesConfig else None
  }

  function ChangelogField(call: Call): Option<Option<string>> {
    if call.Update? then call.changelog else None
  }

  /** Each field of the metadata is what the last allowed update of it has set. */
  lemma {:induction false} ContentOfLastUpdate(d: Definition, calls: seq<Call>)
    ensures var content := Replay(d, calls).content;
            && content.versionTag == LastSet(d, calls, TagField, d.content.versionTag)
            && content.rulesConfig == LastSet(d, calls, RulesField, d.content.rulesConfig)
            && content.changelog == LastSet(d, calls, ChangelogField, d.content.changelog)
  {
    if calls != [] {
      ContentOfLastUpdate(d, calls[..|calls| - 1]);
      hide Allowed;
    }
  }

  /** The user of the last submission for review that was accepted. */
  function LastSubmitter(d: Definition, calls: seq<Call>): Option<Option<string>> {
    if calls == [] then None
    else
      var before, call := calls[..|calls| - 1], calls[|calls| - 1];
      if call.SubmitForReview? && Allowed(Replay(d, before), call) then Some(call.user) else LastSubmitter(d, before)
  }

  lemma {:induction false} SubmitterOnRecord(content: Content, groups: seq<Group>, calls: seq<Call>)
    ensures var start := Create(content, groups);
            Replay(start, calls).review.PendingReview? ==>
              LastSubmitter(start, calls) == Some(Replay(start, calls).submittedBy)
  {
    if calls != [] {
      SubmitterOnRecord(content, groups, calls[..|calls| - 1]);
      hide KeysUnique;
    }
  }

  /** Where logins are enforced nobody approves what they have submitted themselves. */
  lemma ApproverIsNotSubmitter(content: Content, groups: seq<Group>, calls: seq<Call>, user: Option<string>)
    ensures var start := Create(content, groups);
            Allowed(Replay(start, calls), Approve(user, true)) ==>
              && LastSubmitter(start, calls).Some?
              && (user.None? || user == Some("") || LastSubmitter(start, calls) != Some(user))
  {
    SubmitterOnRecord(content, groups, calls);
    hide Replay;
  }

  /** Who reviewed last, by a call that was accepted. */
  function LastReviewer(d: Definition, calls: seq<Call>): Option<Option<string>> {
    if calls == [] then None
    else
      var before, call := calls[..|calls| - 1], calls[|calls| - 1];
      if (call.Approve? || call.RequestChanges?) && Allowed(Replay(d, before), call) then Some(call.user)
      else LastReviewer(d, before)
  }

  /** While a review stands, the reviewer on record and the last log entry are those of that review. */
  lemma {:induction false} ReviewOnRecord(content: Content, groups: seq<Group>, calls: seq<Call>)
    ensures var start := Create(content, groups);
            var d := Replay(start, calls);
            && d.content.versionTag == LastSet(start, calls, TagField, content.versionTag)
            && d.groups == LastEdited(start, calls)
            && (d.review.Approved? || d.review.ChangesRequested? ==>
                  && LastReviewer(start, calls) == Some(d.reviewedBy)
                  && d.log != [] && d.log[|d.log| - 1] == (if d.review.Approved? then WasApproved else WasReturned))
            && (d.review.PendingReview? ==> d.log != [] && d.log[|d.log| - 1] == WasSubmitted && d.reviewedBy.None?)
            && (calls == [] ==> d.groups == groups && d.content == content && d.isDraft && d.log == [])
  {
    ContentOfLastUpdate(Create(content, groups), calls);
    GroupsOfLastEdit(content, groups, calls);
    if calls != [] {
      ReviewOnRecord(content, groups, calls[..|calls| - 1]);
      hide KeysUnique;
    }
  }
}
