/** What codes do to a waiting step (app/services/verifications/service.py:538-617), one by one and over runs. */
module VerificationRetries {
  import opened Prelude
  import opened PyStrings
  import opened Json
  import opened VerificationModel
  import opened VerificationAdvance
  import opened VerificationReferences
  import opened VerificationRuns
  import opened VerificationChallenges
  import opened VerificationLiveness

  // ----- a wrong code -----

  /** The code is looked at and is not the one expected now. For a Fayda step that takes a profile. */
  predicate WrongCode(ctx: Context, s: Step, code: Json) {
    NonBlankText(code) && ExpectedCode(ctx, s).Some? && !RightCode(ctx, s, code)
  }

  /** The step waits on, one attempt later. */
  predicate WaitsOn(s: Step, t: Step) {
    && Waiting(t) && t == s.(attempts := s.attempts + 1, outcome := Some(Undecided), error := Some(InvalidOtp))
  }

  /** The step has failed for good. */
  predicate GivesUp(s: Step, t: Step) {
    && t.status.Failed? && t.outcome == Some(Fail) && t.error == Some(MaxAttemptsReached) && t.completed
    && t.attempts == s.attempts + 1 && t.sentCode.None? && !t.waitingForCode
    && t.result == map["outcome" := Str("fail"), "reason" := Str("max_attempts_reached")]
    && t.input == s.input && t.output == s.output && t.def == s.def
  }

  lemma RetryCounts(s: Step)
    requires Waiting(s)
    ensures var t := RetryOrFail(Counted(s));
            if s.attempts + 1 < s.def.config.maxAttempts then WaitsOn(s, t) else GivesUp(s, t)
  {
  }

  lemma WrongCodeRetries(ctx: Context, s: Step, code: Json)
    requires WrongCode(ctx, s, code)
    ensures ApplyUserAction(ctx, s, code) == Applied(RetryOrFail(Counted(s)))
  {
    hide Blank, Strip, PhoneCode, FaydaCode, ProfileNow, PhoneAttributes, FaydaAttributes, RetryOrFail, Counted, Passes, Fails;
    CountedDef(s);
    SameProfile(ctx, s);
  }

  /** A wrong code leaves the step waiting if and only if another attempt is allowed after it. */
  lemma WrongCodeCounts(ctx: Context, s: Step, code: Json)
    requires Waiting(s) && WrongCode(ctx, s, code)
    ensures var acted := ApplyUserAction(ctx, s, code);
            && acted.Applied?
            && if s.attempts + 1 < s.def.config.maxAttempts then WaitsOn(s, acted.step) else GivesUp(s, acted.step)
  {
    hide ApplyUserAction, WrongCode, RetryOrFail, WaitsOn, GivesUp, Counted;
    WrongCodeRetries(ctx, s, code);
    RetryCounts(s);
  }

  lemma SameProfile(ctx: Context, s: Step)
    ensures ProfileNow(ctx, Counted(s)) == ProfileNow(ctx, s)
  {
  }

  /** A Fayda step whose profile has gone fails at the next code, whatever it is. */
  lemma LostProfileFails(ctx: Context, s: Step, code: Json)
    requires s.def.adapter.DemoFaydaOtp? && NonBlankText(code) && !ProfileNow(ctx, s).Obj? && !Truthy(ProfileNow(ctx, s))
    ensures var acted := ApplyUserAction(ctx, s, code);
            && acted.Applied? && acted.step.status.Failed? && acted.step.outcome == Some(Fail)
            && acted.step.error == Some(FaydaProfileNotFound) && acted.step.attempts == s.attempts + 1
  {
    hide Blank, ProfileNow;
    SameProfile(ctx, s);
  }

  // ----- a right code -----

  function FieldOf(profile: Fields, name: string): Json {
    if name in profile then profile[name] else Null
  }

  /** The attributes that a Fayda step verifies are those of the profile, each under its own name. */
  predicate VerifiesProfile(lib: Lib, t: Step, id: string, profile: Fields) {
    && t.status.Completed? && t.outcome == Some(Pass) && t.completed && t.sentCode.None? && !t.waitingForCode
    && "attributes" in t.output && t.output["attributes"].Obj?
    && var attributes := t.output["attributes"].fields;
       && attributes.Keys == {"national_id", "first_name", "last_name", "registered_phone", "date_of_birth"}
       && attributes["national_id"] == Str(id)
       && (forall name :: name in {"first_name", "last_name", "registered_phone", "date_of_birth"} ==>
             attributes[name] == FieldOf(profile, name))
       && t.output == map["attributes" := Obj(attributes)]
       && t.result == map["outcome" := Str("pass"), "attributes" := Obj(attributes)]
  }

  lemma RightCodeGives(ctx: Context, s: Step, code: Json)
    requires s.def.adapter.DemoFaydaOtp? && NonBlankText(code) && RightCode(ctx, s, code)
    ensures ProfileNow(ctx, s).Obj?
    ensures var (output, result) := FaydaAttributes(ctx.lib, Counted(s), ProfileNow(ctx, s).fields);
            ApplyUserAction(ctx, s, code) == Applied(Passes(Counted(s), output, result))
  {
    hide Blank, Strip, FaydaCode, ProfileNow, FaydaAttributes, RetryOrFail, Counted, Passes, Fails;
    CountedDef(s);
    SameProfile(ctx, s);
  }

  lemma AttributesOf(lib: Lib, s: Step, id: string, profile: Fields)
    requires "national_id" in s.input && s.input["national_id"] == Str(id) && id != ""
    ensures var (output, result) := FaydaAttributes(lib, s, profile);
            VerifiesProfile(lib, Passes(s, output, result), id, profile)
  {
    var (output, result) := FaydaAttributes(lib, s, profile);
    var attributes := output["attributes"].fields;
    assert attributes["national_id"] == Str(id);
    assert attributes["first_name"] == FieldOf(profile, "first_name");
    assert attributes["last_name"] == FieldOf(profile, "last_name");
    assert attributes["registered_phone"] == FieldOf(profile, "registered_phone");
    assert attributes["date_of_birth"] == FieldOf(profile, "date_of_birth");
  }

  /** The right code verifies the profile under the identifier that was given when the step started. */
  lemma FaydaVerifiesProfile(ctx: Context, s: Step, code: Json, id: string)
    requires s.def.adapter.DemoFaydaOtp? && NonBlankText(code) && RightCode(ctx, s, code)
    requires "national_id" in s.input && s.input["national_id"] == Str(id) && id != ""
    ensures var profile := ProfileOf(ctx.flow, s.def.config, id);
            && profile.Obj? && ApplyUserAction(ctx, s, code).Applied?
            && VerifiesProfile(ctx.lib, ApplyUserAction(ctx, s, code).step, id, profile.fields)
  {
    hide ApplyUserAction, RightCode, NonBlankText, VerifiesProfile, FaydaAttributes, Passes;
    RightCodeGives(ctx, s, code);
    assert ProfileNow(ctx, s) == ProfileOf(ctx.flow, s.def.config, id);
    AttributesOf(ctx.lib, Counted(s), id, ProfileNow(ctx, s).fields);
  }

  /** A reference to such an attribute of a passed step reads that field of the profile. */
  lemma AttributeReference(ctx: Context, rows: Rows, key: string, id: string, profile: Fields, name: string)
    requires key in rows && key != "" && '.' !in key && VerifiesProfile(ctx.lib, rows[key], id, profile)
    requires name in {"first_name", "last_name", "date_of_birth"}
    ensures Means(ctx, rows, STEPS + Join([key, "output"] + ["attributes", name], DOT), FieldOf(profile, name))
  {
    hide Means, Join;
    StepsReference(ctx, rows, key, "output", ["attributes", name]);
    assert ["attributes", name][1..] == [name] && [name][1..] == [];
    var attributes := rows[key].output["attributes"];
    assert Walk(attributes, [name]) == FieldOf(profile, name);
    assert Walk(Obj(rows[key].output), ["attributes", name]) == Walk(attributes, [name]);
  }

  // ----- wrong codes over a run -----

  /** The call brings a wrong code for the step that was waiting as s. */
  predicate BringsWrongCode(call: Call, key: string, s: Step) {
    call.op.Act? && call.op.key == key && WrongCode(call.ctx, s, call.op.code)
  }

  /** The run goes on waiting at the step, n attempts after it was s. */
  ghost predicate StillAt(run: Run, key: string, s: Step, n: nat) {
    && Sound(run) && run.active && key in run.rows && Waiting(run.rows[key])
    && run.rows[key].def == s.def && run.rows[key].input == s.input && run.rows[key].attempts == s.attempts + n
  }

  lemma SameExpectation(ctx: Context, s: Step, t: Step, code: Json)
    requires s.def == t.def && s.input == t.input
    ensures WrongCode(ctx, s, code) == WrongCode(ctx, t, code) && RightCode(ctx, s, code) == RightCode(ctx, t, code)
  {
    hide PhoneCode, FaydaCode, Blank;
    assert ProfileNow(ctx, s) == ProfileNow(ctx, t);
  }

  /** The row that an accepted action leaves is kept by the advance that follows. */
  lemma ActKeepsRow(run: Run, call: Call)
    requires Sound(run) && call.op.Act? && run.active && call.op.key in run.rows && Waiting(run.rows[call.op.key])
    requires ApplyUserAction(call.ctx, run.rows[call.op.key], call.op.code).Applied?
    ensures var run' := Perform(run, call);
            && Sound(run') && call.op.key in run'.rows
            && run'.rows[call.op.key] == ApplyUserAction(call.ctx, run.rows[call.op.key], call.op.code).step
            && (run'.active <==> !AllTerminal(run'.rows))
  {
    hide Perform, Acted, ApplyUserAction, AdvanceRows, RowsSound, StepSound, Advances, ActsOn;
    var key, ctx := call.op.key, call.ctx;
    ActCall(run, ctx, key, call.op.code);
    PerformSound(run, call);
    ActedSound(run, call);
    ActedShape(run, call);
    PerformPhases(run, call);
    assert Advances(run, call) by { ActAdvances(run, call); }
    AdvanceRowsSound(ctx, Acted(run, call));
    FinishedIffTerminal(run, call);
  }

  lemma WrongCodeInRun(run: Run, key: string, s: Step, n: nat, call: Call)
    requires StillAt(run, key, s, n) && BringsWrongCode(call, key, s)
    ensures var run' := Perform(run, call);
            if s.attempts + n + 1 < s.def.config.maxAttempts then StillAt(run', key, s, n + 1)
            else key in run'.rows && GivesUp(run.rows[key], run'.rows[key])
  {
    hide Perform, Sound, ApplyUserAction, WrongCode;
    SameExpectation(call.ctx, s, run.rows[key], call.op.code);
    WrongCodeCounts(call.ctx, run.rows[key], call.op.code);
    ActKeepsRow(run, call);
  }

  /** Fewer wrong codes than the step has attempts left leave it waiting, each counted once. */
  lemma {:induction false} WrongCodesWait(run: Run, key: string, s: Step, calls: seq<Call>)
    requires StillAt(run, key, s, 0) && forall i :: 0 <= i < |calls| ==> BringsWrongCode(calls[i], key, s)
    requires s.attempts + |calls| < Budget(s.def)
    ensures StillAt(Replay(run, calls), key, s, |calls|)
  {
    hide Perform, StillAt, BringsWrongCode;
    if calls != [] {
      var before := calls[..|calls| - 1];
      WrongCodesWait(run, key, s, before);
      assert BringsWrongCode(calls[|calls| - 1], key, s);
      WrongCodeInRun(Replay(run, before), key, s, |before|, calls[|calls| - 1]);
    }
  }

  /** The one that uses up the budget fails it. */
  lemma LastWrongCodeFails(run: Run, key: string, s: Step, calls: seq<Call>)
    requires StillAt(run, key, s, 0) && forall i :: 0 <= i < |calls| ==> BringsWrongCode(calls[i], key, s)
    requires calls != [] && s.attempts + |calls| == Budget(s.def)
    ensures var run' := Replay(run, calls);
            && key in run'.rows && run'.rows[key].status.Failed? && run'.rows[key].attempts == Budget(s.def)
            && run'.rows[key].error == Some(MaxAttemptsReached)
  {
    hide Perform, BringsWrongCode, Sound;
    var before := calls[..|calls| - 1];
    WrongCodesWait(run, key, s, before);
    assert BringsWrongCode(calls[|calls| - 1], key, s);
    WrongCodeInRun(Replay(run, before), key, s, |before|, calls[|calls| - 1]);
  }

  /** And the right code still passes it after any smaller number of wrong ones. */
  lemma RightCodeAfterWrongOnes(run: Run, key: string, s: Step, calls: seq<Call>, ctx: Context, code: Json)
    requires StillAt(run, key, s, 0) && forall i :: 0 <= i < |calls| ==> BringsWrongCode(calls[i], key, s)
    requires s.attempts + |calls| < Budget(s.def)
    requires NonBlankText(code) && RightCode(ctx, s, code)
    ensures var run' := Perform(Replay(run, calls), Call(ctx, Act(key, code)));
            key in run'.rows && run'.rows[key].outcome == Some(Pass) && Terminal(run'.rows[key])
  {
    hide Perform, BringsWrongCode, Sound, RightCode, NonBlankText;
    WrongCodesWait(run, key, s, calls);
    var now := Replay(run, calls);
    SameExpectation(ctx, s, now.rows[key], code);
    RightCodePasses(now, ctx, key, now.rows[key], code);
  }
}
