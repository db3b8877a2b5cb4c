/** What single steps promise, and why the step-order theorem needs its hypothesis. */
module VerificationChallenges {
  import opened Prelude
  import opened PyStrings
  import opened Json
  import opened VerificationModel
  import opened VerificationScheduler
  import opened VerificationAdvance
  import opened VerificationReferences
  import opened VerificationRuns

  lemma PhoneAnnounces(ctx: Context, s: Step)
    requires s.def.adapter.DemoPhoneOtp? && Waiting(PhoneChallenge(ctx, s)) && !Waiting(s)
    ensures var t := PhoneChallenge(ctx, s);
            t.sentCode.Some? && ExpectedCode(ctx, t) == t.sentCode
  {
    hide PhoneCode, NonBlankText, GetOrNull;
  }

  lemma FaydaAnnounces(ctx: Context, s: Step)
    requires s.def.adapter.DemoFaydaOtp? && Waiting(FaydaChallenge(ctx, s)) && !Waiting(s)
    ensures var t := FaydaChallenge(ctx, s);
            t.sentCode.Some? && ExpectedCode(ctx, t) == t.sentCode
  {
    hide FaydaCode, Registry, GetOrNull, Blank;
    var id := GetOrNull(s.input, "national_id");
    assert id.Str? && id.s != "" by { EmptyIsBlank(); }
    assert TextOr(ctx.lib, id, "") == id.s;
    var t := FaydaChallenge(ctx, s);
    assert t.input == s.input && t.def == s.def;
    assert ProfileNow(ctx, t) == GetOrNull(Registry(ctx.flow, s.def.config), id.s);
  }

  /** The code that goes out with a challenge is the code that answers it, as long as the context is the same. */
  lemma ChallengeAnnouncesCode(ctx: Context, rows: Rows, s: Step)
    requires s.def.stepType.ChallengeResponse? && !Waiting(s) && Waiting(Execute(ctx, rows, s))
    ensures var t := Execute(ctx, rows, s);
            t.sentCode.Some? && ExpectedCode(ctx, t) == t.sentCode
  {
    hide ResolveInput, PhoneChallenge, FaydaChallenge, ExpectedCode;
    var u := s.(input := ResolveInput(ctx, rows, s.def.config.input), started := true);
    match s.def.adapter
    case DemoPhoneOtp => PhoneAnnounces(ctx, u);
    case DemoFaydaOtp => FaydaAnnounces(ctx, u);
    case OtherAdapter =>
  }

  lemma CountedProfile(ctx: Context, s: Step)
    ensures ProfileNow(ctx, Counted(s)) == ProfileNow(ctx, s)
  {
  }

  lemma RightCodeApplies(ctx: Context, s: Step, code: Json)
    requires RightCode(ctx, s, code) && NonBlankText(code)
    ensures ApplyUserAction(ctx, s, code).Applied?
  {
    hide PhoneCode, FaydaCode, Blank, Strip, PhoneAction, FaydaAction, ProfileNow, Counted, Fails;
    CountedProfile(ctx, s);
    assert Counted(s).def == s.def by { CountedDef(s); }
  }

  lemma CountedDef(s: Step)
    ensures Counted(s).def == s.def
  {
  }

  /** Typed exactly as it was sent, the code passes the step if and only if it is not blank and has no blank ends:
      what is typed is stripped, what is expected is not. */
  lemma AnnouncedCodePasses(ctx: Context, rows: Rows, s: Step)
    requires s.def.stepType.ChallengeResponse? && Startable(s) && StepSound(s) && Waiting(Execute(ctx, rows, s))
    ensures var t := Execute(ctx, rows, s);
            && t.sentCode.Some?
            && var acted := ApplyUserAction(ctx, t, Str(t.sentCode.value));
               (acted.Applied? && acted.step.outcome == Some(Pass)) <==> (!Blank(t.sentCode.value) && Trimmed(t.sentCode.value))
  {
    hide Execute, ExpectedCode, ApplyUserAction, StepSound, Strip;
    var t := Execute(ctx, rows, s);
    ChallengeAnnouncesCode(ctx, rows, s);
    ExecuteStarts(ctx, rows, s);
    StartedSound(s, t);
    var code := t.sentCode.value;
    StripTrims(code);
    if ApplyUserAction(ctx, t, Str(code)).Applied? {
      ActionStep(ctx, t, Str(code));
      AppliedNotBlank(ctx, t, Str(code));
    } else if !Blank(code) && Trimmed(code) {
      RightCodeApplies(ctx, t, Str(code));
    }
  }

  lemma AppliedNotBlank(ctx: Context, s: Step, code: Json)
    requires ApplyUserAction(ctx, s, code).Applied?
    ensures NonBlankText(code)
  {
  }

  // ----- the number that is verified -----

  /** A phone challenge that waits has sent its code to the number of its input. */
  predicate SentToInput(s: Step) {
    && NonBlankText(GetOrNull(s.input, "phone_number"))
    && GetOrNull(s.output, "target") == GetOrNull(s.input, "phone_number")
  }

  lemma PhoneSends(ctx: Context, s: Step)
    requires Waiting(PhoneChallenge(ctx, s)) && !Waiting(s)
    ensures SentToInput(PhoneChallenge(ctx, s))
  {
    hide PhoneCode, NonBlankText;
  }

  /** A wrong code leaves that as it was; a right one verifies exactly the number the code went to. */
  lemma PhoneVerifiesTarget(lib: Lib, s: Step, code: string)
    requires Waiting(s) && SentToInput(s)
    ensures var t := PhoneAction(lib, Counted(s), code);
            if Strip(code) == PhoneCode(lib, s.def.config) then
              && t.outcome == Some(Pass)
              && t.output == map["phone_number" := s.output["target"], "verified" := Bool(true)]
              && t.result == map["outcome" := Str("pass"), "attributes" :=
                   Obj(map["phone_number" := s.output["target"], "phone_verified" := Bool(true)])]
            else t.input == s.input && t.output == s.output && t.outcome != Some(Pass)
  {
    hide PhoneCode, Strip;
    EmptyIsBlank();
    assert Truthy(GetOrNull(s.input, "phone_number"));
  }

  /** A step that an action finishes is still marked as waiting for a code exactly when its profile was gone. */
  lemma StaleWaitingFor(ctx: Context, s: Step, code: Json)
    requires Waiting(s) && s.waitingForCode
    requires ApplyUserAction(ctx, s, code).Applied?
    ensures var t := ApplyUserAction(ctx, s, code).step;
            Terminal(t) ==> (t.waitingForCode <==> s.def.adapter.DemoFaydaOtp? && !ProfileNow(ctx, s).Obj?)
  {
    hide PhoneCode, FaydaCode, PhoneAttributes, FaydaAttributes, Strip;
    assert ProfileNow(ctx, Counted(s)) == ProfileNow(ctx, s);
  }

  // ----- scores -----

  ghost predicate InUnit(cs: seq<Compared>) {
    forall c :: c in cs ==> 0.0 <= c.score <= 1.0
  }

  /** Scores stay between 0 and 1 as long as the library's ratio does, whatever the references resolve to. */
  lemma {:induction false} ScoresInUnit(ctx: Context, rows: Rows, pairs: seq<PairEntry>)
    requires forall l, r :: 0.0 <= ctx.lib.ratio(l, r) <= 1.0
    ensures InUnit(ComparePairs(ctx, rows, pairs))
  {
    hide ResolveRef, Strip;
    if pairs != [] {
      ScoresInUnit(ctx, rows, pairs[..|pairs| - 1]);
    }
  }

  /** The total reaches the number of pairs only when every single pair agrees completely. */
  lemma {:induction false} PerfectTotal(cs: seq<Compared>)
    requires InUnit(cs)
    ensures 0.0 <= TotalScore(cs) <= |cs| as real
    ensures TotalScore(cs) == |cs| as real <==> forall c :: c in cs ==> c.score == 1.0
  {
    if cs != [] {
      var before, last := cs[..|cs| - 1], cs[|cs| - 1];
      assert cs == before + [last] && last in cs;
      assert forall c :: c in cs <==> c in before || c == last;
      PerfectTotal(before);
    }
  }

  /** When every pair agrees the average is exactly 1, so any pass score up to the rounded 1 is reached. */
  lemma AgreementPasses(ctx: Context, s: Step, cs: seq<Compared>)
    requires cs != [] && forall c :: c in cs ==> c.score == 1.0
    requires s.def.config.passScore <= ctx.lib.round4(1.0)
    ensures Graded(ctx, s, cs).outcome == Some(Pass)
  {
    hide AsJson, OutcomeText;
    PerfectTotal(cs);
    assert TotalScore(cs) / (|cs| as real) == 1.0;
  }

  // ----- a reference to a step that is no dependency -----

  /** A phone challenge whose number is given, or read from a reference. */
  function PhoneStep(key: string, phone: Json): StepDef {
    StepDef(key, ChallengeResponse, DemoPhoneOtp, [],
            StepConfig(map["phone_number" := phone], Null, 3, None, None, 0.9, 0.75))
  }

  const TARGET := "steps.a.output.target"

  /** Step b reads the number that step a sent its code to, without depending on a. */
  function LooseRows(): Rows {
    map["a" := NewStep(PhoneStep("a", Str("1"))), "b" := NewStep(PhoneStep("b", Str(TARGET)))]
  }

  lemma ReadsTarget(ctx: Context, rows: Rows)
    ensures ResolveRef(ctx, rows, Str(TARGET)) ==
            if "a" in rows then Walk(Obj(rows["a"].output), ["target"]) else Null
  {
    hide ResolveRef, Walk;
    var parts := ["a", "output"] + ["target"];
    assert parts[1..] == ["output", "target"] && ["output", "target"][1..] == ["target"];
    assert Join(["output", "target"], DOT) == "output" + DOT + "target";
    assert STEPS + Join(parts, DOT) == TARGET;
    StepsReference(ctx, rows, "a", "output", ["target"]);
  }

  lemma WalkTarget(output: Fields)
    ensures Walk(Obj(output), ["target"]) == GetOrNull(output, "target")
  {
    assert ["target"][1..] == [];
  }

  lemma ReadsOne(ctx: Context, rows: Rows)
    ensures ResolveRef(ctx, rows, Str("1")) == Str("1")
  {
    hide ResolveRef;
    LiteralReference(ctx, rows, "1");
  }

  lemma StartsA(ctx: Context, rows: Rows)
    requires "a" in rows && rows["a"] == NewStep(PhoneStep("a", Str("1")))
    ensures var t := Execute(ctx, rows, rows["a"]);
            Waiting(t) && t.output == map["channel" := Str("sms"), "target" := Str("1")]
  {
    hide ResolveRef, PhoneCode, NonBlankText;
    var s := rows["a"];
    ReadsOne(ctx, rows);
    OneIsText();
    assert ResolveInput(ctx, rows, s.def.config.input)["phone_number"] == Str("1");
  }

  lemma OneIsText()
    ensures NonBlankText(Str("1")) && !NonBlankText(Null)
  {
    hide Strip;
    StripTrims("1");
    assert Trimmed("1");
  }

  lemma StartsB(ctx: Context, rows: Rows)
    requires "a" in rows && "b" in rows && rows["b"] == NewStep(PhoneStep("b", Str(TARGET)))
    requires rows["a"].output == map[] || rows["a"].output == map["channel" := Str("sms"), "target" := Str("1")]
    ensures Waiting(Execute(ctx, rows, rows["b"])) <==> rows["a"].output != map[]
  {
    hide ResolveRef, PhoneCode, Walk, NonBlankText;
    var s := rows["b"];
    ReadsTarget(ctx, rows);
    WalkTarget(rows["a"].output);
    OneIsText();
    var input := ResolveInput(ctx, rows, s.def.config.input);
    assert input["phone_number"] == GetOrNull(rows["a"].output, "target");
    assert rows["a"].output != map[] ==> "channel" in rows["a"].output;
  }

  /** Starting a before b leaves b waiting for its code; starting b first fails it. */
  lemma OrderMattersOtherwise(ctx: Context)
    ensures var rows := LooseRows();
            && WellStarted(rows) && Lists(["a", "b"], rows) && Lists(["b", "a"], rows)
            && AdvanceRows(ctx, rows, ["a", "b"]) != AdvanceRows(ctx, rows, ["b", "a"])
  {
    hide AdvanceRows;
    AFirst(ctx);
    BFirst(ctx);
  }

  lemma AFirst(ctx: Context)
    ensures var rows := AdvanceRows(ctx, LooseRows(), ["a", "b"]);
            "b" in rows && Waiting(rows["b"])
  {
    hide Execute, PassFrom;
    var rows, order := LooseRows(), ["a", "b"];
    StartsA(ctx, rows);
    var one := Fire(ctx, rows, "a");
    PassUnfolds(ctx, rows, order, 0);
    assert PassFrom(ctx, rows, order, 0) == (one, true);
    StartsB(ctx, one);
    assert "channel" in one["a"].output;
    assert Ready(one, "b") && !Ready(one, "a");
    var two := Fire(ctx, one, "b");
    PassUnfolds(ctx, one, order, 0);
    PassUnfolds(ctx, one, order, 1);
    assert PassFrom(ctx, one, order, 0) == (two, true);
    AdvanceKeeps(ctx, two, order);
    AdvanceUnfolds(ctx, rows, order);
    AdvanceUnfolds(ctx, one, order);
  }

  lemma AdvanceUnfolds(ctx: Context, rows: Rows, order: seq<string>)
    ensures var (rows', progress) := PassFrom(ctx, rows, order, 0);
            progress ==> AdvanceRows(ctx, rows, order) == AdvanceRows(ctx, rows', order)
  {
  }

  lemma BFirst(ctx: Context)
    ensures var rows := AdvanceRows(ctx, LooseRows(), ["b", "a"]);
            "b" in rows && !Waiting(rows["b"])
  {
    hide Execute;
    var rows, order := LooseRows(), ["b", "a"];
    StartsB(ctx, rows);
    ExecuteStarts(ctx, rows, rows["b"]);
    var one := Fire(ctx, rows, "b");
    assert Ready(rows, "b");
    PassUnfolds(ctx, rows, order, 0);
    var ks := PassSchedules(ctx, one, order, 1);
    ScheduleKeeps(ctx, one, ks);
    var two := PassFrom(ctx, one, order, 1).0;
    assert two["b"] == one["b"];
    AdvanceKeeps(ctx, two, order);
    assert AdvanceRows(ctx, rows, order) == AdvanceRows(ctx, two, order);
  }
}
