/**
  What references and inputs stand for (app/services/verifications/service.py:405-509, 788-875), from the text of a
  reference to the step that reads it.
 */
module VerificationReferences {
  import opened Prelude
  import opened PyStrings
  import opened Json
  import opened VerificationModel

  // ----- the value of a reference -----

  /** Dot-free, non-empty names, of which the last has no blank end. */
  predicate Path(names: seq<string>) {
    && names != [] && (forall i :: 0 <= i < |names| ==> names[i] != "" && '.' !in names[i])
    && !IsSpace(names[|names| - 1][|names[|names| - 1]| - 1])
  }

  lemma {:induction false} JoinLast(names: seq<string>)
    requires Path(names)
    ensures var j := Join(names, DOT); j != "" && !IsSpace(j[|j| - 1])
  {
    if |names| > 1 {
      JoinLast(names[1..]);
    }
  }

  lemma NotPrefixed(s: string, c: char)
    requires s != "" && s[0] != c
    ensures !StartsWith(s, [c])
  {
    assert s[..1][0] == s[0];
  }

  /** A reference without blank ends, with or without its dollar sign, is read as it stands. */
  lemma ReferencePath(ref: string)
    requires ref != "" && !IsSpace(ref[0]) && ref[0] != '$' && !IsSpace(ref[|ref| - 1])
    ensures RefPath(ref) == ref && RefPath("$" + ref) == ref
  {
    hide Strip;
    assert Trimmed(ref) && Trimmed("$" + ref);
    StripTrims(ref);
    StripTrims("$" + ref);
    NotPrefixed(ref, '$');
    assert StartsWith("$" + ref, "$");
  }

  lemma PrefixOf(prefix: string, rest: string)
    ensures StartsWith(prefix + rest, prefix) && (prefix + rest)[|prefix|..] == rest
  {
  }

  lemma OtherPrefix(prefix: string, rest: string, other: string, i: nat)
    requires i < |prefix| && i < |other| && prefix[i] != other[i]
    ensures !StartsWith(prefix + rest, other)
  {
    var s := prefix + rest;
    if |other| <= |s| {
      assert s[..|other|][i] == s[i];
    }
  }

  /** References of this kind, written with and without the dollar sign. */
  predicate Means(ctx: Context, rows: Rows, ref: string, value: Json) {
    ResolveRef(ctx, rows, Str(ref)) == value && ResolveRef(ctx, rows, Str("$" + ref)) == value
  }

  /** `answers.a.b` walks the form data. */
  lemma AnswersReference(ctx: Context, rows: Rows, names: seq<string>)
    requires Path(names)
    ensures Means(ctx, rows, ANSWERS + Join(names, DOT), Walk(Obj(ctx.submission.formData), names))
  {
    hide RefPath, Split, StartsWith, Walk;
    var rest := Join(names, DOT);
    var ref := ANSWERS + rest;
    JoinLast(names);
    assert ref[|ref| - 1] == rest[|rest| - 1] && ref[0] == 'a';
    ReferencePath(ref);
    PrefixOf(ANSWERS, rest);
    LookupNames(Obj(ctx.submission.formData), names);
  }

  /** `submission.path` is an attribute of the submission. */
  lemma SubmissionReference(ctx: Context, rows: Rows, path: string)
    requires path != "" && !IsSpace(path[|path| - 1])
    ensures Means(ctx, rows, SUBMISSION + path, ctx.lib.attribute(ctx.submission, path))
  {
    hide RefPath, Split, StartsWith;
    var ref := SUBMISSION + path;
    assert ref[|ref| - 1] == path[|path| - 1] && ref[0] == 's';
    ReferencePath(ref);
    PrefixOf(SUBMISSION, path);
    OtherPrefix(SUBMISSION, path, ANSWERS, 0);
  }

  lemma StepsParts(parts: seq<string>)
    requires |parts| >= 1 && forall i :: 0 <= i < |parts| ==> '.' !in parts[i]
    ensures Split(STEPS + Join(parts, DOT), DOT) == ["steps"] + parts
  {
    var all := ["steps"] + parts;
    assert all[1..] == parts;
    assert Join(all, DOT) == "steps" + DOT + Join(parts, DOT);
    assert "steps" + DOT == STEPS;
    SplitJoin(all, '.');
  }

  /** What `steps.K.output...` or `steps.K.result...` is read from. */
  function Snapshot(s: Step, field: string): Fields {
    if field == "output" then s.output else s.result
  }

  /** `steps.K.output.a.b` walks the output of K, `steps.K.result.a.b` its result; an unknown K gives null. */
  lemma StepsReference(ctx: Context, rows: Rows, key: string, field: string, names: seq<string>)
    requires key != "" && '.' !in key && field in {"output", "result"}
    requires names == [] || Path(names)
    ensures Means(ctx, rows, STEPS + Join([key, field] + names, DOT),
                  if key in rows then Walk(Obj(Snapshot(rows[key], field)), names) else Null)
  {
    hide RefPath, Split, StartsWith, Walk;
    var parts := [key, field] + names;
    var rest := Join(parts, DOT);
    var ref := STEPS + rest;
    assert Path(parts) by {
      assert forall i :: 2 <= i < |parts| ==> parts[i] == names[i - 2];
    }
    JoinLast(parts);
    assert ref[|ref| - 1] == rest[|rest| - 1] && ref[0] == 's';
    ReferencePath(ref);
    PrefixOf(STEPS, rest);
    OtherPrefix(STEPS, rest, ANSWERS, 0);
    OtherPrefix(STEPS, rest, SUBMISSION, 1);
    StepsParts(parts);
    ReadsSnapshot(Visible(rows, key), ["steps"] + parts, names);
  }

  lemma ReadsSnapshot(seen: Option<(Fields, Fields)>, parts: seq<string>, names: seq<string>)
    requires |parts| >= 3 && parts[3..] == names && parts[2] in {"output", "result"} && (names == [] || Path(names))
    ensures ReadStep(seen, parts) ==
            if seen.None? then Null else Walk(Obj(if parts[2] == "output" then seen.value.0 else seen.value.1), names)
  {
    hide Walk;
    if seen.Some? {
      var fields := if parts[2] == "output" then seen.value.0 else seen.value.1;
      if names == [] {
        assert Join(names, DOT) == "";
        WalkNothing(Obj(fields));
      } else {
        LookupNames(Obj(fields), names);
      }
    }
  }

  lemma WalkNothing(j: Json)
    ensures Walk(j, []) == j
  {
  }

  /** Any other text without blank ends stands for itself, and what is no text does so anyway. */
  lemma LiteralReference(ctx: Context, rows: Rows, ref: string)
    requires ref != "" && !IsSpace(ref[0]) && ref[0] != '$' && !IsSpace(ref[|ref| - 1])
    requires !StartsWith(ref, ANSWERS) && !StartsWith(ref, SUBMISSION) && !StartsWith(ref, STEPS)
    ensures Means(ctx, rows, ref, Str(ref))
  {
    hide RefPath, Split, StartsWith;
    ReferencePath(ref);
  }

  lemma ValueReference(ctx: Context, rows: Rows, ref: Json)
    requires !ref.Str?
    ensures ResolveRef(ctx, rows, ref) == ref
  {
  }

  // ----- a phone challenge on an answer of the form -----

  /** `str(value or default)`, spelled out for each kind of value. */
  function TextOrElse(lib: Lib, value: Json, default: string): string {
    if value in {Null, Bool(false), Num(0.0), Str(""), Arr([]), Obj(map[])} then default
    else if value.Str? then value.s
    else lib.text(value)
  }

  lemma TextOrMeans(lib: Lib, code: Json, default: string)
    ensures TextOr(lib, code, default) == TextOrElse(lib, code, default)
  {
  }

  /** The step reads its number from the answer at this path. */
  predicate ReadsAnswer(s: Step, name: string, names: seq<string>) {
    Path(names) && name in s.def.config.input && s.def.config.input[name] == Str("$" + (ANSWERS + Join(names, DOT)))
  }

  lemma InputIsAnswer(ctx: Context, rows: Rows, s: Step, name: string, names: seq<string>)
    requires ReadsAnswer(s, name, names)
    ensures GetOrNull(ResolveInput(ctx, rows, s.def.config.input), name) == Walk(Obj(ctx.submission.formData), names)
  {
    hide ResolveRef, Walk;
    AnswersReference(ctx, rows, names);
  }

  /** A phone step whose number is an answer starts to wait if and only if that answer is a text that is not blank,
      and then its code, the configured one or 111111, goes to exactly that answer. */
  lemma PhoneStepReadsAnswer(ctx: Context, rows: Rows, s: Step, names: seq<string>)
    requires s.def.stepType.ChallengeResponse? && s.def.adapter.DemoPhoneOtp? && Startable(s)
    requires ReadsAnswer(s, "phone_number", names)
    ensures var answer, t := Walk(Obj(ctx.submission.formData), names), Execute(ctx, rows, s);
            if answer.Str? && !Blank(answer.s) then
              && Waiting(t) && t.waitingForCode && t.started && t.result == map["phase" := Str("challenge_sent")]
              && t.output == map["channel" := Str("sms"), "target" := answer]
              && t.sentCode == Some(TextOrElse(ctx.lib, s.def.config.demoCode, "111111"))
            else t.status.Failed? && t.outcome == Some(Fail) && t.error == Some(MissingPhoneNumber)
  {
    hide Walk, ResolveInput, Blank, TextOr, TextOrElse;
    InputIsAnswer(ctx, rows, s, "phone_number", names);
    TextOrMeans(ctx.lib, s.def.config.demoCode, "111111");
    var u := s.(input := ResolveInput(ctx, rows, s.def.config.input), started := true);
    assert Execute(ctx, rows, s) == PhoneChallenge(ctx, u);
  }

  /** The profile that the registry of the flow, or else that of the step, holds under an identifier. */
  function ProfileOf(flow: FlowConfig, cfg: StepConfig, id: string): Json {
    match flow.demoRegistry
    case Some(registry) => if id in registry then registry[id] else Null
    case None =>
      match cfg.demoRegistry
      case Some(registry) => if id in registry then registry[id] else Null
      case None => Null
  }

  /** The code of a profile: its own, else the configured one, else 222222. */
  function ProfileCode(lib: Lib, profile: Fields, cfg: StepConfig): string {
    TextOrElse(lib, if "otp_code" in profile then profile["otp_code"] else Null,
                   TextOrElse(lib, cfg.demoCode, "222222"))
  }

  function ProfilePhone(lib: Lib, profile: Fields): string {
    if "registered_phone" in profile then TextOrElse(lib, profile["registered_phone"], "") else ""
  }

  lemma FaydaCodeMeans(lib: Lib, profile: Fields, cfg: StepConfig)
    ensures FaydaCode(lib, profile, cfg) == ProfileCode(lib, profile, cfg)
  {
    hide TextOr;
    TextOrMeans(lib, cfg.demoCode, "222222");
  }

  /** A Fayda step whose identifier is an answer starts to wait if and only if that answer is a text that is not
      blank and the registry has a profile under it; its code is then the profile's. */
  lemma FaydaStepReadsAnswer(ctx: Context, rows: Rows, s: Step, names: seq<string>)
    requires s.def.stepType.ChallengeResponse? && s.def.adapter.DemoFaydaOtp? && Startable(s)
    requires ReadsAnswer(s, "national_id", names)
    ensures var answer, t := Walk(Obj(ctx.submission.formData), names), Execute(ctx, rows, s);
            if !answer.Str? || Blank(answer.s) then
              t.status.Failed? && t.outcome == Some(Fail) && t.error == Some(MissingNationalId)
            else
              var profile := ProfileOf(ctx.flow, s.def.config, answer.s);
              if profile.Obj? then
                && Waiting(t) && t.waitingForCode && t.started && t.result == map["phase" := Str("challenge_sent")]
                && t.output == map["registered_phone" := Str(ProfilePhone(ctx.lib, profile.fields)), "national_id" := answer]
                && t.sentCode == Some(ProfileCode(ctx.lib, profile.fields, s.def.config))
              else t.status.Failed? && t.outcome == Some(Fail) && t.error == Some(FaydaProfileNotFound)
  {
    hide Walk, ResolveInput, Blank, TextOr, FaydaCode, ProfileCode;
    var answer := Walk(Obj(ctx.submission.formData), names);
    InputIsAnswer(ctx, rows, s, "national_id", names);
    var u := s.(input := ResolveInput(ctx, rows, s.def.config.input), started := true);
    assert Execute(ctx, rows, s) == FaydaChallenge(ctx, u);
    if answer.Str? {
      var profile := ProfileOf(ctx.flow, s.def.config, answer.s);
      assert GetOrNull(Registry(ctx.flow, s.def.config), answer.s) == profile;
      if profile.Obj? {
        FaydaCodeMeans(ctx.lib, profile.fields, s.def.config);
        TextOrMeans(ctx.lib, GetOrNull(profile.fields, "registered_phone"), "");
      }
    }
  }

  // ----- comparisons -----

  /** Texts that agree once stripped and lowered score 1, a missing or empty side scores 0, and anything else scores
      the library's ratio of the two. */
  lemma SimilarityMeans(lib: Lib, left: string, right: string)
    ensures var l, r := lib.lower(Strip(left)), lib.lower(Strip(right));
            && (l != "" && l == r ==> Similarity(lib, Str(left), Str(right)) == 1.0)
            && (l == "" || r == "" ==> Similarity(lib, Str(left), Str(right)) == 0.0)
            && (l != "" && r != "" && l != r ==> Similarity(lib, Str(left), Str(right)) == lib.ratio(l, r))
    ensures Similarity(lib, Null, Str(right)) == Similarity(lib, Str(left), Null) == Similarity(lib, Null, Null) == 0.0
  {
    hide Strip;
  }

  function PairsAmong(pairs: seq<PairEntry>): seq<PairEntry> {
    if pairs == [] then []
    else PairsAmong(pairs[..|pairs| - 1]) + if pairs[|pairs| - 1].Pair? then [pairs[|pairs| - 1]] else []
  }

  lemma {:induction false} PairsAmongArePairs(pairs: seq<PairEntry>)
    ensures forall i :: 0 <= i < |PairsAmong(pairs)| ==> PairsAmong(pairs)[i].Pair?
  {
    if pairs != [] {
      PairsAmongArePairs(pairs[..|pairs| - 1]);
    }
  }

  /** Every entry that is a dict is compared, in order, by what its two sides resolve to. */
  lemma {:induction false} ComparesEachPair(ctx: Context, rows: Rows, pairs: seq<PairEntry>)
    ensures var cs, among := ComparePairs(ctx, rows, pairs), PairsAmong(pairs);
            && |cs| == |among|
            && forall i :: 0 <= i < |cs| ==>
                 && among[i].Pair?
                 && cs[i].left == ResolveRef(ctx, rows, among[i].left)
                 && cs[i].right == ResolveRef(ctx, rows, among[i].right)
                 && cs[i].score == Similarity(ctx.lib, cs[i].left, cs[i].right)
                 && (among[i].title.Str? && among[i].title.s != "" ==> cs[i].title == among[i].title)
                 && (among[i].title.Null? ==>
                       cs[i].title == Str(Text(ctx.lib, among[i].left) + " vs " + Text(ctx.lib, among[i].right)))
  {
    hide ResolveRef, Similarity;
    if pairs != [] {
      ComparesEachPair(ctx, rows, pairs[..|pairs| - 1]);
    }
  }

  /** An answer of the form against a value that a step has left: the comparison sees exactly these two. */
  lemma AnswerAgainstStep(ctx: Context, rows: Rows, names: seq<string>, key: string, field: string, path: seq<string>, title: Json)
    requires Path(names) && Path(path) && key in rows && key != "" && '.' !in key && field in {"output", "result"}
    ensures var left, right := Str("$" + (ANSWERS + Join(names, DOT))), Str("$" + (STEPS + Join([key, field] + path, DOT)));
            var c := ComparePair(ctx, rows, Pair(title, left, right));
            && c.left == Walk(Obj(ctx.submission.formData), names)
            && c.right == Walk(Obj(Snapshot(rows[key], field)), path)
            && c.score == Similarity(ctx.lib, c.left, c.right)
  {
    hide ResolveRef, Walk, Similarity;
    AnswersReference(ctx, rows, names);
    StepsReference(ctx, rows, key, field, path);
  }

  // ----- steps that cannot be started -----

  /** A step of another type fails, and so does a challenge with another adapter. */
  lemma UnsupportedFails(ctx: Context, rows: Rows, s: Step)
    ensures s.def.stepType.OtherType? ==>
              Execute(ctx, rows, s) == s.(status := Failed, outcome := Some(Fail), error := Some(UnsupportedStepType))
    ensures s.def.stepType.ChallengeResponse? && s.def.adapter.OtherAdapter? ==>
              var t := Execute(ctx, rows, s);
              t.status.Failed? && t.outcome == Some(Fail) && t.error == Some(UnsupportedAdapter) && t.started
  {
    hide ResolveInput;
  }
}
