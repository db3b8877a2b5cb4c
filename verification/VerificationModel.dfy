/**
  The data of a verification run and the pure rules that drive it
  (app/services/verifications/service.py).
 */
module VerificationModel {
  import opened Prelude
  import opened PyStrings
  import opened Json

  // ----- configuration, frozen in config_snapshot when the rows are created -----

  datatype StepType = ChallengeResponse | Comparison | OtherType

  datatype Adapter = DemoPhoneOtp | DemoFaydaOtp | OtherAdapter

  datatype PairEntry = NotADict | Pair(title: Json, left: Json, right: Json)

  datatype StepConfig = StepConfig(
    input: Fields,                   // {} when "input" is no dict
    demoCode: Json,                  // Null when absent
    maxAttempts: int,                // 3 when absent
    demoRegistry: Option<Fields>,
    pairs: Option<seq<PairEntry>>,   // None when "pairs" is no list
    passScore: real,                 // 0.9 when absent
    reviewScore: real)               // 0.75 when absent

  datatype StepDef = StepDef(
    key: string, stepType: StepType, adapter: Adapter, dependsOn: seq<string>, config: StepConfig)

  /** The flow configuration of the pinned template; it is loaded afresh by every call. */
  datatype FlowConfig = FlowConfig(demoRegistry: Option<Fields>, decision: Option<DecisionConfig>)

  datatype DecisionConfig = DecisionConfig(rules: seq<RuleEntry>, fallback: Option<Answer>)

  /** Decision and level are "" when the configuration leaves them out. */
  datatype Answer = Answer(decision: string, kycLevel: string, reasons: seq<string>)

  datatype RuleEntry = NotARule | Rule(all: Option<seq<ConditionEntry>>, answer: Answer)

  datatype ConditionEntry = NotACondition | Condition(fact: Option<string>, test: Test)

  datatype Test = Equals(Json) | Gte(Json) | Lte(Json) | In(seq<Json>) | IsTruthy | NoTest

  // ----- runtime rows -----

  datatype StepStatus = Pending | InProgress | WaitingUserAction | Completed | Failed | Skipped | Expired

  datatype Outcome = Pass | Review | Fail | Undecided

  datatype ErrorCode =
    | MissingPhoneNumber | MissingNationalId | FaydaProfileNotFound | UnsupportedAdapter
    | UnsupportedStepType | PairsMissing | PairsInvalid | MaxAttemptsReached | InvalidOtp

  datatype Step = Step(
    def: StepDef,
    status: StepStatus,
    outcome: Option<Outcome>,
    attempts: nat,
    waitingForCode: bool,
    input: Fields,
    output: Fields,
    result: Fields,
    sentCode: Option<string>,        // demo_code of action_schema.delivery; None for an empty schema
    error: Option<ErrorCode>,
    started: bool,                   // started_at is set
    completed: bool)                 // completed_at is set

  type Rows = map<string, Step>

  datatype Submission = Submission(header: Fields, formData: Fields, computedData: Fields, validation: Fields)

  /** Library behaviour the engine only calls: str, float, lower, SequenceMatcher, round, getattr. */
  datatype Lib = Lib(
    text: Json -> string,
    number: string -> Option<real>,
    lower: string -> string,
    ratio: (string, string) -> real,
    round4: real -> real,
    attribute: (Submission, string) -> Json)

  /** What one call of the engine sees besides the run's own rows. */
  datatype Context = Context(lib: Lib, submission: Submission, flow: FlowConfig)

  predicate Terminal(s: Step) {
    s.status.Completed? || s.status.Failed? || s.status.Skipped? || s.status.Expired?
  }

  predicate Waiting(s: Step) {
    s.status.WaitingUserAction?
  }

  predicate Startable(s: Step) {
    !Terminal(s) && !Waiting(s)
  }

  function NewStep(def: StepDef): Step {
    Step(def, Pending, None, 0, false, map[], map[], map[], None, None, false, false)
  }

  function Text(lib: Lib, j: Json): string {
    if j.Str? then j.s else lib.text(j)
  }

  /** `str(value or default)` */
  function TextOr(lib: Lib, j: Json, default: string): string {
    if Truthy(j) then Text(lib, j) else default
  }

  // ----- references -----

  const ANSWERS := "answers."
  const SUBMISSION := "submission."
  const STEPS := "steps."

  function RefPath(ref: string): string {
    var raw := Strip(ref);
    if StartsWith(raw, "$") then raw[1..] else raw
  }

  /** The step a reference reads, when it reads one. */
  function StepRead(ref: Json): Option<string> {
    if !ref.Str? then None
    else
      var raw := RefPath(ref.s);
      var parts := Split(raw, DOT);
      if StartsWith(raw, ANSWERS) || StartsWith(raw, SUBMISSION) then None
      else if StartsWith(raw, STEPS) && |parts| >= 3 then Some(parts[1])
      else None
  }

  /** What a reference may see of another step. */
  function Visible(rows: Rows, key: string): Option<(Fields, Fields)> {
    if key in rows then Some((rows[key].output, rows[key].result)) else None
  }

  function ReadStep(seen: Option<(Fields, Fields)>, parts: seq<string>): Json
    requires |parts| >= 3
  {
    if seen.None? then Null
    else if parts[2] == "output" then LookupMapping(Obj(seen.value.0), Join(parts[3..], DOT))
    else if parts[2] == "result" then LookupMapping(Obj(seen.value.1), Join(parts[3..], DOT))
    else Null
  }

  /** `_resolve_ref` */
  function ResolveRef(ctx: Context, rows: Rows, ref: Json): Json {
    if !ref.Str? then ref
    else
      var raw := RefPath(ref.s);
      if StartsWith(raw, ANSWERS) then LookupMapping(Obj(ctx.submission.formData), raw[|ANSWERS|..])
      else if StartsWith(raw, SUBMISSION) then ctx.lib.attribute(ctx.submission, raw[|SUBMISSION|..])
      else if StartsWith(raw, STEPS) then
        var parts := Split(raw, DOT);
        if |parts| < 3 then Null else ReadStep(Visible(rows, parts[1]), parts)
      else Str(raw)
  }

  /** `_resolve_input_map` */
  function ResolveInput(ctx: Context, rows: Rows, spec: Fields): Fields {
    map k | k in spec :: ResolveRef(ctx, rows, spec[k])
  }

  /** The steps whose snapshots a step reads when it is executed. */
  ghost predicate Reads(def: StepDef, key: string) {
    match def.stepType
    case ChallengeResponse => exists k :: k in def.config.input && StepRead(def.config.input[k]) == Some(key)
    case Comparison =>
      && def.config.pairs.Some?
      && exists p :: p in def.config.pairs.value && p.Pair? && (StepRead(p.left) == Some(key) || StepRead(p.right) == Some(key))
    case OtherType => false
  }

  // ----- starting a step -----

  function Fails(s: Step, code: ErrorCode): Step {
    s.(status := Failed, outcome := Some(Fail), error := Some(code))
  }

  /** `_demo_registry` */
  function Registry(flow: FlowConfig, cfg: StepConfig): Fields {
    if flow.demoRegistry.Some? then flow.demoRegistry.value
    else if cfg.demoRegistry.Some? then cfg.demoRegistry.value
    else map[]
  }

  function PhoneCode(lib: Lib, cfg: StepConfig): string {
    TextOr(lib, cfg.demoCode, "111111")
  }

  function FaydaCode(lib: Lib, profile: Fields, cfg: StepConfig): string {
    var otp := GetOrNull(profile, "otp_code");
    if Truthy(otp) then Text(lib, otp) else TextOr(lib, cfg.demoCode, "222222")
  }

  predicate NonBlankText(j: Json) {
    j.Str? && !Blank(j.s)
  }

  /** A challenge that went out: the step now waits for the code it sent. */
  function Challenged(s: Step, code: string, output: Fields): Step {
    s.(status := WaitingUserAction,
       waitingForCode := true,
       sentCode := Some(code),
       output := output,
       result := map["phase" := Str("challenge_sent")])
  }

  /** The demo_phone_otp branch of `_start_challenge_step`. */
  function PhoneChallenge(ctx: Context, s: Step): Step {
    var phone := GetOrNull(s.input, "phone_number");
    if !NonBlankText(phone) then Fails(s, MissingPhoneNumber)
    else Challenged(s, PhoneCode(ctx.lib, s.def.config), map["channel" := Str("sms"), "target" := phone])
  }

  /** The demo_fayda_otp branch of `_start_challenge_step`. */
  function FaydaChallenge(ctx: Context, s: Step): Step {
    var id := GetOrNull(s.input, "national_id");
    if !NonBlankText(id) then Fails(s, MissingNationalId)
    else
      var profile := GetOrNull(Registry(ctx.flow, s.def.config), id.s);
      if !profile.Obj? then Fails(s, FaydaProfileNotFound)
      else
        var phone := Str(TextOr(ctx.lib, GetOrNull(profile.fields, "registered_phone"), ""));
        Challenged(s, FaydaCode(ctx.lib, profile.fields, s.def.config),
                   map["registered_phone" := phone, "national_id" := id])
  }

  /** `_start_challenge_step` */
  function StartChallenge(ctx: Context, rows: Rows, step: Step): Step {
    var s := step.(input := ResolveInput(ctx, rows, step.def.config.input), started := true);
    match s.def.adapter
    case DemoPhoneOtp => PhoneChallenge(ctx, s)
    case DemoFaydaOtp => FaydaChallenge(ctx, s)
    case OtherAdapter => Fails(s, UnsupportedAdapter)
  }

  /** `_string_similarity` */
  function Similarity(lib: Lib, left: Json, right: Json): real {
    if left.Null? || right.Null? then 0.0
    else
      var l, r := lib.lower(Strip(Text(lib, left))), lib.lower(Strip(Text(lib, right)));
      if l == "" || r == "" then 0.0
      else if l == r then 1.0
      else lib.ratio(l, r)
  }

  datatype Compared = Compared(title: Json, left: Json, right: Json, score: real)

  function ComparePair(ctx: Context, rows: Rows, p: PairEntry): Compared
    requires p.Pair?
  {
    var l, r := ResolveRef(ctx, rows, p.left), ResolveRef(ctx, rows, p.right);
    var title := if Truthy(p.title) then p.title else Str(Text(ctx.lib, p.left) + " vs " + Text(ctx.lib, p.right));
    Compared(title, l, r, Similarity(ctx.lib, l, r))
  }

  /** The comparisons of the entries that are dicts, in order. */
  function ComparePairs(ctx: Context, rows: Rows, pairs: seq<PairEntry>): seq<Compared> {
    if pairs == [] then []
    else
      var before := ComparePairs(ctx, rows, pairs[..|pairs| - 1]);
      var p := pairs[|pairs| - 1];
      if p.NotADict? then before else before + [ComparePair(ctx, rows, p)]
  }

  function TotalScore(cs: seq<Compared>): real {
    if cs == [] then 0.0 else TotalScore(cs[..|cs| - 1]) + cs[|cs| - 1].score
  }

  function AsJson(c: Compared): Json {
    Obj(map["label" := c.title, "left" := c.left, "right" := c.right, "score" := Num(c.score)])
  }

  function OutcomeText(o: Option<Outcome>): Json {
    match o
    case None => Null
    case Some(Pass) => Str("pass")
    case Some(Review) => Str("review")
    case Some(Fail) => Str("fail")
    case Some(Undecided) => Str("pending")
  }

  function Grade(score: real, cfg: StepConfig): Outcome {
    if score >= cfg.passScore then Pass else if score >= cfg.reviewScore then Review else Fail
  }

  function Graded(ctx: Context, s: Step, cs: seq<Compared>): Step
    requires cs != []
  {
    var score := ctx.lib.round4(TotalScore(cs) / (|cs| as real));
    var outcome := Grade(score, s.def.config);
    var list := Arr(seq(|cs|, i requires 0 <= i < |cs| => AsJson(cs[i])));
    s.(started := true, completed := true, status := Completed, outcome := Some(outcome),
       input := map["pairs" := list],
       output := map["score" := Num(score), "comparisons" := list],
       result := map["outcome" := OutcomeText(Some(outcome)), "score" := Num(score), "comparisons" := list],
       sentCode := None, error := None)
  }

  /** `_run_comparison_step` */
  function RunComparison(ctx: Context, rows: Rows, s: Step): Step {
    var pairs := s.def.config.pairs;
    if pairs.None? || pairs.value == [] then Fails(s, PairsMissing)
    else
      var cs := ComparePairs(ctx, rows, pairs.value);
      if cs == [] then Fails(s, PairsInvalid) else Graded(ctx, s, cs)
  }

  /** One step taken up by the loop of `_advance_run`. */
  function Execute(ctx: Context, rows: Rows, s: Step): Step {
    match s.def.stepType
    case ChallengeResponse => StartChallenge(ctx, rows, s)
    case Comparison => RunComparison(ctx, rows, s)
    case OtherType => Fails(s, UnsupportedStepType)
  }

  // ----- user actions -----

  datatype ActionResult = Rejected | Applied(step: Step)

  /** `_mark_retry_or_fail`, after the attempt has been counted. */
  function RetryOrFail(s: Step): Step {
    if s.attempts >= s.def.config.maxAttempts then
      s.(completed := true, status := Failed, outcome := Some(Fail), waitingForCode := false, sentCode := None,
         error := Some(MaxAttemptsReached),
         result := map["outcome" := Str("fail"), "reason" := Str("max_attempts_reached")])
    else
      s.(status := WaitingUserAction, outcome := Some(Undecided), error := Some(InvalidOtp))
  }

  function Passes(s: Step, output: Fields, result: Fields): Step {
    s.(completed := true, status := Completed, outcome := Some(Pass), waitingForCode := false, sentCode := None,
       output := output, result := result)
  }

  /** The profile the Fayda adapter looks up again when the code comes in. */
  function ProfileNow(ctx: Context, s: Step): Json {
    GetOrNull(Registry(ctx.flow, s.def.config), TextOr(ctx.lib, GetOrNull(s.input, "national_id"), ""))
  }

  /** The code an action must carry at this moment, when there is one. */
  function ExpectedCode(ctx: Context, s: Step): Option<string> {
    match s.def.adapter
    case DemoPhoneOtp => Some(PhoneCode(ctx.lib, s.def.config))
    case DemoFaydaOtp =>
      var profile := ProfileNow(ctx, s);
      if profile.Obj? then Some(FaydaCode(ctx.lib, profile.fields, s.def.config)) else None
    case OtherAdapter => None
  }

  function PhoneAttributes(lib: Lib, s: Step): (Fields, Fields) {
    var phone := Str(TextOr(lib, GetOrNull(s.input, "phone_number"), ""));
    (map["phone_number" := phone, "verified" := Bool(true)],
     map["outcome" := Str("pass"),
         "attributes" := Obj(map["phone_number" := phone, "phone_verified" := Bool(true)])])
  }

  function FaydaAttributes(lib: Lib, s: Step, profile: Fields): (Fields, Fields) {
    var attributes := Obj(map[
      "national_id" := Str(TextOr(lib, GetOrNull(s.input, "national_id"), "")),
      "first_name" := GetOrNull(profile, "first_name"),
      "last_name" := GetOrNull(profile, "last_name"),
      "registered_phone" := GetOrNull(profile, "registered_phone"),
      "date_of_birth" := GetOrNull(profile, "date_of_birth")]);
    (map["attributes" := attributes], map["outcome" := Str("pass"), "attributes" := attributes])
  }

  /** Every code that is looked at counts as an attempt. */
  function Counted(s: Step): Step {
    s.(attempts := s.attempts + 1, error := None)
  }

  /** The phone adapter's answer to a code, once the attempt has been counted. */
  function PhoneAction(lib: Lib, s: Step, code: string): Step {
    if Strip(code) != PhoneCode(lib, s.def.config) then RetryOrFail(s)
    else
      var (output, result) := PhoneAttributes(lib, s);
      Passes(s, output, result)
  }

  /** The Fayda adapter's answer to a code, given the profile found now. */
  function FaydaAction(lib: Lib, s: Step, profile: Fields, code: string): Step {
    if Strip(code) != FaydaCode(lib, profile, s.def.config) then RetryOrFail(s)
    else
      var (output, result) := FaydaAttributes(lib, s, profile);
      Passes(s, output, result)
  }

  /** `_apply_user_action`; Rejected stands for an exception, after which the session is rolled back. */
  function ApplyUserAction(ctx: Context, step: Step, code: Json): ActionResult {
    if !NonBlankText(code) then Rejected
    else
      var s := Counted(step);
      match s.def.adapter
      case DemoPhoneOtp => Applied(PhoneAction(ctx.lib, s, code.s))
      case DemoFaydaOtp =>
        var profile := ProfileNow(ctx, s);
        if profile.Obj? then Applied(FaydaAction(ctx.lib, s, profile.fields, code.s))
        else if Truthy(profile) then Rejected
        else Applied(Fails(s, FaydaProfileNotFound))
      case OtherAdapter => Rejected
  }
}
