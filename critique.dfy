/** The endpoint that critiques the conclusion a student writes for one step. A request
    is checked, then rejected locally when the text is evidently not an attempt; without
    an API key a fixed hint for the step is returned; otherwise the language model's reply
    is returned, flagged when it asks for another attempt. The model call is network I/O:
    its outcome is a parameter, and the prompt it is sent is not part of this model. */
module Critique {
  import opened Common
  import opened Text
  import opened Http

  const FIXED_INVALID_MSG: string :=
    "抱歉，您提交的内容似乎无法被识别为对本步骤实验现象的有效观察或结论。请您重新进行观察和思考，并提交一份与本步骤探究目标相关的结论。"

  /** The reference conclusion of each step, which only the prompt uses. */
  const CORRECT_CONCLUSIONS: map<nat, string> := map[
    1 := "温度越高，分布曲线越平缓宽阔，峰值向右移动；分子质量越大，曲线越陡峭狭窄，峰值向左移动。",
    2 := "大量粒子从无序的初始状态，通过持续的随机碰撞，最终会自发地演化到一个宏观上稳定、可预测的统计平衡态（麦克斯韦分布）。",
    3 := "分布的高能“尾部”虽然粒子占比极低，但显著抬高系统的平均动能；如果只移除这些高能粒子，系统整体温度会下降（思想实验）。",
    4 := "蒸发冷却本质上是选择性移除高能粒子，导致剩余粒子的平均动能降低，从而宏观温度下降；这一过程可在模拟中观察到对应的分布曲线变化。"]

  const GUIDANCE_HINTS: map<nat, string> := map[
    1 := "请重点观察：当温度升高或分子质量变化时，分布曲线的整体形态（宽窄）与峰值位置是否也发生了变化？",
    2 := "请思考：在持续的随机碰撞下，分布形态的演化趋势是什么？是否逐渐接近某种稳定的统计状态？",
    3 := "请留意：分布中高能粒子的占比与其对平均动能的影响。当你只移除高能粒子时，系统温度会如何变化？先观察再下结论。",
    4 := "请关注：选择性移除高能粒子后，剩余粒子的能量分布与温度的关系。观察曲线如何随过程变化。"]

  const DEFAULT_HINT: string := "请根据提示重新观察关键变量与图像变化。"
  const OFFLINE_PREFIX: string := "（离线批改）"
  const RETRY_HINT: string := "请根据这个提示"
  const OFFLINE_SUFFIX: string := "\n" + RETRY_HINT + "再仔细观察一下，然后重新提交你的结论吧！"

  /** Answers the source treats as evidently not an attempt. */
  const PERFUNCTORY: seq<string> := ["完成", "已完成", "ok", "OK", "好的", "好", "嗯", "啊"]

  // ---------------------------------------------------------------------------------------
  // Reading the request

  /** The body as the platform hands it over: already parsed (`None` when there is none), or
      as text, with what `JSON.parse` makes of it (`None` when it throws). */
  datatype RequestBody = Parsed(value: Option<Value>) | Text(raw: string, parsed: Option<Value>)

  /** `typeof req.body === 'string' ? JSON.parse(req.body || '{}') : (req.body || {})`;
      `None` when parsing throws. */
  function BodyValue(body: RequestBody): (v: Option<Value>)
    ensures body.Parsed? ==> v.Some?
    ensures body.Parsed? && !Truthy(body.value) ==> v == Some(Object(map[]))
    ensures body.Text? && body.raw == "" ==> v == Some(Object(map[]))
  {
    match body
    case Parsed(value) => if Truthy(value) then value else Some(Object(map[]))
    case Text(raw, parsed) => if raw == "" then Some(Object(map[])) else parsed
  }

  /** The step a `stepId` names in the tables, through the property key `String(stepId)`:
      the numbers and the strings 1 to 4, and a one-element array of such a value (whose
      string form is that of its element). Any other value names no entry. */
  function StepOf(stepId: Value): (step: Option<nat>)
    ensures step.Some? ==> step.value in CORRECT_CONCLUSIONS && step.value in GUIDANCE_HINTS
    ensures stepId.Number? ==> (step.Some? <==> stepId.n in {1.0, 2.0, 3.0, 4.0})
    ensures stepId.Str? ==> (step.Some? <==> stepId.s in {"1", "2", "3", "4"})
    ensures stepId.Null? || stepId.Bool? || stepId.Object? ==> step.None?
  {
    match stepId
    case Number(n) =>
      if n == 1.0 then Some(1) else if n == 2.0 then Some(2)
      else if n == 3.0 then Some(3) else if n == 4.0 then Some(4) else None
    case Str(s) =>
      if s == "1" then Some(1) else if s == "2" then Some(2)
      else if s == "3" then Some(3) else if s == "4" then Some(4) else None
    case Array(items) => if |items| == 1 then StepOf(items[0]) else None
    case _ => None
  }

  /** The two fields the handler destructures from the body. */
  datatype Submission = Submission(stepId: Option<Value>, conclusion: Option<Value>)

  /** The body read and destructured: `None` when `JSON.parse` throws or the body is
      `null`, which cannot be destructured. */
  function ReadBody(body: RequestBody): (s: Option<Submission>)
    ensures s.None? <==> BodyValue(body).None? || BodyValue(body).value.Null?
    ensures s.Some? ==> s.value == Submission(Member(BodyValue(body).value, "stepId"), Member(BodyValue(body).value, "studentConclusion"))
  {
    match BodyValue(body)
    case None => None
    case Some(b) => if b.Null? then None else Some(Submission(Member(b, "stepId"), Member(b, "studentConclusion")))
  }

  /** The request names a step and carries a string conclusion: neither check answers 400. */
  predicate WellFormed(s: Submission) {
    Truthy(s.stepId) && s.conclusion.Some? && s.conclusion.value.Str?
  }

  /** The step has an entry in the tables. */
  predicate Recognised(s: Submission) {
    WellFormed(s) && StepOf(s.stepId.value).Some?
  }

  /** A recognised request whose trimmed conclusion is evidently not an attempt. */
  predicate Rejected(s: Submission) {
    Recognised(s) && IsInvalidInput(Trim(s.conclusion.value.s))
  }

  /** `!apiKey` */
  predicate NoKey(apiKey: Option<string>) {
    apiKey.None? || apiKey.value == ""
  }

  // ---------------------------------------------------------------------------------------
  // The local rejection and the reply flag

  /** `isInvalidInput` on the trimmed text. */
  predicate IsInvalidInput(text: string) {
    || |text| <= 2
    || (IsAsciiAlnum(text) && |text| <= 6)
    || text in PERFUNCTORY
  }

  /** The listed answers add a single text to what the length rules already reject. */
  lemma PerfunctoryBeyondLength(text: string)
    ensures IsInvalidInput(text) <==> |text| <= 2 || (IsAsciiAlnum(text) && |text| <= 6) || text == "已完成"
  {
    if text in PERFUNCTORY && |text| > 2 {
      assert text == "已完成";
    }
  }

  /** Texts of up to two characters, and short runs of ASCII letters and digits, never
      reach the model; a longer sentence does. */
  lemma InvalidInputExamples()
    ensures IsInvalidInput("ok") && IsInvalidInput("abc") && IsInvalidInput("123456") && IsInvalidInput("已完成")
    ensures !IsInvalidInput("abcdefg") && !IsInvalidInput("温度越高峰值越右")
  {
    var sentence: string := "温度越高峰值越右";
    assert sentence[0] == '温';
    assert |sentence| == 8;
  }

  /** `invalid` for a reply of the model: it contains the fixed message or one of the
      phrases asking for another submission. */
  predicate ReplyAsksAgain(critique: string) {
    || Contains(critique, FIXED_INVALID_MSG)
    || Contains(critique, "重新提交")
    || Contains(critique, RETRY_HINT)
    || Contains(critique, "请重新提交")
  }

  /** The last of the four tests adds nothing: every text containing "请重新提交" also
      contains "重新提交". */
  lemma ReplyAsksAgainIff(critique: string)
    ensures ReplyAsksAgain(critique) <==>
      Contains(critique, FIXED_INVALID_MSG) || Contains(critique, "重新提交") || Contains(critique, RETRY_HINT)
  {
    if Contains(critique, "请重新提交") {
      var sub: string := "请重新提交";
      assert sub[1..] == "重新提交";
      ContainsAt(sub, "重新提交", 1);
      ContainsTransitive(critique, sub, "重新提交");
    }
  }

  /** The text returned without an API key. */
  function OfflineCritique(hint: string): string {
    OFFLINE_PREFIX + hint + OFFLINE_SUFFIX
  }

  /** The three answers that mark a submission invalid agree with one another: the fixed
      message and every offline critique would also be flagged if the model had replied
      with them. */
  lemma LocalAnswersAskAgain(hint: string)
    ensures ReplyAsksAgain(FIXED_INVALID_MSG)
    ensures ReplyAsksAgain(OfflineCritique(hint))
  {
    assert OccursAt(FIXED_INVALID_MSG, FIXED_INVALID_MSG, 0);
    ContainsAt(FIXED_INVALID_MSG, FIXED_INVALID_MSG, 0);
    var t := OfflineCritique(hint);
    var i := |OFFLINE_PREFIX| + |hint| + 1;
    assert t[|OFFLINE_PREFIX| + |hint|..] == OFFLINE_SUFFIX;
    assert OFFLINE_SUFFIX[1..8] == RETRY_HINT;
    assert t[i..i + 7] == OFFLINE_SUFFIX[1..8];
    ContainsAt(t, RETRY_HINT, i);
  }

  // ---------------------------------------------------------------------------------------
  // The handler

  /** How the call to the model ended: a response that is not ok (its status and body), a
      parsed reply with `choices[0].message.content` (`None` when a step of that path is
      missing), or a thrown error (its message). */
  datatype ModelOutcome = ModelNotOk(status: nat, errorText: string) | ModelReply(content: Option<Value>) | ModelThrew(message: string)

  /** What a request comes to. */
  datatype Verdict =
    | NotAllowed
    | MissingFields
    | InvalidStep
    | RejectedInput
    | Offline(critique: string)
    | ServiceError(status: nat, detail: string)
    | Critiqued(critique: string, invalid: bool)
    | ServerError(details: string)

  /** `result?.choices?.[0]?.message?.content || ''` followed by the `includes` and regular
      expression tests: `None` when the content is a truthy number, boolean or plain
      object, none of which has `includes`. An array content, which has one, is outside
      this model and also gives `None` here. */
  function ReplyVerdict(content: Option<Value>): (v: Option<Verdict>)
    ensures v.Some? ==> v.value.Critiqued? && v.value.invalid == ReplyAsksAgain(v.value.critique)
    ensures !Truthy(content) ==> v == Some(Critiqued("", false))
    ensures content.Some? && content.value.Str? ==>
      v == Some(Critiqued(content.value.s, ReplyAsksAgain(content.value.s)))
  {
    if !Truthy(content) then
      assert !Contains("", "重新提交") && !Contains("", RETRY_HINT) && !Contains("", "请重新提交");
      assert !Contains("", FIXED_INVALID_MSG);
      Some(Critiqued("", false))
    else if content.value.Str? then Some(Critiqued(content.value.s, ReplyAsksAgain(content.value.s)))
    else None
  }

  /** The handler. `apiKey` is the configured key (`None` when unset), `model` the outcome
      of the model call, consulted only when the request gets that far, and `errorMessage`
      the message of a runtime error thrown inside the handler. */
  function Judge(httpMethod: string, body: RequestBody, apiKey: Option<string>, model: ModelOutcome, errorMessage: string): (v: Verdict)
    ensures v.NotAllowed? <==> httpMethod != "POST"
    ensures httpMethod == "POST" && ReadBody(body).None? ==> v == ServerError(errorMessage)
    ensures httpMethod == "POST" && ReadBody(body).Some? ==>
      var s := ReadBody(body).value;
      && (v.MissingFields? <==> !WellFormed(s))
      && (v.InvalidStep? <==> WellFormed(s) && !Recognised(s))
      && (v.RejectedInput? <==> Rejected(s))
      && (v.Offline? <==> Recognised(s) && !Rejected(s) && NoKey(apiKey))
      && (v.Offline? ==> v.critique == OfflineCritique(GUIDANCE_HINTS[StepOf(s.stepId.value).value]))
      && (v.ServiceError? <==> Recognised(s) && !Rejected(s) && !NoKey(apiKey) && model.ModelNotOk?)
      && (v.ServiceError? ==> v.status == model.status && v.detail == model.errorText)
      && (v.Critiqued? ==> Recognised(s) && !Rejected(s) && !NoKey(apiKey) && model.ModelReply?)
      && (v.Critiqued? ==> v.invalid == ReplyAsksAgain(v.critique))
      && (Recognised(s) && !Rejected(s) && !NoKey(apiKey) ==>
          && (model.ModelThrew? ==> v == ServerError(model.message))
          && (model.ModelReply? && ReplyVerdict(model.content).Some? ==> v == ReplyVerdict(model.content).value)
          && (model.ModelReply? && ReplyVerdict(model.content).None? ==> v == ServerError(errorMessage))
          && (model.ModelReply? && model.content.Some? && model.content.value.Str? ==>
                v == Critiqued(model.content.value.s, ReplyAsksAgain(model.content.value.s)))
          && (model.ModelReply? && !Truthy(model.content) ==> v == Critiqued("", false)))
  {
    if httpMethod != "POST" then NotAllowed
    else match ReadBody(body)
      case None => ServerError(errorMessage)
      case Some(s) =>
        if !WellFormed(s) then MissingFields
        else if !Recognised(s) then InvalidStep
        else if Rejected(s) then RejectedInput
        else if NoKey(apiKey) then Offline(OfflineCritique(GUIDANCE_HINTS[StepOf(s.stepId.value).value]))
        else match model
          case ModelNotOk(status, errorText) => ServiceError(status, errorText)
          case ModelThrew(message) => ServerError(message)
          case ModelReply(content) =>
            match ReplyVerdict(content)
            case None => ServerError(errorMessage)
            case Some(verdict) => verdict
  }

  /** A request that is rejected locally or answered offline does not depend on the model:
      the model is not called for it. */
  lemma NoModelCallBeforeKeyCheck(httpMethod: string, body: RequestBody, apiKey: Option<string>, m1: ModelOutcome, m2: ModelOutcome, errorMessage: string)
    requires Judge(httpMethod, body, apiKey, m1, errorMessage).RejectedInput? || apiKey.None? || apiKey == Some("")
    ensures Judge(httpMethod, body, apiKey, m1, errorMessage) == Judge(httpMethod, body, apiKey, m2, errorMessage)
  {
  }

  /** The hint of an offline critique is always the step's own: the general fallback hint
      cannot be reached, because a step without an entry is refused before. */
  lemma OfflineHintIsStepHint(httpMethod: string, body: RequestBody, model: ModelOutcome, errorMessage: string)
    requires Judge(httpMethod, body, None, model, errorMessage).Offline?
    ensures exists step :: (step in GUIDANCE_HINTS &&
      Judge(httpMethod, body, None, model, errorMessage).critique == OfflineCritique(GUIDANCE_HINTS[step]))
  {
    var step := StepOf(Member(BodyValue(body).value, "stepId").value).value;
    assert step in GUIDANCE_HINTS;
  }

  /** The response a verdict is sent as. Every answer that asks the student to try again,
      and only those, carries `invalid: true`. */
  function Respond(v: Verdict): (r: Response)
    ensures r.status == 405 <==> v.NotAllowed? || (v.ServiceError? && v.status == 405)
    ensures v.NotAllowed? ==> r.headers == map["Allow" := ["POST"]]
    ensures v.MissingFields? || v.InvalidStep? ==> r.status == 400
    ensures v.RejectedInput? || v.Offline? || v.Critiqued? ==> r.status == 200
    ensures v.ServerError? ==> r.status == 500
    ensures v.RejectedInput? ==> Path(r.body, ["critique"]) == Some(Str(FIXED_INVALID_MSG))
    ensures v.RejectedInput? || v.Offline? ==> Path(r.body, ["invalid"]) == Some(Bool(true))
    ensures v.Offline? ==> Path(r.body, ["offline"]) == Some(Bool(true))
    ensures v.Critiqued? ==> Path(r.body, ["critique"]) == Some(Str(v.critique)) && Path(r.body, ["invalid"]) == Some(Bool(v.invalid))
  {
    match v
    case NotAllowed => Response(405, map["Allow" := ["POST"]], Object(map["error" := Str("Method Not Allowed")]))
    case MissingFields => ErrorResponse(400, "Missing stepId or studentConclusion.")
    case InvalidStep => ErrorResponse(400, "Invalid stepId.")
    case RejectedInput => Reply(200, map["critique" := Str(FIXED_INVALID_MSG), "invalid" := Bool(true)])
    case Offline(critique) => Reply(200, map["critique" := Str(critique), "offline" := Bool(true), "invalid" := Bool(true)])
    case ServiceError(status, detail) => Reply(status, map["error" := Str("AI service error"), "detail" := Str(detail)])
    case Critiqued(critique, invalid) => Reply(200, map["critique" := Str(critique), "invalid" := Bool(invalid)])
    case ServerError(details) => Reply(500, map["error" := Str("Internal Server Error"), "details" := Str(details)])
  }
}
