/**
 * The translation of a non-streamed upstream reply into a chat-completion object
 * (handleNonStreamResponse in app.js).
 */
module Responses {
  import opened Wrappers
  import JsText

  const UnexpectedResponse: string := "Unexpected response from Coze API."
  const NoAnswer: string := "No answer message found."

  /** One upstream message; `msgType` is its `type` property. */
  datatype UpstreamMessage = UpstreamMessage(role: string, msgType: string, content: string)

  /** The fields of the upstream JSON reply that are read; a missing one is `None`. */
  datatype UpstreamData = UpstreamData(
    code: Option<int>,
    msg: Option<string>,
    messages: Option<seq<UpstreamMessage>>)

  datatype AssistantMessage = AssistantMessage(role: string, content: string)
  datatype Choice = Choice(index: nat, message: AssistantMessage, finish_reason: string)
  datatype Usage = Usage(prompt_tokens: nat, completion_tokens: nat, total_tokens: nat)

  /**
   * The completion object sent back. `idMillis` is the clock reading in the id
   * `chatcmpl-<idMillis>`, `objectType` its `object` property; `model` echoes the request's `model` property.
   */
  datatype Completion = Completion(
    idMillis: int,
    objectType: string,
    created: int,
    model: Option<string>,
    choices: seq<Choice>,
    usage: Usage,
    system_fingerprint: string)

  predicate IsAnswer(m: UpstreamMessage) {
    m.role == "assistant" && m.msgType == "answer"
  }

  /** Where `Array.prototype.find` stops: the index of the first answer message, if any. */
  function FirstAnswer(ms: seq<UpstreamMessage>): (r: Option<nat>)
    ensures r.Some? ==> r.value < |ms| && IsAnswer(ms[r.value])
    ensures r.Some? ==> forall j :: 0 <= j < r.value ==> !IsAnswer(ms[j])
    ensures r.None? ==> forall j :: 0 <= j < |ms| ==> !IsAnswer(ms[j])
  {
    if ms == [] then None
    else if IsAnswer(ms[0]) then Some(0)
    else
      match FirstAnswer(ms[1..])
      case Some(i) => Some(i + 1)
      case None => None
  }

  /** Whether the upstream reports success: `code === 0 && msg === "success"`. */
  function Succeeded(data: UpstreamData): (r: bool)
    ensures data.code.None? || data.msg.None? ==> !r
    ensures r ==> data.code.value == 0 && data.msg.value == "success"
  {
    data.code == Some(0) && data.msg == Some("success")
  }

  /**
   * The completion for `data` at clock reading `nowMs`, or what is thrown instead: the
   * upstream's own `msg` (or a fixed text when it is missing or empty) when it does not report
   * success, a `TypeError` when it reports success without a `messages` list, and
   * "No answer message found." when no message is an assistant answer.
   */
  function TranslateResponse(data: UpstreamData, model: Option<string>, nowMs: int): (r: Result<Completion, JsError>)
    ensures r.Ok? <==> Succeeded(data) && data.messages.Some? && FirstAnswer(data.messages.value).Some?
    ensures !Succeeded(data) ==>
      r == Err(Error(if data.msg.GetOr("") != "" then data.msg.value else UnexpectedResponse))
    ensures Succeeded(data) && data.messages.None? ==> r == Err(TypeError)
    ensures Succeeded(data) && data.messages.Some? && FirstAnswer(data.messages.value).None? ==>
      r == Err(Error(NoAnswer))
    ensures r.Ok? ==> var c := r.value;
      && |c.choices| == 1
      && c.choices[0].index == 0
      && c.choices[0].message.role == "assistant"
      && c.choices[0].message.content == JsText.Trim(data.messages.value[FirstAnswer(data.messages.value).value].content)
      && c.choices[0].finish_reason == "stop"
      && c.model == model
      && c.objectType == "chat.completion"
      && c.idMillis == nowMs && c.created * 1000 <= nowMs < c.created * 1000 + 1000
      && c.usage == Usage(100, 10, 110)
      && c.usage.total_tokens == c.usage.prompt_tokens + c.usage.completion_tokens
      && c.system_fingerprint == "fp_2f57f81c11"
  {
    if Succeeded(data) then
      match data.messages
      case None => Err(TypeError)
      case Some(ms) =>
        match FirstAnswer(ms)
        case None => Err(Error(NoAnswer))
        case Some(i) =>
          Ok(Completion(
            idMillis := nowMs,
            objectType := "chat.completion",
            created := nowMs / 1000,
            model := model,
            choices := [Choice(0, AssistantMessage("assistant", JsText.Trim(ms[i].content)), "stop")],
            usage := Usage(100, 10, 110),
            system_fingerprint := "fp_2f57f81c11"))
    else
      Err(Error(if data.msg.GetOr("") != "" then data.msg.value else UnexpectedResponse))
  }

  /**
   * The answer is the first one: whatever follows it, and whatever non-answers precede it, the
   * content is that message's content with surrounding whitespace removed.
   */
  lemma {:induction false} FirstAnswerWins(pre: seq<UpstreamMessage>, m: UpstreamMessage, post: seq<UpstreamMessage>)
    requires forall j :: 0 <= j < |pre| ==> !IsAnswer(pre[j])
    requires IsAnswer(m)
    ensures FirstAnswer(pre + [m] + post) == Some(|pre|)
  {
    var ms := pre + [m] + post;
    if pre == [] {
      assert ms[0] == m;
    } else {
      assert ms[1..] == pre[1..] + [m] + post;
      FirstAnswerWins(pre[1..], m, post);
    }
  }

  /**
   * The answer content in a completion is a whitespace-free-at-both-ends infix of the first
   * answer, surrounded in it only by whitespace.
   */
  lemma ContentIsTrimmedAnswer(data: UpstreamData, model: Option<string>, nowMs: int)
    requires TranslateResponse(data, model, nowMs).Ok?
    ensures JsText.IsTrimmedInfix(
      TranslateResponse(data, model, nowMs).value.choices[0].message.content,
      data.messages.value[FirstAnswer(data.messages.value).value].content)
  {
    var a := data.messages.value[FirstAnswer(data.messages.value).value].content;
    assert TranslateResponse(data, model, nowMs).value.choices[0].message.content == JsText.Trim(a);
  }

  /** The documented scenario: one assistant answer "hello" becomes the completion's content. */
  lemma HelloScenario(nowMs: int)
    ensures var data := UpstreamData(Some(0), Some("success"), Some([UpstreamMessage("assistant", "answer", "hello")]));
      var r := TranslateResponse(data, Some("gpt-x"), nowMs);
      r.Ok? && r.value.choices[0].message.content == "hello" && r.value.choices[0].finish_reason == "stop"
  {
    var ms := [UpstreamMessage("assistant", "answer", "hello")];
    var data := UpstreamData(Some(0), Some("success"), Some(ms));
    assert Succeeded(data);
    assert FirstAnswer(ms) == Some(0) by {
      assert IsAnswer(ms[0]);
    }
    var content := ms[0].content;
    assert JsText.Trim(content) == "hello" by {
      assert !JsText.IsWhitespace('h') && !JsText.IsWhitespace('o');
      JsText.TrimFixedPoint("hello");
    }
    var r := TranslateResponse(data, Some("gpt-x"), nowMs);
    assert r.value.choices[0].message.content == JsText.Trim(content);
  }
}
