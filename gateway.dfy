/**
 * The `/v1/chat/completions` handler of app.js: the refresh of the process-wide credential,
 * the 401 answer, the call to the upstream chat endpoint and the reply. The clock, the random
 * bytes and what each `fetch` settles with are inputs.
 */
module Gateway {
  import opened Wrappers
  import Token
  import Requests
  import Responses
  import Utf8

  const InternalServerError: string := "Internal server error."

  /** The configuration read once at start-up. */
  datatype Config = Config(apiBase: string, bots: Requests.BotConfig, jwt: Token.JwtConfig)

  /** A JSON reply body. */
  datatype JsonBody =
    | Unauthorized(code: int, errmsg: string)
    | ServerError(error: string)
    | ChatCompletion(completion: Responses.Completion)

  /**
   * What the handler does with the response: a JSON reply with its status, an event stream
   * (whose content the streaming translator writes), or nothing because the handler's promise
   * rejected before anything was written.
   */
  datatype Reply =
    | Json(status: nat, body: JsonBody)
    | EventStream(model: Option<string>)
    | Rejected(error: JsError)

  /** The POST to the upstream chat endpoint. */
  datatype ChatCall = ChatCall(url: string, authorization: string, body: Requests.UpstreamRequest)

  /** What the chat `fetch` settles with, and then what `resp.json()` settles with. */
  datatype Upstream =
    | FetchRejected(error: JsError)
    | Answered(json: Result<Responses.UpstreamData, JsError>)

  /** Everything one request does: the new cache, the assertion exchanged, the call made, the reply. */
  datatype Outcome = Outcome(
    cache: Token.Credential,
    exchanged: Option<Token.Assertion>,
    sent: Option<ChatCall>,
    reply: Reply)

  /** The cache before the first request. */
  const InitialCredential: Token.Credential := Token.Credential("", Some(0))

  /**
   * Whether the cached credential must be exchanged anew at clock reading `nowMs`: it is
   * empty, or its `expires_in`, read as an absolute time in seconds, is not after now. A
   * missing `expires_in` compares as false and never expires.
   */
  function NeedsRefresh(c: Token.Credential, nowMs: int): (r: bool)
    ensures !r ==> c.access_token != ""
    ensures c.expires_in.None? ==> (r <==> c.access_token == "")
  {
    c.access_token == "" || (c.expires_in.Some? && c.expires_in.value * 1000 <= nowMs)
  }

  /** A credential that must be exchanged now must still be exchanged at any later reading. */
  lemma NeedsRefreshLater(c: Token.Credential, nowMs: int, laterMs: int)
    requires nowMs <= laterMs
    ensures NeedsRefresh(c, nowMs) ==> NeedsRefresh(c, laterMs)
  {
  }

  /** The reply once a token is in hand (app.js, lines 111-157). */
  function Respond(cfg: Config, token: string, nowMs: int, body: Requests.InboundBody, upstream: Upstream)
    : (r: (Option<ChatCall>, Reply))
    ensures token == "" ==> r == (None, Json(401, Unauthorized(401, "Unauthorized.")))
    ensures token != "" && Requests.TranslateRequest(cfg.bots, body).Err? ==>
      r == (None, Json(500, ServerError(InternalServerError)))
    ensures r.0.Some? <==> token != "" && Requests.TranslateRequest(cfg.bots, body).Ok?
    ensures r.0.Some? ==> (&& r.0.value.body == Requests.TranslateRequest(cfg.bots, body).value
                           && r.0.value.authorization == "Bearer " + token)
    ensures r.1.Json? && r.1.status == 200 <==>
      && r.0.Some? && !r.0.value.body.stream && upstream.Answered? && upstream.json.Ok?
      && Responses.TranslateResponse(upstream.json.value, body.model, nowMs).Ok?
    ensures r.1.Json? && r.1.status == 200 ==>
      r.1.body == ChatCompletion(Responses.TranslateResponse(upstream.json.value, body.model, nowMs).value)
    ensures r.1.EventStream? <==> r.0.Some? && r.0.value.body.stream && upstream.Answered?
    ensures r.1.EventStream? ==> r.1.model == body.model
    ensures r.0.Some? && !r.1.EventStream? && !(r.1.Json? && r.1.status == 200) ==>
      r.1 == Json(500, ServerError(InternalServerError))
    ensures !r.1.Rejected?
  {
    if token == "" then (None, Json(401, Unauthorized(401, "Unauthorized.")))
    else
      match Requests.TranslateRequest(cfg.bots, body)
      case Err(_) => (None, Json(500, ServerError(InternalServerError)))
      case Ok(request) =>
        var call := ChatCall("https://" + cfg.apiBase + "/open_api/v2/chat", "Bearer " + token, request);
        match upstream
        case FetchRejected(_) => (Some(call), Json(500, ServerError(InternalServerError)))
        case Answered(json) =>
          if request.stream then (Some(call), EventStream(body.model))
          else
            match json
            case Err(_) => (Some(call), Json(500, ServerError(InternalServerError)))
            case Ok(data) =>
              match Responses.TranslateResponse(data, body.model, nowMs)
              case Err(_) => (Some(call), Json(500, ServerError(InternalServerError)))
              case Ok(completion) => (Some(call), Json(200, ChatCompletion(completion)))
  }

  /**
   * One whole request (app.js, lines 105-158) against the cache `cache`: the credential is
   * exchanged when `NeedsRefresh` holds, with `tokenFetch` standing for what that exchange's
   * `fetch` settles with; a failed exchange rejects the handler and leaves the cache as it was.
   */
  function Handle(cfg: Config, cache: Token.Credential, nowMs: int, random: seq<Utf8.byte>,
                  body: Requests.InboundBody, tokenFetch: Result<Token.TokenResponse, JsError>,
                  upstream: Upstream): (o: Outcome)
    requires |random| == 16
    ensures !NeedsRefresh(cache, nowMs) ==> o.exchanged == None && o.cache == cache
    ensures NeedsRefresh(cache, nowMs) ==> o.exchanged == Some(Token.MakeAssertion(nowMs, cfg.jwt, random))
    ensures NeedsRefresh(cache, nowMs) && Token.GetAccessToken(tokenFetch).Err? ==>
      o == Outcome(cache, o.exchanged, None, Rejected(Token.GetAccessToken(tokenFetch).error))
    ensures NeedsRefresh(cache, nowMs) && Token.GetAccessToken(tokenFetch).Ok? ==>
      o.cache == Token.GetAccessToken(tokenFetch).value
    ensures o.reply.Rejected? <==> NeedsRefresh(cache, nowMs) && Token.GetAccessToken(tokenFetch).Err?
    ensures !o.reply.Rejected? ==> (o.sent, o.reply) == Respond(cfg, o.cache.access_token, nowMs, body, upstream)
  {
    if NeedsRefresh(cache, nowMs) then
      var assertion := Some(Token.MakeAssertion(nowMs, cfg.jwt, random));
      match Token.GetAccessToken(tokenFetch)
      case Err(e) => Outcome(cache, assertion, None, Rejected(e))
      case Ok(renewed) =>
        var (sent, reply) := Respond(cfg, renewed.access_token, nowMs, body, upstream);
        Outcome(renewed, assertion, sent, reply)
    else
      var (sent, reply) := Respond(cfg, cache.access_token, nowMs, body, upstream);
      Outcome(cache, None, sent, reply)
  }

  /**
   * The 401 answer cannot be given: a cache that needs no refresh holds a non-empty token, and
   * a refresh either yields a non-empty token or rejects before the check.
   */
  lemma UnauthorizedUnreachable(cfg: Config, cache: Token.Credential, nowMs: int, random: seq<Utf8.byte>,
                                body: Requests.InboundBody, tokenFetch: Result<Token.TokenResponse, JsError>,
                                upstream: Upstream)
    requires |random| == 16
    ensures var r := Handle(cfg, cache, nowMs, random, body, tokenFetch, upstream).reply;
      r.Json? ==> r.status != 401
  {
  }

  /**
   * A cached credential with a non-empty token whose `expires_in` is missing or still after the
   * clock reading is used as it is: nothing is exchanged and the cache is unchanged.
   */
  lemma FreshReused(cfg: Config, cache: Token.Credential, nowMs: int, random: seq<Utf8.byte>,
                    body: Requests.InboundBody, tokenFetch: Result<Token.TokenResponse, JsError>,
                    upstream: Upstream)
    requires |random| == 16
    requires cache.access_token != "" && (cache.expires_in.None? || nowMs < cache.expires_in.value * 1000)
    ensures var o := Handle(cfg, cache, nowMs, random, body, tokenFetch, upstream);
      o.exchanged == None && o.cache == cache
  {
  }

  /**
   * A credential freshly obtained with a non-empty token and an `expires_in` later than the
   * next request's clock reading is reused, untouched, by that request.
   */
  lemma RefreshedIsReused(cfg: Config, cache: Token.Credential, nowMs: int, random: seq<Utf8.byte>,
                          body: Requests.InboundBody, tokenFetch: Result<Token.TokenResponse, JsError>,
                          upstream: Upstream, nowMs2: int, random2: seq<Utf8.byte>, body2: Requests.InboundBody,
                          tokenFetch2: Result<Token.TokenResponse, JsError>, upstream2: Upstream)
    requires |random| == 16 && |random2| == 16
    requires NeedsRefresh(cache, nowMs) && Token.GetAccessToken(tokenFetch).Ok?
    requires Token.GetAccessToken(tokenFetch).value.expires_in.Some?
    requires nowMs <= nowMs2 < Token.GetAccessToken(tokenFetch).value.expires_in.value * 1000
    ensures var o := Handle(cfg, cache, nowMs, random, body, tokenFetch, upstream);
      var o2 := Handle(cfg, o.cache, nowMs2, random2, body2, tokenFetch2, upstream2);
      o2.exchanged == None && o2.cache == o.cache
  {
  }

  /**
   * A body whose message list is missing or empty is answered 500 without any call upstream,
   * whatever the upstream would have returned.
   */
  lemma MalformedBodyAnswers500(cfg: Config, cache: Token.Credential, nowMs: int, random: seq<Utf8.byte>,
                                body: Requests.InboundBody, tokenFetch: Result<Token.TokenResponse, JsError>,
                                upstream: Upstream)
    requires |random| == 16
    requires body.messages.None? || body.messages.value == []
    ensures var o := Handle(cfg, cache, nowMs, random, body, tokenFetch, upstream);
      && o.sent == None
      && ((NeedsRefresh(cache, nowMs) && Token.GetAccessToken(tokenFetch).Err?)
          || o.reply == Json(500, ServerError(InternalServerError)))
  {
  }

  /**
   * The documented end-to-end scenario: with `gpt-x` mapped to `bot123` and a valid cached
   * credential, a one-message request is sent to `bot123` with an empty history and the
   * upstream answer "hello" comes back as a 200 completion.
   */
  lemma HelloEndToEnd(apiBase: string, jwt: Token.JwtConfig, token: string, expires: int, nowMs: int,
                      random: seq<Utf8.byte>, tokenFetch: Result<Token.TokenResponse, JsError>)
    requires |random| == 16 && token != "" && expires * 1000 > nowMs
    ensures var cfg := Config(apiBase, Requests.BotConfig("", map["gpt-x" := "bot123"]), jwt);
      var body := Requests.InboundBody(Some([Requests.ChatMessage("user", "hi")]), Some("gpt-x"), None, Some(false));
      var data := Responses.UpstreamData(Some(0), Some("success"), Some([Responses.UpstreamMessage("assistant", "answer", "hello")]));
      var o := Handle(cfg, Token.Credential(token, Some(expires)), nowMs, random, body, tokenFetch, Answered(Ok(data)));
      && o.exchanged == None
      && o.sent.Some? && o.sent.value.body.bot_id == "bot123" && o.sent.value.body.query == "hi"
      && o.sent.value.body.chat_history == []
      && o.reply.Json? && o.reply.status == 200
      && o.reply.body.completion.choices[0].message.content == "hello"
  {
    var cfg := Config(apiBase, Requests.BotConfig("", map["gpt-x" := "bot123"]), jwt);
    var body := Requests.InboundBody(Some([Requests.ChatMessage("user", "hi")]), Some("gpt-x"), None, Some(false));
    assert Requests.HasMappedBot(cfg.bots, body.model);
    Responses.HelloScenario(nowMs);
  }

  /**
   * The process: the credential cache (`TokenConfig`) that every request reads and a refresh
   * replaces, and the configuration it was started with.
   */
  class Server {
    const config: Config
    var tokenConfig: Token.Credential

    constructor(config: Config)
      ensures this.config == config && tokenConfig == InitialCredential
    {
      this.config := config;
      tokenConfig := InitialCredential;
    }

    /**
     * The `/v1/chat/completions` handler: refresh the credential when it is empty or expired,
     * then translate, call upstream and reply.
     */
    method HandleChatCompletions(nowMs: int, random: seq<Utf8.byte>, body: Requests.InboundBody,
                                 tokenFetch: Result<Token.TokenResponse, JsError>, upstream: Upstream)
      returns (exchanged: Option<Token.Assertion>, sent: Option<ChatCall>, reply: Reply)
      requires |random| == 16
      modifies this
      ensures var o := Handle(config, old(tokenConfig), nowMs, random, body, tokenFetch, upstream);
        tokenConfig == o.cache && exchanged == o.exchanged && sent == o.sent && reply == o.reply
      ensures !NeedsRefresh(old(tokenConfig), nowMs) ==> tokenConfig == old(tokenConfig) && exchanged == None
    {
      exchanged := None;
      if NeedsRefresh(tokenConfig, nowMs) {
        exchanged := Some(Token.MakeAssertion(nowMs, config.jwt, random));
        var refreshed := Token.GetAccessToken(tokenFetch);
        if refreshed.Err? {
          sent, reply := None, Rejected(refreshed.error);
          return;
        }
        tokenConfig := refreshed.value;
      }
      var token := tokenConfig.access_token;
      var (s, r) := Respond(config, token, nowMs, body, upstream);
      sent, reply := s, r;
    }
  }
}
