/**
 * The translation of an inbound chat-completion body into the upstream bot-chat request
 * (app.js, inside the `/v1/chat/completions` handler).
 */
module Requests {
  import opened Wrappers

  const DefaultUser: string := "apiuser"

  /** One inbound message; only `role` and `content` are read. */
  datatype ChatMessage = ChatMessage(role: string, content: string)

  /** The inbound JSON body; a property the client left out is `None`. */
  datatype InboundBody = InboundBody(
    messages: Option<seq<ChatMessage>>,
    model: Option<string>,
    user: Option<string>,
    stream: Option<bool>)

  /** One entry of the upstream `chat_history`. */
  datatype HistoryEntry = HistoryEntry(role: string, content: string, content_type: string)

  datatype UpstreamRequest = UpstreamRequest(
    query: string,
    stream: bool,
    conversation_id: string,
    user: string,
    bot_id: string,
    chat_history: seq<HistoryEntry>)

  /** The bot configuration: `DEFAULT_BOT_ID` and the model-name to bot-id map `BOT_CONFIG`. */
  datatype BotConfig = BotConfig(defaultBotId: string, botConfig: map<string, string>)

  function Tagged(m: ChatMessage): HistoryEntry {
    HistoryEntry(m.role, m.content, "text")
  }

  /** `messages.slice(0, -1).map(...)`: every message but the last, tagged as text. */
  function ChatHistory(messages: seq<ChatMessage>): (h: seq<HistoryEntry>)
    ensures |h| == if messages == [] then 0 else |messages| - 1
    ensures forall i :: 0 <= i < |h| ==>
      h[i].role == messages[i].role && h[i].content == messages[i].content && h[i].content_type == "text"
  {
    if |messages| <= 1 then [] else [Tagged(messages[0])] + ChatHistory(messages[1..])
  }

  /** Whether `model` is a non-empty name that `BOT_CONFIG` maps to a non-empty bot id. */
  predicate HasMappedBot(cfg: BotConfig, model: Option<string>) {
    model.Some? && model.value != "" && model.value in cfg.botConfig && cfg.botConfig[model.value] != ""
  }

  /**
   * The bot that serves `model`: its entry in `BOT_CONFIG` when the model name and that entry
   * are both non-empty, otherwise `DEFAULT_BOT_ID`, which may itself be empty.
   */
  function ResolveBot(cfg: BotConfig, model: Option<string>): (bot: string)
    ensures HasMappedBot(cfg, model) ==> bot == cfg.botConfig[model.value] && bot != ""
    ensures !HasMappedBot(cfg, model) ==> bot == cfg.defaultBotId
  {
    match model
    case Some(m) =>
      if m != "" && m in cfg.botConfig && cfg.botConfig[m] != "" then cfg.botConfig[m] else cfg.defaultBotId
    case None => cfg.defaultBotId
  }

  /**
   * The bot id is empty exactly when the model has no usable mapping and the default is
   * empty; such an id is forwarded as it is, nothing rejects it.
   */
  lemma EmptyBotOnlyFromDefault(cfg: BotConfig, model: Option<string>)
    ensures ResolveBot(cfg, model) == "" <==> (!HasMappedBot(cfg, model) && cfg.defaultBotId == "")
  {
  }

  /**
   * The upstream request built from `body`. A missing `messages` makes `slice` throw, and an
   * empty one makes reading the last message's `content` throw; both are `TypeError`s.
   */
  function TranslateRequest(cfg: BotConfig, body: InboundBody): (r: Result<UpstreamRequest, JsError>)
    ensures r.Ok? <==> body.messages.Some? && body.messages.value != []
    ensures r.Err? ==> r.error == TypeError
    ensures r.Ok? ==> var ms := body.messages.value;
      && |r.value.chat_history| == |ms| - 1
      && (forall i :: 0 <= i < |ms| - 1 ==> r.value.chat_history[i] == Tagged(ms[i]))
      && r.value.query == ms[|ms| - 1].content
      && r.value.bot_id == ResolveBot(cfg, body.model)
      && r.value.conversation_id == ""
      && r.value.user == (if body.user.Some? then body.user.value else DefaultUser)
      && r.value.stream == (body.stream.Some? && body.stream.value)
  {
    match body.messages
    case None => Err(TypeError)
    case Some(ms) =>
      if ms == [] then Err(TypeError)
      else
        Ok(UpstreamRequest(
          query := ms[|ms| - 1].content,
          stream := body.stream.GetOr(false),
          conversation_id := "",
          user := body.user.GetOr(DefaultUser),
          bot_id := ResolveBot(cfg, body.model),
          chat_history := ChatHistory(ms)))
  }

  /** Dropping the tag from each history entry. */
  function Untagged(h: seq<HistoryEntry>): (ms: seq<ChatMessage>)
    ensures |ms| == |h|
    ensures forall i :: 0 <= i < |h| ==> ms[i] == ChatMessage(h[i].role, h[i].content)
  {
    if h == [] then [] else [ChatMessage(h[0].role, h[0].content)] + Untagged(h[1..])
  }

  /**
   * Nothing of the conversation is lost but the last message's role: the history, untagged,
   * followed by the query under that role, is the inbound message list.
   */
  lemma ConversationPreserved(cfg: BotConfig, body: InboundBody)
    requires body.messages.Some? && body.messages.value != []
    ensures var ms := body.messages.value;
      var r := TranslateRequest(cfg, body).value;
      Untagged(r.chat_history) + [ChatMessage(ms[|ms| - 1].role, r.query)] == ms
  {
    var ms := body.messages.value;
    var r := TranslateRequest(cfg, body).value;
    var rebuilt := Untagged(r.chat_history) + [ChatMessage(ms[|ms| - 1].role, r.query)];
    assert |rebuilt| == |ms|;
    forall i | 0 <= i < |ms| ensures rebuilt[i] == ms[i] {
      if i < |ms| - 1 {
        assert r.chat_history[i] == Tagged(ms[i]);
      }
    }
  }
}
