# Coze-to-OpenAI gateway: a Dafny model of its translation and credential rules

The gateway (Fartown/cozeapi) accepts OpenAI-style `POST /v1/chat/completions` requests,
obtains a bearer credential from the Coze token endpoint by exchanging a signed JWT, turns the
request into a Coze bot-chat request, and turns the Coze reply back into a chat-completion
object. This project models, in Dafny, the decisions and translations of `app.js` and
`token.js`; the HTTP server, the network, JWT signing and randomness are inputs or left out.

Modules, one per concern:

- `Wrappers` — `Option` (a JavaScript `undefined` property is `None`), `Result`, and `JsError`
  (an `Error` with a message, or a runtime `TypeError`).
- `JsText` — JavaScript's `trim` (ECMAScript whitespace and line terminators), `split` on a
  one-character separator, `join`, and the decimal rendering of a status code.
- `Utf8` — UTF-8 decoding with replacement, after the WHATWG Encoding Standard's decoder,
  which `Buffer.prototype.toString()` follows; an encoder as its reference partner.
- `Token` — `token.js`: the JWT header and claims, the token-request body, and the checks on
  the token endpoint's reply.
- `Requests` — the request translation of the chat handler.
- `Responses` — `handleNonStreamResponse`.
- `StreamBuffer` — the line buffer of `handleStreamResponse`.
- `Gateway` — the handler itself: the process-wide credential cache (a class with the
  `tokenConfig` field), its refresh, the 401 check, the upstream call and the reply.

Points where the code behaves in a way a reader might not expect; the model follows the code:

- An unmapped model with an empty default bot forwards `bot_id = ""`; nothing rejects it
  (`Requests.EmptyBotOnlyFromDefault`).
- The credential's `expires_in` is stored exactly as received and compared with the clock in
  seconds, so it acts as an absolute time, not as `now + expires_in` (`Token.GetAccessToken`,
  `Gateway.NeedsRefresh`). A reply without `expires_in` yields a credential that never expires,
  because `undefined <= x` is false.
- A failed credential exchange is not answered "unauthorized": the `await` at app.js:108 is
  outside the `try`, so the handler's promise rejects and the handler itself writes no response
  (`Gateway.Reply.Rejected`); what the framework then does is up to the runtime. In consequence the 401 branch can never be taken
  (`Gateway.UnauthorizedUnreachable`).
- A non-streamed upstream failure is answered `500 {error: "Internal server error."}`; the
  upstream message is only the text of the thrown error, which the handler logs.

## Model

| member | source | states |
|---|---|---|
| `JsText.LeadingWhitespace` | app.js:63 | `trim` removes from the front exactly the longest run of ECMAScript whitespace: every removed character is whitespace and the next one is not |
| `JsText.TrailingWhitespace` | app.js:63 | `trim` removes from the end exactly the longest run of ECMAScript whitespace: every removed character is whitespace and the one before is not |
| `JsText.Trim` | app.js:63 | `trim` returns the infix that starts after the leading whitespace and is followed only by whitespace, and it neither starts nor ends with whitespace |
| `JsText.TrimUnique` | app.js:63 | only one string meets that description, so it fixes what `trim` returns |
| `JsText.TrimFixedPoint` | app.js:63 | a string with no whitespace at either end is left unchanged by `trim` |
| `JsText.TrimIdempotent` | app.js:63 | trimming twice equals trimming once |
| `JsText.Split` | app.js:37 | `split("\n")` yields one more piece than there are separators, and no piece contains the separator |
| `JsText.JoinSplit` | app.js:37 | re-joining the split lines with the separator gives back the buffer exactly |
| `JsText.SplitJoin` | app.js:37 | splitting a join of separator-free lines gives back those lines |
| `JsText.NatToString` | token.js:56 | the status in the error text is a non-empty run of decimal digits without a leading zero, and those digits denote the status |
| `Utf8.Run` | app.js:36 | decoding keeps the decoder in a state whose every completion is a Unicode scalar value |
| `Utf8.RunAppend` | app.js:36 | decoding with the state carried across a cut gives the same state and text as decoding the whole |
| `Utf8.Decode` | app.js:36 | `chunk.toString()` yields no text exactly for an empty chunk, and never more characters than bytes |
| `Utf8.DecodeEncode` | app.js:36 | decoding the UTF-8 encoding of any string gives the string back, ending idle |
| `Token.Hex` | token.js:25 | hex encoding gives two lower-case hexadecimal digits per byte |
| `Token.UnhexHex` | token.js:25 | the hex text determines the bytes: reading it back gives the original bytes |
| `Token.MakeAssertion` | token.js:18-32 | `iat` is the clock in whole seconds (floor), `exp = iat + 900`, `iss`/`aud` copied, `jti` is 32 hex digits encoding the 16 random bytes, header `{RS256, JWT, kid}` |
| `Token.MakeExchangeRequest` | token.js:43-53 | the request carries `Bearer <jwt>`, `duration_seconds = 86399` and the JWT bearer grant type |
| `Token.GetAccessToken` | token.js:40-74 | a credential is returned iff the fetch succeeded, the status is OK, the body parsed and `access_token` is non-empty; then token and `expires_in` are copied verbatim; a failed fetch or body is rethrown unchanged; a non-OK status throws the status error |
| `Token.MissingTokenRejected` | token.js:61-63 | an OK reply without a non-empty `access_token` throws "No access token received" |
| `Requests.ChatHistory` | app.js:118-122 | the history has one entry per message but the last, same order, same role and content, each tagged `text` |
| `Requests.ResolveBot` | app.js:125 | a non-empty model with a non-empty mapping selects that bot (non-empty); otherwise the default bot |
| `Requests.EmptyBotOnlyFromDefault` | app.js:125 | the bot id is empty exactly when there is no usable mapping and the default is empty |
| `Requests.TranslateRequest` | app.js:117-134 | succeeds iff `messages` is present and non-empty (else `TypeError`); history, query = last content, bot, `conversation_id = ""`, `user` defaulting to `apiuser`, `stream` defaulting to false |
| `Requests.ConversationPreserved` | app.js:118-124 | the untagged history followed by the query under the last role is the inbound message list |
| `Responses.Succeeded` | app.js:45 | success needs both fields present: a missing `code` or `msg` is never success, and success means `code` is 0 and `msg` is "success" |
| `Responses.FirstAnswer` | app.js:46-48 | the index found is an assistant answer and no earlier message is; none found means no message is |
| `Responses.TranslateResponse` | app.js:44-77 | success iff `code === 0`, `msg === "success"` and an answer exists; then one `stop` choice with the trimmed first answer, the request's model, usage 100/10/110 (total = prompt + completion), fingerprint `fp_2f57f81c11`; otherwise the upstream `msg`, the fixed fallback text, a `TypeError` or "No answer message found." |
| `Responses.FirstAnswerWins` | app.js:46-48 | with only non-answers before it, an answer is the one found whatever follows it |
| `Responses.ContentIsTrimmedAnswer` | app.js:63 | the completion content is the first answer's content with only surrounding whitespace removed |
| `Responses.HelloScenario` | app.js:45-68 | a success reply with the single answer "hello" gives content "hello" and `finish_reason` "stop" |
| `StreamBuffer.AppendDecodedChunk` | app.js:36 | as written: the old buffer is kept as a prefix and what follows it is the chunk decoded on its own |
| `StreamBuffer.BufferAsWritten` | app.js:33-36 | the buffer built chunk by chunk holds at most one character per byte received, and is empty only while no byte has arrived |
| `StreamBuffer.SplitCharacterCorrupted` | app.js:36 | as written, "é" split across two chunks becomes two U+FFFD, while its bytes decode to "é" |
| `StreamBuffer.AsWrittenAgreesOnBoundaries` | app.js:36 | when every chunk ends on a character boundary, chunk-wise decoding equals decoding the concatenation |
| `StreamBuffer.LineBuffer.constructor` | app.js:33 | the buffer starts empty with nothing received |
| `StreamBuffer.LineBuffer.OnData` | app.js:35-37 | corrected (see ## Findings): the chunk's text is appended in arrival order, the buffer is the decoding of all bytes received, and the lines are its split, which re-joins to the buffer and counts newlines plus one |
| `StreamBuffer.FeedAll` | app.js:35-40 | corrected (see ## Findings): after any sequence of `data` events the buffer is the decoding of their concatenation |
| `Gateway.Respond` | app.js:111-157 | empty token gives 401 with no call; a malformed body gives 500 with no call; otherwise the translated request is sent with `Bearer <token>`; 200 exactly for a translated non-stream success, and its body is that completion; an event stream for the request's model exactly for a streamed request that was answered; once the call is made, every other outcome (rejected fetch, failed `json()`, a thrown translation) is 500 "Internal server error." |
| `Gateway.NeedsRefresh` | app.js:107 | a credential kept without refresh holds a non-empty token; one without `expires_in` is refreshed only when its token is empty |
| `Gateway.NeedsRefreshLater` | app.js:107 | a credential that must be refreshed at one clock reading must also be at every later one |
| `Gateway.Handle` | app.js:105-158 | a credential that is non-empty and unexpired is reused with no exchange; otherwise one assertion is exchanged and either the cache is replaced by the new credential or the handler rejects with the cache unchanged; it rejects exactly when a refresh was needed and the exchange failed, and otherwise the reply is the one for the resulting token |
| `Gateway.FreshReused` | app.js:107 | a cached credential with a non-empty token whose `expires_in` is missing or after the clock reading is used with no exchange and the cache unchanged |
| `Gateway.UnauthorizedUnreachable` | app.js:107-114 | no request is ever answered with status 401 |
| `Gateway.RefreshedIsReused` | app.js:107-109 | a credential just obtained with a non-empty token is reused unchanged, with no exchange, by a later request whose clock reading is still before its `expires_in` |
| `Gateway.MalformedBodyAnswers500` | app.js:117-156 | a missing or empty message list makes no upstream call and is answered 500, unless a needed refresh failed and the handler rejected first |
| `Gateway.HelloEndToEnd` | app.js:117-152 | with `gpt-x` mapped to `bot123`, a one-message request goes to `bot123` with empty history and returns 200 with content "hello" |
| `Gateway.Server.constructor` | app.js:25-28 | the cache starts as the empty token with `expires_in` 0 |
| `Gateway.Server.HandleChatCompletions` | app.js:105-158 | the new cache, the assertion exchanged, the call sent and the reply are those of `Handle` on the old cache; without a refresh the cache is unchanged |

## Findings

| source | as written | input that shows it | evidently intended | confidence | as-written member | corrected member |
|---|---|---|---|---|---|---|
| app.js:36 | each chunk is decoded on its own with `chunk.toString()`, so a multi-byte UTF-8 character cut by a chunk boundary turns into replacement characters | the bytes C3 A9 ("é") arriving as two chunks [C3] and [A9] give a buffer of two U+FFFD | the buffer holds the decoding of all bytes received, whatever the chunk boundaries (the decoder state is kept between chunks, as a streaming `TextDecoder` or `StringDecoder` does) | high; not executed | `StreamBuffer.SplitCharacterCorrupted` | `StreamBuffer.LineBuffer.OnData` |

## Left out

- The Express plumbing (app set-up, body parsing, CORS headers, the OPTIONS 204 answer, the
  landing page, `app.listen`): transport and presentation.
- Configuration loading (`dotenv`, `JSON.parse` of the environment): the configuration is a
  constant parameter (`Gateway.Config`, `Token.JwtConfig`).
- The `fetch` calls and `resp.json()`: what they settle with is an input
  (`Gateway.Upstream`, the `tokenFetch` parameter); the URLs are still built.
- A failure of `jwt.sign` itself (an unusable key, such as the empty default at token.js:11)
  makes `getAccessToken` reject before any fetch; the model represents it as a failed
  `tokenFetch`, which has the same outcome (the handler rejects, the cache is unchanged, no
  chat call is made), although `Gateway.Outcome.exchanged` still records the assertion.
- `jwt.sign` and `randomBytes`: the model builds the header and claims that are signed and
  takes the 16 random bytes as an input; the RS256 signature itself is not modelled.
- `Token.MakeExchangeRequest` stands alone: because the signed JWT text is not modelled,
  `Gateway.Outcome` records the assertion a refresh signs, not the token request that carries it.
- The clock: `Date.now()` is a parameter in milliseconds, and one request uses one reading
  throughout. The source reads the clock separately for the freshness check (app.js:107), for
  the JWT's `iat` (token.js:19) and for the completion's `id` and `created` (app.js:55,57), with
  awaits in between; the model does not capture the time that passes between these readings.
- The `JSON.stringify` pretty-printing and the constant `logprobs: null` are not modelled.
- The streaming logic after the split is elided in the code at app.js:39; only the
  append-and-split step is modelled, and the buffer is never cut back.
- Concurrency: requests that race on `TokenConfig` are not modelled; each request runs alone.
- What happens after the handler's promise rejects (an unhandled rejection) is left to the
  runtime; the model stops at `Gateway.Reply.Rejected`.
- JSON values are narrowed to the types the code expects: strings for roles, contents, models,
  users, tokens and bot ids; integers for `code`, `expires_in` and the status; a boolean
  `stream`. Numbers are integers, so `expires_in <= Date.now()/1000` is modelled exactly as
  `expires_in * 1000 <= nowMs`. A `null` field, a non-string content (an array of parts), a
  message that is not an object, and inherited properties of `BOT_CONFIG` (such as a model
  named `toString`) are not modelled.
- JavaScript strings are sequences of UTF-16 code units; here they are sequences of Unicode
  scalar values, which changes nothing for `trim` and `split("\n")`.
