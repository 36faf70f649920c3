/**
 * The credential exchange of token.js: the claims and header of the signed assertion
 * (a JSON Web Token, RFC 7519, signed with RS256 as section 3.3 of RFC 7518 defines it),
 * the body of the token request (the JWT bearer grant of section 2.1 of RFC 7523), and the
 * checks applied to the token endpoint's reply. Signing, randomness and the network are
 * inputs.
 */
module Token {
  import opened Wrappers
  import JsText
  import Utf8

  type byte = Utf8.byte

  /** Lifetime of the signed assertion, in seconds. */
  const JwtExpiry: int := 15 * 60
  /** Lifetime requested for the bearer credential, in seconds. */
  const TokenDuration: int := 86399
  const JwtBearerGrant: string := "urn:ietf:params:oauth:grant-type:jwt-bearer"

  /** The signing metadata read from the configuration; a key it lacks is `None`. */
  datatype JwtConfig = JwtConfig(iss: Option<string>, aud: Option<string>, kid: Option<string>)

  datatype Claims = Claims(iss: Option<string>, aud: Option<string>, iat: int, exp: int, jti: string)
  datatype Header = Header(alg: string, typ: string, kid: Option<string>)

  /** What `jwt.sign` is given: the header and the claims it signs. */
  datatype Assertion = Assertion(header: Header, claims: Claims)

  /** The JSON body of the token request. */
  datatype ExchangeBody = ExchangeBody(duration_seconds: int, grant_type: string)

  datatype ExchangeRequest = ExchangeRequest(url: string, authorization: string, body: ExchangeBody)

  /** The fields of the token endpoint's JSON reply that are read; a missing one is `None`. */
  datatype TokenData = TokenData(access_token: Option<string>, expires_in: Option<int>)

  /** The fetched reply: `response.ok`, `response.status` and what `response.json()` settles with. */
  datatype TokenResponse = TokenResponse(ok: bool, status: nat, json: Result<TokenData, JsError>)

  /** The cached bearer credential; `expires_in` is kept exactly as the endpoint sent it. */
  datatype Credential = Credential(access_token: string, expires_in: Option<int>)

  /** The lower-case hexadecimal digit of `v`. */
  function HexDigit(v: int): (c: char)
    requires 0 <= v < 16
    ensures HexValue(c) == Some(v)
  {
    if v < 10 then ('0' as int + v) as char else ('a' as int + v - 10) as char
  }

  /** Lower-case hexadecimal, two digits per byte, as `Buffer.prototype.toString('hex')`. */
  function Hex(bytes: seq<byte>): (r: string)
    ensures |r| == 2 * |bytes|
    ensures forall i :: 0 <= i < |r| ==> HexValue(r[i]).Some?
  {
    if bytes == [] then ""
    else [HexDigit(bytes[0] / 16), HexDigit(bytes[0] % 16)] + Hex(bytes[1..])
  }

  /** The value of a lower-case hexadecimal digit; `None` for any other character. */
  function HexValue(c: char): (r: Option<int>)
    ensures r.Some? ==> 0 <= r.value < 16
  {
    if '0' <= c <= '9' then Some(c as int - '0' as int)
    else if 'a' <= c <= 'f' then Some(c as int - 'a' as int + 10)
    else None
  }

  /** Reading lower-case hexadecimal back into bytes; `None` for odd length or a non-digit. */
  function Unhex(s: string): Option<seq<byte>> {
    if s == [] then Some([])
    else if |s| == 1 then None
    else
      var hi, lo, rest := HexValue(s[0]), HexValue(s[1]), Unhex(s[2..]);
      if hi.Some? && lo.Some? && rest.Some? then Some([hi.value * 16 + lo.value] + rest.value)
      else None
  }

  /** Two digits in front of a hexadecimal text add one byte in front of what it reads as. */
  lemma UnhexPair(x: byte, s: string)
    ensures Unhex(s).Some? ==> Unhex([HexDigit(x / 16), HexDigit(x % 16)] + s) == Some([x] + Unhex(s).value)
    ensures Unhex(s).None? ==> Unhex([HexDigit(x / 16), HexDigit(x % 16)] + s).None?
  {
    var hi, lo := x / 16, x % 16;
    var t := [HexDigit(hi), HexDigit(lo)] + s;
    assert t[0] == HexDigit(hi) && t[1] == HexDigit(lo) && t[2..] == s;
    UnhexFirst(t);
    assert hi * 16 + lo == x;
  }

  lemma UnhexFirst(t: string)
    requires |t| >= 2
    ensures Unhex(t) == if HexValue(t[0]).Some? && HexValue(t[1]).Some? && Unhex(t[2..]).Some?
      then Some([HexValue(t[0]).value * 16 + HexValue(t[1]).value] + Unhex(t[2..]).value)
      else None
  {
  }

  /** The hexadecimal text determines the bytes: `Unhex` inverts `Hex`. */
  lemma {:induction false} UnhexHex(bytes: seq<byte>)
    ensures Unhex(Hex(bytes)) == Some(bytes)
  {
    if bytes != [] {
      var x, rest := bytes[0], bytes[1..];
      HexFirst(bytes);
      UnhexHex(rest);
      UnhexPair(x, Hex(rest));
      assert [x] + rest == bytes;
    }
  }

  lemma HexFirst(bytes: seq<byte>)
    requires bytes != []
    ensures Hex(bytes) == [HexDigit(bytes[0] / 16), HexDigit(bytes[0] % 16)] + Hex(bytes[1..])
  {
  }

  /**
   * The header and claims of the assertion built at wall-clock time `nowMs` (milliseconds)
   * from the 16 random bytes of `random` (generateJWTToken).
   */
  function MakeAssertion(nowMs: int, cfg: JwtConfig, random: seq<byte>): (a: Assertion)
    requires |random| == 16
    ensures a.claims.iat * 1000 <= nowMs < a.claims.iat * 1000 + 1000
    ensures a.claims.exp - a.claims.iat == 900
    ensures a.claims.iss == cfg.iss && a.claims.aud == cfg.aud
    ensures |a.claims.jti| == 32 && Unhex(a.claims.jti) == Some(random)
    ensures a.header == Header("RS256", "JWT", cfg.kid)
  {
    var now := nowMs / 1000;
    UnhexHex(random);
    Assertion(Header("RS256", "JWT", cfg.kid),
              Claims(cfg.iss, cfg.aud, now, now + JwtExpiry, Hex(random)))
  }

  /** The POST sent to the token endpoint, carrying the signed assertion `jwt` as bearer. */
  function MakeExchangeRequest(apiBase: string, jwt: string): (r: ExchangeRequest)
    ensures |r.authorization| >= 7 && r.authorization[..7] == "Bearer " && r.authorization[7..] == jwt
    ensures r.body.duration_seconds == 86399 && r.body.grant_type == JwtBearerGrant
  {
    ExchangeRequest("https://" + apiBase + "/api/permission/oauth2/token", "Bearer " + jwt,
                    ExchangeBody(TokenDuration, JwtBearerGrant))
  }

  /**
   * The outcome of getAccessToken given what its `fetch` settled with: a failed fetch or a
   * failed `json()` is rethrown unchanged, a non-OK status throws before the body is read, a
   * missing or empty `access_token` throws, and otherwise the token and `expires_in` are
   * returned as received.
   */
  function GetAccessToken(fetched: Result<TokenResponse, JsError>): (r: Result<Credential, JsError>)
    ensures r.Ok? <==> (&& fetched.Ok? && fetched.value.ok && fetched.value.json.Ok?
                        && fetched.value.json.value.access_token.GetOr("") != "")
    ensures fetched.Err? ==> r == Err(fetched.error)
    ensures fetched.Ok? && !fetched.value.ok ==>
      r == Err(Error("HTTP error! status: " + JsText.NatToString(fetched.value.status)))
    ensures fetched.Ok? && fetched.value.ok && fetched.value.json.Err? ==> r == Err(fetched.value.json.error)
    ensures r.Ok? ==> (&& r.value.access_token != ""
                       && Some(r.value.access_token) == fetched.value.json.value.access_token
                       && r.value.expires_in == fetched.value.json.value.expires_in)
  {
    match fetched
    case Err(e) => Err(e)
    case Ok(response) =>
      if !response.ok then Err(Error("HTTP error! status: " + JsText.NatToString(response.status)))
      else
        match response.json
        case Err(e) => Err(e)
        case Ok(data) =>
          if data.access_token.GetOr("") == "" then Err(Error("No access token received"))
          else Ok(Credential(data.access_token.value, data.expires_in))
  }

  /** A body with no usable token is an error with its own message, never a credential. */
  lemma MissingTokenRejected(data: TokenData, status: nat)
    requires data.access_token.GetOr("") == ""
    ensures GetAccessToken(Ok(TokenResponse(true, status, Ok(data)))) == Err(Error("No access token received"))
  {
  }
}
