/**
 * The IP Australia OAuth client-credentials token and its cache. The process environment is
 * the Env value, the clock is an integer millisecond reading passed in, and the single HTTP
 * exchange with the token endpoint is the TokenReply passed in; the request the model would
 * send is returned as a TokenRequest.
 */
module Tokens {
  import opened Wrappers
  import opened Text
  import opened PyJson

  /** The environment variables the trademark lookup reads; None is an unset variable. */
  datatype Env = Env(
    ipauEnv: Option<string>,
    tokenUrlProd: Option<string>,
    tokenUrlTest: Option<string>,
    clientId: Option<string>,
    clientSecret: Option<string>,
    tmBaseUrlProd: Option<string>,
    tmBaseUrlTest: Option<string>)

  /** IPAU_ENV, defaulting to "test", selects the production endpoints only when it is "production". */
  predicate IsProduction(env: Env) {
    env.ipauEnv.GetOr("test") == "production"
  }

  /** Python truthiness of an optional environment value: set and non-empty. */
  predicate Present(v: Option<string>) {
    v.Some? && v.value != ""
  }

  /** The settings the token client needs. */
  datatype TokenConfig = TokenConfig(tokenUrl: Option<string>, clientId: Option<string>, clientSecret: Option<string>)

  function TokenConfigOf(env: Env): TokenConfig {
    TokenConfig(if IsProduction(env) then env.tokenUrlProd else env.tokenUrlTest, env.clientId, env.clientSecret)
  }

  /** The cached token: the access_token value and its expiry in epoch milliseconds. */
  datatype CachedToken = CachedToken(token: Json, expiresAt: int)

  /** The form POSTed to the token endpoint (grant_type is always client_credentials). */
  datatype TokenRequest = TokenRequest(url: string, clientId: string, clientSecret: string)

  /** What the token endpoint answered. */
  datatype TokenReply =
    | TokenHttpError(statusCode: int, text: string)  // a non-success status
    | TokenRaised(message: string)                  // the POST or the JSON decoding raised
    | TokenBody(body: Json, text: string)           // a success status and its decoded JSON body

  datatype TokenError =
    | MissingTokenUrl
    | MissingClientId
    | MissingClientSecret
    | RequestRejected(statusCode: int, excerpt: string)
    | MissingAccessToken(excerpt: string)
    | Raised(message: string)
    | UnboundName(name: string)

  /** str() of the exception raised for each error. */
  function ErrorMessage(e: TokenError): string {
    match e
    case MissingTokenUrl => "Missing IPAU_TOKEN_URL_TEST/PROD in environment"
    case MissingClientId => "Missing IPAU_CLIENT_ID in environment"
    case MissingClientSecret => "Missing IPAU_CLIENT_SECRET in environment"
    case RequestRejected(code, excerpt) => "Token request failed " + IntToDecimal(code) + ": " + excerpt
    case MissingAccessToken(excerpt) => "Token response missing access_token: " + excerpt
    case Raised(message) => message
    case UnboundName(name) => "name '" + name + "' is not defined"
  }

  /** One token acquisition: its result, the cache afterwards and the request sent, if any. */
  datatype TokenStep = TokenStep(result: Result<Json, TokenError>, cache: Option<CachedToken>, request: Option<TokenRequest>)

  /** expires_in when the reply omits it, in seconds. */
  const DefaultExpiresIn: int := 3600

  /** The safety margin subtracted from expires_in, in seconds. */
  const SafetyMargin: int := 60

  /** How many characters of a reply body an error message quotes. */
  const ExcerptLength: nat := 250

  /** The first missing setting, in the order they are checked. */
  function ConfigError(cfg: TokenConfig): (r: Option<TokenError>)
    ensures r.None? <==> Present(cfg.tokenUrl) && Present(cfg.clientId) && Present(cfg.clientSecret)
    ensures !Present(cfg.tokenUrl) ==> r == Some(MissingTokenUrl)
    ensures Present(cfg.tokenUrl) && !Present(cfg.clientId) ==> r == Some(MissingClientId)
    ensures Present(cfg.tokenUrl) && Present(cfg.clientId) && !Present(cfg.clientSecret) ==> r == Some(MissingClientSecret)
  {
    if !Present(cfg.tokenUrl) then Some(MissingTokenUrl)
    else if !Present(cfg.clientId) then Some(MissingClientId)
    else if !Present(cfg.clientSecret) then Some(MissingClientSecret)
    else None
  }

  /** A cached token is reused while the clock is strictly before its expiry. */
  predicate IsFresh(cached: Option<CachedToken>, nowMs: int) {
    cached.Some? && nowMs < cached.value.expiresAt
  }

  /** The cache only ever holds a truthy token. */
  predicate ValidCache(cached: Option<CachedToken>) {
    cached.None? || Truthy(cached.value.token)
  }

  /** The expiry stored for a token granted at nowMs for expiresIn seconds. */
  function ExpiryOf(nowMs: int, expiresIn: int): int {
    nowMs + (expiresIn - SafetyMargin) * 1000
  }

  /** request_new_token with the endpoint and credentials it needs passed in. */
  function NewTokenStep(req: TokenRequest, cached: Option<CachedToken>, nowMs: int, reply: TokenReply): (s: TokenStep)
    ensures s.request == Some(req)
    ensures s.result.Err? ==> s.cache == cached
    ensures s.result.Ok? <==>
              reply.TokenBody? && reply.body.JObj?
              && PyInt(GetDefault(reply.body.fields, "expires_in", JInt(DefaultExpiresIn))).Some?
              && Truthy(Get(reply.body.fields, "access_token"))
    ensures s.result.Ok? ==>
              s.result.value == Get(reply.body.fields, "access_token")
              && s.cache == Some(CachedToken(s.result.value, ExpiryOf(nowMs, PyInt(GetDefault(reply.body.fields, "expires_in", JInt(DefaultExpiresIn))).value)))
    ensures reply.TokenHttpError? ==> s.result == Err(RequestRejected(reply.statusCode, Take(reply.text, ExcerptLength)))
    ensures ValidCache(cached) ==> ValidCache(s.cache)
  {
    match reply
    case TokenHttpError(code, text) => TokenStep(Err(RequestRejected(code, Take(text, ExcerptLength))), cached, Some(req))
    case TokenRaised(message) => TokenStep(Err(Raised(message)), cached, Some(req))
    case TokenBody(body, text) =>
      if !body.JObj? then
        TokenStep(Err(Raised(NoGetMessage(body))), cached, Some(req))
      else
        var accessToken := Get(body.fields, "access_token");
        match PyInt(GetDefault(body.fields, "expires_in", JInt(DefaultExpiresIn)))
        case None => TokenStep(Err(Raised(IntErrorMessage)), cached, Some(req))
        case Some(expiresIn) =>
          if !Truthy(accessToken) then TokenStep(Err(MissingAccessToken(Take(text, ExcerptLength))), cached, Some(req))
          else TokenStep(Ok(accessToken), Some(CachedToken(accessToken, ExpiryOf(nowMs, expiresIn))), Some(req))
  }

  /** get_ipau_access_token: configuration first, then the cache, then a new token. */
  function AccessTokenStep(cfg: TokenConfig, cached: Option<CachedToken>, nowMs: int, reply: TokenReply): (s: TokenStep)
    ensures ValidCache(cached) ==> ValidCache(s.cache)
    ensures s.result.Ok? ==> Truthy(s.result.value) || !ValidCache(cached)
    ensures s.request.Some? <==> ConfigError(cfg).None? && !IsFresh(cached, nowMs)
  {
    match ConfigError(cfg)
    case Some(e) => TokenStep(Err(e), cached, None)
    case None =>
      if IsFresh(cached, nowMs) then TokenStep(Ok(cached.value.token), cached, None)
      else NewTokenStep(TokenRequest(cfg.tokenUrl.value, cfg.clientId.value, cfg.clientSecret.value), cached, nowMs, reply)
  }

  /** A missing setting fails before the cache is consulted: whatever is cached, nothing is sent or changed. */
  lemma ConfigCheckedFirst(cfg: TokenConfig, cached: Option<CachedToken>, nowMs: int, reply: TokenReply)
    requires ConfigError(cfg).Some?
    ensures AccessTokenStep(cfg, cached, nowMs, reply) == TokenStep(Err(ConfigError(cfg).value), cached, None)
  {
  }

  /** A fresh cached token is returned as it is, with no request and the cache unchanged. */
  lemma FreshTokenReused(cfg: TokenConfig, cached: Option<CachedToken>, nowMs: int, reply: TokenReply)
    requires ConfigError(cfg).None? && IsFresh(cached, nowMs)
    ensures AccessTokenStep(cfg, cached, nowMs, reply) == TokenStep(Ok(cached.value.token), cached, None)
  {
  }

  /** An empty or expired cache sends exactly the configured request; a failure leaves the cache as it was. */
  lemma StaleTokenRequested(cfg: TokenConfig, cached: Option<CachedToken>, nowMs: int, reply: TokenReply)
    requires ConfigError(cfg).None? && !IsFresh(cached, nowMs)
    ensures var s := AccessTokenStep(cfg, cached, nowMs, reply);
            s.request == Some(TokenRequest(cfg.tokenUrl.value, cfg.clientId.value, cfg.clientSecret.value))
            && (s.result.Err? ==> s.cache == cached)
  {
  }

  /**
   * A token granted at t0 for expiresIn seconds is reused, with no request, by every later call
   * strictly before t0 + (expiresIn - 60) * 1000, whatever the endpoint would have answered.
   */
  lemma RefreshThenReuse(cfg: TokenConfig, cached: Option<CachedToken>, t0: int, reply: TokenReply, t1: int, reply1: TokenReply)
    requires ConfigError(cfg).None? && !IsFresh(cached, t0)
    requires AccessTokenStep(cfg, cached, t0, reply).result.Ok?
    requires reply.TokenBody? && reply.body.JObj?
    requires t1 < ExpiryOf(t0, PyInt(GetDefault(reply.body.fields, "expires_in", JInt(DefaultExpiresIn))).value)
    ensures var s0 := AccessTokenStep(cfg, cached, t0, reply);
            var s1 := AccessTokenStep(cfg, s0.cache, t1, reply1);
            s1.result == s0.result && s1.request.None? && s1.cache == s0.cache
  {
  }

  /**
   * request_new_token as written: it reads token_url, client_id and client_secret, which are local
   * to get_ipau_access_token, so its first use of token_url raises NameError before any request.
   */
  function AccessTokenStepAsWritten(cfg: TokenConfig, cached: Option<CachedToken>, nowMs: int): (s: TokenStep)
    ensures s.cache == cached && s.request.None?
    ensures ConfigError(cfg).None? && !IsFresh(cached, nowMs) ==> s.result == Err(UnboundName("token_url"))
  {
    match ConfigError(cfg)
    case Some(e) => TokenStep(Err(e), cached, None)
    case None =>
      if IsFresh(cached, nowMs) then TokenStep(Ok(cached.value.token), cached, None)
      else TokenStep(Err(UnboundName("token_url")), cached, None)
  }

  /**
   * The cache after the as-written token client is called once at each reading of the clock:
   * no call ever stores a token, so it stays empty.
   */
  function AsWrittenCacheAfter(cfg: TokenConfig, clock: seq<int>): (r: Option<CachedToken>)
    ensures r == None
    decreases |clock|
  {
    if clock == [] then None
    else AccessTokenStepAsWritten(cfg, AsWrittenCacheAfter(cfg, clock[..|clock| - 1]), clock[|clock| - 1]).cache
  }

  /**
   * As written, the cache starts empty and no call ever fills it, so every call fails: with a
   * missing setting or with the NameError.
   */
  lemma {:induction false} AsWrittenNeverCaches(cfg: TokenConfig, clock: seq<int>)
    ensures AsWrittenCacheAfter(cfg, clock) == None
    ensures forall i :: 0 <= i < |clock| ==>
              AccessTokenStepAsWritten(cfg, AsWrittenCacheAfter(cfg, clock[..i]), clock[i]).result.Err?
    decreases |clock|
  {
    if clock != [] {
      AsWrittenNeverCaches(cfg, clock[..|clock| - 1]);
      assert forall i :: 0 <= i < |clock| - 1 ==> clock[..|clock| - 1][..i] == clock[..i];
    }
  }

  /** The module-level token cache. */
  class TokenCache {
    var cached: Option<CachedToken>

    /** The process starts with no cached token. */
    constructor()
      ensures cached == None
    {
      cached := None;
    }

    /** request_new_token: POST the credentials and, on success, cache the token. */
    method RequestNewToken(req: TokenRequest, nowMs: int, reply: TokenReply) returns (token: Result<Json, TokenError>)
      modifies this
      ensures token == NewTokenStep(req, old(cached), nowMs, reply).result
      ensures cached == NewTokenStep(req, old(cached), nowMs, reply).cache
    {
      match reply
      case TokenHttpError(code, text) =>
        return Err(RequestRejected(code, Take(text, ExcerptLength)));
      case TokenRaised(message) =>
        return Err(Raised(message));
      case TokenBody(body, text) =>
        if !body.JObj? {
          return Err(Raised(NoGetMessage(body)));
        }
        var accessToken := Get(body.fields, "access_token");
        var expiresIn := PyInt(GetDefault(body.fields, "expires_in", JInt(DefaultExpiresIn)));
        if expiresIn.None? {
          return Err(Raised(IntErrorMessage));
        }
        if !Truthy(accessToken) {
          return Err(MissingAccessToken(Take(text, ExcerptLength)));
        }
        cached := Some(CachedToken(accessToken, ExpiryOf(nowMs, expiresIn.value)));
        return Ok(accessToken);
    }

    /** get_ipau_access_token: the token, and the request sent for it if the cache could not serve it. */
    method GetAccessToken(cfg: TokenConfig, nowMs: int, reply: TokenReply) returns (token: Result<Json, TokenError>, request: Option<TokenRequest>)
      modifies this
      ensures token == AccessTokenStep(cfg, old(cached), nowMs, reply).result
      ensures request == AccessTokenStep(cfg, old(cached), nowMs, reply).request
      ensures cached == AccessTokenStep(cfg, old(cached), nowMs, reply).cache
    {
      if !Present(cfg.tokenUrl) {
        return Err(MissingTokenUrl), None;
      }
      if !Present(cfg.clientId) {
        return Err(MissingClientId), None;
      }
      if !Present(cfg.clientSecret) {
        return Err(MissingClientSecret), None;
      }
      if cached.Some? && nowMs < cached.value.expiresAt {
        return Ok(cached.value.token), None;
      }
      var req := TokenRequest(cfg.tokenUrl.value, cfg.clientId.value, cfg.clientSecret.value);
      token := RequestNewToken(req, nowMs, reply);
      request := Some(req);
    }
  }
}
