/** The Korea Investment ("Hantu") access-token cache
    (client/src/features/stock/queries/get-hantu-access-token.ts): a single
    cached token, reused until five minutes before it expires, cleared on
    demand, on expiry, and when an API call reports an expired token. */
module HantuToken {
  import opened Common

  /** Refresh five minutes before expiry. */
  const RefreshBufferMs := 5 * 60 * 1000
  /** The code the API answers with when it rejects an expired token. */
  const TokenExpiredCode := "EGW00123"
  /** The code for the one-token-per-minute issuing limit. */
  const TokenRateLimitCode := "EGW00133"
  const MissingTokenMessage := "접근토큰 발급 실패: access_token 없음"
  const MissingCredentialsMessage :=
    "HANTU_APP_KEY(또는 HANTU_API_KEY), HANTU_APP_SECRET(또는 HANTU_SECRET_KEY)가 필요합니다."

  /** `HantuTokenResponse`; a missing `access_token` is the empty string. */
  datatype TokenResponse = TokenResponse(accessToken: string, tokenType: string, expiresIn: int,
                                         accessTokenTokenExpired: string)

  /** The value of `cached` when it is set. */
  datatype CachedToken = CachedToken(token: TokenResponse, expiresAt: int)

  /** A call that returns a value or throws an error with a message. */
  datatype Outcome<T> = Ok(value: T) | Thrown(message: string)

  /** `fetchHantuToken` started at `now`: `credentials` says whether the
      app key and secret are configured, `response` is what the token
      endpoint's POST returned or threw. Only a response carrying an
      access token is cached; every error propagates unchanged. */
  function FetchResult(cached: Option<CachedToken>, now: int, credentials: bool,
                       response: Outcome<TokenResponse>): (Option<CachedToken>, Outcome<TokenResponse>)
  {
    if !credentials then (cached, Thrown(MissingCredentialsMessage))
    else match response
      case Thrown(m) => (cached, Thrown(m))
      case Ok(data) =>
        if data.accessToken == "" then (cached, Thrown(MissingTokenMessage))
        else (Some(CachedToken(data, now + data.expiresIn * 1000)), Ok(data))
  }

  /** The cache holds a token that is still good for more than the buffer. */
  predicate Fresh(cached: Option<CachedToken>, now: int)
  {
    cached.Some? && now < cached.value.expiresAt - RefreshBufferMs
  }

  /** The cache after the forced and expired entries are dropped. */
  function Pruned(cached: Option<CachedToken>, forceNew: bool, now: int): Option<CachedToken>
  {
    var c := if forceNew then None else cached;
    if c.Some? && now >= c.value.expiresAt then None else c
  }

  /** `getHantuAccessToken(forceNew)` at time `now`. */
  function GetAccessToken(cached: Option<CachedToken>, forceNew: bool, now: int, credentials: bool,
                          response: Outcome<TokenResponse>): (Option<CachedToken>, Outcome<TokenResponse>)
  {
    var c := if forceNew then None else cached;
    if Fresh(c, now) then (c, Ok(c.value.token))
    else FetchResult(Pruned(cached, forceNew, now), now, credentials, response)
  }

  /** `withHantuToken(fn)`: obtain a token, run `fn` with it, and on an
      error mentioning `EGW00123` clear the cache before rethrowing. */
  function WithToken<T>(cached: Option<CachedToken>, now: int, credentials: bool,
                        response: Outcome<TokenResponse>, fn: string -> Outcome<T>): (Option<CachedToken>, Outcome<T>)
  {
    var (c, t) := GetAccessToken(cached, false, now, credentials, response);
    var r := if t.Ok? then fn(t.value.accessToken) else Thrown(t.message);
    if r.Thrown? && Contains(r.message, TokenExpiredCode) then (None, r) else (c, r)
  }

  /** The module-level `cached` variable, as an object. */
  class TokenCache {
    var cached: Option<CachedToken>

    constructor ()
      ensures cached == None
    {
      cached := None;
    }

    /** `clearHantuTokenCache`. */
    method ClearHantuTokenCache()
      modifies this
      ensures cached == None
    {
      cached := None;
    }

    /** `fetchHantuToken`, with `Date.now()` and the endpoint's answer
        passed in. */
    method FetchHantuToken(now: int, credentials: bool, response: Outcome<TokenResponse>)
      returns (r: Outcome<TokenResponse>)
      modifies this
      ensures (cached, r) == FetchResult(old(cached), now, credentials, response)
    {
      if !credentials {
        return Thrown(MissingCredentialsMessage);
      }
      if response.Thrown? {
        return Thrown(response.message);
      }
      var data := response.value;
      if data.accessToken == "" {
        return Thrown(MissingTokenMessage);
      }
      cached := Some(CachedToken(data, now + data.expiresIn * 1000));
      return Ok(data);
    }

    /** `getHantuAccessToken(forceNew)`. */
    method GetHantuAccessToken(forceNew: bool, now: int, credentials: bool, response: Outcome<TokenResponse>)
      returns (r: Outcome<TokenResponse>)
      modifies this
      ensures (cached, r) == GetAccessToken(old(cached), forceNew, now, credentials, response)
    {
      if forceNew {
        cached := None;
      }
      if cached.Some? && now < cached.value.expiresAt - RefreshBufferMs {
        return Ok(cached.value.token);
      }
      if cached.Some? && now >= cached.value.expiresAt {
        cached := None;
      }
      r := FetchHantuToken(now, credentials, response);
    }

    /** `withHantuToken(fn)`. */
    method WithHantuToken<T>(now: int, credentials: bool, response: Outcome<TokenResponse>, fn: string -> Outcome<T>)
      returns (r: Outcome<T>)
      modifies this
      ensures (cached, r) == WithToken(old(cached), now, credentials, response, fn)
    {
      var t := GetHantuAccessToken(false, now, credentials, response);
      if t.Ok? {
        r := fn(t.value.accessToken);
      } else {
        r := Thrown(t.message);
      }
      if r.Thrown? && Contains(r.message, TokenExpiredCode) {
        ClearHantuTokenCache();
      }
    }
  }

  /** With `forceNew` the previous cache plays no part: a token is always
      fetched, and a failed fetch leaves the cache empty. */
  lemma ForceNewIgnoresCache(cached: Option<CachedToken>, now: int, credentials: bool, response: Outcome<TokenResponse>)
    ensures GetAccessToken(cached, true, now, credentials, response) == FetchResult(None, now, credentials, response)
    ensures GetAccessToken(cached, true, now, credentials, response).1.Thrown? ==>
      GetAccessToken(cached, true, now, credentials, response).0 == None
  {
  }

  /** The cached token is returned, and the cache kept, exactly when it is
      set and `now` is more than the buffer before its expiry; otherwise
      the result is that of a fetch from the pruned cache. */
  lemma ServedFromCacheIff(cached: Option<CachedToken>, now: int, credentials: bool, response: Outcome<TokenResponse>)
    ensures Fresh(cached, now) ==>
      GetAccessToken(cached, false, now, credentials, response) == (cached, Ok(cached.value.token))
    ensures !Fresh(cached, now) ==>
      GetAccessToken(cached, false, now, credentials, response) ==
      FetchResult(Pruned(cached, false, now), now, credentials, response)
    ensures Fresh(cached, now) <==> cached.Some? && now < cached.value.expiresAt - RefreshBufferMs
  {
  }

  /** A fetch after expiry that fails leaves the cache empty; one inside
      the refresh buffer but before expiry that fails keeps the old
      token. */
  lemma FailedRefresh(cached: Option<CachedToken>, now: int, credentials: bool, response: Outcome<TokenResponse>)
    requires cached.Some?
    requires GetAccessToken(cached, false, now, credentials, response).1.Thrown?
    ensures now >= cached.value.expiresAt ==> GetAccessToken(cached, false, now, credentials, response).0 == None
    ensures cached.value.expiresAt - RefreshBufferMs <= now < cached.value.expiresAt ==>
      GetAccessToken(cached, false, now, credentials, response).0 == cached
  {
  }

  /** A fetch caches the response exactly when it carries an access token,
      expiring `expires_in` seconds after the request started; a missing
      token, missing credentials or a transport error is thrown with the
      cache left as it was. */
  lemma FetchFacts(cached: Option<CachedToken>, now: int, credentials: bool, response: Outcome<TokenResponse>)
    ensures var (c, r) := FetchResult(cached, now, credentials, response);
      (r.Ok? <==> credentials && response.Ok? && response.value.accessToken != "") &&
      (r.Ok? ==> r == response && c == Some(CachedToken(response.value, now + response.value.expiresIn * 1000))) &&
      (r.Thrown? ==> c == cached) &&
      (credentials && response.Ok? && response.value.accessToken == "" ==> r == Thrown(MissingTokenMessage)) &&
      (credentials && response.Thrown? ==> r == response)
  {
  }

  /** The cache never holds a token without an access token. */
  predicate Valid(cached: Option<CachedToken>)
  {
    cached.Some? ==> cached.value.token.accessToken != ""
  }

  /** Every operation keeps the cache valid, and a token handed out always
      has an access token. */
  lemma OperationsKeepValid<T>(cached: Option<CachedToken>, forceNew: bool, now: int, credentials: bool,
                               response: Outcome<TokenResponse>, fn: string -> Outcome<T>)
    requires Valid(cached)
    ensures Valid(FetchResult(cached, now, credentials, response).0)
    ensures Valid(GetAccessToken(cached, forceNew, now, credentials, response).0)
    ensures GetAccessToken(cached, forceNew, now, credentials, response).1.Ok? ==>
      GetAccessToken(cached, forceNew, now, credentials, response).1.value.accessToken != ""
    ensures Valid(WithToken(cached, now, credentials, response, fn).0)
  {
  }

  /** `withHantuToken` clears the cache exactly when the error it rethrows
      mentions `EGW00123`; any error is rethrown unchanged, and a success
      is `fn`'s own result. */
  lemma WithTokenFacts<T>(cached: Option<CachedToken>, now: int, credentials: bool,
                          response: Outcome<TokenResponse>, fn: string -> Outcome<T>)
    ensures var (c1, t) := GetAccessToken(cached, false, now, credentials, response);
      var (c, r) := WithToken(cached, now, credentials, response, fn);
      (t.Ok? ==> r == fn(t.value.accessToken)) &&
      (t.Thrown? ==> r == Thrown(t.message)) &&
      (r.Thrown? && Contains(r.message, TokenExpiredCode) ==> c == None) &&
      (!(r.Thrown? && Contains(r.message, TokenExpiredCode)) ==> c == c1)
  {
  }
}
