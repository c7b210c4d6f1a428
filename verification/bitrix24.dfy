/**
 * The Bitrix24 OAuth2 REST client: its configuration, the three OAuth steps
 * and the request dispatcher that refreshes the token and retries once.
 * Each operation takes the World (token provider and transport) and the history
 * so far, and returns its result with the events it added. Next
 * to each operation, a predicate states the sequence of exchanges it must
 * produce, without reference to the World.
 */
module Bitrix24 {
  import opened Wrappers
  import opened PhpArray
  import opened UrlPattern
  import opened Transport

  const DefaultOAuthUrl: string := "https://oath.bitrix.info/oauth/token/"

  /** The component's public properties; None stands for PHP null. */
  datatype Client = Client(
    subdomain: Option<string>,
    url: Option<string>,
    oauthUrl: string,
    clientId: Value,
    clientSecret: Value)

  /** The property defaults, before the application's configuration is applied. */
  const Defaults: Client := Client(None, None, DefaultOAuthUrl, Null, Null)

  /** Once a subdomain is set, the base URL is the one derived from it. */
  ghost predicate Coherent(c: Client)
  {
    c.subdomain.Some? ==> c.url == Some(BaseUrl(c.subdomain.value))
  }

  /** setSubdomain: stores the subdomain and recomputes the base URL from it. */
  function SetSubdomain(c: Client, subdomain: string): (c': Client)
    ensures c'.subdomain == Some(subdomain)
    ensures c'.url == Some("https://" + subdomain + ".bitrix24.ru")
    ensures Coherent(c')
    ensures c'.oauthUrl == c.oauthUrl && c'.clientId == c.clientId && c'.clientSecret == c.clientSecret
  {
    c.(subdomain := Some(subdomain), url := Some(BaseUrl(subdomain)))
  }

  /** init: applies setSubdomain when a subdomain was configured. */
  function Init(c: Client): (c': Client)
    ensures Coherent(c')
    ensures c'.subdomain == c.subdomain
    ensures c.subdomain.None? ==> c'.url == c.url
    ensures c'.oauthUrl == c.oauthUrl && c'.clientId == c.clientId && c'.clientSecret == c.clientSecret
  {
    if c.subdomain.Some? then SetSubdomain(c, c.subdomain.value) else c
  }

  /** Unconfigured, the component has no subdomain, so init leaves it as it is. */
  lemma DefaultsInit()
    ensures Defaults.subdomain.None? && Defaults.url.None?
    ensures Defaults.clientId == Null && Defaults.clientSecret == Null
    ensures Defaults.oauthUrl == "https://oath.bitrix.info/oauth/token/"
    ensures Init(Defaults) == Defaults
  {
  }

  /** The base URL as string concatenation sees it: null reads as the empty string. */
  function UrlText(c: Client): string
  {
    if c.url.Some? then c.url.value else ""
  }

  function RestUrl(c: Client, apiMethod: string): string
  {
    UrlText(c) + "/rest/" + apiMethod + "/"
  }

  function AuthorizeUrl(c: Client): string
  {
    UrlText(c) + "/oauth/authorize/"
  }

  function AuthorizeParams(c: Client): Entries
  {
    [("client_id", c.clientId)]
  }

  function CodeParams(c: Client, code: Value): Entries
  {
    [("grant_type", Str("authorization_code")),
     ("client_id", c.clientId),
     ("client_secret", c.clientSecret),
     ("code", code)]
  }

  function RefreshParams(c: Client, token: Value): Entries
  {
    [("grant_type", Str("refresh_token")),
     ("client_id", c.clientId),
     ("client_secret", c.clientSecret),
     ("refresh_token", Offset(token, "refresh_token"))]
  }

  /**
   * `$params + ['auth' => $token['access_token']]`: the caller's entries are
   * kept as they are, and `auth` is appended only when the caller gave none.
   */
  function WithAuth(params: Entries, token: Value): (p: Entries)
    ensures params <= p
    ensures "auth" in Keys(params) ==> p == params
    ensures "auth" !in Keys(params) ==> p == params + [("auth", Offset(token, "access_token"))]
  {
    var extra := [("auth", Offset(token, "access_token"))];
    assert "auth" in Keys(params) ==> Drop(extra, Keys(params)) == [];
    assert "auth" !in Keys(params) ==> Drop(extra, Keys(params)) == extra;
    Union(params, extra)
  }

  /**
   * Every key the caller supplied keeps its value, a caller-supplied `auth`
   * wins, and otherwise `auth` carries the access token; no other key appears.
   */
  lemma WithAuthLookup(params: Entries, token: Value)
    ensures Keys(WithAuth(params, token)) == Keys(params) + {"auth"}
    ensures forall k | k in Keys(params) :: Get(WithAuth(params, token), k) == Get(params, k)
    ensures "auth" !in Keys(params) ==> Get(WithAuth(params, token), "auth") == Some(Offset(token, "access_token"))
    ensures UniqueKeys(params) ==> UniqueKeys(WithAuth(params, token))
  {
    var extra := [("auth", Offset(token, "access_token"))];
    assert Keys(extra) == {"auth"};
    assert UniqueKeys(extra);
    assert WithAuth(params, token) == Union(params, extra);
  }

  // ---- auth(): first step of the authorization-code grant ----

  ghost predicate IsAuth(c: Client, ext: Trace, v: Value)
  {
    ext == [Call(AuthorizeUrl(c), AuthorizeParams(c), v)]
  }

  function Auth(c: Client, w: World, t: Trace): (r: Step<Value>)
    ensures Replays(w, t, r.events)
    ensures IsAuth(c, r.events, r.result)
  {
    Curl(w, t, AuthorizeUrl(c), AuthorizeParams(c))
  }

  // ---- saveToken(code): exchange of the authorization code ----

  ghost predicate IsSaveToken(c: Client, code: Value, ext: Trace, ok: bool)
  {
    && |ext| == 2
    && ext[0].Call?
    && ext[0].url == c.oauthUrl
    && ext[0].params == CodeParams(c, code)
    && ext[1] == Store(ext[0].reply, ok)
  }

  function SaveToken(c: Client, w: World, t: Trace, code: Value): (r: Step<bool>)
    ensures Replays(w, t, r.events)
    ensures IsSaveToken(c, code, r.events, r.result)
  {
    var auth := Curl(w, t, c.oauthUrl, CodeParams(c, code));
    var saved := SaveTokenData(w, t + auth.events, auth.result);
    ReplaysAppend(w, t, auth.events, saved.events);
    Step(saved.result, auth.events + saved.events)
  }

  // ---- refreshToken(): the refresh-token grant ----

  ghost predicate IsRefresh(c: Client, ext: Trace, ok: bool)
  {
    && |ext| == 3
    && ext[0].Fetch?
    && ext[1].Call?
    && ext[1].url == c.oauthUrl
    && ext[1].params == RefreshParams(c, ext[0].token)
    && ext[2] == Store(ext[1].reply, ok)
  }

  function RefreshToken(c: Client, w: World, t: Trace): (r: Step<bool>)
    ensures Replays(w, t, r.events)
    ensures IsRefresh(c, r.events, r.result)
  {
    var got := GetTokenData(w, t);
    var auth := Curl(w, t + got.events, c.oauthUrl, RefreshParams(c, got.result));
    var head := got.events + auth.events;
    var saved := SaveTokenData(w, t + head, auth.result);
    ReplaysAppend(w, t, got.events, auth.events);
    ReplaysAppend(w, t, head, saved.events);
    Step(saved.result, head + saved.events)
  }

  // ---- request(method, params): dispatch with one refresh-and-retry ----

  /** A REST call to url carrying the caller's params and the access token of token. */
  ghost predicate IsRestCall(e: Event, url: string, params: Entries, token: Value)
  {
    e.Call? && e.url == url && e.params == WithAuth(params, token)
  }

  /**
   * The recovery after an error reply: a whole refresh (its result unused),
   * a fresh fetch of the token data, and one more call to url whose reply v
   * is final.
   */
  ghost predicate IsRetry(c: Client, url: string, params: Entries, ext: Trace, v: Value)
  {
    && |ext| == 5
    && ext[2].Store?
    && IsRefresh(c, ext[..3], ext[2].ok)
    && ext[3].Fetch?
    && IsRestCall(ext[4], url, params, ext[3].token)
    && v == ext[4].reply
  }

  /** Lines 91-93 of request: refresh, re-read the token, call once more. */
  function Retry(c: Client, w: World, t: Trace, url: string, params: Entries): (r: Step<Value>)
    ensures Replays(w, t, r.events)
    ensures IsRetry(c, url, params, r.events, r.result)
  {
    var refreshed := RefreshToken(c, w, t);
    var again := GetTokenData(w, t + refreshed.events);
    var head := refreshed.events + again.events;
    var last := Curl(w, t + head, url, WithAuth(params, again.result));
    ReplaysAppend(w, t, refreshed.events, again.events);
    ReplaysAppend(w, t, head, last.events);
    RetryShape(c, url, params, refreshed.events, refreshed.result, again.result, last.result);
    Step(last.result, head + last.events)
  }

  lemma RetryShape(c: Client, url: string, params: Entries, refresh: Trace, ok: bool, token: Value, v: Value)
    requires IsRefresh(c, refresh, ok)
    ensures IsRetry(c, url, params, refresh + [Fetch(token)] + [Call(url, WithAuth(params, token), v)], v)
  {
    var ext := refresh + [Fetch(token)] + [Call(url, WithAuth(params, token), v)];
    assert ext[..3] == refresh;
  }

  /**
   * The exchanges once the token data is an array: one call to url with the
   * caller's params and the access token; a reply without an error is the
   * result v; after an error reply comes the retry, whose reply is v.
   */
  ghost predicate IsDispatch(c: Client, url: string, params: Entries, token: Value, ext: Trace, v: Value)
  {
    && |ext| > 0
    && IsRestCall(ext[0], url, params, token)
    && if !Isset(ext[0].reply, "error") then
         |ext| == 1 && v == ext[0].reply
       else
         IsRetry(c, url, params, ext[1..], v)
  }

  /** Lines 88-97 of request: the first call, and the retry if its reply carries an error. */
  function Dispatch(c: Client, w: World, t: Trace, url: string, params: Entries, token: Value): (r: Step<Value>)
    ensures Replays(w, t, r.events)
    ensures IsDispatch(c, url, params, token, r.events, r.result)
  {
    var first := Curl(w, t, url, WithAuth(params, token));
    if Isset(first.result, "error") then
      var retry := Retry(c, w, t + first.events, url, params);
      ReplaysAppend(w, t, first.events, retry.events);
      assert (first.events + retry.events)[1..] == retry.events;
      Step(retry.result, first.events + retry.events)
    else
      first
  }

  /**
   * The exchanges of one request, and its result v: a fetch of the token
   * data; if it is not an array, nothing else and false; otherwise the
   * dispatch with that token.
   */
  ghost predicate IsRequest(c: Client, apiMethod: string, params: Entries, ext: Trace, v: Value)
  {
    && |ext| > 0
    && ext[0].Fetch?
    && if !ext[0].token.Arr? then
         |ext| == 1 && v == Bool(false)
       else
         IsDispatch(c, RestUrl(c, apiMethod), params, ext[0].token, ext[1..], v)
  }

  function Request(c: Client, w: World, t: Trace, apiMethod: string, params: Entries): (r: Step<Value>)
    ensures Replays(w, t, r.events)
    ensures IsRequest(c, apiMethod, params, r.events, r.result)
  {
    var got := GetTokenData(w, t);
    if !got.result.Arr? then
      got.(result := Bool(false))
    else
      var sent := Dispatch(c, w, t + got.events, RestUrl(c, apiMethod), params, got.result);
      ReplaysAppend(w, t, got.events, sent.events);
      assert (got.events + sent.events)[1..] == sent.events;
      Step(sent.result, got.events + sent.events)
  }
}
