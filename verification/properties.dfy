/**
 * What the client's operations guarantee. For each operation, its protocol
 * predicate (in Bitrix24) together with consistency with the World singles out
 * exactly the run the operation performs; and the request protocol bounds the
 * calls a request can make.
 */
module Properties {
  import opened Wrappers
  import opened PhpArray
  import opened Transport
  import opened Bitrix24

  /** auth() is the only consistent run that sends the authorize step and nothing else. */
  lemma AuthDetermined(c: Client, w: World, t: Trace, ext: Trace, v: Value)
    requires Replays(w, t, ext)
    requires IsAuth(c, ext, v)
    ensures Auth(c, w, t) == Step(v, ext)
  {
    CallReplayed(w, t, ext, 0);
    assert t + ext[..0] == t;
  }

  /** saveToken(code) is the only consistent run that sends the code exchange and saves its reply. */
  lemma SaveTokenDetermined(c: Client, w: World, t: Trace, ext: Trace, code: Value, ok: bool)
    requires Replays(w, t, ext)
    requires IsSaveToken(c, code, ext, ok)
    ensures SaveToken(c, w, t, code) == Step(ok, ext)
  {
    assert t + ext[..0] == t && ext[..1] == [ext[0]];
    CallReplayed(w, t, ext, 0);
    StoreReplayed(w, t, ext, 1);
    assert ext == [ext[0]] + [ext[1]];
  }

  /** refreshToken() is the only consistent run that fetches, sends the refresh grant and saves its reply. */
  lemma RefreshDetermined(c: Client, w: World, t: Trace, ext: Trace, ok: bool)
    requires Replays(w, t, ext)
    requires IsRefresh(c, ext, ok)
    ensures RefreshToken(c, w, t) == Step(ok, ext)
  {
    assert t + ext[..0] == t && ext[..1] == [ext[0]] && ext[..2] == [ext[0]] + [ext[1]];
    FetchReplayed(w, t, ext, 0);
    CallReplayed(w, t, ext, 1);
    StoreReplayed(w, t, ext, 2);
    assert ext == [ext[0]] + [ext[1]] + [ext[2]];
  }

  /** The retry, given what its refresh and its second fetch come to. */
  lemma RetryUnfold(c: Client, w: World, t: Trace, url: string, params: Entries, refresh: Trace, token: Value)
    requires RefreshToken(c, w, t).events == refresh
    requires w.tokenData(t + refresh) == token
    ensures Retry(c, w, t, url, params)
         == var sent := WithAuth(params, token);
            var v := Classify(w.transfer(t + refresh + [Fetch(token)], url, sent), w.decode);
            Step(v, refresh + [Fetch(token), Call(url, sent, v)])
  {
    var sent := WithAuth(params, token);
    var v := Classify(w.transfer(t + refresh + [Fetch(token)], url, sent), w.decode);
    assert t + (refresh + [Fetch(token)]) == t + refresh + [Fetch(token)];
    assert refresh + [Fetch(token)] + [Call(url, sent, v)] == refresh + [Fetch(token), Call(url, sent, v)];
  }

  /** The retry is the only consistent run that refreshes, re-reads the token and calls url again. */
  lemma RetryDetermined(c: Client, w: World, t: Trace, ext: Trace, url: string, params: Entries, v: Value)
    requires Replays(w, t, ext)
    requires IsRetry(c, url, params, ext, v)
    ensures Retry(c, w, t, url, params) == Step(v, ext)
  {
    var refresh := ext[..3];
    ReplaysSplit(w, t, ext, 3);
    RefreshDetermined(c, w, t, refresh, ext[2].ok);
    ReplaysAt(w, t, ext, 3);
    ReplaysAt(w, t, ext, 4);
    RetryParts(ext);
    RetryUnfold(c, w, t, url, params, refresh, ext[3].token);
  }

  /** A retry's five events: the refresh, the fetch and the call. */
  lemma RetryParts(ext: Trace)
    requires |ext| == 5
    ensures ext[..4] == ext[..3] + [ext[3]]
    ensures ext == ext[..3] + [ext[3], ext[4]]
  {
  }

  /** A run splits into its first event and the rest. */
  lemma FirstAndRest(t: Trace, ext: Trace)
    requires |ext| > 0
    ensures t + ext[..0] == t
    ensures ext[..1] == [ext[0]]
    ensures ext == [ext[0]] + ext[1..]
    ensures |ext| == 1 ==> ext == [ext[0]]
  {
  }

  /** The dispatch, given its first call. */
  lemma DispatchUnfold(c: Client, w: World, t: Trace, url: string, params: Entries, token: Value, first: Event)
    requires first.Call? && first.url == url && first.params == WithAuth(params, token)
    requires first.reply == Classify(w.transfer(t, url, first.params), w.decode)
    ensures Dispatch(c, w, t, url, params, token)
         == if Isset(first.reply, "error") then
              var retry := Retry(c, w, t + [first], url, params);
              Step(retry.result, [first] + retry.events)
            else Step(first.reply, [first])
  {
  }

  /** The dispatch is the only consistent run that makes the first call and, after an error, the retry. */
  lemma DispatchDetermined(c: Client, w: World, t: Trace, ext: Trace, url: string, params: Entries, token: Value, v: Value)
    requires Replays(w, t, ext)
    requires IsDispatch(c, url, params, token, ext, v)
    ensures Dispatch(c, w, t, url, params, token) == Step(v, ext)
  {
    FirstAndRest(t, ext);
    ReplaysAt(w, t, ext, 0);
    DispatchUnfold(c, w, t, url, params, token, ext[0]);
    if Isset(ext[0].reply, "error") {
      ReplaysSplit(w, t, ext, 1);
      RetryDetermined(c, w, t + [ext[0]], ext[1..], url, params, v);
    }
  }

  /** The request, given token data that is an array. */
  lemma RequestUnfold(c: Client, w: World, t: Trace, apiMethod: string, params: Entries, token: Value)
    requires token.Arr? && w.tokenData(t) == token
    ensures Request(c, w, t, apiMethod, params)
         == var sent := Dispatch(c, w, t + [Fetch(token)], RestUrl(c, apiMethod), params, token);
            Step(sent.result, [Fetch(token)] + sent.events)
  {
  }

  /**
   * request(method, params) is the only consistent run that follows the
   * request protocol; so the protocol is a complete account of it.
   */
  lemma RequestDetermined(c: Client, w: World, t: Trace, ext: Trace, apiMethod: string, params: Entries, v: Value)
    requires Replays(w, t, ext)
    requires IsRequest(c, apiMethod, params, ext, v)
    ensures Request(c, w, t, apiMethod, params) == Step(v, ext)
  {
    FirstAndRest(t, ext);
    FetchReplayed(w, t, ext, 0);
    if ext[0].token.Arr? {
      ReplaysSplit(w, t, ext, 1);
      DispatchDetermined(c, w, t + [ext[0]], ext[1..], RestUrl(c, apiMethod), params, ext[0].token, v);
      RequestUnfold(c, w, t, apiMethod, params, ext[0].token);
    }
  }

  /** A refresh makes one call, to the token endpoint, and saves once. */
  lemma RefreshCalls(c: Client, ext: Trace, ok: bool)
    requires IsRefresh(c, ext, ok)
    ensures CallUrls(ext) == [c.oauthUrl]
    ensures StoreCount(ext) == 1
  {
    assert ext[1..][0] == ext[1] && ext[2..][0] == ext[2];
    assert ext[1..][1..] == ext[2..] && ext[2..][1..] == [];
    assert CallUrls(ext[2..]) == [] && StoreCount(ext[2..]) == 1;
    assert CallUrls(ext[1..]) == [c.oauthUrl] && StoreCount(ext[1..]) == 1;
  }

  /** The retry is a refresh followed by one more call to the REST URL. */
  lemma RetryCalls(c: Client, url: string, params: Entries, ext: Trace, v: Value)
    requires IsRetry(c, url, params, ext, v)
    ensures CallUrls(ext) == [c.oauthUrl, url]
    ensures StoreCount(ext) == 1
  {
    var refresh, rest := ext[..3], ext[3..];
    assert ext == refresh + rest;
    RefreshCalls(c, refresh, ext[2].ok);
    CountsAppend(refresh, rest);
    assert rest[0] == ext[3] && rest[1..][0] == ext[4] && rest[1..][1..] == [];
  }

  /**
   * The dispatch calls the REST URL once, or, after an error reply, the REST
   * URL, the token endpoint (the refresh) and the same REST URL again; it
   * saves token data only in the second case.
   */
  lemma DispatchCalls(c: Client, url: string, params: Entries, token: Value, ext: Trace, v: Value)
    requires IsDispatch(c, url, params, token, ext, v)
    ensures || (CallUrls(ext) == [url] && StoreCount(ext) == 0 && v == ext[0].reply && !Isset(v, "error"))
            || (CallUrls(ext) == [url, c.oauthUrl, url] && StoreCount(ext) == 1
                && Isset(ext[0].reply, "error") && ext[5].Call? && v == ext[5].reply)
  {
    var rest := ext[1..];
    if !Isset(ext[0].reply, "error") {
      assert rest == [];
    } else {
      RetryCalls(c, url, params, rest, v);
      assert ext[5] == rest[4];
    }
  }

  /**
   * A request calls nothing without token data, and otherwise calls the REST
   * URL once, or, after an error reply, the REST URL, the token endpoint (the
   * refresh) and the same REST URL again: never more than two REST calls, and
   * at most one save of token data.
   */
  lemma RequestCalls(c: Client, apiMethod: string, params: Entries, ext: Trace, v: Value)
    requires IsRequest(c, apiMethod, params, ext, v)
    ensures var url := RestUrl(c, apiMethod);
      || (CallUrls(ext) == [] && !ext[0].token.Arr? && v == Bool(false))
      || (CallUrls(ext) == [url] && v == ext[1].reply && !Isset(v, "error"))
      || (CallUrls(ext) == [url, c.oauthUrl, url] && Isset(ext[1].reply, "error") && v == ext[6].reply)
    ensures StoreCount(ext) == if |CallUrls(ext)| == 3 then 1 else 0
  {
    var rest := ext[1..];
    assert CallUrls(ext) == CallUrls(rest) && StoreCount(ext) == StoreCount(rest);
    if ext[0].token.Arr? {
      DispatchCalls(c, RestUrl(c, apiMethod), params, ext[0].token, rest, v);
      assert rest[0] == ext[1];
      assert |CallUrls(rest)| == 3 ==> rest[5] == ext[6];
    } else {
      assert rest == [];
    }
  }

  /**
   * request() against any World: without token data it returns false having
   * called nothing; with it, the first call goes to the REST URL with the
   * caller's params plus the access token, a reply without an error is
   * returned unchanged after that single call, and an error reply leads to
   * exactly one refresh and one more call to the same URL, whose reply is
   * returned whatever the refresh reported.
   */
  lemma RequestAttempts(c: Client, w: World, t: Trace, apiMethod: string, params: Entries)
    ensures var r := Request(c, w, t, apiMethod, params);
      var ext := r.events;
      var token := w.tokenData(t);
      var url := RestUrl(c, apiMethod);
      var sent := WithAuth(params, token);
      var first := Classify(w.transfer(t + [Fetch(token)], url, sent), w.decode);
      && |CallUrls(ext)| <= 3
      && (!token.Arr? ==> r.result == Bool(false) && CallUrls(ext) == [])
      && (token.Arr? ==> ext[1] == Call(url, sent, first))
      && (token.Arr? && !Isset(first, "error") ==> r.result == first && CallUrls(ext) == [url] && StoreCount(ext) == 0)
      && (token.Arr? && Isset(first, "error") ==>
            CallUrls(ext) == [url, c.oauthUrl, url] && StoreCount(ext) == 1 && ext[6].Call? && r.result == ext[6].reply)
  {
    var r := Request(c, w, t, apiMethod, params);
    var ext := r.events;
    assert t + ext[..0] == t;
    ReplaysAt(w, t, ext, 0);
    RequestCalls(c, apiMethod, params, ext, r.result);
    if ext[0].token.Arr? {
      assert ext[..1] == [ext[0]];
      ReplaysAt(w, t, ext, 1);
    }
  }
}
