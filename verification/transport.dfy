/**
 * The client's view of the outside world. `curl` turns a transfer into a PHP
 * value (decoded JSON array, else the raw body); the token provider answers
 * `getTokenData` and `saveTokenData`. Both are oracles: the World gives each
 * answer as a function of everything that happened before, and the client
 * records every exchange in a trace of events.
 */
module Transport {
  import opened Wrappers
  import opened PhpArray

  /** What curl_exec hands back: the response body, or false when the transfer failed. */
  datatype Reply = Body(text: string) | Failed

  /**
   * The result rule of `curl`: the decoded value when the body decodes to an
   * array, otherwise the raw result. A failed transfer gives false, since
   * json_decode reads false as the empty text, which is not JSON.
   */
  function Classify(raw: Reply, decode: string -> Option<Entries>): (v: Value)
    ensures v.Arr? <==> raw.Body? && decode(raw.text).Some?
    ensures v.Arr? ==> v.entries == decode(raw.text).value
    ensures raw.Body? && decode(raw.text).None? ==> v == Str(raw.text)
    ensures raw.Failed? ==> v == Bool(false)
    ensures forall k :: Isset(v, k) ==> raw.Body? && decode(raw.text).Some?
  {
    match raw
    case Failed => Bool(false)
    case Body(text) => if decode(text).Some? then Arr(decode(text).value) else Str(text)
  }

  /** One exchange between the client and the outside world. */
  datatype Event =
    | Fetch(token: Value)                               // getTokenData() and its answer
    | Call(url: string, params: Entries, reply: Value)  // one curl() round trip
    | Store(data: Value, ok: bool)                      // saveTokenData(data) and its answer

  type Trace = seq<Event>

  /**
   * The token provider and the remote servers. Each answer may depend on the
   * whole history, so a retried request may be answered differently.
   */
  datatype World = World(
    tokenData: Trace -> Value,
    transfer: (Trace, string, Entries) -> Reply,
    decode: string -> Option<Entries>,
    saveTokenData: (Trace, Value) -> bool)

  /** The answer recorded in e is the one the world gives after history. */
  predicate Answered(w: World, history: Trace, e: Event)
  {
    match e
    case Fetch(v) => v == w.tokenData(history)
    case Call(url, params, reply) => reply == Classify(w.transfer(history, url, params), w.decode)
    case Store(data, ok) => ok == w.saveTokenData(history, data)
  }

  /** Every event of ext records the world's answer, given t and the events of ext before it. */
  ghost predicate Replays(w: World, t: Trace, ext: Trace)
  {
    forall i {:trigger Answered(w, t + ext[..i], ext[i])} | 0 <= i < |ext| :: Answered(w, t + ext[..i], ext[i])
  }

  lemma ReplaysAt(w: World, t: Trace, ext: Trace, i: nat)
    requires Replays(w, t, ext) && i < |ext|
    ensures Answered(w, t + ext[..i], ext[i])
  {
  }

  /** Consistent runs compose: a then b, b starting where a ended. */
  lemma ReplaysAppend(w: World, t: Trace, a: Trace, b: Trace)
    requires Replays(w, t, a) && Replays(w, t + a, b)
    ensures Replays(w, t, a + b)
  {
    forall i | 0 <= i < |a + b|
      ensures Answered(w, t + (a + b)[..i], (a + b)[i])
    {
      if i < |a| {
        assert (a + b)[..i] == a[..i] && (a + b)[i] == a[i];
        assert Answered(w, t + a[..i], a[i]);
      } else {
        var j := i - |a|;
        assert t + (a + b)[..i] == (t + a) + b[..j];
        assert (a + b)[i] == b[j];
        assert Answered(w, (t + a) + b[..j], b[j]);
      }
    }
  }

  /** A consistent run splits into consistent parts. */
  lemma ReplaysSplit(w: World, t: Trace, ext: Trace, n: nat)
    requires Replays(w, t, ext) && n <= |ext|
    ensures Replays(w, t, ext[..n]) && Replays(w, t + ext[..n], ext[n..])
  {
    forall i | 0 <= i < n
      ensures Answered(w, t + ext[..n][..i], ext[..n][i])
    {
      assert ext[..n][..i] == ext[..i] && ext[..n][i] == ext[i];
      assert Answered(w, t + ext[..i], ext[i]);
    }
    forall j | 0 <= j < |ext| - n
      ensures Answered(w, (t + ext[..n]) + ext[n..][..j], ext[n..][j])
    {
      assert (t + ext[..n]) + ext[n..][..j] == t + ext[..n + j];
      assert ext[n..][j] == ext[n + j];
      assert Answered(w, t + ext[..n + j], ext[n + j]);
    }
  }

  /** An operation's result and the events it added to the trace. */
  datatype Step<T> = Step(result: T, events: Trace)

  /** getTokenData(), recorded. */
  function GetTokenData(w: World, t: Trace): (r: Step<Value>)
    ensures r.events == [Fetch(r.result)]
    ensures Replays(w, t, r.events)
  {
    var v := w.tokenData(t);
    assert t + [Fetch(v)][..0] == t;
    assert Answered(w, t + [Fetch(v)][..0], [Fetch(v)][0]);
    Step(v, [Fetch(v)])
  }

  /** saveTokenData(data), recorded. */
  function SaveTokenData(w: World, t: Trace, data: Value): (r: Step<bool>)
    ensures r.events == [Store(data, r.result)]
    ensures Replays(w, t, r.events)
  {
    var ok := w.saveTokenData(t, data);
    assert t + [Store(data, ok)][..0] == t;
    assert Answered(w, t + [Store(data, ok)][..0], [Store(data, ok)][0]);
    Step(ok, [Store(data, ok)])
  }

  /** curl(url, params), recorded. */
  function Curl(w: World, t: Trace, url: string, params: Entries): (r: Step<Value>)
    ensures r.events == [Call(url, params, r.result)]
    ensures Replays(w, t, r.events)
  {
    var v := Classify(w.transfer(t, url, params), w.decode);
    assert t + [Call(url, params, v)][..0] == t;
    assert Answered(w, t + [Call(url, params, v)][..0], [Call(url, params, v)][0]);
    Step(v, [Call(url, params, v)])
  }

  /** A recorded fetch in a consistent run is what GetTokenData gives at that point. */
  lemma FetchReplayed(w: World, t: Trace, ext: Trace, i: nat)
    requires Replays(w, t, ext) && i < |ext| && ext[i].Fetch?
    ensures GetTokenData(w, t + ext[..i]) == Step(ext[i].token, [ext[i]])
  {
    assert Answered(w, t + ext[..i], ext[i]);
  }

  /** A recorded transport call in a consistent run is what Curl gives at that point. */
  lemma CallReplayed(w: World, t: Trace, ext: Trace, i: nat)
    requires Replays(w, t, ext) && i < |ext| && ext[i].Call?
    ensures Curl(w, t + ext[..i], ext[i].url, ext[i].params) == Step(ext[i].reply, [ext[i]])
  {
    assert Answered(w, t + ext[..i], ext[i]);
  }

  /** A recorded save in a consistent run is what SaveTokenData gives at that point. */
  lemma StoreReplayed(w: World, t: Trace, ext: Trace, i: nat)
    requires Replays(w, t, ext) && i < |ext| && ext[i].Store?
    ensures SaveTokenData(w, t + ext[..i], ext[i].data) == Step(ext[i].ok, [ext[i]])
  {
    assert Answered(w, t + ext[..i], ext[i]);
  }

  /** The URLs of the transport calls in tr, in order. */
  function CallUrls(tr: Trace): (urls: seq<string>)
    ensures |urls| <= |tr|
  {
    if |tr| == 0 then []
    else (if tr[0].Call? then [tr[0].url] else []) + CallUrls(tr[1..])
  }

  /** The number of saveTokenData calls in tr. */
  function StoreCount(tr: Trace): (n: nat)
    ensures n <= |tr|
  {
    if |tr| == 0 then 0
    else (if tr[0].Store? then 1 else 0) + StoreCount(tr[1..])
  }

  lemma {:induction false} CountsAppend(a: Trace, b: Trace)
    ensures CallUrls(a + b) == CallUrls(a) + CallUrls(b)
    ensures StoreCount(a + b) == StoreCount(a) + StoreCount(b)
    decreases |a|
  {
    if |a| == 0 {
      assert a + b == b;
    } else {
      assert (a + b)[0] == a[0] && (a + b)[1..] == a[1..] + b;
      CountsAppend(a[1..], b);
    }
  }
}
