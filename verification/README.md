# Bitrix24 OAuth2 REST client — a Dafny model

This project models the core of `Bitrix24`, a Yii component and OAuth2 REST client for the
Bitrix24 CRM. The core has four parts:

- **Base URL.** `setSubdomain` derives the portal URL `https://<subdomain>.bitrix24.ru`.
- **OAuth2 steps** (RFC 6749):
  - `auth` sends the authorization request (section 4.1.1).
  - `saveToken` sends the authorization-code exchange (section 4.1.3).
  - `refreshToken` sends the refresh-token grant (section 6).

  Each step builds a fixed parameter array. `saveToken` and `refreshToken` return the token
  provider's `saveTokenData` answer unchanged.
- **Response rule of `curl`.** It returns the decoded JSON when decoding gives an array, and
  the raw result otherwise.
- **`request` dispatcher.** It works as follows:
  - When the token data is not an array (null, false, a string, a number) it returns `false`.
  - Otherwise it calls `<url>/rest/<method>/` with the caller's params plus `auth`.
  - If the reply is an array whose `error` entry is present and not null (PHP's `isset`), it refreshes the token exactly once, re-reads the
    token and calls the same URL exactly once more.

Modules:

- `Wrappers`: `Option`.
- `PhpArray`: PHP values and ordered arrays with string keys. It covers:
  - lookup;
  - the left-biased union `+`, with `ToMap`, its map view;
  - the offset read `$v[$k]`, which gives null when the key is missing or `$v` is not an array;
  - `isset`.
- `UrlPattern`: `str_replace` for one search string, the URL pattern, and `BaseUrl` with its
  inverse `SubdomainOf`.
- `Transport`: the `curl` result rule (`Classify`), the trace of events, and the `World`.
  - There are three kinds of event: `Fetch` (getTokenData), `Call` (one curl round trip) and
    `Store` (saveTokenData).
  - The `World` holds the token provider and the remote servers. Each is a function of the
    history so far, so a retried call may get a different answer.
  - `Replays(w, t, ext)` says that every event of `ext`, appended to the history `t`, records
    what `w` answers at that point.
- `Bitrix24`: the component's properties (`Client`), `SetSubdomain`, `Init`, `Auth`,
  `SaveToken`, `RefreshToken`, `Retry` and `Request`.
  - Each operation takes the World and the history so far, and returns its result together
    with the events it adds.
  - `Dispatch` is the part of `request` after the token check: the first call and the retry.
  - Beside each operation is a predicate that describes its events without mentioning the
    World: `IsAuth`, `IsSaveToken`, `IsRefresh`, `IsRetry`, `IsDispatch` and `IsRequest`.
- `Properties`: two kinds of lemma.
  - Completeness lemmas (`…Determined`): a sequence of events that both follows the protocol
    predicate and agrees with the World is exactly what the operation adds.
  - Call-count corollaries for `request`.

Between them:

- the operations' own contracts (soundness);
- the `…Determined` lemmas (completeness).

These make each protocol predicate an exact description of its operation.

The code has no distinct outcome for the failure cases, and the model has none either:

- When the token data is not an array, `request` returns `false`.
- `refreshToken` with no stored token still sends the request, with a null `refresh_token`.
- A failed transfer surfaces as the reply `false`.
- The retry happens whatever `refreshToken` returned, and its reply is returned even if it
  carries an `error` again.

## Model

| member | source | states |
|---|---|---|
| `PhpArray.Get` | Bitrix24.php:89 | a key is found exactly when the array has it; the value comes from an entry of the array, and it is that key's entry when the keys are unique |
| `PhpArray.Union` | Bitrix24.php:89 | `a + b` keeps `a` as a prefix; its keys are the keys of both; on a shared key `a`'s value wins, otherwise `b`'s; unique keys stay unique |
| `PhpArray.UnionToMap` | Bitrix24.php:89 | as key/value maps, PHP's left-biased `a + b` equals Dafny's right-biased `ToMap(b) + ToMap(a)` |
| `PhpArray.ToMap` | Bitrix24.php:89 | the map view has exactly the array's keys, each mapped to the value that lookup finds |
| `PhpArray.Offset` | Bitrix24.php:142 | the offset read gives a non-null value only from an entry of an array; for a present key it is that key's value; otherwise it is null |
| `PhpArray.IssetMeaning` | Bitrix24.php:90 | `isset($v['error'])` holds exactly when `v` is an array holding that key with a non-null value, so a raw string or false never counts as an error |
| `UrlPattern.StrReplace` | Bitrix24.php:36 | replacing a string by itself, or searching for a string whose first character does not occur, leaves the subject unchanged |
| `UrlPattern.StrReplaceOnce` | Bitrix24.php:36 | in a subject holding one occurrence of the search string, between stretches free of its first character, `str_replace` replaces that occurrence and keeps the text around it |
| `UrlPattern.PatternSubstitution` | Bitrix24.php:9 | substituting `s` into `https://{subdomain}.bitrix24.ru` gives `https://` + s + `.bitrix24.ru`, even when `s` itself contains the placeholder |
| `UrlPattern.BaseUrl` | Bitrix24.php:36 | the derived URL is `https://` + subdomain + `.bitrix24.ru` |
| `UrlPattern.SubdomainRoundTrip` | Bitrix24.php:34-37 | the subdomain is recovered from its base URL; `SubdomainOf(u) == Some(s)` exactly when `u` is the base URL of `s` |
| `UrlPattern.BaseUrlInjective` | Bitrix24.php:34-37 | two subdomains with the same base URL are equal |
| `Transport.GetTokenData` | Bitrix24.php:84 | the provider's `getTokenData()` is recorded as one `Fetch` event holding exactly what the World's token provider answers after the history so far |
| `Transport.SaveTokenData` | Bitrix24.php:127 | the provider's `saveTokenData($data)` is recorded as one `Store` event holding the data passed and the World's answer, which is the result |
| `Transport.Curl` | Bitrix24.php:55-64 | one `curl()` is recorded as one `Call` event with the URL and the parameter array; its reply, the result, is the decode-or-raw classification of the World's transfer answer after the history so far |
| `Transport.Classify` | Bitrix24.php:61-63 | the result is an array exactly when the body decodes to one, and then it is the decoded array; an undecodable body is returned as its raw text; a failed transfer gives false; an `error` entry can only come from a decoded body |
| `Bitrix24.SetSubdomain` | Bitrix24.php:34-37 | sets the subdomain, sets the URL to `https://` + s + `.bitrix24.ru`, leaves the URL coherent with the subdomain, and changes no other property |
| `Bitrix24.DefaultsInit` | Bitrix24.php:12-28 | before configuration the URL, subdomain and client credentials are null and the OAuth URL is `https://oath.bitrix.info/oauth/token/`; init then changes nothing |
| `Bitrix24.Init` | Bitrix24.php:20-28 | after init the URL is coherent with any configured subdomain; with no subdomain the URL is untouched; no other property changes |
| `Bitrix24.WithAuth` | Bitrix24.php:89 | the outgoing params begin with the caller's params; they equal them when the caller supplied `auth`, and otherwise add only `auth` = the token's `access_token` |
| `Bitrix24.WithAuthLookup` | Bitrix24.php:89 | every caller key keeps its value (so a caller's `auth` wins); the keys are the caller's plus `auth`; `auth` is the access token when the caller gave none; unique keys stay unique |
| `Bitrix24.Auth` | Bitrix24.php:106-113 | exactly one call, to `<url>/oauth/authorize/` with only `client_id`, and its reply is the result |
| `Bitrix24.SaveToken` | Bitrix24.php:120-128 | one call to the OAuth URL with exactly `grant_type=authorization_code`, `client_id`, `client_secret` and `code`, then one save of that reply; the save's answer is the result |
| `Bitrix24.RefreshToken` | Bitrix24.php:136-145 | one token fetch, one call to the OAuth URL with exactly `grant_type=refresh_token`, `client_id`, `client_secret` and `refresh_token` from the fetched data (null if absent), then one save of that reply; the save's answer is the result |
| `Bitrix24.Retry` | Bitrix24.php:90-94 | a whole refresh, then a fresh token fetch, then one call to the same URL with the caller's params plus the new token; that call's reply is the result |
| `Bitrix24.Dispatch` | Bitrix24.php:88-97 | every event records the World's answer, and the events follow `IsDispatch`: one call with the caller's params plus the access token, whose reply is returned when it has no `error`, else a whole retry whose reply is returned |
| `Bitrix24.Request` | Bitrix24.php:83-98 | every event records the World's answer, and the events follow `IsRequest`: fetch then false when the token data is not an array; otherwise one call, whose reply is returned when it has no `error`, else the retry's reply |
| `Properties.AuthDetermined` | Bitrix24.php:106-113 | any World-consistent sequence of events following `IsAuth` is exactly what `Auth` produces |
| `Properties.SaveTokenDetermined` | Bitrix24.php:120-128 | any World-consistent sequence of events following `IsSaveToken` is exactly what `SaveToken` produces, result included |
| `Properties.RefreshDetermined` | Bitrix24.php:136-145 | any World-consistent sequence of events following `IsRefresh` is exactly what `RefreshToken` produces, result included |
| `Properties.RetryDetermined` | Bitrix24.php:90-94 | any World-consistent sequence of events following `IsRetry` is exactly what `Retry` produces |
| `Properties.DispatchDetermined` | Bitrix24.php:88-97 | any World-consistent sequence of events following `IsDispatch` is exactly what `Dispatch` produces |
| `Properties.RequestDetermined` | Bitrix24.php:83-98 | any World-consistent sequence of events following `IsRequest` is exactly what `Request` produces |
| `Properties.RefreshCalls` | Bitrix24.php:136-145 | a refresh makes one transport call, to the OAuth URL, and one save |
| `Properties.RetryCalls` | Bitrix24.php:90-94 | the retry calls the OAuth URL and then the REST URL, and saves once |
| `Properties.DispatchCalls` | Bitrix24.php:88-97 | after the token check the calls are `[url]` with no save and the error-free reply returned, or `[url, oauthUrl, url]` with one save, after an error reply, and the last reply returned |
| `Properties.RequestCalls` | Bitrix24.php:83-98 | a request's calls are none (and the result is false), or `[url]` (and the reply is returned, having no error), or `[url, oauthUrl, url]` (after an error reply, and the second reply is returned); there is exactly one save in the last case and none otherwise |
| `Properties.RequestAttempts` | Bitrix24.php:83-98 | with any World: no token data means false and no call; the first call carries the caller's params plus the access token to `<url>/rest/<method>/`; a reply without error is returned after that single call with no refresh; an error reply gives calls `[url, oauthUrl, url]`, one save, and the last reply as result |

## Left out

- `setTokenProvider` (lines 43-47) builds the provider from a class name by reflection. The
  model takes the provider as part of the World instead.
- `init`'s `token_provider` branch (lines 25-27) is left out for the same reason. The rest of
  the Yii `Component` lifecycle is framework glue and is left out too.
- cURL mechanics are network I/O: the handle, `CURLOPT_SSL_VERIFYPEER` and the headers. The
  World's `transfer` answer stands for `curl_exec`.
- The bodies of `json_decode` and `http_build_query` are library code.
  - JSON decoding is the World's `decode` oracle.
  - The query string is not built. A call records the URL and the parameter array it would
    encode. For example, a null `refresh_token` is recorded as null, although
    `http_build_query` would omit it.
- PHP integer keys and numeric-string key normalisation are left out. Keys are strings, which
  covers every key the client itself writes.
- Offset reads on a token that is a string are not modelled faithfully. PHP reads a
  character or raises an error; the model reads null, like a null or false token.
- Undefined-index warnings are not modelled. Such reads yield null.
- `setSubdomain(null)` is not modelled: the subdomain argument is a string.
- There is no concurrency. Calls are synchronous and single-threaded.
- The value model has no float variant. The `decode` oracle therefore cannot return a reply
  that contains a JSON number with a fraction. No property depends on this, because the client
  only passes decoded replies along.
- The value model has no object variant, so the token provider cannot return an object. For
  an object token, `request` returns `false` at line 85 as the model does for any non-array.
  But `refreshToken` and the retry read `$token_data['refresh_token']` (line 142) and
  `$token_data['access_token']` (line 93). On a plain object these raise an Error, and on an
  ArrayAccess object they call its `offsetGet`. The model represents neither. The contracts of
  `RefreshToken`, `Retry` and the retry case of `RequestCalls` (fetch, call and save always
  happen) hold only for token data that is not an object.
- `request`'s default argument `$params = []` (line 83) has no separate form: a call without
  params is `Request(c, w, t, m, [])`.
