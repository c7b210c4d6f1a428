/**
 * The portal base URL: `setSubdomain` substitutes the subdomain for the
 * `{subdomain}` placeholder of a fixed pattern with PHP's `str_replace`.
 */
module UrlPattern {
  import opened Wrappers

  const Placeholder: string := "{subdomain}"
  const Pattern: string := "https://{subdomain}.bitrix24.ru"
  const Scheme: string := "https://"
  const Domain: string := ".bitrix24.ru"

  /**
   * PHP's `str_replace` for one search string: occurrences are found left to
   * right without overlap, the inserted text is not searched again, and an
   * empty search string leaves the subject alone.
   */
  function StrReplace(search: string, replace: string, subject: string): (r: string)
    ensures replace == search ==> r == subject
    ensures |search| > 0 && search[0] !in subject ==> r == subject
    decreases |subject|
  {
    if |search| == 0 || |subject| == 0 then subject
    else if search <= subject then
      assert subject == search + subject[|search|..];
      replace + StrReplace(search, replace, subject[|search|..])
    else
      assert subject == [subject[0]] + subject[1..];
      [subject[0]] + StrReplace(search, replace, subject[1..])
  }

  /** Text free of the search string's first character is copied unchanged. */
  lemma {:induction false} StrReplaceSkip(search: string, replace: string, x: string, rest: string)
    requires |search| > 0 && search[0] !in x
    ensures StrReplace(search, replace, x + rest) == x + StrReplace(search, replace, rest)
    decreases |x|
  {
    if |x| > 0 {
      var s := x + rest;
      assert s[0] == x[0] && s[1..] == x[1..] + rest;
      assert s[0] != search[0];
      assert StrReplace(search, replace, s) == [s[0]] + StrReplace(search, replace, s[1..]);
      StrReplaceSkip(search, replace, x[1..], rest);
      assert x == [x[0]] + x[1..];
    } else {
      assert x + rest == rest;
    }
  }

  /** An occurrence at the front is replaced and the search resumes after it. */
  lemma StrReplaceHit(search: string, replace: string, rest: string)
    requires |search| > 0
    ensures StrReplace(search, replace, search + rest) == replace + StrReplace(search, replace, rest)
  {
    assert (search + rest)[|search|..] == rest;
  }

  /** The pattern starts with the scheme. */
  lemma PatternHead()
    ensures Pattern[..|Scheme|] == Scheme
  {
    assert |Scheme| == 8;
  }

  /** After the scheme come the placeholder and the domain. */
  lemma PatternTail()
    ensures Pattern[|Scheme|..] == Placeholder + Domain
  {
    var tail := Pattern[8..];
    assert tail[..|Placeholder|] == Placeholder;
    assert tail[|Placeholder|..] == Domain;
  }

  /** The pattern is the scheme, the placeholder and the domain, in that order. */
  lemma PatternParts()
    ensures Pattern == Scheme + (Placeholder + Domain)
    ensures Placeholder[0] !in Scheme && Placeholder[0] !in Domain
  {
    PatternHead();
    PatternTail();
    assert Pattern == Pattern[..|Scheme|] + Pattern[|Scheme|..];
    assert Placeholder[0] == '{';
  }

  /** One occurrence between two stretches free of its first character is the only replacement. */
  lemma StrReplaceOnce(search: string, replace: string, pre: string, post: string)
    requires |search| > 0 && search[0] !in pre && search[0] !in post
    ensures StrReplace(search, replace, pre + (search + post)) == pre + replace + post
  {
    StrReplaceSkip(search, replace, pre, search + post);
    StrReplaceHit(search, replace, post);
    assert pre + (replace + post) == pre + replace + post;
  }

  /** Substituting into the pattern touches the placeholder and nothing else. */
  lemma PatternSubstitution(subdomain: string)
    ensures StrReplace(Placeholder, subdomain, Pattern) == Scheme + subdomain + Domain
  {
    PatternParts();
    StrReplaceOnce(Placeholder, subdomain, Scheme, Domain);
  }

  /** The base URL of a portal, as `setSubdomain` derives it. */
  function BaseUrl(subdomain: string): (url: string)
    ensures url == Scheme + subdomain + Domain
  {
    PatternSubstitution(subdomain);
    StrReplace(Placeholder, subdomain, Pattern)
  }

  /** Reads the subdomain back out of a base URL; None for any other text. */
  function SubdomainOf(url: string): (s: Option<string>)
    ensures s.Some? ==> url == Scheme + s.value + Domain
  {
    if |url| >= |Scheme| + |Domain| && url[..|Scheme|] == Scheme && url[|url| - |Domain|..] == Domain then
      var s := url[|Scheme|..|url| - |Domain|];
      assert url == url[..|Scheme|] + s + url[|url| - |Domain|..];
      Some(s)
    else None
  }

  /** The base URL and the subdomain determine each other. */
  lemma SubdomainRoundTrip(subdomain: string, url: string)
    ensures SubdomainOf(BaseUrl(subdomain)) == Some(subdomain)
    ensures SubdomainOf(url) == Some(subdomain) <==> url == BaseUrl(subdomain)
  {
    var u := BaseUrl(subdomain);
    assert u[..|Scheme|] == Scheme;
    assert u[|u| - |Domain|..] == Domain;
    assert u[|Scheme|..|u| - |Domain|] == subdomain;
  }

  /** Distinct subdomains never share a base URL. */
  lemma BaseUrlInjective(s1: string, s2: string)
    requires BaseUrl(s1) == BaseUrl(s2)
    ensures s1 == s2
  {
    SubdomainRoundTrip(s1, BaseUrl(s1));
    SubdomainRoundTrip(s2, BaseUrl(s2));
  }
}
