/**
 * The embed-URL trust gate and the embed-mode classifiers of src/util.ts.
 * The WHATWG URL parser behind `new URL(...)` and `decodeURIComponent` are
 * not modelled: each is passed in as a function.
 */
module EmbedUrl {
  import opened Wrappers
  import opened JsStrings
  import opened HostPatterns

  /** The only scheme an embed URL may use (`expectedEmbedUrlProtocol`). */
  const ExpectedEmbedUrlProtocol := "https:"

  /**
   * What `new URL(s)` produces: it throws on a malformed URL, otherwise it
   * exposes the scheme (with its trailing colon) and the hostname.
   */
  datatype UrlParse = ParseError | Parsed(protocol: string, hostname: string)

  /** JavaScript truthiness of a possibly missing string: `undefined`, `null` and `""` are falsy. */
  predicate IsTruthy(s: Option<string>)
  {
    s.Some? && s.value != ""
  }

  /**
   * `validateEmbedUrl(embedUrl)`: `None` is the `undefined` returned for a
   * falsy argument. Otherwise the lower-cased URL is parsed; a parse error
   * is a plain refusal, and a parsed URL is trusted exactly when it uses
   * https and its hostname passes one of the two allow-list patterns.
   */
  function ValidateEmbedUrl(embedUrl: Option<string>, parse: string -> UrlParse): (r: Option<bool>)
    ensures r == None <==> !IsTruthy(embedUrl)
    ensures IsTruthy(embedUrl) && parse(ToLower(embedUrl.value)).ParseError? ==> r == Some(false)
    ensures r == Some(true) <==>
      && IsTruthy(embedUrl)
      && parse(ToLower(embedUrl.value)).Parsed?
      && parse(ToLower(embedUrl.value)).protocol == "https:"
      && (CommercialRegexTest(parse(ToLower(embedUrl.value)).hostname)
          || parse(ToLower(embedUrl.value)).hostname in SovereignHosts)
  {
    if !IsTruthy(embedUrl) then None
    else
      match parse(ToLower(embedUrl.value))
      case ParseError => Some(false)
      case Parsed(protocol, hostname) =>
        Some(protocol == ExpectedEmbedUrlProtocol && (IsCommercialHost(hostname) || IsSovereignHost(hostname)))
  }

  /** A URL whose scheme is not https is never trusted, whatever its hostname. */
  lemma NonHttpsNeverTrusted(embedUrl: Option<string>, parse: string -> UrlParse)
    requires IsTruthy(embedUrl)
    requires parse(ToLower(embedUrl.value)).Parsed?
    requires parse(ToLower(embedUrl.value)).protocol != "https:"
    ensures ValidateEmbedUrl(embedUrl, parse) == Some(false)
  {
  }

  /** `isRDLEmbed(embedUrl)`: the lower-cased URL contains `/rdlembed?`; falsy input is not an RDL embed. */
  function IsRdlEmbed(embedUrl: Option<string>): (r: bool)
    ensures r <==> embedUrl.Some? && Contains(ToLower(embedUrl.value), "/rdlembed?")
  {
    if IsTruthy(embedUrl) then
      IndexOfFindsOccurrence(ToLower(embedUrl.value), "/rdlembed?");
      IndexOf(ToLower(embedUrl.value), "/rdlembed?") >= 0
    else
      false
  }

  /**
   * `autoAuthInEmbedUrl(embedUrl)`: percent-decode, lower-case, look for
   * `autoauth=true`. `decode` stands for `decodeURIComponent`, whose
   * `URIError` on a malformed escape propagates to the caller.
   */
  function AutoAuthInEmbedUrl<E>(embedUrl: Option<string>, decode: string -> Result<string, E>): (r: Result<bool, E>)
    ensures !IsTruthy(embedUrl) ==> r == Success(false)
    ensures IsTruthy(embedUrl) && decode(embedUrl.value).Failure? ==> r == Failure(decode(embedUrl.value).error)
    ensures IsTruthy(embedUrl) && decode(embedUrl.value).Success? ==> r.Success?
    ensures r == Success(true) <==>
      && IsTruthy(embedUrl)
      && decode(embedUrl.value).Success?
      && Contains(ToLower(decode(embedUrl.value).value), "autoauth=true")
  {
    if !IsTruthy(embedUrl) then Success(false)
    else
      match decode(embedUrl.value)
      case Failure(e) => Failure(e)
      case Success(decoded) =>
        IndexOfFindsOccurrence(ToLower(decoded), "autoauth=true");
        Success(IndexOf(ToLower(decoded), "autoauth=true") >= 0)
  }

  /** `isCreate(embedType)`: a strict comparison against two literals. */
  function IsCreate(embedType: string): (r: bool)
    ensures r ==> IsLowerCase(embedType)
  {
    embedType == "create" || embedType == "quickcreate"
  }

  /**
   * `isCreate` is case-sensitive: of all the strings that lower-case to the
   * same thing, only the lower-case one itself is accepted.
   */
  lemma IsCreateRejectsCaseVariants(s: string, t: string)
    requires ToLower(s) == ToLower(t) && s != t
    ensures !(IsCreate(s) && IsCreate(t))
    ensures IsCreate(s) ==> s == ToLower(s)
    ensures IsCreate("create") && IsCreate("quickcreate")
  {
  }

  /**
   * `addParamToUrl(url, paramName, value)`: appends `paramName=value`,
   * joined with `&` when the first `?` of `url` is past index 0 and with
   * `?` otherwise (also when `url` starts with `?`).
   */
  function AddParamToUrl(url: string, paramName: string, value: string): (r: string)
    ensures |r| == |url| + 1 + |paramName| + 1 + |value|
    ensures r[..|url|] == url
    ensures r[|url|] == (if '?' in url && url[0] != '?' then '&' else '?')
    ensures r[|url| + 1..] == paramName + "=" + value
  {
    var i := IndexOf(url, "?");
    assert i > 0 <==> '?' in url && url[0] != '?' by {
      if '?' in url {
        var k :| 0 <= k < |url| && url[k] == '?';
        assert OccursAt(url, "?", k);
      }
      if i >= 0 {
        assert url[i] == url[i..i + 1][0];
      }
      if |url| > 0 && url[0] == '?' {
        assert OccursAt(url, "?", 0);
      }
    }
    var parameterPrefix := if i > 0 then "&" else "?";
    url + parameterPrefix + paramName + "=" + value
  }
}
