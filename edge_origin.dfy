/**
 * `deploy/index.js`: the Worker in front of the static statistics files. It
 * decides whether the request's `Origin` may read them and answers CORS
 * preflight requests itself (the CORS protocol of the WHATWG Fetch Standard,
 * section 3.2). The asset server's response is a parameter.
 */
module EdgeOrigin {
  import opened Common

  /** An entry of `allowedOrigins`: an exact origin, or the localhost regular expression. */
  datatype Pattern = Exact(origin: string) | LocalhostPort

  const HttpLocalhost: string := "http://localhost:"
  const HttpsLocalhost: string := "https://localhost:"

  /** `allowedOrigins`, in order. */
  const AllowedOrigins: seq<Pattern> :=
    [LocalhostPort, Exact("https://scverse.org"), Exact("https://scverse-stats.complextissue.com")]

  /**
   * `/^https?:\/\/localhost:\d+$/.test(s)`: the scheme, then `localhost:`, then
   * one or more ASCII digits up to the end of the string.
   */
  predicate MatchesLocalhost(s: string) {
    var rest :=
      if StartsWith(s, HttpsLocalhost) then Some(s[|HttpsLocalhost|..])
      else if StartsWith(s, HttpLocalhost) then Some(s[|HttpLocalhost|..])
      else None;
    rest.Some? && rest.value != [] && AllDigits(rest.value)
  }

  predicate Matches(p: Pattern, s: string) {
    match p
    case Exact(o) => s == o
    case LocalhostPort => MatchesLocalhost(s)
  }

  /** An origin of a local development server: `http` or `https`, `localhost` and a port written in digits. */
  function LocalhostOrigin(secure: bool, port: string): string {
    (if secure then HttpsLocalhost else HttpLocalhost) + port
  }

  /** The localhost pattern accepts exactly the local development origins. */
  lemma MatchesLocalhostIff(s: string)
    ensures MatchesLocalhost(s) <==>
      exists secure: bool, port: string {:trigger LocalhostOrigin(secure, port)} ::
        port != [] && AllDigits(port) && s == LocalhostOrigin(secure, port)
  {
    if MatchesLocalhost(s) {
      if StartsWith(s, HttpsLocalhost) {
        assert s == LocalhostOrigin(true, s[|HttpsLocalhost|..]);
      } else {
        assert s == LocalhostOrigin(false, s[|HttpLocalhost|..]);
      }
    }
    forall secure: bool, port: string | port != [] && AllDigits(port) && s == LocalhostOrigin(secure, port)
      ensures MatchesLocalhost(s)
    {
      if secure {
        assert s[|HttpsLocalhost|..] == port;
      } else {
        assert s[..|HttpsLocalhost|][4] == ':';
        assert !StartsWith(s, HttpsLocalhost);
        assert s[|HttpLocalhost|..] == port;
      }
    }
  }

  /** Every port number, written in decimal, gives an origin the localhost pattern accepts. */
  lemma LocalhostPortsMatch(secure: bool, port: nat)
    ensures MatchesLocalhost(LocalhostOrigin(secure, Decimal(port)))
  {
    MatchesLocalhostIff(LocalhostOrigin(secure, Decimal(port)));
  }

  /** The first index whose pattern matches, or the number of patterns. */
  function FirstMatch(patterns: seq<Pattern>, s: string): (k: nat)
    ensures k <= |patterns|
    ensures forall i :: 0 <= i < k ==> !Matches(patterns[i], s)
    ensures k < |patterns| ==> Matches(patterns[k], s)
  {
    if patterns == [] || Matches(patterns[0], s) then 0 else 1 + FirstMatch(patterns[1..], s)
  }

  /** `actualOriginForHeader`: the request's own origin when a pattern matches it, `null` otherwise. */
  function AllowedOriginOf(originHeader: Option<string>): Option<string> {
    if Truthy(originHeader) && FirstMatch(AllowedOrigins, originHeader.value) < |AllowedOrigins|
    then originHeader else None
  }

  /** The two exact origins and the local development origins are allowed, and nothing else. */
  lemma AllowedOrigin(originHeader: Option<string>)
    ensures AllowedOriginOf(originHeader).Some? <==>
      originHeader.Some? &&
      (originHeader.value == "https://scverse.org" ||
       originHeader.value == "https://scverse-stats.complextissue.com" ||
       MatchesLocalhost(originHeader.value))
    ensures AllowedOriginOf(originHeader).Some? ==> AllowedOriginOf(originHeader) == originHeader
  {
    if originHeader.Some? {
      var s := originHeader.value;
      var k := FirstMatch(AllowedOrigins, s);
      if s == "https://scverse.org" || s == "https://scverse-stats.complextissue.com" || MatchesLocalhost(s) {
        assert Matches(AllowedOrigins[0], s) || Matches(AllowedOrigins[1], s) || Matches(AllowedOrigins[2], s);
        assert k < |AllowedOrigins|;
      }
    }
  }

  /** The matching loop over `allowedOrigins`, with its `break` on the first match. */
  method MatchOrigin(originHeader: Option<string>) returns (isOriginAllowed: bool, actualOriginForHeader: Option<string>)
    ensures actualOriginForHeader == AllowedOriginOf(originHeader)
    ensures isOriginAllowed <==> actualOriginForHeader.Some?
  {
    isOriginAllowed := false;
    actualOriginForHeader := None;
    if originHeader.Some? && originHeader.value != "" {
      var i := 0;
      while i < |AllowedOrigins|
        invariant 0 <= i <= |AllowedOrigins|
        invariant forall j :: 0 <= j < i ==> !Matches(AllowedOrigins[j], originHeader.value)
        invariant !isOriginAllowed && actualOriginForHeader.None?
      {
        var pattern := AllowedOrigins[i];
        if pattern.Exact? && originHeader.value == pattern.origin {
          isOriginAllowed := true;
          actualOriginForHeader := originHeader;
          break;
        } else if pattern.LocalhostPort? && MatchesLocalhost(originHeader.value) {
          isOriginAllowed := true;
          actualOriginForHeader := originHeader;
          break;
        }
        i := i + 1;
      }
      assert isOriginAllowed <==> FirstMatch(AllowedOrigins, originHeader.value) < |AllowedOrigins|;
    }
  }

  // ------------------------------------------------------------ responses

  const AllowOrigin: string := "Access-Control-Allow-Origin"
  const AllowMethods: string := "Access-Control-Allow-Methods"
  const AllowHeaders: string := "Access-Control-Allow-Headers"

  /** `corsPolicyHeaders`, in the order `Object.entries` gives them. */
  const CorsPolicyHeaders: seq<(string, string)> :=
    [(AllowMethods, "GET, OPTIONS"), (AllowHeaders, "Content-Type, Authorization, X-Requested-With")]

  /** A response: status, status text, body (`None` for `null`) and headers by name. */
  datatype Response = Response(status: int, statusText: string, body: Option<string>, headers: map<string, string>)

  /** `headers.set(key, value)` for each entry not naming `Access-Control-Allow-Origin`, in order. */
  function SetAll(headers: map<string, string>, entries: seq<(string, string)>): map<string, string> {
    if entries == [] then headers
    else
      var last := entries[|entries| - 1];
      var before := SetAll(headers, entries[..|entries| - 1]);
      if last.0 != AllowOrigin then before[last.0 := last.1] else before
  }

  /** The headers of an allowed ordinary request: the asset's headers with the CORS fields set. */
  function WithCors(headers: map<string, string>, origin: string): map<string, string> {
    SetAll(headers[AllowOrigin := origin], CorsPolicyHeaders)
  }

  /** Adding the CORS fields sets the three of them and leaves every other header as it was. */
  lemma WithCorsFields(headers: map<string, string>, origin: string)
    ensures var h := WithCors(headers, origin);
      && h.Keys == headers.Keys + {AllowOrigin, AllowMethods, AllowHeaders}
      && h[AllowOrigin] == origin
      && h[AllowMethods] == "GET, OPTIONS"
      && h[AllowHeaders] == "Content-Type, Authorization, X-Requested-With"
      && forall k :: k in headers && k != AllowOrigin && k != AllowMethods && k != AllowHeaders ==> h[k] == headers[k]
  {
    var e := CorsPolicyHeaders;
    var start := headers[AllowOrigin := origin];
    assert AllowMethods[21] != AllowOrigin[21] && AllowHeaders[21] != AllowOrigin[21] && AllowMethods[21] != AllowHeaders[21];
    assert e[..1][..0] == [];
    assert SetAll(start, e[..1]) == start[AllowMethods := "GET, OPTIONS"];
    assert e[..|e| - 1] == e[..1];
    assert WithCors(headers, origin) == start[AllowMethods := "GET, OPTIONS"][AllowHeaders := e[1].1];
  }

  /** The header copy of an allowed ordinary request. */
  method AddCorsHeaders(headers: map<string, string>, origin: string) returns (newHeaders: map<string, string>)
    ensures newHeaders == WithCors(headers, origin)
  {
    newHeaders := headers[AllowOrigin := origin];
    ghost var start := newHeaders;
    for i := 0 to |CorsPolicyHeaders|
      invariant newHeaders == SetAll(start, CorsPolicyHeaders[..i])
    {
      var (key, value) := CorsPolicyHeaders[i];
      assert CorsPolicyHeaders[..i + 1][..i] == CorsPolicyHeaders[..i];
      if key != AllowOrigin {
        newHeaders := newHeaders[key := value];
      }
    }
    assert CorsPolicyHeaders[..|CorsPolicyHeaders|] == CorsPolicyHeaders;
  }

  const Preflight: map<string, string> :=
    map[AllowMethods := "GET, OPTIONS", AllowHeaders := "Content-Type, Authorization, X-Requested-With"]

  /** The `fetch` handler's answer to a request with `verb` (the request method) and `Origin`, given what the assets return. */
  function EdgeResponse(verb: string, originHeader: Option<string>, asset: Response): Response {
    var allowed := AllowedOriginOf(originHeader);
    if verb == "OPTIONS" then
      if allowed.Some? then Response(204, "", None, Preflight[AllowOrigin := allowed.value])
      else if Truthy(originHeader) then Response(403, "", Some("CORS policy: Origin not allowed."), map[])
      else Response(204, "", None, map["Allow" := "GET, OPTIONS"])
    else if allowed.Some? then Response(asset.status, asset.statusText, asset.body, WithCors(asset.headers, allowed.value))
    else asset
  }

  /** The `fetch` handler. */
  method Fetch(verb: string, originHeader: Option<string>, asset: Response) returns (r: Response)
    ensures r == EdgeResponse(verb, originHeader, asset)
  {
    var isOriginAllowed, actualOriginForHeader := MatchOrigin(originHeader);
    if verb == "OPTIONS" {
      if isOriginAllowed {
        return Response(204, "", None, Preflight[AllowOrigin := actualOriginForHeader.value]);
      } else {
        if originHeader.Some? && originHeader.value != "" {
          return Response(403, "", Some("CORS policy: Origin not allowed."), map[]);
        }
        return Response(204, "", None, map["Allow" := "GET, OPTIONS"]);
      }
    }
    if isOriginAllowed {
      var newHeaders := AddCorsHeaders(asset.headers, actualOriginForHeader.value);
      return Response(asset.status, asset.statusText, asset.body, newHeaders);
    }
    return asset;
  }

  // ------------------------------------------------------------ properties

  /**
   * `Access-Control-Allow-Origin`, whenever the handler writes it, is the
   * request's own Origin, which is one of the allowed ones and never `*`.
   * The requires leaves out the one response the handler does not build: a
   * non-OPTIONS request from an origin that is not allowed gets the asset
   * response as it is, with whatever headers the asset carries
   * (`OrdinaryRequests`).
   */
  lemma AllowOriginIsRequestOrigin(verb: string, originHeader: Option<string>, asset: Response)
    requires verb == "OPTIONS" || AllowedOriginOf(originHeader).Some?
    ensures var r := EdgeResponse(verb, originHeader, asset);
      AllowOrigin in r.headers ==>
        && originHeader.Some?
        && r.headers[AllowOrigin] == originHeader.value
        && AllowedOriginOf(originHeader).Some?
        && r.headers[AllowOrigin] != "*"
  {
    var allowed := AllowedOriginOf(originHeader);
    AllowedOrigin(originHeader);
    if allowed.Some? {
      WithCorsFields(asset.headers, allowed.value);
      assert |originHeader.value| > 1;
    } else {
      assert "Allow" != AllowOrigin;
    }
  }

  /** A missing or empty Origin header is never allowed. */
  lemma NoOriginNotAllowed(originHeader: Option<string>)
    requires !Truthy(originHeader)
    ensures AllowedOriginOf(originHeader).None?
  {
  }

  /** A preflight from an allowed origin gets 204 with the method and header lists and its own origin. */
  lemma PreflightAllowed(originHeader: Option<string>, asset: Response)
    requires AllowedOriginOf(originHeader).Some?
    ensures var r := EdgeResponse("OPTIONS", originHeader, asset);
      && r.status == 204 && r.body.None?
      && r.headers.Keys == {AllowOrigin, AllowMethods, AllowHeaders}
      && r.headers[AllowOrigin] == originHeader.value
  {
    AllowedOrigin(originHeader);
  }

  /** A preflight from any other origin is refused with 403; one without an origin gets only `Allow`. */
  lemma PreflightRefused(originHeader: Option<string>, asset: Response)
    requires AllowedOriginOf(originHeader).None?
    ensures var r := EdgeResponse("OPTIONS", originHeader, asset);
      && (Truthy(originHeader) ==> r.status == 403 && r.headers == map[])
      && (!Truthy(originHeader) ==> r.status == 204 && r.headers == map["Allow" := "GET, OPTIONS"])
  {
  }

  /**
   * An ordinary request from an allowed origin keeps the asset's status,
   * status text and body and gains the CORS headers; any other ordinary
   * request gets the asset's response unchanged.
   */
  lemma OrdinaryRequests(verb: string, originHeader: Option<string>, asset: Response)
    requires verb != "OPTIONS"
    ensures var r := EdgeResponse(verb, originHeader, asset);
      && r.status == asset.status && r.statusText == asset.statusText && r.body == asset.body
      && (AllowedOriginOf(originHeader).None? ==> r == asset)
      && (AllowedOriginOf(originHeader).Some? ==>
            && r.headers.Keys == asset.headers.Keys + {AllowOrigin, AllowMethods, AllowHeaders}
            && r.headers[AllowOrigin] == originHeader.value
            && forall k :: k in asset.headers && k !in {AllowOrigin, AllowMethods, AllowHeaders} ==> r.headers[k] == asset.headers[k])
  {
    if AllowedOriginOf(originHeader).Some? {
      AllowedOrigin(originHeader);
      WithCorsFields(asset.headers, originHeader.value);
    }
  }
}
