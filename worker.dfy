/** The edge worker of src/worker.js: a request router that answers a health
    route itself, hands every other read request to the static-asset
    collaborator, replaces the collaborator's 404 with a fixed page, and a
    header hardener that merges eight fixed security headers into a response. */
module Worker {
  import opened Ascii
  import opened Headers
  import opened Wrappers

  /** A response body. The router never reads a body; it either builds one
      or passes the collaborator's through. */
  datatype Body =
    | Text(text: string)                  // a string body the router builds
    | HealthPayload(ok: bool, ts: string) // the JSON object {ok, ts}, not serialised
    | Stream(handle: nat)                 // a body stream from the collaborator, opaque

  datatype Response = Response(status: int, statusText: string, body: Body, headers: HeaderMap)

  /** A request: its method, the pathname of its URL, and a handle standing
      for everything else about it (full URL, headers, body), which the
      router passes to the collaborator without looking at it. */
  datatype Request = Request(verb: string, pathname: string, detail: nat)

  // ---------------------------------------------------------------------
  // The header hardener (withSecurityHeaders)
  // ---------------------------------------------------------------------

  /** JavaScript's Array.prototype.join. */
  function Join(parts: seq<string>, sep: string): string
  {
    if |parts| == 0 then ""
    else if |parts| == 1 then parts[0]
    else parts[0] + sep + Join(parts[1..], sep)
  }

  const CspDirectives: seq<string> := [
    "default-src 'self'",
    "script-src 'self'",
    "style-src 'self' 'unsafe-inline'",
    "img-src 'self' data:",
    "font-src 'self' data:",
    "object-src 'none'",
    "base-uri 'self'",
    "frame-ancestors 'none'",
    "upgrade-insecure-requests"
  ]

  /** The Content-Security-Policy value, spelt out; CspValue shows it is the
      directives joined by "; ". */
  const Csp: string :=
    "default-src 'self'" + "; " + "script-src 'self'" + "; " + "style-src 'self' 'unsafe-inline'" + "; "
    + "img-src 'self' data:" + "; " + "font-src 'self' data:" + "; " + "object-src 'none'" + "; "
    + "base-uri 'self'" + "; " + "frame-ancestors 'none'" + "; " + "upgrade-insecure-requests"

  /** The eight headers set, in the order they are set. */
  const SecurityHeaders: seq<(string, string)> := [
    ("Content-Security-Policy", Csp),
    ("Referrer-Policy", "no-referrer"),
    ("X-Content-Type-Options", "nosniff"),
    ("X-Frame-Options", "DENY"),
    ("Permissions-Policy", "geolocation=(), microphone=(), camera=()"),
    ("Cross-Origin-Opener-Policy", "same-origin"),
    ("Cross-Origin-Embedder-Policy", "require-corp"),
    ("Cross-Origin-Resource-Policy", "same-origin")
  ]

  /** The header-map keys of the security headers. */
  const SecurityNames: set<string> := NamesOf(SecurityHeaders)

  /** Every security header is present, under any spelling of its name,
      with its fixed value. */
  predicate IsHardened(h: HeaderMap)
  {
    AllSet(h, SecurityHeaders)
  }

  /** Join puts the separator between consecutive parts. */
  lemma {:induction false} JoinSnoc(parts: seq<string>, x: string, sep: string)
    requires parts != []
    ensures Join(parts + [x], sep) == Join(parts, sep) + sep + x
  {
    if |parts| > 1 {
      assert (parts + [x])[1..] == parts[1..] + [x];
      JoinSnoc(parts[1..], x, sep);
    } else {
      assert (parts + [x])[1..] == [x];
    }
  }

  /** The Content-Security-Policy value is the nine directives, in order,
      joined by "; ". */
  lemma CspValue()
    ensures Csp == Join(CspDirectives, "; ")
  {
    var d, s := CspDirectives, "; ";
    var p := d[..1];
    assert Join(p, s) == d[0];
    JoinSnoc(p, d[1], s); p := p + [d[1]];
    JoinSnoc(p, d[2], s); p := p + [d[2]];
    JoinSnoc(p, d[3], s); p := p + [d[3]];
    JoinSnoc(p, d[4], s); p := p + [d[4]];
    JoinSnoc(p, d[5], s); p := p + [d[5]];
    JoinSnoc(p, d[6], s); p := p + [d[6]];
    JoinSnoc(p, d[7], s); p := p + [d[7]];
    JoinSnoc(p, d[8], s); p := p + [d[8]];
    assert p == d;
  }

  /** The eight security header names are pairwise distinct once case is
      ignored, so no set among them overrides another. Only two pairs of
      names have the same length. */
  lemma SecurityNamesDistinct()
    ensures DistinctNames(SecurityHeaders)
  {
    assert Lower(SecurityHeaders[1].0)[0] != Lower(SecurityHeaders[3].0)[0];
    assert Lower(SecurityHeaders[6].0)[13] != Lower(SecurityHeaders[7].0)[13];
  }

  /** content-type is not among the security headers: every security
      header name is longer. */
  lemma ContentTypeNotSecurity()
    ensures "content-type" !in SecurityNames
  {
    forall k | k in SecurityNames ensures |k| > 12 {
    }
  }

  /** A map holding none of the security header keys is not hardened. */
  lemma UnhardenedWithoutSecurityNames(h: HeaderMap)
    requires h.Keys !! SecurityNames
    ensures !IsHardened(h)
  {
    assert Lower(SecurityHeaders[0].0) in SecurityNames;
  }

  /** withSecurityHeaders: a new response with the same status, status text
      and body, whose headers are a copy of the input's with the eight
      security headers set over them. */
  function WithSecurityHeaders(resp: Response): (r: Response)
    ensures r.status == resp.status && r.statusText == resp.statusText && r.body == resp.body
    ensures IsHardened(r.headers)
    ensures r.headers.Keys == resp.headers.Keys + SecurityNames
    ensures forall k :: k in resp.headers && k !in SecurityNames ==> r.headers[k] == resp.headers[k]
  {
    SetAllKeys(resp.headers, SecurityHeaders);
    SetAllKeepsAll(resp.headers, SecurityHeaders);
    SecurityNamesDistinct();
    SetAllSetsAll(resp.headers, SecurityHeaders);
    Response(resp.status, resp.statusText, resp.body, SetAll(resp.headers, SecurityHeaders))
  }

  /** A security header overrides a prior value under any spelling of its name. */
  lemma HardenOverridesAnySpelling(resp: Response, name: string, i: nat)
    requires i < |SecurityHeaders| && Lower(name) == Lower(SecurityHeaders[i].0)
    ensures Get(WithSecurityHeaders(resp).headers, name) == Some(SecurityHeaders[i].1)
  {
    assert Get(WithSecurityHeaders(resp).headers, SecurityHeaders[i].0) == Some(SecurityHeaders[i].1);
  }

  /** Hardening twice is hardening once. */
  lemma HardenIdempotent(resp: Response)
    ensures WithSecurityHeaders(WithSecurityHeaders(resp)) == WithSecurityHeaders(resp)
  {
    SecurityNamesDistinct();
    SetAllIdempotent(resp.headers, SecurityHeaders);
  }

  // ---------------------------------------------------------------------
  // The router (fetch)
  // ---------------------------------------------------------------------

  const HealthPath := "/api/health"
  const NotAllowedText := "Method Not Allowed"
  const JsonType := "application/json; charset=utf-8"
  const HtmlType := "text/html; charset=utf-8"

  /** The content type the host's Response constructor gives a string body
      when no content-type header was supplied. */
  const PlainTextType := "text/plain;charset=UTF-8"

  /** The fixed 404 page, split around its heading. */
  const NotFoundHead: string := @"<!doctype html>
<html lang=""en"">
<head><meta charset=""utf-8""><title>Not found</title>
<meta name=""viewport"" content=""width=device-width, initial-scale=1""></head>
<body style=""font-family:system-ui,-apple-system,Segoe UI,Roboto,Ubuntu,Cantarell,Noto Sans,sans-serif;max-width:60ch;margin:10vh auto;padding:0 1rem;"">
  <h1>"
  const NotFoundHeading: string := "404 – Page not found"
  const NotFoundTail: string := @"</h1>
  <p>The page you requested does not exist.</p>
  <p><a href=""/"">Go home</a></p>
</body>
</html>"
  const NotFoundPage: string := NotFoundHead + NotFoundHeading + NotFoundTail

  const NoHeaders: HeaderMap := map[]

  /** The request method, upper-cased, is exactly GET or HEAD. */
  predicate IsAllowedMethod(verb: string)
  {
    Upper(verb) == "GET" || Upper(verb) == "HEAD"
  }

  /** The 405 rejection of src/worker.js:10: a string body, so the host adds a
      plain-text content type; it is not hardened. */
  function MethodNotAllowed(): Response
  {
    Response(405, "", Text(NotAllowedText), Set(NoHeaders, "content-type", PlainTextType))
  }

  /** The rejection carries only the content type the host gives a string
      body, and none of the security headers. */
  lemma MethodNotAllowedHeaders()
    ensures MethodNotAllowed().headers == map["content-type" := "text/plain;charset=UTF-8"]
    ensures MethodNotAllowed().headers.Keys !! SecurityNames
  {
    ContentTypeOnly("content-type", PlainTextType);
    ContentTypeNotSecurity();
  }

  /** A map holding only a content type, whatever the spelling it is set with. */
  lemma ContentTypeOnly(name: string, v: string)
    requires name == "content-type" || name == "Content-Type"
    ensures Set(NoHeaders, name, v) == map["content-type" := v]
  {
    LowerOfLowerCase("content-type");
    assert Lower("Content-Type") == "content-type";
  }

  /** The content type is found under its capitalised name too. */
  lemma GetContentType(h: HeaderMap, v: string)
    requires "content-type" in h && h["content-type"] == v
    ensures Get(h, "Content-Type") == Some(v)
  {
    assert Lower("Content-Type") == "content-type";
  }

  /** Hardening a response that holds only a content type keeps it beside
      the eight security headers. */
  lemma HardenedContentType(resp: Response, v: string)
    requires resp.headers == map["content-type" := v]
    ensures WithSecurityHeaders(resp).headers.Keys == {"content-type"} + SecurityNames
    ensures Get(WithSecurityHeaders(resp).headers, "Content-Type") == Some(v)
  {
    ContentTypeNotSecurity();
    GetContentType(WithSecurityHeaders(resp).headers, v);
  }

  /** The health payload, before hardening; now is the ISO-8601 text of the
      current instant. */
  function HealthResponse(now: string): Response
  {
    Response(200, "", HealthPayload(true, now), Set(NoHeaders, "content-type", JsonType))
  }

  /** The replacement 404 page, before hardening. */
  function NotFoundResponse(): Response
  {
    Response(404, "", Text(NotFoundPage), Set(NoHeaders, "content-type", HtmlType))
  }

  /** fetch: route one request. assets is the static-asset collaborator and
      now the current instant as ISO-8601 text. Every response except the
      405 rejection is hardened, and the 405 rejection is not. */
  function Fetch(req: Request, assets: Request -> Response, now: string): (r: Response)
    ensures IsHardened(r.headers) <==> IsAllowedMethod(req.verb)
  {
    if !IsAllowedMethod(req.verb) then
      MethodNotAllowedHeaders();
      UnhardenedWithoutSecurityNames(MethodNotAllowed().headers);
      MethodNotAllowed()
    else if req.pathname == HealthPath then
      WithSecurityHeaders(HealthResponse(now))
    else
      var asset := assets(req);
      if asset.status == 404 then WithSecurityHeaders(NotFoundResponse())
      else WithSecurityHeaders(asset)
  }

  /** Method acceptance ignores case: it is the same test as comparing the
      lower-cased method with "get" and "head". */
  lemma MethodCheckIgnoresCase(verb: string)
    ensures IsAllowedMethod(verb) <==> Lower(verb) == "get" || Lower(verb) == "head"
  {
    FoldsAgree(verb, "GET");
    FoldsAgree(verb, "HEAD");
    assert Upper("GET") == "GET" && Lower("GET") == "get";
    assert Upper("HEAD") == "HEAD" && Lower("HEAD") == "head";
  }

  lemma MethodExamples()
    ensures IsAllowedMethod("GET") && IsAllowedMethod("get") && IsAllowedMethod("Head")
    ensures !IsAllowedMethod("POST") && !IsAllowedMethod("GETS") && !IsAllowedMethod("")
  {
    assert Upper("get") == "GET";
    assert Upper("Head") == "HEAD";
    assert Upper("POST")[0] == 'P';
    assert Upper("GETS")[0] == 'G';
  }

  /** A method other than GET or HEAD, in any case, is answered with a bare
      405: no security header is set, and the collaborator is not consulted
      (any other collaborator gives the same response). */
  lemma RejectedMethod(req: Request, assets: Request -> Response, other: Request -> Response, now: string)
    requires !IsAllowedMethod(req.verb)
    ensures var r := Fetch(req, assets, now);
      && r.status == 405 && r.statusText == "" && r.body == Text("Method Not Allowed")
      && r.headers == map["content-type" := "text/plain;charset=UTF-8"]
      && r.headers.Keys !! SecurityNames
      && r == Fetch(req, other, now)
  {
    MethodNotAllowedHeaders();
  }

  /** An allowed method on exactly /api/health gets the hardened JSON health
      payload; the collaborator is not consulted. */
  lemma HealthRoute(req: Request, assets: Request -> Response, other: Request -> Response, now: string)
    requires IsAllowedMethod(req.verb) && req.pathname == "/api/health"
    ensures var r := Fetch(req, assets, now);
      && r.status == 200 && r.statusText == "" && r.body == HealthPayload(true, now)
      && Get(r.headers, "Content-Type") == Some("application/json; charset=utf-8")
      && r.headers.Keys == {"content-type"} + SecurityNames
      && IsHardened(r.headers)
      && r == Fetch(req, other, now)
  {
    ContentTypeOnly("content-type", JsonType);
    HardenedContentType(HealthResponse(now), JsonType);
  }

  /** The health route is an exact match: with a trailing slash the request
      goes to the collaborator like any other path. */
  lemma HealthRouteExact(req: Request, assets: Request -> Response, now: string)
    requires IsAllowedMethod(req.verb) && req.pathname == "/api/health/"
    ensures Fetch(req, assets, now).status == assets(req).status
    ensures assets(req).status != 404 ==> Fetch(req, assets, now).body == assets(req).body
  {
  }

  /** A collaborator 404 is replaced by the fixed, hardened HTML page,
      whatever the collaborator's own body, status text and headers were. */
  lemma AssetNotFound(req: Request, assets: Request -> Response, other: Request -> Response, now: string)
    requires IsAllowedMethod(req.verb) && req.pathname != "/api/health"
    requires assets(req).status == 404 && other(req).status == 404
    ensures var r := Fetch(req, assets, now);
      && r.status == 404 && r.statusText == "" && r.body == Text(NotFoundPage)
      && Get(r.headers, "Content-Type") == Some("text/html; charset=utf-8")
      && r.headers.Keys == {"content-type"} + SecurityNames
      && IsHardened(r.headers)
      && r == Fetch(req, other, now)
  {
    ContentTypeOnly("content-type", HtmlType);
    HardenedContentType(NotFoundResponse(), HtmlType);
  }

  /** The 404 page carries the heading "404 – Page not found". */
  lemma NotFoundPageHeading()
    ensures NotFoundPage[|NotFoundHead|..|NotFoundHead| + 20] == "404 – Page not found"
  {
  }

  /** Any other collaborator status passes through with its status text and
      body; only the security headers are merged in. */
  lemma AssetPassThrough(req: Request, assets: Request -> Response, now: string)
    requires IsAllowedMethod(req.verb) && req.pathname != "/api/health"
    requires assets(req).status != 404
    ensures var r, a := Fetch(req, assets, now), assets(req);
      && r.status == a.status && r.statusText == a.statusText && r.body == a.body
      && IsHardened(r.headers)
      && r.headers.Keys == a.headers.Keys + SecurityNames
      && (forall k :: k in a.headers && k !in SecurityNames ==> r.headers[k] == a.headers[k])
  {
  }
}
