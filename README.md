# Edge worker: router, header hardener and navigation normaliser

This project models, in Dafny, the two pieces of logic in a small static-site
edge worker and proves properties of them.

- **The router** (`fetch` in `src/worker.js`) handles one request. It rejects
  any method whose upper-cased form is not `GET` or `HEAD` with a bare 405. It
  answers the exact pathname `/api/health` with a JSON liveness payload. Every
  other request goes to the static-asset collaborator. A 404 from the
  collaborator is replaced with a fixed HTML page. Any other collaborator
  response passes through.
- **The header hardener** (`withSecurityHeaders`) copies a response's header
  list and sets eight fixed security headers over it. It keeps the status,
  status text and body.
- **The navigation highlighter** (`public/assets/app.js`) normalises the
  current pathname and each navigation link's href. Normalising strips the
  trailing slashes, and "/" replaces an empty result. A link whose normalised
  href equals the normalised pathname is marked `aria-current="page"`.

Modules:

- `Ascii` (ascii.dfy): ASCII upper- and lower-casing.
- `Headers` (headers.dfy): the host's header list. Its "set" follows
  section 2.2.2 "Headers" of the WHATWG Fetch Standard: names are
  case-insensitive and "set" replaces the existing value. The list is modelled
  as a map keyed by lower-cased names.
- `Worker` (worker.dfy): the response and request values, the hardener and the
  router.
- `Nav` (nav.dfy): the normaliser and the highlighter.
- `Wrappers` (wrappers.dfy): `Option`.

Inputs the code takes from its environment are parameters of the model:

- The asset collaborator (`env.ASSETS.fetch`) is a function
  `Request -> Response`. "The collaborator is not consulted" is stated as
  "the response is the same for any two collaborators".
- The current instant (`new Date().toISOString()`) is a string parameter.
- The health JSON body is the value `HealthPayload(ok, ts)`. It is not
  serialised.
- The collaborator's body is an opaque `Stream` handle that is passed through.

Three details of the responses the worker builds itself:

- The 405 branch (src/worker.js:10) returns before `withSecurityHeaders` is
  applied. The 405 therefore carries none of the eight security headers.
  `Worker.Fetch` proves that a response is hardened exactly when the method is
  allowed.
- The 405 body is a string and is given no content type (src/worker.js:10).
  For such a body, the host's `Response` constructor adds the header
  `content-type: text/plain;charset=UTF-8`. This is the "extract a body" step
  for strings in the WHATWG Fetch Standard. The model includes that header in
  the 405 response.
- The 405, health and 404-page responses are built without a status text
  (src/worker.js:10, 16-20, 31-43). They get the empty status text, which is
  the constructor's default in the WHATWG Fetch Standard.

## Model

| member | source | states |
|---|---|---|
| Ascii.Upper | src/worker.js:8 | the upper-cased method has the same length; each lower-case ASCII letter becomes its capital (code point minus 32); every other character is kept; no lower-case letter is left |
| Ascii.FoldsAgree | src/worker.js:8-9 | two strings have equal upper-cased forms exactly when they have equal lower-cased forms |
| Ascii.Lower | src/worker.js:71-78 | the lower-cased header name has the same length; each upper-case ASCII letter becomes its small letter (code point plus 32); every other character is kept; no upper-case letter is left |
| Headers.Set | src/worker.js:71 | after `headers.set(name, v)`, looking up any spelling of name gives v; exactly the lower-cased name is added to the keys; every other entry is unchanged |
| Headers.SetAll | src/worker.js:71-78 | the eight `set` calls, in order; `Headers.SetAllKeys`, `Headers.SetAllKeepsOthers` and `Headers.SetAllLastWins` state what they leave |
| Headers.Get | src/worker.js:71-78 | the header list's lookup, which finds a name in any spelling, as `set` does; `Headers.Set` and `Headers.SetAllSetsAll` state what a lookup finds after the sets |
| Headers.SetAllKeys | src/worker.js:71-78 | successive sets add exactly the lower-cased names set to the copied keys |
| Headers.SetAllKeepsOthers | src/worker.js:56-78 | a copied entry whose name no set touches keeps its value |
| Headers.SetAllLastWins | src/worker.js:71-78 | the value of the last set under a name is the value kept |
| Headers.SetAllSetsAll | src/worker.js:71-78 | when the names are distinct, every name maps to its own value after the sets |
| Headers.SetAllIdempotent | src/worker.js:71-78 | repeating the same distinct-named sets changes nothing |
| Worker.JoinSnoc | src/worker.js:59-69 | `join` puts the separator between each part and the next |
| Worker.Join | src/worker.js:69 | `join` of the directives with "; "; `Worker.JoinSnoc` states its law and `Worker.CspValue` its value on the directives |
| Worker.CspValue | src/worker.js:59-69 | the Content-Security-Policy value is the nine directives, in order, joined by "; " |
| Worker.SecurityNamesDistinct | src/worker.js:71-78 | the eight security header names differ pairwise, ignoring case, so none overrides another |
| Worker.ContentTypeNotSecurity | src/worker.js:71-78 | `content-type` is not one of the eight security header names |
| Worker.MethodNotAllowed | src/worker.js:10 | the 405 response before routing; `Worker.MethodNotAllowedHeaders` and `Worker.RejectedMethod` state its headers and fields |
| Worker.HealthResponse | src/worker.js:16-20 | the health payload before hardening; `Worker.HealthRoute` states the routed response |
| Worker.NotFoundResponse | src/worker.js:31-43 | the replacement 404 page before hardening; `Worker.AssetNotFound` and `Worker.NotFoundPageHeading` state the routed response |
| Worker.WithSecurityHeaders | src/worker.js:55-85 | hardening keeps status, status text and body; all eight headers have their fixed values; the keys are the input's keys plus the eight names; every other header keeps its input value |
| Worker.HardenOverridesAnySpelling | src/worker.js:71-78 | after hardening, a lookup of a security header by any spelling returns the fixed value, whatever the input held |
| Worker.HardenIdempotent | src/worker.js:55-85 | hardening twice gives the same response as hardening once |
| Worker.MethodNotAllowedHeaders | src/worker.js:10 | the 405 response holds only the host's plain-text content type and none of the security headers |
| Worker.Fetch | src/worker.js:6-49 | a routed response carries all eight security headers exactly when the method is allowed |
| Worker.IsAllowedMethod | src/worker.js:8-9 | the method test; `Worker.MethodCheckIgnoresCase` and `Worker.MethodExamples` state which methods it accepts |
| Worker.MethodCheckIgnoresCase | src/worker.js:8-9 | the method is accepted exactly when its lower-cased form is "get" or "head" |
| Worker.MethodExamples | src/worker.js:8-9 | "GET", "get" and "Head" are accepted; "POST", "GETS" and "" are not |
| Worker.RejectedMethod | src/worker.js:8-11 | a disallowed method gets status 405, body "Method Not Allowed", empty status text and only the plain-text content type, with no security header; any collaborator gives the same response |
| Worker.HealthRoute | src/worker.js:14-22 | an allowed method on exactly "/api/health" gets status 200, the payload {ok: true, ts: now}, the JSON content type and the eight security headers; any collaborator gives the same response |
| Worker.HealthRouteExact | src/worker.js:15 | "/api/health/" is not the health route: its status (and, unless 404, its body) comes from the collaborator |
| Worker.AssetNotFound | src/worker.js:26-45 | a collaborator 404 becomes status 404 with the fixed HTML page, the HTML content type and the eight security headers; the result does not depend on the collaborator's body or headers |
| Worker.NotFoundPageHeading | src/worker.js:37 | the 404 page contains the heading text "404 – Page not found" |
| Worker.AssetPassThrough | src/worker.js:26-48 | any collaborator status other than 404 passes through with its status text and body; the headers get the eight security headers merged in and are otherwise the collaborator's |
| Nav.StripSpec | public/assets/app.js:10 | stripping keeps a prefix of the path; what it removes is all slashes; what it keeps does not end in a slash |
| Nav.StripIgnoresSlashes | public/assets/app.js:10 | appending slashes to a path does not change what stripping keeps |
| Nav.StripTrailingSlashes | public/assets/app.js:10-12 | removing the trailing run of slashes; `Nav.StripSpec` and `Nav.StripIgnoresSlashes` state what it keeps and removes |
| Nav.Normalize | public/assets/app.js:10 | the normal form is never empty; it ends in '/' only if it is "/"; it is "/" exactly when the path is all slashes (or empty); otherwise it is a prefix of the path followed only by slashes |
| Nav.NormalizeIdempotent | public/assets/app.js:10 | normalising a normal form returns it unchanged |
| Nav.TrailingSlashesIgnored | public/assets/app.js:10-13 | a path with slashes appended has the same normal form as the path |
| Nav.SameNormalForm | public/assets/app.js:10-13 | two paths have the same normal form exactly when they differ only in trailing slashes |
| Nav.IsCurrent | public/assets/app.js:13 | the link test; `Nav.SameNormalForm` states that it holds exactly when href and path differ only in trailing slashes |
| Nav.Mark | public/assets/app.js:13-14 | one link after the highlighter visits it; `Nav.HighlightSpec` states the result for every link |
| Nav.Highlight | public/assets/app.js:11-14 | the pass over the links; `Nav.HighlightSpec` states its result |
| Nav.HighlightSpec | public/assets/app.js:11-14 | the highlighter keeps every link and its href; a link whose normalised href equals the normalised path gets aria-current "page"; every other link is left as it was |
| Nav.HighlightIdempotent | public/assets/app.js:11-14 | running the highlighter twice gives the same links as running it once |
| Nav.NormalizeExamples | public/assets/app.js:10-13 | "/about/" matches "/about"; "", "/" and "///" normalise to "/"; "/about" does not match "/"; "/api/health/" and "/api/health" have one normal form |

## Left out

- The hosting runtime is not modelled: the Workers platform, `async`/`await`, and the `ctx` argument, which the code never uses.
- The asset collaborator's internals are not modelled. Its ETag, 304 and caching behaviour belong to the host.
- URL parsing (`new URL(request.url)`) is not modelled. The pathname is an input.
- The clock and `JSON.stringify` are not modelled. The timestamp is a parameter and the JSON body a value.
- Body streams are not read. A collaborator body is an opaque handle.
- HEAD body suppression is done by the host, so it is not modelled.
- The `Response` constructor's own checks are not modelled. It rejects a status outside 200-599 and a body on a null-body status such as 304. The model assumes the collaborator's responses pass those checks.
- A header name holding several values is one combined value in the map. The hardener only sets names, which replaces all values under a name, so its behaviour is unaffected.
- Ascii.Upper: uses ASCII case mapping only, not JavaScript's full Unicode `toUpperCase`. Methods are HTTP tokens, which are ASCII.
- Nav.Highlight: the pass over the links is modelled on a sequence of link values. The DOM queries, the in-place `setAttribute` on element nodes, and the `#js-status` element updates of public/assets/app.js:3-7 are not modelled.
