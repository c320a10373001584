/** Cross-origin and security response headers of `src/cors.rs`: the preflight
    answer, the origin policy applied to forwarded responses, the older wildcard
    variant, and the fixed security headers. Response headers are keyed by
    lower-case name, so `Access-Control-Allow-Origin` inserted by the proxy and
    `access-control-allow-origin` sent by an upstream are one entry. */
module Cors {
  import opened Wrappers
  import opened Text
  import opened Http

  const AllowOriginName := "access-control-allow-origin"
  const AllowCredentialsName := "access-control-allow-credentials"
  const AllowMethodsName := "access-control-allow-methods"
  const AllowHeadersName := "access-control-allow-headers"
  const ExposeHeadersName := "access-control-expose-headers"
  const VaryName := "vary"

  /** The origins answered with themselves and with credentials. */
  const AllowedOrigins: seq<string> := [
    "https://auth.ad-quest.ru",
    "https://api.ad-quest.ru",
    "http://localhost:3000",
    "http://localhost:5173",
    "http://localhost:8085",
    "http://localhost:8091"]

  /** The origin allowed when the request names none. */
  const DefaultOrigin := "https://auth.ad-quest.ru"

  const AllowMethods := "GET, POST, PUT, DELETE, OPTIONS, PATCH"
  const AllowHeaders := "Content-Type, Authorization, X-Requested-With, Accept, Origin, "
    + "X-CSRF-Token, X-Grpc-Web, X-User-Agent, grpc-timeout, X-Grpc-Web-Protocol"
  const ExposeHeaders := "grpc-status, grpc-message, grpc-encoding, "
    + "grpc-accept-encoding, Grpc-Status, Grpc-Message"
  const ServerBanner := "Pingora/0.6.0"

  /** The request's `origin` header as text; missing or non-text reads as empty. */
  function RequestOrigin(req: Headers): (o: string)
    ensures HeaderText(req, "origin").Some? ==> o == HeaderText(req, "origin").value
    ensures HeaderText(req, "origin").None? ==> o == ""
  {
    HeaderText(req, "origin").GetOr("")
  }

  /** The allowed-origin entries the policy grants to a request origin. */
  function OriginGrant(origin: string): (g: ResponseHeaders)
    ensures AllowOriginName in g
    ensures origin in AllowedOrigins ==> g == map[AllowOriginName := origin, AllowCredentialsName := "true"]
    ensures origin == "" ==> g == map[AllowOriginName := DefaultOrigin, AllowCredentialsName := "true"]
    ensures origin !in AllowedOrigins && origin != "" ==> g == map[AllowOriginName := "*"]
  {
    if origin in AllowedOrigins then map[AllowOriginName := origin, AllowCredentialsName := "true"]
    else if origin == "" then map[AllowOriginName := DefaultOrigin, AllowCredentialsName := "true"]
    else map[AllowOriginName := "*"]
  }

  /** The CORS entries set whatever the origin. */
  const CorsFixed: ResponseHeaders := map[
    AllowMethodsName := AllowMethods,
    AllowHeadersName := AllowHeaders,
    ExposeHeadersName := ExposeHeaders,
    VaryName := "Origin"]

  /** `add_cors_headers_for_request`. A response that already carries an allowed
      origin (set by the upstream) is left alone. Otherwise a listed origin is
      echoed with credentials, a missing origin gets `DefaultOrigin` with
      credentials, any other origin gets `*` without credentials; the methods,
      allowed and exposed headers and `Vary: Origin` are always set. */
  function CorsForRequest(resp: ResponseHeaders, req: Headers): (r: ResponseHeaders)
    ensures AllowOriginName in resp ==> r == resp
    ensures AllowOriginName !in resp ==> r == resp + OriginGrant(RequestOrigin(req)) + CorsFixed
  {
    if AllowOriginName in resp then resp
    else resp + OriginGrant(RequestOrigin(req)) + CorsFixed
  }

  /** The names the CORS functions may set. */
  function CorsNames(): (s: set<string>)
    ensures forall o :: OriginGrant(o).Keys <= s
    ensures CorsFixed.Keys <= s
  {
    {AllowOriginName, AllowCredentialsName, AllowMethodsName, AllowHeadersName, ExposeHeadersName, VaryName}
  }

  /** Where no upstream allowed origin is present: a listed origin is echoed with
      credentials, a missing one gets the default origin with credentials, any
      other gets `*` and the upstream's credentials entry, if any, as it was; the
      fixed entries are set and every other entry is kept. */
  lemma CorsPolicy(resp: ResponseHeaders, req: Headers)
    requires AllowOriginName !in resp
    ensures var r := CorsForRequest(resp, req); var o := RequestOrigin(req);
      && (o in AllowedOrigins ==> r[AllowOriginName] == o && AllowCredentialsName in r && r[AllowCredentialsName] == "true")
      && (o == "" ==> r[AllowOriginName] == DefaultOrigin && AllowCredentialsName in r && r[AllowCredentialsName] == "true")
      && (o !in AllowedOrigins && o != "" ==>
            r[AllowOriginName] == "*" && (AllowCredentialsName in r <==> AllowCredentialsName in resp)
            && (AllowCredentialsName in resp ==> r[AllowCredentialsName] == resp[AllowCredentialsName]))
      && (forall k :: k in CorsFixed ==> k in r && r[k] == CorsFixed[k])
      && (forall k :: k in resp && k !in CorsNames() ==> k in r && r[k] == resp[k])
      && (forall k :: k in r && k !in CorsNames() ==> k in resp)
  {
    CorsFixedNames();
  }

  /** The fixed entries do not touch the allowed origin or the credentials. */
  lemma CorsFixedNames()
    ensures AllowOriginName !in CorsFixed && AllowCredentialsName !in CorsFixed
  {
  }

  /** The origin policy as a security property: on a response without upstream
      CORS headers, the proxy never grants an origin outside `AllowedOrigins`
      other than `*`, and it grants credentials exactly when the granted origin is
      a listed one (never together with `*`). */
  lemma CredentialsOnlyForListedOrigins(resp: ResponseHeaders, req: Headers)
    requires AllowOriginName !in resp && AllowCredentialsName !in resp
    ensures var r := CorsForRequest(resp, req);
      && (r[AllowOriginName] == "*" || r[AllowOriginName] in AllowedOrigins)
      && (AllowCredentialsName in r <==> r[AllowOriginName] in AllowedOrigins)
      && (AllowCredentialsName in r ==> r[AllowCredentialsName] == "true")
  {
    CorsFixedNames();
    assert DefaultOrigin == AllowedOrigins[0];
    assert "*" != AllowedOrigins[0] && "*" != AllowedOrigins[1] && "*" != AllowedOrigins[2];
    assert "*" != AllowedOrigins[3] && "*" != AllowedOrigins[4] && "*" != AllowedOrigins[5];
  }

  /** A second pass changes nothing: the first one set the allowed origin. */
  lemma CorsIdempotent(resp: ResponseHeaders, req: Headers)
    ensures CorsForRequest(CorsForRequest(resp, req), req) == CorsForRequest(resp, req)
  {
    CorsFixedNames();
  }

  /** `add_cors_headers`, the older variant: wildcard origin without credentials or
      `Vary`. */
  function SimpleCors(resp: ResponseHeaders): (r: ResponseHeaders)
    ensures r == resp + map[AllowOriginName := "*"] + (CorsFixed - {VaryName})
  {
    resp[AllowOriginName := "*"][AllowMethodsName := AllowMethods]
        [AllowHeadersName := AllowHeaders][ExposeHeadersName := ExposeHeaders]
  }

  /** The older variant is the request-aware policy for an unlisted origin, less
      the `Vary` header. */
  lemma SimpleCorsIsUnlistedPolicy(resp: ResponseHeaders, req: Headers)
    requires AllowOriginName !in resp
    requires RequestOrigin(req) != "" && RequestOrigin(req) !in AllowedOrigins
    ensures CorsForRequest(resp, req) == SimpleCors(resp)[VaryName := "Origin"]
  {
    CorsFixedNames();
  }

  /** The `Content-Security-Policy` value: ten directives separated by `; `. */
  const CspPolicy := "default-src 'self'"
    + "; " + "connect-src 'self' https://auth.ad-quest.ru http://auth.ad-quest.ru https://api.ad-quest.ru wss://auth.ad-quest.ru wss://api.ad-quest.ru https: wss:"
    + "; " + "script-src 'self' 'unsafe-eval' 'unsafe-inline'"
    + "; " + "style-src 'self' 'unsafe-inline'"
    + "; " + "img-src 'self' https://auth.ad-quest.ru data: blob: https:"
    + "; " + "font-src 'self' data:"
    + "; " + "frame-src 'none'"
    + "; " + "object-src 'none'"
    + "; " + "media-src 'none'"
    + "; " + "manifest-src 'self'"

  /** The entries `add_security_headers` sets. */
  const SecurityFixed: ResponseHeaders := map[
    "x-frame-options" := "SAMEORIGIN",
    "x-content-type-options" := "nosniff",
    "x-xss-protection" := "1; mode=block",
    "referrer-policy" := "strict-origin-when-cross-origin",
    "content-security-policy" := CspPolicy,
    "server" := ServerBanner]

  /** `add_security_headers`: the six fixed entries, replacing whatever the
      upstream sent under those names; every other entry is kept. */
  function SecurityHeaders(resp: ResponseHeaders): (r: ResponseHeaders)
    ensures r.Keys == resp.Keys + SecurityFixed.Keys
    ensures forall k :: k in SecurityFixed ==> r[k] == SecurityFixed[k]
    ensures forall k :: k in resp && k !in SecurityFixed ==> r[k] == resp[k]
  {
    resp + SecurityFixed
  }

  /** The security entries never include the allowed origin, so the CORS pass
      after them still sees only what the upstream sent. */
  lemma OriginNotSecurity()
    ensures AllowOriginName !in SecurityFixed
  {
  }

  /** The gRPC step of the preflight: requested headers mentioning `grpc` (or
      `x-grpc`, which contains it) set the allowed headers to the full list. */
  function GrpcAllowHeaders(h: ResponseHeaders, requested: string): (r: ResponseHeaders)
    ensures Contains(requested, "grpc") ==> r == h[AllowHeadersName := AllowHeaders]
    ensures !Contains(requested, "grpc") ==> r == h
  {
    if Contains(requested, "grpc") || Contains(requested, "x-grpc") then
      ContainsTail(requested, "x-", "grpc");
      assert "x-" + "grpc" == "x-grpc";
      h[AllowHeadersName := AllowHeaders]
    else h
  }

  /** The preflight's own entries, after the CORS ones. */
  const PreflightFixed: ResponseHeaders := map[
    "access-control-max-age" := "86400",
    "content-length" := "0",
    "server" := ServerBanner]

  /** `handle_cors_preflight`: nothing for a method other than `OPTIONS`; else an
      empty 200 with the request-aware CORS headers, a day's `Access-Control-Max-Age`,
      a zero length and the server banner. */
  function Preflight(httpMethod: string, req: Headers): (r: Option<Reply>)
    ensures r.None? <==> httpMethod != "OPTIONS"
    ensures r.Some? ==> r.value.status == 200 && r.value.body == ""
    ensures r.Some? ==> r.value.headers == CorsForRequest(map[], req) + PreflightFixed
  {
    if httpMethod != "OPTIONS" then None
    else
      var h := CorsForRequest(map[], req);
      var requested := if "access-control-request-headers" in req then
          (match req["access-control-request-headers"] case Visible(t) => t case Opaque => "") else "";
      CorsFixedNames();
      assert h[AllowHeadersName := AllowHeaders] == h;
      Some(Reply(200, GrpcAllowHeaders(h, requested) + PreflightFixed, ""))
  }

  /** The advertised length of the preflight body is its actual length. */
  lemma PreflightLength(req: Headers)
    ensures var r := Preflight("OPTIONS", req).value;
      ParseUnsigned(r.headers["content-length"], U32Max) == Some(|r.body|)
  {
    assert "content-length" in PreflightFixed;
    assert DigitsValue("0") == 0;
  }

  /** The gRPC branch of the preflight has no effect: the answer depends on the
      method and the origin only, not on the requested headers. */
  lemma PreflightIgnoresRequestedHeaders(httpMethod: string, req: Headers, v: HeaderValue)
    ensures Preflight(httpMethod, req["access-control-request-headers" := v]) == Preflight(httpMethod, req)
  {
    assert HeaderText(req["access-control-request-headers" := v], "origin") == HeaderText(req, "origin");
  }

  /** A preflight from a listed origin is answered for that origin with
      credentials; one from an unlisted origin gets `*` without credentials. */
  lemma PreflightOrigins(req: Headers)
    requires RequestOrigin(req) != ""
    ensures RequestOrigin(req) in AllowedOrigins ==>
              Preflight("OPTIONS", req).value.headers[AllowOriginName] == RequestOrigin(req)
              && Preflight("OPTIONS", req).value.headers[AllowCredentialsName] == "true"
    ensures RequestOrigin(req) !in AllowedOrigins ==>
              Preflight("OPTIONS", req).value.headers[AllowOriginName] == "*"
              && AllowCredentialsName !in Preflight("OPTIONS", req).value.headers
  {
    CorsPolicy(map[], req);
    PreflightNames();
  }

  /** The preflight's own entries leave the origin and credentials alone. */
  lemma PreflightNames()
    ensures AllowOriginName !in PreflightFixed && AllowCredentialsName !in PreflightFixed
  {
  }
}
