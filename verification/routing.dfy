/** The hard-coded routing table of `src/routing.rs`: host and URI decide the
    service type and, for the services behind a fixed port, the upstream port.
    The parsed nginx configuration is not consulted. */
module Routing {
  import opened Text
  import opened Http
  import opened Types

  /** The fixed port of a service, when it has one; Core API and Static keep
      whatever port the context already held. */
  function ServicePort(s: ServiceType): (p: nat)
    requires s != CoreApi && s != Static
  {
    match s
    case ChallengeApi => 8080
    case BillingApi => 8081
    case ErirApi => 8082
    case SharedApi => 8083
    case ZitadelAuth => 8091
  }

  /** Route to `s`, setting the port when the service has a fixed one. */
  function RouteTo(ctx: RequestContext, s: ServiceType): (r: RequestContext)
    ensures r.serviceType == s
    ensures s != CoreApi && s != Static ==> r.upstreamPort == ServicePort(s)
    ensures s == CoreApi || s == Static ==> r.upstreamPort == ctx.upstreamPort
    ensures r.upstreamHost == ctx.upstreamHost && r.retries == ctx.retries
  {
    if s == CoreApi || s == Static then ctx.(serviceType := s)
    else ctx.(serviceType := s, upstreamPort := ServicePort(s))
  }

  /** The service `route_api_domain` picks for a URI of `api.ad-quest.ru`. */
  function ApiDomainService(uri: string): ServiceType {
    if StartsWith(uri, "/api/v1/logs") || StartsWith(uri, "/api/v1/analytics")
       || StartsWith(uri, "/api/v1/health") || uri == "/health" then SharedApi
    else if StartsWith(uri, "/challenge") then ChallengeApi
    else if StartsWith(uri, "/billing") then BillingApi
    else if StartsWith(uri, "/erir") then ErirApi
    else if StartsWith(uri, "/shared") || StartsWith(uri, "/tbank") then SharedApi
    else CoreApi
  }

  /** The service `route_localhost_api` picks (the table for localhost API paths
      and for every unknown host). */
  function FallbackService(uri: string): ServiceType {
    if StartsWith(uri, "/api/challenge") then ChallengeApi
    else if StartsWith(uri, "/api/billing") then BillingApi
    else if StartsWith(uri, "/api/erir") then ErirApi
    else if StartsWith(uri, "/api/shared") || StartsWith(uri, "/api/tbank") then SharedApi
    else if StartsWith(uri, "/api/") then CoreApi
    else Static
  }

  predicate IsLocalHost(h: string) {
    h == "localhost" || h == "127.0.0.1"
  }

  /** The service `route_request` picks for a host (possibly with a port) and URI. */
  function RouteService(host: string, uri: string): ServiceType {
    var h := HostWithoutPort(host);
    if IsLocalHost(h) && StartsWith(uri, "/api/") then FallbackService(uri)
    else if h == "auth.ad-quest.ru"
            || (h == "localhost" && (Contains(host, ":8085") || Contains(host, ":8091"))) then ZitadelAuth
    else if IsLocalHost(h) then
      if StartsWith(uri, "/ui/") || StartsWith(uri, "/.well-known/") || StartsWith(uri, "/oauth/") then ZitadelAuth
      else Static
    else if h == "api.ad-quest.ru" then ApiDomainService(uri)
    else FallbackService(uri)
  }

  /** `route_request`: every host and URI is routed; only the service type and,
      for fixed-port services, the upstream port change. */
  function RouteRequest(host: string, uri: string, ctx: RequestContext): (r: RequestContext)
    ensures r.upstreamHost == ctx.upstreamHost && r.retries == ctx.retries
    ensures r.serviceType != CoreApi && r.serviceType != Static ==> r.upstreamPort == ServicePort(r.serviceType)
    ensures r.serviceType == CoreApi || r.serviceType == Static ==> r.upstreamPort == ctx.upstreamPort
    ensures ctx.Valid() ==> r.Valid()
  {
    RouteTo(ctx, RouteService(host, uri))
  }

  /* ---------------- the tables as first-match rule lists ---------------- */

  /** One row of a routing table: the URI matches when it starts with one of
      `prefixes` or equals one of `exact`. */
  datatype Rule = Rule(prefixes: seq<string>, exact: seq<string>, service: ServiceType)

  predicate RuleMatches(rule: Rule, uri: string) {
    (exists p :: p in rule.prefixes && StartsWith(uri, p)) || uri in rule.exact
  }

  /** The service of the first matching rule, else `otherwise`. */
  function FirstRule(rules: seq<Rule>, uri: string, otherwise: ServiceType): (s: ServiceType)
    ensures s == otherwise || exists k :: 0 <= k < |rules| && rules[k].service == s && RuleMatches(rules[k], uri)
    decreases |rules|
  {
    if |rules| == 0 then otherwise
    else if RuleMatches(rules[0], uri) then rules[0].service
    else FirstRule(rules[1..], uri, otherwise)
  }

  const ApiDomainRules: seq<Rule> := [
    Rule(["/api/v1/logs", "/api/v1/analytics", "/api/v1/health"], ["/health"], SharedApi),
    Rule(["/challenge"], [], ChallengeApi),
    Rule(["/billing"], [], BillingApi),
    Rule(["/erir"], [], ErirApi),
    Rule(["/shared", "/tbank"], [], SharedApi)]

  const FallbackRules: seq<Rule> := [
    Rule(["/api/challenge"], [], ChallengeApi),
    Rule(["/api/billing"], [], BillingApi),
    Rule(["/api/erir"], [], ErirApi),
    Rule(["/api/shared", "/api/tbank"], [], SharedApi),
    Rule(["/api/"], [], CoreApi)]

  /** The `api.ad-quest.ru` table is the first-match rule list, Core API by default. */
  lemma ApiDomainIsRuleList(uri: string)
    ensures ApiDomainService(uri) == FirstRule(ApiDomainRules, uri, CoreApi)
  {
    var rs := ApiDomainRules;
    assert rs[1..] == ApiDomainRules[1..];
    assert rs[0].prefixes == ["/api/v1/logs", "/api/v1/analytics", "/api/v1/health"];
    assert rs[4].prefixes == ["/shared", "/tbank"];
    assert RuleMatches(rs[0], uri) <==>
      StartsWith(uri, "/api/v1/logs") || StartsWith(uri, "/api/v1/analytics")
      || StartsWith(uri, "/api/v1/health") || uri == "/health";
    assert RuleMatches(rs[1], uri) <==> StartsWith(uri, "/challenge");
    assert RuleMatches(rs[2], uri) <==> StartsWith(uri, "/billing");
    assert RuleMatches(rs[3], uri) <==> StartsWith(uri, "/erir");
    assert RuleMatches(rs[4], uri) <==> StartsWith(uri, "/shared") || StartsWith(uri, "/tbank");
    assert rs[1..][1..] == rs[2..];
    assert rs[2..][1..] == rs[3..];
    assert rs[3..][1..] == rs[4..];
    assert rs[4..][1..] == [];
  }

  /** The fallback table is the first-match rule list, Static by default. */
  lemma FallbackIsRuleList(uri: string)
    ensures FallbackService(uri) == FirstRule(FallbackRules, uri, Static)
  {
    var rs := FallbackRules;
    assert RuleMatches(rs[0], uri) <==> StartsWith(uri, "/api/challenge");
    assert RuleMatches(rs[1], uri) <==> StartsWith(uri, "/api/billing");
    assert RuleMatches(rs[2], uri) <==> StartsWith(uri, "/api/erir");
    assert rs[3].prefixes == ["/api/shared", "/api/tbank"];
    assert RuleMatches(rs[3], uri) <==> StartsWith(uri, "/api/shared") || StartsWith(uri, "/api/tbank");
    assert RuleMatches(rs[4], uri) <==> StartsWith(uri, "/api/");
    assert rs[0..][1..] == rs[1..];
    assert rs[1..][1..] == rs[2..];
    assert rs[2..][1..] == rs[3..];
    assert rs[3..][1..] == rs[4..];
    assert rs[4..][1..] == [];
  }

  /* ---------------- properties of route_request ---------------- */

  /** An API path on localhost or 127.0.0.1 always goes through the fallback table,
      so never to Zitadel, whatever port the host names. */
  lemma LocalApiNeverZitadel(host: string, uri: string)
    requires IsLocalHost(HostWithoutPort(host)) && StartsWith(uri, "/api/")
    ensures RouteService(host, uri) == FallbackService(uri)
    ensures RouteService(host, uri) != ZitadelAuth && RouteService(host, uri) != Static
  {
  }

  /** `auth.ad-quest.ru`, or localhost on :8085 / :8091, goes to Zitadel on 8091
      unless it is a localhost API path. */
  lemma ZitadelHosts(host: string, uri: string, ctx: RequestContext)
    requires HostWithoutPort(host) == "auth.ad-quest.ru"
             || (HostWithoutPort(host) == "localhost" && (Contains(host, ":8085") || Contains(host, ":8091")))
    requires !(IsLocalHost(HostWithoutPort(host)) && StartsWith(uri, "/api/"))
    ensures RouteRequest(host, uri, ctx).serviceType == ZitadelAuth
    ensures RouteRequest(host, uri, ctx).upstreamPort == 8091
  {
  }

  /** Other localhost URIs reach Zitadel only through its console and OAuth paths,
      and are Static otherwise. */
  lemma LocalNonApi(host: string, uri: string)
    requires IsLocalHost(HostWithoutPort(host)) && !StartsWith(uri, "/api/")
    requires !(HostWithoutPort(host) == "localhost" && (Contains(host, ":8085") || Contains(host, ":8091")))
    ensures RouteService(host, uri) == ZitadelAuth <==>
              StartsWith(uri, "/ui/") || StartsWith(uri, "/.well-known/") || StartsWith(uri, "/oauth/")
    ensures RouteService(host, uri) != ZitadelAuth ==> RouteService(host, uri) == Static
  {
  }

  /** A host with no special name, with or without a port, uses the fallback
      table: `/api/...` paths go to their service or Core API, anything else is
      Static. */
  lemma UnknownHostFallback(host: string, uri: string)
    requires !IsLocalHost(HostWithoutPort(host))
    requires HostWithoutPort(host) != "auth.ad-quest.ru" && HostWithoutPort(host) != "api.ad-quest.ru"
    ensures RouteService(host, uri) == FirstRule(FallbackRules, uri, Static)
    ensures RouteService(host, uri) == Static <==> !StartsWith(uri, "/api/")
  {
    FallbackIsRuleList(uri);
    FallbackStatic(uri);
  }

  /** The fallback table answers Static exactly for URIs outside `/api/`. */
  lemma FallbackStatic(uri: string)
    ensures FallbackService(uri) == Static <==> !StartsWith(uri, "/api/")
  {
    if StartsWith(uri, "/api/") {
      assert uri[..5] == "/api/";
    } else {
      ApiSubPrefix(uri, "/api/challenge");
      ApiSubPrefix(uri, "/api/billing");
      ApiSubPrefix(uri, "/api/erir");
      ApiSubPrefix(uri, "/api/shared");
      ApiSubPrefix(uri, "/api/tbank");
    }
  }

  lemma ApiSubPrefix(uri: string, p: string)
    requires StartsWith(p, "/api/")
    ensures StartsWith(uri, p) ==> StartsWith(uri, "/api/")
  {
    if StartsWith(uri, p) {
      assert uri[..5] == p[..5];
    }
  }

  /** `handle_https_redirect`: it only logs, and never redirects. */
  function HandleHttpsRedirect(host: string, uri: string): (redirected: bool)
    ensures !redirected
  {
    false
  }
}
