/** The request path of `src/proxy.rs`: the order of the checks in
    `request_filter`, the retry counter of `fail_to_connect`, the backoff and peer
    choice of `upstream_peer`, the headers `upstream_request_filter` adds, and the
    branch of `response_filter`. Writing to the session becomes a returned `Reply`;
    the rate-limit window and the connection filter are explicit values. */
module Proxy {
  import opened Wrappers
  import opened Text
  import opened Http
  import opened Types
  import opened Routing
  import opened IpFilter
  import opened Cors
  import RateLimit
  import Config
  import NginxLookup
  import NginxParser

  /* ---------------- request_filter ---------------- */

  /** The body of the 403 answer for a blocked address. */
  const ForbiddenBody: string := "{\"error\":\"Forbidden\",\"message\":\"Access denied\"}"

  /** The address check as written: the client address cut at its first colon, then
      parsed (`parse` stands for `str::parse::<IpAddr>`); an address that does not
      parse is not checked. */
  function IpBlockedAsWritten<Ip>(filter: Option<Filter<Ip>>, parse: string -> Option<Ip>, clientAddr: Option<string>): (blocked: bool)
    ensures blocked <==> filter.Some? && clientAddr.Some?
                         && parse(RateLimit.ClientIpAsWritten(clientAddr.value)).Some?
                         && ShouldBlock(filter.value, parse(RateLimit.ClientIpAsWritten(clientAddr.value)).value)
  {
    match filter
    case None => false
    case Some(f) =>
      match clientAddr
      case None => false
      case Some(a) =>
        match parse(RateLimit.ClientIpAsWritten(a))
        case None => false
        case Some(ip) => ShouldBlock(f, ip)
  }

  /** Hence no V6 client is ever checked: the text before the first colon of
      `[v6]:port` is `[` and a group, which no address parser accepts. */
  lemma V6NeverFilteredAsWritten<Ip>(filter: Option<Filter<Ip>>, parse: string -> Option<Ip>, a: RateLimit.SocketAddr)
    requires RateLimit.WellFormed(a) && a.V6?
    requires parse("[" + PrefixBefore(a.ip, ':')).None?
    ensures !IpBlockedAsWritten(filter, parse, Some(RateLimit.RenderSocketAddr(a)))
  {
    RateLimit.ClientIpAsWrittenV6(a);
  }

  /** The address check with the corrected split. */
  function IpBlocked<Ip>(filter: Option<Filter<Ip>>, parse: string -> Option<Ip>, clientAddr: Option<string>): (blocked: bool)
    ensures blocked <==> filter.Some? && clientAddr.Some?
                         && parse(RateLimit.ClientIp(clientAddr.value)).Some?
                         && ShouldBlock(filter.value, parse(RateLimit.ClientIp(clientAddr.value)).value)
  {
    match filter
    case None => false
    case Some(f) =>
      match clientAddr
      case None => false
      case Some(a) =>
        match parse(RateLimit.ClientIp(a))
        case None => false
        case Some(ip) => ShouldBlock(f, ip)
  }

  /** With the corrected split every printed client address, V4 or V6, is checked
      against the filter under its own address. */
  lemma EveryClientFiltered<Ip>(f: Filter<Ip>, parse: string -> Option<Ip>, a: RateLimit.SocketAddr, ip: Ip)
    requires RateLimit.WellFormed(a) && parse(a.ip) == Some(ip)
    ensures IpBlocked(Some(f), parse, Some(RateLimit.RenderSocketAddr(a))) == ShouldBlock(f, ip)
  {
    RateLimit.ClientIpOfRendered(a);
  }

  /** The addresses the per-location limit never counts. */
  const RateLimitWhitelist: seq<string> := ["127.0.0.1", "::1"]

  /** The limit the request's location asks for: the server for the host, the
      location for the path (the lookup as written), and that location's
      `rate_limit`, of which only the requests per second are used (the burst is
      ignored). */
  function LocationRateLimit(cfg: Config.Config, req: Request): (r: Option<RateLimit.RateLimitConfig>)
    ensures cfg.nginxConfig.None? ==> r.None?
    ensures r.Some? <==>
              && Config.FindServer(cfg, HostOf(req)).Some?
              && Config.FindLocation(cfg, Config.FindServer(cfg, HostOf(req)).value, req.path).Some?
              && Config.FindLocation(cfg, Config.FindServer(cfg, HostOf(req)).value, req.path).value.rateLimit.Some?
    ensures r.Some? ==>
              && r.value.enabled && r.value.whitelist == RateLimitWhitelist && r.value.perApiKeyLimits == map[]
              && r.value.maxRequestsPerSecond ==
                 Config.FindLocation(cfg, Config.FindServer(cfg, HostOf(req)).value, req.path).value.rateLimit.value.requestsPerSecond
  {
    match Config.FindServer(cfg, HostOf(req))
    case None => None
    case Some(server) => LimitOf(Config.FindLocation(cfg, server, req.path))
  }

  /** The same with the corrected location lookup. */
  function LocationRateLimitCorrected(cfg: Config.Config, req: Request): (r: Option<RateLimit.RateLimitConfig>)
    ensures cfg.nginxConfig.None? ==> r.None?
    ensures r.Some? <==>
              && Config.FindServer(cfg, HostOf(req)).Some?
              && Config.FindLocationCorrected(cfg, Config.FindServer(cfg, HostOf(req)).value, req.path).Some?
              && Config.FindLocationCorrected(cfg, Config.FindServer(cfg, HostOf(req)).value, req.path).value.rateLimit.Some?
    ensures r.Some? ==>
              && r.value.enabled && r.value.whitelist == RateLimitWhitelist && r.value.perApiKeyLimits == map[]
              && r.value.maxRequestsPerSecond ==
                 Config.FindLocationCorrected(cfg, Config.FindServer(cfg, HostOf(req)).value, req.path).value.rateLimit.value.requestsPerSecond
  {
    match Config.FindServer(cfg, HostOf(req))
    case None => None
    case Some(server) => LimitOf(Config.FindLocationCorrected(cfg, server, req.path))
  }

  /** The temporary limiter built for a location with a `rate_limit`. */
  function LimitOf(location: Option<NginxParser.LocationBlock>): (r: Option<RateLimit.RateLimitConfig>)
    ensures r.Some? <==> location.Some? && location.value.rateLimit.Some?
    ensures r.Some? ==> r.value == RateLimit.RateLimitConfig(location.value.rateLimit.value.requestsPerSecond,
                                                             RateLimitWhitelist, map[], true)
  {
    match location
    case None => None
    case Some(l) =>
      match l.rateLimit
      case None => None
      case Some(rl) => Some(RateLimit.RateLimitConfig(rl.requestsPerSecond, RateLimitWhitelist, map[], true))
  }

  /** The answer for a static route: the page with its type and length, under the
      security headers. */
  function StaticReply(page: string): (r: Reply)
    ensures r.status == 200 && r.body == page
    ensures r.headers == SecurityHeaders(map["content-type" := "text/html; charset=utf-8",
                                             "content-length" := NatToString(|page|)])
  {
    Reply(200, SecurityHeaders(map["content-type" := "text/html; charset=utf-8",
                                   "content-length" := NatToString(|page|)]), page)
  }

  /** The advertised length of the static page is its length, read back as any
      unsigned type wide enough to hold it. */
  lemma StaticReplyLength(page: string, max: nat)
    requires |page| <= max
    ensures "content-length" in StaticReply(page).headers
    ensures ParseUnsigned(StaticReply(page).headers["content-length"], max) == Some(|page|)
  {
    LengthNotSecurity();
    var m := map["content-type" := "text/html; charset=utf-8", "content-length" := NatToString(|page|)];
    assert "content-length" in m && m["content-length"] == NatToString(|page|);
    assert SecurityHeaders(m)["content-length"] == NatToString(|page|);
    ParseNatToString(|page|, max);
  }

  lemma LengthNotSecurity()
    ensures "content-length" !in SecurityFixed
  {
  }

  /** How `request_filter` ends: a reply was written, or the request goes on to an
      upstream. */
  datatype Verdict = Answered(reply: Reply) | Proceed

  /** The verdict, the context after routing, and the rate-limit window. */
  datatype FilterResult = FilterResult(verdict: Verdict, ctx: RequestContext, window: RateLimit.Window)

  /** `request_filter` as written. In order: the address filter (403), the
      location's rate limit (429), the CORS preflight, then routing, after which a
      Static route is answered with `page` and every other route proceeds. The
      HTTPS redirect step sits between the preflight and routing and never answers
      (`Routing.HandleHttpsRedirect`). */
  function RequestFilter<Ip>(cfg: Config.Config, filter: Option<Filter<Ip>>, parse: string -> Option<Ip>,
                             page: string, req: Request, ctx: RequestContext, w: RateLimit.Window): (r: FilterResult)
    ensures IpBlockedAsWritten(filter, parse, req.clientAddr) ==>
              r == FilterResult(Answered(Reply(403, map[], ForbiddenBody)), ctx, w)
    ensures !IpBlockedAsWritten(filter, parse, req.clientAddr) ==> r.window == LocationRateCheck(cfg, req, w).window
    ensures r.verdict.Answered? && r.verdict.reply.status == 429 ==>
              r.ctx == ctx && r.verdict.reply.body == RateLimit.TooManyBody
    ensures r.verdict.Proceed? ==>
              && !IpBlockedAsWritten(filter, parse, req.clientAddr)
              && req.httpMethod != "OPTIONS"
              && r.ctx == RouteRequest(HostOf(req), req.path, ctx)
              && r.ctx.serviceType != Static
    ensures r.ctx != ctx ==> r.ctx == RouteRequest(HostOf(req), req.path, ctx)
  {
    Pipeline(IpBlockedAsWritten(filter, parse, req.clientAddr), LocationRateCheck(cfg, req, w), page, req, ctx, w)
  }

  /** `request_filter` with the corrected address split, identifier and location
      lookup. */
  function RequestFilterCorrected<Ip>(cfg: Config.Config, filter: Option<Filter<Ip>>, parse: string -> Option<Ip>,
                                      page: string, req: Request, ctx: RequestContext, w: RateLimit.Window): (r: FilterResult)
    ensures IpBlocked(filter, parse, req.clientAddr) ==>
              r == FilterResult(Answered(Reply(403, map[], ForbiddenBody)), ctx, w)
    ensures !IpBlocked(filter, parse, req.clientAddr) ==> r.window == LocationRateCheckCorrected(cfg, req, w).window
    ensures r.verdict.Answered? && r.verdict.reply.status == 429 ==>
              r.ctx == ctx && r.verdict.reply.body == RateLimit.TooManyBody
    ensures r.verdict.Proceed? ==>
              && !IpBlocked(filter, parse, req.clientAddr)
              && req.httpMethod != "OPTIONS"
              && r.ctx == RouteRequest(HostOf(req), req.path, ctx)
              && r.ctx.serviceType != Static
  {
    Pipeline(IpBlocked(filter, parse, req.clientAddr), LocationRateCheckCorrected(cfg, req, w), page, req, ctx, w)
  }

  /** The order of the steps, given the address verdict and the rate-limit
      outcome: a blocked client is answered 403 before the limiter counts it. */
  function Pipeline(blocked: bool, limited: RateLimit.RateCheck, page: string, req: Request,
                    ctx: RequestContext, w: RateLimit.Window): (r: FilterResult)
    requires limited.refusal.Some? ==> limited.refusal.value.status == 429 && limited.refusal.value.body == RateLimit.TooManyBody
    ensures blocked ==> r == FilterResult(Answered(Reply(403, map[], ForbiddenBody)), ctx, w)
    ensures !blocked ==> r.window == limited.window
    ensures !blocked && limited.refusal.Some? ==> r == FilterResult(Answered(limited.refusal.value), ctx, limited.window)
    ensures !blocked && limited.refusal.None? ==> r == PastRateLimit(page, req, ctx, limited.window)
    ensures r.verdict.Answered? && r.verdict.reply.status == 429 ==>
              r.ctx == ctx && r.verdict.reply.body == RateLimit.TooManyBody
    ensures r.verdict.Proceed? ==>
              && !blocked
              && req.httpMethod != "OPTIONS"
              && r.ctx == RouteRequest(HostOf(req), req.path, ctx)
              && r.ctx.serviceType != Static
    ensures r.ctx != ctx ==> r.ctx == RouteRequest(HostOf(req), req.path, ctx)
  {
    if blocked then FilterResult(Answered(Reply(403, map[], ForbiddenBody)), ctx, w)
    else if limited.refusal.Some? then FilterResult(Answered(limited.refusal.value), ctx, limited.window)
    else PastRateLimit(page, req, ctx, limited.window)
  }

  /** The rate-limit step of `request_filter` as written: the location's limit
      applied to the client, or nothing when the location has none. */
  function LocationRateCheck(cfg: Config.Config, req: Request, w: RateLimit.Window): (r: RateLimit.RateCheck)
    ensures LocationRateLimit(cfg, req).None? ==> r == RateLimit.RateCheck(None, w)
    ensures LocationRateLimit(cfg, req).Some? ==>
              r == RateLimit.CheckRateLimit(LocationRateLimit(cfg, req).value, req.headers, req.clientAddr, w)
    ensures r.refusal.Some? ==> r.refusal.value.status == 429 && r.refusal.value.body == RateLimit.TooManyBody
  {
    match LocationRateLimit(cfg, req)
    case None => RateLimit.RateCheck(None, w)
    case Some(rc) => RateLimit.CheckRateLimit(rc, req.headers, req.clientAddr, w)
  }

  /** The rate-limit step with the corrected lookup and identifier. */
  function LocationRateCheckCorrected(cfg: Config.Config, req: Request, w: RateLimit.Window): (r: RateLimit.RateCheck)
    ensures LocationRateLimitCorrected(cfg, req).None? ==> r == RateLimit.RateCheck(None, w)
    ensures LocationRateLimitCorrected(cfg, req).Some? ==>
              r == RateLimit.CheckRateLimitCorrected(LocationRateLimitCorrected(cfg, req).value, req.headers, req.clientAddr, w)
    ensures r.refusal.Some? ==> r.refusal.value.status == 429 && r.refusal.value.body == RateLimit.TooManyBody
  {
    match LocationRateLimitCorrected(cfg, req)
    case None => RateLimit.RateCheck(None, w)
    case Some(rc) => RateLimit.CheckRateLimitCorrected(rc, req.headers, req.clientAddr, w)
  }

  /** The steps of `request_filter` after the rate limit admitted the request: the
      preflight, then routing. They answer only with status 200 and leave the
      window alone. */
  function PastRateLimit(page: string, req: Request, ctx: RequestContext, w: RateLimit.Window): (r: FilterResult)
    ensures r.window == w
    ensures r.verdict.Answered? ==> r.verdict.reply.status == 200
    ensures r.verdict.Proceed? ==>
              && req.httpMethod != "OPTIONS"
              && r.ctx == RouteRequest(HostOf(req), req.path, ctx)
              && r.ctx.serviceType != Static
    ensures r.ctx != ctx ==> r.ctx == RouteRequest(HostOf(req), req.path, ctx)
  {
    match Preflight(req.httpMethod, req.headers)
    case Some(reply) => FilterResult(Answered(reply), ctx, w)
    case None =>
      var routed := RouteRequest(HostOf(req), req.path, ctx);
      if routed.serviceType == Static then FilterResult(Answered(StaticReply(page)), routed, w)
      else FilterResult(Proceed, routed, w)
  }

  /** A client the filter blocks is answered 403 before the rate limit sees it: the
      window is untouched whatever the location's limit. */
  lemma BlockedBeforeRateLimit<Ip>(cfg: Config.Config, filter: Option<Filter<Ip>>, parse: string -> Option<Ip>,
                                   page: string, req: Request, ctx: RequestContext, w: RateLimit.Window)
    requires IpBlockedAsWritten(filter, parse, req.clientAddr)
    ensures RequestFilter(cfg, filter, parse, page, req, ctx, w).window == w
    ensures RequestFilter(cfg, filter, parse, page, req, ctx, w).verdict.reply.status == 403
  {
  }

  /** A request the filter lets through is refused with 429 exactly when its
      location, found by the lookup as written, has a limit and the rate decision
      for the client's identifier as written refuses it; requests without a
      location limit are never refused for rate. */
  lemma RateLimitGate<Ip>(cfg: Config.Config, filter: Option<Filter<Ip>>, parse: string -> Option<Ip>,
                          page: string, req: Request, ctx: RequestContext, w: RateLimit.Window)
    requires !IpBlockedAsWritten(filter, parse, req.clientAddr)
    ensures var r := RequestFilter(cfg, filter, parse, page, req, ctx, w);
      (r.verdict.Answered? && r.verdict.reply.status == 429) <==>
        LocationRateLimit(cfg, req).Some?
        && RateLimit.CheckRateLimit(LocationRateLimit(cfg, req).value, req.headers, req.clientAddr, w).refusal.Some?
  {
  }

  /** As written, a V6 client is never answered 403, whatever the filter holds:
      its address is not checked at all. */
  lemma V6ClientNeverForbiddenAsWritten<Ip>(cfg: Config.Config, filter: Option<Filter<Ip>>, parse: string -> Option<Ip>,
                                            page: string, req: Request, ctx: RequestContext, w: RateLimit.Window,
                                            a: RateLimit.SocketAddr)
    requires RateLimit.WellFormed(a) && a.V6? && req.clientAddr == Some(RateLimit.RenderSocketAddr(a))
    requires parse("[" + PrefixBefore(a.ip, ':')).None?
    ensures var r := RequestFilter(cfg, filter, parse, page, req, ctx, w);
      !(r.verdict.Answered? && r.verdict.reply.status == 403)
  {
    V6NeverFilteredAsWritten(filter, parse, a);
  }

  /** The request filter as written and the corrected one give the same result for
      a V4 client (or none) whenever the corrected lookup does not fall back on a
      location with an empty trimmed prefix, such as `location /`. */
  lemma RequestFilterAgrees<Ip>(cfg: Config.Config, filter: Option<Filter<Ip>>, parse: string -> Option<Ip>,
                                page: string, req: Request, ctx: RequestContext, w: RateLimit.Window,
                                a: RateLimit.SocketAddr)
    requires req.clientAddr.None? || (req.clientAddr == Some(RateLimit.RenderSocketAddr(a)) && RateLimit.WellFormed(a) && a.V4?)
    requires Config.FindServer(cfg, HostOf(req)).Some? ==>
               var loc := Config.FindLocationCorrected(cfg, Config.FindServer(cfg, HostOf(req)).value, req.path);
               loc.Some? ==> loc.value.path == req.path || |NginxLookup.PrefixOf(loc.value)| > 0
    ensures RequestFilter(cfg, filter, parse, page, req, ctx, w) == RequestFilterCorrected(cfg, filter, parse, page, req, ctx, w)
  {
    if req.clientAddr.Some? {
      RateLimit.ClientIpAgreesV4(a);
    }
    var server := Config.FindServer(cfg, HostOf(req));
    if server.Some? {
      Config.FindLocationCorrectedAgrees(cfg, server.value, req.path);
    }
    assert LocationRateLimit(cfg, req) == LocationRateLimitCorrected(cfg, req);
    if LocationRateLimit(cfg, req).Some? {
      RateLimit.CheckRateLimitAgrees(LocationRateLimit(cfg, req).value, req.headers, req.clientAddr, w, a);
    }
  }

  /** As written, a server whose only location is `location /` with a limit
      limits no request for another path; the corrected lookup limits them all. */
  lemma RootLimitSkippedAsWritten(cfg: Config.Config, req: Request, server: NginxParser.ServerBlock, rl: NginxParser.RateLimit)
    requires cfg.nginxConfig.Some? && Config.FindServer(cfg, HostOf(req)) == Some(server)
    requires server.locations == [NginxParser.LocationBlock("/", None, Some(rl), false)]
    requires req.path == "/x"
    ensures LocationRateLimit(cfg, req).None?
    ensures LocationRateLimitCorrected(cfg, req).Some?
  {
    NginxLookup.RootLocationMissedAsWritten();
    NginxLookup.RootCatchesAll(server.locations, req.path, 0);
  }

  /** As written, the loopback entry `::1` of the per-location whitelist never
      matches: a V6 loopback client's identifier is `[`. */
  lemma LoopbackV6NotExemptAsWritten(headers: Headers, port: nat)
    requires HeaderText(headers, "x-api-key").None? && port <= U16Max
    ensures RateLimit.ClientIdentifierAsWritten(headers, Some(RateLimit.RenderSocketAddr(RateLimit.V6("::1", port)))) == "["
    ensures "[" !in RateLimitWhitelist
  {
    var a := RateLimit.V6("::1", port);
    RateLimit.ClientIpAsWrittenV6(a);
    assert PrefixBefore(a.ip, ':') == "";
  }

  /** With the corrected identifier the V6 loopback client is exempt. */
  lemma LoopbackV6Exempt(headers: Headers, port: nat)
    requires HeaderText(headers, "x-api-key").None? && port <= U16Max
    ensures RateLimit.ClientIdentifier(headers, Some(RateLimit.RenderSocketAddr(RateLimit.V6("::1", port)))) in RateLimitWhitelist
  {
    RateLimit.ClientIpOfRendered(RateLimit.V6("::1", port));
  }

  /* ---------------- fail_to_connect ---------------- */

  const MaxRetries: nat := 3

  /** `fail_to_connect`: below the cap the retry count grows by one and the error
      is marked retryable; at the cap the error is returned as it was. */
  function FailToConnect(ctx: RequestContext): (r: (RequestContext, bool))
    ensures r.1 <==> ctx.retries < MaxRetries
    ensures r.1 ==> r.0 == ctx.(retries := ctx.retries + 1)
    ensures !r.1 ==> r.0 == ctx
  {
    if ctx.retries < MaxRetries then (ctx.(retries := ctx.retries + 1), true) else (ctx, false)
  }

  /** `n` connection failures in a row: the context after them and which were
      marked retryable. */
  function FailMany(ctx: RequestContext, n: nat): (RequestContext, seq<bool>)
    decreases n
  {
    if n == 0 then (ctx, [])
    else
      var (c, retry) := FailToConnect(ctx);
      var (c', rest) := FailMany(c, n - 1);
      (c', [retry] + rest)
  }

  /** From a fresh count, `n` failures leave `min(n, 3)` retries, exactly the first
      three are retryable, and only the count changes. */
  lemma {:induction false} FailManyBounded(ctx: RequestContext, n: nat)
    requires ctx.retries <= MaxRetries
    decreases n
    ensures var (c, marks) := FailMany(ctx, n);
      && c == ctx.(retries := if ctx.retries + n < MaxRetries then ctx.retries + n else MaxRetries)
      && |marks| == n
      && forall k :: 0 <= k < n ==> (marks[k] <==> ctx.retries + k < MaxRetries)
  {
    if n > 0 {
      var (c1, retry) := FailToConnect(ctx);
      FailManyBounded(c1, n - 1);
      var (c', rest) := FailMany(c1, n - 1);
      assert FailMany(ctx, n) == (c', [retry] + rest);
      forall k | 0 <= k < n
        ensures (([retry] + rest)[k] <==> ctx.retries + k < MaxRetries)
      {
        if k > 0 {
          assert ([retry] + rest)[k] == rest[k - 1];
        }
      }
    }
  }

  /* ---------------- upstream_peer ---------------- */

  function Pow10(e: nat): (p: nat)
    ensures p >= 1
  {
    if e == 0 then 1 else 10 * Pow10(e - 1)
  }

  const MaxSleepMs: nat := 10000

  /** The pause before a retry in milliseconds: none before the first attempt,
      then `10^retries` capped at ten seconds. */
  function BackoffMs(retries: nat): (ms: nat)
    ensures retries == 0 ==> ms == 0
    ensures retries > 0 ==> ms == if Pow10(retries) < MaxSleepMs then Pow10(retries) else MaxSleepMs
  {
    if retries == 0 then 0
    else if Pow10(retries) < MaxSleepMs then Pow10(retries) else MaxSleepMs
  }

  /** The pauses a request can meet: 10, 100 and 1000 ms, never more than ten
      seconds, and growing with the retry count. */
  lemma BackoffSchedule(r1: nat, r2: nat)
    requires r1 <= r2
    ensures BackoffMs(1) == 10 && BackoffMs(2) == 100 && BackoffMs(3) == 1000
    ensures BackoffMs(r2) <= MaxSleepMs
    ensures BackoffMs(r1) <= BackoffMs(r2)
  {
    Pow10Monotone(r1, r2);
  }

  lemma {:induction false} Pow10Monotone(a: nat, b: nat)
    requires a <= b
    ensures Pow10(a) <= Pow10(b)
    decreases b
  {
    if a < b {
      Pow10Monotone(a, b - 1);
    }
  }

  /** What `upstream_peer` returns: a peer address, an internal error, or a panic
      (a load balancer with no backend to select). */
  datatype PeerChoice = Peer(address: string) | PeerError | PeerPanic

  const LoopbackPrefix: string := "127.0.0.1:"

  /** `upstream_peer`. `coreBackend` and `zitadelBackend` are what the two
      round-robin balancers select; the fixed-port services go to the loopback
      address at the context's port; Static has no upstream. */
  function UpstreamPeer(ctx: RequestContext, coreBackend: Option<string>, zitadelBackend: Option<string>): (r: PeerChoice)
    ensures ctx.serviceType == Static <==> r == PeerError
    ensures ctx.serviceType == CoreApi ==> (r.PeerPanic? <==> coreBackend.None?)
    ensures ctx.serviceType == CoreApi && coreBackend.Some? ==> r == Peer(coreBackend.value)
    ensures ctx.serviceType == ZitadelAuth ==> (r.PeerPanic? <==> zitadelBackend.None?)
    ensures ctx.serviceType == ZitadelAuth && zitadelBackend.Some? ==> r == Peer(zitadelBackend.value)
    ensures ctx.serviceType in {ChallengeApi, BillingApi, ErirApi, SharedApi} ==>
              r.Peer? && StartsWith(r.address, LoopbackPrefix)
              && r.address[|LoopbackPrefix|..] == NatToString(ctx.upstreamPort)
  {
    match ctx.serviceType
    case CoreApi => if coreBackend.Some? then Peer(coreBackend.value) else PeerPanic
    case ZitadelAuth => if zitadelBackend.Some? then Peer(zitadelBackend.value) else PeerPanic
    case Static => PeerError
    case _ =>
      var a := LoopbackPrefix + NatToString(ctx.upstreamPort);
      assert a[..|LoopbackPrefix|] == LoopbackPrefix;
      Peer(a)
  }

  /** A routed request to a fixed-port service reaches the loopback address at that
      service's port, and the port reads back from the peer address. */
  lemma RoutedPeerPort(host: string, uri: string, ctx: RequestContext, core: Option<string>, zitadel: Option<string>)
    requires RouteService(host, uri) in {ChallengeApi, BillingApi, ErirApi, SharedApi}
    ensures var routed := RouteRequest(host, uri, ctx);
      var p := UpstreamPeer(routed, core, zitadel);
      p.Peer? && ParseUnsigned(p.address[|LoopbackPrefix|..], U16Max) == Some(ServicePort(routed.serviceType))
  {
    var routed := RouteRequest(host, uri, ctx);
    ParseNatToString(ServicePort(routed.serviceType), U16Max);
  }

  /* ---------------- upstream_request_filter ---------------- */

  /** Headers of the request sent upstream, keyed by lower-case name. */
  type UpstreamHeaders = map<string, string>

  /** `X-Real-IP` and `X-Forwarded-For`: the client's socket address as printed,
      port included. */
  function AddressHeaders(clientAddr: Option<string>): (h: UpstreamHeaders)
    ensures clientAddr.None? ==> h == map[]
    ensures clientAddr.Some? ==>
              && h.Keys == {"x-real-ip", "x-forwarded-for"}
              && h["x-real-ip"] == clientAddr.value && h["x-forwarded-for"] == clientAddr.value
  {
    match clientAddr
    case None => map[]
    case Some(a) => map["x-real-ip" := a, "x-forwarded-for" := a]
  }

  /** The text of a request header that `to_str` may reject, with a fallback. */
  function TextOr(v: HeaderValue, fallback: string): string {
    match v
    case Visible(t) => t
    case Opaque => fallback
  }

  /** The incoming `host` header passed on, `unknown` when it is not text. */
  function HostHeader(req: Request): (h: UpstreamHeaders)
    ensures "host" !in req.headers ==> h == map[]
    ensures "host" in req.headers ==> h == map["host" := TextOr(req.headers["host"], "unknown")]
  {
    if "host" in req.headers then map["host" := TextOr(req.headers["host"], "unknown")] else map[]
  }

  /** Whether the client spoke HTTPS: the URI scheme or an incoming
      `x-forwarded-proto` says so. */
  predicate ClientUsedHttps(req: Request) {
    req.scheme == Some("https") || HeaderIs(req.headers, "x-forwarded-proto", "https")
  }

  /** The `X-Forwarded-Proto` sent upstream: always `https` for Zitadel, which sits
      behind the TLS front; else the client's scheme. */
  function ForwardedProto(s: ServiceType, req: Request): (p: string)
    ensures s == ZitadelAuth ==> p == "https"
    ensures s != ZitadelAuth ==> (p == "https" <==> ClientUsedHttps(req))
    ensures p == "https" || p == "http"
  {
    var upstreamProto := if s == ZitadelAuth then "http" else if ClientUsedHttps(req) then "https" else "http";
    if s == ZitadelAuth then "https" else upstreamProto
  }

  /** The Zitadel extras: the forwarded host (when a `host` header came) and the
      forwarded port matching the forwarded proto. */
  function ZitadelHeaders(req: Request, proto: string): (h: UpstreamHeaders)
    ensures "x-forwarded-port" in h && (h["x-forwarded-port"] == "443" <==> proto == "https")
    ensures "host" in req.headers ==>
              && "x-forwarded-host" in h
              && h["x-forwarded-host"] == TextOr(req.headers["host"], "auth.ad-quest.ru")
    ensures h.Keys <= {"x-forwarded-host", "x-forwarded-port"}
  {
    var port := if proto == "https" then "443" else "80";
    if "host" in req.headers then map["x-forwarded-host" := TextOr(req.headers["host"], "auth.ad-quest.ru"), "x-forwarded-port" := port]
    else map["x-forwarded-port" := port]
  }

  /** `Connection: upgrade` with the `Upgrade` value copied for a request that
      carries one, else `Connection: close`. */
  function ConnectionHeaders(req: Request): (h: UpstreamHeaders)
    ensures "upgrade" in req.headers ==> h == map["upgrade" := TextOr(req.headers["upgrade"], ""), "connection" := "upgrade"]
    ensures "upgrade" !in req.headers ==> h == map["connection" := "close"]
  {
    if "upgrade" in req.headers then map["upgrade" := TextOr(req.headers["upgrade"], ""), "connection" := "upgrade"]
    else map["connection" := "close"]
  }

  /** Every header name `upstream_request_filter` may set. */
  const ProxyHeaderNames: set<string> :=
    {"x-real-ip", "x-forwarded-for", "host", "x-forwarded-proto", "x-forwarded-host", "x-forwarded-port",
     "upgrade", "connection"}

  /** The per-service headers: nothing for Static; otherwise the forwarded proto,
      the Zitadel extras, and the connection handling. */
  function ServiceHeaders(s: ServiceType, req: Request): (h: UpstreamHeaders)
    ensures h.Keys <= ProxyHeaderNames && "x-real-ip" !in h && "x-forwarded-for" !in h
    ensures s != Static ==> "x-forwarded-proto" in h && "connection" in h
    ensures s == Static ==> h == map[]
    ensures s != ZitadelAuth && s != Static ==>
              h == map["x-forwarded-proto" := ForwardedProto(s, req)] + ConnectionHeaders(req)
    ensures s == ZitadelAuth ==>
              h == map["x-forwarded-proto" := "https"] + ZitadelHeaders(req, "https") + ConnectionHeaders(req)
  {
    if s == Static then map[]
    else
      var proto := ForwardedProto(s, req);
      var extras := if s == ZitadelAuth then ZitadelHeaders(req, proto) else map[];
      map["x-forwarded-proto" := proto] + extras + ConnectionHeaders(req)
  }

  /** `upstream_request_filter`: the request's headers with the address headers,
      the host, and the per-service headers set, later ones replacing earlier
      values of the same name. */
  function UpstreamRequestFilter(up: UpstreamHeaders, req: Request, ctx: RequestContext): (r: UpstreamHeaders)
    ensures r == up + AddressHeaders(req.clientAddr) + HostHeader(req) + ServiceHeaders(ctx.serviceType, req)
    ensures ctx.serviceType == Static ==> r == up + AddressHeaders(req.clientAddr) + HostHeader(req)
    ensures up.Keys <= r.Keys
    ensures forall k :: k in up && k !in ProxyHeaderNames ==> r[k] == up[k]
    ensures req.clientAddr.Some? ==> r["x-real-ip"] == req.clientAddr.value && r["x-forwarded-for"] == req.clientAddr.value
  {
    var withAddress := up + AddressHeaders(req.clientAddr);
    var withHost := withAddress + HostHeader(req);
    OverlayKeeps(up, AddressHeaders(req.clientAddr));
    OverlayKeeps(withAddress, HostHeader(req));
    OverlayKeeps(withHost, ServiceHeaders(ctx.serviceType, req));
    up + AddressHeaders(req.clientAddr) + HostHeader(req) + ServiceHeaders(ctx.serviceType, req)
  }

  /** Laying proxy headers over a header map keeps every name it had and the
      value of every name the proxy does not set. */
  lemma OverlayKeeps(base: UpstreamHeaders, extra: UpstreamHeaders)
    requires extra.Keys <= ProxyHeaderNames
    ensures base.Keys <= (base + extra).Keys
    ensures forall k :: k in base && k !in ProxyHeaderNames ==> (base + extra)[k] == base[k]
  {
  }

  /** What Zitadel receives: `X-Forwarded-Proto: https` and `X-Forwarded-Port: 443`
      whatever the client used, so the port-80 branch is never taken. */
  lemma ZitadelForwarding(up: UpstreamHeaders, req: Request, ctx: RequestContext)
    requires ctx.serviceType == ZitadelAuth
    ensures var r := UpstreamRequestFilter(up, req, ctx);
      && r["x-forwarded-proto"] == "https" && r["x-forwarded-port"] == "443"
  {
    ConnectionNames(req);
  }

  /** What other services receive: `X-Forwarded-Proto` is `https` exactly when the
      client used HTTPS, and `Connection` is `upgrade` exactly when the request
      asked for one. */
  lemma ServiceForwarding(up: UpstreamHeaders, req: Request, ctx: RequestContext)
    requires ctx.serviceType != ZitadelAuth && ctx.serviceType != Static
    ensures var r := UpstreamRequestFilter(up, req, ctx);
      && (r["x-forwarded-proto"] == "https" <==> ClientUsedHttps(req))
      && (r["connection"] == "upgrade" <==> "upgrade" in req.headers)
      && "x-forwarded-port" !in ServiceHeaders(ctx.serviceType, req)
  {
    ConnectionNames(req);
  }

  /** The connection headers touch only `upgrade` and `connection`. */
  lemma ConnectionNames(req: Request)
    ensures "x-forwarded-proto" !in ConnectionHeaders(req) && "x-forwarded-port" !in ConnectionHeaders(req)
    ensures "connection" in ConnectionHeaders(req)
    ensures ConnectionHeaders(req)["connection"] == "upgrade" || ConnectionHeaders(req)["connection"] == "close"
  {
  }

  /* ---------------- response_filter ---------------- */

  /** `response_filter`: security headers on every response; the CORS policy too,
      except for Zitadel, which sets its own. */
  function ResponseFilter(ctx: RequestContext, req: Request, resp: ResponseHeaders): (r: ResponseHeaders)
    ensures ctx.serviceType == ZitadelAuth ==> r == SecurityHeaders(resp)
    ensures ctx.serviceType != ZitadelAuth ==> r == CorsForRequest(SecurityHeaders(resp), req.headers)
  {
    var secured := SecurityHeaders(resp);
    if ctx.serviceType == ZitadelAuth then secured else CorsForRequest(secured, req.headers)
  }

  /** The proxy adds an allowed origin to every non-Zitadel response and never to a
      Zitadel one, and it keeps an upstream's own allowed origin. */
  lemma ResponseOrigin(ctx: RequestContext, req: Request, resp: ResponseHeaders)
    ensures var r := ResponseFilter(ctx, req, resp);
      && (ctx.serviceType != ZitadelAuth ==> AllowOriginName in r)
      && (ctx.serviceType == ZitadelAuth ==> (AllowOriginName in r <==> AllowOriginName in resp))
      && (AllowOriginName in resp ==> r[AllowOriginName] == resp[AllowOriginName])
  {
    OriginNotSecurity();
  }
}
