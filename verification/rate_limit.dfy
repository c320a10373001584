/** The per-client request-rate limiter of `src/rate_limit/mod.rs`. The global
    one-second `Rate` estimator is a map from client identifier to the number of
    requests observed in the current one-second interval; the rollover to a new
    interval is not part of this model. */
module RateLimit {
  import opened Wrappers
  import opened Text
  import opened Http

  /** `RateLimitConfig`; the limits are `isize`, so they may be negative. */
  datatype RateLimitConfig = RateLimitConfig(
    maxRequestsPerSecond: int,
    whitelist: seq<string>,
    perApiKeyLimits: map<string, int>,
    enabled: bool)

  /** `RateLimitConfig::default` (and `new`). */
  function DefaultRateLimit(): (c: RateLimitConfig)
    ensures c.maxRequestsPerSecond == 100 && c.enabled
    ensures c.whitelist == [] && c.perApiKeyLimits == map[]
  {
    RateLimitConfig(100, [], map[], true)
  }

  /** `with_limit`: the defaults with another per-second limit. */
  function WithLimit(limit: int): (c: RateLimitConfig)
    ensures c.maxRequestsPerSecond == limit
    ensures c.(maxRequestsPerSecond := DefaultRateLimit().maxRequestsPerSecond) == DefaultRateLimit()
  {
    DefaultRateLimit().(maxRequestsPerSecond := limit)
  }

  /** `add_to_whitelist`: the address is appended; nothing else changes. */
  function AddToWhitelist(c: RateLimitConfig, ip: string): (r: RateLimitConfig)
    ensures ip in r.whitelist
    ensures |r.whitelist| == |c.whitelist| + 1 && r.whitelist[..|c.whitelist|] == c.whitelist
    ensures r.(whitelist := c.whitelist) == c
  {
    c.(whitelist := c.whitelist + [ip])
  }

  /** `set_api_key_limit`: the key's limit is set, replacing an earlier one; the other
      keys keep theirs. */
  function SetApiKeyLimit(c: RateLimitConfig, key: string, limit: int): (r: RateLimitConfig)
    ensures key in r.perApiKeyLimits && r.perApiKeyLimits[key] == limit
    ensures r.perApiKeyLimits.Keys == c.perApiKeyLimits.Keys + {key}
    ensures forall k :: k in c.perApiKeyLimits && k != key ==> r.perApiKeyLimits[k] == c.perApiKeyLimits[k]
    ensures r.(perApiKeyLimits := c.perApiKeyLimits) == c
  {
    c.(perApiKeyLimits := c.perApiKeyLimits[key := limit])
  }

  /* ---------------- client addresses ---------------- */

  /** A client socket address. `ip` is the address text as `Display` prints it:
      dotted quad for V4, colon-separated groups for V6. */
  datatype SocketAddr = V4(ip: string, port: nat) | V6(ip: string, port: nat)

  /** What a socket address printed by `Display` looks like: a V4 address has no
      colon, a V6 address has at least one and no bracket. */
  predicate WellFormed(a: SocketAddr) {
    && |a.ip| > 0
    && a.port <= U16Max
    && '[' !in a.ip
    && (a.V4? ==> ':' !in a.ip)
    && (a.V6? ==> ':' in a.ip && ']' !in a.ip)
  }

  /** `SocketAddr::to_string`: `ip:port`, or `[ip]:port` for V6. */
  function RenderSocketAddr(a: SocketAddr): string {
    match a
    case V4(ip, port) => ip + ":" + NatToString(port)
    case V6(ip, port) => "[" + ip + "]:" + NatToString(port)
  }

  /** The address part as the source takes it, `addr_str.split(':').next()`:
      everything before the first colon. */
  function ClientIpAsWritten(addr: string): (ip: string)
    ensures StartsWith(addr, ip) && ':' !in ip
  {
    PrefixBefore(addr, ':')
  }

  /** For a V6 client the text before the first colon is `[` followed by the first
      group of the address, which is never the address. */
  lemma ClientIpAsWrittenV6(a: SocketAddr)
    requires WellFormed(a) && a.V6?
    ensures ClientIpAsWritten(RenderSocketAddr(a)) == "[" + PrefixBefore(a.ip, ':')
    ensures ClientIpAsWritten(RenderSocketAddr(a)) != a.ip
  {
    var rest := "]:" + NatToString(a.port);
    assert RenderSocketAddr(a) == ['['] + (a.ip + rest);
    assert (['['] + (a.ip + rest))[1..] == a.ip + rest;
    PrefixBeforeWhole(a.ip, ':');
    PrefixBeforeAppend(a.ip, rest, ':');
  }

  /** Two different V6 clients of the same first group, `2001:db8::1` and
      `2001:db8::2`, get the same identifier `[2001`, whatever their ports. */
  lemma ClientIpAsWrittenSharesV6(p1: nat, p2: nat)
    requires p1 <= U16Max && p2 <= U16Max
    ensures ClientIpAsWritten(RenderSocketAddr(V6("2001:db8::1", p1))) == "[2001"
    ensures ClientIpAsWritten(RenderSocketAddr(V6("2001:db8::2", p2))) == "[2001"
  {
    assert ClientIpAsWritten(RenderSocketAddr(V6("2001:db8::1", p1))) == "[2001" by {
      SpelledOut("2001", ":db8::1", "2001:db8::1");
      SameFirstGroup("2001", ":db8::1", p1);
    }
    assert ClientIpAsWritten(RenderSocketAddr(V6("2001:db8::2", p2))) == "[2001" by {
      SpelledOut("2001", ":db8::2", "2001:db8::2");
      SameFirstGroup("2001", ":db8::2", p2);
    }
  }

  /** Literal bookkeeping for the example addresses. */
  lemma SpelledOut(g: string, tail: string, ip: string)
    requires (g, tail, ip) in {("2001", ":db8::1", "2001:db8::1"), ("2001", ":db8::2", "2001:db8::2")}
    ensures g + tail == ip && "[" + g == "[2001"
  {
  }

  lemma SameFirstGroup(g: string, tail: string, p: nat)
    requires |g| > 0 && ':' !in g && '[' !in g && ']' !in g && ']' !in tail && '[' !in tail
    requires |tail| > 0 && tail[0] == ':' && p <= U16Max
    ensures ClientIpAsWritten(RenderSocketAddr(V6(g + tail, p))) == "[" + g
  {
    assert (g + tail)[|g|] == ':';
    ClientIpAsWrittenV6(V6(g + tail, p));
    FirstGroup(g, tail);
  }

  lemma FirstGroup(g: string, tail: string)
    requires ':' !in g && |tail| > 0 && tail[0] == ':'
    ensures PrefixBefore(g + tail, ':') == g
  {
    PrefixBeforeFirst(g, tail, ':');
  }

  /** The text before the first `c` of `a + b`, when `c` occurs in `a`, is the text
      before the first `c` of `a`. */
  lemma {:induction false} PrefixBeforeAppend(a: string, b: string, c: char)
    requires c in a
    ensures PrefixBefore(a + b, c) == PrefixBefore(a, c)
    decreases |a|
  {
    assert |a| > 0;
    if a[0] != c {
      assert (a + b)[1..] == a[1..] + b;
      assert c in a[1..] by {
        var k :| 0 <= k < |a| && a[k] == c;
        assert a[1..][k - 1] == c;
      }
      PrefixBeforeAppend(a[1..], b, c);
    }
  }

  /** The client address as evidently intended: the text inside the brackets for
      `[v6]:port`, else the text before the first colon. */
  function ClientIp(addr: string): (ip: string)
    ensures |addr| > 0 && addr[0] == '[' ==> ']' !in ip
    ensures !(|addr| > 0 && addr[0] == '[') ==> ip == ClientIpAsWritten(addr)
  {
    if |addr| > 0 && addr[0] == '[' then PrefixBefore(addr[1..], ']') else PrefixBefore(addr, ':')
  }

  /** The corrected address recovers the address of every printed socket address. */
  lemma ClientIpOfRendered(a: SocketAddr)
    requires WellFormed(a)
    ensures ClientIp(RenderSocketAddr(a)) == a.ip
  {
    var port := NatToString(a.port);
    if a.V4? {
      assert RenderSocketAddr(a) == a.ip + (":" + port);
      PrefixBeforeFirst(a.ip, ":" + port, ':');
    } else {
      assert RenderSocketAddr(a) == ['['] + (a.ip + ("]:" + port));
      assert (['['] + (a.ip + ("]:" + port)))[1..] == a.ip + ("]:" + port);
      PrefixBeforeFirst(a.ip, "]:" + port, ']');
    }
  }

  /** For V4 clients the source's split and the corrected one agree. */
  lemma ClientIpAgreesV4(a: SocketAddr)
    requires WellFormed(a) && a.V4?
    ensures ClientIpAsWritten(RenderSocketAddr(a)) == ClientIp(RenderSocketAddr(a)) == a.ip
  {
    ClientIpOfRendered(a);
    assert RenderSocketAddr(a)[0] == a.ip[0];
  }

  /* ---------------- the client identifier ---------------- */

  const ApiKeyPrefix: string := "api_key:"

  /** `get_client_identifier` as written: `api_key:<key>` when the `x-api-key`
      header is text, else the address part before the first colon, else
      `unknown`. */
  function ClientIdentifierAsWritten(headers: Headers, clientAddr: Option<string>): (id: string)
    ensures HeaderText(headers, "x-api-key").Some? ==> id == ApiKeyPrefix + HeaderText(headers, "x-api-key").value
    ensures HeaderText(headers, "x-api-key").None? && clientAddr.Some? ==> id == ClientIpAsWritten(clientAddr.value)
    ensures HeaderText(headers, "x-api-key").None? && clientAddr.None? ==> id == "unknown"
  {
    match HeaderText(headers, "x-api-key")
    case Some(key) => ApiKeyPrefix + key
    case None =>
      match clientAddr
      case Some(a) => ClientIpAsWritten(a)
      case None => "unknown"
  }

  /** Hence every V6 client without an API key that shares a first group shares one
      rate-limit bucket. */
  lemma SharedV6Bucket(headers: Headers, a: SocketAddr, b: SocketAddr)
    requires HeaderText(headers, "x-api-key").None?
    requires WellFormed(a) && WellFormed(b) && a.V6? && b.V6?
    requires PrefixBefore(a.ip, ':') == PrefixBefore(b.ip, ':')
    ensures ClientIdentifierAsWritten(headers, Some(RenderSocketAddr(a)))
         == ClientIdentifierAsWritten(headers, Some(RenderSocketAddr(b)))
  {
    ClientIpAsWrittenV6(a);
    ClientIpAsWrittenV6(b);
  }

  /** `get_client_identifier` with the corrected address split. */
  function ClientIdentifier(headers: Headers, clientAddr: Option<string>): (id: string)
    ensures HeaderText(headers, "x-api-key").Some? ==> id == ApiKeyPrefix + HeaderText(headers, "x-api-key").value
    ensures HeaderText(headers, "x-api-key").None? && clientAddr.Some? ==> id == ClientIp(clientAddr.value)
    ensures HeaderText(headers, "x-api-key").None? && clientAddr.None? ==> id == "unknown"
  {
    match HeaderText(headers, "x-api-key")
    case Some(key) => ApiKeyPrefix + key
    case None =>
      match clientAddr
      case Some(a) => ClientIp(a)
      case None => "unknown"
  }

  /** Without an API key, distinct printed client addresses get distinct
      identifiers, and each identifier is the client's address. */
  lemma ClientIdentifierSeparatesClients(headers: Headers, a: SocketAddr, b: SocketAddr)
    requires HeaderText(headers, "x-api-key").None?
    requires WellFormed(a) && WellFormed(b)
    ensures ClientIdentifier(headers, Some(RenderSocketAddr(a))) == a.ip
    ensures a.ip != b.ip ==>
              ClientIdentifier(headers, Some(RenderSocketAddr(a))) != ClientIdentifier(headers, Some(RenderSocketAddr(b)))
  {
    ClientIpOfRendered(a);
    ClientIpOfRendered(b);
  }

  /* ---------------- the decision ---------------- */

  /** Requests observed per client identifier in the current one-second interval. */
  type Window = map<string, nat>

  function Count(w: Window, id: string): nat {
    if id in w then w[id] else 0
  }

  /** The limit that applies to an identifier: the key's own limit for an API-key
      identifier that has one, else the default. */
  function LimitFor(c: RateLimitConfig, id: string): (limit: int)
    ensures StartsWith(id, ApiKeyPrefix) && id[|ApiKeyPrefix|..] in c.perApiKeyLimits ==>
              limit == c.perApiKeyLimits[id[|ApiKeyPrefix|..]]
    ensures !(StartsWith(id, ApiKeyPrefix) && id[|ApiKeyPrefix|..] in c.perApiKeyLimits) ==>
              limit == c.maxRequestsPerSecond
  {
    if StartsWith(id, ApiKeyPrefix) then
      var key := id[|ApiKeyPrefix|..];
      if key in c.perApiKeyLimits then c.perApiKeyLimits[key] else c.maxRequestsPerSecond
    else c.maxRequestsPerSecond
  }

  /** A request carrying an API key is limited by that key's limit, or the default. */
  lemma ApiKeyLimit(c: RateLimitConfig, headers: Headers, clientAddr: Option<string>, key: string)
    requires HeaderText(headers, "x-api-key") == Some(key)
    ensures key in c.perApiKeyLimits ==> LimitFor(c, ClientIdentifierAsWritten(headers, clientAddr)) == c.perApiKeyLimits[key]
    ensures key !in c.perApiKeyLimits ==> LimitFor(c, ClientIdentifierAsWritten(headers, clientAddr)) == c.maxRequestsPerSecond
  {
    var id := ApiKeyPrefix + key;
    assert id[..|ApiKeyPrefix|] == ApiKeyPrefix;
    assert id[|ApiKeyPrefix|..] == key;
  }

  /** The body of the 429 answer. */
  const TooManyBody: string := "{\"error\":\"Too Many Requests\",\"message\":\"Rate limit exceeded\"}"

  /** The 429 answer for a client whose limit is `limit`. */
  function TooManyRequests(limit: int): (r: Reply)
    ensures r.status == 429 && r.body == TooManyBody
    ensures r.headers.Keys == {"x-rate-limit-limit", "x-rate-limit-remaining", "x-rate-limit-reset",
                               "retry-after", "content-type", "access-control-allow-origin", "content-length"}
    ensures r.headers["x-rate-limit-limit"] == IntToString(limit)
    ensures r.headers["x-rate-limit-remaining"] == "0"
    ensures r.headers["x-rate-limit-reset"] == "1" && r.headers["retry-after"] == "1"
    ensures r.headers["content-type"] == "application/json"
    ensures r.headers["access-control-allow-origin"] == "*"
    ensures ParseUnsigned(r.headers["content-length"], U32Max) == Some(|r.body|)
  {
    ParseNatToString(|TooManyBody|, U32Max);
    Reply(429, map[
      "x-rate-limit-limit" := IntToString(limit),
      "x-rate-limit-remaining" := "0",
      "x-rate-limit-reset" := "1",
      "retry-after" := "1",
      "content-type" := "application/json",
      "access-control-allow-origin" := "*",
      "content-length" := NatToString(|TooManyBody|)], TooManyBody)
  }

  /** The outcome of `check_rate_limit`: the answer written when the request is
      refused, and the window after it. */
  datatype RateCheck = RateCheck(refusal: Option<Reply>, window: Window)

  /** `check_rate_limit` for a client identifier. The request is counted before the
      comparison, so a refused request still counts. */
  function Decide(c: RateLimitConfig, id: string, w: Window): (r: RateCheck)
    ensures !c.enabled || id in c.whitelist ==> r == RateCheck(None, w)
    ensures c.enabled && id !in c.whitelist ==>
              && r.window == w[id := Count(w, id) + 1]
              && (r.refusal.Some? <==> Count(w, id) + 1 > LimitFor(c, id))
              && (r.refusal.Some? ==> r.refusal.value == TooManyRequests(LimitFor(c, id)))
  {
    if !c.enabled then RateCheck(None, w)
    else if id in c.whitelist then RateCheck(None, w)
    else
      var current := Count(w, id) + 1;
      var limit := LimitFor(c, id);
      var w' := w[id := current];
      if current > limit then RateCheck(Some(TooManyRequests(limit)), w') else RateCheck(None, w')
  }

  /** `check_rate_limit` for a request's headers and client address, keyed by the
      identifier as written. */
  function CheckRateLimit(c: RateLimitConfig, headers: Headers, clientAddr: Option<string>, w: Window): (r: RateCheck)
    ensures r == Decide(c, ClientIdentifierAsWritten(headers, clientAddr), w)
    ensures forall id :: id in w && id != ClientIdentifierAsWritten(headers, clientAddr) ==> id in r.window && r.window[id] == w[id]
  {
    Decide(c, ClientIdentifierAsWritten(headers, clientAddr), w)
  }

  /** `check_rate_limit` keyed by the corrected identifier. */
  function CheckRateLimitCorrected(c: RateLimitConfig, headers: Headers, clientAddr: Option<string>, w: Window): (r: RateCheck)
    ensures r == Decide(c, ClientIdentifier(headers, clientAddr), w)
    ensures forall id :: id in w && id != ClientIdentifier(headers, clientAddr) ==> id in r.window && r.window[id] == w[id]
  {
    Decide(c, ClientIdentifier(headers, clientAddr), w)
  }

  /** The two checks decide alike for a request with an API key, with no client
      address, or from a V4 client. */
  lemma CheckRateLimitAgrees(c: RateLimitConfig, headers: Headers, clientAddr: Option<string>, w: Window, a: SocketAddr)
    requires HeaderText(headers, "x-api-key").Some? || clientAddr.None?
             || (clientAddr == Some(RenderSocketAddr(a)) && WellFormed(a) && a.V4?)
    ensures CheckRateLimit(c, headers, clientAddr, w) == CheckRateLimitCorrected(c, headers, clientAddr, w)
  {
    if HeaderText(headers, "x-api-key").None? && clientAddr.Some? {
      ClientIpAgreesV4(a);
    }
  }

  /** As written, with a limit of one request per second, a V6 client is refused
      because another V6 client of the same first group came first. */
  lemma V6NeighbourRefusedAsWritten(c: RateLimitConfig, headers: Headers, p1: nat, p2: nat)
    requires c.enabled && c.maxRequestsPerSecond == 1 && c.whitelist == []
    requires HeaderText(headers, "x-api-key").None? && p1 <= U16Max && p2 <= U16Max
    ensures var first := CheckRateLimit(c, headers, Some(RenderSocketAddr(V6("2001:db8::1", p1))), map[]);
      && first.refusal.None?
      && CheckRateLimit(c, headers, Some(RenderSocketAddr(V6("2001:db8::2", p2))), first.window).refusal.Some?
  {
    ClientIpAsWrittenSharesV6(p1, p2);
    NotApiKey("[2001");
  }

  /** With the corrected identifier the second client has its own count, and both
      requests are admitted. */
  lemma V6NeighbourAdmitted(c: RateLimitConfig, headers: Headers, p1: nat, p2: nat)
    requires c.enabled && c.maxRequestsPerSecond == 1 && c.whitelist == []
    requires HeaderText(headers, "x-api-key").None? && p1 <= U16Max && p2 <= U16Max
    ensures var first := CheckRateLimitCorrected(c, headers, Some(RenderSocketAddr(V6("2001:db8::1", p1))), map[]);
      && first.refusal.None?
      && CheckRateLimitCorrected(c, headers, Some(RenderSocketAddr(V6("2001:db8::2", p2))), first.window).refusal.None?
  {
    var a, b := V6("2001:db8::1", p1), V6("2001:db8::2", p2);
    ExampleV6WellFormed(a);
    ExampleV6WellFormed(b);
    ClientIdentifierSeparatesClients(headers, a, b);
    NotApiKey(a.ip);
    NotApiKey(b.ip);
  }

  lemma ExampleV6WellFormed(a: SocketAddr)
    requires a.V6? && a.ip in {"2001:db8::1", "2001:db8::2"} && a.port <= U16Max
    ensures WellFormed(a)
  {
    assert a.ip[4] == ':';
  }

  /** An identifier that starts with `[` or a digit is never an API-key
      identifier. */
  lemma NotApiKey(id: string)
    requires |id| > 0 && (id[0] == '[' || id[0] == '2')
    ensures !StartsWith(id, ApiKeyPrefix)
  {
  }

  /** The outcomes of `n` requests from one client within one interval, in order,
      and the window after them. */
  datatype Burst = Burst(refused: seq<bool>, window: Window)

  function RunBurst(c: RateLimitConfig, id: string, w: Window, n: nat): Burst
    decreases n
  {
    if n == 0 then Burst([], w)
    else
      var b := RunBurst(c, id, w, n - 1);
      var r := Decide(c, id, b.window);
      Burst(b.refused + [r.refusal.Some?], r.window)
  }

  /** Within one interval the requests of a counted client are admitted up to its
      limit (counting what the window already held) and every later one is
      refused. */
  lemma {:induction false} BurstRefusesBeyondLimit(c: RateLimitConfig, id: string, w: Window, n: nat)
    requires c.enabled && id !in c.whitelist
    ensures |RunBurst(c, id, w, n).refused| == n
    ensures Count(RunBurst(c, id, w, n).window, id) == Count(w, id) + n
    ensures forall k :: 0 <= k < n ==>
              (RunBurst(c, id, w, n).refused[k] <==> Count(w, id) + k + 1 > LimitFor(c, id))
    decreases n
  {
    if n > 0 {
      BurstRefusesBeyondLimit(c, id, w, n - 1);
      var b := RunBurst(c, id, w, n - 1);
      var r := Decide(c, id, b.window);
      var refused := b.refused + [r.refusal.Some?];
      assert RunBurst(c, id, w, n) == Burst(refused, r.window);
      assert Count(r.window, id) == Count(b.window, id) + 1;
      forall k | 0 <= k < n
        ensures refused[k] <==> Count(w, id) + k + 1 > LimitFor(c, id)
      {
        if k < n - 1 {
          assert refused[k] == b.refused[k];
        }
      }
    }
  }

  /** A whitelisted or disabled client is never refused and never counted. */
  lemma {:induction false} BurstExempt(c: RateLimitConfig, id: string, w: Window, n: nat)
    requires !c.enabled || id in c.whitelist
    ensures RunBurst(c, id, w, n).window == w
    ensures forall k :: 0 <= k < |RunBurst(c, id, w, n).refused| ==> !RunBurst(c, id, w, n).refused[k]
    ensures |RunBurst(c, id, w, n).refused| == n
    decreases n
  {
    if n > 0 {
      BurstExempt(c, id, w, n - 1);
    }
  }
}
