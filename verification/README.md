# adq-pingora gateway core in Dafny

This project models the decision logic of the adq-pingora reverse proxy, a gateway written in Rust on top of Pingora.

- **Configuration.** The proxy reads nginx-style site files (`server`, `location` and `upstream` blocks). It selects a server by host and a location by exact match or by longest `/`-terminated prefix.
- **Routing.** A hard-coded routing table sends each host/path pair to one of seven services.
- **Request filter.** An IP admission filter runs first, then a per-location rate limit, then the CORS preflight, then routing, then the static-page answer. The request path is modelled as the code is written: the client address is cut at its first `:` and the location lookup never lets `location /` win by prefix (see Findings). A corrected pipeline stands beside it, with a lemma saying where the two agree.
- **Proxying.** The model covers retries with exponential backoff, peer choice, forwarded-header rules, and CORS and security response headers.

Next to the request path, the model covers:

- the per-upstream circuit breaker;
- the cache policy (key, TTL rules, cacheability gate);
- SNI certificate selection;
- configuration defaults and delegation;
- the `-t` configuration test;
- listener-port de-duplication and load-balancer choice at start-up.

Everything is written as pure functions over immutable data. Stateful components are explicit state-transition functions:

- the circuit breaker and the connection counters are maps;
- the rate counter is a per-identifier window count;
- time is a `now: nat` parameter in seconds.

Things outside the program become parameters:

- IP address parsing is a function `string -> Option<Ip>` over an opaque type `Ip`;
- file contents and file existence are parameters;
- the directory listing order is a parameter;
- TLS file loading is a parameter.

Layout: one module per source file.

- `wrappers.dfy`: `Option`.
- `text.dfy`: the Rust `str` operations the code relies on (`trim`, `lines`, `split_whitespace`, `split(':').next()`, `parse::<uN>`, `join`, `contains`).
- `http.dfy`: the request record and header values.
- `regex_shapes.dfy`: the fixed regular expressions of the parser.
- `nginx_parser.dfy` and `nginx_lookup.dfy`: `src/config/nginx_parser.rs`.
- `types.dfy`, `routing.dfy`, `circuit_breaker.dfy`, `rate_limit.dfy`, `ip_filter.dfy`, `cache.dfy`, `ssl.dfy`, `cors.dfy` and `proxy.dfy`: the source files of the same name.
- `config.dfy`: `src/config/mod.rs`.
- `startup.dfy`: `src/main.rs`.

## Model

| member | source | states |
|---|---|---|
| NginxParser.CleanLine | src/config/nginx_parser.rs:126-133 | A kept line is trimmed and holds no `#`; a line without `#` is just trimmed. |
| NginxParser.CleanLinesClean | src/config/nginx_parser.rs:126-133 | Every line that survives comment stripping is non-empty, trimmed and free of `#`. |
| NginxParser.CleanLinesAppend | src/config/nginx_parser.rs:126-133 | Comment stripping works line by line: it distributes over concatenation, so input order is kept. |
| NginxParser.RemoveComments | src/config/nginx_parser.rs:126-133 | The lines of the output are exactly the cleaned non-empty input lines, in order. |
| NginxParser.RemoveCommentsIdempotent | src/config/nginx_parser.rs:126-133 | Stripping comments twice gives the same text as stripping them once. |
| NginxParser.ParseListenAsWritten | src/config/nginx_parser.rs:196-205 | The source indexes `parts[0]` unguarded: it panics exactly when the `listen` value has no whitespace token. |
| NginxParser.ParseListen | src/config/nginx_parser.rs:144-151 | A listen value yields a port only if its first token parses as a u16; an unparseable or blank value drops only that directive. |
| NginxParser.ListenAsWrittenAgrees | src/config/nginx_parser.rs:196-205 | Whenever the source does not panic, it yields the same directive as the guarded parser. |
| NginxParser.BlankListenPanics | src/config/nginx_parser.rs:144-151 | `listen  ;` is captured with the value `" "`, on which the source panics and the guarded parser yields nothing. |
| NginxParser.ListenRoundTrip | src/config/nginx_parser.rs:196-205 | Rendering a listen directive (port, then `ssl` and `http2` when set) and parsing it back gives the same port and flags. |
| NginxParser.ListenPortsRendered | src/config/nginx_parser.rs:144-151 | A `listen v;` directive contributes ParseListen(v) ahead of the directives that follow it. |
| NginxParser.ServerNamesRendered | src/config/nginx_parser.rs:154-162 | `server_name` yields exactly the whitespace tokens of the first such directive. |
| NginxParser.SslCertificateRendered | src/config/nginx_parser.rs:165-173 | `ssl_certificate` and `ssl_certificate_key` each take the value of their first occurrence. |
| NginxParser.CertificateKeyIsNotCertificate | src/config/nginx_parser.rs:165-168 | The `ssl_certificate` pattern never matches an `ssl_certificate_key` line, because the keyword must be followed by whitespace. |
| NginxParser.ParseLocation | src/config/nginx_parser.rs:208-241 | The location keeps its path; `cors_enable` holds iff the body contains that substring; `proxy_pass` is a non-empty value without `;`. |
| NginxParser.ProxyPassRendered | src/config/nginx_parser.rs:214-217 | The first `proxy_pass` directive of the body is the location's upstream. |
| NginxParser.RateLimitRendered | src/config/nginx_parser.rs:220-230 | `rate_limit a b;` sets the rate limit to (a, b) exactly when both numbers fit in a u32, and to none otherwise. |
| NginxParser.ParseServerBlock | src/config/nginx_parser.rs:136-193 | One location per `location` block, in order; every listen port fits in a u16. |
| NginxParser.UpstreamServerAsWritten | src/config/nginx_parser.rs:244-262 | The source panics exactly on a blank `server` value; otherwise the address is the first token and the weight is 1. |
| NginxParser.UpstreamServerOf | src/config/nginx_parser.rs:251-252 | The guarded upstream entry has weight 1 and a non-empty, space-free address, and is absent exactly for a blank value. |
| NginxParser.BlankUpstreamServerPanics | src/config/nginx_parser.rs:251 | `server  ;` inside an upstream is captured as `" "`, on which the source panics and the guarded parser skips the entry. |
| NginxParser.UpstreamServerAsWrittenAgrees | src/config/nginx_parser.rs:244-262 | Whenever the source does not panic, it yields the same entry as the guarded parser. |
| NginxParser.ParseUpstream | src/config/nginx_parser.rs:244-262 | The upstream keeps its name, and every server it lists has weight 1. |
| NginxParser.UpstreamRoundTrip | src/config/nginx_parser.rs:244-262 | For a body of `server a;` lines, parsing yields one server per line, in order, each with weight 1. |
| NginxParser.InsertUpstreams | src/config/nginx_parser.rs:110-120 | The upstream map gains exactly the captured names. |
| NginxParser.InsertUpstreamsLastWins | src/config/nginx_parser.rs:110-120 | When one content string repeats an upstream name, the last block with that name is the one kept. |
| NginxParser.UpstreamsByName | src/config/nginx_parser.rs:110-120 | The parsed upstream names are exactly the captured block names, and each maps to the last block with that name. |
| NginxParser.ParseConfigContent | src/config/nginx_parser.rs:91-123 | After comment removal: one server per `server { … }` block, and upstream names equal to the captured `upstream` names. |
| NginxParser.Contribution | src/config/nginx_parser.rs:67-77 | A directory entry contributes a parse result iff it is a readable config file; other entries contribute nothing. |
| NginxParser.MergeServers | src/config/nginx_parser.rs:71-72 | The merged server list is the concatenation, file by file, of each file's servers. |
| NginxParser.MergeSkipsSilent | src/config/nginx_parser.rs:67-77 | A file that contributes nothing leaves the merge unchanged. |
| NginxParser.MergeLaterUpstreamWins | src/config/nginx_parser.rs:71-72 | An upstream defined in a later file replaces an earlier one of the same name, unless a still later file redefines it. |
| NginxParser.MergeEntries | src/config/nginx_parser.rs:57-82 | The merge fails iff some directory entry cannot be read; otherwise servers are concatenated and each upstream comes from the last file defining it. |
| NginxParser.LoadFromSitesEnabled | src/config/nginx_parser.rs:57-82 | A missing directory or an unreadable entry is an error; otherwise the result is the file-by-file merge. |
| NginxLookup.FindServer | src/config/nginx_parser.rs:265-271 | The result is the first server, in declaration order, whose names contain the host truncated at the first `:`; none if there is no such server. |
| NginxLookup.FindServerIgnoresPort | src/config/nginx_parser.rs:265-271 | `host:port` selects the same server as `host`. |
| NginxLookup.FirstExact | src/config/nginx_parser.rs:276-280 | The result is the first location whose path equals the request path. |
| NginxLookup.FindLocationAsWrittenSpec | src/config/nginx_parser.rs:274-297 | As written: an exact match wins; otherwise the result is the earliest location with the longest non-empty trimmed prefix; none if every candidate prefix is empty. |
| NginxLookup.RootOnlyExactAsWritten | src/config/nginx_parser.rs:283-293 | As written, `location /` is returned only for the path `/` itself. |
| NginxLookup.RootLocationMissedAsWritten | src/config/nginx_parser.rs:283-293 | With only `location /`, the path `/x` finds no location as written. |
| NginxLookup.FindLocationSpec | src/config/nginx_parser.rs:274-297 | Corrected: an exact match wins; otherwise the result is the earliest longest `/`-terminated prefix, with `/` counted as a prefix of length 0; none iff there is neither. |
| NginxLookup.RootCatchesAll | src/config/nginx_parser.rs:283-293 | Corrected: with a `location /`, every absolute path finds some location. |
| NginxLookup.FindLocationAgrees | src/config/nginx_parser.rs:274-297 | The source and the corrected lookup agree whenever the corrected answer is an exact match or has a non-empty prefix; they differ only where `/` wins by prefix. |
| NginxLookup.LongestUnique | src/config/nginx_parser.rs:283-296 | The earliest longest candidate is unique. |
| NginxLookup.GetUpstream | src/config/nginx_parser.rs:300-302 | An upstream is found iff its name is a key of the map, and it is that entry. |
| Types.AllServicesComplete | src/types.rs:3-11 | There are exactly seven distinct service types. |
| Types.NewContext | src/types.rs:26-41 | A new (or default) context is Static, with port 0, no retries and an empty upstream host. |
| Routing.RouteTo | src/routing.rs:67-136 | Routing to a service sets its fixed port (8080–8083, 8091); CoreApi and Static keep the previous port. |
| Routing.RouteRequest | src/routing.rs:30-64 | Routing is total; it changes only service and port, and each routed port is the service's own. |
| Routing.FirstRule | src/routing.rs:67-136 | A rule table yields the service of a matching rule, or the fallback. |
| Routing.ApiDomainIsRuleList | src/routing.rs:67-98 | `api.ad-quest.ru` routing is first-match over its table: logs/analytics/v1-health or `/health` → Shared, then challenge, billing, erir, shared/tbank, and otherwise CoreApi. |
| Routing.FallbackIsRuleList | src/routing.rs:102-137 | The fallback table is first-match: `/api/challenge`, `/api/billing`, `/api/erir`, `/api/shared`/`/api/tbank`, then `/api/` → CoreApi, and otherwise Static. |
| Routing.LocalApiNeverZitadel | src/routing.rs:34-38 | localhost or 127.0.0.1 with a `/api/` path uses the fallback table, even on :8091, and so never reaches Zitadel. |
| Routing.ZitadelHosts | src/routing.rs:40-45 | `auth.ad-quest.ru`, or localhost whose host contains `:8085`/`:8091`, routes to Zitadel on port 8091. |
| Routing.LocalNonApi | src/routing.rs:47-56 | Other local paths go to Zitadel iff they start with `/ui/`, `/.well-known/` or `/oauth/`, and are Static otherwise. |
| Routing.UnknownHostFallback | src/routing.rs:30-63 | Any host whose name (port stripped) is not local, `auth.ad-quest.ru` or `api.ad-quest.ru` uses the fallback table, which is Static exactly off `/api/`; a port such as `example.com:8080` does not change that. |
| Routing.FallbackStatic | src/routing.rs:102-137 | The fallback table answers Static iff the path does not start with `/api/`. |
| Routing.HandleHttpsRedirect | src/routing.rs:6-27 | The redirect hook never redirects. |
| Config.DefaultConfig | src/config/mod.rs:151-208 | Defaults: cache off with TTL 300 and no rules; IP filter off with no lists; circuit breaker off with 5/30/3; no nginx config. |
| Config.SavedCopy | src/config/mod.rs:140-148 | The saved copy differs from the original only in dropping the nginx config. |
| Config.LoadFromFile | src/config/mod.rs:124-132 | Loading succeeds iff the YAML parses and the sites directory is readable; the nginx config is then the merge of the site files. |
| Config.FindServer | src/config/mod.rs:211-213 | No server without an nginx config; otherwise the parser's server lookup. |
| Config.FindLocation | src/config/mod.rs:216-218 | No location without an nginx config; otherwise the parser's lookup as written (src/config/nginx_parser.rs:272-298): the found location's path equals the request path, or its trimmed prefix is non-empty and prefixes the path. |
| Config.FindLocationCorrected | src/config/nginx_parser.rs:272-298 | Corrected partner: no location without an nginx config; otherwise the lookup in which `location /` is the catch-all. |
| Config.FindLocationCorrectedAgrees | src/config/nginx_parser.rs:283-293 | The as-written and corrected lookups return the same location unless the corrected one falls back on an empty-prefix location for a path other than its own. |
| Config.GetUpstream | src/config/mod.rs:221-223 | An upstream is found iff the nginx config exists and names it. |
| Config.AllUpstreams | src/config/mod.rs:226-232 | Empty without an nginx config; otherwise the same names, each agreeing with GetUpstream. |
| CircuitBreaker.CanExecute | src/circuit_breaker/mod.rs:53-89 | Disabled or Closed/HalfOpen: allowed with no change. Open: allowed iff the deadline is set and reached, moving to HalfOpen with success count 0; refused otherwise with no change. |
| CircuitBreaker.RecordSuccess | src/circuit_breaker/mod.rs:92-126 | Disabled: no change; otherwise only the named entry moves, by one success step. |
| CircuitBreaker.RecordFailure | src/circuit_breaker/mod.rs:129-169 | Disabled: no change; otherwise only the named entry moves, by one failure step. |
| CircuitBreaker.GetState | src/circuit_breaker/mod.rs:172-181 | Closed when disabled or unknown; otherwise the entry's state. |
| CircuitBreaker.AllStats | src/circuit_breaker/mod.rs:184-191 | One (state, failures, successes) triple per known upstream. |
| CircuitBreaker.Reset | src/circuit_breaker/mod.rs:194-204 | Only an existing entry is reset to the Closed baseline; other entries and the key set are unchanged. |
| CircuitBreaker.ForceOpen | src/circuit_breaker/mod.rs:207-214 | The entry is created if missing and set Open with deadline now + timeout; its counters are kept. |
| CircuitBreaker.OperationsKeepConsistent | src/circuit_breaker/mod.rs:142-167 | Every operation keeps the invariant "Open implies a deadline is set", so the missing-deadline branch is unreachable. |
| CircuitBreaker.OpenRefusedUntilDeadline | src/circuit_breaker/mod.rs:68-83 | With the invariant, an Open circuit has a deadline and admits exactly from that deadline on. |
| CircuitBreaker.ClosedOpensAtThreshold | src/circuit_breaker/mod.rs:137-153 | A failure in Closed counts one more failure and opens exactly at the threshold, arming the deadline. |
| CircuitBreaker.HalfOpenClosesAtThreshold | src/circuit_breaker/mod.rs:106-120 | A success in HalfOpen closes (clearing counters and deadline) exactly at the success threshold; otherwise it only counts. |
| CircuitBreaker.TransitionsScenario | src/circuit_breaker/mod.rs:222-264 | Three failures open the circuit; after the timeout it is HalfOpen; two successes close it. |
| CircuitBreaker.DisabledScenario | src/circuit_breaker/mod.rs:266-285 | A disabled breaker ignores failures, reports Closed and always admits. |
| RateLimit.DefaultRateLimit | src/rate_limit/mod.rs:26-33 | Default: 100 requests per second, enabled, empty whitelist and no per-key limits. |
| RateLimit.WithLimit | src/rate_limit/mod.rs:43-48 | Changes only the rate from the default. |
| RateLimit.AddToWhitelist | src/rate_limit/mod.rs:51-53 | Appends one entry and keeps the rest. |
| RateLimit.SetApiKeyLimit | src/rate_limit/mod.rs:56-58 | Inserts or overwrites one key's limit and keeps the others. |
| RateLimit.ClientIpAsWritten | src/rate_limit/mod.rs:80 | As written, the client id is the address text up to its first `:`. |
| RateLimit.ClientIpAsWrittenV6 | src/rate_limit/mod.rs:80 | As written, an IPv6 client `[a:b…]:port` gets `[` plus its first group, never its address. |
| RateLimit.ClientIpAsWrittenSharesV6 | src/rate_limit/mod.rs:80 | As written, `2001:db8::1` and `2001:db8::2` share the id `[2001`. |
| RateLimit.SharedV6Bucket | src/rate_limit/mod.rs:63-83 | As written, IPv6 clients with the same first group share one rate-limit bucket. |
| RateLimit.ClientIp | src/rate_limit/mod.rs:63-83 | Corrected: a bracketed address yields the text inside the brackets; any other address is read as written. |
| RateLimit.ClientIpOfRendered | src/rate_limit/mod.rs:63-83 | Corrected: the id of a rendered socket address is exactly its IP, for v4 and v6. |
| RateLimit.ClientIpAgreesV4 | src/rate_limit/mod.rs:80 | For IPv4 the source and the corrected reading agree. |
| RateLimit.ClientIdentifierAsWritten | src/rate_limit/mod.rs:63-83 | As written: `api_key:` plus the key when the header is present, else the split address, else `unknown`. |
| RateLimit.ClientIdentifier | src/rate_limit/mod.rs:63-83 | Corrected: `api_key:` plus the key when the header is present, else the client IP, else `unknown`. |
| RateLimit.ClientIdentifierSeparatesClients | src/rate_limit/mod.rs:63-83 | Without an API key, distinct client IPs get distinct identifiers. |
| RateLimit.LimitFor | src/rate_limit/mod.rs:105-116 | An `api_key:` id with a per-key override uses it; every other id uses the default. |
| RateLimit.ApiKeyLimit | src/rate_limit/mod.rs:105-116 | A request with an API key is limited by that key's override when present, else by the default. |
| RateLimit.TooManyRequests | src/rate_limit/mod.rs:128-139 | A refusal is 429 with limit, remaining 0, reset 1 and Retry-After 1, and a Content-Length equal to the body length. |
| RateLimit.Decide | src/rate_limit/mod.rs:92-121 | Disabled or whitelisted: no refusal and no count. Otherwise count one, and refuse iff the new count exceeds the limit. |
| RateLimit.CheckRateLimit | src/rate_limit/mod.rs:87-151 | The decision is made for the identifier as written (API key, else the address text before the first `:`); other identifiers' counts are untouched. |
| RateLimit.CheckRateLimitCorrected | src/rate_limit/mod.rs:87-151 | Corrected partner: the same decision keyed by the corrected identifier. |
| RateLimit.CheckRateLimitAgrees | src/rate_limit/mod.rs:63-83 | The two checks decide alike for a request with an API key, without a client address, or from an IPv4 client. |
| RateLimit.V6NeighbourRefusedAsWritten | src/rate_limit/mod.rs:76-81 | As written, at one request per second, `[2001:db8::2]:q` is refused because `[2001:db8::1]:p` was admitted first. |
| RateLimit.V6NeighbourAdmitted | src/rate_limit/mod.rs:76-81 | With the corrected identifier both of those clients are admitted. |
| RateLimit.BurstRefusesBeyondLimit | src/rate_limit/mod.rs:119-121 | In a burst of n requests in one window, request k is refused iff k + 1 exceeds the limit, so the (limit+1)-th is the first refused. |
| RateLimit.BurstExempt | src/rate_limit/mod.rs:92-102 | A disabled limiter or a whitelisted id never refuses and never counts. |
| IpFilter.NewFilter | src/filter/mod.rs:22-29 | A new filter has empty lists, no whitelist, no cap and no counts. |
| IpFilter.WithWhitelist | src/filter/mod.rs:32-39 | Like a new filter but with the given whitelist. |
| IpFilter.AddToBlacklist | src/filter/mod.rs:42-45 | Adds the IP to the blacklist and changes nothing else. |
| IpFilter.RemoveFromBlacklist | src/filter/mod.rs:48-52 | Removes the IP from the blacklist and changes nothing else. |
| IpFilter.AddToWhitelist | src/filter/mod.rs:55-60 | Adds to an existing whitelist; does nothing when there is none. |
| IpFilter.SetMaxConnections | src/filter/mod.rs:91-93 | Sets the cap and changes nothing else. |
| IpFilter.ConnectionCount | src/filter/mod.rs:119-126 | A missing entry reads as 0. |
| IpFilter.Increment | src/filter/mod.rs:96-101 | Without a cap, nothing changes; with one, only this IP's count grows by one. |
| IpFilter.Decrement | src/filter/mod.rs:104-116 | Without a cap or an entry, nothing changes; a count of 1 or 0 is removed; a larger count drops by one. |
| IpFilter.ShouldBlock | src/filter/mod.rs:132-163 | Blocked iff outside a present whitelist, or blacklisted, or at or above a present cap. |
| IpFilter.OperationsKeepCountsTidy | src/filter/mod.rs:96-116 | Every operation keeps the invariant that stored counts are positive. |
| IpFilter.OpenThenCloseRestores | src/filter/mod.rs:96-116 | With tidy counts, one connection opened and closed restores the filter exactly. |
| IpFilter.OpenManyCount | src/filter/mod.rs:96-101 | n increments under a cap raise this IP's count by exactly n and touch nothing else. |
| IpFilter.CapScenario | src/filter/mod.rs:211-233 | Under cap N an IP is blocked after n opens iff n ≥ N; after N opens and one close it is admitted again. |
| IpFilter.FreshAdmitsAll | src/filter/mod.rs:177-182 | A new filter blocks no IP. |
| IpFilter.WhitelistExclusive | src/filter/mod.rs:135-140 | With a whitelist, any IP outside it is blocked; one inside it is judged by the remaining rules. |
| IpFilter.BlacklistEntry | src/filter/mod.rs:67-84 | An entry comes only from a non-empty, non-`#` trimmed line: the line's IP, or the IP before its `/`. |
| IpFilter.CidrLineKeepsNetwork | src/filter/mod.rs:76-82 | A line `a/m` inserts the address `a`. |
| IpFilter.CommentLineSkipped | src/filter/mod.rs:69-71 | Blank and `#` lines add nothing. |
| IpFilter.LoadBlacklist | src/filter/mod.rs:63-88 | An unreadable file is an error with no change; otherwise the blacklist gains exactly the entries of the file's lines. |
| Cache.CompileAsWritten | src/cache/mod.rs:22-24 | As written, each `*` becomes a "run of dots" token and every other character a literal. |
| Cache.MatchedCharsAsWritten | src/cache/mod.rs:22-26 | As written, a path matched by a rule has only dots and characters of the glob. |
| Cache.CompileGlob | src/cache/mod.rs:22-24 | Corrected: each `*` becomes "any run" and every other character a literal. |
| Cache.CompileGlobMeaning | src/cache/mod.rs:22-26 | The corrected pattern matches exactly the paths the glob describes (`*` is any string, the rest literal). |
| Cache.FirstMatch | src/cache/mod.rs:130-135 | The result is the first rule at or after i that matches, or none if none does. |
| Cache.TtlForPath | src/cache/mod.rs:128-140 | The TTL is that of the first matching rule, else the default. |
| Cache.AsWrittenFallsThrough | src/cache/mod.rs:22-26 | As written, the test rules match almost no real path, which gets the default 300. |
| Cache.TestTtlsAsWritten | src/cache/mod.rs:203-206 | As written, all four test paths get 300, so the test's 3600 and 86400 expectations fail. |
| Cache.TestRulesCorrected | src/cache/mod.rs:189-206 | Corrected: `/api/static/` paths get 3600; other `.css`/`.js` paths get 86400; the rest 300. |
| Cache.TestTtlsCorrected | src/cache/mod.rs:203-206 | Corrected: `/api/static/image.png` gets 3600 and `/api/users` 300. |
| Cache.TestTtlsCorrectedAssets | src/cache/mod.rs:204-205 | Corrected: `/styles/main.css` and `/scripts/app.js` get 86400. |
| Cache.CreateCacheKey | src/cache/mod.rs:44-83 | A key exists iff caching is on and the method is GET, and it is the `\|`-join of host, path, query and `ae:` encoding. |
| Cache.CacheKeyParts | src/cache/mod.rs:57-79 | When no part holds `\|`, splitting the key on `\|` gives back the parts. |
| Cache.QueryAndEncodingCollide | src/cache/mod.rs:57-79 | A request with an encoding and one with the query `ae:` plus that encoding get the same key. |
| Cache.CacheableTtl | src/cache/mod.rs:86-121 | The gate passes iff caching is on, the method is GET, the status is below 400 or is 404, and Cache-Control has no no-cache/no-store/private; the TTL is then the path's. |
| Cache.CacheableHasKey | src/cache/mod.rs:86-99 | A response the gate passes always has a cache key, since the gate's method and enable checks are the key's. |
| Cache.CacheControlRefusedBySubstring | src/cache/mod.rs:108-115 | Cache-Control is tested by substring: `no-cache`, `no-store` or `private` anywhere in the value (e.g. `max-age=60, private`) refuses the response. |
| Cache.StylesheetTtlAsWritten | src/cache/mod.rs:117-121 | Under the test's rules a cacheable GET of `/styles/main.css` gets the default 300 s as written, and 86400 s with the corrected glob translation. |
| Cache.IsResponseCacheable | src/cache/mod.rs:123-124 | Always none: storage is stubbed. |
| Cache.ShouldServeStale | src/cache/mod.rs:143-150 | Never serves stale. |
| Ssl.AddCertificate | src/ssl.rs:24-26 | Inserts or overwrites the domain's pair; other domains are unchanged. |
| Ssl.CertificateCallback | src/ssl.rs:31-60 | A known SNI whose files load installs that domain's pair; the key is not tried after a failed chain; an absent or unknown SNI installs nothing. |
| Ssl.FirstPresent | src/ssl.rs:82-86 | The result is the first candidate whose files both exist. |
| Ssl.RegistryKeys | src/ssl.rs:77-89 | Registered domains are exactly those whose cert and key both exist. |
| Ssl.RegistryValues | src/ssl.rs:77-89 | Each registered domain maps to its own pair. |
| Ssl.ConfigureSsl | src/ssl.rs:64-120 | Registers exactly the present candidates; the default is the first present pair; the TLS listener is added iff a default exists and loads. |
| Ssl.ConfigureBuiltIn | src/ssl.rs:69-72 | With the two built-in domains, `auth.ad-quest.ru` is the default when present; with neither present, nothing is registered and there is no TLS listener. |
| Ssl.HandshakeSelectsDomain | src/ssl.rs:35-59 | After setup, a registered SNI gets its own pair and an unregistered one keeps the default. |
| Cors.RequestOrigin | src/cors.rs:44-49 | The Origin header's text, or empty. |
| Cors.OriginGrant | src/cors.rs:61-72 | A listed origin is echoed with credentials; an empty one gets `https://auth.ad-quest.ru` with credentials; any other gets `*` without. |
| Cors.CorsForRequest | src/cors.rs:35-80 | A response that already allows an origin is untouched; otherwise the grant and the fixed Methods/Headers/Expose/Vary headers are added. |
| Cors.CorsPolicy | src/cors.rs:61-77 | The resulting allowed origin and credentials follow the origin rule, and Vary is `Origin`. |
| Cors.CredentialsOnlyForListedOrigins | src/cors.rs:61-72 | Credentials are granted only with an echoed listed origin or the default; `*` never carries credentials. |
| Cors.CorsIdempotent | src/cors.rs:38-41 | Adding CORS headers twice equals adding them once. |
| Cors.SimpleCors | src/cors.rs:83-90 | The simple variant sets `*` and the fixed headers without Vary. |
| Cors.SimpleCorsIsUnlistedPolicy | src/cors.rs:69-90 | For an unlisted origin, the per-request policy equals the simple variant plus `Vary: Origin`. |
| Cors.SecurityHeaders | src/cors.rs:93-114 | The six security headers and Server are set over the response; other headers are kept. |
| Cors.Preflight | src/cors.rs:6-31 | Only OPTIONS gets a preflight reply: status 200, empty body, CORS headers, Max-Age, Content-Length 0 and Server. |
| Cors.PreflightLength | src/cors.rs:23 | The preflight's Content-Length equals its body length. |
| Cors.PreflightIgnoresRequestedHeaders | src/cors.rs:15-20 | The requested-headers branch writes the value already set, so it does not change the reply. |
| Cors.PreflightOrigins | src/cors.rs:11-12 | A preflight echoes a listed origin with credentials and answers `*` to others. |
| Proxy.IpBlockedAsWritten | src/proxy.rs:136-154 | As written: blocked iff a filter exists, the address split at its first `:` parses, and the filter blocks it. |
| Proxy.V6NeverFilteredAsWritten | src/proxy.rs:139-140 | As written, an IPv6 client is never filtered, because `[…` never parses. |
| Proxy.IpBlocked | src/proxy.rs:136-154 | Corrected: blocked iff a filter exists, the client IP parses, and the filter blocks it. |
| Proxy.EveryClientFiltered | src/proxy.rs:136-154 | Corrected: every client, v4 or v6, is judged by the filter on its own IP. |
| Proxy.LocationRateLimit | src/proxy.rs:157-184 | A limit applies iff host→server, path→location by the lookup as written, and a location `rate_limit` all exist; it uses requests-per-second, ignores burst and whitelists `127.0.0.1` and `::1`. |
| Proxy.LocationRateLimitCorrected | src/proxy.rs:157-184 | Corrected partner: the same with the corrected location lookup. |
| Proxy.LimitOf | src/proxy.rs:177-184 | A location yields a limiter iff it has a `rate_limit`: enabled, its requests-per-second, the two loopback addresses whitelisted, no per-key limits. |
| Proxy.LocationRateCheck | src/proxy.rs:175-191 | No limit: no refusal and no count; otherwise the rate-limit decision on the identifier as written; a refusal is a 429. |
| Proxy.LocationRateCheckCorrected | src/proxy.rs:175-191 | Corrected partner: the same step with the corrected lookup and identifier. |
| Proxy.Pipeline | src/proxy.rs:134-264 | The step order: a blocked client gets 403 and leaves the window alone; else a refusal is answered with the window counted; else the preflight/routing steps run on the counted window. |
| Proxy.RequestFilter | src/proxy.rs:134-264 | As written: a client blocked on its address text before the first `:` gets 403 and counts nothing. A 429 leaves the context. Proceeding needs an unblocked non-OPTIONS request routed to a non-Static service. |
| Proxy.RequestFilterCorrected | src/proxy.rs:134-264 | Corrected partner: the same order with the corrected address split, identifier and location lookup. |
| Proxy.RequestFilterAgrees | src/proxy.rs:134-194 | For an IPv4 client (or none), the as-written and corrected filters give the same verdict, context and window unless the corrected lookup falls back on an empty-prefix location such as `location /`. |
| Proxy.PastRateLimit | src/proxy.rs:234-263 | After the rate limit: OPTIONS or Static answer 200; anything else proceeds with the routed context; the window is untouched. |
| Proxy.BlockedBeforeRateLimit | src/proxy.rs:136-154 | A client the as-written address check blocks gets 403 and its request is not counted by the rate limiter. |
| Proxy.RateLimitGate | src/proxy.rs:157-194 | An unblocked request is refused with 429 iff the location found as written has a limit and the decision on the as-written identifier refuses it. |
| Proxy.V6ClientNeverForbiddenAsWritten | src/proxy.rs:136-154 | As written, an IPv6 client is never answered 403, whatever the filter holds. |
| Proxy.RootLimitSkippedAsWritten | src/proxy.rs:175-177 | As written, a server whose only location is a limited `location /` limits no request for `/x`; the corrected lookup limits it. |
| Proxy.LoopbackV6NotExemptAsWritten | src/proxy.rs:182 | As written, `[::1]:port` gets the id `[`, so the `::1` whitelist entry never applies. |
| Proxy.LoopbackV6Exempt | src/proxy.rs:182 | Corrected: `[::1]:port` is whitelisted. |
| Proxy.StaticReply | src/proxy.rs:248-261 | The static answer is 200 with the page and security headers. |
| Proxy.StaticReplyLength | src/proxy.rs:253 | Its Content-Length is the page length. |
| Proxy.FailToConnect | src/proxy.rs:266-324 | A failure is retryable iff retries < 3, in which case retries grows by one; otherwise nothing changes. |
| Proxy.FailManyBounded | src/proxy.rs:273-276 | After n failures from at most 3, retries is min(start + n, 3), and the k-th failure is retryable iff start + k < 3. |
| Proxy.BackoffMs | src/proxy.rs:327-339 | No sleep at retry 0; otherwise min(10^retries ms, 10 s). |
| Proxy.BackoffSchedule | src/proxy.rs:330-335 | Backoff is 10, 100 and 1000 ms for retries 1–3, never above 10 s, and monotone in retries. |
| Proxy.UpstreamPeer | src/proxy.rs:341-381 | Static is an error; CoreApi and Zitadel use their balancer (panicking without a backend); the four direct services go to `127.0.0.1:<port>`. |
| Proxy.RoutedPeerPort | src/proxy.rs:354-373 | A routed direct service connects to the loopback port of that service. |
| Proxy.AddressHeaders | src/proxy.rs:390-393 | X-Real-IP and X-Forwarded-For both carry the client address text. |
| Proxy.HostHeader | src/proxy.rs:396-398 | Host is copied when present, as `unknown` when not valid text. |
| Proxy.ForwardedProto | src/proxy.rs:405-423 | Zitadel always gets `https`; others get `https` iff the client used https by URI scheme or `x-forwarded-proto`. |
| Proxy.ZitadelHeaders | src/proxy.rs:428-439 | X-Forwarded-Port is 443 exactly with `https`; X-Forwarded-Host copies Host. |
| Proxy.ServiceHeaders | src/proxy.rs:400-450 | Per-service headers: none for Static; otherwise `X-Forwarded-Proto` and `Connection` always, plus the Zitadel extras; only proxy header names are set. |
| Proxy.UpstreamRequestFilter | src/proxy.rs:383-453 | Address, host and per-service headers are laid over the upstream request, later ones winning; X-Real-IP and X-Forwarded-For carry the client text; every other incoming header is kept unchanged. |
| Proxy.ConnectionHeaders | src/proxy.rs:441-447 | Upgrade requests get `Connection: upgrade` and the Upgrade value; others `close`. |
| Proxy.ZitadelForwarding | src/proxy.rs:418-438 | Zitadel always gets `X-Forwarded-Proto: https` and `X-Forwarded-Port: 443`, so the port-80 branch is unreachable. |
| Proxy.ServiceForwarding | src/proxy.rs:400-448 | Other proxied services get `https` iff the client used it, `upgrade` iff requested, and no forwarded port. |
| Proxy.ResponseFilter | src/proxy.rs:455-489 | Zitadel responses get only security headers; others also get per-request CORS. |
| Proxy.ResponseOrigin | src/proxy.rs:479-486 | Non-Zitadel responses always carry an allowed origin; an upstream's own allowed origin is never overwritten. |
| Startup.AddAllWithoutWhitelist | src/filter/mod.rs:55-60 | Adding whitelist entries to a filter without a whitelist changes nothing. |
| Startup.AddAllWithWhitelist | src/main.rs:129-135 | With a whitelist present, it gains exactly the entries that parse, and nothing else changes. |
| Startup.BuildFilterAsWritten | src/main.rs:122-150 | As written, a filter exists iff IP filtering is enabled. |
| Startup.WhitelistIgnoredAsWritten | src/main.rs:122-135 | As written, the configured whitelist is dropped: an IP outside it is still admitted. |
| Startup.BuildFilter | src/main.rs:122-150 | Corrected: a filter exists iff enabled, and has a whitelist iff one is configured. |
| Startup.WhitelistApplied | src/main.rs:122-135 | Corrected: an IP is blocked iff no configured whitelist entry parses to it. |
| Startup.ChooseBalancers | src/main.rs:198-205 | None without upstreams; otherwise the first in iteration order and the second, or the first again. |
| Startup.BalancersAreUpstreams | src/main.rs:198-205 | Both balancers are configured upstreams, and they coincide iff there is exactly one upstream. |
| Startup.DedupSpec | src/main.rs:222-232 | De-duplication keeps exactly the listed ports, each once. |
| Startup.ListenerPorts | src/main.rs:220-246 | Listeners are the distinct listen ports in first-seen order, or 9080 and 9443 when there are none or no config. |
| Startup.ListenersOncePerPort | src/main.rs:224-232 | Every server's listen port gets a listener, and no port gets two. |
| Startup.CertWarnings | src/main.rs:340-349 | At most two warnings per server, and none without both paths. |
| Startup.EmptyUpstreams | src/main.rs:364-372 | The upstreams counted as errors are exactly those with no servers. |
| Startup.TestConfiguration | src/main.rs:316-413 | A load failure is one error. Otherwise errors are dangling proxy_pass locations plus empty upstreams, and warnings are missing cert files, a missing config, a missing sites-enabled and a non-root user. |
| Startup.TestFromFiles | src/main.rs:323-401 | A missing sites-enabled makes loading fail (one error). So the "sites-enabled not found" and "no server configurations" warnings cannot occur. |
| Startup.DanglingFails | src/main.rs:352-360 | A location whose proxy_pass names a missing upstream makes the test fail. |
| Startup.WarningsNeverFail | src/main.rs:405-412 | Without dangling locations or empty upstreams the test succeeds, whatever the warnings. |

## Left out

- Logging, Prometheus metrics, the gRPC-Web module and `early_request_filter` (which only initialises that module): I/O and foreign libraries.
- `modify_cache_headers`: it only writes `X-Cache` and a debug-formatted date.
- `load_nginx_config` and `parse_config_file`: file reading. File contents are parameters, and the parser models `parse_config_content`.
- Concurrency (`RwLock`, `async`): every locked method is one atomic step. The race between admission and increment is not modelled.
- Real time (`Instant`, `SystemTime`, `tokio::time::sleep`): time is a `now: nat` parameter in seconds, and the backoff is returned rather than slept.
- Foreign engines are parameters or opaque:
  - `IpAddr` parsing;
  - `LoadBalancer` selection and health checks (a backend is an `Option` parameter);
  - TLS file loading;
  - file existence;
  - `read_dir` order;
  - the static HTML page (a parameter).
- The `regex` crate: only the fixed pattern shapes the parser uses are modelled.
  - `\w` and `\d` are ASCII.
  - `\s` is the Unicode White_Space set.
  - Each `captures` call takes the leftmost match.
- Cache rule paths holding regex metacharacters other than `*` and `.` are outside the model.
- The rules that fail to compile (src/cache/mod.rs:31-33) are not modelled, because no glob of that kind can fail once metacharacters are excluded.
- Circuit breaker, IP filter and retry counters are unbounded naturals, not `u32` or `usize`. Wrap-around cannot happen within the retry cap.
- Proxy.BackoffMs: the `u64::pow` overflow for very large retries is not modelled, because retries never exceeds 3.
- Proxy.RequestFilter: the 403 reply's headers are whatever pingora's `respond_error_with_body` sets. They are modelled as empty.
- Proxy.UpstreamPeer: which backend a balancer selects is a parameter, and `unwrap` on an empty balancer is a `PeerPanic` outcome.
- Startup.ChooseBalancers: `HashMap` iteration order is a parameter. Which upstream serves CoreApi and which serves Zitadel is therefore not determined by the program. The `expect` at src/main.rs:200-201 (no upstream) is modelled as a `None` choice, not as a panic.
- `max_connections_per_ip` is never set from configuration in src/main.rs, and `increment_connection_count` is never called. The cap is modelled in the filter, but not wired into the request path.
- The circuit breaker is built but never consulted by the proxy, so it is modelled standalone.
- `configure_ssl` is not called from `main` (src/main.rs:248-263 only logs). Ssl.ConfigureSsl models it standalone.
- The test at src/config/nginx_parser.rs:310-345 is not restated on its literal text. Its parts are covered by NginxParser.ProxyPassRendered, NginxParser.UpstreamRoundTrip, NginxParser.ServerNamesRendered and NginxParser.ParseLocation. Evaluating the whole parser on a concrete text is too costly for the solver.
- The test at src/config/mod.rs:239-266 refers to a `routes` field that does not exist, and is not modelled.
- The dead modules src/config/loader.rs and src/config/types.rs are not part of this model.
- X-Real-IP carries `ip:port`, because the code uses the socket address's text. Proxy.AddressHeaders models that as written.
- A cache key can collide (Cache.QueryAndEncodingCollide). This is recorded as an observation and not corrected.
- The gRPC branch of the preflight rewrites `Access-Control-Allow-Headers` with the value it already has (Cors.PreflightIgnoresRequestedHeaders).
- `force_open` and `reset` do not look at `enabled`; the model keeps that.
- The Content-Security-Policy value is modelled as one string whose ten directives are joined by `; `. That is what the Rust line continuations produce.

## Findings

| source | as written | input that shows it | evidently intended | confidence | as-written member | corrected member |
|---|---|---|---|---|---|---|
| src/cache/mod.rs:22-24 | `*` is replaced by `.*` first, and then every `.`, including the one just inserted, is escaped. So `*` matches only a run of literal dots. | rule `/api/static/*`, path `/api/static/image.png` gets 300, not the 3600 of the test at line 203 | `*` matches any string, and a literal `.` matches only a dot | not executed | Cache.TestTtlsAsWritten | Cache.TestTtlsCorrected |
| src/config/nginx_parser.rs:283-293 | The prefix of `location /` trims to the empty string, and the best length starts at 0 with a strict `>`. | locations [`/`], path `/x` finds no location | `location /` catches every path that no longer prefix matches | not executed | Proxy.RootLimitSkippedAsWritten | NginxLookup.RootCatchesAll |
| src/rate_limit/mod.rs:80 | The client address is split on its first `:`. For IPv6, `[::1]:443` yields `[`. | `[2001:db8::1]:p` and `[2001:db8::2]:q` share the id `[2001` | the IP part of the socket address | not executed | RateLimit.V6NeighbourRefusedAsWritten | RateLimit.V6NeighbourAdmitted |
| src/proxy.rs:139-140 | The same split feeds the IP filter, so `[…` never parses and IPv6 clients are never filtered. | a blacklisted IPv6 client at `[::5]:80` is admitted | every client is filtered on its IP | not executed | Proxy.V6ClientNeverForbiddenAsWritten | Proxy.EveryClientFiltered |
| src/config/nginx_parser.rs:198 | `parts[0]` on the whitespace split of the captured `listen` value panics when the value is blank. | `listen  ;` | drop that directive, as for an unparseable port | not executed | NginxParser.BlankListenPanics | NginxParser.ParseListen |
| src/config/nginx_parser.rs:251 | `parts[0]` on the whitespace split of an upstream `server` value panics when the value is blank. | `upstream u { server  ; }` | skip the entry | not executed | NginxParser.BlankUpstreamServerPanics | NginxParser.UpstreamServerOf |
| src/main.rs:122-135 | The configured whitelist is added to `IPFilter::new()`, which has no whitelist, so `add_to_whitelist` does nothing (src/filter/mod.rs:55-60). | `ip_filter: {enabled: true, whitelist: ["10.0.0.1"]}`, client 10.0.0.2 is admitted | only whitelisted clients are admitted | not executed | Startup.WhitelistIgnoredAsWritten | Startup.WhitelistApplied |
