/** The main configuration record of `src/config/mod.rs`, its defaults, the copy
    written back to disk, and the lookups that delegate to the nginx-style
    configuration when one was loaded. The YAML reader and writer are not part of
    this model: a parsed document arrives as an `Option<Config>`. */
module Config {
  import opened Wrappers
  import opened NginxParser
  import NginxLookup

  datatype GlobalConfig = GlobalConfig(defaultTimeout: nat, maxRetries: nat, healthCheckInterval: nat)

  datatype SecurityHeaders = SecurityHeaders(
    xFrameOptions: string,
    xContentTypeOptions: string,
    xXssProtection: string,
    strictTransportSecurity: string,
    contentSecurityPolicy: string,
    server: string)

  datatype CacheRule = CacheRule(path: string, ttl: nat)

  datatype CacheConfig = CacheConfig(enabled: bool, defaultTtl: nat, maxSize: string, rules: seq<CacheRule>)

  datatype LogConfig = LogConfig(enabled: bool, path: string, format: string)

  datatype MetricsConfig = MetricsConfig(enabled: bool, endpoint: string, port: nat)

  datatype LoggingConfig = LoggingConfig(
    format: string,
    level: string,
    accessLog: LogConfig,
    errorLog: LogConfig,
    metrics: MetricsConfig)

  datatype IpFilterConfig = IpFilterConfig(
    enabled: bool,
    blacklistFile: Option<string>,
    whitelist: Option<seq<string>>,
    maxConnectionsPerIp: Option<nat>)

  datatype CircuitBreakerConfig = CircuitBreakerConfig(
    enabled: bool,
    failureThreshold: nat,
    recoveryTimeout: nat,
    successThreshold: nat)

  /** The whole configuration; `nginxConfig` is never read from or written to the
      YAML file. */
  datatype Config = Config(
    version: nat,
    global: GlobalConfig,
    securityHeaders: SecurityHeaders,
    cache: CacheConfig,
    logging: LoggingConfig,
    ipFilter: IpFilterConfig,
    circuitBreaker: CircuitBreakerConfig,
    nginxConfig: Option<NginxConfig>)

  /** `Config::default`. */
  function DefaultConfig(): (c: Config)
    ensures !c.cache.enabled && c.cache.defaultTtl == 300 && c.cache.rules == []
    ensures !c.ipFilter.enabled && c.ipFilter.blacklistFile.None? && c.ipFilter.whitelist.None?
            && c.ipFilter.maxConnectionsPerIp.None?
    ensures c.circuitBreaker == CircuitBreakerConfig(false, 5, 30, 3)
    ensures c.nginxConfig.None?
  {
    Config(
      1,
      GlobalConfig(30, 3, 5),
      SecurityHeaders("SAMEORIGIN", "nosniff", "1; mode=block", "max-age=31536000; includeSubDomains",
                      "default-src 'self'", "Pingora/0.6.0"),
      CacheConfig(false, 300, "1GB", []),
      LoggingConfig("json", "info",
                    LogConfig(true, "/var/log/pingora-proxy/access.log", "json"),
                    LogConfig(true, "/var/log/pingora-proxy/error.log", "json"),
                    MetricsConfig(true, "/metrics", 9090)),
      IpFilterConfig(false, None, None, None),
      CircuitBreakerConfig(false, 5, 30, 3),
      None)
  }

  /** The copy `save_to_file` serialises: the original with the nginx-style part
      dropped, and nothing else changed. */
  function SavedCopy(c: Config): (s: Config)
    ensures s.nginxConfig.None?
    ensures s.(nginxConfig := c.nginxConfig) == c
  {
    c.(nginxConfig := None)
  }

  /** `load_from_file`: the parsed YAML document, with the nginx-style
      configuration of the sites-enabled directory attached; None when either
      fails. */
  method LoadFromFile(yaml: Option<Config>, sitesEnabled: Option<seq<DirEntry>>) returns (r: Option<Config>)
    ensures r.Some? <==> yaml.Some? && sitesEnabled.Some? && EntryError !in sitesEnabled.value
    ensures r.Some? ==> r.value.(nginxConfig := yaml.value.nginxConfig) == yaml.value
    ensures r.Some? ==> r.value.nginxConfig == Some(MergeAll(Contributions(sitesEnabled.value, ParseConfigContent)))
  {
    if yaml.None? {
      return None;
    }
    var nginx := LoadFromSitesEnabled(sitesEnabled);
    if nginx.None? {
      return None;
    }
    return Some(yaml.value.(nginxConfig := nginx));
  }

  /** `Config::find_server`: None without an nginx-style configuration, else the
      first server block serving the host. */
  function FindServer(c: Config, host: string): (r: Option<ServerBlock>)
    ensures c.nginxConfig.None? ==> r.None?
    ensures c.nginxConfig.Some? ==>
              (r.Some? <==> NginxLookup.FindServer(c.nginxConfig.value.servers, host).Some?)
    ensures r.Some? ==> r.value == c.nginxConfig.value.servers[NginxLookup.FindServer(c.nginxConfig.value.servers, host).value]
  {
    match c.nginxConfig
    case None => None
    case Some(n) =>
      match NginxLookup.FindServer(n.servers, host)
      case None => None
      case Some(k) => Some(n.servers[k])
  }

  /** `Config::find_location`: None without an nginx-style configuration (even
      though the server block is given), else the location the parser's lookup
      chooses for the path, as written: an exact match, or a `/`-terminated prefix
      of non-empty trimmed length, so never `location /` for any path but `/`. */
  function FindLocation(c: Config, server: ServerBlock, path: string): (r: Option<LocationBlock>)
    ensures c.nginxConfig.None? ==> r.None?
    ensures c.nginxConfig.Some? ==> (r.Some? <==> NginxLookup.FindLocationAsWritten(server.locations, path).Some?)
    ensures r.Some? ==> r.value == server.locations[NginxLookup.FindLocationAsWritten(server.locations, path).value]
    ensures r.Some? ==> r.value.path == path
                        || (NginxLookup.PrefixCandidate(r.value, path) && |NginxLookup.PrefixOf(r.value)| > 0)
  {
    if c.nginxConfig.None? then None
    else
      match NginxLookup.FindLocationAsWritten(server.locations, path)
      case None => None
      case Some(k) =>
        NginxLookup.FindLocationAsWrittenSpec(server.locations, path);
        FirstExactPath(server.locations, path);
        Some(server.locations[k])
  }

  lemma FirstExactPath(locs: seq<LocationBlock>, path: string)
    ensures NginxLookup.FirstExact(locs, path, 0).Some? ==> locs[NginxLookup.FirstExact(locs, path, 0).value].path == path
  {
  }

  /** `Config::find_location` with the corrected lookup, in which `location /`
      catches every path that nothing longer matches. */
  function FindLocationCorrected(c: Config, server: ServerBlock, path: string): (r: Option<LocationBlock>)
    ensures c.nginxConfig.None? ==> r.None?
    ensures c.nginxConfig.Some? ==> (r.Some? <==> NginxLookup.FindLocation(server.locations, path).Some?)
    ensures r.Some? ==> r.value == server.locations[NginxLookup.FindLocation(server.locations, path).value]
  {
    if c.nginxConfig.None? then None
    else
      match NginxLookup.FindLocation(server.locations, path)
      case None => None
      case Some(k) => Some(server.locations[k])
  }

  /** Both lookups give the same location unless the corrected one picks a
      location with an empty trimmed prefix (such as `location /`) for a path
      other than its own. */
  lemma FindLocationCorrectedAgrees(c: Config, server: ServerBlock, path: string)
    requires FindLocationCorrected(c, server, path).Some? ==>
               FindLocationCorrected(c, server, path).value.path == path
               || |NginxLookup.PrefixOf(FindLocationCorrected(c, server, path).value)| > 0
    ensures FindLocation(c, server, path) == FindLocationCorrected(c, server, path)
  {
    if c.nginxConfig.Some? {
      NginxLookup.FindLocationAgrees(server.locations, path);
    }
  }

  /** `Config::get_upstream`: None without an nginx-style configuration, else the
      upstream declared under the name. */
  function GetUpstream(c: Config, name: string): (r: Option<UpstreamBlock>)
    ensures r.Some? <==> c.nginxConfig.Some? && name in c.nginxConfig.value.upstreams
    ensures r.Some? ==> r.value == c.nginxConfig.value.upstreams[name]
  {
    match c.nginxConfig
    case None => None
    case Some(n) => NginxLookup.GetUpstream(n, name)
  }

  /** `get_all_upstreams`: empty without an nginx-style configuration, else every
      declared upstream under its name. */
  function AllUpstreams(c: Config): (r: map<string, UpstreamBlock>)
    ensures c.nginxConfig.None? ==> r == map[]
    ensures c.nginxConfig.Some? ==> r.Keys == c.nginxConfig.value.upstreams.Keys
    ensures forall n :: n in r ==> GetUpstream(c, n) == Some(r[n])
  {
    match c.nginxConfig
    case None => map[]
    case Some(n) => n.upstreams
  }
}
