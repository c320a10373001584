/** The decisions `src/main.rs` takes at start-up: building the IP filter from
    the configuration, choosing the two load balancers, the listener ports, and
    the error and warning counts of the `-t` configuration test. File existence,
    the user name and the hash-map iteration order are parameters. */
module Startup {
  import opened Wrappers
  import opened Text
  import opened NginxParser
  import opened IpFilter
  import Config

  /* ---------------- the IP filter ---------------- */

  /** Adding each parseable whitelist entry in turn, as the start-up loop does. */
  function AddAllToWhitelist<Ip>(f: Filter<Ip>, entries: seq<string>, parse: string -> Option<Ip>): (r: Filter<Ip>)
    decreases |entries|
  {
    if |entries| == 0 then f
    else
      var f' := match parse(entries[0]) case Some(ip) => AddToWhitelist(f, ip) case None => f;
      AddAllToWhitelist(f', entries[1..], parse)
  }

  /** Into a filter without a whitelist, adding whitelist entries changes nothing. */
  lemma {:induction false} AddAllWithoutWhitelist<Ip>(f: Filter<Ip>, entries: seq<string>, parse: string -> Option<Ip>)
    requires f.whitelist.None?
    ensures AddAllToWhitelist(f, entries, parse) == f
    decreases |entries|
  {
    if |entries| > 0 {
      AddAllWithoutWhitelist(f, entries[1..], parse);
    }
  }

  /** Into a filter with a whitelist, the entries that parse join it and nothing
      else changes. */
  lemma {:induction false} AddAllWithWhitelist<Ip>(f: Filter<Ip>, entries: seq<string>, parse: string -> Option<Ip>)
    requires f.whitelist.Some?
    ensures AddAllToWhitelist(f, entries, parse).whitelist.Some?
    ensures AddAllToWhitelist(f, entries, parse).(whitelist := f.whitelist) == f
    ensures forall ip :: ip in AddAllToWhitelist(f, entries, parse).whitelist.value <==>
              ip in f.whitelist.value || exists k :: 0 <= k < |entries| && parse(entries[k]) == Some(ip)
    decreases |entries|
  {
    if |entries| > 0 {
      var f' := match parse(entries[0]) case Some(ip) => AddToWhitelist(f, ip) case None => f;
      AddAllWithWhitelist(f', entries[1..], parse);
      forall ip
        ensures (exists k :: 0 <= k < |entries| && parse(entries[k]) == Some(ip)) <==>
                (parse(entries[0]) == Some(ip) || exists k :: 0 <= k < |entries[1..]| && parse(entries[1..][k]) == Some(ip))
      {
        if exists k :: 0 <= k < |entries| && parse(entries[k]) == Some(ip) {
          var k :| 0 <= k < |entries| && parse(entries[k]) == Some(ip);
          if k > 0 {
            assert parse(entries[1..][k - 1]) == Some(ip);
          }
        }
        if exists k :: 0 <= k < |entries[1..]| && parse(entries[1..][k]) == Some(ip) {
          var k :| 0 <= k < |entries[1..]| && parse(entries[1..][k]) == Some(ip);
          assert parse(entries[k + 1]) == Some(ip);
        }
      }
    }
  }

  /** The filter start-up builds as written: `IPFilter::new()`, then the configured
      whitelist entries, then the blacklist file (`blacklistText` is its content,
      None when it cannot be read, which only logs a warning). None when the
      filter is disabled. */
  function BuildFilterAsWritten<Ip(!new)>(c: Config.IpFilterConfig, parse: string -> Option<Ip>,
                                          blacklistText: Option<string>): (r: Option<Filter<Ip>>)
    ensures r.Some? <==> c.enabled
  {
    if !c.enabled then None
    else
      var f := NewFilter();
      var f1 := match c.whitelist case Some(entries) => AddAllToWhitelist(f, entries, parse) case None => f;
      var f2 := if c.blacklistFile.Some? then LoadBlacklist(f1, blacklistText, parse).1 else f1;
      Some(f2)
  }

  /** Hence the configured whitelist is ignored: the built filter has no whitelist,
      so an address outside the configured list that is not blacklisted is
      admitted. */
  lemma WhitelistIgnoredAsWritten<Ip(!new)>(c: Config.IpFilterConfig, parse: string -> Option<Ip>,
                                            blacklistText: Option<string>, ip: Ip)
    requires c.enabled && c.whitelist.Some?
    requires forall k :: 0 <= k < |c.whitelist.value| ==> parse(c.whitelist.value[k]) != Some(ip)
    requires c.blacklistFile.None?
    ensures BuildFilterAsWritten(c, parse, blacklistText).value.whitelist.None?
    ensures !ShouldBlock(BuildFilterAsWritten(c, parse, blacklistText).value, ip)
  {
    AddAllWithoutWhitelist(NewFilter(), c.whitelist.value, parse);
  }

  /** The filter as evidently intended: a configured whitelist makes the filter
      allow-list only, holding the entries that parse. */
  function BuildFilter<Ip(!new)>(c: Config.IpFilterConfig, parse: string -> Option<Ip>,
                                 blacklistText: Option<string>): (r: Option<Filter<Ip>>)
    ensures r.Some? <==> c.enabled
    ensures r.Some? ==> (r.value.whitelist.Some? <==> c.whitelist.Some?)
  {
    if !c.enabled then None
    else
      var f1 := match c.whitelist
        case Some(entries) => AddAllToWhitelist(WithWhitelist({}), entries, parse)
        case None => NewFilter();
      var f2 := if c.blacklistFile.Some? then LoadBlacklist(f1, blacklistText, parse).1 else f1;
      AddAllWithWhitelist(WithWhitelist({}), if c.whitelist.Some? then c.whitelist.value else [], parse);
      Some(f2)
  }

  /** With the corrected build, an address is admitted by the whitelist step
      exactly when one of the configured entries parses to it. */
  lemma WhitelistApplied<Ip(!new)>(c: Config.IpFilterConfig, parse: string -> Option<Ip>, ip: Ip)
    requires c.enabled && c.whitelist.Some? && c.blacklistFile.None?
    ensures ShouldBlock(BuildFilter(c, parse, None).value, ip) <==>
              forall k :: 0 <= k < |c.whitelist.value| ==> parse(c.whitelist.value[k]) != Some(ip)
  {
    AddAllWithWhitelist(WithWhitelist({}), c.whitelist.value, parse);
  }

  /* ---------------- the load balancers ---------------- */

  /** The two balancers handed to the proxy, from the upstream names in the
      hash map's iteration order `order`: the first and the second, or the first
      twice when there is one; None (a panic) when there is none. */
  function ChooseBalancers(order: seq<string>): (r: Option<(string, string)>)
    ensures r.None? <==> |order| == 0
    ensures r.Some? ==> r.value.0 == order[0]
    ensures r.Some? ==> r.value.1 == if |order| >= 2 then order[1] else order[0]
  {
    if |order| == 0 then None
    else if |order| == 1 then Some((order[0], order[0]))
    else Some((order[0], order[1]))
  }

  /** Whatever the iteration order, both balancers are configured upstreams; they
      are one upstream exactly when only one is configured. */
  lemma BalancersAreUpstreams(ups: map<string, UpstreamBlock>, order: seq<string>)
    requires forall i, j :: 0 <= i < j < |order| ==> order[i] != order[j]
    requires forall n :: n in order <==> n in ups
    ensures ChooseBalancers(order).None? <==> |ups| == 0
    ensures ChooseBalancers(order).Some? ==>
              && ChooseBalancers(order).value.0 in ups && ChooseBalancers(order).value.1 in ups
              && (ChooseBalancers(order).value.0 == ChooseBalancers(order).value.1 <==> |ups| == 1)
  {
    DistinctCount(order, ups.Keys);
  }

  /** A duplicate-free listing of a set has the set's size. */
  lemma {:induction false} DistinctCount(order: seq<string>, s: set<string>)
    requires forall i, j :: 0 <= i < j < |order| ==> order[i] != order[j]
    requires forall n :: n in order <==> n in s
    ensures |order| == |s|
    decreases |order|
  {
    if |order| > 0 {
      var last := order[|order| - 1];
      var init := order[..|order| - 1];
      assert forall i :: 0 <= i < |init| ==> init[i] == order[i] && init[i] != last;
      forall n
        ensures n in init <==> n in s - {last}
      {
        if n in init {
          var i :| 0 <= i < |init| && init[i] == n;
          assert order[i] == n;
        }
        if n in s - {last} {
          assert n in order;
          var i :| 0 <= i < |order| && order[i] == n;
          assert i < |order| - 1;
          assert init[i] == n;
        }
      }
      DistinctCount(init, s - {last});
    } else {
      assert forall n :: n !in s;
      assert s == {};
    }
  }

  /* ---------------- listener ports ---------------- */

  /** The ports used when none is configured. */
  const FallbackPorts: seq<nat> := [9080, 9443]

  /** The listen ports of the servers, server after server, in declaration order. */
  function AllListenPorts(servers: seq<ServerBlock>): (ports: seq<nat>)
    decreases |servers|
  {
    if |servers| == 0 then []
    else AllListenPorts(servers[..|servers| - 1]) + PortsOf(servers[|servers| - 1].listenPorts)
  }

  function PortsOf(listens: seq<ListenDirective>): (ports: seq<nat>)
    ensures |ports| == |listens| && forall k :: 0 <= k < |listens| ==> ports[k] == listens[k].port
  {
    seq(|listens|, k requires 0 <= k < |listens| => listens[k].port)
  }

  /** The first occurrence of each element, in order. */
  function Dedup(s: seq<nat>): (r: seq<nat>)
    decreases |s|
  {
    if |s| == 0 then []
    else
      var d := Dedup(s[..|s| - 1]);
      if s[|s| - 1] in d then d else d + [s[|s| - 1]]
  }

  /** `Dedup` keeps each element once and loses none. */
  lemma {:induction false} DedupSpec(s: seq<nat>)
    ensures forall x :: x in Dedup(s) <==> x in s
    ensures forall i, j :: 0 <= i < j < |Dedup(s)| ==> Dedup(s)[i] != Dedup(s)[j]
    decreases |s|
  {
    if |s| > 0 {
      DedupSpec(s[..|s| - 1]);
      assert s == s[..|s| - 1] + [s[|s| - 1]];
    }
  }

  /** One more element extends `Dedup` exactly when it is new. */
  lemma DedupSnoc(s: seq<nat>, x: nat)
    ensures Dedup(s + [x]) == if x in Dedup(s) then Dedup(s) else Dedup(s) + [x]
  {
    assert (s + [x])[..|s|] == s;
  }

  /** One more server appends its ports. */
  lemma AllListenPortsSnoc(servers: seq<ServerBlock>, i: nat)
    requires i < |servers|
    ensures AllListenPorts(servers[..i + 1]) == AllListenPorts(servers[..i]) + PortsOf(servers[i].listenPorts)
  {
    assert servers[..i + 1][..i] == servers[..i];
  }

  /** Nothing is dropped entirely. */
  lemma DedupEmpty(s: seq<nat>)
    ensures Dedup(s) == [] <==> s == []
  {
    DedupSpec(s);
    if s != [] {
      assert s[0] in Dedup(s);
    }
  }

  /** The listeners start-up adds: each configured port once, in order of first
      appearance; the fallback ports when nothing is configured. */
  method ListenerPorts(nginx: Option<NginxConfig>) returns (ports: seq<nat>)
    ensures nginx.None? ==> ports == FallbackPorts
    ensures nginx.Some? && AllListenPorts(nginx.value.servers) == [] ==> ports == FallbackPorts
    ensures nginx.Some? && AllListenPorts(nginx.value.servers) != [] ==> ports == Dedup(AllListenPorts(nginx.value.servers))
  {
    if nginx.None? {
      return FallbackPorts;
    }
    var servers := nginx.value.servers;
    ports := [];
    for i := 0 to |servers|
      invariant ports == Dedup(AllListenPorts(servers[..i]))
    {
      var listens := servers[i].listenPorts;
      ghost var before := AllListenPorts(servers[..i]);
      AllListenPortsSnoc(servers, i);
      assert before + PortsOf(listens[..0]) == before;
      for j := 0 to |listens|
        invariant ports == Dedup(before + PortsOf(listens[..j]))
      {
        var p := listens[j].port;
        assert before + PortsOf(listens[..j + 1]) == (before + PortsOf(listens[..j])) + [p];
        DedupSnoc(before + PortsOf(listens[..j]), p);
        if p !in ports {
          ports := ports + [p];
        }
      }
      assert listens[..|listens|] == listens;
    }
    assert servers[..|servers|] == servers;
    DedupEmpty(AllListenPorts(servers));
    if ports == [] {
      return FallbackPorts;
    }
  }

  /** Every configured port gets exactly one listener. */
  lemma ListenersOncePerPort(servers: seq<ServerBlock>, s: nat, k: nat)
    requires s < |servers| && k < |servers[s].listenPorts|
    ensures servers[s].listenPorts[k].port in Dedup(AllListenPorts(servers))
    ensures forall i, j :: 0 <= i < j < |Dedup(AllListenPorts(servers))| ==>
              Dedup(AllListenPorts(servers))[i] != Dedup(AllListenPorts(servers))[j]
  {
    DedupSpec(AllListenPorts(servers));
    ListenPortListed(servers, s, k);
  }

  lemma {:induction false} ListenPortListed(servers: seq<ServerBlock>, s: nat, k: nat)
    requires s < |servers| && k < |servers[s].listenPorts|
    ensures servers[s].listenPorts[k].port in AllListenPorts(servers)
    decreases |servers|
  {
    var n := |servers|;
    if s < n - 1 {
      ListenPortListed(servers[..n - 1], s, k);
    } else {
      assert PortsOf(servers[n - 1].listenPorts)[k] == servers[s].listenPorts[k].port;
    }
  }

  /* ---------------- the configuration test ---------------- */

  /** Warnings for one server: one per missing file when both a certificate and a
      key are configured. */
  function CertWarnings(s: ServerBlock, exists_: string -> bool): (n: nat)
    ensures n <= 2
    ensures s.sslCertificate.None? || s.sslCertificateKey.None? ==> n == 0
  {
    if s.sslCertificate.Some? && s.sslCertificateKey.Some? then
      (if exists_(s.sslCertificate.value) then 0 else 1) + (if exists_(s.sslCertificateKey.value) then 0 else 1)
    else 0
  }

  /** A location whose `proxy_pass` names no declared upstream. */
  predicate Dangling(l: LocationBlock, ups: map<string, UpstreamBlock>) {
    l.proxyPass.Some? && l.proxyPass.value !in ups
  }

  /** The dangling locations among `locs`. */
  function DanglingIn(locs: seq<LocationBlock>, ups: map<string, UpstreamBlock>): nat
    decreases |locs|
  {
    if |locs| == 0 then 0
    else DanglingIn(locs[..|locs| - 1], ups) + (if Dangling(locs[|locs| - 1], ups) then 1 else 0)
  }

  /** The dangling locations of a list of servers. */
  function DanglingCount(servers: seq<ServerBlock>, ups: map<string, UpstreamBlock>): nat
    decreases |servers|
  {
    if |servers| == 0 then 0
    else DanglingCount(servers[..|servers| - 1], ups) + DanglingIn(servers[|servers| - 1].locations, ups)
  }

  /** The certificate warnings of a list of servers. */
  function CertWarningCount(servers: seq<ServerBlock>, exists_: string -> bool): nat
    decreases |servers|
  {
    if |servers| == 0 then 0
    else CertWarningCount(servers[..|servers| - 1], exists_) + CertWarnings(servers[|servers| - 1], exists_)
  }

  /** The declared upstreams without servers. */
  function EmptyUpstreams(ups: map<string, UpstreamBlock>): (s: set<string>)
    ensures forall n :: n in s <==> n in ups && |ups[n].servers| == 0
  {
    set n | n in ups && |ups[n].servers| == 0
  }

  /** The outcome of the `-t` test. */
  datatype TestReport = TestReport(errors: nat, warnings: nat)

  /** `test_configuration` given what `load_from_file` returned, which files exist,
      whether the sites-enabled directory exists, and the `USER` variable. */
  function TestConfiguration(loaded: Option<Config.Config>, exists_: string -> bool,
                             sitesEnabledExists: bool, user: string): (r: TestReport)
    ensures loaded.None? ==> r == TestReport(1, 0)
    ensures loaded.Some? && loaded.value.nginxConfig.Some? ==>
              var n := loaded.value.nginxConfig.value;
              r.errors == DanglingCount(n.servers, n.upstreams) + |EmptyUpstreams(n.upstreams)|
    ensures loaded.Some? ==>
              r.warnings ==
                (if loaded.value.nginxConfig.Some? then CertWarningCount(loaded.value.nginxConfig.value.servers, exists_) else 1)
                + (if sitesEnabledExists then 0 else 1) + (if user != "root" then 1 else 0)
  {
    match loaded
    case None => TestReport(1, 0)
    case Some(c) =>
      var (errors, warnings) := match c.nginxConfig
        case Some(n) => (DanglingCount(n.servers, n.upstreams) + |EmptyUpstreams(n.upstreams)|,
                         CertWarningCount(n.servers, exists_))
        case None => (0, 1);
      TestReport(errors, warnings + (if sitesEnabledExists then 0 else 1) + (if user != "root" then 1 else 0))
  }

  /** The test fails (exit status 1) exactly when it counted an error; warnings
      alone never fail it. */
  predicate TestFails(r: TestReport) {
    r.errors > 0
  }

  /** A successfully loaded configuration always carries the nginx-style part, so
      the "no server configurations" warning is never counted; and a missing
      sites-enabled directory fails the load, so it is counted as an error, not as
      the warning the test prints for it. */
  method TestFromFiles(yaml: Option<Config.Config>, sitesEnabled: Option<seq<DirEntry>>, exists_: string -> bool, user: string)
    returns (r: TestReport)
    ensures sitesEnabled.None? ==> r == TestReport(1, 0) && TestFails(r)
    ensures yaml.None? ==> r == TestReport(1, 0)
    ensures yaml.Some? && sitesEnabled.Some? && EntryError !in sitesEnabled.value ==>
              var n := MergeAll(Contributions(sitesEnabled.value, ParseConfigContent));
              && r.errors == DanglingCount(n.servers, n.upstreams) + |EmptyUpstreams(n.upstreams)|
              && r.warnings == CertWarningCount(n.servers, exists_) + (if user != "root" then 1 else 0)
  {
    var loaded := Config.LoadFromFile(yaml, sitesEnabled);
    r := TestConfiguration(loaded, exists_, sitesEnabled.Some?, user);
  }

  /** One dangling `proxy_pass` is one error and fails the test, whatever else the
      configuration holds. */
  lemma DanglingFails(c: Config.Config, exists_: string -> bool, sitesEnabledExists: bool, user: string, s: nat, k: nat)
    requires c.nginxConfig.Some?
    requires s < |c.nginxConfig.value.servers| && k < |c.nginxConfig.value.servers[s].locations|
    requires Dangling(c.nginxConfig.value.servers[s].locations[k], c.nginxConfig.value.upstreams)
    ensures TestFails(TestConfiguration(Some(c), exists_, sitesEnabledExists, user))
  {
    DanglingCounted(c.nginxConfig.value.servers, c.nginxConfig.value.upstreams, s, k);
  }

  lemma {:induction false} DanglingCounted(servers: seq<ServerBlock>, ups: map<string, UpstreamBlock>, s: nat, k: nat)
    requires s < |servers| && k < |servers[s].locations| && Dangling(servers[s].locations[k], ups)
    ensures DanglingCount(servers, ups) > 0
    decreases |servers|
  {
    var n := |servers|;
    if s < n - 1 {
      DanglingCounted(servers[..n - 1], ups, s, k);
    } else {
      DanglingInCounted(servers[s].locations, ups, k);
    }
  }

  lemma {:induction false} DanglingInCounted(locs: seq<LocationBlock>, ups: map<string, UpstreamBlock>, k: nat)
    requires k < |locs| && Dangling(locs[k], ups)
    ensures DanglingIn(locs, ups) > 0
    decreases |locs|
  {
    if k < |locs| - 1 {
      DanglingInCounted(locs[..|locs| - 1], ups, k);
    }
  }

  /** Missing certificates, a missing directory and a non-root user only warn: a
      configuration without dangling locations or empty upstreams passes. */
  lemma WarningsNeverFail(c: Config.Config, exists_: string -> bool, sitesEnabledExists: bool, user: string)
    requires c.nginxConfig.Some?
    requires DanglingCount(c.nginxConfig.value.servers, c.nginxConfig.value.upstreams) == 0
    requires forall n :: n in c.nginxConfig.value.upstreams ==> |c.nginxConfig.value.upstreams[n].servers| > 0
    ensures !TestFails(TestConfiguration(Some(c), exists_, sitesEnabledExists, user))
  {
    assert EmptyUpstreams(c.nginxConfig.value.upstreams) == {};
  }
}
