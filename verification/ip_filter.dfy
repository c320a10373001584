/** The IP admission filter of `src/filter/mod.rs`: a blacklist, an optional
    whitelist (whose presence makes the filter allow-list only), an optional cap
    on open connections per address, and the connection counters. Addresses are
    the type parameter `Ip`; `parse` stands for `str::parse::<IpAddr>`. */
module IpFilter {
  import opened Wrappers
  import opened Text

  datatype Filter<Ip> = Filter(
    blacklist: set<Ip>,
    whitelist: Option<set<Ip>>,
    maxConnectionsPerIp: Option<nat>,
    counts: map<Ip, nat>)

  /** `IPFilter::new` (and `Default`): no lists, no cap, no counters. */
  function NewFilter<Ip>(): (f: Filter<Ip>)
    ensures f.blacklist == {} && f.whitelist.None? && f.maxConnectionsPerIp.None? && f.counts == map[]
  {
    Filter({}, None, None, map[])
  }

  /** `IPFilter::with_whitelist`: only the given addresses are admitted. */
  function WithWhitelist<Ip>(w: set<Ip>): (f: Filter<Ip>)
    ensures f.whitelist == Some(w)
    ensures f.(whitelist := None) == NewFilter()
  {
    Filter({}, Some(w), None, map[])
  }

  /** `add_to_blacklist`. */
  function AddToBlacklist<Ip>(f: Filter<Ip>, ip: Ip): (r: Filter<Ip>)
    ensures r.blacklist == f.blacklist + {ip}
    ensures r.(blacklist := f.blacklist) == f
  {
    f.(blacklist := f.blacklist + {ip})
  }

  /** `remove_from_blacklist`. */
  function RemoveFromBlacklist<Ip>(f: Filter<Ip>, ip: Ip): (r: Filter<Ip>)
    ensures r.blacklist == f.blacklist - {ip}
    ensures r.(blacklist := f.blacklist) == f
  {
    f.(blacklist := f.blacklist - {ip})
  }

  /** `add_to_whitelist`: adds to an existing whitelist, and does nothing at all
      when the filter has none. */
  function AddToWhitelist<Ip>(f: Filter<Ip>, ip: Ip): (r: Filter<Ip>)
    ensures f.whitelist.None? ==> r == f
    ensures f.whitelist.Some? ==> r.whitelist == Some(f.whitelist.value + {ip})
    ensures r.(whitelist := f.whitelist) == f
  {
    match f.whitelist
    case None => f
    case Some(w) => f.(whitelist := Some(w + {ip}))
  }

  /** `set_max_connections_per_ip`. */
  function SetMaxConnections<Ip>(f: Filter<Ip>, max: nat): (r: Filter<Ip>)
    ensures r.maxConnectionsPerIp == Some(max)
    ensures r.(maxConnectionsPerIp := f.maxConnectionsPerIp) == f
  {
    f.(maxConnectionsPerIp := Some(max))
  }

  /** `get_connection_count`: a missing entry reads as 0. */
  function ConnectionCount<Ip>(f: Filter<Ip>, ip: Ip): (n: nat)
    ensures ip !in f.counts ==> n == 0
    ensures ip in f.counts ==> n == f.counts[ip]
  {
    if ip in f.counts then f.counts[ip] else 0
  }

  /** `increment_connection_count`: counts only when a cap is set. */
  function Increment<Ip>(f: Filter<Ip>, ip: Ip): (r: Filter<Ip>)
    ensures f.maxConnectionsPerIp.None? ==> r == f
    ensures f.maxConnectionsPerIp.Some? ==> r.counts == f.counts[ip := ConnectionCount(f, ip) + 1]
    ensures r.(counts := f.counts) == f
  {
    if f.maxConnectionsPerIp.None? then f
    else f.(counts := f.counts[ip := ConnectionCount(f, ip) + 1])
  }

  /** `decrement_connection_count`: counts only when a cap is set; a count never
      goes below zero and an entry that reaches zero is removed. */
  function Decrement<Ip>(f: Filter<Ip>, ip: Ip): (r: Filter<Ip>)
    ensures f.maxConnectionsPerIp.None? || ip !in f.counts ==> r == f
    ensures r.(counts := f.counts) == f
    ensures f.maxConnectionsPerIp.Some? && ip in f.counts ==>
              && (f.counts[ip] <= 1 ==> r.counts == f.counts - {ip})
              && (f.counts[ip] > 1 ==> r.counts == f.counts[ip := f.counts[ip] - 1])
  {
    if f.maxConnectionsPerIp.None? || ip !in f.counts then f
    else
      var c := f.counts[ip];
      var c' := if c > 0 then c - 1 else c;
      if c' == 0 then f.(counts := f.counts - {ip}) else f.(counts := f.counts[ip := c'])
  }

  /** `should_block_ip`: whitelist first, then blacklist, then the connection cap. */
  function ShouldBlock<Ip>(f: Filter<Ip>, ip: Ip): (blocked: bool)
    ensures blocked <==>
              || (f.whitelist.Some? && ip !in f.whitelist.value)
              || ip in f.blacklist
              || (f.maxConnectionsPerIp.Some? && ConnectionCount(f, ip) >= f.maxConnectionsPerIp.value)
  {
    if f.whitelist.Some? && ip !in f.whitelist.value then true
    else if ip in f.blacklist then true
    else if f.maxConnectionsPerIp.Some? && ConnectionCount(f, ip) >= f.maxConnectionsPerIp.value then true
    else false
  }

  /* ---------------- the counter invariant ---------------- */

  /** No zero-valued counter is kept, and nothing is counted without a cap. */
  predicate CountsTidy<Ip>(f: Filter<Ip>) {
    && (forall ip :: ip in f.counts ==> f.counts[ip] > 0)
    && (f.maxConnectionsPerIp.None? ==> f.counts == map[])
  }

  /** Every operation keeps the counters tidy. */
  lemma OperationsKeepCountsTidy<Ip>(f: Filter<Ip>, ip: Ip, max: nat)
    requires CountsTidy(f)
    ensures CountsTidy(Increment(f, ip)) && CountsTidy(Decrement(f, ip))
    ensures CountsTidy(AddToBlacklist(f, ip)) && CountsTidy(RemoveFromBlacklist(f, ip))
    ensures CountsTidy(AddToWhitelist(f, ip)) && CountsTidy(SetMaxConnections(f, max))
  {
  }

  /** A connection that opens and then closes leaves the counters as they were. */
  lemma OpenThenCloseRestores<Ip>(f: Filter<Ip>, ip: Ip)
    requires CountsTidy(f)
    ensures Decrement(Increment(f, ip), ip) == f
  {
    if f.maxConnectionsPerIp.Some? {
      var g := Increment(f, ip);
      if ip in f.counts {
        assert g.counts[ip := f.counts[ip]] == f.counts;
      } else {
        assert g.counts - {ip} == f.counts;
      }
    }
  }

  /** `n` connections opened from one address. */
  function OpenMany<Ip>(f: Filter<Ip>, ip: Ip, n: nat): Filter<Ip>
    decreases n
  {
    if n == 0 then f else Increment(OpenMany(f, ip, n - 1), ip)
  }

  lemma {:induction false} OpenManyCount<Ip>(f: Filter<Ip>, ip: Ip, n: nat)
    requires f.maxConnectionsPerIp.Some?
    ensures ConnectionCount(OpenMany(f, ip, n), ip) == ConnectionCount(f, ip) + n
    ensures OpenMany(f, ip, n).(counts := f.counts) == f
    decreases n
  {
    if n > 0 {
      OpenManyCount(f, ip, n - 1);
    }
  }

  /** With a cap of `max` and no list in the way, an address with `n` open
      connections is blocked exactly when `n >= max`; once one closes, it is
      admitted again. */
  lemma CapScenario<Ip>(f: Filter<Ip>, ip: Ip, max: nat, n: nat)
    requires f.whitelist.None? && ip !in f.blacklist && ip !in f.counts
    requires f.maxConnectionsPerIp == Some(max)
    ensures ShouldBlock(OpenMany(f, ip, n), ip) <==> n >= max
    ensures n == max && max > 0 ==> !ShouldBlock(Decrement(OpenMany(f, ip, n), ip), ip)
  {
    OpenManyCount(f, ip, n);
    var g := OpenMany(f, ip, n);
    if n == max && max > 0 {
      assert ip in g.counts && g.counts[ip] == max;
      assert ConnectionCount(Decrement(g, ip), ip) == max - 1;
    }
  }

  /** A fresh filter blocks nobody. */
  lemma FreshAdmitsAll<Ip>(ip: Ip)
    ensures !ShouldBlock(NewFilter<Ip>(), ip)
  {
  }

  /** The whitelist is exclusive: an address outside it is blocked whatever the
      blacklist and the counters say, and one inside it is judged by them. */
  lemma WhitelistExclusive<Ip>(f: Filter<Ip>, ip: Ip)
    requires f.whitelist.Some?
    ensures ip !in f.whitelist.value ==> ShouldBlock(f, ip)
    ensures ip in f.whitelist.value ==>
              (ShouldBlock(f, ip) <==> ShouldBlock(f.(whitelist := None), ip))
  {
  }

  /* ---------------- the blacklist file ---------------- */

  /** What one line of a blacklist file contributes: nothing for a blank or `#`
      line; the address when the trimmed line parses as one; else, for `a/b`, the
      address `a` when it parses; else nothing. */
  function BlacklistEntry<Ip>(line: string, parse: string -> Option<Ip>): (r: Option<Ip>)
    ensures r.Some? ==> |Trim(line)| > 0 && Trim(line)[0] != '#'
    ensures r.Some? ==> r == parse(Trim(line)) || ('/' in Trim(line) && r == parse(Trim(PrefixBefore(Trim(line), '/'))))
  {
    var t := Trim(line);
    if |t| == 0 || t[0] == '#' then None
    else if parse(t).Some? then parse(t)
    else if '/' in t then parse(Trim(PrefixBefore(t, '/')))
    else None
  }

  /** A CIDR line `a/m` whose whole text is no address contributes the address `a`:
      the prefix length is dropped, not applied. */
  lemma CidrLineKeepsNetwork<Ip>(a: string, m: string, parse: string -> Option<Ip>)
    requires Trimmed(a) && |a| > 0 && a[0] != '#' && '/' !in a
    requires Trimmed(m) && parse(a + "/" + m).None?
    ensures BlacklistEntry(a + "/" + m, parse) == parse(a)
  {
    var t := a + "/" + m;
    assert t == a + ("/" + m);
    TrimOfJoined(a, "/" + m);
    assert Trim(t) == t;
    PrefixBeforeFirst(a, "/" + m, '/');
    TrimNoop(a);
    assert t[|a|] == '/';
  }

  lemma TrimOfJoined(a: string, b: string)
    requires Trimmed(a) && |a| > 0 && |b| > 0 && !IsSpace(b[|b| - 1])
    ensures Trimmed(a + b)
  {
  }

  /** A line that is blank or a comment after trimming contributes nothing. */
  lemma CommentLineSkipped<Ip>(line: string, parse: string -> Option<Ip>)
    requires |Trim(line)| == 0 || Trim(line)[0] == '#'
    ensures BlacklistEntry(line, parse).None?
  {
  }

  /** The addresses a sequence of lines contributes. */
  function BlacklistEntries<Ip(!new)>(lines: seq<string>, parse: string -> Option<Ip>): (s: set<Ip>)
    ensures forall ip :: ip in s <==> exists k :: 0 <= k < |lines| && BlacklistEntry(lines[k], parse) == Some(ip)
  {
    set k | 0 <= k < |lines| && BlacklistEntry(lines[k], parse).Some? :: BlacklistEntry(lines[k], parse).value
  }

  /** `load_blacklist_from_file` given the file's text, or None when it cannot be
      read: on success every contributed address joins the blacklist and nothing
      else changes; on failure nothing changes. */
  function LoadBlacklist<Ip(!new)>(f: Filter<Ip>, content: Option<string>, parse: string -> Option<Ip>): (r: (bool, Filter<Ip>))
    ensures content.None? ==> r == (false, f)
    ensures content.Some? ==> r.0 && r.1.(blacklist := f.blacklist) == f
    ensures content.Some? ==> forall ip :: ip in r.1.blacklist <==>
              ip in f.blacklist
              || exists k :: 0 <= k < |Lines(content.value)| && BlacklistEntry(Lines(content.value)[k], parse) == Some(ip)
  {
    match content
    case None => (false, f)
    case Some(text) => (true, f.(blacklist := f.blacklist + BlacklistEntries(Lines(text), parse)))
  }
}
