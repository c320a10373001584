/** Lookups over a parsed configuration: the server block for a host, the
    location block for a path, and an upstream by name. Positions are returned
    as indices into the declaration order so that "the first" and "the earliest"
    can be stated. */
module NginxLookup {
  import opened Wrappers
  import opened Text
  import opened Http
  import opened NginxParser

  /* ---------------- find_server ---------------- */

  predicate ServesName(s: ServerBlock, name: string) {
    name in s.serverNames
  }

  /** Index of the first server from `i` on that lists `name`. */
  function FirstServing(servers: seq<ServerBlock>, name: string, i: nat): (r: Option<nat>)
    requires i <= |servers|
    ensures r.Some? ==> i <= r.value < |servers| && ServesName(servers[r.value], name)
    ensures r.Some? ==> forall j :: i <= j < r.value ==> !ServesName(servers[j], name)
    ensures r.None? ==> forall j :: i <= j < |servers| ==> !ServesName(servers[j], name)
    decreases |servers| - i
  {
    if i == |servers| then None
    else if ServesName(servers[i], name) then Some(i)
    else FirstServing(servers, name, i + 1)
  }

  /** `find_server`: the first server in declaration order whose names include the
      host without its port. */
  function FindServer(servers: seq<ServerBlock>, host: string): (r: Option<nat>)
    ensures r.Some? ==> r.value < |servers| && ServesName(servers[r.value], HostWithoutPort(host))
    ensures r.Some? ==> forall j :: 0 <= j < r.value ==> !ServesName(servers[j], HostWithoutPort(host))
    ensures r.None? <==> forall j :: 0 <= j < |servers| ==> !ServesName(servers[j], HostWithoutPort(host))
  {
    FirstServing(servers, HostWithoutPort(host), 0)
  }

  /** A host given with a port finds the same server as the bare host. */
  lemma FindServerIgnoresPort(servers: seq<ServerBlock>, h: string, port: string)
    requires ':' !in h
    ensures FindServer(servers, h + ":" + port) == FindServer(servers, h)
  {
    PrefixBeforeFirst(h, ":" + port, ':');
    assert h + ":" + port == h + (":" + port);
    PrefixBeforeWhole(h, ':');
  }

  /* ---------------- find_location ---------------- */

  /** `path.trim_end_matches('/')`. */
  function TrimSlashes(s: string): (r: string)
    ensures StartsWith(s, r)
    ensures |r| > 0 ==> r[|r| - 1] != '/'
    ensures forall k :: |r| <= k < |s| ==> s[k] == '/'
    decreases |s|
  {
    if |s| > 0 && s[|s| - 1] == '/' then TrimSlashes(s[..|s| - 1]) else s
  }

  /** The prefix a location stands for in the prefix pass. */
  function PrefixOf(l: LocationBlock): string {
    TrimSlashes(l.path)
  }

  /** A location the prefix pass considers for `path`: its path ends with `/` (or
      is `/`) and `path` starts with its trimmed prefix. */
  predicate PrefixCandidate(l: LocationBlock, path: string) {
    (EndsWith(l.path, "/") || l.path == "/") && StartsWith(path, PrefixOf(l))
  }

  /** Index of the first location from `i` on whose path equals `path`. */
  function FirstExact(locs: seq<LocationBlock>, path: string, i: nat): (r: Option<nat>)
    requires i <= |locs|
    ensures r.Some? ==> i <= r.value < |locs| && locs[r.value].path == path
    ensures r.Some? ==> forall j :: i <= j < r.value ==> locs[j].path != path
    ensures r.None? ==> forall j :: i <= j < |locs| ==> locs[j].path != path
    decreases |locs| - i
  {
    if i == |locs| then None
    else if locs[i].path == path then Some(i)
    else FirstExact(locs, path, i + 1)
  }

  /** `k` is the strictly longest candidate: every earlier candidate is shorter and
      no later one is longer, so ties go to the earliest. */
  predicate LongestCandidate(locs: seq<LocationBlock>, path: string, k: nat) {
    && k < |locs|
    && PrefixCandidate(locs[k], path)
    && (forall j :: 0 <= j < k && PrefixCandidate(locs[j], path) ==> |PrefixOf(locs[j])| < |PrefixOf(locs[k])|)
    && (forall j :: k < j < |locs| && PrefixCandidate(locs[j], path) ==> |PrefixOf(locs[j])| <= |PrefixOf(locs[k])|)
  }

  /** Length the prefix pass compares against: 0 before any match. */
  function BestLen(locs: seq<LocationBlock>, best: Option<nat>): nat
    requires best.Some? ==> best.value < |locs|
  {
    if best.None? then 0 else |PrefixOf(locs[best.value])|
  }

  /** The prefix pass as written: a candidate replaces the best so far only when its
      prefix is strictly longer than `best_match_len`, which starts at 0. */
  function PrefixPassAsWritten(locs: seq<LocationBlock>, path: string, i: nat, best: Option<nat>): (r: Option<nat>)
    requires i <= |locs| && (best.Some? ==> best.value < i)
    ensures r.Some? ==> r.value < |locs|
    decreases |locs| - i
  {
    if i == |locs| then best
    else if PrefixCandidate(locs[i], path) && |PrefixOf(locs[i])| > BestLen(locs, best) then
      PrefixPassAsWritten(locs, path, i + 1, Some(i))
    else PrefixPassAsWritten(locs, path, i + 1, best)
  }

  /** `find_location` as written: the first exact match, else the prefix pass. */
  function FindLocationAsWritten(locs: seq<LocationBlock>, path: string): (r: Option<nat>)
    ensures r.Some? ==> r.value < |locs|
  {
    match FirstExact(locs, path, 0)
    case Some(k) => Some(k)
    case None => PrefixPassAsWritten(locs, path, 0, None)
  }

  /** What the as-written prefix pass keeps while it scans: the best so far is the
      longest candidate of the scanned part and has a non-empty prefix, and with no
      best every scanned candidate has an empty prefix. */
  predicate AsWrittenScanned(locs: seq<LocationBlock>, path: string, i: nat, best: Option<nat>)
    requires i <= |locs| && (best.Some? ==> best.value < i)
  {
    && (best.None? ==> forall j :: 0 <= j < i && PrefixCandidate(locs[j], path) ==> |PrefixOf(locs[j])| == 0)
    && (best.Some? ==> PrefixCandidate(locs[best.value], path) && |PrefixOf(locs[best.value])| > 0)
    && (best.Some? ==> forall j :: 0 <= j < best.value && PrefixCandidate(locs[j], path) ==>
          |PrefixOf(locs[j])| < |PrefixOf(locs[best.value])|)
    && (best.Some? ==> forall j :: best.value < j < i && PrefixCandidate(locs[j], path) ==>
          |PrefixOf(locs[j])| <= |PrefixOf(locs[best.value])|)
  }

  /** The outcome the as-written prefix pass promises: the longest candidate with a
      non-empty prefix, or None when every candidate's prefix is empty. */
  predicate AsWrittenOutcome(locs: seq<LocationBlock>, path: string, r: Option<nat>) {
    && (r.Some? ==> LongestCandidate(locs, path, r.value) && |PrefixOf(locs[r.value])| > 0)
    && (r.None? ==> forall j :: 0 <= j < |locs| && PrefixCandidate(locs[j], path) ==> |PrefixOf(locs[j])| == 0)
  }

  lemma {:induction false} PrefixPassAsWrittenSpec(locs: seq<LocationBlock>, path: string, i: nat, best: Option<nat>)
    requires i <= |locs| && (best.Some? ==> best.value < i)
    requires AsWrittenScanned(locs, path, i, best)
    ensures AsWrittenOutcome(locs, path, PrefixPassAsWritten(locs, path, i, best))
    decreases |locs| - i
  {
    if i == |locs| {
      assert PrefixPassAsWritten(locs, path, i, best) == best;
      AsWrittenEnd(locs, path, best);
    } else {
      var next := AsWrittenAdvance(locs, path, i, best);
      PrefixPassAsWrittenSpec(locs, path, i + 1, next);
    }
  }

  /** One step of the as-written pass: the best so far it moves on with, and what it
      keeps about the scanned part. */
  lemma AsWrittenAdvance(locs: seq<LocationBlock>, path: string, i: nat, best: Option<nat>) returns (next: Option<nat>)
    requires i < |locs| && (best.Some? ==> best.value < i)
    requires AsWrittenScanned(locs, path, i, best)
    ensures next.Some? ==> next.value < i + 1
    ensures AsWrittenScanned(locs, path, i + 1, next)
    ensures PrefixPassAsWritten(locs, path, i, best) == PrefixPassAsWritten(locs, path, i + 1, next)
  {
    AsWrittenStep(locs, path, i, best);
    next := if PrefixCandidate(locs[i], path) && |PrefixOf(locs[i])| > BestLen(locs, best) then Some(i) else best;
  }

  /** Once every location is scanned, what the as-written pass keeps is its outcome. */
  lemma AsWrittenEnd(locs: seq<LocationBlock>, path: string, best: Option<nat>)
    requires best.Some? ==> best.value < |locs|
    requires AsWrittenScanned(locs, path, |locs|, best)
    ensures AsWrittenOutcome(locs, path, best)
  {
  }

  /** One step of the as-written prefix pass keeps what it knows about the scanned
      part. */
  lemma AsWrittenStep(locs: seq<LocationBlock>, path: string, i: nat, best: Option<nat>)
    requires i < |locs| && (best.Some? ==> best.value < i)
    requires AsWrittenScanned(locs, path, i, best)
    ensures PrefixCandidate(locs[i], path) && |PrefixOf(locs[i])| > BestLen(locs, best) ==>
              AsWrittenScanned(locs, path, i + 1, Some(i))
    ensures !(PrefixCandidate(locs[i], path) && |PrefixOf(locs[i])| > BestLen(locs, best)) ==>
              AsWrittenScanned(locs, path, i + 1, best)
  {
    var len := |PrefixOf(locs[i])|;
    if PrefixCandidate(locs[i], path) && len > BestLen(locs, best) {
      forall j | 0 <= j < i && PrefixCandidate(locs[j], path)
        ensures |PrefixOf(locs[j])| < len
      {
        if best.Some? && j != best.value {
          assert |PrefixOf(locs[j])| <= BestLen(locs, best);
        }
      }
    } else if best.None? {
      forall j | 0 <= j < i + 1 && PrefixCandidate(locs[j], path)
        ensures |PrefixOf(locs[j])| == 0
      {
        if j == i {
          assert len <= 0;
        }
      }
    } else {
      forall j | best.value < j < i + 1 && PrefixCandidate(locs[j], path)
        ensures |PrefixOf(locs[j])| <= |PrefixOf(locs[best.value])|
      {
      }
    }
  }

  /** `find_location` as written: an exact match wins; otherwise the strictly longest
      candidate with a non-empty prefix, ties to the earliest; None when every
      candidate's prefix is empty. */
  lemma FindLocationAsWrittenSpec(locs: seq<LocationBlock>, path: string)
    ensures FirstExact(locs, path, 0).Some? ==> FindLocationAsWritten(locs, path) == FirstExact(locs, path, 0)
    ensures FirstExact(locs, path, 0).None? && FindLocationAsWritten(locs, path).Some? ==>
              LongestCandidate(locs, path, FindLocationAsWritten(locs, path).value)
              && |PrefixOf(locs[FindLocationAsWritten(locs, path).value])| > 0
    ensures FirstExact(locs, path, 0).None? && FindLocationAsWritten(locs, path).None? ==>
              forall j :: 0 <= j < |locs| && PrefixCandidate(locs[j], path) ==> |PrefixOf(locs[j])| == 0
  {
    PrefixPassAsWrittenSpec(locs, path, 0, None);
  }

  /** As written, a `location /` is returned only for the path `/` itself: its
      trimmed prefix is empty, so the prefix pass never picks it. */
  lemma RootOnlyExactAsWritten(locs: seq<LocationBlock>, path: string)
    requires FindLocationAsWritten(locs, path).Some?
    requires locs[FindLocationAsWritten(locs, path).value].path == "/"
    ensures path == "/"
  {
    FindLocationAsWrittenSpec(locs, path);
    var l := locs[FindLocationAsWritten(locs, path).value];
    assert TrimSlashes(l.path) == TrimSlashes("") by {
      assert l.path[..0] == "";
    }
  }

  /** The as-written lookup leaves a request for `/x` without a location even when
      `location /` is configured. */
  lemma RootLocationMissedAsWritten()
    ensures FindLocationAsWritten([LocationBlock("/", None, None, false)], "/x").None?
  {
    var locs := [LocationBlock("/", None, None, false)];
    assert locs[0].path != "/x";
    assert TrimSlashes("/") == TrimSlashes("/"[..0]);
    assert PrefixOf(locs[0]) == "";
  }

  /** The prefix pass as evidently intended: the first candidate is taken whatever
      its length, so `location /` (empty prefix) is the catch-all. */
  function PrefixPass(locs: seq<LocationBlock>, path: string, i: nat, best: Option<nat>): (r: Option<nat>)
    requires i <= |locs| && (best.Some? ==> best.value < i)
    ensures r.Some? ==> r.value < |locs|
    decreases |locs| - i
  {
    if i == |locs| then best
    else if PrefixCandidate(locs[i], path) && (best.None? || |PrefixOf(locs[i])| > BestLen(locs, best)) then
      PrefixPass(locs, path, i + 1, Some(i))
    else PrefixPass(locs, path, i + 1, best)
  }

  /** `find_location` with the intended prefix pass. */
  function FindLocation(locs: seq<LocationBlock>, path: string): (r: Option<nat>)
    ensures r.Some? ==> r.value < |locs|
  {
    match FirstExact(locs, path, 0)
    case Some(k) => Some(k)
    case None => PrefixPass(locs, path, 0, None)
  }

  predicate Scanned(locs: seq<LocationBlock>, path: string, i: nat, best: Option<nat>)
    requires i <= |locs| && (best.Some? ==> best.value < i)
  {
    && (best.None? ==> forall j :: 0 <= j < i ==> !PrefixCandidate(locs[j], path))
    && (best.Some? ==> PrefixCandidate(locs[best.value], path))
    && (best.Some? ==> forall j :: 0 <= j < best.value && PrefixCandidate(locs[j], path) ==>
          |PrefixOf(locs[j])| < |PrefixOf(locs[best.value])|)
    && (best.Some? ==> forall j :: best.value < j < i && PrefixCandidate(locs[j], path) ==>
          |PrefixOf(locs[j])| <= |PrefixOf(locs[best.value])|)
  }

  /** The outcome the intended prefix pass promises: the longest candidate, or None
      when no location is a candidate. */
  predicate Outcome(locs: seq<LocationBlock>, path: string, r: Option<nat>) {
    && (r.Some? ==> LongestCandidate(locs, path, r.value))
    && (r.None? ==> forall j :: 0 <= j < |locs| ==> !PrefixCandidate(locs[j], path))
  }

  lemma {:induction false} PrefixPassSpec(locs: seq<LocationBlock>, path: string, i: nat, best: Option<nat>)
    requires i <= |locs| && (best.Some? ==> best.value < i)
    requires Scanned(locs, path, i, best)
    ensures Outcome(locs, path, PrefixPass(locs, path, i, best))
    decreases |locs| - i
  {
    if i == |locs| {
      assert PrefixPass(locs, path, i, best) == best;
      ScanEnd(locs, path, best);
    } else {
      var next := ScanAdvance(locs, path, i, best);
      PrefixPassSpec(locs, path, i + 1, next);
    }
  }

  /** One step of the intended pass: the best so far it moves on with, and what it
      keeps about the scanned part. */
  lemma ScanAdvance(locs: seq<LocationBlock>, path: string, i: nat, best: Option<nat>) returns (next: Option<nat>)
    requires i < |locs| && (best.Some? ==> best.value < i)
    requires Scanned(locs, path, i, best)
    ensures next.Some? ==> next.value < i + 1
    ensures Scanned(locs, path, i + 1, next)
    ensures PrefixPass(locs, path, i, best) == PrefixPass(locs, path, i + 1, next)
  {
    ScanStep(locs, path, i, best);
    next := if PrefixCandidate(locs[i], path) && (best.None? || |PrefixOf(locs[i])| > BestLen(locs, best)) then Some(i) else best;
  }

  /** Once every location is scanned, what the intended pass keeps is its outcome. */
  lemma ScanEnd(locs: seq<LocationBlock>, path: string, best: Option<nat>)
    requires best.Some? ==> best.value < |locs|
    requires Scanned(locs, path, |locs|, best)
    ensures Outcome(locs, path, best)
  {
  }

  /** One step of the intended prefix pass keeps what it knows about the scanned
      part. */
  lemma ScanStep(locs: seq<LocationBlock>, path: string, i: nat, best: Option<nat>)
    requires i < |locs| && (best.Some? ==> best.value < i)
    requires Scanned(locs, path, i, best)
    ensures PrefixCandidate(locs[i], path) && (best.None? || |PrefixOf(locs[i])| > BestLen(locs, best)) ==>
              Scanned(locs, path, i + 1, Some(i))
    ensures !(PrefixCandidate(locs[i], path) && (best.None? || |PrefixOf(locs[i])| > BestLen(locs, best))) ==>
              Scanned(locs, path, i + 1, best)
  {
    var len := |PrefixOf(locs[i])|;
    if PrefixCandidate(locs[i], path) && (best.None? || len > BestLen(locs, best)) {
      forall j | 0 <= j < i && PrefixCandidate(locs[j], path)
        ensures |PrefixOf(locs[j])| < len
      {
        if j != best.value {
          assert |PrefixOf(locs[j])| <= BestLen(locs, best);
        }
      }
    } else if best.Some? {
      forall j | best.value < j < i + 1 && PrefixCandidate(locs[j], path)
        ensures |PrefixOf(locs[j])| <= |PrefixOf(locs[best.value])|
      {
      }
    }
  }

  /** The intended lookup: an exact match wins; otherwise the strictly longest
      candidate, ties to the earliest; None exactly when no location is a
      candidate. */
  lemma FindLocationSpec(locs: seq<LocationBlock>, path: string)
    ensures FirstExact(locs, path, 0).Some? ==> FindLocation(locs, path) == FirstExact(locs, path, 0)
    ensures FirstExact(locs, path, 0).None? && FindLocation(locs, path).Some? ==>
              LongestCandidate(locs, path, FindLocation(locs, path).value)
    ensures FindLocation(locs, path).None? <==>
              forall j :: 0 <= j < |locs| ==> locs[j].path != path && !PrefixCandidate(locs[j], path)
  {
    PrefixPassSpec(locs, path, 0, None);
  }

  /** With the intended lookup, a configured `location /` catches every path. */
  lemma RootCatchesAll(locs: seq<LocationBlock>, path: string, k: nat)
    requires k < |locs| && locs[k].path == "/"
    requires |path| > 0 && path[0] == '/'
    ensures FindLocation(locs, path).Some?
  {
    assert TrimSlashes("/") == TrimSlashes("/"[..0]);
    assert PrefixCandidate(locs[k], path);
    FindLocationSpec(locs, path);
  }

  /** Both lookups agree whenever the answer is not a location with an empty
      prefix. */
  lemma FindLocationAgrees(locs: seq<LocationBlock>, path: string)
    requires FindLocation(locs, path).Some? ==>
               |PrefixOf(locs[FindLocation(locs, path).value])| > 0 || locs[FindLocation(locs, path).value].path == path
    ensures FindLocationAsWritten(locs, path) == FindLocation(locs, path)
  {
    FindLocationSpec(locs, path);
    FindLocationAsWrittenSpec(locs, path);
    if FirstExact(locs, path, 0).None? {
      var a := FindLocationAsWritten(locs, path);
      var c := FindLocation(locs, path);
      if a.Some? && c.Some? {
        LongestUnique(locs, path, a.value, c.value);
      }
    }
  }

  /** There is only one longest candidate. */
  lemma LongestUnique(locs: seq<LocationBlock>, path: string, a: nat, b: nat)
    requires LongestCandidate(locs, path, a) && LongestCandidate(locs, path, b)
    ensures a == b
  {
  }

  /* ---------------- get_upstream ---------------- */

  /** `get_upstream`: the upstream declared under `name`, if any. */
  function GetUpstream(cfg: NginxConfig, name: string): (r: Option<UpstreamBlock>)
    ensures r.Some? <==> name in cfg.upstreams
    ensures r.Some? ==> r.value == cfg.upstreams[name]
  {
    if name in cfg.upstreams then Some(cfg.upstreams[name]) else None
  }
}
