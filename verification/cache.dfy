/** The cache policy of `src/cache/mod.rs`: rule compilation, the cache key, the
    cacheability gate and the TTL lookup. A rule path is a glob; its compiled
    regex is modelled as a sequence of tokens, each matching one literal
    character, a run of literal dots, or any run of characters. */
module Cache {
  import opened Wrappers
  import opened Text
  import opened Http
  import opened Config

  datatype Token = Lit(c: char) | DotRun | AnyRun

  /** Whole-string match of a token sequence (the compiled regex is anchored with
      `^` and `$`). */
  predicate Matches(p: seq<Token>, s: string)
    decreases |p|, |s|
  {
    if |p| == 0 then |s| == 0
    else
      match p[0]
      case Lit(c) => |s| > 0 && s[0] == c && Matches(p[1..], s[1..])
      case DotRun => Matches(p[1..], s) || (|s| > 0 && s[0] == '.' && Matches(p, s[1..]))
      case AnyRun => Matches(p[1..], s) || (|s| > 0 && Matches(p, s[1..]))
  }

  /* ---------------- the glob translation ---------------- */

  /** The translation as written: `*` becomes `.*`, and then every `.` (including
      the one just produced) becomes `\.`; so `*` turns into `\.*`, a run of
      literal dots. */
  function CompileAsWritten(glob: string): (p: seq<Token>)
    ensures |p| == |glob|
    ensures forall i :: 0 <= i < |glob| ==> (glob[i] == '*' <==> p[i] == DotRun)
    ensures forall i :: 0 <= i < |glob| && glob[i] != '*' ==> p[i] == Lit(glob[i])
  {
    seq(|glob|, i requires 0 <= i < |glob| => if glob[i] == '*' then DotRun else Lit(glob[i]))
  }

  /** Every character of a string matched by a pattern without `AnyRun` is a dot
      or one of the pattern's literals. */
  lemma {:induction false} MatchedCharsAsWritten(p: seq<Token>, s: string)
    requires AnyRun !in p && Matches(p, s)
    ensures forall i :: 0 <= i < |s| ==> s[i] == '.' || Lit(s[i]) in p
    decreases |p|, |s|
  {
    if |p| > 0 {
      match p[0]
      case Lit(c) =>
        assert AnyRun !in p[1..];
        MatchedCharsAsWritten(p[1..], s[1..]);
        forall i | 0 <= i < |s| ensures s[i] == '.' || Lit(s[i]) in p {
          if i > 0 {
            assert s[i] == s[1..][i - 1];
            if Lit(s[i]) in p[1..] {
              var j :| 0 <= j < |p[1..]| && p[1..][j] == Lit(s[i]);
              assert p[j + 1] == Lit(s[i]);
            }
          }
        }
      case DotRun =>
        if Matches(p[1..], s) {
          assert AnyRun !in p[1..];
          MatchedCharsAsWritten(p[1..], s);
          forall i | 0 <= i < |s| ensures s[i] == '.' || Lit(s[i]) in p {
            if Lit(s[i]) in p[1..] {
              var j :| 0 <= j < |p[1..]| && p[1..][j] == Lit(s[i]);
              assert p[j + 1] == Lit(s[i]);
            }
          }
        } else {
          MatchedCharsAsWritten(p, s[1..]);
          forall i | 0 <= i < |s| ensures s[i] == '.' || Lit(s[i]) in p {
            if i > 0 {
              assert s[i] == s[1..][i - 1];
            }
          }
        }
      case AnyRun =>
        assert false;
    }
  }

  /** The translation evidently intended: `*` matches any run of characters and
      every other character itself. */
  function CompileGlob(glob: string): (p: seq<Token>)
    ensures |p| == |glob|
    ensures forall i :: 0 <= i < |glob| ==> (glob[i] == '*' <==> p[i] == AnyRun)
    ensures forall i :: 0 <= i < |glob| && glob[i] != '*' ==> p[i] == Lit(glob[i])
  {
    seq(|glob|, i requires 0 <= i < |glob| => if glob[i] == '*' then AnyRun else Lit(glob[i]))
  }

  /** Glob matching stated directly on the glob text. */
  predicate GlobMatches(glob: string, s: string)
    decreases |glob|, |s|
  {
    if |glob| == 0 then |s| == 0
    else if glob[0] == '*' then GlobMatches(glob[1..], s) || (|s| > 0 && GlobMatches(glob, s[1..]))
    else |s| > 0 && s[0] == glob[0] && GlobMatches(glob[1..], s[1..])
  }

  /** The corrected compiled pattern matches exactly what the glob describes. */
  lemma {:induction false} CompileGlobMeaning(glob: string, s: string)
    ensures Matches(CompileGlob(glob), s) <==> GlobMatches(glob, s)
    decreases |glob|, |s|
  {
    var p := CompileGlob(glob);
    if |glob| > 0 {
      assert p[1..] == CompileGlob(glob[1..]);
      if glob[0] == '*' {
        CompileGlobMeaning(glob[1..], s);
        if |s| > 0 {
          CompileGlobMeaning(glob, s[1..]);
        }
      } else if |s| > 0 {
        CompileGlobMeaning(glob[1..], s[1..]);
      }
    }
  }

  /** The literal tokens of a string. */
  function Lits(t: string): (p: seq<Token>)
    ensures |p| == |t| && forall i :: 0 <= i < |t| ==> p[i] == Lit(t[i])
  {
    seq(|t|, i requires 0 <= i < |t| => Lit(t[i]))
  }

  /** Literal tokens followed by `rest` match a string exactly when it starts with
      those characters and `rest` matches what follows. */
  lemma {:induction false} LitsThen(t: string, rest: seq<Token>, s: string)
    ensures Matches(Lits(t) + rest, s) <==> StartsWith(s, t) && Matches(rest, s[|t|..])
    decreases |t|
  {
    if |t| > 0 {
      var p := Lits(t) + rest;
      assert p[0] == Lit(t[0]);
      assert p[1..] == Lits(t[1..]) + rest;
      if |s| > 0 {
        LitsThen(t[1..], rest, s[1..]);
        if StartsWith(s, t) {
          assert s[1..][..|t| - 1] == t[1..];
          assert s[1..][|t| - 1..] == s[|t|..];
        }
        if s[0] == t[0] && StartsWith(s[1..], t[1..]) {
          assert s[..|t|] == [s[0]] + s[1..][..|t| - 1];
          assert s[1..][|t| - 1..] == s[|t|..];
        }
      }
    } else {
      assert Lits(t) + rest == rest;
    }
  }

  /** `AnyRun` matches everything. */
  lemma {:induction false} AnyRunMatchesAll(s: string)
    ensures Matches([AnyRun], s)
    decreases |s|
  {
    if |s| > 0 {
      AnyRunMatchesAll(s[1..]);
    }
  }

  /** `AnyRun` followed by literals matches exactly the strings ending in them. */
  lemma {:induction false} AnyRunThenLits(t: string, s: string)
    ensures Matches([AnyRun] + Lits(t), s) <==> EndsWith(s, t)
    decreases |s|
  {
    var p := [AnyRun] + Lits(t);
    assert p[1..] == Lits(t) + [];
    LitsThen(t, [], s);
    if |s| > 0 {
      AnyRunThenLits(t, s[1..]);
      if |t| <= |s| - 1 {
        assert s[1..][|s| - 1 - |t|..] == s[|s| - |t|..];
      }
    }
    if StartsWith(s, t) && |s[|t|..]| == 0 {
      assert s == t;
    }
  }

  /* ---------------- compiled rules and the TTL ---------------- */

  /** A compiled rule: the pattern and its TTL in seconds. */
  datatype CompiledRule = CompiledRule(pattern: seq<Token>, ttl: nat)

  /** The rule list of `CacheManager::new` with the translation as written: every
      rule is kept, in order, with its TTL. */
  function CompileRulesAsWritten(rules: seq<CacheRule>): (r: seq<CompiledRule>)
    ensures |r| == |rules|
    ensures forall k :: 0 <= k < |rules| ==> r[k] == CompiledRule(CompileAsWritten(rules[k].path), rules[k].ttl)
  {
    seq(|rules|, k requires 0 <= k < |rules| => CompiledRule(CompileAsWritten(rules[k].path), rules[k].ttl))
  }

  /** The rule list with the corrected translation. */
  function CompileRules(rules: seq<CacheRule>): (r: seq<CompiledRule>)
    ensures |r| == |rules|
    ensures forall k :: 0 <= k < |rules| ==> r[k] == CompiledRule(CompileGlob(rules[k].path), rules[k].ttl)
  {
    seq(|rules|, k requires 0 <= k < |rules| => CompiledRule(CompileGlob(rules[k].path), rules[k].ttl))
  }

  /** The first rule from index `i` on whose pattern matches the path. */
  function FirstMatch(rules: seq<CompiledRule>, path: string, i: nat): (k: Option<nat>)
    requires i <= |rules|
    ensures k.None? <==> forall j :: i <= j < |rules| ==> !Matches(rules[j].pattern, path)
    ensures k.Some? ==> i <= k.value < |rules| && Matches(rules[k.value].pattern, path)
    ensures k.Some? ==> forall j :: i <= j < k.value ==> !Matches(rules[j].pattern, path)
    decreases |rules| - i
  {
    if i == |rules| then None
    else if Matches(rules[i].pattern, path) then Some(i)
    else FirstMatch(rules, path, i + 1)
  }

  /** `get_ttl_for_path`: the TTL of the first matching rule, else the default. */
  function TtlForPath(rules: seq<CompiledRule>, defaultTtl: nat, path: string): (ttl: nat)
    ensures (forall j :: 0 <= j < |rules| ==> !Matches(rules[j].pattern, path)) ==> ttl == defaultTtl
    ensures forall k :: (0 <= k < |rules| && Matches(rules[k].pattern, path)
                         && forall j :: 0 <= j < k ==> !Matches(rules[j].pattern, path)) ==> ttl == rules[k].ttl
  {
    match FirstMatch(rules, path, 0)
    case None => defaultTtl
    case Some(k) => rules[k].ttl
  }

  /** The rules of the unit test. */
  const TestRules: seq<CacheRule> :=
    [CacheRule("/api/static/*", 3600), CacheRule("*.css", 86400), CacheRule("*.js", 86400)]

  /** A TTL lookup over three rules, spelled out. */
  lemma TtlOfThree(rules: seq<CompiledRule>, d: nat, path: string)
    requires |rules| == 3
    ensures TtlForPath(rules, d, path) ==
              if Matches(rules[0].pattern, path) then rules[0].ttl
              else if Matches(rules[1].pattern, path) then rules[1].ttl
              else if Matches(rules[2].pattern, path) then rules[2].ttl
              else d
  {
  }

  /** A string holding a character that is neither a dot nor in the glob is not
      matched by the glob as written. */
  lemma NoMatchAsWritten(glob: string, s: string, i: nat)
    requires i < |s| && s[i] != '.' && s[i] !in glob
    ensures !Matches(CompileAsWritten(glob), s)
  {
    var p := CompileAsWritten(glob);
    assert AnyRun !in p;
    if Matches(p, s) {
      MatchedCharsAsWritten(p, s);
    }
  }

  /** As written, a path starting with `/` that does not continue `/api/static/`
      with dots only falls through all three test rules to the default: the
      first rule wants exactly that, and the other two want a dot first. */
  lemma AsWrittenFallsThrough(path: string)
    requires |path| > 0 && path[0] == '/'
    requires !StartsWith(path, "/api/static/") || (|path| > 12 && path[12] != '.')
    ensures TtlForPath(CompileRulesAsWritten(TestRules), 300, path) == 300
  {
    var rules := CompileRulesAsWritten(TestRules);
    var prefix := "/api/static/";
    assert rules[0].pattern == Lits(prefix) + [DotRun];
    assert rules[1].pattern == [DotRun] + Lits(".css");
    assert rules[2].pattern == [DotRun] + Lits(".js");
    LitsThen(prefix, [DotRun], path);
    LitsThen(".css", [], path);
    LitsThen(".js", [], path);
    assert ([DotRun] + Lits(".css"))[1..] == Lits(".css") + [];
    assert ([DotRun] + Lits(".js"))[1..] == Lits(".js") + [];
    TtlOfThree(rules, 300, path);
  }

  /** As written, none of the test's rules matches any of its paths, so every
      lookup falls through to the default 300 and three of the four expectations
      fail. */
  lemma TestTtlsAsWritten()
    ensures TtlForPath(CompileRulesAsWritten(TestRules), 300, "/api/static/image.png") == 300
    ensures TtlForPath(CompileRulesAsWritten(TestRules), 300, "/styles/main.css") == 300
    ensures TtlForPath(CompileRulesAsWritten(TestRules), 300, "/scripts/app.js") == 300
    ensures TtlForPath(CompileRulesAsWritten(TestRules), 300, "/api/users") == 300
  {
    AsWrittenFallsThrough("/api/static/image.png");
    NotPrefixAt("/styles/main.css", "/api/static/", 1);
    AsWrittenFallsThrough("/styles/main.css");
    NotPrefixAt("/scripts/app.js", "/api/static/", 1);
    AsWrittenFallsThrough("/scripts/app.js");
    NotPrefixAt("/api/users", "/api/static/", 5);
    AsWrittenFallsThrough("/api/users");
  }

  /** With the corrected translation the test's rules mean what they say: paths
      under `/api/static/` get 3600, other paths ending in `.css` or `.js` get
      86400, and the rest the default. */
  lemma TestRulesCorrected(path: string)
    ensures StartsWith(path, "/api/static/") ==> TtlForPath(CompileRules(TestRules), 300, path) == 3600
    ensures !StartsWith(path, "/api/static/") && (EndsWith(path, ".css") || EndsWith(path, ".js")) ==>
              TtlForPath(CompileRules(TestRules), 300, path) == 86400
    ensures !StartsWith(path, "/api/static/") && !EndsWith(path, ".css") && !EndsWith(path, ".js") ==>
              TtlForPath(CompileRules(TestRules), 300, path) == 300
  {
    var rules := CompileRules(TestRules);
    var prefix := "/api/static/";
    assert rules[0].pattern == Lits(prefix) + [AnyRun];
    assert rules[1].pattern == [AnyRun] + Lits(".css");
    assert rules[2].pattern == [AnyRun] + Lits(".js");
    LitsThen(prefix, [AnyRun], path);
    if StartsWith(path, prefix) {
      AnyRunMatchesAll(path[|prefix|..]);
    }
    AnyRunThenLits(".css", path);
    AnyRunThenLits(".js", path);
    TtlOfThree(rules, 300, path);
  }

  /** Hence the test's expectations for the static path and the default hold for
      the corrected translation. */
  lemma TestTtlsCorrected()
    ensures TtlForPath(CompileRules(TestRules), 300, "/api/static/image.png") == 3600
    ensures TtlForPath(CompileRules(TestRules), 300, "/api/users") == 300
  {
    var image, users := "/api/static/image.png", "/api/users";
    assert image[..12] == "/api/static/";
    TestRulesCorrected(image);
    NotPrefixAt(users, "/api/static/", 5);
    NotSuffixAt(users, ".css", 0);
    NotSuffixAt(users, ".js", 0);
    TestRulesCorrected(users);
  }

  /** And so do its expectations for the stylesheet and the script. */
  lemma TestTtlsCorrectedAssets()
    ensures TtlForPath(CompileRules(TestRules), 300, "/styles/main.css") == 86400
    ensures TtlForPath(CompileRules(TestRules), 300, "/scripts/app.js") == 86400
  {
    var css, js := "/styles/main.css", "/scripts/app.js";
    NotPrefixAt(css, "/api/static/", 1);
    assert css[12..] == ".css";
    TestRulesCorrected(css);
    NotPrefixAt(js, "/api/static/", 1);
    assert js[12..] == ".js";
    TestRulesCorrected(js);
  }

  lemma NotPrefixAt(s: string, p: string, i: nat)
    requires i < |s| && i < |p| && s[i] != p[i]
    ensures !StartsWith(s, p)
  {
  }

  lemma NotSuffixAt(s: string, q: string, i: nat)
    requires |q| <= |s| && i < |q| && s[|s| - |q| + i] != q[i]
    ensures !EndsWith(s, q)
  {
  }

  /* ---------------- the cache key and the gates ---------------- */

  /** The parts of the cache key, in order: the host header when it is text, the
      path, the query when present, and `ae:` with the Accept-Encoding header when
      it is text. */
  function KeyParts(req: Request): (parts: seq<string>)
    ensures |parts| > 0
  {
    (match HeaderText(req.headers, "host") case Some(h) => [h] case None => [])
    + [req.path]
    + (match req.query case Some(q) => [q] case None => [])
    + (match HeaderText(req.headers, "accept-encoding") case Some(e) => ["ae:" + e] case None => [])
  }

  /** `create_cache_key`: None when caching is disabled or the method is not GET;
      else the parts joined with `|`. */
  function CreateCacheKey(cfg: CacheConfig, req: Request): (key: Option<string>)
    ensures key.Some? <==> cfg.enabled && req.httpMethod == "GET"
    ensures key.Some? ==> key.value == Join(KeyParts(req), "|")
  {
    if !cfg.enabled || req.httpMethod != "GET" then None
    else Some(Join(KeyParts(req), "|"))
  }

  /** When no part holds a `|`, the key gives the parts back. */
  lemma CacheKeyParts(cfg: CacheConfig, req: Request)
    requires cfg.enabled && req.httpMethod == "GET"
    requires forall k :: 0 <= k < |KeyParts(req)| ==> '|' !in KeyParts(req)[k]
    ensures SplitOn(CreateCacheKey(cfg, req).value, '|') == KeyParts(req)
  {
    SplitOnJoin(KeyParts(req), '|');
  }

  /** The key cannot tell a query `ae:<e>` from an Accept-Encoding `<e>`: two
      different requests share one key. */
  lemma QueryAndEncodingCollide(cfg: CacheConfig, req: Request, e: string)
    requires cfg.enabled && req.httpMethod == "GET"
    requires HeaderText(req.headers, "host").None? && req.query.None?
    requires req.headers == map["accept-encoding" := Visible(e)]
    ensures var other := req.(headers := map[], query := Some("ae:" + e));
      && other != req
      && CreateCacheKey(cfg, req) == CreateCacheKey(cfg, other)
  {
    var other := req.(headers := map[], query := Some("ae:" + e));
    assert KeyParts(req) == [req.path, "ae:" + e];
    assert KeyParts(other) == [req.path, "ae:" + e];
  }

  /** The gates of `is_response_cacheable`, and the TTL it would log when all pass:
      caching enabled, a GET request, a status below 400 or exactly 404, and no
      `no-cache`, `no-store` or `private` in a textual Cache-Control. */
  function CacheableTtl(cfg: CacheConfig, rules: seq<CompiledRule>, req: Request, status: nat, respHeaders: Headers): (ttl: Option<nat>)
    ensures ttl.Some? <==>
              && cfg.enabled && req.httpMethod == "GET"
              && (status < 400 || status == 404)
              && !(HeaderText(respHeaders, "cache-control").Some?
                   && (Contains(HeaderText(respHeaders, "cache-control").value, "no-cache")
                       || Contains(HeaderText(respHeaders, "cache-control").value, "no-store")
                       || Contains(HeaderText(respHeaders, "cache-control").value, "private")))
    ensures ttl.Some? ==> ttl.value == TtlForPath(rules, cfg.defaultTtl, req.path)
  {
    if !cfg.enabled || req.httpMethod != "GET" then None
    else if status >= 400 && status != 404 then None
    else
      match HeaderText(respHeaders, "cache-control")
      case Some(cc) =>
        if Contains(cc, "no-cache") || Contains(cc, "no-store") || Contains(cc, "private") then None
        else Some(TtlForPath(rules, cfg.defaultTtl, req.path))
      case None => Some(TtlForPath(rules, cfg.defaultTtl, req.path))
  }

  /** A response the gate passes always has a cache key: the gate's first two
      conditions are the key's. */
  lemma CacheableHasKey(cfg: CacheConfig, rules: seq<CompiledRule>, req: Request, status: nat, respHeaders: Headers)
    requires CacheableTtl(cfg, rules, req, status, respHeaders).Some?
    ensures CreateCacheKey(cfg, req).Some?
  {
  }

  /** The Cache-Control test is by substring: a directive anywhere in the value,
      as in `max-age=60, private`, refuses the response. */
  lemma CacheControlRefusedBySubstring(cfg: CacheConfig, rules: seq<CompiledRule>, req: Request, status: nat,
                                       respHeaders: Headers, before: string, directive: string, after: string)
    requires directive in {"no-cache", "no-store", "private"}
    requires HeaderText(respHeaders, "cache-control") == Some(before + directive + after)
    ensures CacheableTtl(cfg, rules, req, status, respHeaders).None?
  {
    assert before + directive + after == before + (directive + after);
    ContainsPrefix(directive + after, directive);
    ContainsAppend(before, directive + after, directive);
  }

  /** For the source test's rules, a cacheable GET of `/styles/main.css` is logged
      with the default TTL as written, where the rules promise a day. */
  lemma StylesheetTtlAsWritten(cfg: CacheConfig, req: Request, respHeaders: Headers)
    requires cfg.enabled && cfg.defaultTtl == 300
    requires req.httpMethod == "GET" && req.path == "/styles/main.css"
    requires HeaderText(respHeaders, "cache-control").None?
    ensures CacheableTtl(cfg, CompileRulesAsWritten(TestRules), req, 200, respHeaders) == Some(300)
    ensures CacheableTtl(cfg, CompileRules(TestRules), req, 200, respHeaders) == Some(86400)
  {
    TestTtlsAsWritten();
    TestTtlsCorrectedAssets();
  }

  /** `is_response_cacheable` itself: whatever the gates decide, storage is not
      wired up and the answer is "not cacheable" on every path. */
  function IsResponseCacheable(cfg: CacheConfig, rules: seq<CompiledRule>, req: Request, status: nat, respHeaders: Headers): (r: Option<nat>)
    ensures r.None?
  {
    var _ := CacheableTtl(cfg, rules, req, status, respHeaders);
    None
  }

  /** `should_serve_stale`: stale entries are never served. */
  function ShouldServeStale(): (serve: bool)
    ensures !serve
  {
    false
  }
}
