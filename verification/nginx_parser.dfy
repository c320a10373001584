/** The nginx-style configuration reader of `src/config/nginx_parser.rs`: comment
    stripping, the directives of a `server` block, `location` and `upstream` blocks,
    and the merge of every file of a sites-enabled directory. */
module NginxParser {
  import opened Wrappers
  import opened Text
  import opened RegexShapes

  datatype ListenDirective = ListenDirective(port: nat, ssl: bool, http2: bool)

  datatype RateLimit = RateLimit(requestsPerSecond: nat, burst: nat)

  datatype LocationBlock = LocationBlock(
    path: string,
    proxyPass: Option<string>,
    rateLimit: Option<RateLimit>,
    corsEnable: bool)

  datatype UpstreamServer = UpstreamServer(address: string, weight: nat)

  datatype UpstreamBlock = UpstreamBlock(name: string, servers: seq<UpstreamServer>)

  datatype ServerBlock = ServerBlock(
    listenPorts: seq<ListenDirective>,
    serverNames: seq<string>,
    sslCertificate: Option<string>,
    sslCertificateKey: Option<string>,
    locations: seq<LocationBlock>)

  datatype NginxConfig = NginxConfig(servers: seq<ServerBlock>, upstreams: map<string, UpstreamBlock>)

  /** The outcome of code that indexes `parts[0]` without checking: a value, or a
      panic that unwinds out of the whole parse. */
  datatype Parse<T> = Parsed(value: T) | Panicked

  /* ---------------- comments ---------------- */

  /** One line with `#…` removed and the rest trimmed. */
  function CleanLine(line: string): (r: string)
    ensures '#' !in r && Trimmed(r)
    ensures '#' !in line ==> r == Trim(line)
    ensures '\n' !in line ==> '\n' !in r
  {
    var p := PrefixBefore(line, '#');
    PrefixBeforeWhole(line, '#');
    TrimShape(p, '#');
    TrimShape(p, '\n');
    assert '\n' !in line ==> '\n' !in p by {
      assert p == line[..|p|];
    }
    assert IsSpace('\r');
    Trim(p)
  }

  /** A line as it survives cleaning: non-empty, comment-free and trimmed. */
  predicate CleanText(line: string) {
    |line| > 0 && '#' !in line && Trimmed(line)
  }

  /** The cleaned line, kept only when it is not empty. */
  function Kept(c: string): (r: seq<string>)
    ensures |r| <= 1
  {
    if |c| == 0 then [] else [c]
  }

  /** The cleaned lines that are not empty, in input order. */
  function CleanLines(ls: seq<string>): (r: seq<string>)
    ensures |r| <= |ls|
    decreases |ls|
  {
    if |ls| == 0 then [] else Kept(CleanLine(ls[0])) + CleanLines(ls[1..])
  }

  /** Every cleaned line is non-empty, comment-free and trimmed. */
  lemma {:induction false} CleanLinesClean(ls: seq<string>)
    ensures forall k :: 0 <= k < |CleanLines(ls)| ==> CleanText(CleanLines(ls)[k])
    decreases |ls|
  {
    if |ls| > 0 {
      CleanLinesClean(ls[1..]);
      AllAppend(Kept(CleanLine(ls[0])), CleanLines(ls[1..]), CleanText);
    }
  }

  /** Cleaning never introduces a line break. */
  lemma {:induction false} CleanLinesNoBreak(ls: seq<string>)
    requires forall k :: 0 <= k < |ls| ==> '\n' !in ls[k]
    ensures forall k :: 0 <= k < |CleanLines(ls)| ==> '\n' !in CleanLines(ls)[k]
    decreases |ls|
  {
    if |ls| > 0 {
      var noBreak := (x: string) => '\n' !in x;
      AllTail(ls, noBreak);
      CleanLinesNoBreak(ls[1..]);
      KeptNoBreak(ls[0]);
      AllAppend(Kept(CleanLine(ls[0])), CleanLines(ls[1..]), noBreak);
      assert CleanLines(ls) == Kept(CleanLine(ls[0])) + CleanLines(ls[1..]);
    }
  }

  lemma KeptNoBreak(line: string)
    requires '\n' !in line
    ensures forall k :: 0 <= k < |Kept(CleanLine(line))| ==> '\n' !in Kept(CleanLine(line))[k]
  {
  }

  /** `remove_comments`: every line loses its comment and surrounding whitespace,
      empty lines are dropped, and the rest are joined with `\n`. */
  function RemoveComments(content: string): (r: string)
    ensures Lines(r) == CleanLines(Lines(content))
  {
    var ls := CleanLines(Lines(content));
    CleanLinesNoBreak(Lines(content));
    CleanLinesClean(Lines(content));
    assert IsSpace('\r');
    assert forall k :: 0 <= k < |ls| ==> PlainLine(ls[k]);
    LinesJoin(ls);
    Join(ls, "\n")
  }

  /** Cleaning distributes over concatenation of line lists: input line order is
      kept. */
  lemma {:induction false} CleanLinesAppend(a: seq<string>, b: seq<string>)
    ensures CleanLines(a + b) == CleanLines(a) + CleanLines(b)
    decreases |a|
  {
    if |a| > 0 {
      var first := Kept(CleanLine(a[0]));
      calc {
        CleanLines(a + b);
        { AppendHeadTail(a, b); }
        first + CleanLines(a[1..] + b);
        { CleanLinesAppend(a[1..], b); }
        first + (CleanLines(a[1..]) + CleanLines(b));
        { AppendAssoc(first, CleanLines(a[1..]), CleanLines(b)); }
        (first + CleanLines(a[1..])) + CleanLines(b);
        CleanLines(a) + CleanLines(b);
      }
    } else {
      assert a + b == b;
    }
  }

  /** Lines that are already clean pass through unchanged. */
  lemma {:induction false} CleanLinesOfClean(ls: seq<string>)
    requires forall k :: 0 <= k < |ls| ==> CleanText(ls[k])
    ensures CleanLines(ls) == ls
    decreases |ls|
  {
    if |ls| > 0 {
      calc {
        CleanLines(ls);
        Kept(CleanLine(ls[0])) + CleanLines(ls[1..]);
        { CleanLineOfClean(ls[0]); }
        [ls[0]] + CleanLines(ls[1..]);
        { assert forall k :: 0 <= k < |ls[1..]| ==> ls[1..][k] == ls[k + 1];
          CleanLinesOfClean(ls[1..]); }
        [ls[0]] + ls[1..];
        { HeadTail(ls); }
        ls;
      }
    }
  }

  /** A line that is already clean is its own cleaning. */
  lemma CleanLineOfClean(line: string)
    requires CleanText(line)
    ensures CleanLine(line) == line
  {
    TrimNoop(line);
  }

  /** Stripping comments twice is the same as stripping them once. */
  lemma RemoveCommentsIdempotent(content: string)
    ensures RemoveComments(RemoveComments(content)) == RemoveComments(content)
  {
    var once := RemoveComments(content);
    var ls := CleanLines(Lines(content));
    CleanLinesClean(Lines(content));
    assert Lines(once) == ls;
    CleanLinesOfClean(ls);
  }

  /* ---------------- listen ---------------- */

  /** The directive built from the whitespace tokens of a `listen` value, when its
      first token is a u16. */
  function ListenOfParts(parts: seq<string>): (r: Option<ListenDirective>)
    requires |parts| > 0
    ensures r.Some? ==> r.value.port <= U16Max
  {
    match ParseUnsigned(parts[0], U16Max)
    case None => None
    case Some(p) => Some(ListenDirective(p, "ssl" in parts, "http2" in parts))
  }

  /** `parse_listen_directive` as written: a value holding no token makes
      `parts[0]` panic. */
  function ParseListenAsWritten(v: string): (r: Parse<Option<ListenDirective>>)
    ensures r.Panicked? <==> SplitWhitespace(v) == []
  {
    var parts := SplitWhitespace(v);
    if |parts| == 0 then Panicked else Parsed(ListenOfParts(parts))
  }

  /** `parse_listen_directive` with the blank value rejected like any other
      unparseable one. */
  function ParseListen(v: string): (r: Option<ListenDirective>)
    ensures r.Some? ==> r.value.port <= U16Max
    ensures r.Some? ==> SplitWhitespace(v) != [] && ParseUnsigned(SplitWhitespace(v)[0], U16Max) == Some(r.value.port)
    ensures r.Some? ==> (r.value.ssl <==> "ssl" in SplitWhitespace(v)) && (r.value.http2 <==> "http2" in SplitWhitespace(v))
  {
    var parts := SplitWhitespace(v);
    if |parts| == 0 then None else ListenOfParts(parts)
  }

  /** Wherever the code as written does not panic, it agrees with `ParseListen`. */
  lemma ListenAsWrittenAgrees(v: string)
    requires ParseListenAsWritten(v).Parsed?
    ensures ParseListenAsWritten(v).value == ParseListen(v)
  {
  }

  /** `listen  ;` (two blanks) matches the directive pattern with the capture `" "`,
      which has no token: the code as written panics on it, the corrected parser
      drops the directive. */
  lemma BlankListenPanics()
    ensures ScanFirst(Directive("listen"), "listen  ;") == Some([" "])
    ensures ParseListenAsWritten(" ") == Panicked
    ensures ParseListen(" ") == None
  {
    var s := "listen  ;";
    assert StartsWith(s, "listen");
    var rest := s[6..];
    assert rest == "  ;";
    assert PrefixBefore(rest, ';') == "  " by {
      PrefixBeforeFirst("  ", ";", ';');
      assert "  " + ";" == rest;
    }
    assert Run("  ", IsSpace) == 2 by {
      assert Run("  "[1..], IsSpace) == 1;
    }
    assert "  "[1..] == " ";
    assert TrimStart(" ") == "" by {
      assert " "[1..] == "";
    }
  }

  /** The canonical text of a listen directive's value: the port, then `ssl`, then
      `http2`, separated by single spaces. */
  function ListenTokens(d: ListenDirective): seq<string> {
    [NatToString(d.port)] + (if d.ssl then ["ssl"] else []) + (if d.http2 then ["http2"] else [])
  }

  function RenderListen(d: ListenDirective): string {
    Join(ListenTokens(d), " ")
  }

  /** Rendering a listen directive and parsing the value back gives the directive. */
  lemma ListenRoundTrip(d: ListenDirective)
    requires d.port <= U16Max
    ensures ParseListen(RenderListen(d)) == Some(d)
  {
    var t := ListenTokens(d);
    ListenTokensPlain(d);
    SplitJoinSpaces(t);
    ListenOfTokens(d);
  }

  lemma ListenTokensPlain(d: ListenDirective)
    ensures forall k :: 0 <= k < |ListenTokens(d)| ==> |ListenTokens(d)[k]| > 0 && NoSpace(ListenTokens(d)[k])
  {
    NatToStringPlain(d.port);
  }

  lemma ListenOfTokens(d: ListenDirective)
    requires d.port <= U16Max
    ensures ListenOfParts(ListenTokens(d)) == Some(d)
  {
    var t := ListenTokens(d);
    var n := NatToString(d.port);
    ParseNatToString(d.port, U16Max);
    assert t[0] == n;
    assert n != "ssl" && n != "http2" by {
      assert IsDigit(n[0]);
    }
    assert "ssl" in t <==> d.ssl;
    assert "http2" in t <==> d.http2;
  }

  /** Listen directives of a server body, in order; an unparseable value drops only
      its own directive. */
  function CollectListens(caps: seq<seq<string>>): (r: seq<ListenDirective>)
    requires forall k :: 0 <= k < |caps| ==> |caps[k]| == 1
    ensures |r| <= |caps|
    ensures forall k :: 0 <= k < |r| ==> r[k].port <= U16Max
    decreases |caps|
  {
    if |caps| == 0 then []
    else
      var here := match ParseListen(caps[0][0]) case Some(d) => [d] case None => [];
      AllTail(caps, (c: seq<string>) => |c| == 1);
      var rest := CollectListens(caps[1..]);
      AllAppend(here, rest, (d: ListenDirective) => d.port <= U16Max);
      here + rest
  }

  function ListenPorts(content: string): (r: seq<ListenDirective>)
    ensures forall k :: 0 <= k < |r| ==> r[k].port <= U16Max
  {
    CollectListens(ScanAll(Directive("listen"), content))
  }

  /** A listen directive at the head of a body contributes its parse (or nothing)
      ahead of the directives that follow. */
  lemma ListenPortsRendered(v: string, rest: string)
    requires |v| > 0 && ';' !in v && !IsSpace(v[0])
    ensures ListenPorts(DirectiveText("listen", v, rest))
         == (match ParseListen(v) case Some(d) => [d] case None => []) + ListenPorts(rest)
  {
    ScanAllRendered("listen", v, rest);
    var caps := ScanAll(Directive("listen"), DirectiveText("listen", v, rest));
    var tail := ScanAll(Directive("listen"), rest);
    assert caps == [[v]] + tail;
    assert caps[0][0] == v;
    assert caps[1..] == tail;
  }

  /* ---------------- server_name and certificates ---------------- */

  /** The value of the first `keyword value;` in `content`. */
  function FirstValue(kw: string, content: string): (r: Option<string>)
    ensures r.Some? ==> |r.value| > 0 && ';' !in r.value
  {
    match ScanFirst(Directive(kw), content)
    case None => None
    case Some(g) => FirstValueShape(kw, content); Some(g[0])
  }

  lemma {:induction false} FirstValueShape(kw: string, content: string)
    requires ScanFirst(Directive(kw), content).Some?
    ensures |ScanFirst(Directive(kw), content).value[0]| > 0
    ensures ';' !in ScanFirst(Directive(kw), content).value[0]
    decreases |content|
  {
    if MatchAt(Directive(kw), content).Some? {
      DirectiveMatchShape(kw, content);
    } else {
      FirstValueShape(kw, content[1..]);
    }
  }

  /** The whitespace tokens of the first `server_name` directive, or none. */
  function ServerNames(content: string): (r: seq<string>)
    ensures forall k :: 0 <= k < |r| ==> |r[k]| > 0 && NoSpace(r[k])
  {
    match FirstValue("server_name", content)
    case None => []
    case Some(v) => SplitWhitespace(v)
  }

  lemma {:induction false} JoinShape(ws: seq<string>, c: char)
    requires |ws| > 0
    requires forall k :: 0 <= k < |ws| ==> |ws[k]| > 0 && c !in ws[k]
    requires c != ' '
    ensures var j := Join(ws, " "); |j| > 0 && j[0] == ws[0][0] && c !in j
    decreases |ws|
  {
    if |ws| > 1 {
      JoinShape(ws[1..], c);
    }
  }

  /** A leading `server_name` directive names exactly its tokens, whatever follows
      (including later `server_name` directives, which are ignored). */
  lemma ServerNamesRendered(names: seq<string>, rest: string)
    requires |names| > 0
    requires forall k :: 0 <= k < |names| ==> |names[k]| > 0 && NoSpace(names[k]) && ';' !in names[k]
    ensures ServerNames(DirectiveText("server_name", Join(names, " "), rest)) == names
  {
    JoinShape(names, ';');
    ScanAllRendered("server_name", Join(names, " "), rest);
    SplitJoinSpaces(names);
  }

  /** A leading certificate directive is the one taken, whatever follows. */
  lemma SslCertificateRendered(p: string, rest: string)
    requires |p| > 0 && ';' !in p && !IsSpace(p[0])
    ensures FirstValue("ssl_certificate", DirectiveText("ssl_certificate", p, rest)) == Some(p)
    ensures FirstValue("ssl_certificate_key", DirectiveText("ssl_certificate_key", p, rest)) == Some(p)
  {
    ScanAllRendered("ssl_certificate", p, rest);
    ScanAllRendered("ssl_certificate_key", p, rest);
  }

  /** `ssl_certificate_key …;` never feeds the certificate field: after the shared
      keyword comes `_`, not whitespace. */
  lemma CertificateKeyIsNotCertificate(rest: string)
    ensures MatchAt(Directive("ssl_certificate"), "ssl_certificate_key" + rest).None?
  {
    var s := "ssl_certificate_key" + rest;
    var kw := "ssl_certificate";
    assert s == kw + ("_key" + rest);
    MatchAtKeyword(Directive(kw), "_key" + rest);
    var t := "_key" + rest;
    var semi := |PrefixBefore(t, ';')|;
    if semi < |t| {
      assert t[..semi][0] == '_';
    }
  }

  /* ---------------- location ---------------- */

  /** The `rate_limit` of a location body: the first match, kept only when both
      numbers fit in u32. */
  function RateLimitOf(body: string): (r: Option<RateLimit>)
    ensures r.Some? ==> r.value.requestsPerSecond <= U32Max && r.value.burst <= U32Max
  {
    match ScanFirst(RateLimitShape, body)
    case None => None
    case Some(g) =>
      match (ParseUnsigned(g[0], U32Max), ParseUnsigned(g[1], U32Max))
      case (Some(rps), Some(burst)) => Some(RateLimit(rps, burst))
      case _ => None
  }

  /** `parse_location_block`: the first `proxy_pass`, the first well-formed
      `rate_limit`, and whether the body mentions `cors_enable` anywhere. */
  function ParseLocation(path: string, body: string): (r: LocationBlock)
    ensures r.path == path
    ensures r.corsEnable <==> Contains(body, "cors_enable")
    ensures r.proxyPass.Some? ==> |r.proxyPass.value| > 0 && ';' !in r.proxyPass.value
  {
    LocationBlock(path, FirstValue("proxy_pass", body), RateLimitOf(body), Contains(body, "cors_enable"))
  }

  /** A leading `proxy_pass` is the one taken. */
  lemma ProxyPassRendered(path: string, p: string, rest: string)
    requires |p| > 0 && ';' !in p && !IsSpace(p[0])
    ensures ParseLocation(path, DirectiveText("proxy_pass", p, rest)).proxyPass == Some(p)
  {
    ScanAllRendered("proxy_pass", p, rest);
  }

  lemma {:induction false} RunExact(x: string, y: string, p: char -> bool)
    requires forall i :: 0 <= i < |x| ==> p(x[i])
    requires |y| > 0 && !p(y[0])
    ensures Run(x + y, p) == |x|
    decreases |x|
  {
    if |x| > 0 {
      assert (x + y)[1..] == x[1..] + y;
      RunExact(x[1..], y, p);
    } else {
      assert x + y == y;
    }
  }

  /** A single space, a digit string and a non-digit: `\s+(\d+)` takes exactly the digits. */
  lemma SpacedDigitsRendered(d: string, rest: string)
    requires |d| > 0 && AllDigits(d)
    requires |rest| > 0 && !IsDigit(rest[0])
    ensures SpacedNumber(" " + (d + rest)) == Some((d, |d| + 1))
  {
    var t := " " + (d + rest);
    assert IsDigit(d[0]);
    RunExact(" ", d + rest, IsSpace);
    assert t[1..] == d + rest;
    RunExact(d, rest, IsDigit);
    assert t[1..1 + |d|] == d;
  }

  lemma AfterSpaced(x: string, y: string)
    ensures (" " + (x + y))[|x| + 1..] == y
  {
    assert (" " + (x + y))[|x| + 1..] == y;
  }

  /** The first number of the rate-limit tail leads to the second. */
  lemma TailFirst(t: string, x: string, k1: nat)
    requires SpacedNumber(t) == Some((x, k1))
    ensures 0 < k1 <= |t| && |x| > 0 && AllDigits(x)
    ensures RateLimitTail(t) == RateLimitSecond(t, x, k1)
  {
  }

  /** The second number of the rate-limit tail leads to the closing `;`. */
  lemma TailSecond(t: string, x: string, k1: nat, y: string, k2: nat)
    requires 0 < k1 <= |t| && |x| > 0 && AllDigits(x)
    requires SpacedNumber(t[k1..]) == Some((y, k2))
    ensures RateLimitSecond(t, x, k1) == RateLimitClose(t, x, y, k1 + k2)
  {
  }

  /** In ` A B;rest` the second number is B. */
  lemma SecondNumberRendered(da: string, db: string, rest: string)
    requires |db| > 0 && AllDigits(db)
    ensures var t := " " + (da + (" " + (db + (";" + rest))));
      |da| + 1 <= |t| && SpacedNumber(t[|da| + 1..]) == Some((db, |db| + 1))
  {
    AfterSpaced(da, " " + (db + (";" + rest)));
    SpacedDigitsRendered(db, ";" + rest);
  }

  /** In ` A B;rest` the `;` sits right after B. */
  lemma SemicolonAfter(da: string, db: string, rest: string)
    ensures var t := " " + (da + (" " + (db + (";" + rest))));
      |da| + 1 + (|db| + 1) < |t| && t[|da| + 1 + (|db| + 1)] == ';'
  {
    var t := " " + (da + (" " + (db + (";" + rest))));
    assert t == " " + da + " " + db + ";" + rest;
  }

  /** ` A B;` with digit strings A and B: the tail captures exactly A and B. */
  lemma RateLimitTailRendered(da: string, db: string, rest: string)
    requires |da| > 0 && AllDigits(da) && |db| > 0 && AllDigits(db)
    ensures RateLimitTail(" " + (da + (" " + (db + (";" + rest)))))
         == Some(Match(|da| + |db| + 3, [da, db]))
  {
    var t := " " + (da + (" " + (db + (";" + rest))));
    TailFirstRendered(da, db, rest);
    TailSecondRendered(da, db, rest);
    SemicolonAfter(da, db, rest);
  }

  lemma TailFirstRendered(da: string, db: string, rest: string)
    requires |da| > 0 && AllDigits(da) && |db| > 0 && AllDigits(db)
    ensures var t := " " + (da + (" " + (db + (";" + rest))));
      RateLimitTail(t) == RateLimitSecond(t, da, |da| + 1)
  {
    var t := " " + (da + (" " + (db + (";" + rest))));
    SpacedDigitsRendered(da, " " + (db + (";" + rest)));
    TailFirst(t, da, |da| + 1);
  }

  lemma TailSecondRendered(da: string, db: string, rest: string)
    requires |da| > 0 && AllDigits(da) && |db| > 0 && AllDigits(db)
    ensures var t := " " + (da + (" " + (db + (";" + rest))));
      |da| + 1 <= |t| && RateLimitSecond(t, da, |da| + 1) == RateLimitClose(t, da, db, |da| + 1 + (|db| + 1))
  {
    var t := " " + (da + (" " + (db + (";" + rest))));
    SecondNumberRendered(da, db, rest);
    TailSecond(t, da, |da| + 1, db, |db| + 1);
  }

  /** The text `rate_limit A B;` followed by `rest`. */
  function RenderRateLimit(a: nat, b: nat, rest: string): string {
    "rate_limit" + (" " + (NatToString(a) + (" " + (NatToString(b) + (";" + rest)))))
  }

  /** A leading `rate_limit A B;` sets the rate limit exactly when both numbers fit
      in u32, and otherwise leaves the location without one. */
  lemma RateLimitRendered(a: nat, b: nat, rest: string)
    ensures RateLimitOf(RenderRateLimit(a, b, rest))
         == if a <= U32Max && b <= U32Max then Some(RateLimit(a, b)) else None
  {
    RateLimitScanRendered(NatToString(a), NatToString(b), rest);
    ParseNatToString(a, U32Max);
    ParseNatToString(b, U32Max);
  }

  /** The first rate-limit match of `rate_limit A B;` is A and B. */
  lemma RateLimitScanRendered(da: string, db: string, rest: string)
    requires |da| > 0 && AllDigits(da) && |db| > 0 && AllDigits(db)
    ensures ScanFirst(RateLimitShape, "rate_limit" + (" " + (da + (" " + (db + (";" + rest))))))
         == Some([da, db])
  {
    RateLimitTailRendered(da, db, rest);
    MatchAtKeyword(RateLimitShape, " " + (da + (" " + (db + (";" + rest)))));
  }

  /** Locations of a server body, in order; a location block always parses. */
  function CollectLocations(caps: seq<seq<string>>): (r: seq<LocationBlock>)
    requires forall k :: 0 <= k < |caps| ==> |caps[k]| == 2
    ensures |r| == |caps|
    ensures forall k :: 0 <= k < |r| ==> r[k].path == caps[k][0]
    decreases |caps|
  {
    if |caps| == 0 then [] else [ParseLocation(caps[0][0], caps[0][1])] + CollectLocations(caps[1..])
  }

  /** `parse_server_block`: it never fails. */
  function ParseServerBlock(content: string): (r: ServerBlock)
    ensures |r.locations| == |ScanAll(LocationShape, content)|
    ensures forall k :: 0 <= k < |r.listenPorts| ==> r.listenPorts[k].port <= U16Max
    ensures forall k :: 0 <= k < |r.serverNames| ==> |r.serverNames[k]| > 0 && NoSpace(r.serverNames[k])
  {
    ServerBlock(
      ListenPorts(content),
      ServerNames(content),
      FirstValue("ssl_certificate", content),
      FirstValue("ssl_certificate_key", content),
      CollectLocations(ScanAll(LocationShape, content)))
  }

  /* ---------------- upstream ---------------- */

  /** One `server X;` entry as written: address = first token, weight 1; a blank
      value panics. */
  function UpstreamServerAsWritten(v: string): (r: Parse<UpstreamServer>)
    ensures r.Panicked? <==> SplitWhitespace(v) == []
    ensures r.Parsed? ==> r.value.weight == 1 && r.value.address == SplitWhitespace(v)[0]
  {
    var parts := SplitWhitespace(v);
    if |parts| == 0 then Panicked else Parsed(UpstreamServer(parts[0], 1))
  }

  /** One `server X;` entry with a blank value skipped. */
  function UpstreamServerOf(v: string): (r: Option<UpstreamServer>)
    ensures r.Some? ==> r.value.weight == 1 && |r.value.address| > 0 && NoSpace(r.value.address)
    ensures r.None? <==> SplitWhitespace(v) == []
  {
    var parts := SplitWhitespace(v);
    if |parts| == 0 then None else Some(UpstreamServer(parts[0], 1))
  }

  /** `server  ;` inside an upstream body makes the code as written panic; the
      corrected reading skips the entry. */
  lemma BlankUpstreamServerPanics()
    ensures ScanFirst(Directive("server"), "server  ;") == Some([" "])
    ensures UpstreamServerAsWritten(" ") == Panicked
    ensures UpstreamServerOf(" ") == None
  {
    var s := "server  ;";
    assert StartsWith(s, "server");
    var rest := s[6..];
    assert rest == "  ;";
    assert PrefixBefore(rest, ';') == "  " by {
      PrefixBeforeFirst("  ", ";", ';');
      assert "  " + ";" == rest;
    }
    assert Run("  ", IsSpace) == 2 by {
      assert Run("  "[1..], IsSpace) == 1;
    }
    assert "  "[1..] == " ";
    assert TrimStart(" ") == "" by {
      assert " "[1..] == "";
    }
  }

  /** Wherever the code as written does not panic, it agrees with the corrected
      reading. */
  lemma UpstreamServerAsWrittenAgrees(v: string)
    requires UpstreamServerAsWritten(v).Parsed?
    ensures UpstreamServerOf(v) == Some(UpstreamServerAsWritten(v).value)
  {
  }

  function CollectServers(caps: seq<seq<string>>): (r: seq<UpstreamServer>)
    requires forall k :: 0 <= k < |caps| ==> |caps[k]| == 1
    ensures |r| <= |caps|
    ensures forall k :: 0 <= k < |r| ==> r[k].weight == 1
    decreases |caps|
  {
    if |caps| == 0 then []
    else
      var here := match UpstreamServerOf(caps[0][0]) case Some(u) => [u] case None => [];
      AllTail(caps, (c: seq<string>) => |c| == 1);
      var rest := CollectServers(caps[1..]);
      AllAppend(here, rest, (u: UpstreamServer) => u.weight == 1);
      here + rest
  }

  /** `parse_upstream_block`: one server per `server X;` entry, in order. */
  function ParseUpstream(name: string, body: string): (r: UpstreamBlock)
    ensures r.name == name
    ensures forall k :: 0 <= k < |r.servers| ==> r.servers[k].weight == 1
  {
    UpstreamBlock(name, CollectServers(ScanAll(Directive("server"), body)))
  }

  /** The body listing `addrs` as `server A;` entries, one after another. */
  function RenderServers(addrs: seq<string>): string
    decreases |addrs|
  {
    if |addrs| == 0 then "" else DirectiveText("server", addrs[0], RenderServers(addrs[1..]))
  }

  function AsServers(addrs: seq<string>): (r: seq<UpstreamServer>)
    ensures |r| == |addrs|
    ensures forall k :: 0 <= k < |r| ==> r[k] == UpstreamServer(addrs[k], 1)
    decreases |addrs|
  {
    if |addrs| == 0 then [] else [UpstreamServer(addrs[0], 1)] + AsServers(addrs[1..])
  }

  /** Parsing a rendered list of upstream servers gives back every address, in
      order, each with weight 1. */
  lemma {:induction false} UpstreamRoundTrip(name: string, addrs: seq<string>)
    requires forall k :: 0 <= k < |addrs| ==> |addrs[k]| > 0 && NoSpace(addrs[k]) && ';' !in addrs[k]
    ensures ParseUpstream(name, RenderServers(addrs)).servers == AsServers(addrs)
    decreases |addrs|
  {
    if |addrs| > 0 {
      var a := addrs[0];
      var rest := RenderServers(addrs[1..]);
      var later := ScanAll(Directive("server"), rest);
      calc {
        ParseUpstream(name, RenderServers(addrs)).servers;
        CollectServers(ScanAll(Directive("server"), DirectiveText("server", a, rest)));
        { ScanAllRendered("server", a, rest); }
        CollectServers([[a]] + later);
        { ServerEntryCollected(a, later); }
        [UpstreamServer(a, 1)] + CollectServers(later);
        { assert forall k :: 0 <= k < |addrs[1..]| ==> addrs[1..][k] == addrs[k + 1];
          UpstreamRoundTrip(name, addrs[1..]); }
        [UpstreamServer(a, 1)] + AsServers(addrs[1..]);
        AsServers(addrs);
      }
    }
  }

  /** A `server A;` entry with a one-word address contributes that address. */
  lemma ServerEntryCollected(a: string, later: seq<seq<string>>)
    requires |a| > 0 && NoSpace(a)
    requires forall k :: 0 <= k < |later| ==> |later[k]| == 1
    ensures CollectServers([[a]] + later) == [UpstreamServer(a, 1)] + CollectServers(later)
  {
    SplitJoinSpaces([a]);
    assert Join([a], " ") == a;
    assert ([[a]] + later)[1..] == later;
  }

  /* ---------------- whole file ---------------- */

  /** Upstreams of one file: each `upstream` block is inserted by name, so a name
      declared twice keeps its last block. */
  function InsertUpstreams(m: map<string, UpstreamBlock>, caps: seq<seq<string>>): (r: map<string, UpstreamBlock>)
    requires forall k :: 0 <= k < |caps| ==> |caps[k]| == 2
    ensures r.Keys == m.Keys + set k | 0 <= k < |caps| :: caps[k][0]
    ensures forall n :: n in r ==> r[n].name == n || (n in m && r[n] == m[n])
    decreases |caps|
  {
    if |caps| == 0 then m
    else
      var rest := caps[1..];
      var r := InsertUpstreams(m[caps[0][0] := ParseUpstream(caps[0][0], caps[0][1])], rest);
      CapNamesCons(caps);
      r
  }

  /** The names of a non-empty capture list: the first one and those of the rest. */
  lemma CapNamesCons(caps: seq<seq<string>>)
    requires |caps| > 0 && forall k :: 0 <= k < |caps| ==> |caps[k]| == 2
    ensures (set k | 0 <= k < |caps| :: caps[k][0])
         == {caps[0][0]} + (set k | 0 <= k < |caps[1..]| :: caps[1..][k][0])
  {
    var rest := caps[1..];
    forall k | 0 <= k < |caps|
      ensures caps[k][0] in {caps[0][0]} + (set j | 0 <= j < |rest| :: rest[j][0])
    {
      if k > 0 {
        assert caps[k] == rest[k - 1];
      }
    }
    forall j | 0 <= j < |rest|
      ensures rest[j][0] in (set k | 0 <= k < |caps| :: caps[k][0])
    {
      assert rest[j] == caps[j + 1];
    }
  }

  /** The last block of a name is the one kept. */
  lemma {:induction false} InsertUpstreamsLastWins(m: map<string, UpstreamBlock>, a: seq<seq<string>>, c: seq<string>, b: seq<seq<string>>)
    requires forall k :: 0 <= k < |a| ==> |a[k]| == 2
    requires |c| == 2
    requires forall k :: 0 <= k < |b| ==> |b[k]| == 2 && b[k][0] != c[0]
    ensures c[0] in InsertUpstreams(m, a + [c] + b)
    ensures InsertUpstreams(m, a + [c] + b)[c[0]] == ParseUpstream(c[0], c[1])
    decreases |a|
  {
    var caps := a + [c] + b;
    assert caps[|a|] == c;
    if |a| > 0 {
      assert caps[1..] == a[1..] + [c] + b;
      InsertUpstreamsLastWins(m[a[0][0] := ParseUpstream(a[0][0], a[0][1])], a[1..], c, b);
    } else {
      assert caps[1..] == b;
      InsertUntouched(m[c[0] := ParseUpstream(c[0], c[1])], b, c[0]);
    }
  }

  /** Inserting blocks of other names leaves a name's entry alone. */
  lemma {:induction false} InsertUntouched(m: map<string, UpstreamBlock>, b: seq<seq<string>>, n: string)
    requires forall k :: 0 <= k < |b| ==> |b[k]| == 2 && b[k][0] != n
    requires n in m
    ensures InsertUpstreams(m, b)[n] == m[n]
    decreases |b|
  {
    if |b| > 0 {
      InsertUntouched(m[b[0][0] := ParseUpstream(b[0][0], b[0][1])], b[1..], n);
    }
  }

  function CollectServerBlocks(caps: seq<seq<string>>): (r: seq<ServerBlock>)
    requires forall k :: 0 <= k < |caps| ==> |caps[k]| == 1
    ensures |r| == |caps|
    decreases |caps|
  {
    if |caps| == 0 then [] else [ParseServerBlock(caps[0][0])] + CollectServerBlocks(caps[1..])
  }

  /** `parse_config_content`: comments removed, then every `server` block and every
      `upstream` block of the file. */
  function ParseConfigContent(content: string): (r: NginxConfig)
    ensures var text := RemoveComments(content);
      && |r.servers| == |ScanAll(ServerShape, text)|
      && r.upstreams.Keys == (set g | g in ScanAll(UpstreamShape, text) :: g[0])
      && forall n :: n in r.upstreams ==> r.upstreams[n].name == n
  {
    var text := RemoveComments(content);
    var ups := ScanAll(UpstreamShape, text);
    UpstreamsByName(ups);
    NginxConfig(CollectServerBlocks(ScanAll(ServerShape, text)), InsertUpstreams(map[], ups))
  }

  /** The upstream map of a file has one entry per captured name, under that name. */
  lemma UpstreamsByName(ups: seq<seq<string>>)
    requires forall k :: 0 <= k < |ups| ==> |ups[k]| == 2
    ensures InsertUpstreams(map[], ups).Keys == (set g | g in ups :: g[0])
    ensures forall n :: n in InsertUpstreams(map[], ups) ==> InsertUpstreams(map[], ups)[n].name == n
  {
    assert (set k | 0 <= k < |ups| :: ups[k][0]) == (set g | g in ups :: g[0]) by {
      forall g | g in ups ensures g[0] in (set k | 0 <= k < |ups| :: ups[k][0]) {
        var k :| 0 <= k < |ups| && ups[k] == g;
      }
    }
  }

  /* ---------------- sites-enabled merge ---------------- */

  /** A directory entry as `load_from_sites_enabled` sees it: one whose metadata
      could not be read (`entry?` fails the whole load), something that is not a
      regular file, or a file whose text could or could not be read. */
  datatype DirEntry = EntryError | NonFile | ConfigFile(content: Option<string>)

  /** What one entry adds to the merge: the file's text parsed by `parse` when it is
      a readable file, nothing otherwise (an unreadable file is only logged). */
  function Contribution(e: DirEntry, parse: string -> NginxConfig): (r: Option<NginxConfig>)
    ensures r.Some? <==> e.ConfigFile? && e.content.Some?
    ensures r.Some? ==> r.value == parse(e.content.value)
  {
    match e
    case ConfigFile(Some(text)) => Some(parse(text))
    case _ => None
  }

  /** What each entry adds to the merge, in directory order. */
  function Contributions(es: seq<DirEntry>, parse: string -> NginxConfig): (cs: seq<Option<NginxConfig>>)
    ensures |cs| == |es|
  {
    seq(|es|, k requires 0 <= k < |es| => Contribution(es[k], parse))
  }

  /** Merge of the contributions in directory order: servers appended, upstreams of
      a later file replacing those of the same name. */
  function MergeAll(cs: seq<Option<NginxConfig>>): (r: NginxConfig)
    decreases |cs|
  {
    if |cs| == 0 then NginxConfig([], map[])
    else
      var acc := MergeAll(cs[..|cs| - 1]);
      match cs[|cs| - 1]
      case Some(c) => NginxConfig(acc.servers + c.servers, acc.upstreams + c.upstreams)
      case None => acc
  }

  /** The servers one contribution adds. */
  function ServersIn(c: Option<NginxConfig>): seq<ServerBlock> {
    match c
    case Some(cfg) => cfg.servers
    case None => []
  }

  /** The servers of each contribution, concatenated from the first one on. */
  function ServersOf(cs: seq<Option<NginxConfig>>): seq<ServerBlock>
    decreases |cs|
  {
    if |cs| == 0 then [] else ServersIn(cs[0]) + ServersOf(cs[1..])
  }

  lemma {:induction false} ServersOfSnoc(cs: seq<Option<NginxConfig>>, c: Option<NginxConfig>)
    ensures ServersOf(cs + [c]) == ServersOf(cs) + ServersIn(c)
    decreases |cs|
  {
    if |cs| > 0 {
      assert (cs + [c])[1..] == cs[1..] + [c];
      ServersOfSnoc(cs[1..], c);
    } else {
      assert cs + [c] == [c];
    }
  }

  /** The merged server list is every file's servers, file after file. */
  lemma {:induction false} MergeServers(cs: seq<Option<NginxConfig>>)
    ensures MergeAll(cs).servers == ServersOf(cs)
    decreases |cs|
  {
    if |cs| > 0 {
      var init := cs[..|cs| - 1];
      MergeServers(init);
      assert cs == init + [cs[|cs| - 1]];
      ServersOfSnoc(init, cs[|cs| - 1]);
    }
  }

  /** An entry that contributes nothing (unreadable text, not a file) can be
      dropped without changing the merge. */
  lemma {:induction false} MergeSkipsSilent(a: seq<Option<NginxConfig>>, b: seq<Option<NginxConfig>>)
    ensures MergeAll(a + [None] + b) == MergeAll(a + b)
    decreases |b|
  {
    if |b| == 0 {
      assert a + [None] + b == a + [None];
      assert (a + [None])[..|a|] == a;
      assert a + b == a;
    } else {
      var l := b[|b| - 1];
      var bi := b[..|b| - 1];
      assert a + [None] + b == (a + [None] + bi) + [l];
      assert a + b == (a + bi) + [l];
      MergeSkipsSilent(a, bi);
    }
  }

  /** A file declaring upstream `n` decides `n` unless a later file declares it
      again. */
  lemma {:induction false} MergeLaterUpstreamWins(a: seq<Option<NginxConfig>>, c: NginxConfig, b: seq<Option<NginxConfig>>, n: string)
    requires n in c.upstreams
    requires forall k :: 0 <= k < |b| ==> b[k].None? || n !in b[k].value.upstreams
    ensures n in MergeAll(a + [Some(c)] + b).upstreams
    ensures MergeAll(a + [Some(c)] + b).upstreams[n] == c.upstreams[n]
    decreases |b|
  {
    var f := Some(c);
    if |b| == 0 {
      assert a + [f] + b == a + [f];
      assert (a + [f])[..|a|] == a;
    } else {
      var l := b[|b| - 1];
      var bi := b[..|b| - 1];
      assert a + [f] + b == (a + [f] + bi) + [l];
      assert (a + [f] + bi + [l])[..|a + [f] + bi|] == a + [f] + bi;
      MergeLaterUpstreamWins(a, c, bi, n);
    }
  }

  /** The loop of `load_from_sites_enabled` over the directory listing, with
      `parse` turning a file's text into its configuration: None as soon as an
      entry cannot be inspected, otherwise the merge of every readable file. */
  method MergeEntries(es: seq<DirEntry>, parse: string -> NginxConfig) returns (r: Option<NginxConfig>)
    ensures r.None? <==> EntryError in es
    ensures r.Some? ==> r.value.servers == ServersOf(Contributions(es, parse))
    ensures r.Some? ==> r.value == MergeAll(Contributions(es, parse))
  {
    var cs := Contributions(es, parse);
    var acc := NginxConfig([], map[]);
    var i := 0;
    while i < |es|
      invariant 0 <= i <= |es|
      invariant forall k :: 0 <= k < i ==> !es[k].EntryError?
      invariant acc == MergeAll(cs[..i])
    {
      if es[i].EntryError? {
        assert es[i] in es;
        return None;
      }
      var c := cs[i];
      assert cs[..i + 1] == cs[..i] + [c];
      assert (cs[..i] + [c])[..i] == cs[..i];
      if c.Some? {
        acc := NginxConfig(acc.servers + c.value.servers, acc.upstreams + c.value.upstreams);
      }
      i := i + 1;
    }
    assert cs[..i] == cs;
    MergeServers(cs);
    return Some(acc);
  }

  /** `load_from_sites_enabled`: None when the directory cannot be listed or an
      entry cannot be inspected; otherwise the merge of every readable file, each
      parsed by `parse_config_content`. */
  method LoadFromSitesEnabled(dir: Option<seq<DirEntry>>) returns (r: Option<NginxConfig>)
    ensures dir.None? ==> r.None?
    ensures dir.Some? ==> (r.None? <==> EntryError in dir.value)
    ensures r.Some? ==> r.value == MergeAll(Contributions(dir.value, ParseConfigContent))
  {
    if dir.None? {
      return None;
    }
    r := MergeEntries(dir.value, ParseConfigContent);
  }
}
