/** The five fixed regular expressions the configuration parser runs, each written
    out as a deterministic prefix matcher, plus the leftmost-first scan that
    `Regex::captures_iter` (all matches) and `Regex::captures` (first match) perform.

    For each shape the backtracking engine has only one way to match at a given
    start: every quantified class is followed by a character the class excludes,
    so the greedy run is the only run that can succeed. */
module RegexShapes {
  import opened Wrappers
  import opened Text

  datatype Shape =
    | Directive(keyword: string)   // keyword\s+([^;]+);
    | RateLimitShape               // rate_limit\s+(\d+)\s+(\d+);
    | ServerShape                  // server\s*\{([^{}]*(?:\{[^{}]*\}[^{}]*)*)\}
    | LocationShape                // location\s+([^\s{]+)\s*\{([^{}]*)\}
    | UpstreamShape                // upstream\s+(\w+)\s*\{([^{}]*)\}

  /** A match starting at the scan position: its length and its capture groups. */
  datatype Match = Match(len: nat, groups: seq<string>)

  /** Length of the longest prefix whose characters all satisfy `p`. */
  function Run(s: string, p: char -> bool): (n: nat)
    ensures n <= |s|
    ensures n < |s| ==> !p(s[n])
    decreases |s|
  {
    if |s| > 0 && p(s[0]) then 1 + Run(s[1..], p) else 0
  }

  /** Every character of the run satisfies `p`. */
  lemma {:induction false} RunAll(s: string, p: char -> bool)
    ensures forall i :: 0 <= i < Run(s, p) ==> p(s[i])
    decreases |s|
  {
    if |s| > 0 && p(s[0]) {
      RunAll(s[1..], p);
      assert forall i :: 1 <= i < Run(s, p) ==> s[i] == s[1..][i - 1];
    }
  }

  predicate IsBrace(c: char) {
    c == '{' || c == '}'
  }

  predicate IsPathChar(c: char) {
    !IsSpace(c) && c != '{'
  }

  /** Offset of the `}` closing a body that may hold brace pairs nested one level
      deep, the body of `\{([^{}]*(?:\{[^{}]*\}[^{}]*)*)\}` after its opening brace;
      None when a second level opens or the text ends first. */
  function NestedBody(t: string, inner: bool): (r: Option<nat>)
    ensures r.Some? ==> r.value < |t| && t[r.value] == '}'
    decreases |t|
  {
    if |t| == 0 then None
    else if t[0] == '{' then
      if inner then None
      else match NestedBody(t[1..], true)
           case Some(k) => Some(k + 1)
           case None => None
    else if t[0] == '}' && !inner then Some(0)
    else
      match NestedBody(t[1..], if t[0] == '}' then false else inner)
      case Some(k) => Some(k + 1)
      case None => None
  }

  predicate NotBrace(c: char) {
    !IsBrace(c)
  }

  /** Offset of the `}` closing a brace-free body, `([^{}]*)\}`. */
  function FlatBody(t: string): (r: Option<nat>)
    ensures r.Some? ==> r.value < |t| && t[r.value] == '}'
  {
    var k := Run(t, NotBrace);
    if k < |t| && t[k] == '}' then Some(k) else None
  }

  /** The literal word each pattern starts with. */
  function Keyword(shape: Shape): string {
    match shape
    case Directive(kw) => kw
    case RateLimitShape => "rate_limit"
    case ServerShape => "server"
    case LocationShape => "location"
    case UpstreamShape => "upstream"
  }

  function GroupCount(shape: Shape): nat {
    match shape
    case Directive(_) => 1
    case RateLimitShape => 2
    case ServerShape => 1
    case LocationShape => 2
    case UpstreamShape => 2
  }

  /** `\s+([^;]+);` right after a directive's keyword. The match ends at the first
      `;`. The greedy `\s+` takes the whole whitespace run unless only whitespace
      precedes the `;`, in which case it gives its last character to the group. */
  function DirectiveTail(t: string): (r: Option<Match>)
    ensures r.Some? ==> 0 < r.value.len <= |t| && |r.value.groups| == 1
  {
    var semi := |PrefixBefore(t, ';')|;
    if semi == |t| then None
    else
      var body := t[..semi];
      if |body| < 2 || !IsSpace(body[0]) then None
      else
        var w := Run(body, IsSpace);
        var value := if w < |body| then body[w..] else body[|body| - 1..];
        Some(Match(semi + 1, [value]))
  }

  /** `\s+(\d+)` at the start of `t`: the digits and the length consumed. */
  function SpacedNumber(t: string): (r: Option<(string, nat)>)
    ensures r.Some? ==> 0 < r.value.1 <= |t| && |r.value.0| > 0 && AllDigits(r.value.0)
  {
    var w := Run(t, IsSpace);
    var d := Run(t[w..], IsDigit);
    if w == 0 || d == 0 then None
    else
      RunAll(t[w..], IsDigit);
      assert forall i :: 0 <= i < d ==> t[w..w + d][i] == t[w..][i];
      Some((t[w..w + d], w + d))
  }

  /** `\s+(\d+)\s+(\d+);` right after `rate_limit`. */
  function RateLimitTail(t: string): (r: Option<Match>)
    ensures r.Some? ==> 0 < r.value.len <= |t| && |r.value.groups| == 2
    ensures r.Some? ==> |r.value.groups[0]| > 0 && AllDigits(r.value.groups[0])
    ensures r.Some? ==> |r.value.groups[1]| > 0 && AllDigits(r.value.groups[1])
  {
    match SpacedNumber(t)
    case None => None
    case Some(first) => RateLimitSecond(t, first.0, first.1)
  }

  /** The second `\s+(\d+)` of the rate-limit tail, from position `k1`. */
  function RateLimitSecond(t: string, x: string, k1: nat): (r: Option<Match>)
    requires 0 < k1 <= |t| && |x| > 0 && AllDigits(x)
    ensures r.Some? ==> 0 < r.value.len <= |t| && |r.value.groups| == 2
    ensures r.Some? ==> r.value.groups[0] == x && |r.value.groups[1]| > 0 && AllDigits(r.value.groups[1])
  {
    match SpacedNumber(t[k1..])
    case None => None
    case Some(second) => RateLimitClose(t, x, second.0, k1 + second.1)
  }

  /** The closing `;` of the rate-limit tail, expected at position `k`. */
  function RateLimitClose(t: string, x: string, y: string, k: nat): (r: Option<Match>)
    ensures r.Some? <==> k < |t| && t[k] == ';'
    ensures r.Some? ==> r.value == Match(k + 1, [x, y])
  {
    if k >= |t| || t[k] != ';' then None else Some(Match(k + 1, [x, y]))
  }

  /** `\s*\{(…)\}` right after `server`, the body allowing one nesting level. */
  function ServerTail(t: string): (r: Option<Match>)
    ensures r.Some? ==> 0 < r.value.len <= |t| && |r.value.groups| == 1
  {
    var w := Run(t, IsSpace);
    if w == |t| || t[w] != '{' then None
    else
      match NestedBody(t[w + 1..], false)
      case None => None
      case Some(k) => Some(Match(w + 1 + k + 1, [t[w + 1..w + 1 + k]]))
  }

  /** `\s*\{([^{}]*)\}` at the start of `t`: the body and the length consumed. */
  function FlatBlock(t: string): (r: Option<(string, nat)>)
    ensures r.Some? ==> 0 < r.value.1 <= |t|
  {
    var w := Run(t, IsSpace);
    if w == |t| || t[w] != '{' then None
    else
      match FlatBody(t[w + 1..])
      case None => None
      case Some(k) => Some((t[w + 1..w + 1 + k], w + 1 + k + 1))
  }

  /** `\s+(NAME)` followed by a flat block, where NAME is a non-empty run of `p`. */
  function NamedFlatBlock(t: string, p: char -> bool): (r: Option<Match>)
    ensures r.Some? ==> 0 < r.value.len <= |t| && |r.value.groups| == 2
  {
    var w := Run(t, IsSpace);
    var n := Run(t[w..], p);
    if w == 0 || n == 0 then None
    else
      match FlatBlock(t[w + n..])
      case None => None
      case Some((body, k)) => Some(Match(w + n + k, [t[w..w + n], body]))
  }

  /** The part of a pattern after its keyword, at the start of `t`. */
  function TailAt(shape: Shape, t: string): (r: Option<Match>)
    ensures r.Some? ==> 0 < r.value.len <= |t| && |r.value.groups| == GroupCount(shape)
  {
    match shape
    case Directive(_) => DirectiveTail(t)
    case RateLimitShape => RateLimitTail(t)
    case ServerShape => ServerTail(t)
    case LocationShape => NamedFlatBlock(t, IsPathChar)
    case UpstreamShape => NamedFlatBlock(t, IsWordChar)
  }

  /** The pattern matched at the start of `s`, if it matches there. */
  function MatchAt(shape: Shape, s: string): (r: Option<Match>)
    ensures r.Some? ==> |Keyword(shape)| < r.value.len <= |s| && |r.value.groups| == GroupCount(shape)
  {
    var kw := Keyword(shape);
    if !StartsWith(s, kw) then None else AfterKeyword(|kw|, TailAt(shape, s[|kw|..]))
  }

  /** A tail match moved past a keyword of length `n`. */
  function AfterKeyword(n: nat, tail: Option<Match>): (r: Option<Match>)
    ensures r.Some? <==> tail.Some?
    ensures r.Some? ==> r.value == Match(n + tail.value.len, tail.value.groups)
  {
    match tail
    case None => None
    case Some(m) => Some(Match(n + m.len, m.groups))
  }

  /** A keyword starts the text it is put in front of, and what follows it is
      the rest. */
  lemma KeywordThenRest(kw: string, t: string)
    ensures StartsWith(kw + t, kw) && (kw + t)[|kw|..] == t
  {
    assert (kw + t)[..|kw|] == kw;
  }

  /** A pattern matches at `kw + t` exactly as its tail matches at `t`. */
  lemma MatchAtKeyword(shape: Shape, t: string)
    ensures MatchAt(shape, Keyword(shape) + t) == AfterKeyword(|Keyword(shape)|, TailAt(shape, t))
  {
    KeywordThenRest(Keyword(shape), t);
  }

  /** `captures_iter`: try each start position from the left; after a match,
      resume right after it. Yields the capture groups of every match in order. */
  function ScanAll(shape: Shape, s: string): (r: seq<seq<string>>)
    ensures forall k :: 0 <= k < |r| ==> |r[k]| == GroupCount(shape)
    decreases |s|
  {
    if |s| == 0 then []
    else
      match MatchAt(shape, s)
      case Some(m) => [m.groups] + ScanAll(shape, s[m.len..])
      case None => ScanAll(shape, s[1..])
  }

  /** `captures`: the leftmost match only. */
  function ScanFirst(shape: Shape, s: string): (r: Option<seq<string>>)
    ensures r.Some? ==> |r.value| == GroupCount(shape)
    decreases |s|
  {
    if |s| == 0 then None
    else
      match MatchAt(shape, s)
      case Some(m) => Some(m.groups)
      case None => ScanFirst(shape, s[1..])
  }

  /** The first match is the head of the list of all matches. */
  lemma {:induction false} FirstIsHeadOfAll(shape: Shape, s: string)
    ensures ScanFirst(shape, s) == if ScanAll(shape, s) == [] then None else Some(ScanAll(shape, s)[0])
    decreases |s|
  {
    if |s| > 0 && MatchAt(shape, s).None? {
      FirstIsHeadOfAll(shape, s[1..]);
    }
  }

  /** The single capture of a directive match is non-empty, holds no `;`, and
      starts with whitespace only when it is that one whitespace character; the
      matched text is a whitespace run, the capture and `;`. */
  lemma DirectiveTailShape(t: string)
    requires DirectiveTail(t).Some?
    ensures |DirectiveTail(t).value.groups[0]| > 0
    ensures ';' !in DirectiveTail(t).value.groups[0]
    ensures IsSpace(DirectiveTail(t).value.groups[0][0]) ==> |DirectiveTail(t).value.groups[0]| == 1
  {
    var semi := |PrefixBefore(t, ';')|;
    var body := t[..semi];
    assert ';' !in body;
    var w := Run(body, IsSpace);
    if w < |body| {
      assert body[w..] == body[w..];
    }
  }

  /** The capture of any directive match has the same shape. */
  lemma DirectiveMatchShape(kw: string, s: string)
    requires MatchAt(Directive(kw), s).Some?
    ensures |MatchAt(Directive(kw), s).value.groups[0]| > 0
    ensures ';' !in MatchAt(Directive(kw), s).value.groups[0]
  {
    DirectiveTailShape(s[|kw|..]);
  }

  /** A single space, a value with no `;` that does not start with whitespace, and
      `;`: the directive tail captures exactly the value. */
  lemma DirectiveTailRendered(v: string, rest: string)
    requires |v| > 0 && ';' !in v && !IsSpace(v[0])
    ensures DirectiveTail(" " + (v + (";" + rest))) == Some(Match(|v| + 2, [v]))
  {
    var t := " " + (v + (";" + rest));
    var body := " " + v;
    assert t == body + (";" + rest);
    PrefixBeforeFirst(body, ";" + rest, ';');
    assert t[..|body|] == body;
    assert body[1..] == v;
    assert Run(body, IsSpace) == 1;
  }

  /** The text `kw v;` followed by `rest`. */
  function DirectiveText(kw: string, v: string, rest: string): string {
    kw + (" " + (v + (";" + rest)))
  }

  /** Scanning a text that starts with a rendered directive yields its value first,
      then whatever the remaining text yields. */
  lemma ScanAllRendered(kw: string, v: string, rest: string)
    requires |v| > 0 && ';' !in v && !IsSpace(v[0])
    ensures ScanAll(Directive(kw), DirectiveText(kw, v, rest)) == [[v]] + ScanAll(Directive(kw), rest)
    ensures ScanFirst(Directive(kw), DirectiveText(kw, v, rest)) == Some([v])
  {
    var t := " " + (v + (";" + rest));
    var s := kw + t;
    var m := Match(|kw| + |v| + 2, [v]);
    assert MatchAt(Directive(kw), s) == Some(m) by {
      DirectiveTailRendered(v, rest);
      MatchAtKeyword(Directive(kw), t);
    }
    ScanAtMatch(Directive(kw), s, m);
    assert s[m.len..] == rest;
  }

  /** Where the pattern matches at the start, scanning yields that match first and
      resumes after it. */
  lemma ScanAtMatch(shape: Shape, s: string, m: Match)
    requires MatchAt(shape, s) == Some(m)
    ensures m.len <= |s|
    ensures ScanAll(shape, s) == [m.groups] + ScanAll(shape, s[m.len..])
    ensures ScanFirst(shape, s) == Some(m.groups)
  {
  }
}
