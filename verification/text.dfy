/** The slice of Rust's `str` API the gateway relies on: whitespace as
    `char::is_whitespace` defines it, `trim`, `lines`, `split_whitespace`,
    `split(c).next()`, `contains`, `join`, and `parse::<uN>()`. */
module Text {
  import opened Wrappers

  /** Unicode White_Space: the set behind `char::is_whitespace`, `str::trim`,
      `str::split_whitespace` and the regex class `\s`. */
  predicate IsSpace(c: char) {
    var n := c as int;
    (9 <= n <= 13) || n == 32 || n == 0x85 || n == 0xA0 || n == 0x1680
    || (0x2000 <= n <= 0x200A) || n == 0x2028 || n == 0x2029 || n == 0x202F
    || n == 0x205F || n == 0x3000
  }

  predicate IsDigit(c: char) {
    '0' <= c <= '9'
  }

  /** The ASCII part of the regex class `\w`. */
  predicate IsWordChar(c: char) {
    ('a' <= c <= 'z') || ('A' <= c <= 'Z') || IsDigit(c) || c == '_'
  }

  predicate NoSpace(s: string) {
    forall i :: 0 <= i < |s| ==> !IsSpace(s[i])
  }

  predicate StartsWith(s: string, p: string) {
    |p| <= |s| && s[..|p|] == p
  }

  predicate EndsWith(s: string, p: string) {
    |p| <= |s| && s[|s| - |p|..] == p
  }

  /** `str::contains` for a string pattern. */
  predicate Contains(s: string, sub: string)
    decreases |s|
  {
    StartsWith(s, sub) || (|s| > 0 && Contains(s[1..], sub))
  }

  lemma ContainsAppend(a: string, b: string, sub: string)
    requires Contains(b, sub)
    ensures Contains(a + b, sub)
    decreases |a|
  {
    if |a| > 0 {
      assert (a + b)[1..] == a[1..] + b;
      ContainsAppend(a[1..], b, sub);
    } else {
      assert a + b == b;
    }
  }

  /** An occurrence of `pre + sub` contains one of `sub`. */
  lemma {:induction false} ContainsTail(s: string, pre: string, sub: string)
    ensures Contains(s, pre + sub) ==> Contains(s, sub)
    decreases |s|
  {
    if Contains(s, pre + sub) {
      if StartsWith(s, pre + sub) {
        assert s[|pre|..][..|sub|] == s[..|pre| + |sub|][|pre|..] == (pre + sub)[|pre|..] == sub;
        ContainsPrefix(s[|pre|..], sub);
        ContainsSuffix(s, |pre|, sub);
      } else {
        ContainsTail(s[1..], pre, sub);
      }
    }
  }

  /** An occurrence in a suffix is an occurrence. */
  lemma {:induction false} ContainsSuffix(s: string, i: nat, sub: string)
    requires i <= |s| && Contains(s[i..], sub)
    ensures Contains(s, sub)
    decreases i
  {
    if i > 0 {
      assert s[1..][i - 1..] == s[i..];
      ContainsSuffix(s[1..], i - 1, sub);
    }
  }

  lemma ContainsPrefix(s: string, sub: string)
    requires StartsWith(s, sub)
    ensures Contains(s, sub)
  {
  }

  /** `s.split(c).next().unwrap()`: everything before the first `c`, or all of `s`. */
  function PrefixBefore(s: string, c: char): (r: string)
    ensures StartsWith(s, r)
    ensures c !in r
    ensures |r| < |s| ==> s[|r|] == c
    decreases |s|
  {
    if |s| == 0 || s[0] == c then "" else [s[0]] + PrefixBefore(s[1..], c)
  }

  /** The prefix before `c` is the whole string exactly when `c` does not occur. */
  lemma PrefixBeforeWhole(s: string, c: char)
    ensures PrefixBefore(s, c) == s <==> c !in s
  {
  }

  /** Leading whitespace removed. */
  function TrimStart(s: string): (r: string)
    ensures |r| <= |s| && r == s[|s| - |r|..]
    ensures |r| > 0 ==> !IsSpace(r[0])
    ensures forall i :: 0 <= i < |s| - |r| ==> IsSpace(s[i])
    decreases |s|
  {
    if |s| > 0 && IsSpace(s[0]) then TrimStart(s[1..]) else s
  }

  /** Trailing whitespace removed. */
  function TrimEnd(s: string): (r: string)
    ensures |r| <= |s| && r == s[..|r|]
    ensures |r| > 0 ==> !IsSpace(r[|r| - 1])
    ensures forall i :: |r| <= i < |s| ==> IsSpace(s[i])
    decreases |s|
  {
    if |s| > 0 && IsSpace(s[|s| - 1]) then TrimEnd(s[..|s| - 1]) else s
  }

  /** `str::trim`. */
  function Trim(s: string): string {
    TrimEnd(TrimStart(s))
  }

  /** A trimmed string has no whitespace at either end and holds no character the
      input did not hold. */
  lemma TrimShape(s: string, c: char)
    ensures var t := Trim(s);
      && (|t| > 0 ==> !IsSpace(t[0]) && !IsSpace(t[|t| - 1]))
      && (c !in s ==> c !in t)
  {
    var a := TrimStart(s);
    var t := TrimEnd(a);
    if |t| > 0 {
      assert t[0] == a[0];
    }
    if c !in s {
      assert c !in a by {
        assert a == s[|s| - |a|..];
      }
      assert t == a[..|t|];
    }
  }

  /** No whitespace at either end. */
  predicate Trimmed(s: string) {
    |s| > 0 ==> !IsSpace(s[0]) && !IsSpace(s[|s| - 1])
  }

  /** Trimming a string with no whitespace at its ends changes nothing. */
  lemma TrimNoop(s: string)
    requires Trimmed(s)
    ensures Trim(s) == s
  {
  }

  /** `trim` is idempotent. */
  lemma TrimIdempotent(s: string)
    ensures Trim(Trim(s)) == Trim(s)
  {
    TrimShape(s, ' ');
    TrimNoop(Trim(s));
  }

  /** The longest prefix free of whitespace. */
  function TakeWord(s: string): (r: string)
    ensures StartsWith(s, r) && NoSpace(r)
    ensures |r| < |s| ==> IsSpace(s[|r|])
    ensures |s| > 0 && !IsSpace(s[0]) ==> |r| > 0
    decreases |s|
  {
    if |s| == 0 || IsSpace(s[0]) then "" else [s[0]] + TakeWord(s[1..])
  }

  /** `str::split_whitespace`: the maximal runs of non-whitespace, in order. */
  function SplitWhitespace(s: string): (r: seq<string>)
    ensures forall k :: 0 <= k < |r| ==> |r[k]| > 0 && NoSpace(r[k])
    decreases |s|
  {
    var t := TrimStart(s);
    if |t| == 0 then []
    else
      var w := TakeWord(t);
      assert 0 < |w| <= |t| <= |s|;
      var rest := SplitWhitespace(t[|w|..]);
      ConsWord(w, rest);
      [w] + rest
  }

  /** A word put in front of a list of words keeps every entry a word. */
  lemma ConsWord(w: string, rest: seq<string>)
    requires |w| > 0 && NoSpace(w)
    requires forall k :: 0 <= k < |rest| ==> |rest[k]| > 0 && NoSpace(rest[k])
    ensures forall k :: 0 <= k < |[w] + rest| ==> |([w] + rest)[k]| > 0 && NoSpace(([w] + rest)[k])
  {
    forall k | 0 <= k < |[w] + rest|
      ensures |([w] + rest)[k]| > 0 && NoSpace(([w] + rest)[k])
    {
      if k > 0 {
        assert ([w] + rest)[k] == rest[k - 1];
      }
    }
  }

  /** `parts.join(sep)`. */
  function Join(parts: seq<string>, sep: string): string {
    if |parts| == 0 then ""
    else if |parts| == 1 then parts[0]
    else parts[0] + sep + Join(parts[1..], sep)
  }

  /** Words joined by single spaces split back into the same words. */
  lemma {:induction false} SplitJoinSpaces(words: seq<string>)
    requires forall k :: 0 <= k < |words| ==> |words[k]| > 0 && NoSpace(words[k])
    ensures SplitWhitespace(Join(words, " ")) == words
    decreases |words|
  {
    if |words| == 0 {
    } else if |words| == 1 {
      SplitOneWord(words[0], "");
      assert words[0] + "" == words[0];
    } else {
      assert forall k :: 0 <= k < |words[1..]| ==> words[1..][k] == words[k + 1];
      SplitJoinSpaces(words[1..]);
      SplitJoinStep(words);
    }
  }

  /** The inductive step: the first word splits off, the rest splits as before. */
  lemma SplitJoinStep(words: seq<string>)
    requires |words| >= 2 && |words[0]| > 0 && NoSpace(words[0])
    requires SplitWhitespace(Join(words[1..], " ")) == words[1..]
    ensures SplitWhitespace(Join(words, " ")) == words
  {
    var rest := Join(words[1..], " ");
    calc {
      SplitWhitespace(Join(words, " "));
      { assert Join(words, " ") == words[0] + (" " + rest); }
      SplitWhitespace(words[0] + (" " + rest));
      { SplitOneWord(words[0], " " + rest); }
      [words[0]] + SplitWhitespace(" " + rest);
      { SplitLeadingSpace(rest); }
      [words[0]] + words[1..];
      { HeadTail(words); }
      words;
    }
  }

  /** A property of every element of two sequences holds of every element of
      their concatenation. */
  lemma AllAppend<T>(a: seq<T>, b: seq<T>, p: T -> bool)
    requires forall k :: 0 <= k < |a| ==> p(a[k])
    requires forall k :: 0 <= k < |b| ==> p(b[k])
    ensures forall k :: 0 <= k < |a + b| ==> p((a + b)[k])
  {
    forall k | 0 <= k < |a + b|
      ensures p((a + b)[k])
    {
      if k >= |a| {
        assert (a + b)[k] == b[k - |a|];
      }
    }
  }

  /** A property of every element holds of every element of the tail. */
  lemma AllTail<T>(s: seq<T>, p: T -> bool)
    requires |s| > 0 && forall k :: 0 <= k < |s| ==> p(s[k])
    ensures p(s[0]) && forall k :: 0 <= k < |s[1..]| ==> p(s[1..][k])
  {
    assert forall k :: 0 <= k < |s[1..]| ==> s[1..][k] == s[k + 1];
  }

  /** The head and tail of a concatenation whose left part is not empty. */
  lemma AppendHeadTail<T>(a: seq<T>, b: seq<T>)
    requires |a| > 0
    ensures (a + b)[0] == a[0] && (a + b)[1..] == a[1..] + b
  {
  }

  lemma AppendAssoc<T>(a: seq<T>, b: seq<T>, c: seq<T>)
    ensures a + (b + c) == (a + b) + c
  {
  }

  /** A non-empty sequence is its head followed by its tail. */
  lemma HeadTail<T>(s: seq<T>)
    requires |s| > 0
    ensures s == [s[0]] + s[1..]
  {
  }

  /** A leading space does not change the split. */
  lemma SplitLeadingSpace(s: string)
    ensures SplitWhitespace(" " + s) == SplitWhitespace(s)
  {
    assert TrimStart(" " + s) == TrimStart(s) by {
      assert (" " + s)[1..] == s;
    }
  }

  /** Splitting a word followed by whitespace-led text yields the word, then the
      split of the text. */
  lemma SplitOneWord(w: string, tail: string)
    requires |w| > 0 && NoSpace(w)
    requires |tail| > 0 ==> IsSpace(tail[0])
    ensures SplitWhitespace(w + tail) == [w] + SplitWhitespace(tail)
  {
    var s := w + tail;
    assert s[0] == w[0];
    assert TrimStart(s) == s;
    WordOfPrefix(w, tail);
    assert s[|w|..] == tail;
  }

  lemma WordOfPrefix(w: string, tail: string)
    requires |w| > 0 && NoSpace(w)
    requires |tail| > 0 ==> IsSpace(tail[0])
    ensures TakeWord(w + tail) == w
    decreases |w|
  {
    var s := w + tail;
    assert TakeWord(s) == [w[0]] + TakeWord(s[1..]) by {
      assert s[0] == w[0] && !IsSpace(w[0]);
    }
    if |w| > 1 {
      assert TakeWord(s[1..]) == w[1..] by {
        assert s[1..] == w[1..] + tail;
        assert NoSpace(w[1..]) by {
          assert forall i :: 0 <= i < |w[1..]| ==> w[1..][i] == w[i + 1];
        }
        WordOfPrefix(w[1..], tail);
      }
      assert w == [w[0]] + w[1..];
    } else {
      assert TakeWord(s[1..]) == "" by {
        assert s[1..] == tail;
      }
      assert w == [w[0]];
    }
  }

  /** Drops one `\r` just before a line break, as `str::lines` does. */
  function StripCr(line: string): string {
    if |line| > 0 && line[|line| - 1] == '\r' then line[..|line| - 1] else line
  }

  /** `str::lines`: split at `\n` (dropping a preceding `\r`); a final line break
      does not start an extra empty line. */
  function Lines(s: string): (r: seq<string>)
    ensures forall k :: 0 <= k < |r| ==> '\n' !in r[k]
    decreases |s|
  {
    if |s| == 0 then []
    else
      var p := PrefixBefore(s, '\n');
      if |p| == |s| then [s]
      else [StripCr(p)] + Lines(s[|p| + 1..])
  }

  /** A line `lines` gives back unchanged: non-empty, no line break, no final `\r`. */
  predicate PlainLine(l: string) {
    |l| > 0 && '\n' !in l && l[|l| - 1] != '\r'
  }

  /** Lines joined by `\n` split back into the same lines, provided each is a
      plain line. */
  lemma {:induction false} LinesJoin(ls: seq<string>)
    requires forall k :: 0 <= k < |ls| ==> PlainLine(ls[k])
    ensures Lines(Join(ls, "\n")) == ls
    decreases |ls|
  {
    if |ls| == 0 {
    } else if |ls| == 1 {
      PrefixBeforeWhole(ls[0], '\n');
    } else {
      var rest := Join(ls[1..], "\n");
      assert Join(ls, "\n") == ls[0] + "\n" + rest;
      LinesOneLine(ls[0], rest);
      LinesJoin(ls[1..]);
    }
  }

  lemma LinesOneLine(l: string, tail: string)
    requires PlainLine(l)
    ensures Lines(l + "\n" + tail) == [l] + Lines(tail)
  {
    var s := l + "\n" + tail;
    assert s == l + ("\n" + tail);
    PrefixBeforeFirst(l, "\n" + tail, '\n');
    assert StripCr(l) == l;
    assert |s| > 0 && |PrefixBefore(s, '\n')| < |s|;
    assert Lines(s) == [StripCr(l)] + Lines(s[|l| + 1..]);
    assert s[|l| + 1..] == tail;
  }

  /** `s.split(c)`: the pieces between occurrences of `c`, in order; an empty
      string is one empty piece. */
  function SplitOn(s: string, c: char): (r: seq<string>)
    ensures |r| > 0
    ensures forall k :: 0 <= k < |r| ==> c !in r[k]
    decreases |s|
  {
    var p := PrefixBefore(s, c);
    if |p| == |s| then [s] else [p] + SplitOn(s[|p| + 1..], c)
  }

  /** Pieces free of `c` joined by `c` split back into the same pieces. */
  lemma {:induction false} SplitOnJoin(parts: seq<string>, c: char)
    requires |parts| > 0
    requires forall k :: 0 <= k < |parts| ==> c !in parts[k]
    ensures SplitOn(Join(parts, [c]), c) == parts
    decreases |parts|
  {
    if |parts| == 1 {
      PrefixBeforeWhole(parts[0], c);
    } else {
      var rest := Join(parts[1..], [c]);
      var s := Join(parts, [c]);
      assert s == parts[0] + ([c] + rest);
      PrefixBeforeFirst(parts[0], [c] + rest, c);
      assert s[|parts[0]| + 1..] == rest;
      SplitOnJoin(parts[1..], c);
    }
  }

  lemma PrefixBeforeFirst(a: string, b: string, c: char)
    requires c !in a && |b| > 0 && b[0] == c
    ensures PrefixBefore(a + b, c) == a
    decreases |a|
  {
    if |a| > 0 {
      assert (a + b)[1..] == a[1..] + b;
      PrefixBeforeFirst(a[1..], b, c);
    } else {
      assert a + b == b;
    }
  }

  /* ---------------- decimal numbers ---------------- */

  /** The largest `u16` and `u32`. */
  const U16Max: nat := 65535
  const U32Max: nat := 4294967295

  predicate AllDigits(s: string) {
    forall i :: 0 <= i < |s| ==> IsDigit(s[i])
  }

  function DigitValue(c: char): nat
    requires IsDigit(c)
  {
    (c as int) - ('0' as int)
  }

  function DigitsValue(s: string): nat
    requires AllDigits(s)
    decreases |s|
  {
    if |s| == 0 then 0 else DigitsValue(s[..|s| - 1]) * 10 + DigitValue(s[|s| - 1])
  }

  /** `str::parse::<uN>()` where `max` is the type's largest value: an optional `+`,
      then one or more ASCII digits whose value fits. */
  function ParseUnsigned(s: string, max: nat): (r: Option<nat>)
    ensures r.Some? ==> r.value <= max
    ensures r.Some? ==> |s| > 0 && (IsDigit(s[0]) || s[0] == '+')
  {
    var digits := if |s| > 0 && s[0] == '+' then s[1..] else s;
    if |digits| == 0 || !AllDigits(digits) then None
    else
      var v := DigitsValue(digits);
      if v <= max then Some(v) else None
  }

  function DigitChar(d: nat): (c: char)
    requires d < 10
    ensures IsDigit(c) && DigitValue(c) == d
  {
    (('0' as int) + d) as char
  }

  /** Decimal rendering without leading zeros (`to_string` of an unsigned integer). */
  function NatToString(n: nat): (s: string)
    ensures |s| > 0 && AllDigits(s)
    decreases n
  {
    if n < 10 then [DigitChar(n)] else NatToString(n / 10) + [DigitChar(n % 10)]
  }

  lemma {:induction false} NatToStringValue(n: nat)
    ensures DigitsValue(NatToString(n)) == n
    decreases n
  {
    var s := NatToString(n);
    if n >= 10 {
      NatToStringValue(n / 10);
      assert s[..|s| - 1] == NatToString(n / 10);
    }
  }

  /** Rendering a number in decimal and parsing it back gives the number when it
      fits the type, and an error when it does not. */
  lemma ParseNatToString(n: nat, max: nat)
    ensures ParseUnsigned(NatToString(n), max) == if n <= max then Some(n) else None
  {
    NatToStringValue(n);
    assert IsDigit(NatToString(n)[0]);
  }

  /** Decimal rendering of a signed integer (`to_string` of an `isize`). */
  function IntToString(i: int): (s: string)
    ensures i >= 0 ==> s == NatToString(i)
    ensures i < 0 ==> s == "-" + NatToString(-i)
  {
    if i >= 0 then NatToString(i) else "-" + NatToString(-i)
  }

  /** A decimal rendering never contains whitespace, `;` or `:`. */
  lemma NatToStringPlain(n: nat)
    ensures NoSpace(NatToString(n))
    ensures ';' !in NatToString(n) && ':' !in NatToString(n) && '/' !in NatToString(n)
  {
    var s := NatToString(n);
    assert forall i :: 0 <= i < |s| ==> IsDigit(s[i]);
  }
}
