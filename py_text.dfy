/**
 * The pieces of Python 3's `str` behaviour that the map parser relies on:
 * the character classes behind `\s`, `\d`, `str.isspace()` and
 * `str.splitlines()`, and the methods `strip`, `rstrip(",")` and
 * `splitlines`.
 */
module PyText {

  /** `str.isspace()`; in a `str` pattern, `\s` matches exactly these characters. */
  predicate IsSpace(c: char) {
    || ('\t' <= c <= '\r')
    || ('\U{1C}' <= c <= ' ')
    || c == '\U{85}' || c == '\U{A0}' || c == '\U{1680}'
    || ('\U{2000}' <= c <= '\U{200A}')
    || c == '\U{2028}' || c == '\U{2029}' || c == '\U{202F}' || c == '\U{205F}' || c == '\U{3000}'
  }

  /** The line boundaries at which `str.splitlines()` cuts. */
  predicate IsLineBreak(c: char) {
    || c == '\n' || c == '\r' || c == '\U{0B}' || c == '\U{0C}'
    || ('\U{1C}' <= c <= '\U{1E}')
    || c == '\U{85}' || c == '\U{2028}' || c == '\U{2029}'
  }

  predicate IsLineChar(c: char) { !IsLineBreak(c) }

  /** `\d`, restricted to the ASCII digits. */
  predicate IsDigit(c: char) { '0' <= c <= '9' }

  predicate AllSpace(s: string) {
    forall i :: 0 <= i < |s| ==> IsSpace(s[i])
  }

  /** What `\d+` matches: a non-empty run of decimal digits. */
  predicate IsNumeral(s: string) {
    s != [] && forall i :: 0 <= i < |s| ==> IsDigit(s[i])
  }

  predicate NoLineBreak(s: string) {
    forall i :: 0 <= i < |s| ==> !IsLineBreak(s[i])
  }

  /** `s.startswith(prefix)`. */
  predicate StartsWith(s: string, prefix: string) {
    |prefix| <= |s| && s[..|prefix|] == prefix
  }

  /** `s.endswith(suffix)`. */
  predicate EndsWith(s: string, suffix: string) {
    |suffix| <= |s| && s[|s| - |suffix|..] == suffix
  }

  /** The length of the longest prefix of `s` whose characters all satisfy `p`
      (what a greedy `p*` consumes). */
  function CountLeading(s: string, p: char -> bool): (n: nat)
    ensures n <= |s|
    ensures forall i :: 0 <= i < n ==> p(s[i])
    ensures n < |s| ==> !p(s[n])
  {
    if s == [] || !p(s[0]) then 0 else 1 + CountLeading(s[1..], p)
  }

  /** A greedy run is determined by where it has to stop. */
  lemma CountLeadingExact(s: string, p: char -> bool, n: nat)
    requires n <= |s|
    requires forall i :: 0 <= i < n ==> p(s[i])
    requires n < |s| ==> !p(s[n])
    ensures CountLeading(s, p) == n
  {
  }

  /** The length of the longest suffix of `s` whose characters all satisfy `p`. */
  function CountTrailing(s: string, p: char -> bool): (n: nat)
    ensures n <= |s|
    ensures forall i :: |s| - n <= i < |s| ==> p(s[i])
    ensures n < |s| ==> !p(s[|s| - 1 - n])
  {
    if s == [] || !p(s[|s| - 1]) then 0 else 1 + CountTrailing(s[..|s| - 1], p)
  }

  /** `s.lstrip()` */
  function LStrip(s: string): (r: string)
    ensures |r| <= |s| && r == s[|s| - |r|..]
    ensures AllSpace(s[..|s| - |r|])
    ensures r == [] || !IsSpace(r[0])
  {
    s[CountLeading(s, IsSpace)..]
  }

  /** Leading white space is exactly what `lstrip` removes. */
  lemma LStripExact(ws: string, rest: string)
    requires AllSpace(ws)
    requires rest == [] || !IsSpace(rest[0])
    ensures LStrip(ws + rest) == rest
  {
    CountLeadingExact(ws + rest, IsSpace, |ws|);
  }

  lemma LStripAllSpace(ws: string)
    requires AllSpace(ws)
    ensures LStrip(ws) == []
  {
    CountLeadingExact(ws, IsSpace, |ws|);
  }

  /** `lstrip` cuts its argument into white space and what it returns. */
  lemma LStripSplit(s: string)
    ensures s == s[..|s| - |LStrip(s)|] + LStrip(s)
    ensures AllSpace(s[..|s| - |LStrip(s)|])
  {
  }

  /** `s.rstrip()` */
  function RStrip(s: string): (r: string)
    ensures |r| <= |s| && r == s[..|r|]
    ensures AllSpace(s[|r|..])
    ensures r == [] || !IsSpace(r[|r| - 1])
  {
    s[..|s| - CountTrailing(s, IsSpace)]
  }

  /** `s.strip()`: no white space is left at either end. */
  function Strip(s: string): (r: string)
    ensures |r| <= |s|
    ensures r == [] || (!IsSpace(r[0]) && !IsSpace(r[|r| - 1]))
  {
    RStrip(LStrip(s))
  }

  /** `strip` removes white space and nothing else: its result is the
      part of `s` between a white-space prefix and a white-space suffix. */
  lemma StripSplit(s: string) returns (lead: nat)
    ensures lead + |Strip(s)| <= |s|
    ensures s[lead..lead + |Strip(s)|] == Strip(s)
    ensures AllSpace(s[..lead]) && AllSpace(s[lead + |Strip(s)|..])
  {
    var l := LStrip(s);
    var r := RStrip(l);
    lead := |s| - |l|;
    SliceOfSuffix(s, lead, lead + |r|);
  }

  lemma SliceOfSuffix(s: string, a: nat, b: nat)
    requires a <= b <= |s|
    ensures s[a..][..b - a] == s[a..b] && s[a..][b - a..] == s[b..]
  {
  }

  /** A string with no white space at its ends is its own strip. */
  lemma StripTrimmed(s: string)
    requires s == [] || (!IsSpace(s[0]) && !IsSpace(s[|s| - 1]))
    ensures Strip(s) == s
  {
    CountLeadingExact(s, IsSpace, 0);
    assert LStrip(s) == s;
  }

  /** Indentation is removed by `strip`. */
  lemma StripIndented(indent: string, s: string)
    requires AllSpace(indent)
    requires s != [] && !IsSpace(s[0]) && !IsSpace(s[|s| - 1])
    ensures Strip(indent + s) == s
  {
    CountLeadingExact(indent + s, IsSpace, |indent|);
    assert LStrip(indent + s) == s;
    StripTrimmed(s);
    CountLeadingExact(s, IsSpace, 0);
  }

  /** `s.rstrip(c)` for a single character `c`. */
  function RStripChar(s: string, c: char): (r: string)
    ensures |r| <= |s| && r == s[..|r|]
    ensures forall i :: |r| <= i < |s| ==> s[i] == c
    ensures r == [] || r[|r| - 1] != c
  {
    s[..|s| - CountTrailing(s, x => x == c)]
  }

  /** `rstrip(c)` removes exactly the run of `c` at the end. */
  lemma RStripCharExact(s: string, c: char, n: nat)
    requires n <= |s|
    requires forall i :: n <= i < |s| ==> s[i] == c
    requires n == 0 || s[n - 1] != c
    ensures RStripChar(s, c) == s[..n]
  {
  }

  /** `s.splitlines()`: cut at every line boundary, `"\r\n"` counting as one;
      a final boundary does not start an empty line. */
  function SplitLines(s: string): (lines: seq<string>)
    ensures forall i :: 0 <= i < |lines| ==> NoLineBreak(lines[i])
    ensures |lines| <= |s|
    decreases |s|
  {
    if s == [] then []
    else
      var k := CountLeading(s, IsLineChar);
      if k == |s| then [s]
      else
        var next := if s[k] == '\r' && k + 1 < |s| && s[k + 1] == '\n' then k + 2 else k + 1;
        [s[..k]] + SplitLines(s[next..])
  }

  /** The text of a file whose lines are `lines`, each ended by `"\n"`. */
  function JoinLines(lines: seq<string>): string {
    if lines == [] then "" else lines[0] + "\n" + JoinLines(lines[1..])
  }

  /** Splitting the text of a file gives back its lines. */
  lemma {:induction false} SplitJoinLines(lines: seq<string>)
    requires forall i :: 0 <= i < |lines| ==> NoLineBreak(lines[i])
    ensures SplitLines(JoinLines(lines)) == lines
  {
    if lines != [] {
      SplitFirstLine(lines[0], JoinLines(lines[1..]));
      SplitJoinLines(lines[1..]);
      assert lines == [lines[0]] + lines[1..];
    }
  }

  /** A line ended by `"\n"` is cut off as the first line. */
  lemma SplitFirstLine(l: string, t: string)
    requires NoLineBreak(l)
    ensures SplitLines(l + "\n" + t) == [l] + SplitLines(t)
  {
    var s := l + "\n" + t;
    CountLeadingExact(s, IsLineChar, |l|);
    assert s[..|l|] == l;
    assert s[|l| + 1..] == t;
  }

  /** A last line with no boundary after it is kept as one line. */
  lemma SplitLastLine(l: string)
    requires NoLineBreak(l) && l != []
    ensures SplitLines(l) == [l]
  {
    CountLeadingExact(l, IsLineChar, |l|);
  }

  /** Any boundary other than `"\r"` ends the first line, and is dropped. */
  lemma SplitAtBreak(l: string, b: char, t: string)
    requires NoLineBreak(l) && IsLineBreak(b) && b != '\r'
    ensures SplitLines(l + [b] + t) == [l] + SplitLines(t)
  {
    var s := l + [b] + t;
    CountLeadingExact(s, IsLineChar, |l|);
    assert s[..|l|] == l;
    assert s[|l| + 1..] == t;
  }

  /** `"\r\n"` ends the first line as one boundary. */
  lemma SplitAtCrLf(l: string, t: string)
    requires NoLineBreak(l)
    ensures SplitLines(l + "\r\n" + t) == [l] + SplitLines(t)
  {
    var s := l + "\r\n" + t;
    CountLeadingExact(s, IsLineChar, |l|);
    assert s[..|l|] == l;
    assert s[|l| + 2..] == t;
  }

  /** A `"\r"` not followed by `"\n"` ends the first line on its own. */
  lemma SplitAtCr(l: string, t: string)
    requires NoLineBreak(l)
    requires t == [] || t[0] != '\n'
    ensures SplitLines(l + "\r" + t) == [l] + SplitLines(t)
  {
    var s := l + "\r" + t;
    CountLeadingExact(s, IsLineChar, |l|);
    assert s[..|l|] == l;
    assert s[|l| + 1..] == t;
  }

  lemma {:induction false} JoinLinesAvoids(lines: seq<string>, c: char)
    requires forall i :: 0 <= i < |lines| ==> c !in lines[i]
    requires c != '\n'
    ensures c !in JoinLines(lines)
  {
    if lines != [] {
      JoinLinesAvoids(lines[1..], c);
    }
  }
}
