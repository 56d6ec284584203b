/** Character classes and the string operations of Python that the analyzer
    relies on (`in`, `index`, `rstrip`, `endswith`, `lower`, negative
    indexing), restricted to ASCII, and the whitespace counts behind
    `CodeLines.whitespace_check`. */
module Text {

  /** The six characters of Python's `string.whitespace`: space, tab, line
      feed, carriage return, vertical tab and form feed. */
  predicate IsWhitespace(c: char) {
    c == ' ' || c == '\t' || c == '\n' || c == '\r' || c == '\U{B}' || c == '\U{C}'
  }

  predicate IsUpper(c: char) {
    'A' <= c <= 'Z'
  }

  /** The characters of the regular-expression class `\w`, restricted to ASCII. */
  predicate IsWordChar(c: char) {
    'a' <= c <= 'z' || 'A' <= c <= 'Z' || '0' <= c <= '9' || c == '_'
  }

  /** `re.match(r'^[A-Z]', s)` succeeds. */
  predicate StartsUpper(s: string) {
    |s| > 0 && IsUpper(s[0])
  }

  function LowerChar(c: char): char {
    if IsUpper(c) then (c as int + 32) as char else c
  }

  /** `s.lower()`: lower-cases each character and keeps the length. */
  function Lower(s: string): (r: string)
    ensures |r| == |s|
    ensures forall i :: 0 <= i < |s| ==> r[i] == LowerChar(s[i])
  {
    if s == [] then [] else [LowerChar(s[0])] + Lower(s[1..])
  }

  /** `pat` occurs in `s` starting at position `p`. */
  predicate OccursAt(s: string, pat: string, p: int) {
    0 <= p && p + |pat| <= |s| && s[p..p + |pat|] == pat
  }

  /** The substring test `pat in s`. */
  predicate Contains(s: string, pat: string) {
    exists p | 0 <= p <= |s| - |pat| :: OccursAt(s, pat, p)
  }

  /** `s.endswith(c)` for a one-character suffix. */
  predicate EndsWith(s: string, c: char) {
    |s| > 0 && s[|s| - 1] == c
  }

  /** `s.index(c)`: the position of the first occurrence of `c`. */
  function IndexOf(s: string, c: char): (r: nat)
    requires c in s
    ensures r < |s| && s[r] == c
    ensures c !in s[..r]
  {
    if s[0] == c then 0
    else
      var k := IndexOf(s[1..], c);
      assert s[..k + 1] == [s[0]] + s[1..][..k];
      k + 1
  }

  /** `s[i]` with Python's meaning of a negative index: it counts from the end. */
  function PyIndex(s: string, i: int): char
    requires -|s| <= i < |s|
  {
    if i < 0 then s[|s| + i] else s[i]
  }

  /** The length of the run of whitespace that ends just before position `e`. */
  function RunBefore(s: string, e: nat): (n: nat)
    requires e <= |s|
    ensures n <= e
    ensures forall i :: e - n <= i < e ==> IsWhitespace(s[i])
    ensures n == e || !IsWhitespace(s[e - n - 1])
  {
    if e > 0 && IsWhitespace(s[e - 1]) then 1 + RunBefore(s, e - 1) else 0
  }

  /** `s.rstrip()`: `s` without its trailing whitespace. */
  function RStrip(s: string): (r: string)
    ensures |r| <= |s| && r == s[..|r|]
    ensures forall i :: |r| <= i < |s| ==> IsWhitespace(s[i])
    ensures r == [] || !IsWhitespace(r[|r| - 1])
  {
    s[..|s| - RunBefore(s, |s|)]
  }

  /** `s.rstrip().endswith(c)` for a non-whitespace `c`: some `c` in `s` is
      followed only by whitespace. */
  lemma RStripEndsWith(s: string, c: char)
    requires !IsWhitespace(c)
    ensures EndsWith(RStrip(s), c) <==>
      exists j :: 0 <= j < |s| && s[j] == c && forall m :: j < m < |s| ==> IsWhitespace(s[m])
  {
    var t := RStrip(s);
    if EndsWith(t, c) {
      assert s[|t| - 1] == c;
    } else {
      forall j | 0 <= j < |s| && s[j] == c
        ensures exists m :: j < m < |s| && !IsWhitespace(s[m])
      {
        assert j < |t|;
        assert !IsWhitespace(s[|t| - 1]);
      }
    }
  }

  /** The number of whitespace characters that begin `s`. */
  function IndentWidth(s: string): (n: nat)
    ensures n <= |s|
    ensures forall i :: 0 <= i < n ==> IsWhitespace(s[i])
    ensures n == |s| || !IsWhitespace(s[n])
  {
    if s != [] && IsWhitespace(s[0]) then 1 + IndentWidth(s[1..]) else 0
  }

  /** The count of the loop `for i in range(i, -|s|, -1)` that adds one per
      whitespace `s[i]` and stops at the first other character; negative `i`
      index from the end of `s`, as in Python. */
  function WsRunDown(s: string, i: int): (n: nat)
    requires -|s| <= i < |s|
    ensures n <= i + |s|
    ensures n > 0 ==> IsWhitespace(PyIndex(s, i))
    decreases i + |s|
  {
    if i == -|s| then 0
    else if IsWhitespace(PyIndex(s, i)) then 1 + WsRunDown(s, i - 1)
    else 0
  }

  /** What `whitespace_check(start)` returns for the line `s`: the indentation
      width when `start` is 0, otherwise the whitespace counted backwards from
      `start - 1`. */
  function WhitespaceCount(s: string, start: nat): (n: nat)
    requires start <= |s|
    ensures start == 0 ==> n <= |s|
    ensures start > 0 ==> n < start + |s|
  {
    if start == 0 then IndentWidth(s) else WsRunDown(s, start - 1)
  }

  /** Counting backwards from a non-negative position: the run of whitespace
      ending at `i`, continued from the end of the line when that run reaches
      the start of the line. */
  lemma {:induction false} RunDownFromPosition(s: string, i: nat)
    requires i < |s|
    ensures WsRunDown(s, i) ==
            RunBefore(s, i + 1) + (if RunBefore(s, i + 1) == i + 1 then WsRunDown(s, -1) else 0)
  {
    if IsWhitespace(s[i]) && i > 0 {
      RunDownFromPosition(s, i - 1);
    }
  }

  /** Counting backwards from a negative position stops at the latest at a
      non-whitespace character at position `h >= 1`. */
  lemma {:induction false} RunDownWrapped(s: string, h: nat, i: int)
    requires 0 < h < |s| && !IsWhitespace(s[h])
    requires -|s| < i < 0 && |s| + i >= h
    ensures WsRunDown(s, i) == RunBefore(s, |s| + i + 1)
    decreases i + |s|
  {
    if IsWhitespace(s[|s| + i]) {
      RunDownWrapped(s, h, i - 1);
    }
  }

  /** The whitespace counted backwards from just before a non-whitespace
      character at position `h >= 1` (the first `#` of a line): when some
      non-whitespace character precedes it, the run of whitespace right
      before it; when only whitespace precedes it, the count runs on from the
      end of the line, adding the line's trailing whitespace. */
  lemma CommentGapCases(s: string, h: nat)
    requires 0 < h < |s| && !IsWhitespace(s[h])
    ensures RunBefore(s, h) < h ==> WsRunDown(s, h - 1) == RunBefore(s, h)
    ensures RunBefore(s, h) == h ==> WsRunDown(s, h - 1) == h + RunBefore(s, |s|)
  {
    RunDownFromPosition(s, h - 1);
    RunDownWrapped(s, h, -1);
  }

  /** A substring test on a suffix finds exactly the occurrences at or after
      the suffix's start. */
  lemma ContainsInSuffix(s: string, h: nat, pat: string)
    requires h <= |s|
    ensures Contains(s[h..], pat) <==> exists p :: h <= p && OccursAt(s, pat, p)
  {
    if Contains(s[h..], pat) {
      var q :| 0 <= q <= |s[h..]| - |pat| && OccursAt(s[h..], pat, q);
      assert s[h..][q..q + |pat|] == s[h + q..h + q + |pat|];
      assert OccursAt(s, pat, h + q);
    }
    if p :| h <= p && OccursAt(s, pat, p) {
      assert s[h..][p - h..p - h + |pat|] == s[p..p + |pat|];
      assert OccursAt(s[h..], pat, p - h);
    }
  }

  /** Lower-casing a suffix is taking the suffix of the lower-cased string. */
  lemma LowerSuffix(s: string, h: nat)
    requires h <= |s|
    ensures Lower(s[h..]) == Lower(s)[h..]
  {
  }
}
