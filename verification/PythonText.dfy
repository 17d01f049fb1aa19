/** The parts of Python's string methods the source relies on. */
module PythonText {
  /** The characters `str.split()` and `str.strip()` treat as space. */
  predicate IsWhitespace(c: char) {
    var n := c as int;
    || 9 <= n <= 13 || 28 <= n <= 32 || n == 0x85 || n == 0xA0 || n == 0x1680 || 0x2000 <= n <= 0x200A
    || n == 0x2028 || n == 0x2029 || n == 0x202F || n == 0x205F || n == 0x3000
  }

  /** The characters `str.splitlines()` ends a line at. */
  predicate IsLineBreak(c: char) {
    var n := c as int;
    10 <= n <= 13 || 28 <= n <= 30 || n == 0x85 || n == 0x2028 || n == 0x2029
  }

  /** A word character of a regular expression, among the ASCII ones. */
  predicate IsWordChar(c: char) {
    'A' <= c <= 'Z' || 'a' <= c <= 'z' || '0' <= c <= '9' || c == '_'
  }

  /** `not s.strip()`. */
  predicate IsBlank(s: string) {
    forall k :: 0 <= k < |s| ==> IsWhitespace(s[k])
  }

  function LineLength(s: string): (n: nat)
    ensures n <= |s| && (forall k :: 0 <= k < n ==> !IsLineBreak(s[k]))
    ensures n < |s| ==> IsLineBreak(s[n])
  {
    if s != "" && !IsLineBreak(s[0]) then 1 + LineLength(s[1..]) else 0
  }

  /** `s.splitlines()`; carriage return and line feed together end one line. */
  function SplitLines(s: string): (lines: seq<string>)
    ensures forall line :: line in lines ==> forall k :: 0 <= k < |line| ==> !IsLineBreak(line[k])
    decreases |s|
  {
    if s == "" then []
    else
      var n := LineLength(s);
      if n == |s| then [s]
      else [s[..n]] + SplitLines(s[if s[n] == '\r' && n + 1 < |s| && s[n + 1] == '\n' then n + 2 else n + 1..])
  }

  // ---- Runs of characters of one kind ----

  /** The length of the run the text starts with. */
  function RunLength(isPart: char -> bool, s: string): (n: nat)
    ensures n <= |s| && (forall k :: 0 <= k < n ==> isPart(s[k])) && (n < |s| ==> !isPart(s[n]))
    ensures s != "" && isPart(s[0]) ==> n > 0
  {
    if s != "" && isPart(s[0]) then 1 + RunLength(isPart, s[1..]) else 0
  }

  /** The maximal runs, in order. */
  function Runs(isPart: char -> bool, s: string): (runs: seq<string>)
    ensures forall run :: run in runs ==> run != "" && forall k :: 0 <= k < |run| ==> isPart(run[k])
    decreases |s|
  {
    if s == "" then []
    else if !isPart(s[0]) then Runs(isPart, s[1..])
    else
      var n := RunLength(isPart, s);
      [s[..n]] + Runs(isPart, s[n..])
  }

  lemma RunComesFirst(isPart: char -> bool, run: string, rest: string)
    requires run != "" && forall k :: 0 <= k < |run| ==> isPart(run[k])
    requires rest == "" || !isPart(rest[0])
    ensures RunLength(isPart, run + rest) == |run|
    ensures Runs(isPart, run + rest) == [run] + Runs(isPart, rest)
  {
    var s := run + rest;
    assert forall k :: 0 <= k < |run| ==> s[k] == run[k];
    assert rest != "" ==> s[|run|] == rest[0];
    assert s[..|run|] == run && s[|run|..] == rest;
  }

  lemma OtherIsSkipped(isPart: char -> bool, c: char, rest: string)
    requires !isPart(c)
    ensures Runs(isPart, [c] + rest) == Runs(isPart, rest)
  {
    assert ([c] + rest)[1..] == rest;
  }

  // ---- Finding text ----

  /** `sub` is found in `s` at position `i`. */
  predicate At(s: string, sub: string, i: nat) {
    i + |sub| <= |s| && s[i..i + |sub|] == sub
  }

  predicate Contains(s: string, sub: string) {
    exists i :: 0 <= i <= |s| && At(s, sub, i)
  }

  lemma SliceOfSlice<T>(s: seq<T>, n: nat, i: nat, j: nat)
    requires n <= |s| && i <= j <= |s| - n
    ensures s[n..][i..j] == s[n + i..n + j]
  {
  }

  lemma AtLater(s: string, sub: string, n: nat, i: nat)
    requires n <= |s| && At(s[n..], sub, i)
    ensures At(s, sub, n + i)
  {
    SliceOfSlice(s, n, i, i + |sub|);
  }

  lemma WholeLine(s: string, n: nat)
    requires n <= |s|
    ensures At(s, s[..n], 0) && At(s, s, 0)
  {
    assert s[0..n] == s[..n] && s[0..|s|] == s;
  }

  /** Every line is part of the text. */
  lemma {:induction false} LinesArePartOf(s: string, line: string)
    requires line in SplitLines(s)
    ensures Contains(s, line)
    decreases |s|
  {
    hide IsLineBreak, At;
    var n := LineLength(s);
    if n == |s| || line == s[..n] {
      WholeLine(s, n);
    } else {
      var m := if s[n] == '\r' && n + 1 < |s| && s[n + 1] == '\n' then n + 2 else n + 1;
      LinesArePartOf(s[m..], line);
      var i :| 0 <= i <= |s[m..]| && At(s[m..], line, i);
      AtLater(s, line, m, i);
    }
  }

  /** A line ends at any break, a carriage return takes its line feed with it, and
      a text without a break is one line. */
  lemma LinesAreParted(line: string, c: char, rest: string)
    requires (forall k :: 0 <= k < |line| ==> !IsLineBreak(line[k])) && IsLineBreak(c)
    ensures SplitLines(line) == if line == "" then [] else [line]
    ensures SplitLines(line + [c] + rest)
            == [line] + SplitLines(if c == '\r' && rest != "" && rest[0] == '\n' then rest[1..] else rest)
  {
    var s := line + [c] + rest;
    var n := LineLength(s);
    assert s[|line|] == c && forall k :: 0 <= k < |line| ==> s[k] == line[k];
    assert n == |line| && s[..n] == line && s[n + 1..] == rest;
    if rest != "" { assert s[n + 2..] == rest[1..]; }
    assert LineLength(line) == |line|;
  }

  /** A text that starts with a whole line and a line feed has that line first. */
  lemma FirstLine(line: string, rest: string)
    requires forall k :: 0 <= k < |line| ==> !IsLineBreak(line[k])
    ensures SplitLines(line + "\n" + rest) == [line] + SplitLines(rest)
  {
    var s := line + "\n" + rest;
    var n := LineLength(s);
    assert s[|line|] == '\n' && forall k :: 0 <= k < |line| ==> s[k] == line[k];
    assert s[..n] == line && s[n + 1..] == rest;
  }
}
