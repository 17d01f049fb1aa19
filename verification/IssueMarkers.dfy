/** The hidden marker that makes Issue creation idempotent, `github.py`. */
module IssueMarkers {
  import opened Options
  import opened JsonText
  import opened PythonText

  const MAX_ISSUE_MARKDOWN_CHARS := 65_000
  const OPENER := "<!--"
  const CLOSER := "-->"

  /** `inc-` and twenty hexadecimal digits. */
  predicate IsIncidentId(id: string) {
    && |id| == 24 && id[..4] == "inc-"
    && forall k :: 4 <= k < 24 ==> IsDigit(id[k]) || 'a' <= id[k] <= 'f'
  }

  function MarkerLine(incident: string): string {
    "<!-- incident-id:" + incident + " -->"
  }

  function IssueBody(incident: string, markdown: string): string {
    MarkerLine(incident) + "\n" + markdown
  }

  // ---- The scan for comments ----

  /** Where the next comment opens, from `i` on, or the end of the text. */
  function NextOpener(s: string, i: nat): (p: nat)
    requires i <= |s|
    ensures i <= p <= |s| && (p < |s| ==> At(s, OPENER, p))
    ensures forall k :: i <= k < p ==> !At(s, OPENER, k)
    decreases |s| - i
  {
    if i == |s| || At(s, OPENER, i) then i else NextOpener(s, i + 1)
  }

  /** `$`: the end of the text, or just before a last line feed. */
  predicate IsTextEnd(s: string, i: nat) {
    i == |s| || (i + 1 == |s| && s[i] == '\n')
  }

  /** Where the shortest content from `i` on ends. */
  function ContentEnd(s: string, i: nat): (q: nat)
    requires i <= |s|
    ensures i <= q <= |s| && (At(s, CLOSER, q) || IsTextEnd(s, q))
    ensures forall k :: i <= k < q ==> !At(s, CLOSER, k) && !IsTextEnd(s, k)
    decreases |s| - i
  {
    if At(s, CLOSER, i) || IsTextEnd(s, i) then i else ContentEnd(s, i + 1)
  }

  function AfterComment(s: string, q: nat): (n: nat)
    requires q <= |s|
    ensures q <= n <= |s|
  {
    if At(s, CLOSER, q) then q + |CLOSER| else q
  }

  /** The contents of the comments found one after the other from `i` on. */
  function Comments(s: string, i: nat): seq<string>
    requires i <= |s|
    decreases |s| - i
  {
    var p := NextOpener(s, i);
    if p == |s| then []
    else
      var q := ContentEnd(s, p + |OPENER|);
      [s[p + |OPENER|..q]] + Comments(s, AfterComment(s, q))
  }

  function Lower(c: char): char {
    if 'A' <= c <= 'Z' then (c as int + 32) as char else c
  }

  predicate AtIgnoringCase(s: string, word: string, i: nat) {
    i + |word| <= |s| && forall k :: 0 <= k < |word| ==> Lower(s[i + k]) == word[k]
  }

  predicate SpaceBetween(s: string, i: nat, j: nat) {
    i <= j <= |s| && forall k :: i <= k < j ==> IsWhitespace(s[k])
  }

  /** The reserved token at `i`: the word, a hyphen at `h` with any space around
      it, and `id` at `d`, with no word character at either end. */
  predicate TokenAt(s: string, i: nat, h: nat, d: nat) {
    && (i > 0 ==> i <= |s| && !IsWordChar(s[i - 1]))
    && AtIgnoringCase(s, "incident", i)
    && SpaceBetween(s, i + 8, h) && h < |s| && s[h] == '-'
    && SpaceBetween(s, h + 1, d)
    && AtIgnoringCase(s, "id", d)
    && (d + 2 < |s| ==> !IsWordChar(s[d + 2]) && s[d + 2] != '-')
  }

  predicate HasToken(s: string) {
    exists i, h, d :: 0 <= i <= |s| && 0 <= h <= |s| && 0 <= d <= |s| && TokenAt(s, i, h, d)
  }

  /** `validate_issue_markdown`; `isSafe` says that redaction finds no credential
      shape in the text. */
  predicate Accepts(isSafe: string -> bool, markdown: string) {
    && 1 <= |markdown| <= MAX_ISSUE_MARKDOWN_CHARS
    && isSafe(markdown)
    && forall content :: content in Comments(markdown, 0) ==> !HasToken(content)
  }

  method ValidateIssueMarkdown(isSafe: string -> bool, markdown: string) returns (ok: bool)
    ensures ok <==> Accepts(isSafe, markdown)
  {
    hide HasToken, At, IsTextEnd, NextOpener, ContentEnd, Comments, AfterComment;
    if !(1 <= |markdown| <= MAX_ISSUE_MARKDOWN_CHARS) || !isSafe(markdown) { return false; }
    var i := 0;
    ghost var found: seq<string> := [];
    while true
      invariant i <= |markdown|
      invariant Comments(markdown, 0) == found + Comments(markdown, i)
      invariant forall content :: content in found ==> !HasToken(content)
      decreases |markdown| - i
    {
      CommentsUnfold(markdown, i);
      var p := NextOpener(markdown, i);
      if p == |markdown| { return true; }
      var q := ContentEnd(markdown, p + |OPENER|);
      var content := markdown[p + |OPENER|..q];
      if HasToken(content) {
        assert content in Comments(markdown, 0);
        return false;
      }
      found := found + [content];
      i := AfterComment(markdown, q);
    }
  }

  lemma CommentsUnfold(s: string, i: nat)
    requires i <= |s|
    ensures var p := NextOpener(s, i);
            Comments(s, i)
            == if p == |s| then []
               else
                 var q := ContentEnd(s, p + |OPENER|);
                 [s[p + |OPENER|..q]] + Comments(s, AfterComment(s, q))
  {
  }

  // ---- No accepted text holds a marker ----

  const PREFIX := "<!-- incident-id:"

  lemma MarkerChars(incident: string, n: nat)
    requires IsIncidentId(incident) && n < |MarkerLine(incident)|
    ensures |MarkerLine(incident)| == 45
    ensures MarkerLine(incident)[n] == if n < 17 then PREFIX[n] else if n < 41 then incident[n - 17] else " -->"[n - 41]
    ensures MarkerLine(incident)[n] == '>' <==> n == 44
    ensures MarkerLine(incident)[n] == '<' <==> n == 0
    ensures !IsLineBreak(MarkerLine(incident)[n])
  {
    if 17 <= n < 21 { assert incident[n - 17] == incident[..4][n - 17]; }
  }

  lemma MarkerInText(s: string, incident: string, k: nat)
    requires IsIncidentId(incident) && At(s, MarkerLine(incident), k)
    ensures |MarkerLine(incident)| == 45 && k + 45 <= |s|
    ensures forall n :: k <= n < k + 45 ==> s[n] == MarkerLine(incident)[n - k]
    ensures forall n :: k <= n < k + 45 ==>
              (s[n] == '>' <==> n == k + 44) && (s[n] == '<' <==> n == k) && !IsLineBreak(s[n])
    ensures At(s, OPENER, k)
  {
    var m := MarkerLine(incident);
    MarkerChars(incident, 0);
    forall n | k <= n < k + 45
      ensures s[n] == m[n - k] && (s[n] == '>' <==> n == k + 44) && (s[n] == '<' <==> n == k) && !IsLineBreak(s[n])
    {
      assert s[n] == s[k..k + |m|][n - k];
      MarkerChars(incident, n - k);
    }
    MarkerChars(incident, 1);
    MarkerChars(incident, 2);
    MarkerChars(incident, 3);
    assert s[k..k + 4] == OPENER;
  }

  /** In a marker line the closer comes last: a closer that starts inside starts
      there, and no closer starts just before the line and reaches into it. */
  lemma CloserComesLast(s: string, incident: string, k: nat, q: nat)
    requires IsIncidentId(incident) && At(s, MarkerLine(incident), k) && At(s, CLOSER, q)
    ensures q + 3 <= k || q >= k + 42
  {
    MarkerInText(s, incident, k);
    assert s[q] == s[q..q + 3][0] == '-' && s[q + 1] == s[q..q + 3][1] == '-' && s[q + 2] == s[q..q + 3][2] == '>';
    assert q != k && q + 1 != k && q + 2 != k;
  }

  /** A scan that starts at or before a marker line finds its token. */
  lemma {:induction false} ScanFindsMarker(s: string, i: nat, incident: string, k: nat)
    requires IsIncidentId(incident) && i <= k && At(s, MarkerLine(incident), k)
    ensures i <= |s| && exists content :: content in Comments(s, i) && HasToken(content)
    decreases |s| - i
  {
    hide HasToken, IsIncidentId, MarkerLine, NextOpener, ContentEnd, At, IsTextEnd;
    OpenerAtOrBefore(s, i, incident, k);
    var p := NextOpener(s, i);
    var c := p + |OPENER|;
    var q := ContentEnd(s, c);
    ContentReaches(s, c, incident, k);
    if At(s, CLOSER, q) && q + 3 <= k {
      ScanFindsMarker(s, q + 3, incident, k);
      var content :| content in Comments(s, q + 3) && HasToken(content);
      assert content in Comments(s, i);
    } else {
      TokenInContent(s, incident, k, c, q);
      assert s[c..q] in Comments(s, i);
    }
  }

  lemma OpenerAtOrBefore(s: string, i: nat, incident: string, k: nat)
    requires IsIncidentId(incident) && i <= k && At(s, MarkerLine(incident), k)
    ensures i <= |s| && k + 45 <= |s| && NextOpener(s, i) + |OPENER| <= k + 4
  {
    MarkerInText(s, incident, k);
    OpenersDoNotOverlap(s, NextOpener(s, i), k);
  }

  /** A content that begins before the inside of the line either ends before the
      line or reaches to its closer. */
  lemma ContentReaches(s: string, c: nat, incident: string, k: nat)
    requires IsIncidentId(incident) && c <= k + 4 && At(s, MarkerLine(incident), k)
    ensures k + 45 <= |s| && c <= |s|
    ensures var q := ContentEnd(s, c); (At(s, CLOSER, q) && q + 3 <= k) || q >= k + 42
  {
    MarkerInText(s, incident, k);
    var q := ContentEnd(s, c);
    if At(s, CLOSER, q) { CloserComesLast(s, incident, k, q); }
  }

  lemma OpenersDoNotOverlap(s: string, p: nat, k: nat)
    requires p <= k && At(s, OPENER, p) && At(s, OPENER, k)
    ensures p == k || p + |OPENER| <= k
  {
    assert s[p..p + 4][0] == '<' && s[p..p + 4][1] == '!' && s[p..p + 4][2] == '-' && s[p..p + 4][3] == '-';
    assert s[k..k + 4][0] == '<';
  }

  lemma TokenInContent(s: string, incident: string, k: nat, c: nat, q: nat)
    requires IsIncidentId(incident) && At(s, MarkerLine(incident), k)
    requires c <= k + 4 && k + 42 <= q <= |s|
    ensures HasToken(s[c..q])
  {
    var content := s[c..q];
    var i := k + 5 - c;
    MarkerInText(s, incident, k);
    forall n | 4 <= n < 17 ensures content[k + n - c] == PREFIX[n] {
      MarkerChars(incident, n);
    }
    forall n | 0 <= n < 8 ensures Lower(content[i + n]) == "incident"[n] {
      assert content[k + (n + 5) - c] == PREFIX[n + 5];
    }
    forall n | 0 <= n < 2 ensures Lower(content[i + 9 + n]) == "id"[n] {
      assert content[k + (n + 14) - c] == PREFIX[n + 14];
    }
    assert content[k + 4 - c] == PREFIX[4] == ' ';
    assert content[k + 13 - c] == PREFIX[13] == '-';
    assert content[k + 16 - c] == PREFIX[16] == ':';
    assert TokenAt(content, i, i + 8, i + 9);
  }

  /** Every content found is what stands between an opener and the first closer
      after it, or the end of the text. */
  lemma {:induction false} CommentsAreReal(s: string, i: nat, content: string)
    requires i <= |s| && content in Comments(s, i)
    ensures exists p :: i <= p && IsComment(s, p, content)
    decreases |s| - i
  {
    hide NextOpener, ContentEnd;
    var p := NextOpener(s, i);
    var q := ContentEnd(s, p + |OPENER|);
    if content == s[p + |OPENER|..q] {
      hide At, IsTextEnd;
      assert IsComment(s, p, content);
    } else {
      CommentsAreReal(s, AfterComment(s, q), content);
    }
  }

  /** No opener is passed over: it opens a comment that is found, or lies in one. */
  lemma {:induction false} EveryOpenerIsRead(s: string, i: nat, k: nat)
    requires i <= k && At(s, OPENER, k)
    ensures i <= |s|
    ensures exists p, content ::
              content in Comments(s, i) && IsComment(s, p, content) && i <= p && IsWithin(k, p, content)
    decreases |s| - i
  {
    hide NextOpener, ContentEnd;
    var p := NextOpener(s, i);
    var q := ContentEnd(s, p + |OPENER|);
    OpenersDoNotOverlap(s, p, k);
    if p == k || k < q {
      assert IsComment(s, p, s[p + |OPENER|..q]);
    } else {
      OpenerIsNoCloser(s, q, k);
      EveryOpenerIsRead(s, AfterComment(s, q), k);
    }
  }

  predicate IsWithin(k: nat, p: nat, content: string) {
    k == p || p + |OPENER| <= k < p + |OPENER| + |content|
  }

  lemma OpenerIsNoCloser(s: string, q: nat, k: nat)
    requires q <= k && At(s, OPENER, k) && (At(s, CLOSER, q) || IsTextEnd(s, q))
    ensures At(s, CLOSER, q) && q + |CLOSER| <= k
  {
    assert s[k] == s[k..k + 4][0] == '<';
    assert At(s, CLOSER, q);
    var closer := s[q..q + 3];
    assert s[q] == closer[0] == '-';
    assert s[q + 1] == closer[1] == '-';
    assert s[q + 2] == closer[2] == '>';
    assert k != q && k != q + 1 && k != q + 2;
  }

  predicate IsComment(s: string, p: nat, content: string) {
    var q := p + |OPENER| + |content|;
    && q <= |s| && At(s, OPENER, p) && s[p + |OPENER|..q] == content
    && (At(s, CLOSER, q) || IsTextEnd(s, q))
    && forall k :: p + |OPENER| <= k < q ==> !At(s, CLOSER, k)
  }

  /** The token reads, whatever the case of its letters: the word, a hyphen with
      any space around it, and `id`, standing free on both sides. */
  ghost predicate IsToken(before: string, token: string, after: string) {
    && (before == "" || !IsWordChar(before[|before| - 1]))
    && (after == "" || (!IsWordChar(after[0]) && after[0] != '-'))
    && exists left, right :: IsSpacedToken(token, left, right)
  }

  predicate IsSpacedToken(token: string, left: string, right: string) {
    IsBlank(left) && IsBlank(right) && Lowered(token) == "incident" + left + "-" + right + "id"
  }

  function Lowered(s: string): (r: string) {
    seq(|s|, k requires 0 <= k < |s| => Lower(s[k]))
  }

  lemma SpaceHasNoCase(c: char)
    ensures IsWhitespace(c) ==> Lower(c) == c
    ensures IsWhitespace(Lower(c)) ==> Lower(c) == c
    ensures Lower(c) == '-' <==> c == '-'
  {
  }

  lemma TokenIsRead(s: string, i: nat, h: nat, d: nat)
    requires i <= |s| && TokenAt(s, i, h, d)
    ensures i <= d + 2 <= |s| && IsToken(s[..i], s[i..d + 2], s[d + 2..])
  {
    hide IsWhitespace, IsWordChar;
    var token, left, right := s[i..d + 2], s[i + 8..h], s[h + 1..d];
    assert IsBlank(left) && IsBlank(right);
    forall k | 0 <= k < |token| ensures Lowered(token)[k] == ("incident" + left + "-" + right + "id")[k] {
      SpaceHasNoCase(s[i + k]);
      assert token[k] == s[i + k];
    }
    assert Lowered(token) == "incident" + left + "-" + right + "id";
    assert IsSpacedToken(token, left, right);
  }

  lemma TokenIsFound(before: string, token: string, after: string)
    requires IsToken(before, token, after)
    ensures HasToken(before + token + after)
  {
    hide IsWhitespace, IsWordChar, Lower;
    var left, right :| IsSpacedToken(token, left, right);
    var s, i := before + token + after, |before|;
    var h, d := i + 8 + |left|, i + 9 + |left| + |right|;
    var low := "incident" + left + "-" + right + "id";
    assert |Lowered(token)| == |token| == |low|;
    forall k | 0 <= k < |token| ensures Lower(s[i + k]) == low[k] {
      assert s[i + k] == token[k] && Lowered(token)[k] == low[k];
    }
    assert forall k :: 0 <= k < 8 ==> Lower(s[i + k]) == low[k] == "incident"[k];
    forall k | i + 8 <= k < h ensures IsWhitespace(s[k]) {
      assert Lower(s[i + (k - i)]) == low[k - i] == left[k - i - 8];
      SpaceHasNoCase(s[k]);
    }
    assert Lower(s[i + (h - i)]) == low[h - i] == '-';
    SpaceHasNoCase(s[h]);
    forall k | h + 1 <= k < d ensures IsWhitespace(s[k]) {
      assert Lower(s[i + (k - i)]) == low[k - i] == right[k - h - 1];
      SpaceHasNoCase(s[k]);
    }
    forall k | 0 <= k < 2 ensures Lower(s[d + k]) == "id"[k] {
      assert Lower(s[i + (d + k - i)]) == low[d + k - i] == "id"[k];
    }
    assert TokenAt(s, i, h, d);
  }

  /** A text holds the reserved token exactly when a part of it is one. */
  lemma HasTokenExactly(s: string)
    ensures HasToken(s) <==> exists i, j :: 0 <= i <= j <= |s| && IsToken(s[..i], s[i..j], s[j..])
  {
    hide TokenAt, IsToken;
    if HasToken(s) {
      var i, h, d :| 0 <= i <= |s| && 0 <= h <= |s| && 0 <= d <= |s| && TokenAt(s, i, h, d);
      TokenIsRead(s, i, h, d);
      assert IsToken(s[..i], s[i..d + 2], s[d + 2..]);
    }
    if i, j :| 0 <= i <= j <= |s| && IsToken(s[..i], s[i..j], s[j..]) {
      TokenIsFound(s[..i], s[i..j], s[j..]);
      assert s[..i] + s[i..j] + s[j..] == s;
    }
  }

  lemma AcceptedHasNoMarker(isSafe: string -> bool, markdown: string, incident: string)
    requires Accepts(isSafe, markdown) && IsIncidentId(incident)
    ensures !Contains(markdown, MarkerLine(incident))
  {
    if Contains(markdown, MarkerLine(incident)) {
      var k :| 0 <= k <= |markdown| && At(markdown, MarkerLine(incident), k);
      ScanFindsMarker(markdown, 0, incident, k);
      assert false;
    }
  }

  /** The marker round trip: a body built for one incident holds the marker line
      of that incident and of no other, whatever accepted Markdown follows. */
  lemma BodyNamesItsIncident(isSafe: string -> bool, incident: string, other: string, markdown: string)
    requires IsIncidentId(incident) && IsIncidentId(other) && Accepts(isSafe, markdown)
    ensures MarkerLine(other) in SplitLines(IssueBody(incident, markdown)) <==> other == incident
  {
    forall n | 0 <= n < |MarkerLine(incident)| ensures !IsLineBreak(MarkerLine(incident)[n]) {
      MarkerChars(incident, n);
    }
    FirstLine(MarkerLine(incident), markdown);
    if MarkerLine(other) in SplitLines(markdown) {
      LinesArePartOf(markdown, MarkerLine(other));
      AcceptedHasNoMarker(isSafe, markdown, other);
      assert false;
    }
    if MarkerLine(other) == MarkerLine(incident) {
      assert MarkerLine(other)[17..41] == other && MarkerLine(incident)[17..41] == incident;
    }
  }

  // ---- The search ----

  datatype Issue = Issue(body: string, url: string)

  predicate HasLine(issue: Issue, line: string) {
    line in SplitLines(issue.body)
  }

  predicate IsFirstMatch(issues: seq<Issue>, marker: string, k: nat)
    requires k < |issues|
  {
    HasLine(issues[k], marker) && forall i :: 0 <= i < k ==> !HasLine(issues[i], marker)
  }

  /** `find_issue_by_incident_id` over the open and then the closed results. */
  method FindIssue(open: seq<Issue>, closed: seq<Issue>, incident: string) returns (url: Option<string>)
    ensures url.None? <==> forall issue :: issue in open + closed ==> !HasLine(issue, MarkerLine(incident))
    ensures url.Some? ==> exists k :: 0 <= k < |open + closed| && (open + closed)[k].url == url.value
                                      && IsFirstMatch(open + closed, MarkerLine(incident), k)
  {
    hide SplitLines, MarkerLine;
    var marker, items := MarkerLine(incident), open + closed;
    var matches: seq<string> := [];
    ghost var first := 0;
    for k := 0 to |items|
      invariant matches == [] ==> forall i :: 0 <= i < k ==> !HasLine(items[i], marker)
      invariant matches != [] ==> 0 <= first < k && matches[0] == items[first].url && IsFirstMatch(items, marker, first)
    {
      if HasLine(items[k], marker) {
        if matches == [] { first := k; }
        matches := matches + [items[k].url];
      }
    }
    return if matches != [] then Some(matches[0]) else None;
  }

  /** Over Issues built by the client, the search for an incident comes back
      empty exactly when no Issue was built for it, and what it returns was. */
  lemma SearchFindsItsIssue(
    isSafe: string -> bool, issues: seq<Issue>, incidents: seq<string>, markdowns: seq<string>, incident: string)
    requires |issues| == |incidents| == |markdowns| && IsIncidentId(incident)
    requires forall k :: 0 <= k < |issues| ==>
               && IsIncidentId(incidents[k]) && Accepts(isSafe, markdowns[k])
               && issues[k].body == IssueBody(incidents[k], markdowns[k])
    ensures (forall issue :: issue in issues ==> !HasLine(issue, MarkerLine(incident))) <==> incident !in incidents
    ensures forall k :: 0 <= k < |issues| && IsFirstMatch(issues, MarkerLine(incident), k) ==> incidents[k] == incident
  {
    hide IsIncidentId, Accepts, IssueBody, MarkerLine;
    forall k | 0 <= k < |issues| ensures HasLine(issues[k], MarkerLine(incident)) <==> incidents[k] == incident {
      BodyNamesItsIncident(isSafe, incidents[k], incident, markdowns[k]);
    }
    if incident in incidents {
      var k :| 0 <= k < |incidents| && incidents[k] == incident;
      assert issues[k] in issues;
    }
  }
}
