/** The Markdown brief of an incident, `brief.py`: inline escaping and the four
    sections. */
module IssueBrief {
  import opened Options
  import opened JsonText
  import opened PythonText
  import opened Domain
  import M = IssueMarkers

  const CONTROLS := "\\`*_{}[]()#+!|>~"

  // ---- Escaping ----

  /** `s.replace(c, r)` for a single character. */
  function Replace(s: string, c: char, r: string): string {
    if s == "" then "" else (if s[0] == c then r else [s[0]]) + Replace(s[1..], c, r)
  }

  lemma {:induction false} ReplaceJoin(a: string, b: string, c: char, r: string)
    ensures Replace(a + b, c, r) == Replace(a, c, r) + Replace(b, c, r)
  {
    if a == "" {
      assert a + b == b;
    } else {
      assert (a + b)[1..] == a[1..] + b;
      ReplaceJoin(a[1..], b, c, r);
    }
  }

  lemma {:induction false} ReplaceAbsent(s: string, c: char, r: string)
    requires c !in s
    ensures Replace(s, c, r) == s
  {
    if s != "" { ReplaceAbsent(s[1..], c, r); }
  }

  /** `html.escape(..., quote=False)` of one character. */
  function EscapeHtml(c: char): string {
    if c == '&' then "&amp;" else if c == '<' then "&lt;" else if c == '>' then "&gt;" else [c]
  }

  /** One character after the first `k` replacements. */
  function Staged(c: char, k: nat): string
    requires k <= |CONTROLS|
  {
    if k == 0 then EscapeHtml(c) else Replace(Staged(c, k - 1), CONTROLS[k - 1], ['\\', CONTROLS[k - 1]])
  }

  /** The one-pass escape. */
  function EscapeOne(c: char): string {
    if c == '&' || c == '<' || c == '>' then EscapeHtml(c)
    else if c in CONTROLS then ['\\', c]
    else [c]
  }

  function StagedAll(s: string, k: nat): string
    requires k <= |CONTROLS|
  {
    if s == "" then "" else Staged(s[0], k) + StagedAll(s[1..], k)
  }

  function EscapeAll(s: string): string {
    if s == "" then "" else EscapeOne(s[0]) + EscapeAll(s[1..])
  }

  lemma {:induction false} StageAll(s: string, k: nat)
    requires k < |CONTROLS|
    ensures Replace(StagedAll(s, k), CONTROLS[k], ['\\', CONTROLS[k]]) == StagedAll(s, k + 1)
  {
    if s != "" {
      StageAll(s[1..], k);
      ReplaceJoin(Staged(s[0], k), StagedAll(s[1..], k), CONTROLS[k], ['\\', CONTROLS[k]]);
    }
  }

  lemma {:induction false} HtmlInThree(s: string)
    ensures Replace(Replace(Replace(s, '&', "&amp;"), '<', "&lt;"), '>', "&gt;") == StagedAll(s, 0)
  {
    if s != "" {
      HtmlInThree(s[1..]);
      var first := if s[0] == '&' then "&amp;" else [s[0]];
      var rest := Replace(s[1..], '&', "&amp;");
      assert Replace(s, '&', "&amp;") == first + rest;
      ReplaceJoin(first, rest, '<', "&lt;");
      ReplaceJoin(Replace(first, '<', "&lt;"), Replace(rest, '<', "&lt;"), '>', "&gt;");
      if s[0] == '&' {
        ReplaceAbsent(first, '<', "&lt;");
        ReplaceAbsent(first, '>', "&gt;");
      } else if s[0] == '<' {
        assert Replace(first, '<', "&lt;") == "&lt;";
        ReplaceAbsent("&lt;", '>', "&gt;");
      } else {
        ReplaceAbsent(first, '&', "&amp;");
        assert Replace(first, '<', "&lt;") == first;
        assert Replace(first, '>', "&gt;") == EscapeHtml(s[0]);
      }
    }
  }

  /** No control stands twice, and only the first is the backslash. */
  lemma ControlsAreDistinct(k: nat)
    requires k < |CONTROLS|
    ensures CONTROLS[k] !in CONTROLS[..k] && (k > 0 ==> CONTROLS[k] != '\\')
  {
    assert forall j :: 0 <= j < k ==> CONTROLS[j] != CONTROLS[k];
  }

  lemma ReplaceOne(c: char, r: string)
    ensures Replace([c], c, r) == r
  {
    assert Replace([c], c, r) == r + "";
  }

  /** A character is escaped when its own replacement comes, and never again. */
  lemma {:induction false} StagedExactly(c: char, k: nat)
    requires k <= |CONTROLS|
    ensures Staged(c, k) == if c != '>' && c in CONTROLS[..k] then ['\\', c] else EscapeHtml(c)
  {
    hide Replace;
    if k > 0 {
      var x := CONTROLS[k - 1];
      StagedExactly(c, k - 1);
      ControlsAreDistinct(k - 1);
      assert CONTROLS[..k] == CONTROLS[..k - 1] + [x];
      StagedStep(c, x, k - 1);
    }
  }

  lemma StagedStep(c: char, x: char, k: nat)
    requires k < |CONTROLS| && x == CONTROLS[k] && x !in CONTROLS[..k] && (k > 0 ==> x != '\\')
    ensures var before := if c != '>' && c in CONTROLS[..k] then ['\\', c] else EscapeHtml(c);
            Replace(before, x, ['\\', x])
            == if c != '>' && (c in CONTROLS[..k] || c == x) then ['\\', c] else EscapeHtml(c)
  {
    hide Replace;
    if c == '&' || c == '<' || c == '>' {
      NoControlInEntities(x);
      assert c !in CONTROLS[..k] || c == '>' by { if c in CONTROLS[..k] { NoControlInEntities(c); } }
      ReplaceAbsent(EscapeHtml(c), x, ['\\', x]);
    } else if c in CONTROLS[..k] {
      assert k > 0;
      ReplaceAbsent(['\\', c], x, ['\\', x]);
    } else if c != x {
      ReplaceAbsent([c], x, ['\\', x]);
    } else {
      ReplaceOne(x, ['\\', x]);
    }
  }

  lemma NoControlInEntities(x: char)
    requires x in CONTROLS
    ensures x !in "&amp;" && x !in "&lt;" && x !in "&gt;"
    ensures x != '&' && x != '<'
  {
  }

  lemma {:induction false} StagesAreOnePass(s: string)
    ensures StagedAll(s, |CONTROLS|) == EscapeAll(s)
  {
    if s != "" {
      StagedExactly(s[0], |CONTROLS|);
      assert CONTROLS[..|CONTROLS|] == CONTROLS;
      StagesAreOnePass(s[1..]);
    }
  }

  /** `value.split()`. */
  function Words(s: string): (words: seq<string>)
    ensures forall w :: w in words ==> w != "" && forall k :: 0 <= k < |w| ==> !IsWhitespace(w[k])
  {
    Runs(c => !IsWhitespace(c), s)
  }

  function Joined(words: seq<string>): string {
    if words == [] then "" else if |words| == 1 then words[0] else words[0] + " " + Joined(words[1..])
  }

  /** `" ".join(value.split())`. */
  function Normalized(s: string): string {
    Joined(Words(s))
  }

  /** `_safe_inline`: in-place replacements, one control after the other. */
  method SafeInline(value: string) returns (escaped: string)
    ensures escaped == EscapeAll(Normalized(value))
  {
    var normalized := Normalized(value);
    escaped := Replace(Replace(Replace(normalized, '&', "&amp;"), '<', "&lt;"), '>', "&gt;");
    HtmlInThree(normalized);
    for k := 0 to |CONTROLS|
      invariant escaped == StagedAll(normalized, k)
    {
      escaped := Replace(escaped, CONTROLS[k], ['\\', CONTROLS[k]]);
      StageAll(normalized, k);
    }
    StagesAreOnePass(normalized);
  }

  /** The left inverse of the escape. */
  function Unescape(s: string): string
    decreases |s|
  {
    if s == "" then ""
    else if "&amp;" <= s then "&" + Unescape(s[5..])
    else if "&lt;" <= s then "<" + Unescape(s[4..])
    else if "&gt;" <= s then ">" + Unescape(s[4..])
    else if s[0] == '\\' && |s| >= 2 then [s[1]] + Unescape(s[2..])
    else [s[0]] + Unescape(s[1..])
  }

  lemma {:induction false} UnescapeUndoes(s: string)
    ensures Unescape(EscapeAll(s)) == s
  {
    if s != "" {
      var rest := EscapeAll(s[1..]);
      UnescapeUndoes(s[1..]);
      UnescapeStep(s[0], rest);
      assert s == [s[0]] + s[1..];
    }
  }

  lemma UnescapeStep(c: char, rest: string)
    ensures Unescape(EscapeOne(c) + rest) == [c] + Unescape(rest)
  {
    var s := EscapeOne(c) + rest;
    if c == '&' {
      assert s[5..] == rest;
    } else if c == '<' || c == '>' {
      assert s[4..] == rest && s[1] != 'a' && (c == '>' ==> s[1] == 'g');
    } else if c in CONTROLS {
      assert s[0] == '\\' && s[2..] == rest;
    } else {
      assert s[0] == c && s[1..] == rest;
    }
  }

  /** What no text in the brief may hold: an angle bracket, or a line break. */
  predicate IsInline(s: string) {
    forall k :: 0 <= k < |s| ==> s[k] != '<' && !IsLineBreak(s[k])
  }

  predicate AreInline(lines: seq<string>) {
    forall k :: 0 <= k < |lines| ==> IsInline(lines[k])
  }

  lemma {:induction false} NormalizedHasNoBreak(words: seq<string>)
    requires forall w :: w in words ==> forall k :: 0 <= k < |w| ==> !IsWhitespace(w[k])
    ensures forall k :: 0 <= k < |Joined(words)| ==> !IsLineBreak(Joined(words)[k])
  {
    if |words| == 1 {
      assert words[0] in words;
    } else if words != [] {
      assert words[0] in words;
      NormalizedHasNoBreak(words[1..]);
    }
  }

  lemma {:induction false} EscapeIsInline(s: string)
    requires forall k :: 0 <= k < |s| ==> !IsLineBreak(s[k])
    ensures IsInline(EscapeAll(s))
  {
    if s != "" {
      EscapeIsInline(s[1..]);
      assert IsInline(EscapeOne(s[0]));
      assert forall k :: 0 <= k < |EscapeAll(s)| ==>
        EscapeAll(s)[k] ==
        if k < |EscapeOne(s[0])| then EscapeOne(s[0])[k] else EscapeAll(s[1..])[k - |EscapeOne(s[0])|];
    }
  }

  function Inline(value: string): (s: string)
    ensures IsInline(s)
  {
    NormalizedHasNoBreak(Words(value));
    EscapeIsInline(Normalized(value));
    EscapeAll(Normalized(value))
  }

  // ---- The four sections ----

  /** Citations are structural IDs: letters and digits, and `-`, `_`, `.`, `:`. */
  predicate IsCitation(id: string) {
    id != "" && IsInline(id)
  }

  function Citations(ids: seq<string>): string {
    if ids == [] then "" else if |ids| == 1 then ids[0] else ids[0] + ", " + Citations(ids[1..])
  }

  function StatementLine(text: string, ids: seq<string>): string {
    "- " + Inline(text) + " (근거: " + Citations(ids) + ")"
  }

  function StatementLines(statements: seq<Statement>): seq<string> {
    if statements == [] then ["- 없음"]
    else seq(|statements|, k requires 0 <= k < |statements| => StatementLine(statements[k].text, statements[k].ids))
  }

  function MissingLines(missing: seq<string>): seq<string> {
    if missing == [] then ["- 없음"]
    else seq(|missing|, k requires 0 <= k < |missing| => "- " + Inline(missing[k]))
  }

  function ClassificationLines(investigation: Investigation): seq<string> {
    if investigation.classificationIds == [] then ["- " + Inline(investigation.classification)]
    else [StatementLine(investigation.classification, investigation.classificationIds)]
  }

  function Section(heading: string, body: seq<string>): seq<string> {
    ["## " + heading, ""] + body
  }

  /** The lines of `render_issue_markdown`. */
  function BriefLines(investigation: Investigation): seq<string> {
    Section("확인된 사실", StatementLines(investigation.facts)) + [""]
    + Section("조사 방향", StatementLines(investigation.directions)) + [""]
    + Section("누락 정보", MissingLines(investigation.missing)) + [""]
    + Section("분류 상태", ClassificationLines(investigation))
  }

  function Unlines(lines: seq<string>): string {
    if lines == [] then "" else if |lines| == 1 then lines[0] else lines[0] + "\n" + Unlines(lines[1..])
  }

  /** `render_issue_markdown` of a bundle whose redaction changed nothing. */
  function RenderBrief(investigation: Investigation): string {
    Unlines(BriefLines(investigation))
  }

  predicate CitationsAreIds(investigation: Investigation) {
    && (forall s :: s in investigation.facts + investigation.directions ==> forall id :: id in s.ids ==> IsCitation(id))
    && (forall id :: id in investigation.classificationIds ==> IsCitation(id))
  }

  predicate IsHeading(line: string) {
    "## " <= line
  }

  predicate IsBullet(line: string) {
    "- " <= line
  }

  predicate AreBullets(lines: seq<string>) {
    forall k :: 0 <= k < |lines| ==> IsBullet(lines[k])
  }

  function CountHeadings(lines: seq<string>): nat {
    if lines == [] then 0 else (if IsHeading(lines[0]) then 1 else 0) + CountHeadings(lines[1..])
  }

  lemma {:induction false} CountJoin(a: seq<string>, b: seq<string>)
    ensures CountHeadings(a + b) == CountHeadings(a) + CountHeadings(b)
  {
    if a == [] {
      assert a + b == b;
    } else {
      assert (a + b)[1..] == a[1..] + b;
      CountJoin(a[1..], b);
    }
  }

  lemma {:induction false} NoHeadings(lines: seq<string>)
    requires AreBullets(lines)
    ensures CountHeadings(lines) == 0
  {
    if lines != [] {
      assert IsBullet(lines[0]) && lines[0][0] == '-';
      NoHeadings(lines[1..]);
    }
  }

  lemma BodiesAreBullets(investigation: Investigation)
    ensures AreBullets(StatementLines(investigation.facts)) && AreBullets(StatementLines(investigation.directions))
    ensures AreBullets(MissingLines(investigation.missing)) && AreBullets(ClassificationLines(investigation))
  {
    hide Inline, Citations;
  }

  lemma SectionHasOneHeading(heading: string, body: seq<string>)
    requires AreBullets(body)
    ensures CountHeadings(Section(heading, body)) == 1
  {
    CountJoin(["## " + heading, ""], body);
    NoHeadings(body);
    assert ["## " + heading, ""][1..] == [""] && [""][1..] == [];
    assert CountHeadings([""]) == 0;
  }

  lemma FourHeadings(investigation: Investigation)
    ensures CountHeadings(BriefLines(investigation)) == 4
  {
    BodiesAreBullets(investigation);
    var a := Section("확인된 사실", StatementLines(investigation.facts));
    var b := Section("조사 방향", StatementLines(investigation.directions));
    var c := Section("누락 정보", MissingLines(investigation.missing));
    var d := Section("분류 상태", ClassificationLines(investigation));
    SectionHasOneHeading("확인된 사실", StatementLines(investigation.facts));
    SectionHasOneHeading("조사 방향", StatementLines(investigation.directions));
    SectionHasOneHeading("누락 정보", MissingLines(investigation.missing));
    SectionHasOneHeading("분류 상태", ClassificationLines(investigation));
    assert CountHeadings([""]) == 0 by { assert [""][1..] == []; }
    CountJoin(a, [""]);
    CountJoin(a + [""], b);
    CountJoin(a + [""] + b, [""]);
    CountJoin(a + [""] + b + [""], c);
    CountJoin(a + [""] + b + [""] + c, [""]);
    CountJoin(a + [""] + b + [""] + c + [""], d);
  }

  lemma {:induction false} CitationsAreInline(ids: seq<string>)
    requires forall id :: id in ids ==> IsCitation(id)
    ensures IsInline(Citations(ids))
  {
    if |ids| == 1 {
      assert ids[0] in ids;
    } else if ids != [] {
      assert ids[0] in ids;
      CitationsAreInline(ids[1..]);
    }
  }

  lemma StatementLineIsInline(text: string, ids: seq<string>)
    requires forall id :: id in ids ==> IsCitation(id)
    ensures IsInline(StatementLine(text, ids))
  {
    hide Inline, Citations, IsCitation;
    CitationsAreInline(ids);
  }

  lemma LinesAreInline(investigation: Investigation)
    requires CitationsAreIds(investigation)
    ensures AreInline(BriefLines(investigation))
  {
    hide IsInline, Inline, StatementLine, StatementLines, MissingLines, ClassificationLines, Section;
    StatementsAreInline(investigation.facts);
    StatementsAreInline(investigation.directions);
    OtherLinesAreInline(investigation);
    EmptyIsInline();
    SectionIsInline("확인된 사실", StatementLines(investigation.facts));
    SectionIsInline("조사 방향", StatementLines(investigation.directions));
    SectionIsInline("누락 정보", MissingLines(investigation.missing));
    SectionIsInline("분류 상태", ClassificationLines(investigation));
  }

  lemma StatementsAreInline(statements: seq<Statement>)
    requires forall s :: s in statements ==> forall id :: id in s.ids ==> IsCitation(id)
    ensures AreInline(StatementLines(statements))
  {
    forall k | 0 <= k < |StatementLines(statements)| ensures IsInline(StatementLines(statements)[k]) {
      if statements != [] {
        assert statements[k] in statements;
        StatementLineIsInline(statements[k].text, statements[k].ids);
      }
    }
  }

  lemma EmptyIsInline()
    ensures IsInline("") && IsInline("확인된 사실") && IsInline("조사 방향")
    ensures IsInline("누락 정보") && IsInline("분류 상태")
  {
  }

  lemma OtherLinesAreInline(investigation: Investigation)
    requires CitationsAreIds(investigation)
    ensures AreInline(MissingLines(investigation.missing))
    ensures AreInline(ClassificationLines(investigation))
  {
    hide Inline, StatementLine;
    StatementLineIsInline(investigation.classification, investigation.classificationIds);
    assert IsInline("- " + Inline(investigation.classification));
    forall k | 0 <= k < |MissingLines(investigation.missing)| ensures IsInline(MissingLines(investigation.missing)[k]) {
      assert investigation.missing != [] ==> IsInline("- " + Inline(investigation.missing[k]));
    }
  }

  lemma SectionIsInline(heading: string, body: seq<string>)
    requires IsInline(heading) && AreInline(body)
    ensures AreInline(Section(heading, body))
  {
    assert IsInline("## " + heading);
  }

  /** Joining lines with line feeds and splitting again gives them back. */
  lemma {:induction false} SplitUndoesUnlines(lines: seq<string>)
    requires lines != [] && lines[|lines| - 1] != ""
    requires AreInline(lines)
    ensures SplitLines(Unlines(lines)) == lines
  {
    if |lines| == 1 {
      assert LineLength(lines[0]) == |lines[0]|;
    } else {
      SplitUndoesUnlines(lines[1..]);
      FirstLine(lines[0], Unlines(lines[1..]));
      assert lines[0] + "\n" + Unlines(lines[1..]) == Unlines(lines);
    }
  }

  lemma {:induction false} NoBracket(lines: seq<string>)
    requires AreInline(lines)
    ensures '<' !in Unlines(lines)
  {
    if |lines| > 1 { NoBracket(lines[1..]); }
  }

  /** A text without an angle bracket holds no comment. */
  lemma NoComments(s: string)
    requires '<' !in s
    ensures M.Comments(s, 0) == []
  {
    var p := M.NextOpener(s, 0);
    if p < |s| {
      OpenerHasBracket(s, p);
      assert false;
    }
  }

  lemma OpenerHasBracket(s: string, p: nat)
    requires At(s, M.OPENER, p)
    ensures '<' in s
  {
    assert s[p] == s[p..p + 4][0] == '<';
  }

  /** Whatever the texts of the investigation are, its brief has exactly four
      lines that start a section, and no comment for a marker to hide in. */
  lemma BriefIsSafe(isSafe: string -> bool, investigation: Investigation)
    requires CitationsAreIds(investigation)
    ensures SplitLines(RenderBrief(investigation)) == BriefLines(investigation)
    ensures CountHeadings(SplitLines(RenderBrief(investigation))) == 4
    ensures M.Comments(RenderBrief(investigation), 0) == []
    ensures var brief := RenderBrief(investigation);
            |brief| <= 65_000 && isSafe(brief) <==> M.Accepts(isSafe, brief)
  {
    hide BriefLines, IsInline, IsBullet, M.Comments, CitationsAreIds, CountHeadings;
    var lines := BriefLines(investigation);
    LinesAreInline(investigation);
    BriefEndsInText(investigation);
    SplitUndoesUnlines(lines);
    FourHeadings(investigation);
    NoBracket(lines);
    NoComments(RenderBrief(investigation));
    assert SplitLines("") == [];
  }

  lemma BriefEndsInText(investigation: Investigation)
    ensures var lines := BriefLines(investigation); lines != [] && lines[|lines| - 1] != ""
  {
    BodiesAreBullets(investigation);
  }

  // ---- Reading the brief ----

  /** The lines up to the next heading, without the empty ones. */
  function Body(lines: seq<string>): seq<string> {
    if lines == [] || IsHeading(lines[0]) then []
    else (if lines[0] == "" then [] else [lines[0]]) + Body(lines[1..])
  }

  /** What a reader finds under the first heading of that name. */
  function Under(heading: string, lines: seq<string>): seq<string> {
    if lines == [] then []
    else if lines[0] == "## " + heading then Body(lines[1..])
    else Under(heading, lines[1..])
  }

  lemma {:induction false} BodyIsRead(body: seq<string>, rest: seq<string>)
    requires AreBullets(body) && (rest == [] || (rest[0] == "" && (|rest| == 1 || IsHeading(rest[1]))))
    ensures Body(body + rest) == body
  {
    if body == [] {
      assert body + rest == rest;
      assert rest != [] ==> Body(rest[1..]) == [];
    } else {
      assert IsBullet(body[0]) && body[0][0] == '-';
      assert (body + rest)[1..] == body[1..] + rest;
      BodyIsRead(body[1..], rest);
    }
  }

  lemma {:induction false} OthersArePassed(heading: string, lines: seq<string>, rest: seq<string>)
    requires forall k :: 0 <= k < |lines| ==> lines[k] != "## " + heading
    ensures Under(heading, lines + rest) == Under(heading, rest)
  {
    if lines == [] {
      assert lines + rest == rest;
    } else {
      assert (lines + rest)[1..] == lines[1..] + rest;
      OthersArePassed(heading, lines[1..], rest);
    }
  }

  lemma SectionIsRead(heading: string, before: seq<string>, body: seq<string>, rest: seq<string>)
    requires AreBullets(body) && (rest == [] || (rest[0] == "" && (|rest| == 1 || IsHeading(rest[1]))))
    requires forall line :: line in before ==> line != "## " + heading
    ensures Under(heading, before + Section(heading, body) + rest) == body
  {
    var here := Section(heading, body) + rest;
    assert forall k :: 0 <= k < |before| ==> before[k] in before;
    OthersArePassed(heading, before, here);
    assert before + here == before + Section(heading, body) + rest;
    assert here[0] == "## " + heading && here[1..] == [""] + (body + rest);
    assert ([""] + (body + rest))[1..] == body + rest;
    BodyIsRead(body, rest);
  }

  lemma BulletIsNoHeading(line: string)
    requires IsBullet(line) || line == ""
    ensures !IsHeading(line)
  {
    if IsBullet(line) { assert line[0] == '-'; }
  }

  lemma SectionHasNoOther(heading: string, other: string, body: seq<string>)
    requires AreBullets(body) && heading != other
    ensures forall line :: line in Section(heading, body) + [""] ==> line != "## " + other
  {
    assert ("## " + heading)[3..] == heading && ("## " + other)[3..] == other;
    forall line | line in Section(heading, body) + [""] ensures line != "## " + other {
      if line != "## " + heading { BulletIsNoHeading(line); }
    }
  }

  /** Under every heading stand the lines of its section and no others. */
  lemma SectionsAreRead(investigation: Investigation)
    ensures var lines := BriefLines(investigation);
            && Under("확인된 사실", lines) == StatementLines(investigation.facts)
            && Under("조사 방향", lines) == StatementLines(investigation.directions)
            && Under("누락 정보", lines) == MissingLines(investigation.missing)
            && Under("분류 상태", lines) == ClassificationLines(investigation)
  {
    hide Under, StatementLines, MissingLines, ClassificationLines, AreBullets, IsHeading, Section;
    var f, d := StatementLines(investigation.facts), StatementLines(investigation.directions);
    var m, c := MissingLines(investigation.missing), ClassificationLines(investigation);
    BodiesAreBullets(investigation);
    var facts, directions := Section("확인된 사실", f) + [""], Section("조사 방향", d) + [""];
    var missing, classification := Section("누락 정보", m) + [""], Section("분류 상태", c);
    HeadingComesFirst("조사 방향", d);
    HeadingComesFirst("누락 정보", m);
    HeadingComesFirst("분류 상태", c);
    assert "확인된 사실"[0] != "조사 방향"[0] && "확인된 사실"[0] != "누락 정보"[0] && "확인된 사실"[0] != "분류 상태"[0];
    assert "조사 방향"[0] != "누락 정보"[0] && "조사 방향"[0] != "분류 상태"[0] && "누락 정보"[0] != "분류 상태"[0];
    var lines := BriefLines(investigation);
    assert lines == facts + directions + missing + classification;

    assert lines == [] + Section("확인된 사실", f) + ([""] + directions + missing + classification);
    SectionIsRead("확인된 사실", [], f, [""] + directions + missing + classification);

    SectionHasNoOther("확인된 사실", "조사 방향", f);
    assert lines == facts + Section("조사 방향", d) + ([""] + missing + classification);
    SectionIsRead("조사 방향", facts, d, [""] + missing + classification);

    SectionHasNoOther("확인된 사실", "누락 정보", f);
    SectionHasNoOther("조사 방향", "누락 정보", d);
    assert lines == facts + directions + Section("누락 정보", m) + ([""] + classification);
    SectionIsRead("누락 정보", facts + directions, m, [""] + classification);

    SectionHasNoOther("확인된 사실", "분류 상태", f);
    SectionHasNoOther("조사 방향", "분류 상태", d);
    SectionHasNoOther("누락 정보", "분류 상태", m);
    assert lines == facts + directions + missing + Section("분류 상태", c) + [];
    SectionIsRead("분류 상태", facts + directions + missing, c, []);
  }

  lemma HeadingComesFirst(heading: string, body: seq<string>)
    ensures Section(heading, body) != [] && IsHeading(Section(heading, body)[0])
  {
    assert ("## " + heading)[..3] == "## ";
  }

  /** Line by line, each statement with its citations, in order, or the words for
      nothing. */
  predicate Lists(lines: seq<string>, statements: seq<Statement>) {
    if statements == [] then lines == ["- 없음"]
    else
      && |lines| == |statements|
      && forall k :: 0 <= k < |lines| ==>
           lines[k] == "- " + EscapeAll(Normalized(statements[k].text)) + " (근거: " + Citations(statements[k].ids) + ")"
  }

  /** A reader of the rendered brief finds the facts under their heading, the
      directions under theirs, what is missing under the third and the
      classification under the last: all of them, in order, and nothing else. */
  lemma EveryStatementHasItsHeading(investigation: Investigation)
    requires CitationsAreIds(investigation)
    ensures var lines := SplitLines(RenderBrief(investigation));
            && Lists(Under("확인된 사실", lines), investigation.facts)
            && Lists(Under("조사 방향", lines), investigation.directions)
    ensures var missing := Under("누락 정보", SplitLines(RenderBrief(investigation)));
            if investigation.missing == [] then missing == ["- 없음"]
            else
              && |missing| == |investigation.missing|
              && forall k :: 0 <= k < |missing| ==> missing[k] == "- " + EscapeAll(Normalized(investigation.missing[k]))
    ensures var text, ids := EscapeAll(Normalized(investigation.classification)), investigation.classificationIds;
            Under("분류 상태", SplitLines(RenderBrief(investigation)))
            == [if ids == [] then "- " + text else "- " + text + " (근거: " + Citations(ids) + ")"]
  {
    hide Under, SplitLines, RenderBrief, BriefLines, CitationsAreIds, EscapeAll, Normalized, Citations, StatementLines,
      Lists, M.Comments;
    BriefIsSafe(k => true, investigation);
    SectionsAreRead(investigation);
    LinesAreListed(investigation.facts);
    LinesAreListed(investigation.directions);
  }

  lemma LinesAreListed(statements: seq<Statement>)
    ensures Lists(StatementLines(statements), statements)
  {
  }

  /** The citations of a statement are all there, parted by a comma and a space. */
  lemma {:induction false} CitationsAreParted(ids: seq<string>, id: string)
    ensures Citations([]) == "" && Citations([id]) == id
    ensures ids != [] ==> Citations(ids + [id]) == Citations(ids) + ", " + id
  {
    if |ids| == 1 {
      assert (ids + [id])[1..] == [id];
    } else if ids != [] {
      assert (ids + [id])[1..] == ids[1..] + [id];
      CitationsAreParted(ids[1..], id);
    }
  }

  // ---- What a line shows ----

  /** The text keeps its words. */
  lemma {:induction false} WordsAreKept(words: seq<string>)
    requires forall w :: w in words ==> w != "" && forall k :: 0 <= k < |w| ==> !IsWhitespace(w[k])
    ensures Words(Joined(words)) == words
  {
    hide IsWhitespace, RunLength;
    var isPart := c => !IsWhitespace(c);
    if words != [] {
      assert words[0] in words;
      if |words| == 1 {
        assert words[0] + "" == words[0];
        RunComesFirst(isPart, words[0], "");
      } else {
        var rest := Joined(words[1..]);
        SpaceIsWhitespace();
        assert words[0] + (" " + rest) == Joined(words);
        WordsAreKept(words[1..]);
        RunComesFirst(isPart, words[0], " " + rest);
        OtherIsSkipped(isPart, ' ', rest);
      }
    }
  }

  lemma SpaceIsWhitespace()
    ensures IsWhitespace(' ')
  {
  }

  /** One space stands between two words. */
  lemma {:induction false} WordsAreParted(words: seq<string>, word: string)
    ensures Joined([]) == "" && Joined([word]) == word
    ensures words != [] ==> Joined(words + [word]) == Joined(words) + " " + word
  {
    if |words| == 1 {
      assert (words + [word])[1..] == [word];
    } else if words != [] {
      assert (words + [word])[1..] == words[1..] + [word];
      WordsAreParted(words[1..], word);
    }
  }

  /** Markdown and HTML give these characters a meaning. */
  predicate IsMarkup(c: char) {
    c in "\\`*_{}[]()#+!|~<>"
  }

  /** Nothing in an escaped text is markup: every such character follows the
      backslash that takes its meaning away, no angle bracket is left, and every
      `&` begins an entity. */
  predicate IsInert(s: string)
    decreases |s|
  {
    || s == ""
    || (s[0] == '\\' && |s| >= 2 && IsMarkup(s[1]) && s[1] != '<' && s[1] != '>' && IsInert(s[2..]))
    || (s[0] == '&' && ("&amp;" <= s || "&lt;" <= s || "&gt;" <= s) && IsInert(s[1..]))
    || (s[0] != '&' && !IsMarkup(s[0]) && IsInert(s[1..]))
  }

  lemma {:induction false} EscapeIsInert(s: string)
    ensures IsInert(EscapeAll(s))
  {
    if s != "" {
      EscapeIsInert(s[1..]);
      InertStep(s[0], EscapeAll(s[1..]));
    }
  }

  lemma InertStep(c: char, rest: string)
    requires IsInert(rest)
    ensures IsInert(EscapeOne(c) + rest)
  {
    var s := EscapeOne(c) + rest;
    if c == '&' || c == '<' || c == '>' {
      EntityIsInert(c, rest);
    } else {
      assert c in CONTROLS <==> IsMarkup(c) || c == '>';
      hide IsMarkup;
      if c in CONTROLS { assert s == ['\\', c] + rest && s[2..] == rest; } else { assert s[1..] == rest; }
    }
  }

  lemma EntityIsInert(c: char, rest: string)
    requires (c == '&' || c == '<' || c == '>') && IsInert(rest)
    ensures IsInert(EscapeHtml(c) + rest)
  {
    var entity, s := EscapeHtml(c), EscapeHtml(c) + rest;
    PlainIsInert(entity[1..], rest) by {
      assert forall k :: 1 <= k < |entity| ==> entity[k] in "ampltg;";
      assert forall d :: d in "ampltg;" ==> d != '&' && !IsMarkup(d);
    }
    hide IsMarkup;
    assert s[1..] == entity[1..] + rest;
    assert s[..|entity|] == entity;
  }

  lemma {:induction false} PlainIsInert(word: string, rest: string)
    requires IsInert(rest) && forall k :: 0 <= k < |word| ==> word[k] != '&' && !IsMarkup(word[k])
    ensures IsInert(word + rest)
  {
    hide IsMarkup;
    if word == "" {
      assert word + rest == rest;
    } else {
      assert (word + rest)[1..] == word[1..] + rest;
      PlainIsInert(word[1..], rest);
    }
  }
}
