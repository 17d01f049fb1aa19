/** The block scanner of `check_iam_policy.py`: the text of every `statement`
    block, by counting braces outside quoted strings. */
module StatementBlocks {
  import opened Options
  import opened JsonText
  import opened PythonText

  // ---- A recursive reading of nested blocks ----

  /** The position after the string whose inside starts at `i`, or the end of
      the text; a backslash takes the next character with it. */
  function AfterString(s: string, i: nat): (j: nat)
    requires i <= |s|
    ensures i <= j <= |s|
    decreases |s| - i
  {
    if i == |s| then i
    else if s[i] == '"' then i + 1
    else if s[i] == '\\' then if i + 1 == |s| then i + 1 else AfterString(s, i + 2)
    else AfterString(s, i + 1)
  }

  /** The position after the brace that closes the block whose inside starts at
      `i`: nested blocks and strings are read whole. */
  function AfterBlock(s: string, i: nat): (r: Option<nat>)
    requires i <= |s|
    ensures r.Some? ==> i < r.value <= |s| && s[r.value - 1] == '}'
    decreases |s| - i
  {
    if i == |s| then None
    else if s[i] == '}' then Some(i + 1)
    else if s[i] == '{' then
      var inner := AfterBlock(s, i + 1);
      if inner.None? then None else AfterBlock(s, inner.value)
    else if s[i] == '"' then AfterBlock(s, AfterString(s, i + 1))
    else AfterBlock(s, i + 1)
  }

  /** The position after the braces that close `depth` open blocks. */
  function AfterBlocks(s: string, i: nat, depth: nat): Option<nat>
    requires i <= |s|
    decreases depth
  {
    if depth == 0 then Some(i)
    else
      var inner := AfterBlock(s, i);
      if inner.None? then None else AfterBlocks(s, inner.value, depth - 1)
  }

  /** Where the scanner would end from inside a string. */
  function Resume(s: string, i: nat, inString: bool, escaped: bool): (j: nat)
    requires i <= |s|
    ensures i <= j <= |s|
  {
    if !inString then i
    else if escaped then if i == |s| then i else AfterString(s, i + 1)
    else AfterString(s, i)
  }

  // ---- The starts ----

  function SkipWhitespace(s: string, i: nat): (j: nat)
    requires i <= |s|
    ensures i <= j <= |s| && (j < |s| ==> !IsWhitespace(s[j])) && forall k :: i <= k < j ==> IsWhitespace(s[k])
    decreases |s| - i
  {
    if i < |s| && IsWhitespace(s[i]) then SkipWhitespace(s, i + 1) else i
  }

  /** The position after the opening brace of a statement block that starts at
      `i`: a whole word, any space, and the brace. */
  function OpenedAt(s: string, i: nat): (r: Option<nat>)
    requires i <= |s|
    ensures r.Some? ==> i < r.value <= |s|
  {
    if !At(s, "statement", i) || (i > 0 && IsWordChar(s[i - 1])) then None
    else
      var j := SkipWhitespace(s, i + 9);
      if j < |s| && s[j] == '{' then Some(j + 1) else None
  }

  /** The text of the block that starts at `i`, if it starts and is closed. */
  function BlockAt(s: string, i: nat): Option<string>
    requires i <= |s|
  {
    var opening := OpenedAt(s, i);
    if opening.None? then None
    else
      var closed := AfterBlock(s, opening.value);
      if closed.None? then None else Some(s[i..closed.value])
  }

  /** The closed blocks that start before `i`, each with its start, in order. */
  function BlocksBefore(s: string, i: nat): seq<(nat, string)>
    requires i <= |s|
  {
    if i == 0 then []
    else BlocksBefore(s, i - 1) + match BlockAt(s, i - 1) case Some(block) => [(i - 1, block)] case None => []
  }

  /** The inner loop: one pass with a depth and two flags. It stops at the brace
      that closes the block under the recursive reading, or reaches the end. */
  method ScanBlock(s: string, start: nat) returns (end: Option<nat>)
    requires start <= |s|
    ensures end == AfterBlock(s, start)
  {
    var depth, index, inString, escaped := 1, start, false, false;
    assert AfterBlocks(s, start, 1) == AfterBlock(s, start);
    while index < |s| && depth > 0
      invariant index <= |s| && depth >= 0
      invariant escaped ==> inString
      invariant inString ==> depth > 0
      invariant AfterBlocks(s, Resume(s, index, inString, escaped), depth) == AfterBlock(s, start)
    {
      var character := s[index];
      ghost var before := Resume(s, index, inString, escaped);
      if inString {
        if escaped {
          escaped := false;
        } else if character == '\\' {
          escaped := true;
        } else if character == '"' {
          inString := false;
        }
      } else if character == '"' {
        inString := true;
      } else if character == '{' {
        assert AfterBlocks(s, index, depth) == AfterBlocks(s, index + 1, depth + 1);
        depth := depth + 1;
      } else if character == '}' {
        depth := depth - 1;
      }
      index := index + 1;
    }
    if depth == 0 { return Some(index); }
    return None;
  }

  /** `_statement_blocks`: for each start, exactly the text up to the brace that
      closes it; starts that are never closed are left out. */
  method FindStatementBlocks(s: string) returns (blocks: seq<(nat, string)>)
    ensures blocks == BlocksBefore(s, |s|)
  {
    blocks := [];
    for i := 0 to |s|
      invariant blocks == BlocksBefore(s, i)
    {
      var opening := OpenedAt(s, i);
      if opening.Some? {
        var end := ScanBlock(s, opening.value);
        if end.Some? { blocks := blocks + [(i, s[i..end.value])]; }
      }
    }
  }

  // ---- What the recursive reading means ----

  /** The nesting depth after reading `s[i..j]` outside strings, one character or
      one string at a time; `None` when `j` falls inside a string. */
  function DepthAt(s: string, i: nat, j: nat): Option<int>
    requires i <= j <= |s|
    decreases j - i
  {
    if i == j then Some(0)
    else if s[i] == '"' then
      var k := AfterString(s, i + 1);
      if k > j then None else DepthAt(s, k, j)
    else
      var rest := DepthAt(s, i + 1, j);
      if rest.None? then None
      else Some(rest.value + if s[i] == '{' then 1 else if s[i] == '}' then -1 else 0)
  }

  lemma {:induction false} DepthAdds(s: string, i: nat, j: nat, k: nat)
    requires i <= j <= k <= |s| && DepthAt(s, i, j).Some?
    ensures DepthAt(s, i, k) == match DepthAt(s, j, k)
              case None => None
              case Some(d) => Some(DepthAt(s, i, j).value + d)
    decreases j - i
  {
    if i < j {
      DepthAdds(s, if s[i] == '"' then AfterString(s, i + 1) else i + 1, j, k);
    }
  }

  /** The closing brace is the first point outside strings where more blocks have
      been closed than opened. */
  lemma {:induction false} ClosesAtFirstExcess(s: string, i: nat)
    requires i <= |s| && AfterBlock(s, i).Some?
    ensures DepthAt(s, i, AfterBlock(s, i).value) == Some(-1)
    ensures forall j :: i <= j < AfterBlock(s, i).value && DepthAt(s, i, j).Some? ==> DepthAt(s, i, j).value >= 0
    decreases |s| - i
  {
    var end := AfterBlock(s, i).value;
    if s[i] == '}' {
      assert DepthAt(s, i + 1, end) == Some(0);
    } else {
      var next :=
        if s[i] == '{' then AfterBlock(s, i + 1).value
        else if s[i] == '"' then AfterString(s, i + 1)
        else i + 1;
      ClosesAtFirstExcess(s, next);
      if s[i] == '{' { ClosesAtFirstExcess(s, i + 1); }
      ReadsTo(s, i, next);
      DepthAdds(s, i, next, end);
      forall j | i <= j < end && DepthAt(s, i, j).Some? ensures DepthAt(s, i, j).value >= 0 {
        if j >= next {
          DepthAdds(s, i, next, j);
        } else if s[i] == '{' && j > i {
          assert DepthAt(s, i + 1, j).Some?;
        }
      }
    }
  }

  /** A block that is never closed never closes more than it opens. */
  lemma {:induction false} UnclosedNeverExceeds(s: string, i: nat)
    requires i <= |s| && AfterBlock(s, i).None?
    ensures forall j :: i <= j <= |s| && DepthAt(s, i, j).Some? ==> DepthAt(s, i, j).value >= 0
    decreases |s| - i
  {
    if i < |s| && s[i] == '{' && AfterBlock(s, i + 1).Some? {
      var next := AfterBlock(s, i + 1).value;
      ClosesAtFirstExcess(s, i + 1);
      ReadsTo(s, i, next);
      UnclosedNeverExceeds(s, next);
      forall j | i <= j <= |s| && DepthAt(s, i, j).Some? ensures DepthAt(s, i, j).value >= 0 {
        if j >= next { DepthAdds(s, i, next, j); }
      }
    } else if i < |s| {
      UnclosedNeverExceeds(s, if s[i] == '"' then AfterString(s, i + 1) else i + 1);
    }
  }

  /** The end of a block is the only point that is the first excess. */
  lemma EndIsFirstExcess(s: string, i: nat, end: nat)
    requires i <= end <= |s|
    ensures AfterBlock(s, i) == Some(end) <==> FirstExcess(s, i, end)
  {
    hide DepthAt, AfterBlock;
    if AfterBlock(s, i).Some? {
      ClosesAtFirstExcess(s, i);
    } else {
      UnclosedNeverExceeds(s, i);
    }
  }

  /** Read from `i`, more blocks are closed than opened at `end` and nowhere before. */
  ghost predicate FirstExcess(s: string, i: nat, end: nat) {
    && i <= end <= |s| && DepthAt(s, i, end) == Some(-1)
    && forall j :: i <= j < end && DepthAt(s, i, j).Some? ==> DepthAt(s, i, j).value >= 0
  }

  // ---- What the strings and the blocks are ----

  /** How many backslashes stand just before `k`, from `i` on. */
  function Backslashes(s: string, i: nat, k: nat): nat
    requires i <= k <= |s|
    decreases k
  {
    if k > i && s[k - 1] == '\\' then 1 + Backslashes(s, i, k - 1) else 0
  }

  /** A quote ends the string that began at `i` unless it is escaped, which means
      an odd number of backslashes stands before it. */
  predicate EndsString(s: string, i: nat, k: int) {
    i <= k < |s| && s[k] == '"' && Backslashes(s, i, k) % 2 == 0
  }

  /** The escape of one character does not change which later quotes are escaped. */
  lemma {:induction false} EscapeIsPassed(s: string, i: nat, k: nat)
    requires i + 2 <= k <= |s| && s[i] == '\\'
    ensures Backslashes(s, i, k) % 2 == Backslashes(s, i + 2, k) % 2
    decreases k
  {
    if k > i + 2 && s[k - 1] == '\\' {
      EscapeIsPassed(s, i, k - 1);
    } else if k == i + 2 {
      assert Backslashes(s, i, i + 1) == 1;
    }
  }

  lemma {:induction false} OtherIsPassed(s: string, i: nat, k: nat)
    requires i + 1 <= k <= |s| && s[i] != '\\'
    ensures Backslashes(s, i, k) == Backslashes(s, i + 1, k)
    decreases k
  {
    if k > i + 1 && s[k - 1] == '\\' { OtherIsPassed(s, i, k - 1); }
  }

  /** A string ends with the first quote that is not escaped, and otherwise runs to
      the end of the text. */
  lemma {:induction false} StringEndsExactly(s: string, i: nat)
    requires i <= |s|
    ensures forall k :: EndsString(s, i, k) ==> AfterString(s, i) <= k + 1
    ensures AfterString(s, i) < |s| ==> i < AfterString(s, i) && EndsString(s, i, AfterString(s, i) - 1)
    decreases |s| - i
  {
    hide Backslashes;
    if i < |s| && s[i] != '"' && (s[i] != '\\' || i + 1 < |s|) {
      var next := if s[i] == '\\' then i + 2 else i + 1;
      StringEndsExactly(s, next);
      forall k | next <= k < |s| ensures EndsString(s, i, k) <==> EndsString(s, next, k) {
        if s[i] == '\\' { EscapeIsPassed(s, i, k); } else { OtherIsPassed(s, i, k); }
      }
      if next == i + 2 { OneBackslash(s, i); }
    } else {
      NoBackslash(s, i);
    }
  }

  lemma OneBackslash(s: string, i: nat)
    requires i + 1 < |s| && s[i] == '\\'
    ensures !EndsString(s, i, i + 1)
  {
    assert Backslashes(s, i, i) == 0;
  }

  lemma NoBackslash(s: string, i: nat)
    requires i <= |s|
    ensures Backslashes(s, i, i) == 0
  {
  }

  /** `block` is a statement block of `s` at `i`: the whole word, space, and all
      from the opening brace to the one that closes it. */
  ghost predicate IsStatement(s: string, i: nat, block: string) {
    && i + |block| <= |s| && s[i..i + |block|] == block
    && "statement" <= block && (i == 0 || !IsWordChar(s[i - 1]))
    && exists open :: 9 <= open < |block| && OpensAt(s, i, open) && FirstExcess(s, i + open + 1, i + |block|)
  }

  predicate OpensAt(s: string, i: nat, open: nat) {
    i + 9 <= i + open < |s| && s[i + open] == '{' && forall k :: i + 9 <= k < i + open ==> IsWhitespace(s[k])
  }

  lemma OpenerIsUnique(s: string, i: nat, open: nat)
    requires At(s, "statement", i) && (i == 0 || !IsWordChar(s[i - 1])) && OpensAt(s, i, open)
    ensures OpenedAt(s, i) == Some(i + open + 1)
  {
    assert !IsWhitespace('{');
    hide IsWhitespace, At;
    var j := SkipWhitespace(s, i + 9);
    assert j >= i + open;
    assert j <= i + open;
  }

  lemma BlockExactly(s: string, i: nat, block: string)
    requires i <= |s|
    ensures BlockAt(s, i) == Some(block) <==> IsStatement(s, i, block)
  {
    hide AfterBlock, DepthAt, FirstExcess, IsWhitespace;
    if BlockAt(s, i) == Some(block) {
      var start := OpenedAt(s, i).value;
      var end := AfterBlock(s, start).value;
      EndIsFirstExcess(s, start, end);
      assert s[i..end] == block && |block| == end - i;
      assert block[..9] == s[i..i + 9] == "statement";
      assert OpensAt(s, i, start - 1 - i);
    }
    if IsStatement(s, i, block) {
      var open :| 9 <= open < |block| && OpensAt(s, i, open) && FirstExcess(s, i + open + 1, i + |block|);
      assert block[..9] == "statement";
      assert s[i..i + 9] == s[i..i + |block|][..9];
      OpenerIsUnique(s, i, open);
      EndIsFirstExcess(s, i + open + 1, i + |block|);
    }
  }

  /** The blocks found are the closed statement blocks of the text, each once, in
      the order of their starts. */
  lemma {:induction false} BlocksExactly(s: string, i: nat)
    requires i <= |s|
    ensures forall start: nat, block ::
              (start, block) in BlocksBefore(s, i) <==> start < i && IsStatement(s, start, block)
    ensures forall k, l :: 0 <= k < l < |BlocksBefore(s, i)| ==> BlocksBefore(s, i)[k].0 < BlocksBefore(s, i)[l].0
  {
    hide BlockAt, IsStatement;
    if i > 0 {
      var before := BlocksBefore(s, i - 1);
      BlocksExactly(s, i - 1);
      assert BlocksBefore(s, i)
             == before + match BlockAt(s, i - 1) case Some(block) => [(i - 1, block)] case None => [];
      forall block ensures BlockAt(s, i - 1) == Some(block) <==> IsStatement(s, i - 1, block) {
        BlockExactly(s, i - 1, block);
      }
      forall start: nat, block
        ensures (start, block) in BlocksBefore(s, i) <==> start < i && IsStatement(s, start, block)
      {
        assert (start, block) in BlocksBefore(s, i)
          <==> (start, block) in before || (start == i - 1 && BlockAt(s, i - 1) == Some(block));
      }
      assert forall k :: 0 <= k < |before| ==> (before[k].0, before[k].1) in before;
    }
  }

  lemma ReadsTo(s: string, i: nat, next: nat)
    requires i < next <= |s| && s[i] != '}'
    requires if s[i] == '{' then DepthAt(s, i + 1, next) == Some(-1)
             else next == if s[i] == '"' then AfterString(s, i + 1) else i + 1
    ensures DepthAt(s, i, next) == Some(0)
  {
    assert DepthAt(s, next, next) == Some(0);
  }
}
