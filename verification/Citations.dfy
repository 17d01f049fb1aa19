/** Citation of Evidence IDs in free text. */
module Citations {
  import opened PythonText

  /** A character of the class in the boundary assertions. */
  predicate IsTokenChar(c: char) {
    'A' <= c <= 'Z' || 'a' <= c <= 'z' || '0' <= c <= '9' || c == '_' || c == '-'
  }

  predicate OccursAt(text: string, id: string, i: nat) {
    && i + |id| <= |text|
    && text[i..i + |id|] == id
    && (i > 0 ==> !IsTokenChar(text[i - 1]))
    && (i + |id| < |text| ==> !IsTokenChar(text[i + |id|]))
  }

  /** The search for one ID between boundaries. */
  predicate Mentions(text: string, id: string) {
    exists i :: 0 <= i <= |text| && OccursAt(text, id, i)
  }

  /** `cites_available_evidence`. */
  predicate Cites(text: string, ids: set<string>) {
    exists id :: id in ids && Mentions(text, id)
  }

  /** The maximal runs of token characters: the tokens of the text. */
  function Tokens(text: string): set<string> {
    set token | token in Runs(IsTokenChar, text)
  }

  predicate IsToken(id: string) {
    id != "" && forall k :: 0 <= k < |id| ==> IsTokenChar(id[k])
  }

  lemma MentionAfter(text: string, id: string, n: nat)
    requires n <= |text| && IsToken(id) && (0 < n < |text| ==> !IsTokenChar(text[n - 1]) || !IsTokenChar(text[n]))
    ensures Mentions(text[n..], id) ==> Mentions(text, id)
  {
    if Mentions(text[n..], id) {
      var i :| 0 <= i <= |text[n..]| && OccursAt(text[n..], id, i);
      SliceOfSlice(text, n, i, i + |id|);
      assert text[n + i] == id[0];
      assert OccursAt(text, id, n + i);
    }
  }

  lemma MentionBefore(text: string, id: string, n: nat, i: nat)
    requires n <= i && OccursAt(text, id, i)
    ensures Mentions(text[n..], id)
  {
    SliceOfSlice(text, n, i - n, i - n + |id|);
    assert OccursAt(text[n..], id, i - n);
  }

  /** A mention inside the first run is that run. */
  lemma MentionInRun(text: string, id: string, i: nat)
    requires IsToken(id) && OccursAt(text, id, i) && i < RunLength(IsTokenChar, text)
    ensures i == 0 && |id| == RunLength(IsTokenChar, text)
  {
    assert forall k :: 0 <= k < |id| ==> text[i + k] == id[k] && IsTokenChar(text[i + k]);
  }

  lemma TokensAfter(text: string)
    requires text != ""
    ensures !IsTokenChar(text[0]) ==> Tokens(text) == Tokens(text[1..])
    ensures var n := RunLength(IsTokenChar, text);
            IsTokenChar(text[0]) ==> Tokens(text) == {text[..n]} + Tokens(text[n..])
  {
  }

  /** The boundary search finds an ID exactly when it is one of the tokens:
      never as part of a longer one. */
  lemma {:induction false} MentionsAreTokens(text: string, id: string)
    requires IsToken(id)
    ensures Mentions(text, id) <==> id in Tokens(text)
    decreases |text|
  {
    if text == "" {
    } else {
      var n := if IsTokenChar(text[0]) then RunLength(IsTokenChar, text) else 1;
      MentionsAreTokens(text[n..], id);
      TokensAfter(text);
      MentionAfter(text, id, n);
      if Mentions(text, id) && id !in Tokens(text[n..]) {
        var i :| 0 <= i <= |text| && OccursAt(text, id, i);
        if i >= n { MentionBefore(text, id, n, i); }
        assert text[i] == id[0];
        MentionInRun(text, id, i);
      }
      if IsTokenChar(text[0]) && id == text[..n] {
        assert OccursAt(text, id, 0);
      }
    }
  }

  lemma CitesExactly(text: string, ids: set<string>)
    requires forall id :: id in ids ==> IsToken(id)
    ensures Cites(text, ids) <==> Tokens(text) * ids != {}
  {
    forall id | id in ids ensures Mentions(text, id) <==> id in Tokens(text) {
      MentionsAreTokens(text, id);
    }
    if Cites(text, ids) {
      var id :| id in ids && Mentions(text, id);
      assert id in Tokens(text) * ids;
    }
    if Tokens(text) * ids != {} {
      var id :| id in Tokens(text) * ids;
      assert id in ids && Mentions(text, id);
    }
  }

  /** An ID is not cited by one that goes on with a letter, a digit, a hyphen or an
      underscore, and is when anything else comes after it. */
  lemma NextDecides(id: string, c: char, rest: string)
    requires IsToken(id) && forall k :: 0 <= k < |rest| ==> IsTokenChar(rest[k])
    ensures Mentions(id + [c] + rest, id) <==>
            c != '-' && c != '_' && !('0' <= c <= '9') && !('A' <= c <= 'Z') && !('a' <= c <= 'z')
  {
    var text := id + [c] + rest;
    if !IsTokenChar(c) {
      assert text[0..|id|] == id && text[|id|] == c;
      assert OccursAt(text, id, 0);
    } else {
      assert text + "" == text;
      RunComesFirst(IsTokenChar, text, "");
      MentionsAreTokens(text, id);
    }
  }
}
