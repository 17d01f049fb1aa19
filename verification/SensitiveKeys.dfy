/** Credential keys, `redaction.py`: how a key is cut into words and which words
    make it sensitive. */
module SensitiveKeys {
  import opened PythonText

  predicate IsUpper(c: char) { 'A' <= c <= 'Z' }

  predicate IsLower(c: char) { 'a' <= c <= 'z' }

  predicate IsLowerOrDigit(c: char) { IsLower(c) || '0' <= c <= '9' }

  predicate IsAlphanumeric(c: char) { IsUpper(c) || IsLowerOrDigit(c) }

  function ToLower(c: char): char {
    if IsUpper(c) then (c as int + 32) as char else c
  }

  function ToUpper(c: char): char {
    if IsLower(c) then (c as int - 32) as char else c
  }

  function Lower(s: string): (r: string)
    ensures |r| == |s| && forall k :: 0 <= k < |s| ==> r[k] == ToLower(s[k])
  {
    seq(|s|, k requires 0 <= k < |s| => ToLower(s[k]))
  }

  function Upper(s: string): (r: string)
    ensures |r| == |s| && forall k :: 0 <= k < |s| ==> r[k] == ToUpper(s[k])
  {
    seq(|s|, k requires 0 <= k < |s| => ToUpper(s[k]))
  }

  // ---- The two substitutions ----

  function UpperRun(s: string): (n: nat)
    ensures n <= |s| && (forall k :: 0 <= k < n ==> IsUpper(s[k])) && (n < |s| ==> !IsUpper(s[n]))
  {
    if s != "" && IsUpper(s[0]) then 1 + UpperRun(s[1..]) else 0
  }

  predicate AcronymAhead(s: string) {
    var n := UpperRun(s);
    n >= 2 && n < |s| && IsLower(s[n])
  }

  /** The first substitution: from the left, a longest run of capitals whose last
      one begins a word is parted before that one. */
  function SplitAcronyms(s: string): string
    decreases |s|
  {
    if s == "" then ""
    else
      var n := UpperRun(s);
      if AcronymAhead(s) then s[..n - 1] + " " + s[n - 1..n + 1] + SplitAcronyms(s[n + 1..])
      else [s[0]] + SplitAcronyms(s[1..])
  }

  /** The second substitution: a small letter or digit is parted from a capital. */
  function SplitCamel(s: string): string
    decreases |s|
  {
    if s == "" then ""
    else if |s| >= 2 && IsLowerOrDigit(s[0]) && IsUpper(s[1]) then [s[0]] + " " + [s[1]] + SplitCamel(s[2..])
    else [s[0]] + SplitCamel(s[1..])
  }

  // ---- The same in one pass ----

  predicate EndsAcronym(prev: char, s: string) {
    |s| >= 2 && IsUpper(prev) && IsUpper(s[0]) && IsLower(s[1])
  }

  predicate StartsHump(prev: char, s: string) {
    s != "" && IsLowerOrDigit(prev) && IsUpper(s[0])
  }

  /** `s`, which follows `prev`, with a space at every word boundary. */
  function Parted(prev: char, s: string): string
    decreases |s|
  {
    if s == "" then ""
    else (if EndsAcronym(prev, s) || StartsHump(prev, s) then " " else "") + [s[0]] + Parted(s[0], s[1..])
  }

  function AcronymsParted(prev: char, s: string): string
    decreases |s|
  {
    if s == "" then ""
    else (if EndsAcronym(prev, s) then " " else "") + [s[0]] + AcronymsParted(s[0], s[1..])
  }

  function HumpsParted(prev: char, s: string): string
    decreases |s|
  {
    if s == "" then ""
    else (if StartsHump(prev, s) then " " else "") + [s[0]] + HumpsParted(s[0], s[1..])
  }

  lemma {:induction false} RunIsParted(prev: char, s: string)
    requires AcronymAhead(s)
    ensures var n := UpperRun(s);
            AcronymsParted(prev, s) == s[..n - 1] + " " + s[n - 1..n + 1] + AcronymsParted(s[n], s[n + 1..])
    decreases |s|
  {
    hide AcronymsParted;
    var n := UpperRun(s);
    assert s[1..][n - 1] == s[n];
    if n > 2 {
      InsideRun(prev, s);
      RunIsParted(s[0], s[1..]);
      hide UpperRun;
      assert s[1..][n..] == s[n + 1..] && s[1..][n - 2..n] == s[n - 1..n + 1];
      assert s[..n - 1] == [s[0]] + s[1..][..n - 2];
    } else {
      PairIsParted(prev, s);
    }
  }

  lemma InsideRun(prev: char, s: string)
    requires |s| >= 2 && IsUpper(s[0]) && IsUpper(s[1])
    ensures AcronymsParted(prev, s) == [s[0]] + AcronymsParted(s[0], s[1..])
  {
  }

  lemma PairIsParted(prev: char, s: string)
    requires |s| >= 3 && IsUpper(s[0]) && IsUpper(s[1]) && IsLower(s[2])
    ensures AcronymsParted(prev, s) == s[..1] + " " + s[1..3] + AcronymsParted(s[2], s[3..])
  {
    var last, after := s[1..], s[2..];
    assert last[1..] == after && after[1..] == s[3..] && last[0] == s[1] && after[0] == s[2] && last[1] == s[2];
    assert AcronymsParted(s[1], after) == [s[2]] + AcronymsParted(s[2], s[3..]);
    assert AcronymsParted(s[0], last) == " " + [s[1]] + AcronymsParted(s[1], after);
    assert AcronymsParted(prev, s) == [s[0]] + AcronymsParted(s[0], last);
    hide AcronymsParted;
    assert s[..1] == [s[0]] && s[1..3] == [s[1], s[2]];
  }

  lemma TwoCapitals(s: string)
    ensures |s| >= 3 && IsUpper(s[0]) && IsUpper(s[1]) && IsLower(s[2]) ==> UpperRun(s) == 2
  {
    if |s| >= 3 && IsUpper(s[0]) && IsUpper(s[1]) && IsLower(s[2]) {
      assert s[1..][0] == s[1] && s[1..][1..][0] == s[2];
      assert UpperRun(s[1..][1..]) == 0;
      assert UpperRun(s[1..]) == 1;
    }
  }

  lemma NoAcronymAhead(prev: char, s: string)
    requires s != "" && !EndsAcronym(prev, s) && !AcronymAhead(s)
    ensures !EndsAcronym(s[0], s[1..])
    ensures AcronymsParted(prev, s) == [s[0]] + AcronymsParted(s[0], s[1..])
    ensures SplitAcronyms(s) == [s[0]] + SplitAcronyms(s[1..])
  {
    hide UpperRun;
    TwoCapitals(s);
  }

  lemma {:induction false} AcronymsInOnePass(prev: char, s: string)
    requires !EndsAcronym(prev, s)
    ensures SplitAcronyms(s) == AcronymsParted(prev, s)
    decreases |s|
  {
    hide AcronymsParted, UpperRun, SplitAcronyms;
    if s != "" && AcronymAhead(s) {
      var n := UpperRun(s);
      RunIsParted(prev, s);
      AcronymIsSplit(s);
      AcronymsInOnePass(s[n], s[n + 1..]);
    } else if s != "" {
      NoAcronymAhead(prev, s);
      AcronymsInOnePass(s[0], s[1..]);
    } else {
      NothingParted(prev);
    }
  }

  lemma AcronymIsSplit(s: string)
    requires AcronymAhead(s)
    ensures var n := UpperRun(s);
            SplitAcronyms(s) == s[..n - 1] + " " + s[n - 1..n + 1] + SplitAcronyms(s[n + 1..])
  {
    hide UpperRun;
  }

  lemma NothingParted(prev: char)
    ensures AcronymsParted(prev, "") == SplitAcronyms("")
  {
  }

  lemma {:induction false} HumpsInOnePass(prev: char, s: string)
    requires !StartsHump(prev, s)
    ensures SplitCamel(s) == HumpsParted(prev, s)
    decreases |s|
  {
    hide SplitCamel, HumpsParted;
    if |s| >= 2 && StartsHump(s[0], s[1..]) {
      HumpIsSplit(prev, s);
      HumpsInOnePass(s[1], s[2..]);
    } else if s != "" {
      NoHumpIsSplit(prev, s);
      HumpsInOnePass(s[0], s[1..]);
    } else {
      NoHumps(prev);
    }
  }

  lemma NoHumps(prev: char)
    ensures SplitCamel("") == "" == HumpsParted(prev, "")
  {
  }

  lemma HumpIsSplit(prev: char, s: string)
    requires |s| >= 2 && StartsHump(s[0], s[1..])
    ensures !StartsHump(prev, s) && !StartsHump(s[1], s[2..])
    ensures SplitCamel(s) == [s[0]] + " " + [s[1]] + SplitCamel(s[2..])
    ensures HumpsParted(prev, s) == [s[0]] + " " + [s[1]] + HumpsParted(s[1], s[2..])
  {
    hide SplitCamel;
    assert s[1..][1..] == s[2..];
    assert HumpsParted(s[0], s[1..]) == " " + [s[1]] + HumpsParted(s[1], s[2..]);
    SplitCamelUnfolds(s);
  }

  lemma SplitCamelUnfolds(s: string)
    requires |s| >= 2 && StartsHump(s[0], s[1..])
    ensures SplitCamel(s) == [s[0]] + " " + [s[1]] + SplitCamel(s[2..])
  {
  }

  lemma NoHumpIsSplit(prev: char, s: string)
    requires s != "" && !StartsHump(prev, s) && !StartsHump(s[0], s[1..])
    ensures SplitCamel(s) == [s[0]] + SplitCamel(s[1..])
    ensures HumpsParted(prev, s) == [s[0]] + HumpsParted(s[0], s[1..])
  {
  }

  lemma {:induction false} PassesCompose(prev: char, s: string)
    ensures HumpsParted(prev, AcronymsParted(prev, s)) == Parted(prev, s)
    decreases |s|
  {
    if s != "" {
      PassesCompose(s[0], s[1..]);
      var rest := AcronymsParted(s[0], s[1..]);
      assert Parted(prev, s) ==
             (if EndsAcronym(prev, s) || StartsHump(prev, s) then " " else "") + [s[0]] + HumpsParted(s[0], rest);
      assert AcronymsParted(prev, s) == (if EndsAcronym(prev, s) then " " else "") + [s[0]] + rest;
      hide AcronymsParted, Parted;
      FirstHump(prev, s[0], rest);
      AfterSpace(prev, s[0], rest);
    }
  }

  lemma FirstHump(prev: char, c: char, rest: string)
    ensures HumpsParted(prev, [c] + rest) ==
            (if IsLowerOrDigit(prev) && IsUpper(c) then " " else "") + [c] + HumpsParted(c, rest)
  {
    assert ([c] + rest)[1..] == rest;
  }

  lemma AfterSpace(prev: char, c: char, rest: string)
    ensures HumpsParted(prev, " " + [c] + rest) == " " + [c] + HumpsParted(c, rest)
  {
    assert (" " + [c] + rest)[1..] == [c] + rest;
    FirstHump(' ', c, rest);
  }

  /** The two substitutions, one after the other, part a key exactly at its word
      boundaries. */
  lemma PartedInOnePass(key: string)
    ensures SplitCamel(SplitAcronyms(key)) == Parted(' ', key)
  {
    AcronymsInOnePass(' ', key);
    HumpsInOnePass(' ', SplitAcronyms(key));
    PassesCompose(' ', key);
  }

  // ---- Words ----

  function Lowered(words: seq<string>): seq<string> {
    seq(|words|, k requires 0 <= k < |words| => Lower(words[k]))
  }

  function Words(s: string): seq<string> {
    Lowered(Runs(IsAlphanumeric, s))
  }

  /** `_key_tokens`. */
  function KeyTokens(key: string): seq<string> {
    Words(SplitCamel(SplitAcronyms(key)))
  }

  lemma WordComesFirst(word: string, rest: string)
    requires word != "" && (forall k :: 0 <= k < |word| ==> IsAlphanumeric(word[k]))
    requires rest == "" || !IsAlphanumeric(rest[0])
    ensures Words(word + rest) == [Lower(word)] + Words(rest)
  {
    hide Runs, RunLength, IsAlphanumeric;
    RunComesFirst(IsAlphanumeric, word, rest);
  }

  // ---- Spelling conventions ----

  /** A word as a spelling convention starts from it: small letters. */
  predicate IsWord(word: string) {
    word != "" && forall k :: 0 <= k < |word| ==> IsLower(word[k])
  }

  predicate AreWords(words: seq<string>) {
    forall k :: 0 <= k < |words| ==> IsWord(words[k])
  }

  predicate AreLong(words: seq<string>) {
    forall k :: 0 <= k < |words| ==> |words[k]| >= 2
  }

  function Snake(words: seq<string>): string {
    if words == [] then "" else if |words| == 1 then words[0] else words[0] + "_" + Snake(words[1..])
  }

  function Capitalized(word: string): string
    requires word != ""
  {
    [ToUpper(word[0])] + word[1..]
  }

  function Humps(words: seq<string>): string
    requires AreWords(words)
  {
    if words == [] then "" else Capitalized(words[0]) + Humps(words[1..])
  }

  function Camel(words: seq<string>): string
    requires AreWords(words)
  {
    if words == [] then "" else words[0] + Humps(words[1..])
  }

  /** Without capitals, or without small letters and digits, there is no boundary. */
  lemma {:induction false} NothingToPart(prev: char, s: string)
    requires || (forall k :: 0 <= k < |s| ==> !IsUpper(s[k]))
             || (!IsLowerOrDigit(prev) && forall k :: 0 <= k < |s| ==> !IsLowerOrDigit(s[k]))
    ensures Parted(prev, s) == s
    decreases |s|
  {
    if s != "" {
      NothingToPart(s[0], s[1..]);
      assert s == [s[0]] + s[1..];
    }
  }

  lemma {:induction false} SnakeIsSmall(words: seq<string>)
    requires AreWords(words)
    ensures forall k :: 0 <= k < |Snake(words)| ==> !IsUpper(Snake(words)[k])
  {
    if |words| > 1 {
      SnakeIsSmall(words[1..]);
    }
  }

  lemma LowerWord(word: string)
    requires IsWord(word)
    ensures Lower(word) == word && Lower(Upper(word)) == word && Lower(Capitalized(word)) == word
    ensures forall k :: 0 <= k < |word| ==> IsUpper(Upper(word)[k])
  {
  }

  lemma {:induction false} SnakeWords(words: seq<string>)
    requires AreWords(words)
    ensures Words(Snake(words)) == words
  {
    if words != [] {
      LowerWord(words[0]);
      assert words == [words[0]] + words[1..];
      if |words| == 1 {
        WordComesFirst(words[0], "");
        assert words[0] + "" == words[0];
      } else {
        var rest := "_" + Snake(words[1..]);
        SnakeWords(words[1..]);
        assert rest[1..] == Snake(words[1..]);
        assert Snake(words) == words[0] + rest;
        WordComesFirst(words[0], rest);
      }
    }
  }

  lemma {:induction false} UpperSnakeWords(words: seq<string>)
    requires AreWords(words)
    ensures Words(Upper(Snake(words))) == words
  {
    hide Words, IsWord;
    if words == [] {
      NoWords();
    } else if |words| == 1 {
      LowerWord(words[0]);
      NoWords();
      WordComesFirst(Upper(words[0]), "");
      assert Upper(words[0]) + "" == Upper(words[0]);
      assert words == [words[0]];
    } else {
      var first, rest := Upper(words[0]), Upper(Snake(words[1..]));
      LowerWord(words[0]);
      UpperSnakeWords(words[1..]);
      assert Upper(Snake(words)) == first + ("_" + rest);
      WordComesFirst(first, "_" + rest);
      SkipMark('_', rest);
      assert words == [words[0]] + words[1..];
    }
  }

  lemma NoWords()
    ensures Words("") == []
  {
  }

  lemma SkipMark(mark: char, rest: string)
    requires !IsAlphanumeric(mark)
    ensures Words([mark] + rest) == Words(rest)
  {
    hide Runs;
    OtherIsSkipped(IsAlphanumeric, mark, rest);
  }

  /** Small letters part nothing. */
  lemma {:induction false} SmallStays(prev: char, small: string, rest: string)
    requires small != "" && forall k :: 0 <= k < |small| ==> IsLower(small[k])
    ensures Parted(prev, small + rest) == small + Parted(small[|small| - 1], rest)
    decreases |small|
  {
    var s := small + rest;
    assert s[0] == small[0] && s[1..] == small[1..] + rest;
    if |small| == 1 {
      assert small[1..] + rest == rest;
    } else {
      SmallStays(small[0], small[1..], rest);
      assert small == [small[0]] + small[1..];
    }
  }

  /** Every hump of two letters or more is a word of its own. */
  lemma {:induction false} HumpsAreWords(prev: char, words: seq<string>)
    requires AreWords(words) && AreLong(words) && IsLower(prev)
    ensures Words(Parted(prev, Humps(words))) == words
    ensures var s := Parted(prev, Humps(words)); s == "" || s[0] == ' '
    decreases |words|
  {
    hide Words, Parted, IsWord;
    if words == [] {
      NothingLeft(prev);
    } else {
      var word, rest := words[0], words[1..];
      var last := word[|word| - 1];
      LastIsLower(word);
      HumpsAreWords(last, rest);
      HumpIsParted(prev, word, Humps(rest));
      HumpIsWord(word, Parted(last, Humps(rest)));
      assert words == [word] + rest;
    }
  }

  lemma NothingLeft(prev: char)
    ensures Parted(prev, "") == "" && Words("") == []
  {
  }

  lemma LastIsLower(word: string)
    requires IsWord(word)
    ensures IsLower(word[|word| - 1])
  {
  }

  lemma HumpIsParted(prev: char, word: string, rest: string)
    requires IsWord(word) && |word| >= 2 && IsLower(prev)
    ensures Parted(prev, Capitalized(word) + rest) == " " + Capitalized(word) + Parted(word[|word| - 1], rest)
  {
    var c, small := ToUpper(word[0]), word[1..];
    var s := Capitalized(word) + rest;
    assert s[0] == c && s[1..] == small + rest;
    assert Parted(prev, s) == " " + [c] + Parted(c, small + rest);
    hide Parted;
    SmallStays(c, small, rest);
    assert Capitalized(word) == [c] + small;
  }

  lemma HumpIsWord(word: string, after: string)
    requires IsWord(word) && (after == "" || after[0] == ' ')
    ensures Words(" " + Capitalized(word) + after) == [word] + Words(after)
  {
    hide Words;
    assert " " + Capitalized(word) + after == [' '] + (Capitalized(word) + after);
    SkipMark(' ', Capitalized(word) + after);
    WordComesFirst(Capitalized(word), after);
    LowerWord(word);
  }

  /** The words of a name are found whether it is written `like_this`, `LIKE_THIS`
      or, with words of two letters or more, `likeThis`. */
  lemma SpellingIsImmaterial(words: seq<string>)
    requires AreWords(words)
    ensures KeyTokens(Snake(words)) == words
    ensures KeyTokens(Upper(Snake(words))) == words
    ensures AreLong(words) ==> KeyTokens(Camel(words)) == words
  {
    PartedInOnePass(Snake(words));
    SnakeIsSmall(words);
    NothingToPart(' ', Snake(words));
    SnakeWords(words);
    PartedInOnePass(Upper(Snake(words)));
    SnakeHasNoDigit(words);
    NothingToPart(' ', Upper(Snake(words)));
    UpperSnakeWords(words);
    if words != [] && AreLong(words) {
      CamelWords(words);
    }
  }

  lemma {:induction false} SnakeHasNoDigit(words: seq<string>)
    requires AreWords(words)
    ensures forall k :: 0 <= k < |Snake(words)| ==> !IsLowerOrDigit(ToUpper(Snake(words)[k]))
  {
    if |words| > 1 {
      SnakeHasNoDigit(words[1..]);
    }
  }

  lemma CamelWords(words: seq<string>)
    requires AreWords(words) && words != [] && AreLong(words)
    ensures KeyTokens(Camel(words)) == words
  {
    hide Words, Parted, SplitAcronyms, SplitCamel;
    var word, rest := words[0], words[1..];
    var last := word[|word| - 1];
    PartedInOnePass(Camel(words));
    SmallStays(' ', word, Humps(rest));
    HumpsAreWords(last, rest);
    WordComesFirst(word, Parted(last, Humps(rest)));
    LowerWord(word);
    assert words == [word] + rest;
  }

  /** A hump of one letter is not told from the start of an acronym. */
  lemma OneLetterHumpsMerge()
    ensures KeyTokens(Camel(["x", "a", "b"])) == ["x", "ab"]
  {
    hide SplitAcronyms, SplitCamel, Words, Humps, Camel, Parted;
    OneLetterHumps();
    PartedInOnePass("xAB");
    OneBoundary();
    NoWords();
    WordComesFirst("x", " AB");
    SkipMark(' ', "AB");
    WordComesFirst("AB", "");
    assert "AB" + "" == "AB" && "x" + " AB" == "x AB" && [' '] + "AB" == " AB";
    assert Lower("AB") == "ab" && Lower("x") == "x";
  }

  lemma OneLetterHumps()
    ensures Camel(["x", "a", "b"]) == "xAB"
  {
    assert Humps(["b"]) == "B" by { assert ["b"][1..] == []; }
    assert Humps(["a", "b"]) == "AB" by { assert ["a", "b"][1..] == ["b"]; }
    assert ["x", "a", "b"][1..] == ["a", "b"];
  }

  lemma OneBoundary()
    ensures Parted(' ', "xAB") == "x AB"
  {
    NothingToPart('A', "B");
    assert Parted('x', "AB") == " AB" by { assert "AB"[1..] == "B"; }
    assert "xAB"[1..] == "AB";
  }

  // ---- Sensitive keys ----

  const EXACT_KEYS := {
    "clientsecret", "accesstoken", "awssecretaccesskey", "xapikey", "apikey", "refreshtoken", "idtoken", "authtoken",
    "authorization", "webhookurl", "privatekey", "credential", "credentials", "password", "passwd", "secret", "token" }

  const SINGLE_TOKENS := {
    "authorization", "authorizations", "credential", "credentials", "password", "passwords", "passwd", "passwds",
    "secret", "secrets", "token", "tokens" }

  const TOKEN_PAIRS := {
    ("client", "secret"), ("refresh", "token"), ("id", "token"), ("auth", "token"), ("api", "key"), ("access", "key"),
    ("private", "key"), ("webhook", "url"), ("client", "secrets"), ("refresh", "tokens"), ("id", "tokens"),
    ("auth", "tokens"), ("api", "keys"), ("access", "keys"), ("private", "keys"), ("webhook", "urls") }

  const WRAPPERS := { ["secret", "rotation", "metadata"], ["secrets", "rotation", "metadata"] }

  function Collapsed(tokens: seq<string>): string {
    if tokens == [] then "" else tokens[0] + Collapsed(tokens[1..])
  }

  /** The words before and after never hide a credential name. */
  lemma NeighboursHideNothing(before: seq<string>, words: seq<string>, after: seq<string>)
    requires || (|words| == 1 && words[0] in SINGLE_TOKENS)
             || (|words| == 2 && (words[0], words[1]) in TOKEN_PAIRS)
    ensures AreSensitive(before + words + after) <==> before + words + after !in WRAPPERS
  {
    var tokens, k := before + words + after, |before|;
    assert tokens[k] == words[0] && tokens[k] in tokens;
    if |words| == 2 { assert tokens[k + 1] == words[1]; }
  }

  /** The pairs of words that name a credential together. */
  lemma PairsExactly(a: string, b: string)
    ensures (a, b) in TOKEN_PAIRS <==>
            || (a == "client" && b in {"secret", "secrets"})
            || (a in {"refresh", "id", "auth"} && b in {"token", "tokens"})
            || (a in {"api", "access", "private"} && b in {"key", "keys"})
            || (a == "webhook" && b in {"url", "urls"})
  {
  }

  predicate AreSensitive(tokens: seq<string>) {
    && tokens !in WRAPPERS
    && (|| Collapsed(tokens) in EXACT_KEYS
        || (exists token :: token in tokens && token in SINGLE_TOKENS)
        || exists k :: 0 <= k < |tokens| - 1 && (tokens[k], tokens[k + 1]) in TOKEN_PAIRS)
  }

  /** Written in one word, these are the credential names. */
  lemma OneWordExactly(word: string)
    ensures AreSensitive([word]) <==> word in {
              "clientsecret", "accesstoken", "awssecretaccesskey", "xapikey", "apikey", "refreshtoken", "idtoken",
              "authtoken", "webhookurl", "privatekey", "authorization", "authorizations", "credential", "credentials",
              "password", "passwords", "passwd", "passwds", "secret", "secrets", "token", "tokens" }
  {
    assert [word][1..] == [] && word + "" == word && Collapsed([word]) == word;
    assert [word] !in WRAPPERS by { assert forall w :: w in WRAPPERS ==> |w| == 3; }
    assert word in [word];
  }

  /** However such a name is cut into words, it stays one. */
  lemma CutsHideNothing(words: seq<string>)
    requires Collapsed(words) in {
               "clientsecret", "accesstoken", "awssecretaccesskey", "xapikey", "apikey", "refreshtoken", "idtoken",
               "authtoken", "webhookurl", "privatekey", "authorization", "credential", "password", "secret", "token" }
    ensures AreSensitive(words)
  {
  }

  /** `_is_sensitive_key`. */
  predicate IsSensitiveKey(key: string) {
    AreSensitive(KeyTokens(key))
  }

  /** A credential cannot be hidden behind a spelling convention. */
  lemma SensitiveInEverySpelling(words: seq<string>)
    requires AreWords(words)
    ensures IsSensitiveKey(Snake(words)) <==> AreSensitive(words)
    ensures IsSensitiveKey(Upper(Snake(words))) <==> AreSensitive(words)
    ensures AreLong(words) ==> (IsSensitiveKey(Camel(words)) <==> AreSensitive(words))
  {
    SpellingIsImmaterial(words);
  }

  /** The sentinel that stands for a GitHub token is itself a sensitive key, and
      the token is not. */
  lemma GithubSentinelIsSensitive()
    ensures IsSensitiveKey("[REDACTED:GITHUB_TOKEN]") && !IsSensitiveKey("ghp_a")
  {
    hide KeyTokens;
    SentinelTokens();
    assert AreSensitive([Lower("REDACTED"), Lower("GITHUB"), "token"]) by {
      var tokens := [Lower("REDACTED"), Lower("GITHUB"), "token"];
      assert tokens[0][0] == 'r';
      assert forall wrapper :: wrapper in WRAPPERS ==> |wrapper| == 3 && wrapper[0] != "" && wrapper[0][0] == 's';
      assert tokens[2] in tokens && "token" in SINGLE_TOKENS;
    }
    TokenIsNotSensitive();
  }

  lemma SentinelTokens()
    ensures KeyTokens("[REDACTED:GITHUB_TOKEN]") == [Lower("REDACTED"), Lower("GITHUB"), "token"]
  {
    var s := "[REDACTED:GITHUB_TOKEN]";
    hide SplitAcronyms, SplitCamel, Parted, Words, IsAlphanumeric;
    PartedInOnePass(s);
    assert forall k :: 0 <= k < |s| ==> !IsLowerOrDigit(s[k]);
    NothingToPart(' ', s);
    hide IsLowerOrDigit;
    assert s == "[" + "REDACTED" + ":GITHUB_TOKEN]";
    assert ":GITHUB_TOKEN]" == ":" + "GITHUB" + "_TOKEN]" && "_TOKEN]" == "_" + "TOKEN" + "]";
    RedactedComesFirst();
    GithubComesNext();
    TokenComesLast();
  }

  lemma RedactedComesFirst()
    ensures Words("[" + "REDACTED" + ":GITHUB_TOKEN]") == [Lower("REDACTED")] + Words(":GITHUB_TOKEN]")
  {
    hide Words;
    AfterMark('[', "REDACTED", ":GITHUB_TOKEN]");
  }

  lemma GithubComesNext()
    ensures Words(":" + "GITHUB" + "_TOKEN]") == [Lower("GITHUB")] + Words("_TOKEN]")
  {
    hide Words;
    AfterMark(':', "GITHUB", "_TOKEN]");
  }

  lemma TokenComesLast()
    ensures Words("_" + "TOKEN" + "]") == ["token"]
  {
    hide Words;
    AfterMark('_', "TOKEN", "]");
    NoWords();
    SkipMark(']', "");
    assert [']'] + "" == "]";
    assert Lower("TOKEN") == "token";
  }

  lemma AfterMark(mark: char, word: string, rest: string)
    requires !IsAlphanumeric(mark) && word != "" && forall k :: 0 <= k < |word| ==> IsAlphanumeric(word[k])
    requires rest != "" && !IsAlphanumeric(rest[0])
    ensures Words([mark] + word + rest) == [Lower(word)] + Words(rest)
  {
    hide Words;
    assert [mark] + word + rest == [mark] + (word + rest);
    SkipMark(mark, word + rest);
    WordComesFirst(word, rest);
  }

  lemma TokenIsNotSensitive()
    ensures !IsSensitiveKey("ghp_a")
  {
    var s := "ghp_a";
    hide SplitAcronyms, SplitCamel, Parted, Words;
    PartedInOnePass(s);
    NothingToPart(' ', s);
    assert s == "ghp" + ("_" + "a") && "a" + "" == "a";
    NoWords();
    WordComesFirst("a", "");
    SkipMark('_', "a");
    WordComesFirst("ghp", "_" + "a");
    assert Lower("ghp") == "ghp" && Lower("a") == "a";
    assert KeyTokens(s) == ["ghp", "a"];
    ShortIsNotSensitive();
  }

  lemma NamesAreLong()
    ensures forall s :: s in EXACT_KEYS || s in SINGLE_TOKENS ==> |s| >= 5
  {
  }

  lemma PairsAreLong()
    ensures forall pair :: pair in TOKEN_PAIRS ==> |pair.1| >= 3
  {
  }

  lemma SensitiveIsLong(tokens: seq<string>)
    requires AreSensitive(tokens)
    ensures || |Collapsed(tokens)| >= 5
            || (exists token :: token in tokens && |token| >= 5)
            || exists k :: 0 < k < |tokens| && |tokens[k]| >= 3
  {
    NamesAreLong();
    PairsAreLong();
  }

  /** Nor is an ordinary word. */
  lemma NoteIsNotSensitive()
    ensures !IsSensitiveKey("note")
  {
    hide AreSensitive, IsSensitiveKey, Upper, Camel;
    var words := ["note"];
    assert Snake(words) == "note";
    SensitiveInEverySpelling(words);
    NoteIsShort();
  }

  lemma NoteIsShort()
    ensures !AreSensitive(["note"])
  {
    hide AreSensitive;
    var words := ["note"];
    assert Collapsed(words) == "note" by { assert words[1..] == []; }
    if AreSensitive(words) { SensitiveIsLong(words); }
  }

  /** Too short for any of the names. */
  lemma ShortIsNotSensitive()
    ensures !AreSensitive(["ghp", "a"])
  {
    hide AreSensitive;
    var tokens := ["ghp", "a"];
    assert Collapsed(["a"]) == "a" by { assert ["a"][1..] == []; }
    assert |Collapsed(tokens)| == 4 by { assert tokens[1..] == ["a"]; }
    if AreSensitive(tokens) { SensitiveIsLong(tokens); }
  }
}
