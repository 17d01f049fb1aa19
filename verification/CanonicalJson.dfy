/** Reading undoes writing, so canonical text is as good as the value. */
module CanonicalJson {
  import opened Options
  import opened JsonText

  /** What may follow a value inside canonical text. */
  predicate Follows(rest: string) {
    rest == "" || rest[0] == ',' || rest[0] == ']' || rest[0] == '}'
  }

  /** The digits of a number end before `rest`. */
  predicate Stops(rest: string) {
    rest == "" || !IsDigit(rest[0])
  }

  lemma {:induction false} DecimalReads(n: nat, rest: string)
    requires Stops(rest)
    ensures DigitRun(Decimal(n) + rest) == |Decimal(n)|
    ensures NatOf(Decimal(n)) == n
  {
    DigitRunStops(Decimal(n), rest);
    if n >= 10 {
      DecimalReads(n / 10, rest);
      var s := Decimal(n / 10) + [DigitChar(n % 10)];
      assert s[..|s| - 1] == Decimal(n / 10);
    }
  }

  lemma {:induction false} DigitRunStops(digits: string, rest: string)
    requires Stops(rest) && forall c :: c in digits ==> IsDigit(c)
    ensures DigitRun(digits + rest) == |digits|
  {
    if digits == "" {
      assert digits + rest == rest;
    } else {
      assert (digits + rest)[1..] == digits[1..] + rest;
      DigitRunStops(digits[1..], rest);
    }
  }

  /** The digits of an integer are read back, and its sign is told apart. */
  lemma IntegerReads(n: int, rest: string)
    requires Stops(rest)
    ensures var s := Integer(n) + rest;
            var body := if s[0] == '-' then s[1..] else s;
            var m := if n < 0 then -n else n;
            && s != "" && (s[0] == '-' <==> n < 0)
            && body != "" && IsDigit(body[0])
            && (body[0] == '0' ==> |Decimal(m)| == 1)
            && DigitRun(body) == |Decimal(m)| && body[..|Decimal(m)|] == Decimal(m) && body[|Decimal(m)|..] == rest
            && NatOf(Decimal(m)) == m
  {
    hide DigitRun, NatOf, Decimal;
    var s := Integer(n) + rest;
    var m := if n < 0 then -n else n;
    DecimalReads(m, rest);
    var body := if n < 0 then s[1..] else s;
    assert body == Decimal(m) + rest;
    assert body[..|Decimal(m)|] == Decimal(m) && body[|Decimal(m)|..] == rest;
    assert IsDigit(Decimal(m)[0]) && body[0] == Decimal(m)[0];
    ZeroIsShort(m);
  }

  lemma ZeroIsShort(n: nat)
    ensures Decimal(n)[0] == '0' ==> |Decimal(n)| == 1
  {
  }

  lemma NumberReads(n: int, rest: string)
    requires Follows(rest)
    ensures ParseNumber(Integer(n) + rest) == Some((Number(n), rest))
  {
    hide DigitRun, NatOf, Decimal, Integer, Follows, GoesOn;
    FollowsEndsNumber(rest);
    IntegerReads(n, rest);
  }

  lemma FollowsEndsNumber(rest: string)
    requires Follows(rest)
    ensures Stops(rest) && !GoesOn(rest) && !(".0" <= rest)
  {
    if ".0" <= rest { FractionStarts(rest); }
  }

  lemma FractionReads(rest: string)
    ensures ".0" <= ".0" + rest && (".0" + rest)[2..] == rest
  {
  }

  lemma FractionStarts(s: string)
    requires ".0" <= s
    ensures s[0] == '.'
  {
    assert s[0] == ".0"[0];
  }

  lemma FloatReads(n: Whole, rest: string)
    requires Follows(rest)
    ensures ParseNumber(Integer(n) + ".0" + rest) == Some((Float(n), rest))
  {
    hide DigitRun, NatOf, Decimal, Integer, Follows, GoesOn;
    FollowsEndsNumber(rest);
    IntegerReads(n, ".0" + rest);
    assert Integer(n) + ".0" + rest == Integer(n) + (".0" + rest);
    FractionReads(rest);
  }

  lemma {:induction false} CharsRead(s: string, rest: string)
    ensures ParseChars(EscapeChars(s) + "\"" + rest) == Some((s, rest))
  {
    if s == "" {
      assert EscapeChars(s) + "\"" + rest == "\"" + rest;
    } else {
      hide ParseChars, EscapeChar;
      var tail := EscapeChars(s[1..]) + "\"" + rest;
      CharsRead(s[1..], rest);
      EscapesRegroup(s, rest);
      hide EscapeChars;
      NextCharReads(s[0], tail, s[1..], rest);
      assert s == [s[0]] + s[1..];
    }
  }

  lemma EscapesRegroup(s: string, rest: string)
    requires s != ""
    ensures EscapeChars(s) + "\"" + rest == EscapeChar(s[0]) + (EscapeChars(s[1..]) + "\"" + rest)
  {
    hide EscapeChar;
  }

  lemma NextCharReads(c: char, tail: string, others: string, rest: string)
    requires ParseChars(tail) == Some((others, rest))
    ensures ParseChars(EscapeChar(c) + tail) == Some(([c] + others, rest))
  {
    hide EscapeChar, ParseEscape;
    CharReads(c, tail);
  }

  lemma CharReads(c: char, tail: string)
    ensures var text := EscapeChar(c) + tail;
            && text[0] >= ' ' && text[0] != '"'
            && (if text[0] == '\\' then ParseEscape(text[1..]) else Some((text[0], text[1..]))) == Some((c, tail))
  {
    var escape := EscapeChar(c);
    var text := escape + tail;
    DropBoth(escape, tail);
    if |escape| == 6 {
      assert text[1..][1..5] == ['0', '0', HexChar(c as int / 16), HexChar(c as int % 16)];
    }
  }

  lemma DropBoth(first: string, tail: string)
    requires first != ""
    ensures (first + tail)[1..] == first[1..] + tail
    ensures (first + tail)[1..][|first| - 1..] == tail
  {
    assert (first + tail)[1..] == first[1..] + tail;
  }

  lemma QuoteReads(s: string, rest: string)
    ensures var text := Quote(s) + rest;
            text[0] == '"' && ParseChars(text[1..]) == Some((s, rest))
  {
    CharsRead(s, rest);
    assert (Quote(s) + rest)[1..] == EscapeChars(s) + "\"" + rest;
  }

  lemma StartsLikeAValue(v: Json, rest: string)
    ensures Encode(v) != "" && !IsSpace(Encode(v)[0]) && Encode(v)[0] != ']' && Encode(v)[0] != '}'
    ensures v.Number? || v.Float? ==> Encode(v)[0] == '-' || IsDigit(Encode(v)[0])
    ensures SkipSpace(Encode(v) + rest) == Encode(v) + rest
  {
    assert v.Number? ==> IsDigit(Decimal(if v.value < 0 then -v.value else v.value)[0]);
    assert v.Float? ==> IsDigit(Decimal(if v.whole < 0 then -v.whole else v.whole)[0]);
    assert (Encode(v) + rest)[0] == Encode(v)[0];
  }

  lemma ScalarReads(v: Json, rest: string)
    requires Follows(rest) && !v.Array? && !v.Object?
    ensures ParseValue(Encode(v) + rest) == Some((v, rest))
  {
    hide ParseItems, ParseMembers, ParseChars, ParseNumber, Decimal, EscapeChars;
    StartsLikeAValue(v, rest);
    assert (Encode(v) + rest)[0] == Encode(v)[0];
    match v
    case Null =>
    case Bool(_) =>
    case Number(n) => NumberReads(n, rest);
    case Float(n) => FloatReads(n, rest);
    case Text(t) => QuoteReads(t, rest);
  }

  lemma ArrayStep(text: string, inner: string, items: seq<Json>, rest: string)
    requires text == "[" + inner && inner != "" && !IsSpace(inner[0])
    requires inner[0] != ']' && ParseItems(inner) == Some((items, rest))
    ensures ParseValue(text) == Some((Array(items), rest))
  {
    hide ParseItems, ParseMembers, ParseChars, ParseNumber;
    assert SkipSpace(text) == text && text[1..] == inner && SkipSpace(inner) == inner;
  }

  lemma ObjectStep(text: string, inner: string, members: map<string, Json>, rest: string)
    requires text == "{" + inner && inner != "" && inner[0] == '"'
    requires ParseMembers(inner, map[]) == Some((members, rest))
    ensures ParseValue(text) == Some((Object(members), rest))
  {
    hide ParseItems, ParseMembers, ParseChars, ParseNumber;
    assert SkipSpace(text) == text && text[1..] == inner && SkipSpace(inner) == inner;
  }

  lemma EmptyContainersRead(rest: string)
    ensures ParseValue("[]" + rest) == Some((Array([]), rest))
    ensures ParseValue("{}" + rest) == Some((Object(map[]), rest))
  {
    hide ParseItems, ParseMembers, ParseChars, ParseNumber;
    assert ("[]" + rest)[1..] == "]" + rest && ("]" + rest)[1..] == rest;
    assert ("{}" + rest)[1..] == "}" + rest && ("}" + rest)[1..] == rest;
  }

  lemma ItemsText(items: seq<Json>, rest: string)
    requires items != []
    ensures EncodeItems(items) != "" && EncodeItems(items)[0] == Encode(items[0])[0]
    ensures Encode(Array(items)) + rest == "[" + (EncodeItems(items) + ("]" + rest))
  {
    StartsLikeAValue(items[0], "");
  }

  /** A value is read back from its canonical text, whatever follows it there. */
  lemma {:induction false} ValueReads(v: Json, rest: string)
    requires Follows(rest)
    ensures ParseValue(Encode(v) + rest) == Some((v, rest))
    decreases v, if v.Object? then |v.members| + 2 else 2
  {
    match v
    case Array(_) => ArrayReads(v, rest);
    case Object(_) => ObjectReads(v, rest);
    case _ => ScalarReads(v, rest);
  }

  lemma {:induction false} ArrayReads(v: Json, rest: string)
    requires Follows(rest) && v.Array?
    ensures ParseValue(Encode(v) + rest) == Some((v, rest))
    decreases v, 1
  {
    hide ParseValue, ParseItems, EncodeItems, SkipSpace;
    EmptyContainersRead(rest);
    if v.items != [] {
      StartsLikeAValue(v.items[0], "");
      ItemsText(v.items, rest);
      ItemsRead(v.items, rest);
      ArrayStep(Encode(v) + rest, EncodeItems(v.items) + ("]" + rest), v.items, rest);
    }
  }

  lemma GatheredIsWhole(v: Json)
    requires v.Object? && v.members != map[]
    ensures var keys := Sorted(v.members.Keys);
            keys != [] && (forall k :: k in keys ==> k in v.members) && Gathered(v, keys, map[]) == v.members
  {
    hide Sorted, Least, Gathered;
    var keys := Sorted(v.members.Keys);
    assert forall k :: k in keys <==> k in set j | j in keys;
    GatheredAll(v, keys, map[]);
    var k :| k in v.members;
    assert k in keys;
  }

  lemma {:induction false} ObjectReads(v: Json, rest: string)
    requires Follows(rest) && v.Object?
    ensures ParseValue(Encode(v) + rest) == Some((v, rest))
    decreases v, |v.members| + 1
  {
    hide ParseValue, ParseMembers, EncodeMembers, SkipSpace, Sorted, Least, Follows, IsSpace, Gathered;
    EmptyContainersRead(rest);
    if v.members != map[] {
      var keys := Sorted(v.members.Keys);
      GatheredIsWhole(v);
      MembersText(v, keys, rest);
      MembersRead(v, keys, map[], rest);
      ObjectStep(Encode(v) + rest, EncodeMembers(v, keys) + ("}" + rest), v.members, rest);
    }
  }

  /** One step of `ParseItems` after its first value has been read. */
  lemma ItemsStep(text: string, v: Json, after: string)
    requires ParseValue(text) == Some((v, after)) && after != ""
    ensures after[0] == ']' ==> ParseItems(text) == Some(([v], after[1..]))
    ensures after[0] == ',' && ParseItems(after[1..]).Some? ==>
              ParseItems(text) == Some(([v] + ParseItems(after[1..]).value.0, ParseItems(after[1..]).value.1))
  {
    assert after[0] == ']' || after[0] == ',' ==> SkipSpace(after) == after;
  }

  lemma {:induction false} ItemsRead(items: seq<Json>, rest: string)
    requires items != [] && Follows(rest)
    ensures ParseItems(EncodeItems(items) + ("]" + rest)) == Some((items, rest))
    decreases items, 0
  {
    hide ParseValue, ParseItems, EncodeItems, Encode;
    ItemsUnfold(items, rest);
    if |items| == 1 {
      ValueReads(items[0], "]" + rest);
      LastItemReads(items, rest);
    } else {
      var tail := EncodeItems(items[1..]) + ("]" + rest);
      ValueReads(items[0], "," + tail);
      ItemsRead(items[1..], rest);
      FirstItemReads(items, tail, rest);
    }
  }

  lemma ItemsUnfold(items: seq<Json>, rest: string)
    requires items != []
    ensures EncodeItems(items) + ("]" + rest) ==
            Encode(items[0]) + if |items| == 1 then "]" + rest else "," + (EncodeItems(items[1..]) + ("]" + rest))
  {
    hide Encode;
  }

  lemma LastItemReads(items: seq<Json>, rest: string)
    requires |items| == 1 && ParseValue(Encode(items[0]) + ("]" + rest)) == Some((items[0], "]" + rest))
    ensures ParseItems(Encode(items[0]) + ("]" + rest)) == Some((items, rest))
  {
    hide ParseValue, ParseItems, Encode;
    ItemsStep(Encode(items[0]) + ("]" + rest), items[0], "]" + rest);
    assert ("]" + rest)[1..] == rest;
    assert items == [items[0]];
  }

  lemma FirstItemReads(items: seq<Json>, tail: string, rest: string)
    requires |items| > 1 && ParseValue(Encode(items[0]) + ("," + tail)) == Some((items[0], "," + tail))
    requires ParseItems(tail) == Some((items[1..], rest))
    ensures ParseItems(Encode(items[0]) + ("," + tail)) == Some((items, rest))
  {
    hide ParseValue, ParseItems, Encode;
    assert ("," + tail)[1..] == tail;
    ItemsStep(Encode(items[0]) + ("," + tail), items[0], "," + tail);
    assert items == [items[0]] + items[1..];
  }

  /** The members of `v` under `keys`, added to `seen` one by one. */
  function Gathered(v: Json, keys: seq<string>, seen: map<string, Json>): map<string, Json>
    requires v.Object? && forall k :: k in keys ==> k in v.members
  {
    if keys == [] then seen else Gathered(v, keys[1..], seen[keys[0] := v.members[keys[0]]])
  }

  lemma {:induction false} GatheredAll(v: Json, keys: seq<string>, seen: map<string, Json>)
    requires v.Object? && forall k :: k in keys ==> k in v.members
    ensures var g := Gathered(v, keys, seen);
            && g.Keys == seen.Keys + (set k | k in keys)
            && forall k :: k in g ==> g[k] == if k in keys then v.members[k] else seen[k]
  {
    if keys != [] {
      GatheredAll(v, keys[1..], seen[keys[0] := v.members[keys[0]]]);
      assert keys == [keys[0]] + keys[1..];
    }
  }

  /** One step of `ParseMembers` after its first member has been read. */
  lemma MembersStep(text: string, seen: map<string, Json>, key: string, body: string, v: Json, after: string)
    requires text != "" && text[0] == '"' && ParseChars(text[1..]) == Some((key, ":" + body))
    requires ParseValue(body) == Some((v, after)) && after != ""
    ensures after[0] == '}' ==> ParseMembers(text, seen) == Some((seen[key := v], after[1..]))
    ensures after[0] == ',' ==> ParseMembers(text, seen) == ParseMembers(after[1..], seen[key := v])
  {
    assert SkipSpace(text) == text;
    assert SkipSpace(":" + body) == ":" + body && (":" + body)[1..] == body;
    assert after[0] == '}' || after[0] == ',' ==> SkipSpace(after) == after;
  }

  /** What follows the first member in canonical text. */
  function AfterMember(v: Json, keys: seq<string>, rest: string): string
    requires v.Object? && keys != [] && forall k :: k in keys ==> k in v.members
  {
    if |keys| == 1 then "}" + rest else "," + (EncodeMembers(v, keys[1..]) + ("}" + rest))
  }

  lemma MembersText(v: Json, keys: seq<string>, rest: string)
    requires v.Object? && keys != [] && forall k :: k in keys ==> k in v.members
    ensures EncodeMembers(v, keys) + ("}" + rest)
            == Quote(keys[0]) + (":" + (Encode(v.members[keys[0]]) + AfterMember(v, keys, rest)))
    ensures (EncodeMembers(v, keys) + ("}" + rest))[0] == '"'
  {
    hide Quote, Encode, EncodeMembers;
    var quoted, value := Quote(keys[0]), Encode(v.members[keys[0]]);
    var others := if |keys| == 1 then "" else "," + EncodeMembers(v, keys[1..]);
    MembersUnfold(v, keys);
    QuoteStarts(keys[0]);
    MemberRegroups(EncodeMembers(v, keys), quoted, value, others, "}" + rest);
    AfterMemberIs(v, keys, rest);
  }

  lemma AfterMemberIs(v: Json, keys: seq<string>, rest: string)
    requires v.Object? && keys != [] && forall k :: k in keys ==> k in v.members
    ensures AfterMember(v, keys, rest) ==
            (if |keys| == 1 then "" else "," + EncodeMembers(v, keys[1..])) + ("}" + rest)
  {
    hide EncodeMembers;
  }

  lemma MembersUnfold(v: Json, keys: seq<string>)
    requires v.Object? && keys != [] && forall k :: k in keys ==> k in v.members
    ensures EncodeMembers(v, keys) == Quote(keys[0]) + ":" + Encode(v.members[keys[0]])
                                      + if |keys| == 1 then "" else "," + EncodeMembers(v, keys[1..])
  {
    hide Quote, Encode;
  }

  lemma QuoteStarts(s: string)
    ensures Quote(s) != "" && Quote(s)[0] == '"'
  {
  }

  lemma MemberRegroups(whole: string, quoted: string, value: string, others: string, rest: string)
    requires whole == quoted + ":" + value + others && quoted != ""
    ensures whole + rest == quoted + (":" + (value + (others + rest)))
    ensures (whole + rest)[0] == quoted[0]
  {
  }

  lemma {:induction false} MembersRead(v: Json, keys: seq<string>, seen: map<string, Json>, rest: string)
    requires v.Object? && keys != [] && Follows(rest) && forall k :: k in keys ==> k in v.members
    ensures ParseMembers(EncodeMembers(v, keys) + ("}" + rest), seen) == Some((Gathered(v, keys, seen), rest))
    decreases v, |keys|
  {
    hide ParseValue, ParseMembers, ParseChars, Encode, EncodeMembers;
    var key, value, after := keys[0], v.members[keys[0]], AfterMember(v, keys, rest);
    var body := Encode(value) + after;
    MembersText(v, keys, rest);
    QuoteReads(key, ":" + body);
    ValueReads(value, after);
    MembersStep(Quote(key) + (":" + body), seen, key, body, value, after);
    if |keys| == 1 {
      assert keys[1..] == [];
      assert after[1..] == rest;
    } else {
      MembersRead(v, keys[1..], seen[key := value], rest);
      assert after[1..] == EncodeMembers(v, keys[1..]) + ("}" + rest);
    }
  }

  /** `json.loads` undoes the canonical `json.dumps`. */
  lemma LoadsUndoesEncode(v: Json)
    ensures Loads(Encode(v)) == Some(v)
  {
    ValueReads(v, "");
    assert Encode(v) + "" == Encode(v);
  }

  /** Two values have the same canonical text exactly when they are equal, the
      order of object members set aside. */
  lemma EncodeIsInjective(v: Json, w: Json)
    ensures Encode(v) == Encode(w) <==> v == w
  {
    LoadsUndoesEncode(v);
    LoadsUndoesEncode(w);
  }

  /** The canonical-form half of `_validate_canonical_bundle_bytes`. */
  predicate IsCanonicalObject(text: string) {
    var parsed := Loads(text);
    parsed.Some? && parsed.value.Object? && Encode(parsed.value) == text
  }

  /** The validator accepts exactly the canonical texts of objects, each of one
      object only, and re-encoding what it decoded gives the same text. */
  lemma CanonicalObjectsExactly(text: string)
    ensures IsCanonicalObject(text) <==> exists v: Json :: v.Object? && Encode(v) == text
    ensures IsCanonicalObject(text) ==> forall v: Json :: Encode(v) == text ==> Loads(text) == Some(v)
  {
    forall v: Json ensures Loads(Encode(v)) == Some(v) {
      LoadsUndoesEncode(v);
    }
  }
}
