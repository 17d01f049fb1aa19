/** What makes the canonical text of a value the canonical one: members in
    ascending order of their keys, and no text that reads the same is shorter. */
module CanonicalForm {
  import opened Options
  import opened JsonText
  import C = CanonicalJson

  // ---- The order of keys ----

  /** `a < b` for Python strings: at the first place where they differ `a` has the
      smaller code point, or `a` ends there. */
  predicate Before(a: string, b: string) {
    || a < b
    || exists k :: 0 <= k < |a| && k < |b| && a[..k] == b[..k] && a[k] < b[k]
  }

  lemma {:induction false} LeqExactly(a: string, b: string)
    ensures Leq(a, b) <==> a == b || Before(a, b)
  {
    if a != "" && b != "" && a[0] == b[0] {
      LeqExactly(a[1..], b[1..]);
      assert a == [a[0]] + a[1..] && b == [b[0]] + b[1..];
      if Before(a[1..], b[1..]) && !(a[1..] < b[1..]) {
        var k :| 0 <= k < |a[1..]| && k < |b[1..]| && a[1..][..k] == b[1..][..k] && a[1..][k] < b[1..][k];
        assert a[..k + 1] == [a[0]] + a[1..][..k] && b[..k + 1] == [b[0]] + b[1..][..k];
        assert a[k + 1] < b[k + 1];
      }
      if Before(a, b) && !(a < b) {
        var k :| 0 <= k < |a| && k < |b| && a[..k] == b[..k] && a[k] < b[k];
        assert a[1..][..k - 1] == a[..k][1..] && b[1..][..k - 1] == b[..k][1..];
        assert a[1..][k - 1] < b[1..][k - 1];
      }
    } else if a != "" && b != "" {
      FirstDecides(a, b);
    }
  }

  lemma FirstDecides(a: string, b: string)
    requires a != "" && b != "" && a[0] != b[0]
    ensures Before(a, b) <==> a[0] < b[0]
  {
    if a[0] < b[0] { assert a[..0] == b[..0]; }
    forall k | 0 < k <= |a| && k <= |b| ensures a[..k] != b[..k] {
      assert a[..k][0] == a[0] && b[..k][0] == b[0];
    }
  }

  predicate Ascending(keys: seq<string>) {
    forall i, j :: 0 <= i < j < |keys| ==> Before(keys[i], keys[j])
  }

  lemma {:induction false} SortedAscends(keys: set<string>)
    ensures Ascending(Sorted(keys)) && forall k :: k in Sorted(keys) <==> k in keys
  {
    if keys != {} {
      var least := Least(keys);
      var rest := Sorted(keys - {least});
      SortedAscends(keys - {least});
      forall j | 0 <= j < |rest| ensures Before(least, rest[j]) {
        assert rest[j] in rest;
        LeqExactly(least, rest[j]);
      }
    }
  }

  /** The keys of the members a text holds, in the order they stand there. */
  function ParseKeys(text: string): (r: Option<(seq<string>, string)>)
    decreases |text|
  {
    var s := SkipSpace(text);
    if s == "" || s[0] != '"' then None
    else
      var key := ParseChars(s[1..]);
      if key.None? then None
      else
        var colon := SkipSpace(key.value.1);
        if colon == "" || colon[0] != ':' then None
        else
          var value := ParseValue(colon[1..]);
          if value.None? then None
          else
            var rest := SkipSpace(value.value.1);
            if rest == "" then None
            else if rest[0] == '}' then Some(([key.value.0], rest[1..]))
            else if rest[0] != ',' then None
            else
              var others := ParseKeys(rest[1..]);
              if others.None? then None else Some(([key.value.0] + others.value.0, others.value.1))
  }

  lemma KeysStep(text: string, key: string, body: string, v: Json, after: string)
    requires text != "" && text[0] == '"' && ParseChars(text[1..]) == Some((key, ":" + body))
    requires ParseValue(body) == Some((v, after)) && after != ""
    ensures after[0] == '}' ==> ParseKeys(text) == Some(([key], after[1..]))
    ensures after[0] == ',' && ParseKeys(after[1..]).Some? ==>
              ParseKeys(text) == Some(([key] + ParseKeys(after[1..]).value.0, ParseKeys(after[1..]).value.1))
  {
    assert SkipSpace(text) == text;
    assert SkipSpace(":" + body) == ":" + body && (":" + body)[1..] == body;
    assert after[0] == '}' || after[0] == ',' ==> SkipSpace(after) == after;
  }

  lemma {:induction false} KeysRead(v: Json, keys: seq<string>, rest: string)
    requires v.Object? && keys != [] && C.Follows(rest) && forall k :: k in keys ==> k in v.members
    ensures ParseKeys(EncodeMembers(v, keys) + ("}" + rest)) == Some((keys, rest))
    decreases |keys|
  {
    hide ParseValue, ParseKeys, ParseChars, Encode, EncodeMembers;
    var key, value, after := keys[0], v.members[keys[0]], C.AfterMember(v, keys, rest);
    var body := Encode(value) + after;
    C.MembersText(v, keys, rest);
    C.QuoteReads(key, ":" + body);
    C.ValueReads(value, after);
    KeysStep(Quote(key) + (":" + body), key, body, value, after);
    if |keys| == 1 {
      assert after[1..] == rest && keys == [key];
    } else {
      KeysRead(v, keys[1..], rest);
      assert after[1..] == EncodeMembers(v, keys[1..]) + ("}" + rest);
      assert keys == [key] + keys[1..];
    }
  }

  /** The members of an encoded object stand in strictly ascending order. */
  lemma MembersAscend(members: map<string, Json>)
    requires members != map[]
    ensures var text := Encode(Object(members));
            && text[0] == '{' && ParseKeys(text[1..]).Some?
            && var (keys, rest) := ParseKeys(text[1..]).value;
               Ascending(keys) && (set k | k in keys) == members.Keys && rest == ""
  {
    hide EncodeMembers, Sorted, Least, ParseKeys;
    var v, keys := Object(members), Sorted(members.Keys);
    SortedAscends(members.Keys);
    SortedIsNotEmpty(members);
    KeysRead(v, keys, "");
    assert Encode(v)[1..] == EncodeMembers(v, keys) + "}";
    assert EncodeMembers(v, keys) + ("}" + "") == EncodeMembers(v, keys) + "}";
  }

  lemma SortedIsNotEmpty(members: map<string, Json>)
    requires members != map[]
    ensures Sorted(members.Keys) != []
  {
    var k :| k in members;
    assert k in set j | j in Sorted(members.Keys);
  }

  // ---- No shorter text ----

  lemma {:induction false} DecimalIsShortest(digits: string)
    requires digits != "" && (forall c :: c in digits ==> IsDigit(c)) && (digits[0] == '0' ==> |digits| == 1)
    ensures |Decimal(NatOf(digits))| == |digits|
    decreases |digits|
  {
    var front, last := digits[..|digits| - 1], digits[|digits| - 1];
    if |digits| == 1 {
      assert front == "" && NatOf(digits) == DigitValue(last);
    } else {
      assert front[0] == digits[0] && forall c :: c in front ==> c in digits;
      DecimalIsShortest(front);
      PositiveWithout(front);
      var n, d := NatOf(front), DigitValue(last);
      assert NatOf(digits) == n * 10 + d && (n * 10 + d) / 10 == n;
    }
  }

  lemma {:induction false} PositiveWithout(digits: string)
    requires digits != "" && (forall c :: c in digits ==> IsDigit(c)) && digits[0] != '0'
    ensures NatOf(digits) > 0
  {
    if |digits| > 1 {
      var front := digits[..|digits| - 1];
      assert front[0] == digits[0] && forall c :: c in front ==> c in digits;
      PositiveWithout(front);
    } else {
      assert digits[..0] == "";
    }
  }

  lemma NumberIsShortest(s: string)
    requires ParseNumber(s).Some?
    ensures var (v, rest) := ParseNumber(s).value; |Encode(v)| + |rest| <= |s|
  {
    hide Decimal, NatOf, DigitRun;
    var negative := s[0] == '-';
    var body := if negative then s[1..] else s;
    var n := if body[0] == '0' then 1 else DigitRun(body);
    DigitsAhead(body);
    DecimalIsShortest(body[..n]);
    DecimalOfZero();
  }

  lemma DigitsAhead(body: string)
    requires body != "" && IsDigit(body[0])
    ensures var n := if body[0] == '0' then 1 else DigitRun(body);
            0 < n <= |body| && (forall c :: c in body[..n] ==> IsDigit(c)) && body[..n][0] == body[0]
  {
  }

  lemma DecimalOfZero()
    ensures |Decimal(0)| == 1
  {
  }

  lemma {:induction false} CharsAreShortest(s: string)
    requires ParseChars(s).Some?
    ensures var (t, rest) := ParseChars(s).value; |EscapeChars(t)| + 1 + |rest| <= |s|
    decreases |s|
  {
    if s[0] != '"' {
      var head := if s[0] == '\\' then ParseEscape(s[1..]) else Some((s[0], s[1..]));
      EscapeIsShortest(s);
      CharsAreShortest(head.value.1);
      var tail := ParseChars(head.value.1).value;
      hide ParseEscape, EscapeChar;
      assert ([head.value.0] + tail.0)[1..] == tail.0;
      assert EscapeChars([head.value.0] + tail.0) == EscapeChar(head.value.0) + EscapeChars(tail.0);
    }
  }

  lemma EscapeIsShortest(s: string)
    requires s != "" && s[0] >= ' ' && s[0] != '"'
    ensures var head := if s[0] == '\\' then ParseEscape(s[1..]) else Some((s[0], s[1..]));
            head.Some? ==> |EscapeChar(head.value.0)| + |head.value.1| <= |s|
  {
  }

  /** The length of the members one by one, each with its comma. */
  function Size(members: map<string, Json>): nat
    decreases |members|
  {
    if members == map[] then 0
    else
      SomeKey(members);
      var k := Least(members.Keys);
      assert (members - {k}).Keys == members.Keys - {k};
      EntrySize(k, members[k]) + Size(members - {k})
  }

  lemma SomeKey(members: map<string, Json>)
    requires members != map[]
    ensures members.Keys != {}
  {
    var k :| k in members;
  }

  function EntrySize(k: string, v: Json): nat {
    |Quote(k)| + 1 + |Encode(v)| + 1
  }

  lemma {:induction false} SizeWithout(members: map<string, Json>, k: string)
    requires k in members
    ensures Size(members) == EntrySize(k, members[k]) + Size(members - {k})
    decreases |members|
  {
    hide EntrySize, Encode;
    var first := Least(members.Keys);
    assert (members - {first}).Keys == members.Keys - {first};
    if first != k {
      SizeWithout(members - {first}, k);
      LeastStays(members.Keys, k);
      assert members - {first} - {k} == members - {k} - {first};
      assert (members - {k}).Keys == members.Keys - {k} && first in members - {k};
    }
  }

  lemma LeastStays(keys: set<string>, k: string)
    requires k in keys && k != Least(keys)
    ensures Least(keys) in keys - {k} && Least(keys - {k}) == Least(keys)
  {
    LeastIsUnique(keys - {k});
  }

  lemma SizeOfUpdate(members: map<string, Json>, k: string, v: Json)
    ensures Size(members[k := v]) <= Size(members) + EntrySize(k, v)
  {
    hide EntrySize, Encode, Size;
    var updated := members[k := v];
    SizeWithout(updated, k);
    assert updated - {k} == members - {k};
    if k in members { SizeWithout(members, k); } else { assert members - {k} == members; }
  }

  function KeysSize(v: Json, keys: seq<string>): nat
    requires v.Object? && forall k :: k in keys ==> k in v.members
  {
    if keys == [] then 0 else EntrySize(keys[0], v.members[keys[0]]) + KeysSize(v, keys[1..])
  }

  lemma {:induction false} MembersLength(v: Json, keys: seq<string>)
    requires v.Object? && keys != [] && forall k :: k in keys ==> k in v.members
    ensures |EncodeMembers(v, keys)| + 1 == KeysSize(v, keys)
  {
    hide Encode, Quote, EncodeMembers;
    C.MembersUnfold(v, keys);
    if |keys| > 1 { MembersLength(v, keys[1..]); } else { assert keys[1..] == []; }
  }

  lemma {:induction false} SortedSize(v: Json, members: map<string, Json>)
    requires v.Object? && forall k :: k in members ==> k in v.members && v.members[k] == members[k]
    ensures forall k :: k in Sorted(members.Keys) ==> k in v.members
    ensures KeysSize(v, Sorted(members.Keys)) == Size(members)
    decreases |members|
  {
    hide EntrySize, Encode;
    if members != map[] {
      SomeKey(members);
      var k := Least(members.Keys);
      var rest := members - {k};
      assert rest.Keys == members.Keys - {k};
      SortedSize(v, rest);
      assert Sorted(members.Keys) == [k] + Sorted(rest.Keys);
      assert Sorted(members.Keys)[1..] == Sorted(rest.Keys);
      assert k in set j | j in Sorted(members.Keys);
    } else {
      assert members.Keys == {};
    }
  }

  lemma ObjectLength(members: map<string, Json>)
    ensures |Encode(Object(members))| == if members == map[] then 2 else Size(members) + 1
  {
    hide EncodeMembers, KeysSize, Size, Sorted, Least;
    if members != map[] {
      var v, keys := Object(members), Sorted(members.Keys);
      SortedIsNotEmpty(members);
      SortedSize(v, members);
      MembersLength(v, keys);
    }
  }

  lemma {:induction false} ItemsLength(items: seq<Json>)
    requires items != []
    ensures |EncodeItems(items)| + 1 == Lengths(items)
  {
    hide Encode;
    if |items| > 1 { ItemsLength(items[1..]); } else { assert items[1..] == []; }
  }

  /** The length of the items one by one, each with its comma. */
  function Lengths(items: seq<Json>): nat {
    if items == [] then 0 else |Encode(items[0])| + 1 + Lengths(items[1..])
  }

  /** What is read as a value is at least as long as its canonical text. */
  lemma {:induction false} ValueIsShortest(text: string)
    requires ParseValue(text).Some?
    ensures var (v, rest) := ParseValue(text).value; |Encode(v)| + |rest| <= |text|
    decreases |text|, 0
  {
    var s := SkipSpace(text);
    if s[0] == '[' {
      ArrayIsShortest(s);
    } else if s[0] == '{' {
      ObjectIsShortest(s);
    } else {
      LeafIsShortest(s);
    }
    SpaceIsSkipped(text);
  }

  lemma SpaceIsSkipped(text: string)
    ensures ParseValue(text) == ParseValue(SkipSpace(text))
  {
    SkipTwice(text);
  }

  lemma {:induction false} SkipTwice(s: string)
    ensures SkipSpace(SkipSpace(s)) == SkipSpace(s)
  {
    if s != "" && IsSpace(s[0]) { SkipTwice(s[1..]); }
  }

  lemma LeafIsShortest(s: string)
    requires s != "" && !IsSpace(s[0]) && s[0] != '[' && s[0] != '{' && ParseValue(s).Some?
    ensures var (v, rest) := ParseValue(s).value; |Encode(v)| + |rest| <= |s|
  {
    hide ParseItems, ParseMembers, ParseNumber, ParseChars;
    assert SkipSpace(s) == s;
    if s[0] == '"' {
      CharsAreShortest(s[1..]);
    } else if !("null" <= s) && !("true" <= s) && !("false" <= s) {
      NumberIsShortest(s);
    }
  }

  lemma {:induction false} ArrayIsShortest(s: string)
    requires s != "" && s[0] == '[' && ParseValue(s).Some?
    ensures var (v, rest) := ParseValue(s).value; |Encode(v)| + |rest| <= |s|
    decreases |s| - 1, 2
  {
    hide ParseItems, ParseMembers, ParseNumber, ParseChars, EncodeItems;
    assert SkipSpace(s) == s;
    var inner := SkipSpace(s[1..]);
    if !(inner != "" && inner[0] == ']') {
      ItemsAreShortest(inner);
      var items := ParseItems(inner).value.0;
      ItemsLength(items);
    }
  }

  lemma {:induction false} ItemsAreShortest(text: string)
    requires ParseItems(text).Some?
    ensures var (items, rest) := ParseItems(text).value; items != [] && Lengths(items) + |rest| <= |text|
    decreases |text|, 1
  {
    hide ParseValue, Encode;
    ValueIsShortest(text);
    var first := ParseValue(text).value;
    var rest := SkipSpace(first.1);
    if rest[0] == ',' {
      ItemsAreShortest(rest[1..]);
      var others := ParseItems(rest[1..]).value;
      assert ([first.0] + others.0)[1..] == others.0;
    } else {
      assert [first.0][1..] == [];
    }
  }

  lemma {:induction false} ObjectIsShortest(s: string)
    requires s != "" && s[0] == '{' && ParseValue(s).Some?
    ensures var (v, rest) := ParseValue(s).value; |Encode(v)| + |rest| <= |s|
    decreases |s| - 1, 2
  {
    hide ParseItems, ParseMembers, ParseNumber, ParseChars, EncodeMembers, Size, Encode;
    assert SkipSpace(s) == s;
    var inner := SkipSpace(s[1..]);
    if !(inner != "" && inner[0] == '}') {
      MembersAreShortest(inner, map[]);
      assert Size(map[]) == 0 by { NoSize(); }
      ObjectLength(ParseMembers(inner, map[]).value.0);
    } else {
      ObjectLength(map[]);
    }
  }

  lemma NoSize()
    ensures Size(map[]) == 0
  {
  }

  lemma {:induction false} MembersAreShortest(text: string, seen: map<string, Json>)
    requires ParseMembers(text, seen).Some?
    ensures var (members, rest) := ParseMembers(text, seen).value;
            members != map[] && Size(members) + |rest| <= |text| + Size(seen)
    decreases |text|, 1
  {
    hide ParseValue, ParseChars, Encode, Size;
    var s := SkipSpace(text);
    var key := ParseChars(s[1..]).value;
    CharsAreShortest(s[1..]);
    var colon := SkipSpace(key.1);
    ValueIsShortest(colon[1..]);
    var value := ParseValue(colon[1..]).value;
    var members := seen[key.0 := value.0];
    SizeOfUpdate(seen, key.0, value.0);
    var rest := SkipSpace(value.1);
    assert key.0 in members;
    assert EntrySize(key.0, value.0) + |rest| <= |text| + 1;
    if rest[0] == ',' { MembersAreShortest(rest[1..], members); }
  }

  /** Of all texts that read as a value, the canonical one is a shortest. */
  lemma CanonicalIsShortest(text: string, v: Json)
    requires Loads(text) == Some(v)
    ensures |Encode(v)| <= |text|
  {
    ValueIsShortest(text);
  }

  /** Control characters are escaped with small hexadecimal digits. */
  lemma HexIsSmall(d: nat)
    requires d < 16
    ensures HexChar(d) == "0123456789abcdef"[d]
  {
  }
}
