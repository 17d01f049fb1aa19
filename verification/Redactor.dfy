/** The redactor as it runs, `redaction.py`: a recursion that threads a counter
    and fills dictionaries, proved against `Redaction.Redact`. */
module Redactor {
  import opened Options
  import opened JsonText
  import opened Redaction

  /** The counter the recursion threads through. */
  class Counter {
    var counts: multiset<string>

    constructor ()
      ensures counts == multiset{}
    {
      counts := multiset{};
    }

    method Add(found: multiset<string>)
      modifies this
      ensures counts == old(counts) + found
    {
      counts := counts + found;
    }
  }

  class Redactor {
    const rules: Rules

    constructor (rules: Rules)
      ensures this.rules == rules
    {
      this.rules := rules;
    }

    /** The value redacted and the counter advanced as `Redact` says, or an error. */
    method RedactJson(v: Json, sensitive: bool, counter: Counter) returns (r: Option<Json>)
      modifies counter
      ensures r.Some? <==> Redact(rules, v, sensitive).Some?
      ensures r.Some? ==>
                && r.value == Redact(rules, v, sensitive).value.0
                && counter.counts == old(counter.counts) + Redact(rules, v, sensitive).value.1
      decreases v, if v.Object? then 1 else 0
    {
      hide RedactMembers, RedactItems, Sorted, Least;
      match v
      case Text(s) =>
        if !sensitive && rules.refuses(s) { return None; }
        var (safe, found) := if sensitive then RedactField(s) else rules.text(s);
        counter.Add(found);
        r := Some(Text(safe));
      case Array(items) =>
        if sensitive && items == [] { return None; }
        var safe := RedactList(items, sensitive, counter);
        r := if safe.None? then None else Some(Array(safe.value));
      case Object(members) =>
        if sensitive && members == map[] { return None; }
        var safe := RedactMapping(v, sensitive, counter);
        r := if safe.None? then None else Some(Object(safe.value));
      case _ =>
        r := if sensitive then None else Some(v);
    }

    method RedactList(items: seq<Json>, sensitive: bool, counter: Counter) returns (r: Option<seq<Json>>)
      modifies counter
      ensures r.Some? <==> RedactItems(rules, items, sensitive).Some?
      ensures r.Some? ==>
                && r.value == RedactItems(rules, items, sensitive).value.0
                && counter.counts == old(counter.counts) + RedactItems(rules, items, sensitive).value.1
      decreases items, 0
    {
      hide Redact;
      var safe: seq<Json> := [];
      ghost var found: multiset<string> := multiset{};
      var i := 0;
      assert items[0..] == items;
      AfterNothing(RedactItems(rules, items, sensitive));
      while i < |items|
        invariant 0 <= i <= |items| && counter.counts == old(counter.counts) + found
        invariant RedactItems(rules, items, sensitive) == After(safe, found, RedactItems(rules, items[i..], sensitive))
      {
        assert items[i..][0] == items[i] && items[i..][1..] == items[i + 1..];
        var item := RedactJson(items[i], sensitive, counter);
        if item.None? { return None; }
        ghost var counts := Redact(rules, items[i], sensitive).value.1;
        AfterOneMore(safe, found, item.value, counts, RedactItems(rules, items[i + 1..], sensitive));
        found := found + counts;
        safe := safe + [item.value];
        i := i + 1;
      }
      assert safe + [] == safe && found + multiset{} == found;
      r := Some(safe);
    }

    /** The members are taken in whatever order the dictionary yields them. */
    method RedactMapping(v: Json, sensitive: bool, counter: Counter) returns (r: Option<map<string, Json>>)
      requires v.Object?
      modifies counter
      ensures var whole := RedactMembers(rules, v, Sorted(v.members.Keys), sensitive);
              && (r.Some? <==> whole.Some?)
              && (r.Some? ==> r.value == whole.value.0 && counter.counts == old(counter.counts) + whole.value.1)
      decreases v, 0
    {
      hide Redact, RedactMembers, Sorted, Least;
      var safe: map<string, Json> := map[];
      ghost var found: multiset<string> := multiset{};
      var remaining := v.members.Keys;
      ghost var order: seq<string> := [];
      NoMembers(rules, v, sensitive);
      while remaining != {}
        invariant counter.counts == old(counter.counts) + found
        invariant forall k :: k in order || k in remaining <==> k in v.members
        invariant forall k :: k in order ==> k !in remaining
        invariant forall i, j :: 0 <= i < j < |order| ==> order[i] != order[j]
        invariant RedactMembers(rules, v, order, sensitive) == Some((safe, found))
        decreases remaining
      {
        var key :| key in remaining;
        FirstMember(rules, v, key, order, sensitive);
        FailureIsFinal(rules, v, order, key, sensitive);
        if rules.refuses(key) { return None; }
        var (safeKey, renamed) := rules.text(key);
        counter.Add(renamed);
        if safeKey in safe { return None; }
        var item := RedactJson(v.members[key], sensitive || rules.isSensitive(key), counter);
        if item.None? { return None; }
        found := renamed + Redact(rules, v.members[key], sensitive || rules.isSensitive(key)).value.1 + found;
        order := [key] + order;
        safe := safe[safeKey := item.value];
        remaining := remaining - {key};
      }
      SortedIsDistinct(v.members.Keys);
      OrderIsImmaterial(rules, v, order, Sorted(v.members.Keys), sensitive);
      r := Some(safe);
    }
  }

  /** What the whole list comes to when `safe` and `counts` are its first part. */
  ghost function After(safe: seq<Json>, counts: multiset<string>, rest: Option<(seq<Json>, multiset<string>)>)
    : Option<(seq<Json>, multiset<string>)> {
    if rest.None? then None else Some((safe + rest.value.0, counts + rest.value.1))
  }

  lemma AfterNothing(rest: Option<(seq<Json>, multiset<string>)>)
    ensures After([], multiset{}, rest) == rest
  {
    if rest.Some? {
      assert [] + rest.value.0 == rest.value.0 && multiset{} + rest.value.1 == rest.value.1;
    }
  }

  lemma AfterOneMore(safe: seq<Json>, counts: multiset<string>, item: Json, found: multiset<string>,
                     rest: Option<(seq<Json>, multiset<string>)>)
    ensures After(safe, counts, After([item], found, rest)) == After(safe + [item], counts + found, rest)
  {
    if rest.Some? {
      assert safe + ([item] + rest.value.0) == safe + [item] + rest.value.0;
      assert counts + (found + rest.value.1) == counts + found + rest.value.1;
    }
  }

  lemma NoMembers(rules: Rules, v: Json, sensitive: bool)
    requires v.Object?
    ensures RedactMembers(rules, v, [], sensitive) == Some((map[], multiset{}))
  {
  }

  /** A member that fails after some others makes the whole object fail. */
  lemma FailureIsFinal(rules: Rules, v: Json, order: seq<string>, key: string, sensitive: bool)
    requires v.Object? && key in v.members && key !in order && forall k :: k in order ==> k in v.members
    requires RedactMembers(rules, v, order, sensitive).Some?
    ensures WithMember(rules, v, key, RedactMembers(rules, v, order, sensitive), sensitive).None? ==>
              RedactMembers(rules, v, Sorted(v.members.Keys), sensitive).None?
  {
    hide Redact, RedactMembers, Redactable, Faithful, Sorted, Least;
    RedactMembersExactly(rules, v, sensitive);
    RedactKeysExactly(rules, v, order, sensitive);
    RedactExactly(rules, v.members[key], sensitive || rules.isSensitive(key));
    var others := RedactMembers(rules, v, order, sensitive).value.0;
    if rules.text(key).0 in others {
      var other :| other in order && rules.text(other).0 == rules.text(key).0;
      assert !KeysStayApart(rules, v.members);
    } else if WithMember(rules, v, key, RedactMembers(rules, v, order, sensitive), sensitive).None? {
      assert !MemberRedactable(rules, v, key, sensitive);
    }
  }

  /** Whatever order the members come in, the result is the same. */
  lemma {:induction false} OrderIsImmaterial(rules: Rules, v: Json, a: seq<string>, b: seq<string>, sensitive: bool)
    requires v.Object? && forall k :: k in a ==> k in v.members
    requires forall k :: k in a <==> k in b
    requires forall i, j :: 0 <= i < j < |a| ==> a[i] != a[j]
    requires forall i, j :: 0 <= i < j < |b| ==> b[i] != b[j]
    ensures RedactMembers(rules, v, a, sensitive) == RedactMembers(rules, v, b, sensitive)
    decreases |a|
  {
    hide Redact, RedactMembers;
    if a == [] {
      HasKey(b);
    } else {
      assert a[0] in b;
      var i :| 0 <= i < |b| && b[i] == a[0];
      var before, after := b[..i], b[i + 1..];
      assert b == before + [a[0]] + after;
      WithoutFirst(a, before, after);
      OrderIsImmaterial(rules, v, a[1..], before + after, sensitive);
      KeyMovesFirst(rules, v, before, a[0], after, sensitive);
      FirstMember(rules, v, a[0], a[1..], sensitive);
      FirstMember(rules, v, a[0], before + after, sensitive);
      assert a == [a[0]] + a[1..] && [a[0]] + before + after == [a[0]] + (before + after);
    }
  }

  lemma HasKey(keys: seq<string>)
    ensures keys != [] ==> exists k :: k in keys
  {
    if keys != [] { assert keys[0] in keys; }
  }

  lemma WithoutFirst(a: seq<string>, before: seq<string>, after: seq<string>)
    requires a != [] && (forall k :: k in a <==> k in before + [a[0]] + after)
    requires forall i, j :: 0 <= i < j < |a| ==> a[i] != a[j]
    requires var b := before + [a[0]] + after; forall i, j :: 0 <= i < j < |b| ==> b[i] != b[j]
    ensures forall k :: k in a[1..] <==> k in before + after
    ensures var b := before + after; forall i, j :: 0 <= i < j < |b| ==> b[i] != b[j]
  {
    var b, rest := before + [a[0]] + after, before + after;
    assert a == [a[0]] + a[1..];
    assert forall j :: 0 <= j < |rest| ==> rest[j] == b[if j < |before| then j else j + 1];
    assert b[|before|] == a[0];
    assert a[0] !in rest;
    assert a[0] !in a[1..];
    forall k ensures k in a[1..] <==> k in rest {
      assert k in a <==> k in b;
    }
  }

  lemma {:induction false} KeyMovesFirst(
    rules: Rules, v: Json, before: seq<string>, key: string, after: seq<string>, sensitive: bool)
    requires v.Object? && key in v.members && (forall k :: k in before || k in after ==> k in v.members)
    ensures RedactMembers(rules, v, before + [key] + after, sensitive) ==
            RedactMembers(rules, v, [key] + before + after, sensitive)
    decreases |before|
  {
    hide Redact, RedactMembers;
    if before == [] {
      assert before + [key] + after == [key] + before + after;
    } else {
      var first, rest := before[0], before[1..];
      KeyMovesFirst(rules, v, rest, key, after, sensitive);
      NeighboursSwap(rules, v, first, key, rest + after, sensitive);
      assert before + [key] + after == [first] + (rest + [key] + after);
      assert [key] + before + after == [key, first] + (rest + after);
      assert [first] + ([key] + rest + after) == [first, key] + (rest + after);
      FirstMember(rules, v, first, rest + [key] + after, sensitive);
      FirstMember(rules, v, first, [key] + rest + after, sensitive);
    }
  }

  lemma FirstMember(rules: Rules, v: Json, key: string, rest: seq<string>, sensitive: bool)
    requires v.Object? && key in v.members && forall k :: k in rest ==> k in v.members
    ensures RedactMembers(rules, v, [key] + rest, sensitive) ==
            WithMember(rules, v, key, RedactMembers(rules, v, rest, sensitive), sensitive)
  {
    hide Redact;
    assert ([key] + rest)[1..] == rest;
  }

  /** One more member, given what the others come to. */
  ghost function WithMember(
    rules: Rules, v: Json, key: string, others: Option<(map<string, Json>, multiset<string>)>, sensitive: bool)
    : Option<(map<string, Json>, multiset<string>)>
    requires v.Object? && key in v.members
  {
    var (safe, renamed) := rules.text(key);
    var item := Redact(rules, v.members[key], sensitive || rules.isSensitive(key));
    if rules.refuses(key) || item.None? || others.None? || safe in others.value.0 then None
    else Some((others.value.0[safe := item.value.0], renamed + item.value.1 + others.value.1))
  }

  lemma NeighboursSwap(rules: Rules, v: Json, k: string, l: string, rest: seq<string>, sensitive: bool)
    requires v.Object? && k in v.members && l in v.members && forall m :: m in rest ==> m in v.members
    ensures RedactMembers(rules, v, [k, l] + rest, sensitive) == RedactMembers(rules, v, [l, k] + rest, sensitive)
  {
    hide Redact;
    var others := RedactMembers(rules, v, rest, sensitive);
    assert [k, l] + rest == [k] + ([l] + rest) && [l, k] + rest == [l] + ([k] + rest);
    FirstMember(rules, v, l, rest, sensitive);
    FirstMember(rules, v, k, rest, sensitive);
    FirstMember(rules, v, k, [l] + rest, sensitive);
    FirstMember(rules, v, l, [k] + rest, sensitive);
    var a := WithMember(rules, v, k, WithMember(rules, v, l, others, sensitive), sensitive);
    var b := WithMember(rules, v, l, WithMember(rules, v, k, others, sensitive), sensitive);
    if a.Some? {
      assert a.value.0 == b.value.0;
      assert a.value.1 == b.value.1;
    }
  }
}
