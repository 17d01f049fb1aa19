/** Redaction of JSON trees, `redaction.py`: text leaves and keys are rewritten
    by rules, and everything under a sensitive key becomes a sentinel. */
module Redaction {
  import opened Options
  import opened JsonText
  import F = CanonicalForm
  import K = SensitiveKeys

  /** `text` rewrites one string and tells the category of each replacement,
      unless `refuses` it (JSON inside the string cannot be redacted);
      `isSensitive` is the test for credential keys. */
  datatype Rules = Rules(
    text: string -> (string, multiset<string>), refuses: string -> bool, isSensitive: string -> bool)

  const SENSITIVE_FIELD := "[REDACTED:SENSITIVE_FIELD]"

  const APPROVED := {
    "[REDACTED:AUTHORIZATION]", "[REDACTED:AWS_ACCESS_KEY]", "[REDACTED:CREDENTIAL]", "[REDACTED:GITHUB_TOKEN]",
    "[REDACTED:QUERY_CREDENTIAL]", SENSITIVE_FIELD, "[REDACTED:SLACK_TOKEN]", "[REDACTED:WEBHOOK_URL]" }

  function RedactField(s: string): (string, multiset<string>) {
    if s in APPROVED then (s, multiset{}) else (SENSITIVE_FIELD, multiset{"SENSITIVE_FIELD"})
  }

  /** `_redact_json`: the redacted value and the replacements made, or an error. */
  function Redact(rules: Rules, v: Json, sensitive: bool): Option<(Json, multiset<string>)>
    decreases v, if v.Object? then |v.members| + 1 else 0
  {
    match v
    case Text(s) =>
      if !sensitive && rules.refuses(s) then None
      else
        var (safe, counts) := if sensitive then RedactField(s) else rules.text(s);
        Some((Text(safe), counts))
    case Array(items) =>
      if sensitive && items == [] then None
      else
        var r := RedactItems(rules, items, sensitive);
        if r.None? then None else Some((Array(r.value.0), r.value.1))
    case Object(members) =>
      if sensitive && members == map[] then None
      else
        var r := RedactMembers(rules, v, Sorted(members.Keys), sensitive);
        if r.None? then None else Some((Object(r.value.0), r.value.1))
    case _ => if sensitive then None else Some((v, multiset{}))
  }

  function RedactItems(rules: Rules, items: seq<Json>, sensitive: bool): (r: Option<(seq<Json>, multiset<string>)>)
    ensures r.Some? ==> |r.value.0| == |items|
    decreases items, 0
  {
    if items == [] then Some(([], multiset{}))
    else
      var head := Redact(rules, items[0], sensitive);
      var tail := RedactItems(rules, items[1..], sensitive);
      if head.None? || tail.None? then None
      else Some(([head.value.0] + tail.value.0, head.value.1 + tail.value.1))
  }

  /** The members under `keys`; a key that becomes one already there is an error. */
  function RedactMembers(rules: Rules, v: Json, keys: seq<string>, sensitive: bool)
    : Option<(map<string, Json>, multiset<string>)>
    requires v.Object? && forall k :: k in keys ==> k in v.members
    decreases v, |keys|
  {
    if keys == [] then Some((map[], multiset{}))
    else
      var key := keys[0];
      var (safe, renamed) := rules.text(key);
      var item := Redact(rules, v.members[key], sensitive || rules.isSensitive(key));
      var rest := RedactMembers(rules, v, keys[1..], sensitive);
      if rules.refuses(key) || item.None? || rest.None? || safe in rest.value.0 then None
      else Some((rest.value.0[safe := item.value.0], renamed + item.value.1 + rest.value.1))
  }

  // ---- When redaction is refused ----

  predicate KeysStayApart(rules: Rules, members: map<string, Json>) {
    forall k, l :: k in members && l in members && k != l ==> rules.text(k).0 != rules.text(l).0
  }

  /** No value under a sensitive key that is neither text nor a container of it,
      no empty container there, no two keys of an object that become one, and no
      key or plain text that the rules refuse. */
  predicate Redactable(rules: Rules, v: Json, sensitive: bool)
    decreases v
  {
    match v
    case Text(s) => sensitive || !rules.refuses(s)
    case Array(items) =>
      (sensitive ==> items != []) && forall k :: 0 <= k < |items| ==> Redactable(rules, items[k], sensitive)
    case Object(members) =>
      && (sensitive ==> members != map[])
      && KeysStayApart(rules, members)
      && forall k :: k in members ==>
           !rules.refuses(k) && Redactable(rules, members[k], sensitive || rules.isSensitive(k))
    case _ => !sensitive
  }

  // ---- What redaction keeps and what it hides ----

  /** The shape is kept; outside sensitive keys so is every number, boolean and
      null, and text is rewritten by the rules; under them every leaf is an
      approved sentinel. */
  predicate Faithful(rules: Rules, v: Json, w: Json, sensitive: bool)
    decreases v
  {
    match v
    case Text(s) =>
      && w.Text?
      && if !sensitive then w.text == rules.text(s).0
         else w.text in APPROVED && w.text == if s in APPROVED then s else "[REDACTED:SENSITIVE_FIELD]"
    case Array(items) =>
      && w.Array? && |w.items| == |items|
      && forall k :: 0 <= k < |items| ==> Faithful(rules, items[k], w.items[k], sensitive)
    case Object(members) =>
      && w.Object? && w.members.Keys == (set k | k in members :: rules.text(k).0)
      && forall k :: k in members ==>
           Faithful(rules, members[k], w.members[rules.text(k).0], sensitive || rules.isSensitive(k))
    case _ => !sensitive && w == v
  }

  /** Redaction is refused exactly for what is not redactable, and is faithful. */
  lemma {:induction false} RedactExactly(rules: Rules, v: Json, sensitive: bool)
    ensures Redact(rules, v, sensitive).Some? <==> Redactable(rules, v, sensitive)
    ensures Redact(rules, v, sensitive).Some? ==> Faithful(rules, v, Redact(rules, v, sensitive).value.0, sensitive)
    decreases v, if v.Object? then |v.members| + 3 else 2
  {
    hide Redact, Redactable, Faithful;
    match v
    case Array(_) => RedactArrayExactly(rules, v, sensitive);
    case Object(_) => RedactObjectExactly(rules, v, sensitive);
    case _ => RedactLeafExactly(rules, v, sensitive);
  }

  lemma RedactLeafExactly(rules: Rules, v: Json, sensitive: bool)
    requires !v.Array? && !v.Object?
    ensures Redact(rules, v, sensitive).Some? <==> Redactable(rules, v, sensitive)
    ensures Redact(rules, v, sensitive).Some? ==> Faithful(rules, v, Redact(rules, v, sensitive).value.0, sensitive)
  {
    hide RedactItems, RedactMembers, Sorted, Least;
  }

  lemma {:induction false} RedactArrayExactly(rules: Rules, v: Json, sensitive: bool)
    requires v.Array?
    ensures Redact(rules, v, sensitive).Some? <==> Redactable(rules, v, sensitive)
    ensures Redact(rules, v, sensitive).Some? ==> Faithful(rules, v, Redact(rules, v, sensitive).value.0, sensitive)
    decreases v, 1
  {
    hide RedactItems, RedactMembers, Sorted, Least;
    RedactItemsExactly(rules, v.items, sensitive);
  }

  lemma {:induction false} RedactObjectExactly(rules: Rules, v: Json, sensitive: bool)
    requires v.Object?
    ensures Redact(rules, v, sensitive).Some? <==> Redactable(rules, v, sensitive)
    ensures Redact(rules, v, sensitive).Some? ==> Faithful(rules, v, Redact(rules, v, sensitive).value.0, sensitive)
    decreases v, |v.members| + 2
  {
    hide RedactItems, RedactMembers, Sorted, Least, KeysStayApart;
    RedactMembersExactly(rules, v, sensitive);
    RedactableUnfolds(rules, v, sensitive);
    var r := RedactMembers(rules, v, Sorted(v.members.Keys), sensitive);
    if r.Some? { FaithfulUnfolds(rules, v, Object(r.value.0), sensitive); }
    hide Redactable, Faithful;
  }

  lemma RedactableUnfolds(rules: Rules, v: Json, sensitive: bool)
    requires v.Object?
    ensures Redactable(rules, v, sensitive) <==>
            && (sensitive ==> v.members != map[])
            && KeysStayApart(rules, v.members)
            && forall k :: k in v.members ==> MemberRedactable(rules, v, k, sensitive)
  {
    hide KeysStayApart;
  }

  lemma FaithfulUnfolds(rules: Rules, v: Json, w: Json, sensitive: bool)
    requires v.Object? && w.Object? && w.members.Keys == set k | k in v.members :: rules.text(k).0
    ensures Faithful(rules, v, w, sensitive) <==>
            forall k :: k in v.members ==> MemberFaithful(rules, v, k, w.members, sensitive)
  {
    forall k | k in v.members ensures rules.text(k).0 in w.members {
      assert rules.text(k).0 in set k | k in v.members :: rules.text(k).0;
    }
  }

  lemma {:induction false} RedactItemsExactly(rules: Rules, items: seq<Json>, sensitive: bool)
    ensures RedactItems(rules, items, sensitive).Some? <==>
            forall k :: 0 <= k < |items| ==> Redactable(rules, items[k], sensitive)
    ensures RedactItems(rules, items, sensitive).Some? ==>
            forall k :: 0 <= k < |items| ==>
              Faithful(rules, items[k], RedactItems(rules, items, sensitive).value.0[k], sensitive)
    decreases items, 0
  {
    hide Redact, Redactable, Faithful;
    if items != [] {
      RedactExactly(rules, items[0], sensitive);
      RedactItemsExactly(rules, items[1..], sensitive);
      assert forall k :: 0 < k < |items| ==> items[k] == items[1..][k - 1];
      assert forall k :: 0 <= k < |items| - 1 ==> items[1..][k] == items[k + 1];
    }
  }

  predicate ApartAmong(rules: Rules, keys: seq<string>) {
    forall i, j :: 0 <= i < j < |keys| ==> rules.text(keys[i]).0 != rules.text(keys[j]).0
  }

  predicate MemberRedactable(rules: Rules, v: Json, key: string, sensitive: bool)
    requires v.Object? && key in v.members
  {
    !rules.refuses(key) && Redactable(rules, v.members[key], sensitive || rules.isSensitive(key))
  }

  predicate MemberFaithful(rules: Rules, v: Json, key: string, w: map<string, Json>, sensitive: bool)
    requires v.Object? && key in v.members
  {
    rules.text(key).0 in w && Faithful(rules, v.members[key], w[rules.text(key).0], sensitive || rules.isSensitive(key))
  }

  function SafeKeys(rules: Rules, keys: seq<string>): set<string> {
    set k | k in keys :: rules.text(k).0
  }

  lemma {:induction false} RedactKeysExactly(rules: Rules, v: Json, keys: seq<string>, sensitive: bool)
    requires v.Object? && forall k :: k in keys ==> k in v.members
    ensures var r := RedactMembers(rules, v, keys, sensitive);
            && (r.Some? <==> (ApartAmong(rules, keys) &&
                              forall k :: k in keys ==> MemberRedactable(rules, v, k, sensitive)))
            && (r.Some? ==>
                  && r.value.0.Keys == SafeKeys(rules, keys)
                  && forall k :: k in keys ==> MemberFaithful(rules, v, k, r.value.0, sensitive))
    decreases v, |keys|
  {
    hide Redact, Redactable, Faithful;
    if keys != [] {
      var key, rest := keys[0], keys[1..];
      assert keys == [key] + rest;
      RedactExactly(rules, v.members[key], sensitive || rules.isSensitive(key));
      RedactKeysExactly(rules, v, rest, sensitive);
      ApartStep(rules, key, rest);
    }
  }

  lemma ApartStep(rules: Rules, key: string, rest: seq<string>)
    ensures ApartAmong(rules, [key] + rest) <==> ApartAmong(rules, rest) && rules.text(key).0 !in SafeKeys(rules, rest)
    ensures SafeKeys(rules, [key] + rest) == {rules.text(key).0} + SafeKeys(rules, rest)
  {
    var keys := [key] + rest;
    if ApartAmong(rules, keys) {
      forall i, j | 0 <= i < j < |rest| ensures rules.text(rest[i]).0 != rules.text(rest[j]).0 {
        assert keys[i + 1] == rest[i] && keys[j + 1] == rest[j];
      }
      forall k | k in rest ensures rules.text(k).0 != rules.text(key).0 {
        var j :| 0 <= j < |rest| && rest[j] == k;
        assert keys[0] == key && keys[j + 1] == k;
      }
    }
    forall i, j | ApartAmong(rules, rest) && rules.text(key).0 !in SafeKeys(rules, rest) && 0 <= i < j < |keys|
      ensures rules.text(keys[i]).0 != rules.text(keys[j]).0
    {
      assert keys[j] == rest[j - 1] && keys[j] in rest;
      if i > 0 { assert keys[i] == rest[i - 1]; }
    }
    forall k | k in keys ensures rules.text(k).0 in {rules.text(key).0} + SafeKeys(rules, rest) {
      if k != key { assert k in rest; }
    }
    forall k | k in rest ensures rules.text(k).0 in SafeKeys(rules, keys) { assert k in keys; }
    assert key in keys;
  }

  lemma {:induction false} RedactMembersExactly(rules: Rules, v: Json, sensitive: bool)
    requires v.Object?
    ensures var r := RedactMembers(rules, v, Sorted(v.members.Keys), sensitive);
            && (r.Some? <==> (KeysStayApart(rules, v.members) &&
                              forall k :: k in v.members ==> MemberRedactable(rules, v, k, sensitive)))
            && (r.Some? ==>
                  && r.value.0.Keys == (set k | k in v.members :: rules.text(k).0)
                  && forall k :: k in v.members ==> MemberFaithful(rules, v, k, r.value.0, sensitive))
    decreases v, |v.members| + 1
  {
    hide Redact, Redactable, Faithful, RedactMembers, Sorted, Least, ApartAmong, KeysStayApart;
    var keys := Sorted(v.members.Keys);
    RedactKeysExactly(rules, v, keys, sensitive);
    SortedIsDistinct(v.members.Keys);
    ApartExactly(rules, v.members, keys);
  }

  lemma ApartExactly(rules: Rules, members: map<string, Json>, keys: seq<string>)
    requires forall k :: k in keys <==> k in members
    requires forall i, j :: 0 <= i < j < |keys| ==> keys[i] != keys[j]
    ensures ApartAmong(rules, keys) <==> KeysStayApart(rules, members)
  {
    forall k, l | ApartAmong(rules, keys) && k in members && l in members && k != l
      ensures rules.text(k).0 != rules.text(l).0
    {
      var i :| 0 <= i < |keys| && keys[i] == k;
      var j :| 0 <= j < |keys| && keys[j] == l;
      assert i < j || j < i;
    }
    forall i, j | KeysStayApart(rules, members) && 0 <= i < j < |keys|
      ensures rules.text(keys[i]).0 != rules.text(keys[j]).0
    {
      assert keys[i] in members && keys[j] in members;
    }
  }

  lemma {:induction false} SortedIsDistinct(keys: set<string>)
    ensures forall i, j :: 0 <= i < j < |Sorted(keys)| ==> Sorted(keys)[i] != Sorted(keys)[j]
    ensures forall k :: k in Sorted(keys) <==> k in keys
  {
    if keys != {} {
      SortedIsDistinct(keys - {Least(keys)});
    }
  }

  // ---- The second pass ----

  /** What the text rules of the source keep to: they count what they change, and
      they leave approved sentinels alone. Their own output they need not leave
      alone: it may hold JSON whose keys have become sensitive. */
  ghost predicate WellBehaved(rules: Rules) {
    && (forall s :: !rules.refuses(s) && rules.text(s).1 == multiset{} ==> rules.text(s).0 == s)
    && (forall s :: s in APPROVED ==> Settled(rules, s))
  }

  /** The rules find nothing in the string. */
  predicate Settled(rules: Rules, s: string) {
    rules.text(s) == (s, multiset{}) && !rules.refuses(s)
  }

  /** Nothing in the value is left to redact. */
  predicate Clean(rules: Rules, v: Json, sensitive: bool)
    decreases v
  {
    match v
    case Text(s) => if sensitive then s in APPROVED else Settled(rules, s)
    case Array(items) =>
      (sensitive ==> items != []) && forall k :: 0 <= k < |items| ==> Clean(rules, items[k], sensitive)
    case Object(members) =>
      && (sensitive ==> members != map[])
      && forall k :: k in members ==>
           Settled(rules, k) && Clean(rules, members[k], sensitive || rules.isSensitive(k))
    case _ => !sensitive
  }

  /** Redacting changes nothing and counts nothing exactly when the value is
      clean; this is the test a publication must pass. */
  lemma {:induction false} NothingToRedactExactly(rules: Rules, v: Json, sensitive: bool)
    requires WellBehaved(rules)
    ensures Clean(rules, v, sensitive) <==>
            Redact(rules, v, sensitive).Some? && Redact(rules, v, sensitive).value.1 == multiset{}
    ensures Clean(rules, v, sensitive) ==> Redact(rules, v, sensitive) == Some((v, multiset{}))
    decreases v, if v.Object? then |v.members| + 2 else 0
  {
    hide WellBehaved, RedactItems, RedactMembers, Sorted, Least;
    match v
    case Text(s) => SettledExactly(rules, s);
    case Array(items) => ItemsClean(rules, items, sensitive);
    case Object(members) =>
      hide Settled;
      MembersClean(rules, v, sensitive);
      assert (forall k :: k in v.members ==> MemberClean(rules, v, k, sensitive)) <==>
             (forall k :: k in v.members ==>
                Settled(rules, k) && Clean(rules, v.members[k], sensitive || rules.isSensitive(k)));
    case _ =>
  }

  lemma SettledExactly(rules: Rules, s: string)
    requires WellBehaved(rules)
    ensures Settled(rules, s) <==> !rules.refuses(s) && rules.text(s).1 == multiset{}
  {
  }

  lemma SettledText(rules: Rules, s: string)
    ensures Settled(rules, s) ==> rules.text(s) == (s, multiset{})
  {
  }

  lemma {:induction false} ItemsClean(rules: Rules, items: seq<Json>, sensitive: bool)
    requires WellBehaved(rules)
    ensures (forall k :: 0 <= k < |items| ==> Clean(rules, items[k], sensitive)) <==>
            RedactItems(rules, items, sensitive).Some? && RedactItems(rules, items, sensitive).value.1 == multiset{}
    ensures (forall k :: 0 <= k < |items| ==> Clean(rules, items[k], sensitive)) ==>
            RedactItems(rules, items, sensitive) == Some((items, multiset{}))
    decreases items, 0
  {
    hide WellBehaved, Settled, Redact, Clean;
    if items != [] {
      NothingToRedactExactly(rules, items[0], sensitive);
      ItemsClean(rules, items[1..], sensitive);
      assert items == [items[0]] + items[1..];
      assert forall k :: 0 <= k < |items| - 1 ==> items[1..][k] == items[k + 1];
    }
  }

  predicate MemberClean(rules: Rules, v: Json, key: string, sensitive: bool)
    requires v.Object? && key in v.members
  {
    Settled(rules, key) && Clean(rules, v.members[key], sensitive || rules.isSensitive(key))
  }

  lemma {:induction false} KeysClean(rules: Rules, v: Json, keys: seq<string>, sensitive: bool)
    requires WellBehaved(rules) && v.Object? && forall k :: k in keys ==> k in v.members
    requires forall i, j :: 0 <= i < j < |keys| ==> keys[i] != keys[j]
    ensures var r := RedactMembers(rules, v, keys, sensitive);
            && ((forall k :: k in keys ==> MemberClean(rules, v, k, sensitive)) <==> r.Some? && r.value.1 == multiset{})
            && (r.Some? && r.value.1 == multiset{} ==> r.value.0 == map k | k in keys :: v.members[k])
    decreases v, |keys|
  {
    hide Redact, Clean, WellBehaved, Settled;
    if keys != [] {
      var key, rest := keys[0], keys[1..];
      SettledExactly(rules, key);
      SettledText(rules, key);
      NothingToRedactExactly(rules, v.members[key], sensitive || rules.isSensitive(key));
      KeysClean(rules, v, rest, sensitive);
      FirstKeyClean(rules, v, keys, sensitive);
    }
  }

  lemma FirstKeyClean(rules: Rules, v: Json, keys: seq<string>, sensitive: bool)
    requires v.Object? && (forall k :: k in keys ==> k in v.members) && keys != []
    requires forall i, j :: 0 <= i < j < |keys| ==> keys[i] != keys[j]
    ensures (forall k :: k in keys ==> MemberClean(rules, v, k, sensitive)) <==>
            (MemberClean(rules, v, keys[0], sensitive) &&
             forall k :: k in keys[1..] ==> MemberClean(rules, v, k, sensitive))
    ensures keys[0] !in keys[1..]
    ensures (map k | k in keys :: v.members[k]) ==
            (map k | k in keys[1..] :: v.members[k])[keys[0] := v.members[keys[0]]]
  {
    hide MemberClean;
    assert keys == [keys[0]] + keys[1..];
  }

  lemma {:induction false} MembersClean(rules: Rules, v: Json, sensitive: bool)
    requires WellBehaved(rules) && v.Object?
    ensures var r := RedactMembers(rules, v, Sorted(v.members.Keys), sensitive);
            && (r.Some? && r.value.1 == multiset{} <==>
                (forall k :: k in v.members ==> MemberClean(rules, v, k, sensitive)))
            && (r.Some? && r.value.1 == multiset{} ==> r.value.0 == v.members)
    decreases v, |v.members| + 1
  {
    hide Redact, Clean, WellBehaved, Settled, Sorted, Least, RedactMembers;
    var keys := Sorted(v.members.Keys);
    SortedIsDistinct(v.members.Keys);
    KeysClean(rules, v, keys, sensitive);
    assert v.members == map k | k in keys :: v.members[k];
  }

  /** The document itself tells whether one pass is enough. Every rewritten key,
      and every rewritten text outside sensitive context, must leave the rules
      nothing more to do. `again` is the context the second pass will be in: where
      a rewritten key has become sensitive (`again` but not `sensitive`), only
      approved sentinels may be left, and no empty container or other leaf. */
  predicate OnePassIsEnough(rules: Rules, v: Json, sensitive: bool, again: bool)
    decreases v
  {
    match v
    case Text(s) =>
      sensitive || (if again then rules.text(s).0 in APPROVED else Settled(rules, rules.text(s).0))
    case Array(items) =>
      (again ==> items != []) && forall k :: 0 <= k < |items| ==> OnePassIsEnough(rules, items[k], sensitive, again)
    case Object(members) =>
      && (again ==> members != map[])
      && forall k :: k in members ==>
           && Settled(rules, rules.text(k).0)
           && OnePassIsEnough(
                rules, members[k], sensitive || rules.isSensitive(k), again || rules.isSensitive(rules.text(k).0))
    case _ => !again
  }

  predicate MemberNeedsOnePass(rules: Rules, v: Json, key: string, sensitive: bool, again: bool)
    requires v.Object? && key in v.members
  {
    && Settled(rules, rules.text(key).0)
    && OnePassIsEnough(
         rules, v.members[key], sensitive || rules.isSensitive(key), again || rules.isSensitive(rules.text(key).0))
  }

  /** The member that the second pass will find in place of `key`. */
  predicate MemberIsClean(rules: Rules, w: Json, key: string, again: bool)
    requires w.Object? && rules.text(key).0 in w.members
  {
    MemberClean(rules, w, rules.text(key).0, again)
  }

  lemma SentinelsSettle(rules: Rules, s: string)
    requires WellBehaved(rules)
    ensures s in APPROVED ==> Settled(rules, s)
    ensures SENSITIVE_FIELD in APPROVED && Settled(rules, SENSITIVE_FIELD)
  {
    hide Settled;
  }

  lemma {:induction false} FaithfulIsCleanExactly(rules: Rules, v: Json, w: Json, sensitive: bool, again: bool)
    requires WellBehaved(rules) && Faithful(rules, v, w, sensitive) && Redactable(rules, v, sensitive)
    ensures Clean(rules, w, again) <==> OnePassIsEnough(rules, v, sensitive, again)
    decreases v, 1
  {
    hide WellBehaved;
    match v
    case Text(s) => SentinelsSettle(rules, w.text);
    case Array(items) => FaithfulItems(rules, v, w, sensitive, again);
    case Object(members) =>
      hide Settled;
      forall k | k in members
        ensures rules.text(k).0 in w.members
        ensures MemberFaithful(rules, v, k, w.members, sensitive) && MemberRedactable(rules, v, k, sensitive)
      {
        assert rules.text(k).0 in set k | k in members :: rules.text(k).0;
      }
      FaithfulMembers(rules, v, w, sensitive, again);
      MembersAreCleanExactly(rules, v, w, sensitive, again);
      CleanUnfolds(rules, v, w, sensitive, again);
    case _ =>
  }

  lemma CleanUnfolds(rules: Rules, v: Json, w: Json, sensitive: bool, again: bool)
    requires v.Object? && w.Object?
    ensures Clean(rules, w, again) <==>
            ((again ==> w.members != map[]) && forall safe :: safe in w.members ==> MemberClean(rules, w, safe, again))
    ensures OnePassIsEnough(rules, v, sensitive, again) <==>
            ((again ==> v.members != map[]) &&
             forall k :: k in v.members ==> MemberNeedsOnePass(rules, v, k, sensitive, again))
  {
    hide Settled;
  }

  lemma {:induction false} FaithfulItems(rules: Rules, v: Json, w: Json, sensitive: bool, again: bool)
    requires WellBehaved(rules) && v.Array? && Faithful(rules, v, w, sensitive) && Redactable(rules, v, sensitive)
    ensures Clean(rules, w, again) <==> OnePassIsEnough(rules, v, sensitive, again)
    decreases v, 0
  {
    hide WellBehaved, Settled;
    forall k | 0 <= k < |v.items|
      ensures Clean(rules, w.items[k], again) <==> OnePassIsEnough(rules, v.items[k], sensitive, again)
    {
      FaithfulIsCleanExactly(rules, v.items[k], w.items[k], sensitive, again);
    }
  }

  lemma {:induction false} FaithfulMembers(rules: Rules, v: Json, w: Json, sensitive: bool, again: bool)
    requires WellBehaved(rules) && v.Object? && w.Object?
    requires forall k :: k in v.members ==> rules.text(k).0 in w.members
    requires forall k :: k in v.members ==>
               MemberFaithful(rules, v, k, w.members, sensitive) && MemberRedactable(rules, v, k, sensitive)
    ensures forall k :: k in v.members ==>
              (MemberIsClean(rules, w, k, again) <==> MemberNeedsOnePass(rules, v, k, sensitive, again))
    decreases v, 0
  {
    hide Clean, OnePassIsEnough, Faithful, Redactable, WellBehaved, Settled;
    forall k | k in v.members
      ensures MemberIsClean(rules, w, k, again) <==> MemberNeedsOnePass(rules, v, k, sensitive, again)
    {
      assert MemberFaithful(rules, v, k, w.members, sensitive) && MemberRedactable(rules, v, k, sensitive);
      FaithfulIsCleanExactly(rules, v.members[k], w.members[rules.text(k).0],
                             sensitive || rules.isSensitive(k), again || rules.isSensitive(rules.text(k).0));
    }
  }

  lemma MembersAreCleanExactly(rules: Rules, v: Json, w: Json, sensitive: bool, again: bool)
    requires v.Object? && w.Object? && w.members.Keys == set k | k in v.members :: rules.text(k).0
    requires forall k :: k in v.members ==> rules.text(k).0 in w.members
    requires forall k :: k in v.members ==>
               (MemberIsClean(rules, w, k, again) <==> MemberNeedsOnePass(rules, v, k, sensitive, again))
    ensures v.members == map[] <==> w.members == map[]
    ensures (forall safe :: safe in w.members ==> MemberClean(rules, w, safe, again)) <==>
            (forall k :: k in v.members ==> MemberNeedsOnePass(rules, v, k, sensitive, again))
  {
    hide Clean, OnePassIsEnough, Settled;
    assert forall k :: k in v.members ==> rules.text(k).0 in w.members;
    forall safe | safe in w.members ensures exists k :: k in v.members && rules.text(k).0 == safe {
      assert safe in set k | k in v.members :: rules.text(k).0;
    }
    if v.members != map[] {
      var k :| k in v.members;
      assert rules.text(k).0 in w.members;
    }
    if forall safe :: safe in w.members ==> MemberClean(rules, w, safe, again) {
      forall k | k in v.members ensures MemberNeedsOnePass(rules, v, k, sensitive, again) {
        assert MemberIsClean(rules, w, k, again);
      }
    }
    if forall k :: k in v.members ==> MemberNeedsOnePass(rules, v, k, sensitive, again) {
      forall safe | safe in w.members ensures MemberClean(rules, w, safe, again) {
        var k :| k in v.members && rules.text(k).0 == safe;
        assert MemberNeedsOnePass(rules, v, k, sensitive, again);
      }
    }
  }

  /** A second pass over what the first one leaves is a no-op with no replacement
      exactly when one pass is enough. */
  lemma SecondPassIsNoOpExactly(rules: Rules, v: Json)
    requires WellBehaved(rules) && Redactable(rules, v, false)
    ensures var r := Redact(rules, v, false);
            r.Some? && (Redact(rules, r.value.0, false) == Some((r.value.0, multiset{})) <==>
                        OnePassIsEnough(rules, v, false, false))
  {
    RedactExactly(rules, v, false);
    var w := Redact(rules, v, false).value.0;
    FaithfulIsCleanExactly(rules, v, w, false, false);
    NothingToRedactExactly(rules, w, false);
  }

  /** No key outside sensitive context becomes sensitive by being rewritten. */
  predicate NoNewSensitiveKey(rules: Rules, v: Json, sensitive: bool)
    decreases v
  {
    match v
    case Array(items) => forall k :: 0 <= k < |items| ==> NoNewSensitiveKey(rules, items[k], sensitive)
    case Object(members) =>
      forall k :: k in members ==>
        && (rules.isSensitive(rules.text(k).0) ==> sensitive || rules.isSensitive(k))
        && NoNewSensitiveKey(rules, members[k], sensitive || rules.isSensitive(k))
    case _ => true
  }

  /** The rules find nothing in what they made of the keys of this document, and of
      its text outside sensitive context. */
  predicate RewritingSettles(rules: Rules, v: Json, sensitive: bool)
    decreases v
  {
    match v
    case Text(s) => sensitive || Settled(rules, rules.text(s).0)
    case Array(items) => forall k :: 0 <= k < |items| ==> RewritingSettles(rules, items[k], sensitive)
    case Object(members) =>
      forall k :: k in members ==>
        Settled(rules, rules.text(k).0) && RewritingSettles(rules, members[k], sensitive || rules.isSensitive(k))
    case _ => true
  }

  /** In particular when rewriting makes no key sensitive, as when it changes no
      key, and its output settles. */
  lemma {:induction false} StableKeysAreEnough(rules: Rules, v: Json, sensitive: bool, again: bool)
    requires Redactable(rules, v, sensitive) && (again ==> sensitive)
    requires NoNewSensitiveKey(rules, v, sensitive) && RewritingSettles(rules, v, sensitive)
    ensures OnePassIsEnough(rules, v, sensitive, again)
    decreases v
  {
    hide Settled;
    match v
    case Array(items) =>
      forall k | 0 <= k < |items| ensures OnePassIsEnough(rules, items[k], sensitive, again) {
        StableKeysAreEnough(rules, items[k], sensitive, again);
      }
    case Object(members) =>
      forall k | k in members
        ensures OnePassIsEnough(
                  rules, members[k], sensitive || rules.isSensitive(k), again || rules.isSensitive(rules.text(k).0))
      {
        StableKeysAreEnough(
          rules, members[k], sensitive || rules.isSensitive(k), again || rules.isSensitive(rules.text(k).0));
      }
    case _ =>
  }

  // A token as a key: the sentinel it becomes names a token, which makes it
  // sensitive. The same inside a string that holds JSON: once rewritten, the string
  // cannot be redacted again. Other text is left alone here.
  const EMBEDDED := "{\"ghp_a\":1}"
  const EMBEDDED_AFTER := "{\"[REDACTED:GITHUB_TOKEN]\":1}"

  const TOKEN_RULES := Rules(
    s => if s == "ghp_a" then ("[REDACTED:GITHUB_TOKEN]", multiset{"GITHUB_TOKEN"})
         else if s == EMBEDDED then (EMBEDDED_AFTER, multiset{"GITHUB_TOKEN"})
         else (s, multiset{}),
    s => s == EMBEDDED_AFTER,
    K.IsSensitiveKey)

  /** One pass is not always enough: the number under a key that is a GitHub token
      passes the first redaction, and the second refuses the result. */
  lemma SecondPassCanRefuse()
    ensures WellBehaved(TOKEN_RULES)
    ensures var v := Object(map["ghp_a" := Number(1)]);
            var r := Redact(TOKEN_RULES, v, false);
            && r == Some((Object(map["[REDACTED:GITHUB_TOKEN]" := Number(1)]), multiset{"GITHUB_TOKEN"}))
            && Redact(TOKEN_RULES, r.value.0, false).None?
  {
    hide Redact, K.IsSensitiveKey;
    K.GithubSentinelIsSensitive();
    TokenRulesAreWellBehaved();
    assert "ghp_a"[0] == 'g' && "[REDACTED:GITHUB_TOKEN]"[0] == '[' && EMBEDDED_AFTER[0] == '{';
    OnlyMember(TOKEN_RULES, "ghp_a", Number(1));
    OnlyMember(TOKEN_RULES, "[REDACTED:GITHUB_TOKEN]", Number(1));
    assert multiset{"GITHUB_TOKEN"} + multiset{} == multiset{"GITHUB_TOKEN"};
  }

  lemma TokenRulesAreWellBehaved()
    ensures WellBehaved(TOKEN_RULES)
  {
    hide K.IsSensitiveKey;
    assert "ghp_a"[0] == 'g' && EMBEDDED[0] == '{' && EMBEDDED_AFTER[0] == '{';
    forall s | s in APPROVED ensures Settled(TOKEN_RULES, s) { assert s[0] == '['; }
  }

  /** Nor is it enough that no key changes: the string under an ordinary key holds
      JSON that the rules rewrite once and then refuse. */
  lemma EmbeddedCanRefuse()
    ensures var v := Object(map["note" := Text(EMBEDDED)]);
            var r := Redact(TOKEN_RULES, v, false);
            && Redactable(TOKEN_RULES, v, false) && NoNewSensitiveKey(TOKEN_RULES, v, false)
            && TOKEN_RULES.text("note") == ("note", multiset{})
            && r == Some((Object(map["note" := Text(EMBEDDED_AFTER)]), multiset{"GITHUB_TOKEN"}))
            && Redact(TOKEN_RULES, r.value.0, false).None?
  {
    hide Redact, K.IsSensitiveKey;
    K.NoteIsNotSensitive();
    assert "note"[0] == 'n' && "ghp_a"[0] == 'g' && EMBEDDED[0] == '{' && EMBEDDED_AFTER[0] == '{';
    assert EMBEDDED[2] == 'g' && EMBEDDED_AFTER[2] == '[';
    OnlyMember(TOKEN_RULES, "note", Text(EMBEDDED));
    OnlyMember(TOKEN_RULES, "note", Text(EMBEDDED_AFTER));
    assert multiset{} + multiset{"GITHUB_TOKEN"} == multiset{"GITHUB_TOKEN"};
    var v := Object(map["note" := Text(EMBEDDED)]);
    assert v.members["note"] == Text(EMBEDDED);
  }

  /** An object with one member. */
  lemma OnlyMember(rules: Rules, key: string, item: Json)
    requires item.Number? || item.Text?
    ensures Redact(rules, Object(map[key := item]), false) ==
            var r := OnlyItem(rules, item, rules.isSensitive(key));
            if rules.refuses(key) || r.None? then None
            else Some((Object(map[rules.text(key).0 := r.value.0]), rules.text(key).1 + r.value.1))
  {
    var v := Object(map[key := item]);
    var keys := Sorted(v.members.Keys);
    assert v.members.Keys == {key};
    assert keys == [key] by {
      assert keys[0] in set k | k in keys;
    }
    assert keys[1..] == [];
    var r := OnlyItem(rules, item, rules.isSensitive(key));
    assert Redact(rules, item, rules.isSensitive(key)) == r;
    assert RedactMembers(rules, v, [], false) == Some((map[], multiset{}));
    hide Redact;
    if !rules.refuses(key) && r.Some? {
      assert rules.text(key).1 + r.value.1 + multiset{} == rules.text(key).1 + r.value.1;
      assert RedactMembers(rules, v, keys, false)
             == Some((map[rules.text(key).0 := r.value.0], rules.text(key).1 + r.value.1));
    }
    RedactUnfolds(rules, v);
  }

  function OnlyItem(rules: Rules, item: Json, sensitive: bool): Option<(Json, multiset<string>)>
    requires item.Number? || item.Text?
  {
    if item.Number? then if sensitive then None else Some((item, multiset{}))
    else if sensitive then Some((Text(RedactField(item.text).0), RedactField(item.text).1))
    else if rules.refuses(item.text) then None
    else Some((Text(rules.text(item.text).0), rules.text(item.text).1))
  }

  lemma RedactUnfolds(rules: Rules, v: Json)
    requires v.Object?
    ensures Redact(rules, v, false) ==
            var r := RedactMembers(rules, v, Sorted(v.members.Keys), false);
            if r.None? then None else Some((Object(r.value.0), r.value.1))
  {
  }

  // ---- What is counted ----

  /** What redaction comes upon: every key, every text outside sensitive context and
      every text within it. */
  datatype Visit = Key(s: string) | Plain(s: string) | Hidden(s: string)

  function Visits(rules: Rules, v: Json, sensitive: bool): seq<Visit>
    decreases v, if v.Object? then |v.members| + 1 else 0
  {
    match v
    case Text(s) => [if sensitive then Hidden(s) else Plain(s)]
    case Array(items) => ItemVisits(rules, items, sensitive)
    case Object(members) => MemberVisits(rules, v, Sorted(members.Keys), sensitive)
    case _ => []
  }

  function ItemVisits(rules: Rules, items: seq<Json>, sensitive: bool): seq<Visit>
    decreases items, 0
  {
    if items == [] then [] else Visits(rules, items[0], sensitive) + ItemVisits(rules, items[1..], sensitive)
  }

  function MemberVisits(rules: Rules, v: Json, keys: seq<string>, sensitive: bool): seq<Visit>
    requires v.Object? && forall k :: k in keys ==> k in v.members
    decreases v, |keys|
  {
    if keys == [] then []
    else [Key(keys[0])] + Visits(rules, v.members[keys[0]], sensitive || rules.isSensitive(keys[0]))
         + MemberVisits(rules, v, keys[1..], sensitive)
  }

  /** How often a visit counts for a category: as often as the rules report it, or
      once for a hidden text that is not a sentinel already. */
  function Weight(rules: Rules, visit: Visit, category: string): nat {
    match visit
    case Hidden(s) => if category == "SENSITIVE_FIELD" && s !in APPROVED then 1 else 0
    case _ => rules.text(visit.s).1[category]
  }

  function Tally(rules: Rules, visits: seq<Visit>, category: string): nat {
    if visits == [] then 0 else Weight(rules, visits[0], category) + Tally(rules, visits[1..], category)
  }

  lemma {:induction false} TallyJoin(rules: Rules, a: seq<Visit>, b: seq<Visit>, category: string)
    ensures Tally(rules, a + b, category) == Tally(rules, a, category) + Tally(rules, b, category)
  {
    if a == [] {
      assert a + b == b;
    } else {
      assert (a + b)[1..] == a[1..] + b;
      TallyJoin(rules, a[1..], b, category);
    }
  }

  /** For every category the count is the sum over what was visited, and nothing
      else: the reports of the rules for each key and each text outside sensitive
      context, and one sensitive field for each hidden text but the sentinels. */
  lemma {:induction false} CountsExactly(rules: Rules, v: Json, sensitive: bool, category: string)
    requires Redact(rules, v, sensitive).Some?
    ensures Redact(rules, v, sensitive).value.1[category] == Tally(rules, Visits(rules, v, sensitive), category)
    decreases v, if v.Object? then |v.members| + 2 else 1
  {
    hide RedactItems, RedactMembers, ItemVisits, MemberVisits, Sorted, Least;
    match v
    case Text(s) =>
      assert Visits(rules, v, sensitive)[1..] == [];
    case Array(items) => ItemCountsExactly(rules, items, sensitive, category);
    case Object(members) => MemberCountsExactly(rules, v, Sorted(members.Keys), sensitive, category);
    case _ =>
  }

  lemma {:induction false} ItemCountsExactly(rules: Rules, items: seq<Json>, sensitive: bool, category: string)
    requires RedactItems(rules, items, sensitive).Some?
    ensures RedactItems(rules, items, sensitive).value.1[category] ==
            Tally(rules, ItemVisits(rules, items, sensitive), category)
    decreases items, 0
  {
    hide Redact, Visits;
    if items != [] {
      CountsExactly(rules, items[0], sensitive, category);
      ItemCountsExactly(rules, items[1..], sensitive, category);
      TallyJoin(
        rules, Visits(rules, items[0], sensitive), ItemVisits(rules, items[1..], sensitive), category);
    }
  }

  lemma {:induction false} MemberCountsExactly(
    rules: Rules, v: Json, keys: seq<string>, sensitive: bool, category: string)
    requires v.Object? && (forall k :: k in keys ==> k in v.members) && RedactMembers(rules, v, keys, sensitive).Some?
    ensures RedactMembers(rules, v, keys, sensitive).value.1[category] ==
            Tally(rules, MemberVisits(rules, v, keys, sensitive), category)
    decreases v, |keys|
  {
    hide Redact, Visits;
    if keys != [] {
      var within := sensitive || rules.isSensitive(keys[0]);
      var key, item := [Key(keys[0])], Visits(rules, v.members[keys[0]], within);
      CountsExactly(rules, v.members[keys[0]], within, category);
      MemberCountsExactly(rules, v, keys[1..], sensitive, category);
      TallyJoin(rules, key, item, category);
      TallyJoin(rules, key + item, MemberVisits(rules, v, keys[1..], sensitive), category);
      assert key[1..] == [];
    }
  }

  /** Every text leaf and every key is visited, in the context it stands in. */
  lemma {:induction false} EveryKeyIsVisited(rules: Rules, v: Json, keys: seq<string>, sensitive: bool, key: string)
    requires v.Object? && (forall k :: k in keys ==> k in v.members) && key in keys
    ensures Key(key) in MemberVisits(rules, v, keys, sensitive)
    ensures forall visit :: visit in Visits(rules, v.members[key], sensitive || rules.isSensitive(key)) ==>
              visit in MemberVisits(rules, v, keys, sensitive)
    decreases |keys|
  {
    hide Visits;
    if key != keys[0] { EveryKeyIsVisited(rules, v, keys[1..], sensitive, key); }
  }

  // ---- The report ----

  /** The categories with a count, by name: `_report`. */
  function Categories(counts: multiset<string>, names: seq<string>): seq<(string, nat)> {
    if names == [] then [] else [(names[0], counts[names[0]])] + Categories(counts, names[1..])
  }

  function Total(categories: seq<(string, nat)>): nat {
    if categories == [] then 0 else categories[0].1 + Total(categories[1..])
  }

  function Report(counts: multiset<string>): (nat, seq<(string, nat)>) {
    var categories := Categories(counts, Sorted(set name | name in counts));
    (Total(categories), categories)
  }

  lemma {:induction false} TotalIsCardinality(counts: multiset<string>, names: set<string>)
    requires names == set name | name in counts
    ensures Total(Categories(counts, Sorted(names))) == |counts|
  {
    if names == {} {
      assert forall name :: name !in counts by {
        forall name ensures name !in counts {
          assert name in counts <==> name in names;
        }
      }
      assert counts == multiset{};
    } else {
      var first := Least(names);
      var rest := counts[first := 0];
      assert names - {first} == set name | name in rest;
      TotalIsCardinality(rest, names - {first});
      var tail := Sorted(names - {first});
      SortedIsDistinct(names - {first});
      SameCategories(counts, rest, tail);
      assert Sorted(names) == [first] + tail;
      assert Sorted(names)[1..] == tail;
      assert Categories(counts, Sorted(names))[1..] == Categories(counts, tail);
    }
  }

  lemma {:induction false} SameCategories(a: multiset<string>, b: multiset<string>, names: seq<string>)
    requires forall name :: name in names ==> a[name] == b[name]
    ensures Categories(a, names) == Categories(b, names)
  {
    if names != [] { SameCategories(a, b, names[1..]); }
  }

  /** The reported total is the number of replacements, and the sum of the reported
      categories: each category that has a count, with that count, once and in
      ascending order. */
  lemma ReportAddsUp(counts: multiset<string>)
    ensures Report(counts).0 == |counts| == Total(Report(counts).1)
    ensures forall name, n :: (name, n) in Report(counts).1 <==> n > 0 && counts[name] == n
    ensures var r := Report(counts).1; forall i, j :: 0 <= i < j < |r| ==> F.Before(r[i].0, r[j].0)
  {
    var names := Sorted(set name | name in counts);
    TotalIsCardinality(counts, set name | name in counts);
    F.SortedAscends(set name | name in counts);
    CategoriesCount(counts, names);
    forall name, n ensures (name, n) in Report(counts).1 <==> n > 0 && counts[name] == n {
      assert name in names <==> name in counts;
      if name in names {
        var k :| 0 <= k < |names| && names[k] == name;
        assert Categories(counts, names)[k] == (name, counts[name]);
      }
    }
  }

  lemma {:induction false} CategoriesCount(counts: multiset<string>, names: seq<string>)
    ensures |Categories(counts, names)| == |names|
    ensures forall k :: 0 <= k < |names| ==> Categories(counts, names)[k] == (names[k], counts[names[k]])
  {
    if names != [] {
      CategoriesCount(counts, names[1..]);
    }
  }
}
