/** Collection of the Snapshot and the allocation of its Evidence IDs,
    `snapshot.py`. */
module SnapshotIds {
  import opened Options
  import opened JsonText
  import opened Domain
  import opened CanonicalJson
  import F = CanonicalForm

  // ---- The stable sort by source ----

  /** `sorted` with the source and then the position as key: an item goes before
      the first one whose source is greater. */
  function Insert(item: Evidence, sorted: seq<Evidence>): seq<Evidence> {
    if sorted == [] || Leq(item.source, sorted[0].source) then [item] + sorted
    else [sorted[0]] + Insert(item, sorted[1..])
  }

  function SortBySource(evidence: seq<Evidence>): seq<Evidence> {
    if evidence == [] then [] else Insert(evidence[0], SortBySource(evidence[1..]))
  }

  ghost predicate SortedBySource(s: seq<Evidence>) {
    forall i, j :: 0 <= i < j < |s| ==> Leq(s[i].source, s[j].source)
  }

  /** The items of one source, in order. */
  function OfSource(s: seq<Evidence>, source: string): seq<Evidence> {
    if s == [] then [] else (if s[0].source == source then [s[0]] else []) + OfSource(s[1..], source)
  }

  lemma PrependSorted(first: Evidence, s: seq<Evidence>)
    requires SortedBySource(s) && forall e :: e in s ==> Leq(first.source, e.source)
    ensures SortedBySource([first] + s)
  {
    forall j | 0 < j <= |s| ensures Leq(first.source, ([first] + s)[j].source) {
      assert ([first] + s)[j] in s;
    }
  }

  lemma {:induction false} InsertPermutes(item: Evidence, s: seq<Evidence>)
    ensures multiset(Insert(item, s)) == multiset(s) + multiset{item} && |Insert(item, s)| == |s| + 1
    ensures forall e :: e in Insert(item, s) <==> e == item || e in s
  {
    if s != [] && !Leq(item.source, s[0].source) {
      InsertPermutes(item, s[1..]);
      assert s == [s[0]] + s[1..];
    }
  }

  lemma {:induction false} InsertSorts(item: Evidence, s: seq<Evidence>)
    requires SortedBySource(s)
    ensures SortedBySource(Insert(item, s))
  {
    if s == [] || Leq(item.source, s[0].source) {
      forall e | e in s ensures Leq(item.source, e.source) {
        var k :| 0 <= k < |s| && s[k] == e;
        if k > 0 { LeqIsTransitive(item.source, s[0].source, e.source); }
      }
      PrependSorted(item, s);
    } else {
      LeqIsTotal(item.source, s[0].source);
      InsertSorts(item, s[1..]);
      InsertPermutes(item, s[1..]);
      forall e | e in Insert(item, s[1..]) ensures Leq(s[0].source, e.source) {
        if e != item {
          var k :| 0 < k < |s| && s[k] == e;
        }
      }
      PrependSorted(s[0], Insert(item, s[1..]));
    }
  }

  /** An item goes before those of its own source and past others only. */
  lemma {:induction false} InsertIsStable(item: Evidence, s: seq<Evidence>, source: string)
    ensures OfSource(Insert(item, s), source) == (if item.source == source then [item] else []) + OfSource(s, source)
  {
    if s == [] || Leq(item.source, s[0].source) {
      assert ([item] + s)[1..] == s;
    } else {
      LeqIsTotal(item.source, s[0].source);
      InsertIsStable(item, s[1..], source);
      assert ([s[0]] + Insert(item, s[1..]))[1..] == Insert(item, s[1..]);
      if item.source == s[0].source {
        LeqIsTotal(item.source, item.source);
        assert false;
      }
    }
  }

  lemma {:induction false} SortSorts(evidence: seq<Evidence>)
    ensures SortedBySource(SortBySource(evidence)) && multiset(SortBySource(evidence)) == multiset(evidence)
    ensures |SortBySource(evidence)| == |evidence|
    ensures forall source :: OfSource(SortBySource(evidence), source) == OfSource(evidence, source)
  {
    if evidence != [] {
      SortSorts(evidence[1..]);
      var rest := SortBySource(evidence[1..]);
      InsertSorts(evidence[0], rest);
      InsertPermutes(evidence[0], rest);
      forall source ensures OfSource(SortBySource(evidence), source) == OfSource(evidence, source) {
        InsertIsStable(evidence[0], rest, source);
      }
      assert evidence == [evidence[0]] + evidence[1..];
    }
  }

  lemma {:induction false} SortedStays(s: seq<Evidence>)
    requires SortedBySource(s)
    ensures SortBySource(s) == s
  {
    if s != [] {
      SortedStays(s[1..]);
      assert s == [s[0]] + s[1..];
    }
  }

  // ---- The IDs ----

  /** `f"E-{index:03d}"`. */
  function EvidenceId(index: nat): string {
    "E-" + Padded(index)
  }

  function Padded(index: nat): (s: string)
    ensures |s| >= 3 && forall c :: c in s ==> IsDigit(c)
  {
    var digits := Decimal(index);
    if |digits| == 1 then "00" + digits else if |digits| == 2 then "0" + digits else digits
  }

  lemma {:induction false} ZeroAddsNothing(digits: string)
    requires forall c :: c in digits ==> IsDigit(c)
    ensures NatOf("0" + digits) == NatOf(digits)
  {
    var s := "0" + digits;
    if digits == "" {
      assert s[..|s| - 1] == "";
    } else {
      ZeroAddsNothing(digits[..|digits| - 1]);
      assert s[..|s| - 1] == "0" + digits[..|digits| - 1];
    }
  }

  lemma PaddedReads(index: nat)
    ensures NatOf(Padded(index)) == index
  {
    var digits := Decimal(index);
    DecimalReads(index, "");
    ZeroAddsNothing(digits);
    if |digits| == 1 {
      ZeroAddsNothing("0" + digits);
      assert "00" + digits == "0" + ("0" + digits);
    }
  }

  /** IDs are distinct for any number of items, also past three digits. */
  lemma IdsDiffer(i: nat, j: nat)
    requires EvidenceId(i) == EvidenceId(j)
    ensures i == j
  {
    PaddedReads(i);
    PaddedReads(j);
    assert EvidenceId(i)[2..] == Padded(i) && EvidenceId(j)[2..] == Padded(j);
  }

  // ---- Allocation ----

  function Renamed(s: seq<Evidence>): (r: seq<Evidence>)
    ensures |r| == |s| && forall k :: 0 <= k < |r| ==> r[k] == s[k].(id := EvidenceId(k + 1))
  {
    seq(|s|, k requires 0 <= k < |s| => s[k].(id := EvidenceId(k + 1)))
  }

  /** `_allocate_evidence_ids`. */
  function Allocate(evidence: seq<Evidence>): seq<Evidence> {
    Renamed(SortBySource(evidence))
  }

  /** The items with the IDs their collectors gave them taken away. */
  function Anonymous(s: seq<Evidence>): (r: seq<Evidence>)
    ensures |r| == |s| && forall k :: 0 <= k < |r| ==> r[k] == s[k].(id := "")
  {
    seq(|s|, k requires 0 <= k < |s| => s[k].(id := ""))
  }

  lemma {:induction false} InsertIgnoresIds(item: Evidence, s: seq<Evidence>)
    ensures Anonymous(Insert(item, s)) == Insert(item.(id := ""), Anonymous(s))
  {
    if s != [] && !Leq(item.source, s[0].source) {
      InsertIgnoresIds(item, s[1..]);
      assert Anonymous(s)[1..] == Anonymous(s[1..]);
      assert Anonymous(Insert(item, s)) == [s[0].(id := "")] + Anonymous(Insert(item, s[1..]));
    } else {
      assert Anonymous([item] + s) == [item.(id := "")] + Anonymous(s);
    }
  }

  lemma {:induction false} SortIgnoresIds(evidence: seq<Evidence>)
    ensures Anonymous(SortBySource(evidence)) == SortBySource(Anonymous(evidence))
  {
    if evidence != [] {
      SortIgnoresIds(evidence[1..]);
      InsertIgnoresIds(evidence[0], SortBySource(evidence[1..]));
      assert Anonymous(evidence)[1..] == Anonymous(evidence[1..]);
    }
  }

  /** Allocation looks at no collector-local ID: items that differ in nothing else
      are allocated alike. */
  lemma AllocationIgnoresIds(a: seq<Evidence>, b: seq<Evidence>)
    requires Anonymous(a) == Anonymous(b)
    ensures Allocate(a) == Allocate(b)
  {
    SortIgnoresIds(a);
    SortIgnoresIds(b);
    var s, t := SortBySource(a), SortBySource(b);
    assert |s| == |Anonymous(s)| == |Anonymous(t)| == |t|;
    forall k | 0 <= k < |s| ensures Allocate(a)[k] == Allocate(b)[k] {
      assert Anonymous(s)[k] == Anonymous(t)[k];
      assert s[k].(id := EvidenceId(k + 1)) == Anonymous(s)[k].(id := EvidenceId(k + 1));
      assert t[k].(id := EvidenceId(k + 1)) == Anonymous(t)[k].(id := EvidenceId(k + 1));
    }
  }

  /** Allocation is a permutation in ascending order of source that keeps the order
      within each source, its IDs count from `E-001`, and the Snapshot it makes
      passes its duplicate check. */
  lemma AllocationIsStable(evidence: seq<Evidence>)
    ensures SortedBySource(Allocate(evidence)) && |Allocate(evidence)| == |evidence|
    ensures var r := Allocate(evidence);
            forall i, j :: 0 <= i < j < |r| ==> r[i].source == r[j].source || F.Before(r[i].source, r[j].source)
    ensures forall k :: 0 <= k < |evidence| ==>
              var id := Allocate(evidence)[k].id;
              |id| >= 5 && id[..2] == "E-" && (forall c :: c in id[2..] ==> IsDigit(c)) && NatOf(id[2..]) == k + 1
    ensures multiset(Anonymous(Allocate(evidence))) == multiset(Anonymous(evidence))
    ensures forall source :: OfSource(Anonymous(Allocate(evidence)), source) == OfSource(Anonymous(evidence), source)
    ensures Distinct(IdsOf(Allocate(evidence)))
  {
    hide *;
    AllocationPermutes(evidence);
    SourcesAscend(Allocate(evidence));
    IdsCount(evidence);
  }

  lemma AllocationPermutes(evidence: seq<Evidence>)
    ensures SortedBySource(Allocate(evidence)) && |Allocate(evidence)| == |evidence|
    ensures multiset(Anonymous(Allocate(evidence))) == multiset(Anonymous(evidence))
    ensures forall source :: OfSource(Anonymous(Allocate(evidence)), source) == OfSource(Anonymous(evidence), source)
    ensures Distinct(IdsOf(Allocate(evidence)))
  {
    SortSorts(evidence);
    SortSorts(Anonymous(evidence));
    SortIgnoresIds(evidence);
    assert Anonymous(Allocate(evidence)) == Anonymous(SortBySource(evidence));
    forall i, j | 0 <= i < j < |evidence| ensures IdsOf(Allocate(evidence))[i] != IdsOf(Allocate(evidence))[j] {
      if EvidenceId(i + 1) == EvidenceId(j + 1) { IdsDiffer(i + 1, j + 1); }
    }
  }

  lemma IdsCount(evidence: seq<Evidence>)
    ensures |Allocate(evidence)| == |evidence|
    ensures forall k :: 0 <= k < |evidence| ==>
              var id := Allocate(evidence)[k].id;
              |id| >= 5 && id[..2] == "E-" && (forall c :: c in id[2..] ==> IsDigit(c)) && NatOf(id[2..]) == k + 1
  {
    hide EvidenceId, NatOf;
    SortSorts(evidence);
    forall k | 0 <= k < |evidence|
      ensures var id := Allocate(evidence)[k].id;
              |id| >= 5 && id[..2] == "E-" && (forall c :: c in id[2..] ==> IsDigit(c)) && NatOf(id[2..]) == k + 1
    {
      IdCounts(k + 1);
    }
  }

  lemma SourcesAscend(r: seq<Evidence>)
    requires SortedBySource(r)
    ensures forall i, j :: 0 <= i < j < |r| ==> r[i].source == r[j].source || F.Before(r[i].source, r[j].source)
  {
    forall i, j | 0 <= i < j < |r| ensures r[i].source == r[j].source || F.Before(r[i].source, r[j].source) {
      F.LeqExactly(r[i].source, r[j].source);
    }
  }

  lemma IdCounts(n: nat)
    ensures var id := EvidenceId(n);
            |id| >= 5 && id[..2] == "E-" && (forall c :: c in id[2..] ==> IsDigit(c)) && NatOf(id[2..]) == n
  {
    PaddedReads(n);
    assert EvidenceId(n)[2..] == Padded(n);
  }

  lemma AllocationIsIdempotent(evidence: seq<Evidence>)
    ensures Allocate(Allocate(evidence)) == Allocate(evidence)
  {
    AllocationIsStable(evidence);
    SortedStays(Allocate(evidence));
  }

  // ---- Collection ----

  datatype Collected = Evidences(items: seq<Evidence>) | CollectorError(code: string)

  /** The evidence of the collectors that answered, and the failures of the rest. */
  function AllEvidence(outcomes: seq<Collected>): seq<Evidence> {
    if outcomes == [] then []
    else AllEvidence(outcomes[..|outcomes| - 1])
         + match outcomes[|outcomes| - 1] case Evidences(items) => items case CollectorError(_) => []
  }

  function AllFailures(outcomes: seq<Collected>): seq<string> {
    if outcomes == [] then []
    else AllFailures(outcomes[..|outcomes| - 1])
         + match outcomes[|outcomes| - 1] case Evidences(_) => [] case CollectorError(code) => [code]
  }

  /** Every collector has its part in the whole, whatever becomes of the others: its
      items all together and in order, or its failure once. */
  lemma EachHasItsPart(before: seq<Collected>, outcome: Collected, after: seq<Collected>)
    ensures AllEvidence([]) == [] && AllFailures([]) == []
    ensures AllEvidence(before + [outcome] + after) ==
            AllEvidence(before) + (if outcome.Evidences? then outcome.items else []) + AllEvidence(after)
    ensures AllFailures(before + [outcome] + after) ==
            AllFailures(before) + (if outcome.Evidences? then [] else [outcome.code]) + AllFailures(after)
  {
    PartsJoin(before, [outcome]);
    PartsJoin(before + [outcome], after);
    assert [outcome][..0] == [];
  }

  lemma {:induction false} PartsJoin(a: seq<Collected>, b: seq<Collected>)
    ensures AllEvidence(a + b) == AllEvidence(a) + AllEvidence(b)
    ensures AllFailures(a + b) == AllFailures(a) + AllFailures(b)
    decreases |b|
  {
    hide AllEvidence, AllFailures;
    if b == [] {
      assert a + b == a;
      NothingCollected();
    } else {
      var front, last := b[..|b| - 1], b[|b| - 1];
      PartsJoin(a, front);
      OneMore(a + front, last);
      OneMore(front, last);
      assert a + b == a + front + [last] && b == front + [last];
    }
  }

  lemma NothingCollected()
    ensures AllEvidence([]) == [] && AllFailures([]) == []
  {
  }

  lemma OneMore(before: seq<Collected>, outcome: Collected)
    ensures AllEvidence(before + [outcome]) == AllEvidence(before) + if outcome.Evidences? then outcome.items else []
    ensures AllFailures(before + [outcome]) == AllFailures(before) + if outcome.Evidences? then [] else [outcome.code]
  {
    assert (before + [outcome])[..|before|] == before;
  }

  /** What the Snapshot holds of one collector: each of its items under a new ID, or
      its failure. */
  lemma CollectorIsHeard(outcomes: seq<Collected>, k: nat)
    requires k < |outcomes|
    ensures match outcomes[k]
            case Evidences(items) =>
              forall e :: e in items ==> exists r :: r in Allocate(AllEvidence(outcomes)) && r == e.(id := r.id)
            case CollectorError(code) => code in AllFailures(outcomes)
  {
    EachHasItsPart(outcomes[..k], outcomes[k], outcomes[k + 1..]);
    assert outcomes == outcomes[..k] + [outcomes[k]] + outcomes[k + 1..];
    if outcomes[k].Evidences? {
      forall e | e in outcomes[k].items
        ensures exists r :: r in Allocate(AllEvidence(outcomes)) && r == e.(id := r.id)
      {
        ItemIsAllocated(AllEvidence(outcomes), e);
      }
    }
  }

  lemma ItemIsAllocated(evidence: seq<Evidence>, e: Evidence)
    requires e in evidence
    ensures exists r :: r in Allocate(evidence) && r == e.(id := r.id)
  {
    SortSorts(evidence);
    var s := SortBySource(evidence);
    assert e in multiset(evidence);
    assert e in multiset(s);
    var k :| 0 <= k < |s| && s[k] == e;
    assert Allocate(evidence)[k] == e.(id := EvidenceId(k + 1));
  }

  /** `SnapshotCollector.collect`: a failing collector never hides the others, and
      the Snapshot is never refused for a duplicate ID. */
  method Collect(outcomes: seq<Collected>) returns (snapshot: Snapshot)
    ensures snapshot == Snapshot(Allocate(AllEvidence(outcomes)), AllFailures(outcomes))
    ensures Distinct(IdsOf(snapshot.evidence))
  {
    var evidence: seq<Evidence>, failures: seq<string> := [], [];
    for k := 0 to |outcomes|
      invariant evidence == AllEvidence(outcomes[..k]) && failures == AllFailures(outcomes[..k])
    {
      assert outcomes[..k + 1][..k] == outcomes[..k];
      match outcomes[k] {
        case Evidences(items) => evidence := evidence + items;
        case CollectorError(code) => failures := failures + [code];
      }
    }
    assert outcomes[..|outcomes|] == outcomes;
    AllocationIsStable(evidence);
    snapshot := Snapshot(Allocate(evidence), failures);
  }
}
