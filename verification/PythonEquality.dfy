/** Python's `==` on JSON values, which looks through the type of a number:
    `1 == 1.0 == True`. Canonical text does not. */
module PythonEquality {
  import opened JsonText
  import C = CanonicalJson

  /** `v == w`. */
  predicate Same(v: Json, w: Json)
    decreases v
  {
    match v
    case Null => w.Null?
    case Bool(_) => NumberOf(w) == NumberOf(v)
    case Number(_) => NumberOf(w) == NumberOf(v)
    case Float(_) => NumberOf(w) == NumberOf(v)
    case Text(_) => w == v
    case Array(items) =>
      w.Array? && |w.items| == |items| && forall k :: 0 <= k < |items| ==> Same(items[k], w.items[k])
    case Object(members) =>
      w.Object? && w.members.Keys == members.Keys && forall k :: k in members ==> Same(members[k], w.members[k])
  }

  /** The number a value stands for, in a sequence that is empty for no number. */
  function NumberOf(v: Json): seq<int> {
    match v
    case Bool(flag) => [if flag then 1 else 0]
    case Number(n) => [n]
    case Float(n) => [n]
    case _ => []
  }

  lemma {:induction false} SameIsReflexive(v: Json)
    ensures Same(v, v)
    decreases v
  {
    match v
    case Array(items) => forall k | 0 <= k < |items| ensures Same(items[k], items[k]) { SameIsReflexive(items[k]); }
    case Object(members) =>
      forall k | k in members ensures Same(members[k], members[k]) { SameIsReflexive(members[k]); }
    case _ =>
  }

  lemma {:induction false} SameIsSymmetric(v: Json, w: Json)
    requires Same(v, w)
    ensures Same(w, v)
    decreases v
  {
    match v
    case Array(items) =>
      forall k | 0 <= k < |items| ensures Same(w.items[k], items[k]) { SameIsSymmetric(items[k], w.items[k]); }
    case Object(members) =>
      forall k | k in members ensures Same(w.members[k], members[k]) { SameIsSymmetric(members[k], w.members[k]); }
    case _ =>
  }

  /** A boolean, or a number some float holds exactly, anywhere in the value. */
  predicate IsAmbiguous(v: Json)
    decreases v
  {
    match v
    case Bool(_) => true
    case Number(n) => -MAX_WHOLE <= n <= MAX_WHOLE
    case Float(_) => true
    case Array(items) => exists k :: 0 <= k < |items| && IsAmbiguous(items[k])
    case Object(members) => exists k :: k in members && IsAmbiguous(members[k])
    case _ => false
  }

  lemma {:induction false} OnlyItself(v: Json, w: Json)
    requires Same(v, w) && !IsAmbiguous(v)
    ensures v == w
    decreases v
  {
    match v
    case Array(items) =>
      forall k | 0 <= k < |items| ensures items[k] == w.items[k] { OnlyItself(items[k], w.items[k]); }
      assert items == w.items;
    case Object(members) =>
      forall k | k in members ensures members[k] == w.members[k] { OnlyItself(members[k], w.members[k]); }
      assert members == w.members;
    case _ =>
  }

  lemma {:induction false} AnotherValue(v: Json) returns (w: Json)
    requires IsAmbiguous(v)
    ensures Same(v, w) && v != w
    decreases v
  {
    match v
    case Bool(flag) => w := Number(if flag then 1 else 0);
    case Number(n) => w := Float(n);
    case Float(n) => w := Number(n);
    case Array(items) =>
      var k :| 0 <= k < |items| && IsAmbiguous(items[k]);
      var item := AnotherValue(items[k]);
      w := Array(items[k := item]);
      forall j | 0 <= j < |items| ensures Same(items[j], w.items[j]) { SameIsReflexive(items[j]); }
      assert w.items[k] != items[k];
    case Object(members) =>
      var k :| k in members && IsAmbiguous(members[k]);
      var item := AnotherValue(members[k]);
      w := Object(members[k := item]);
      forall j | j in members ensures Same(members[j], w.members[j]) { SameIsReflexive(members[j]); }
      assert w.members[k] != members[k];
  }

  /** A value equals one with another canonical text exactly when it is ambiguous. */
  lemma AmbiguousExactly(v: Json)
    ensures IsAmbiguous(v) <==> exists w :: Same(v, w) && Encode(w) != Encode(v)
  {
    if IsAmbiguous(v) {
      var w := AnotherValue(v);
      C.EncodeIsInjective(v, w);
    }
    forall w | Same(v, w) && Encode(w) != Encode(v) ensures IsAmbiguous(v) {
      if !IsAmbiguous(v) { OnlyItself(v, w); }
    }
  }
}
