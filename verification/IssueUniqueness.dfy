/** At most one Issue per incident, given bounds on how long an attempt can
    act and on how far clocks drift. The bounds are exact. */
module IssueUniqueness {
  import opened Options
  import opened StateTable
  import opened DeliveryProtocol
  import opened DeliverySafety
  import opened DeliveryProgress

  /** How many seconds after its start an attempt can still have an effect, and
      how far a local clock may be from the true one. */
  datatype Bounds = Bounds(life: nat, skew: nat)

  predicate Alive(s: Sys, id: AttemptId, b: Bounds)
    requires id in s.attempts
  {
    s.clock <= s.attempts[id].start + b.life
  }

  /** A step of a live attempt whose clock reading was taken since it started,
      and whose Issue search sees every Issue already created. */
  ghost predicate Timely(s: Sys, l: Label, b: Bounds)
    requires Enabled(s, l)
  {
    match l
    case Tick(_) => true
    case Start(_, _) => true
    case Crash(_) => true
    case Write(id, now, _) => Alive(s, id, b) && s.attempts[id].start - b.skew <= now <= s.clock + b.skew
    case Find(id, found) =>
      Alive(s, id, b) && (found.None? ==> NoIssue(s, IncidentIdFor(s.attempts[id].event)))
    case _ => Alive(s, l.id, b)
  }

  ghost predicate AllTimely(s: Sys, labels: seq<Label>, b: Bounds)
    requires IsRun(s, labels)
    decreases |labels|
  {
    labels == [] || (Timely(s, labels[0], b) && AllTimely(Apply(s, labels[0]), labels[1..], b))
  }

  predicate NoIssue(s: Sys, i: IncidentId) {
    forall n :: n in s.issues ==> s.issues[n] != i
  }

  ghost predicate AtMostOneIssueEach(s: Sys) {
    forall m, n :: m in s.issues && n in s.issues && s.issues[m] == s.issues[n] ==> m == n
  }

  /** A live publishing attempt owns its item, under a lease as late as any
      reading of its clock allows. */
  predicate HoldsLease(s: Sys, id: AttemptId, b: Bounds)
    requires id in s.attempts
  {
    var a := s.attempts[id];
    && a.event in s.table
    && s.table[a.event].attempt == id
    && s.table[a.event].status != Retryable
    && s.table[a.event].lease >= a.start - b.skew + ATTEMPT_LEASE_SECONDS
  }

  ghost predicate Exclusive(s: Sys, b: Bounds) {
    && AtMostOneIssueEach(s)
    && (forall id :: id in s.attempts && Publishing(s.attempts[id].pc) && Alive(s, id, b) ==> HoldsLease(s, id, b))
    && (forall id :: id in s.attempts && s.attempts[id].pc.Creating? && Alive(s, id, b) ==>
          NoIssue(s, IncidentIdFor(s.attempts[id].event)))
  }

  /** No two live attempts publish the same event at once. */
  lemma LiveAttemptsExclude(s: Sys, b: Bounds, id: AttemptId, other: AttemptId)
    requires Exclusive(s, b) && id in s.attempts && other in s.attempts && id != other
    requires Publishing(s.attempts[id].pc) && Alive(s, id, b)
    requires Publishing(s.attempts[other].pc) && Alive(s, other, b)
    ensures s.attempts[id].event != s.attempts[other].event
  {
    assert HoldsLease(s, id, b) && HoldsLease(s, other, b);
  }

  lemma LeaseIsKept(s: Sys, l: Label, b: Bounds, id: AttemptId)
    requires b.life + 2 * b.skew <= ATTEMPT_LEASE_SECONDS
    requires Enabled(s, l) && Timely(s, l, b) && Exclusive(s, b)
    requires id in Apply(s, l).attempts && Publishing(Apply(s, l).attempts[id].pc) && Alive(Apply(s, l), id, b)
    ensures HoldsLease(Apply(s, l), id, b)
  {
    if l.Write? && l.id != id {
      assert HoldsLease(s, id, b);
      LiveLeaseIsNotTaken(s, l, b, id);
    } else if l.Write? {
      OwnLeaseIsKept(s, l, b);
    }
  }

  /** A takeover needs an expired lease, and then `id` is no longer alive. */
  lemma LiveLeaseIsNotTaken(s: Sys, l: Label, b: Bounds, id: AttemptId)
    requires b.life + 2 * b.skew <= ATTEMPT_LEASE_SECONDS
    requires l.Write? && l.id != id && Enabled(s, l) && Timely(s, l, b)
    requires id in s.attempts && Alive(s, id, b) && HoldsLease(s, id, b)
    ensures HoldsLease(ApplyWrite(s, l.id, l.now, l.reply), id, b)
  {
  }

  lemma OwnLeaseIsKept(s: Sys, l: Label, b: Bounds)
    requires l.Write? && Enabled(s, l) && Timely(s, l, b)
    requires Publishing(s.attempts[l.id].pc) && Alive(s, l.id, b) ==> HoldsLease(s, l.id, b)
    requires Publishing(ApplyWrite(s, l.id, l.now, l.reply).attempts[l.id].pc)
    ensures HoldsLease(ApplyWrite(s, l.id, l.now, l.reply), l.id, b)
  {
  }

  lemma SearchStaysTrue(s: Sys, l: Label, b: Bounds, id: AttemptId)
    requires Enabled(s, l) && Timely(s, l, b) && Exclusive(s, b)
    requires id in Apply(s, l).attempts && Apply(s, l).attempts[id].pc.Creating? && Alive(Apply(s, l), id, b)
    ensures NoIssue(Apply(s, l), IncidentIdFor(s.attempts[id].event))
  {
    if l.Create? && l.id != id {
      LiveAttemptsExclude(s, b, id, l.id);
      if IncidentIdFor(s.attempts[id].event) == IncidentIdFor(s.attempts[l.id].event) {
        IncidentIdsAreInjective(s.attempts[id].event, s.attempts[l.id].event);
        assert false;
      }
    }
  }

  lemma StepKeepsExclusive(s: Sys, l: Label, b: Bounds)
    requires b.life + 2 * b.skew <= ATTEMPT_LEASE_SECONDS
    requires Enabled(s, l) && Timely(s, l, b) && Exclusive(s, b)
    ensures Exclusive(Apply(s, l), b)
  {
    var t := Apply(s, l);
    forall id | id in t.attempts && Publishing(t.attempts[id].pc) && Alive(t, id, b) ensures HoldsLease(t, id, b) {
      LeaseIsKept(s, l, b, id);
    }
    forall id | id in t.attempts && t.attempts[id].pc.Creating? && Alive(t, id, b)
      ensures NoIssue(t, IncidentIdFor(t.attempts[id].event))
    {
      SearchStaysTrue(s, l, b, id);
    }
  }

  lemma {:induction false} RunKeepsExclusive(s: Sys, labels: seq<Label>, b: Bounds)
    requires b.life + 2 * b.skew <= ATTEMPT_LEASE_SECONDS
    requires IsRun(s, labels) && AllTimely(s, labels, b) && Exclusive(s, b)
    ensures Exclusive(Final(s, labels), b)
    decreases |labels|
  {
    if labels != [] {
      StepKeepsExclusive(s, labels[0], b);
      RunKeepsExclusive(Apply(s, labels[0]), labels[1..], b);
    }
  }

  ghost predicate AlwaysAtMostOneIssue(b: Bounds) {
    forall labels :: IsRun(Initial, labels) && AllTimely(Initial, labels, b) ==>
      AtMostOneIssueEach(Final(Initial, labels))
  }

  /** Enough room in the lease makes duplicates impossible. */
  lemma RoomIsSufficient(b: Bounds)
    requires b.life + 2 * b.skew <= ATTEMPT_LEASE_SECONDS
    ensures AlwaysAtMostOneIssue(b)
  {
    forall labels | IsRun(Initial, labels) && AllTimely(Initial, labels, b)
      ensures AtMostOneIssueEach(Final(Initial, labels))
    {
      RunKeepsExclusive(Initial, labels, b);
    }
  }

  lemma {:induction false} AppendTimely(s: Sys, first: seq<Label>, second: seq<Label>, b: Bounds)
    requires IsRun(s, first) && AllTimely(s, first, b)
    requires IsRun(Final(s, first), second) && AllTimely(Final(s, first), second, b)
    ensures IsRun(s, first + second) && AllTimely(s, first + second, b)
    ensures Final(s, first + second) == Final(Final(s, first), second)
    decreases |first|
  {
    if first == [] {
      assert first + second == second;
    } else {
      AppendTimely(Apply(s, first[0]), first[1..], second, b);
      assert (first + second)[1..] == first[1..] + second;
    }
  }

  /** A live attempt reaches its call to create an Issue without any time
      passing, as long as no Issue exists yet. */
  lemma {:induction false} DriveToCreating(s: Sys, id: AttemptId, e: EventId, t: nat, b: Bounds)
    returns (labels: seq<Label>)
    requires OnItsWay(s, id, e, t) && s.table[e].lease == t + ATTEMPT_LEASE_SECONDS
    requires Remaining(s.attempts[id].pc) >= 9
    requires s.issues == map[] && Alive(s, id, b) && s.attempts[id].start - b.skew <= t <= s.clock + b.skew
    ensures IsRun(s, labels) && AllTimely(s, labels, b)
    ensures var f := Final(s, labels);
            && OnItsWay(f, id, e, t) && f.table[e].lease == t + ATTEMPT_LEASE_SECONDS
            && f.attempts == s.attempts[id := s.attempts[id].(pc := Creating)]
            && f.issues == map[] && f.clock == s.clock
    decreases Remaining(s.attempts[id].pc)
  {
    assert id in s.attempts && e in s.table;
    hide NextLabel, OnItsWay, Enabled, Apply, Timely, Alive;
    labels := [];
    if !s.attempts[id].pc.Creating? {
      var l := DriveOn(s, id, e, t, b);
      var rest := DriveToCreating(Apply(s, l), id, e, t, b);
      labels := [l] + rest;
      assert labels[1..] == rest;
    } else {
      assert s.attempts == s.attempts[id := s.attempts[id].(pc := Creating)];
    }
  }

  /** One step on the way to the Issue. */
  lemma DriveOn(s: Sys, id: AttemptId, e: EventId, t: nat, b: Bounds) returns (l: Label)
    requires OnItsWay(s, id, e, t) && s.table[e].lease == t + ATTEMPT_LEASE_SECONDS
    requires Remaining(s.attempts[id].pc) >= 9 && !s.attempts[id].pc.Creating?
    requires s.issues == map[] && Alive(s, id, b) && s.attempts[id].start - b.skew <= t <= s.clock + b.skew
    ensures Enabled(s, l) && Timely(s, l, b)
    ensures var f := Apply(s, l);
            && OnItsWay(f, id, e, t) && f.table[e].lease == t + ATTEMPT_LEASE_SECONDS
            && 9 <= Remaining(f.attempts[id].pc) < Remaining(s.attempts[id].pc)
            && f.attempts == s.attempts[id := s.attempts[id].(pc := f.attempts[id].pc)]
            && f.issues == map[] && f.clock == s.clock && Alive(f, id, b)
  {
    l := NextLabel(s, id, e, t, 0);
    StepMakesProgress(s, l, id, e, t);
  }

  lemma Unroll2(s: Sys, ls: seq<Label>, b: Bounds)
    requires |ls| == 2
    requires Enabled(s, ls[0]) && Timely(s, ls[0], b)
    requires var s1 := Apply(s, ls[0]); Enabled(s1, ls[1]) && Timely(s1, ls[1], b)
    ensures IsRun(s, ls) && AllTimely(s, ls, b) && Final(s, ls) == Apply(Apply(s, ls[0]), ls[1])
  {
    var s1 := Apply(s, ls[0]);
    assert ls[1..][1..] == [];
    assert ls[1..][0] == ls[1];
    assert IsRun(s1, ls[1..]) && AllTimely(s1, ls[1..], b);
    assert Final(s1, ls[1..]) == Final(Apply(s1, ls[1]), ls[1..][1..]);
  }

  lemma Unroll3(s: Sys, ls: seq<Label>, b: Bounds)
    requires |ls| == 3
    requires Enabled(s, ls[0]) && Timely(s, ls[0], b)
    requires var s1 := Apply(s, ls[0]); Enabled(s1, ls[1]) && Timely(s1, ls[1], b)
    requires var s2 := Apply(Apply(s, ls[0]), ls[1]); Enabled(s2, ls[2]) && Timely(s2, ls[2], b)
    ensures IsRun(s, ls) && AllTimely(s, ls, b)
    ensures Final(s, ls) == Apply(Apply(Apply(s, ls[0]), ls[1]), ls[2])
  {
    Unroll2(Apply(s, ls[0]), ls[1..], b);
  }

  lemma Unroll4(s: Sys, ls: seq<Label>, b: Bounds)
    requires |ls| == 4
    requires Enabled(s, ls[0]) && Timely(s, ls[0], b)
    requires var s1 := Apply(s, ls[0]); Enabled(s1, ls[1]) && Timely(s1, ls[1], b)
    requires var s2 := Apply(Apply(s, ls[0]), ls[1]); Enabled(s2, ls[2]) && Timely(s2, ls[2], b)
    requires var s3 := Apply(Apply(Apply(s, ls[0]), ls[1]), ls[2]); Enabled(s3, ls[3]) && Timely(s3, ls[3], b)
    ensures IsRun(s, ls) && AllTimely(s, ls, b)
    ensures Final(s, ls) == Apply(Apply(Apply(Apply(s, ls[0]), ls[1]), ls[2]), ls[3])
  {
    Unroll3(Apply(s, ls[0]), ls[1..], b);
  }

  /** The first attempt of the event, about to call GitHub. */
  predicate AboutToCreate(s: Sys, id: AttemptId, e: EventId, t: nat) {
    && OnItsWay(s, id, e, t) && s.table[e].lease == t + ATTEMPT_LEASE_SECONDS
    && s.attempts[id].pc == Creating && s.issues == map[]
  }

  lemma FirstReachesCreating(e: EventId, id: AttemptId, b: Bounds) returns (labels: seq<Label>)
    ensures IsRun(Initial, labels) && AllTimely(Initial, labels, b)
    ensures var s := Final(Initial, labels);
            && AboutToCreate(s, id, e, 0) && s.attempts == map[id := Attempt(e, b.skew, Creating)]
            && s.clock == b.skew
  {
    var claim := [Tick(b.skew), Start(id, e), Write(id, 0, Delivered)];
    Unroll3(Initial, claim, b);
    var drive := DriveToCreating(Final(Initial, claim), id, e, 0, b);
    AppendTimely(Initial, claim, drive, b);
    labels := claim + drive;
  }

  lemma SecondTakesOver(s: Sys, e: EventId, first: AttemptId, second: AttemptId, b: Bounds)
    returns (labels: seq<Label>)
    requires b.life + 2 * b.skew > ATTEMPT_LEASE_SECONDS && first != second
    requires Inv(s) && AboutToCreate(s, first, e, 0) && s.clock == b.skew
    requires s.attempts == map[first := Attempt(e, b.skew, Creating)]
    ensures IsRun(s, labels) && AllTimely(s, labels, b)
    ensures var f := Final(s, labels);
            && f.issues == map[] && f.clock == b.skew + b.life
            && f.attempts == map[first := Attempt(e, b.skew, Creating),
                                 second := Attempt(e, b.skew + b.life, Creating)]
  {
    var now := b.life + 2 * b.skew;
    labels := TakesLease(s, e, first, second, b);
    hide Inv, AboutToCreate, OnItsWay, Enabled, Apply, Timely, IsRun, AllTimely, Final, Alive;
    var drive := DriveToCreating(Final(s, labels), second, e, now, b);
    AppendTimely(s, labels, drive, b);
    labels := labels + drive;
  }

  /** The second attempt resumes the event: by its own clock the lease is over. */
  lemma TakesLease(s: Sys, e: EventId, first: AttemptId, second: AttemptId, b: Bounds) returns (labels: seq<Label>)
    requires b.life + 2 * b.skew > ATTEMPT_LEASE_SECONDS && first != second
    requires Inv(s) && AboutToCreate(s, first, e, 0) && s.clock == b.skew
    requires s.attempts == map[first := Attempt(e, b.skew, Creating)]
    ensures IsRun(s, labels) && AllTimely(s, labels, b)
    ensures var f, now := Final(s, labels), b.life + 2 * b.skew;
            && OnItsWay(f, second, e, now) && f.table[e].lease == now + ATTEMPT_LEASE_SECONDS
            && f.issues == map[] && f.clock == b.skew + b.life && Alive(f, second, b)
            && f.attempts == map[first := Attempt(e, b.skew, Creating),
                                 second := Attempt(e, b.skew + b.life, Collecting)]
  {
    var now := b.life + 2 * b.skew;
    assert ItemIsSound(s, e);
    hide Inv, IsRun, AllTimely, Final;
    labels := [Tick(b.life), Start(second, e), Write(second, now, Delivered), Write(second, now, Delivered)];
    Unroll4(s, labels, b);
    var s1 := Apply(s, labels[0]);
    var s2 := Apply(s1, labels[1]);
    var s3 := Apply(s2, labels[2]);
    assert s3.table == s.table && s3.attempts[second] == Attempt(e, b.skew + b.life, Resuming);
    assert Apply(s3, labels[3]).attempts[second].pc == Collecting;
  }

  lemma InitialInv()
    ensures Inv(Initial)
  {
  }

  /** Without the room, two attempts of one event create an Issue each: the
      first is still about to call GitHub when the second takes its lease. */
  lemma RoomIsNecessary(b: Bounds)
    requires b.life + 2 * b.skew > ATTEMPT_LEASE_SECONDS
    ensures !AlwaysAtMostOneIssue(b)
  {
    hide Inv, OnItsWay, Enabled, Apply, Timely, IsRun, AllTimely, Final, AtMostOneIssueEach;
    var e, first, second := "event", "first", "second";
    InitialInv();
    var prefix := FirstReachesCreating(e, first, b);
    RunKeepsInv(Initial, prefix);
    var takeover := SecondTakesOver(Final(Initial, prefix), e, first, second, b);
    AppendTimely(Initial, prefix, takeover, b);
    var s := Final(Initial, prefix + takeover);
    var both := BothCreate(s, e, first, second, b);
    AppendTimely(Initial, prefix + takeover, both, b);
  }

  lemma BothCreate(s: Sys, e: EventId, first: AttemptId, second: AttemptId, b: Bounds) returns (labels: seq<Label>)
    requires first != second && s.issues == map[] && s.clock == b.skew + b.life
    requires s.attempts == map[first := Attempt(e, b.skew, Creating),
                               second := Attempt(e, b.skew + b.life, Creating)]
    ensures IsRun(s, labels) && AllTimely(s, labels, b) && !AtMostOneIssueEach(Final(s, labels))
  {
    labels := [Create(second, 1, Delivered), Create(first, 0, Delivered)];
    Unroll2(s, labels, b);
    var f := Final(s, labels);
    assert 0 in f.issues && 1 in f.issues && f.issues[0] == f.issues[1];
  }

  /** The lease of fifteen minutes leaves an attempt of at most 300 seconds
      exactly 300 seconds of clock skew in either direction. */
  lemma UniquenessHasExactBounds(b: Bounds)
    ensures AlwaysAtMostOneIssue(b) <==> b.life + 2 * b.skew <= ATTEMPT_LEASE_SECONDS
    ensures b.life == 300 ==> (AlwaysAtMostOneIssue(b) <==> b.skew <= 300)
  {
    if b.life + 2 * b.skew <= ATTEMPT_LEASE_SECONDS { RoomIsSufficient(b); } else { RoomIsNecessary(b); }
  }
}
