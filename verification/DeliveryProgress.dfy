/** No event is lost: a claimed delivery whose own calls succeed inside its
    lease completes, whatever the other attempts do meanwhile. */
module DeliveryProgress {
  import opened Options
  import opened StateTable
  import opened DeliveryProtocol
  import opened DeliverySafety

  /** The calls of `id` succeed, its clock readings fall inside the lease taken
      at `t`, and nobody's reading lies beyond that lease. */
  predicate FaultFree(l: Label, id: AttemptId, t: nat) {
    match l
    case Write(x, now, reply) => now <= t + ATTEMPT_LEASE_SECONDS && (x == id ==> reply.Delivered? && now >= t)
    case StoreBundle(x, reply) => x == id ==> reply.Delivered?
    case Create(x, _, reply) => x == id ==> reply.Delivered?
    case Send(x, delivered, acknowledged) => x == id ==> delivered && acknowledged
    case Refuse(x) => x != id
    case Raise(x) => x != id
    case Crash(x) => x != id
    case _ => true
  }

  predicate AllFaultFree(labels: seq<Label>, id: AttemptId, t: nat) {
    forall k :: 0 <= k < |labels| ==> FaultFree(labels[k], id, t)
  }

  function StepsOf(labels: seq<Label>, id: AttemptId): nat {
    if labels == [] then 0
    else (if IsBy(labels[0], id) then 1 else 0) + StepsOf(labels[1..], id)
  }

  function StepsAfterReadBack(work: Work): nat {
    match work case SnapshotWork => 15 case BundleWork => 11 case IssueWork(_) => 6 case SlackWork(_, _) => 2
  }

  /** An upper bound on the steps a delivery still needs; it counts both ways
      through `_advance`, the write and the read-back. */
  function Remaining(pc: Pc): nat {
    match pc
    case Collecting => 17
    case Recording(work) => StepsAfterReadBack(work) + 2
    case Advancing(work) => StepsAfterReadBack(work) + 1
    case ReadingBack(work, _) => StepsAfterReadBack(work)
    case PuttingBundle => 14
    case Finding => 10
    case Creating => 9
    case Messaging(_) => 5
    case Completing(_) => 1
    case _ => 0
  }

  /** The attempt is on its way: it owns the item under the lease taken at `t`
      and nothing it has done so far is degraded. */
  predicate OnItsWay(s: Sys, id: AttemptId, e: EventId, t: nat) {
    && id in s.attempts && s.attempts[id].event == e
    && e in s.table && s.table[e].attempt == id
    && s.table[e].status == Processing
    && s.table[e].lease >= t + ATTEMPT_LEASE_SECONDS
    && Publishing(s.attempts[id].pc)
    && match s.attempts[id].pc
       case Recording(work) => !work.SnapshotWork? && (work.SlackWork? ==> work.link.Some? && work.sent)
       case Advancing(work) => work.SlackWork? ==> work.link.Some? && work.sent
       case ReadingBack(work, now) =>
         && (work.SlackWork? ==> work.link.Some? && work.sent)
         && now <= t + ATTEMPT_LEASE_SECONDS && s.table[e].rank >= Rank(CheckpointOf(work))
       case Messaging(link) => link.Some?
       case _ => true
  }

  predicate Finished(s: Sys, id: AttemptId, e: EventId) {
    && id in s.attempts && s.attempts[id] == Attempt(e, s.attempts[id].start, Done(Published))
    && e in s.table && s.table[e].status == Complete
  }

  lemma OthersCannotInterfere(s: Sys, l: Label, id: AttemptId, e: EventId, t: nat)
    requires OnItsWay(s, id, e, t) && Enabled(s, l) && FaultFree(l, id, t) && !IsBy(l, id)
    ensures OnItsWay(Apply(s, l), id, e, t) && Apply(s, l).attempts[id] == s.attempts[id]
  {
    if l.Write? {
      var a := s.attempts[l.id];
      if Request(s.table, l.id, a.event, a.pc, l.now).Some? {
        WriteIsFenced(s.table, a.event, l.id, a.pc, l.now, e);
      }
    }
    assert Apply(s, l).table[e] == s.table[e];
  }

  lemma OwnWriteMakesProgress(s: Sys, id: AttemptId, e: EventId, t: nat, now: nat)
    requires OnItsWay(s, id, e, t) && Enabled(s, Write(id, now, Delivered))
    requires t <= now <= t + ATTEMPT_LEASE_SECONDS
    ensures var f := ApplyWrite(s, id, now, Delivered);
            && (OnItsWay(f, id, e, t) || Finished(f, id, e))
            && Remaining(f.attempts[id].pc) < Remaining(s.attempts[id].pc)
  {
    match s.attempts[id].pc
    case Recording(work) =>
    case Advancing(work) =>
    case Completing(_) =>
  }

  lemma OwnCallMakesProgress(s: Sys, l: Label, id: AttemptId, e: EventId, t: nat)
    requires OnItsWay(s, id, e, t) && Enabled(s, l) && FaultFree(l, id, t)
    requires !l.Write? && IsBy(l, id)
    ensures OnItsWay(Apply(s, l), id, e, t)
    ensures Remaining(Apply(s, l).attempts[id].pc) < Remaining(s.attempts[id].pc)
  {
  }

  lemma StepMakesProgress(s: Sys, l: Label, id: AttemptId, e: EventId, t: nat)
    requires OnItsWay(s, id, e, t) && Enabled(s, l) && FaultFree(l, id, t)
    ensures OnItsWay(Apply(s, l), id, e, t) || Finished(Apply(s, l), id, e)
    ensures var r, r' := Remaining(s.attempts[id].pc), Remaining(Apply(s, l).attempts[id].pc);
            if IsBy(l, id) then r' < r else r' == r
  {
    if !IsBy(l, id) {
      OthersCannotInterfere(s, l, id, e, t);
    } else if l.Write? {
      OwnWriteMakesProgress(s, id, e, t, l.now);
    } else {
      OwnCallMakesProgress(s, l, id, e, t);
    }
  }

  lemma FinishedStays(s: Sys, l: Label, id: AttemptId, e: EventId, t: nat)
    requires Finished(s, id, e) && Enabled(s, l) && FaultFree(l, id, t)
    ensures Finished(Apply(s, l), id, e) && !IsBy(l, id)
  {
  }

  /** The next fault-free step of an attempt that is on its way. */
  function NextLabel(s: Sys, id: AttemptId, e: EventId, t: nat, number: nat): (l: Label)
    requires OnItsWay(s, id, e, t) && number !in s.issues
    ensures Enabled(s, l) && FaultFree(l, id, t) && IsBy(l, id)
  {
    match s.attempts[id].pc
    case Collecting => Collect(id)
    case ReadingBack(_, _) => Read(id)
    case PuttingBundle => StoreBundle(id, Delivered)
    case Finding => Find(id, None)
    case Creating => Create(id, number, Delivered)
    case Messaging(_) => Send(id, true, true)
    case _ => Write(id, t, Delivered)
  }

  lemma FreshNumber(s: Sys) returns (number: nat)
    ensures number !in s.issues
  {
    number := Above(s.issues.Keys);
  }

  lemma {:induction false} Above(numbers: set<nat>) returns (n: nat)
    ensures n !in numbers && forall m :: m in numbers ==> m < n
  {
    if numbers == {} {
      n := 0;
    } else {
      var m :| m in numbers;
      var bound := Above(numbers - {m});
      n := if m < bound then bound else m + 1;
      assert forall k :: k in numbers ==> k == m || k in numbers - {m};
    }
  }

  /** In any interleaving of fault-free steps with those of other attempts, a
      claimed delivery takes at most 17 steps, never loses its item, is never
      stuck before it is done, and when it is done the event is complete. */
  lemma {:induction false} DeliveryCompletes(s: Sys, labels: seq<Label>, id: AttemptId, e: EventId, t: nat)
    requires OnItsWay(s, id, e, t) && IsRun(s, labels) && AllFaultFree(labels, id, t)
    ensures var f := Final(s, labels);
            && (OnItsWay(f, id, e, t) || Finished(f, id, e))
            && Remaining(f.attempts[id].pc) + StepsOf(labels, id) <= Remaining(s.attempts[id].pc) <= 17
            && (f.attempts[id].pc.Done? ==> f.table[e].status == Complete)
            && (!f.attempts[id].pc.Done? ==>
                  exists l :: Enabled(f, l) && FaultFree(l, id, t) && IsBy(l, id))
    decreases |labels|
  {
    if labels == [] {
      var number := FreshNumber(s);
      var l := NextLabel(s, id, e, t, number);
      assert Enabled(s, l);
    } else {
      StepMakesProgress(s, labels[0], id, e, t);
      var next := Apply(s, labels[0]);
      if Finished(next, id, e) {
        FinishedForever(next, labels[1..], id, e, t);
      } else {
        DeliveryCompletes(next, labels[1..], id, e, t);
      }
    }
  }

  lemma {:induction false} FinishedForever(s: Sys, labels: seq<Label>, id: AttemptId, e: EventId, t: nat)
    requires Finished(s, id, e) && IsRun(s, labels) && AllFaultFree(labels, id, t)
    ensures Finished(Final(s, labels), id, e) && StepsOf(labels, id) == 0
    decreases |labels|
  {
    if labels != [] {
      FinishedStays(s, labels[0], id, e, t);
      FinishedForever(Apply(s, labels[0]), labels[1..], id, e, t);
    }
  }

  /** A new delivery may take the event at `now`. */
  predicate Claimable(s: Sys, e: EventId, now: nat) {
    e in s.table ==> s.table[e].status == Retryable || (s.table[e].status == Processing && s.table[e].lease < now)
  }

  /** The claim of a new delivery: one write for a new event, two otherwise. */
  function ClaimLabels(s: Sys, e: EventId, id: AttemptId, now: nat): seq<Label> {
    [Start(id, e), Write(id, now, Delivered)] + if e in s.table then [Write(id, now, Delivered)] else []
  }

  lemma ClaimIsTaken(s: Sys, e: EventId, id: AttemptId, now: nat)
    requires Inv(s) && id !in s.attempts && Claimable(s, e, now)
    ensures var write, s1 := Write(id, now, Delivered), Apply(s, Start(id, e));
            && Enabled(s1, write) && (e in s.table ==> Enabled(Apply(s1, write), write))
            && var f := if e in s.table then Apply(Apply(s1, write), write) else Apply(s1, write);
               OnItsWay(f, id, e, now) && f.attempts[id].pc == Collecting
  {
    hide CompleteIsTrue, WorldIsOrdered;
    if e in s.table { assert ItemIsSound(s, e); }
  }

  lemma ClaimSucceeds(s: Sys, e: EventId, id: AttemptId, now: nat)
    requires Inv(s) && id !in s.attempts && Claimable(s, e, now)
    ensures var labels := ClaimLabels(s, e, id, now);
            && IsRun(s, labels)
            && OnItsWay(Final(s, labels), id, e, now)
            && Final(s, labels).attempts[id].pc == Collecting
  {
    var start, write := Start(id, e), Write(id, now, Delivered);
    var s1 := Apply(s, start);
    var s2 := Apply(s1, write);
    var again := if e in s.table then [write] else [];
    ClaimIsTaken(s, e, id, now);
    assert again == [] || again[1..] == [];
    assert ([write] + again)[1..] == again;
    assert ClaimLabels(s, e, id, now) == [start] + ([write] + again);
    assert ([start] + ([write] + again))[1..] == [write] + again;
    hide Enabled, Apply, OnItsWay;
    if e in s.table {
      var f := Apply(s2, write);
      assert again == [write] && again[1..] == [];
      assert IsRun(f, again[1..]) && Final(f, again[1..]) == f;
    }
    assert IsRun(s2, again) && Final(s2, again) == if e in s.table then Apply(s2, write) else s2;
    assert IsRun(s1, [write] + again) && Final(s1, [write] + again) == Final(s2, again);
  }

  lemma {:induction false} DriveToCompletion(s: Sys, id: AttemptId, e: EventId, t: nat) returns (labels: seq<Label>)
    requires OnItsWay(s, id, e, t)
    ensures IsRun(s, labels) && AllFaultFree(labels, id, t) && Finished(Final(s, labels), id, e)
    decreases Remaining(s.attempts[id].pc)
  {
    var number := FreshNumber(s);
    var l := NextLabel(s, id, e, t, number);
    StepMakesProgress(s, l, id, e, t);
    var rest := [];
    if !Finished(Apply(s, l), id, e) {
      rest := DriveToCompletion(Apply(s, l), id, e, t);
    }
    labels := [l] + rest;
    assert labels[1..] == rest;
  }

  lemma {:induction false} Append(s: Sys, first: seq<Label>, second: seq<Label>)
    requires IsRun(s, first) && IsRun(Final(s, first), second)
    ensures IsRun(s, first + second) && Final(s, first + second) == Final(Final(s, first), second)
    decreases |first|
  {
    if first == [] {
      assert first + second == second;
    } else {
      Append(Apply(s, first[0]), first[1..], second);
      assert (first + second)[1..] == first[1..] + second;
    }
  }

  /** The run goes on for the delivery, or is over with the event complete; after
      seventeen steps of its own it is over. */
  ghost predicate Completes(s: Sys, labels: seq<Label>, id: AttemptId, e: EventId, t: nat)
    requires IsRun(s, labels)
  {
    var f := Final(s, labels);
    || Finished(f, id, e)
    || (OnItsWay(f, id, e, t) && StepsOf(labels, id) < 17
        && exists l :: Enabled(f, l) && FaultFree(l, id, t) && IsBy(l, id))
  }

  /** From every reachable state, an event that is not complete and whose lease
      has run out, or that was handed back, is claimed by the first calls of any
      attempt with a fresh name; and from there every fault-free run, whatever the
      other attempts do in it, takes the event to complete. */
  lemma NoEventIsLost(s: Sys, e: EventId, id: AttemptId, now: nat)
    requires Reachable(s) && id !in s.attempts && Claimable(s, e, now)
    ensures IsRun(s, ClaimLabels(s, e, id, now))
    ensures var claimed := Final(s, ClaimLabels(s, e, id, now));
            && (forall labels :: IsRun(claimed, labels) && AllFaultFree(labels, id, now) ==>
                  Completes(claimed, labels, id, e, now))
            && exists labels :: IsRun(claimed, labels) && AllFaultFree(labels, id, now)
                                && Finished(Final(claimed, labels), id, e)
  {
    hide Inv, OnItsWay, Enabled, Apply, FaultFree, IsBy, Claimable, ClaimLabels;
    ReachableKeepsInv(s);
    ClaimSucceeds(s, e, id, now);
    var claimed := Final(s, ClaimLabels(s, e, id, now));
    forall labels | IsRun(claimed, labels) && AllFaultFree(labels, id, now)
      ensures Completes(claimed, labels, id, e, now)
    {
      RunCompletes(claimed, labels, id, e, now);
    }
    var rest := DriveToCompletion(claimed, id, e, now);
  }

  /** Any attempt may crash at any point, and that loses no event: nothing but the
      attempt changes, and what is not complete can be claimed after its lease. */
  lemma CrashLosesNothing(s: Sys, id: AttemptId)
    requires id in s.attempts
    ensures Enabled(s, Crash(id))
    ensures var t := Apply(s, Crash(id));
            && t == s.(attempts := s.attempts[id := s.attempts[id].(pc := Done(Result.Crashed))])
            && forall e: EventId, now: nat ::
                 e in s.table && s.table[e].status != Complete && s.table[e].lease < now ==> Claimable(t, e, now)
  {
  }

  lemma RunCompletes(s: Sys, labels: seq<Label>, id: AttemptId, e: EventId, t: nat)
    requires OnItsWay(s, id, e, t) && IsRun(s, labels) && AllFaultFree(labels, id, t)
    ensures Completes(s, labels, id, e, t)
  {
    hide IsRun, Final, Enabled, Apply, FaultFree, IsBy;
    DeliveryCompletes(s, labels, id, e, t);
    var f := Final(s, labels);
    assert OnItsWay(f, id, e, t) ==> Remaining(f.attempts[id].pc) > 0;
  }

  // ---- Redelivery of a complete event ----

  /** No call of `id` fails or loses its reply. */
  predicate OwnCallsSucceed(l: Label, id: AttemptId) {
    match l
    case Write(x, _, reply) => x == id ==> reply.Delivered?
    case Raise(x) => x != id
    case Crash(x) => x != id
    case _ => true
  }

  predicate AllOwnCallsSucceed(labels: seq<Label>, id: AttemptId) {
    forall k :: 0 <= k < |labels| ==> OwnCallsSucceed(labels[k], id)
  }

  /** A delivery of a complete event on its way to be answered as a duplicate; how
      many of its calls are left. */
  predicate IsRedelivery(s: Sys, id: AttemptId, e: EventId, left: nat) {
    && e in s.table && s.table[e].status == Complete && s.table[e].incident == IncidentIdFor(e)
    && id in s.attempts && s.attempts[id].event == e
    && match s.attempts[id].pc
       case Putting => left == 3
       case Resuming => left == 2
       case ReadingClaim => left == 1
       case Done(result) => result == Duplicate && left == 0
       case _ => false
  }

  lemma RedeliveryGoesOn(s: Sys, l: Label, id: AttemptId, e: EventId, left: nat)
    requires IsRedelivery(s, id, e, left) && Enabled(s, l) && OwnCallsSucceed(l, id)
    ensures Apply(s, l).table[e] == s.table[e]
    ensures IsBy(l, id) ==> left > 0
    ensures IsRedelivery(Apply(s, l), id, e, if IsBy(l, id) then left - 1 else left)
  {
    if l.Write? && l.id != id {
      OthersKeepIt(s, l, id, e);
    }
  }

  lemma OthersKeepIt(s: Sys, l: Label, id: AttemptId, e: EventId)
    requires e in s.table && s.table[e].status == Complete && id in s.attempts
    requires l.Write? && l.id != id && Enabled(s, l)
    ensures var t := ApplyWrite(s, l.id, l.now, l.reply);
            e in t.table && t.table[e] == s.table[e] && t.attempts[id] == s.attempts[id]
  {
  }

  /** A fresh delivery of a complete event whose own calls succeed is answered as a
      duplicate by its third call, in every interleaving, and the item stays as it
      was. */
  lemma {:induction false} RedeliveryIsDuplicate(s: Sys, labels: seq<Label>, id: AttemptId, e: EventId, left: nat)
    requires IsRedelivery(s, id, e, left) && IsRun(s, labels) && AllOwnCallsSucceed(labels, id)
    ensures var f := Final(s, labels);
            && StepsOf(labels, id) <= left && IsRedelivery(f, id, e, left - StepsOf(labels, id))
            && f.table[e] == s.table[e]
            && (StepsOf(labels, id) == left ==> f.attempts[id].pc == Done(Duplicate))
            && (StepsOf(labels, id) < left ==>
                  exists l :: Enabled(f, l) && OwnCallsSucceed(l, id) && IsBy(l, id))
    decreases |labels|
  {
    if labels == [] {
      if left > 0 {
        var l := if left == 1 then Read(id) else Write(id, 0, Delivered);
        assert Enabled(s, l) && OwnCallsSucceed(l, id) && IsBy(l, id);
      }
    } else {
      RedeliveryGoesOn(s, labels[0], id, e, left);
      RedeliveryIsDuplicate(
        Apply(s, labels[0]), labels[1..], id, e, if IsBy(labels[0], id) then left - 1 else left);
    }
  }

  /** So it begins: in every reachable state with the event complete, any attempt
      with a fresh name starts such a delivery. */
  lemma RedeliveryBegins(s: Sys, id: AttemptId, e: EventId)
    requires Reachable(s) && e in s.table && s.table[e].status == Complete && id !in s.attempts
    ensures Enabled(s, Start(id, e)) && IsRedelivery(Apply(s, Start(id, e)), id, e, 3)
  {
    ReachableKeepsInv(s);
    assert ItemIsSound(s, e);
  }

  /** Only a complete item, or one whose lease still runs, is not claimable. */
  lemma ClaimableExactly(s: Sys, e: EventId, now: nat)
    requires e in s.table
    ensures Claimable(s, e, now) <==>
            ResumeEvent(s.table, e, s.table[e].incident, "any", now).Some?
  {
  }
}
