/** What reservations and writers achieve when their own file operations succeed,
    whatever other processes do meanwhile. */
module ReportProgress {
  import opened ReportProtocol
  import opened ReportSafety

  // ---- Reservation ----

  /** A final of the slot, or its lock, is there. */
  predicate IsTaken(files: Files, slot: nat) {
    Lock(slot) in files || exists kind :: Out(slot, kind) in files
  }

  function StepsToReserve(pc: Pc): nat {
    match pc
    case Probing(kind) => (match kind case Json => 7 case Markdown => 6 case Marker => 5)
    case Locking => 4
    case Rechecking(kind) => (match kind case Json => 3 case Markdown => 2 case Marker => 1)
    case _ => 0
  }

  /** A slot is only given up when a file takes it: a search goes on with the next
      second, a single attempt is over, and a lock that was taken is given back. */
  lemma OnlyTakenIsGivenUp(files: Files, p: Proc)
    requires p.pc.Probing? || p.pc.Locking? || p.pc.Rechecking? || p.pc.Backing?
    ensures var (after, q) := Advance(files, p);
            && (q.slot != p.slot || q.pc.Done? || q.pc.Backing? ==> p.pc.Backing? || IsTaken(files, p.slot))
            && (p.pc.Backing? ==> after == files - {Lock(p.slot)})
            && (q.slot != p.slot ==> p.search && q == p.(slot := p.slot + 1, pc := Probing(Json)))
            && (q.pc.Done? ==> !p.search && q == p.(pc := Done(false)))
            && (p.pc.Backing? || (IsTaken(files, p.slot) && p.pc == Locking && Lock(p.slot) in files) ==>
                  q.slot != p.slot || q.pc.Done?)
  {
  }

  /** Where nothing takes the slot the reservation is never refused. */
  lemma FreeSlotIsReserved(files: Files, p: Proc)
    requires p.pc.Probing? || p.pc.Locking? || p.pc.Rechecking?
    requires forall kind :: Out(p.slot, kind) !in files
    requires !p.pc.Rechecking? ==> Lock(p.slot) !in files
    ensures var (after, q) := Advance(files, p);
            && q.slot == p.slot && (forall kind :: Out(p.slot, kind) !in after)
            && if p.pc == Rechecking(Marker) then q.pc == Opening(Json)
               else StepsToReserve(q.pc) == StepsToReserve(p.pc) - 1
  {
  }

  // ---- Writing ----

  /** The file operations a writer still has to make. */
  function StepsToPublish(p: Proc): nat {
    match p.pc
    case Opening(kind) => (match kind case Json => 18 case Markdown => 16 case Marker => 9)
    case Filling(kind) => (match kind case Json => 17 case Markdown => 15 case Marker => 8)
    case Claiming(kind) => (match kind case Json => 14 case Markdown => 13 case Marker => 7)
    case Renaming(kind) => (match kind case Json => 12 case Markdown => 11 case Marker => 6)
    case Digesting => 10
    case Sweeping(_) => |p.temps| + 2
    case Releasing(_) => 1
    case _ => 0
  }

  predicate IsPublished(files: Files, slot: nat, report: nat) {
    IsComplete(files, slot) && Pair(files, slot, report)
  }

  /** The writer has not been refused anything. */
  predicate IsPublishing(d: Dir, pid: Pid) {
    && pid in d.procs
    && var p := d.procs[pid];
       && (Writing(p.pc) || p.pc == Sweeping(true) || p.pc == Releasing(true) || p.pc == Done(true))
       && (p.pc == Done(true) ==> IsPublished(d.files, p.slot, p.report))
  }

  /** `pid` neither fails nor crashes. */
  predicate OwnStepsSucceed(l: Label, pid: Pid) {
    l.pid == pid ==> l.Do? || l.Spill? || l.Remove?
  }

  /** An operation that gets the writer on: a partial write does not. */
  predicate IsStepOf(l: Label, pid: Pid) {
    l.pid == pid && !l.Spill?
  }

  lemma TempsAreFew(temps: set<Kind>)
    ensures |temps| <= 3
  {
    var all := {Json, Markdown, Marker};
    forall kind ensures kind in all {
      match kind case Json => case Markdown => case Marker =>
    }
    PartIsSmaller(temps, all);
  }

  lemma {:induction false} PartIsSmaller(part: set<Kind>, whole: set<Kind>)
    requires part <= whole
    ensures |part| <= |whole|
  {
    if part != {} {
      var kind :| kind in part;
      PartIsSmaller(part - {kind}, whole - {kind});
    }
  }

  /** The writer's next operation succeeds: nobody else touches its slot. */
  lemma DoGoesOn(f: Files, p: Proc)
    requires Placed(f, p) && Writing(p.pc)
    ensures var (_, q) := Advance(f, p);
            && (Writing(q.pc) || q.pc == Sweeping(true)) && q.slot == p.slot && q.report == p.report
            && StepsToPublish(q) < StepsToPublish(p)
  {
    hide Placed, Advance, StepsToPublish;
    if p.pc.Opening? || p.pc.Filling? {
      WritingGoesOn(f, p);
    } else if p.pc.Claiming? {
      ClaimingGoesOn(f, p);
    } else {
      RenamingGoesOn(f, p);
    }
  }

  lemma WritingGoesOn(f: Files, p: Proc)
    requires Placed(f, p) && (p.pc.Opening? || p.pc.Filling?)
    ensures var (_, q) := Advance(f, p);
            Writing(q.pc) && q.slot == p.slot && q.report == p.report && StepsToPublish(q) < StepsToPublish(p)
  {
  }

  lemma ClaimingGoesOn(f: Files, p: Proc)
    requires Placed(f, p) && p.pc.Claiming?
    ensures var (_, q) := Advance(f, p);
            Writing(q.pc) && q.slot == p.slot && q.report == p.report && StepsToPublish(q) < StepsToPublish(p)
  {
  }

  lemma RenamingGoesOn(f: Files, p: Proc)
    requires Placed(f, p) && (p.pc.Renaming? || p.pc.Digesting?)
    ensures var (_, q) := Advance(f, p);
            && (Writing(q.pc) || q.pc == Sweeping(true)) && q.slot == p.slot && q.report == p.report
            && StepsToPublish(q) < StepsToPublish(p)
  {
    var (_, q) := Advance(f, p);
    TempsAreFew(q.temps);
  }

  lemma OwnStepGoesOn(d: Dir, l: Label)
    requires Inv(d) && Enabled(d, l) && IsPublishing(d, l.pid) && OwnStepsSucceed(l, l.pid)
    ensures var t := Apply(d, l);
            var p, q := d.procs[l.pid], t.procs[l.pid];
            && q.slot == p.slot && q.report == p.report
            && (Writing(q.pc) || q.pc == Sweeping(true) || q.pc == Releasing(true) || q.pc == Done(true))
            && (q.pc == Done(true) ==> p.pc == Releasing(true))
            && if l.Spill? then StepsToPublish(q) == StepsToPublish(p) else StepsToPublish(q) < StepsToPublish(p)
  {
    var p := d.procs[l.pid];
    assert Placed(d.files, p);
    if l.Do? && Writing(p.pc) {
      hide Placed;
      DoGoesOn(d.files, p);
    }
  }

  /** The report is in place when the slot is released. */
  lemma ReleasePublishes(d: Dir, l: Label)
    requires Inv(d) && Enabled(d, l) && l.Do? && d.procs[l.pid].pc == Releasing(true)
    ensures var p := d.procs[l.pid]; IsPublished(Apply(d, l).files, p.slot, p.report)
  {
    assert Placed(d.files, d.procs[l.pid]);
  }

  lemma PublishingGoesOn(d: Dir, l: Label, pid: Pid)
    requires Inv(d) && Enabled(d, l) && IsPublishing(d, pid) && OwnStepsSucceed(l, pid)
    ensures IsPublishing(Apply(d, l), pid)
    ensures var p, q := d.procs[pid], Apply(d, l).procs[pid];
            && q.slot == p.slot && q.report == p.report
            && if IsStepOf(l, pid) then StepsToPublish(q) < StepsToPublish(p)
               else StepsToPublish(q) == StepsToPublish(p)
  {
    hide Inv, IsComplete, Pair, Placed;
    if l.pid == pid {
      OwnStepGoesOn(d, l);
      if Apply(d, l).procs[pid].pc == Done(true) { ReleasePublishes(d, l); }
    } else {
      OtherStep(d, l, pid);
      if d.procs[pid].pc == Done(true) { PublishedStays(d, l, d.procs[pid].slot, d.procs[pid].report); }
    }
  }

  lemma OtherStep(d: Dir, l: Label, pid: Pid)
    requires Enabled(d, l) && pid in d.procs && l.pid != pid
    ensures pid in Apply(d, l).procs && Apply(d, l).procs[pid] == d.procs[pid]
  {
  }

  lemma PublishedStays(d: Dir, l: Label, slot: nat, report: nat)
    requires Inv(d) && Enabled(d, l) && IsPublished(d.files, slot, report)
    ensures IsPublished(Apply(d, l).files, slot, report)
  {
    hide Inv, Enabled, Apply;
    CompleteSlotIsKept(d, l, slot);
  }

  function StepsOf(labels: seq<Label>, pid: Pid): nat {
    if labels == [] then 0 else (if IsStepOf(labels[0], pid) then 1 else 0) + StepsOf(labels[1..], pid)
  }

  predicate AllOwnStepsSucceed(labels: seq<Label>, pid: Pid) {
    forall k :: 0 <= k < |labels| ==> OwnStepsSucceed(labels[k], pid)
  }

  /** A writer with a reservation whose own file operations succeed publishes its
      report, in every interleaving: it is never refused, never stuck, and after at
      most eighteen operations it is done, with its pair complete. */
  lemma {:induction false} WriterPublishes(d: Dir, labels: seq<Label>, pid: Pid)
    requires Inv(d) && IsRun(d, labels) && IsPublishing(d, pid) && AllOwnStepsSucceed(labels, pid)
    ensures var f := Final(d, labels);
            && IsPublishing(f, pid) && Inv(f)
            && f.procs[pid].slot == d.procs[pid].slot && f.procs[pid].report == d.procs[pid].report
            && StepsToPublish(f.procs[pid]) + StepsOf(labels, pid) <= StepsToPublish(d.procs[pid]) <= 18
            && (f.procs[pid].pc == Done(true) ==> IsPublished(f.files, d.procs[pid].slot, d.procs[pid].report))
            && (f.procs[pid].pc != Done(true) ==>
                  exists l :: Enabled(f, l) && OwnStepsSucceed(l, pid) && IsStepOf(l, pid))
    decreases |labels|
  {
    hide Inv, IsPublished;
    TempsAreFew(d.procs[pid].temps);
    if labels == [] {
      NextStep(d, pid);
    } else {
      PublishingGoesOn(d, labels[0], pid);
      StepKeepsInv(d, labels[0]);
      WriterPublishes(Apply(d, labels[0]), labels[1..], pid);
    }
  }

  lemma NextStep(d: Dir, pid: Pid)
    requires IsPublishing(d, pid)
    ensures d.procs[pid].pc != Done(true) ==>
              exists l :: Enabled(d, l) && OwnStepsSucceed(l, pid) && IsStepOf(l, pid)
  {
    var p := d.procs[pid];
    if p.pc.Sweeping? && p.temps != {} {
      var kind :| kind in p.temps;
      assert Enabled(d, Remove(pid, kind)) && IsStepOf(Remove(pid, kind), pid);
    } else if p.pc != Done(true) {
      assert Enabled(d, Do(pid)) && IsStepOf(Do(pid), pid);
    }
  }

  // ---- Locks ----

  /** A process has the lock of the slot: it has not given it back, or crashed with it. */
  predicate Has(d: Dir, pid: Pid, slot: nat) {
    pid in d.procs && d.procs[pid].slot == slot && Holds(d.procs[pid].pc)
  }

  ghost predicate LocksAreHeld(d: Dir) {
    forall slot :: Lock(slot) in d.files ==> exists pid :: Has(d, pid, slot)
  }

  lemma StepKeepsLocksHeld(d: Dir, l: Label)
    requires LocksAreHeld(d) && Enabled(d, l)
    ensures LocksAreHeld(Apply(d, l))
  {
    var t := Apply(d, l);
    forall slot | Lock(slot) in t.files ensures exists pid :: Has(t, pid, slot) {
      if Lock(slot) in d.files {
        var pid :| Has(d, pid, slot);
        HolderKeepsLock(d, l, pid, slot);
      } else {
        LockIsTaken(d, l, slot);
      }
    }
  }

  lemma HolderKeepsLock(d: Dir, l: Label, pid: Pid, slot: nat)
    requires Enabled(d, l) && Has(d, pid, slot) && Lock(slot) in Apply(d, l).files
    ensures Has(Apply(d, l), pid, slot)
  {
  }

  lemma LockIsTaken(d: Dir, l: Label, slot: nat)
    requires Enabled(d, l) && Lock(slot) !in d.files && Lock(slot) in Apply(d, l).files
    ensures Has(Apply(d, l), l.pid, slot)
  {
  }

  lemma {:induction false} RunKeepsLocksHeld(d: Dir, labels: seq<Label>)
    requires LocksAreHeld(d) && IsRun(d, labels)
    ensures LocksAreHeld(Final(d, labels))
    decreases |labels|
  {
    hide LocksAreHeld, Apply, Enabled;
    if labels != [] {
      StepKeepsLocksHeld(d, labels[0]);
      RunKeepsLocksHeld(Apply(d, labels[0]), labels[1..]);
    }
  }

  /** No lock is left behind: in every reachable directory a slot is locked exactly
      while some process has its lock, be it one that crashed. */
  lemma LockedExactly(d: Dir, slot: nat)
    requires Reachable(d)
    ensures Lock(slot) in d.files <==> exists pid :: Has(d, pid, slot)
  {
    ReachableKeepsInv(d);
    var labels :| IsRun(Initial, labels) && Final(Initial, labels) == d;
    RunKeepsLocksHeld(Initial, labels);
  }

  // ---- What a marker vouches for ----

  /** A pair is complete exactly when both reports are there, neither is empty, and
      the marker has the digests of these very texts. */
  lemma CompleteExactly(files: Files, slot: nat)
    ensures IsComplete(files, slot) <==>
            exists json, markdown ::
              && json != Empty && markdown != Empty
              && (Out(slot, Json), json) in files.Items && (Out(slot, Markdown), markdown) in files.Items
              && (Out(slot, Marker), Digests(json, markdown)) in files.Items
  {
    if IsComplete(files, slot) {
      var json, markdown := files[Out(slot, Json)], files[Out(slot, Markdown)];
      assert (Out(slot, Json), json) in files.Items && (Out(slot, Markdown), markdown) in files.Items;
      assert (Out(slot, Marker), Digests(json, markdown)) in files.Items;
    }
  }

  /** A complete pair stops being one when any of its files is removed, emptied or
      changed. */
  lemma TamperedIsIncomplete(files: Files, slot: nat, kind: Kind, content: Content)
    requires IsComplete(files, slot)
    ensures !IsComplete(files - {Out(slot, kind)}, slot)
    ensures content != files[Out(slot, kind)] ==> !IsComplete(files[Out(slot, kind) := content], slot)
  {
  }
}
