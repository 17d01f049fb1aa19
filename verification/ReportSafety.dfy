/** What every interleaving of report writers keeps, whatever step they crash at. */
module ReportSafety {
  import opened ReportProtocol

  /** The two finals of the slot are the two renderings of `report`. */
  predicate Pair(files: Files, slot: nat, report: nat) {
    && Out(slot, Json) in files && files[Out(slot, Json)] == Rendered(Json, report)
    && Out(slot, Markdown) in files && files[Out(slot, Markdown)] == Rendered(Markdown, report)
  }

  predicate PairDigests(digests: Content, report: nat) {
    digests == Digests(Rendered(Json, report), Rendered(Markdown, report))
  }

  predicate TempIs(files: Files, p: Proc, kind: Kind) {
    Temp(p.slot, kind) in files && files[Temp(p.slot, kind)] == Text(p, kind)
  }

  /** No final of the slot exists but those in `outs`, which all do. */
  predicate OutsAre(files: Files, slot: nat, outs: set<Kind>) {
    forall kind :: Out(slot, kind) in files <==> kind in outs
  }

  /** Every temporary of the slot is in `temps`. */
  predicate TempsWithin(files: Files, slot: nat, temps: set<Kind>) {
    forall kind :: Temp(slot, kind) in files ==> kind in temps
  }

  predicate MarkerUnwritten(files: Files, slot: nat) {
    Out(slot, Marker) in files ==> files[Out(slot, Marker)] == Empty
  }

  /** Before the temporary of `kind` is complete. */
  predicate BeforeTemp(files: Files, p: Proc, kind: Kind) {
    match kind
    case Json => OutsAre(files, p.slot, {}) && p.outs == {} && p.temps == {}
    case Markdown => OutsAre(files, p.slot, {}) && p.outs == {} && p.temps == {Json} && TempIs(files, p, Json)
    case Marker =>
      && p.temps == {Json, Markdown}
      && OutsAre(files, p.slot, {Json, Markdown}) && p.outs == {Json, Markdown}
      && Pair(files, p.slot, p.report) && PairDigests(p.digests, p.report)
  }

  /** Before the final of `kind` is created. */
  predicate BeforeClaim(files: Files, p: Proc, kind: Kind) {
    match kind
    case Json =>
      && OutsAre(files, p.slot, {}) && p.outs == {} && p.temps == {Json, Markdown}
      && TempIs(files, p, Json) && TempIs(files, p, Markdown)
    case Markdown =>
      && OutsAre(files, p.slot, {Json}) && p.outs == {Json} && p.temps == {Json, Markdown}
      && TempIs(files, p, Json) && TempIs(files, p, Markdown)
    case Marker =>
      && OutsAre(files, p.slot, {Json, Markdown}) && p.outs == {Json, Markdown} && p.temps == {Json, Markdown, Marker}
      && Pair(files, p.slot, p.report) && PairDigests(p.digests, p.report) && TempIs(files, p, Marker)
  }

  /** Before the temporary of `kind` is renamed over its final. */
  predicate BeforeRename(files: Files, p: Proc, kind: Kind) {
    match kind
    case Json =>
      && OutsAre(files, p.slot, {Json, Markdown}) && p.outs == {Json, Markdown} && p.temps == {Json, Markdown}
      && TempIs(files, p, Json) && TempIs(files, p, Markdown)
    case Markdown =>
      && OutsAre(files, p.slot, {Json, Markdown}) && p.outs == {Json, Markdown} && p.temps == {Json, Markdown}
      && files[Out(p.slot, Json)] == Rendered(Json, p.report) && TempIs(files, p, Markdown)
    case Marker =>
      && OutsAre(files, p.slot, p.outs) && p.outs == {Json, Markdown, Marker} && MarkerUnwritten(files, p.slot)
      && Pair(files, p.slot, p.report) && PairDigests(p.digests, p.report) && TempIs(files, p, Marker)
  }

  /** Once the files of the slot are settled, one way or the other. */
  predicate Settled(files: Files, p: Proc, ok: bool) {
    if ok then IsComplete(files, p.slot) && Pair(files, p.slot, p.report) else OutsAre(files, p.slot, {})
  }

  /** What a process that holds a slot knows of the files of that slot. */
  predicate Placed(files: Files, p: Proc) {
    match p.pc
    case Rechecking(kind) =>
      && TempsWithin(files, p.slot, {}) && p.outs == {} && p.temps == {}
      && (kind != Json ==> Out(p.slot, Json) !in files)
      && (kind == Marker ==> Out(p.slot, Markdown) !in files)
    case Backing => TempsWithin(files, p.slot, {}) && p.outs == {} && p.temps == {}
    case Opening(kind) => TempsWithin(files, p.slot, p.temps) && BeforeTemp(files, p, kind)
    case Filling(kind) => TempsWithin(files, p.slot, p.temps + {kind}) && BeforeTemp(files, p, kind)
    case Claiming(kind) => TempsWithin(files, p.slot, p.temps) && BeforeClaim(files, p, kind)
    case Renaming(kind) => TempsWithin(files, p.slot, p.temps) && BeforeRename(files, p, kind)
    case Digesting =>
      && TempsWithin(files, p.slot, p.temps) && p.temps == {Json, Markdown}
      && OutsAre(files, p.slot, {Json, Markdown}) && p.outs == {Json, Markdown} && Pair(files, p.slot, p.report)
    case Undoing =>
      TempsWithin(files, p.slot, p.temps) && OutsAre(files, p.slot, p.outs) && MarkerUnwritten(files, p.slot)
    case Sweeping(ok) => TempsWithin(files, p.slot, p.temps) && Settled(files, p, ok)
    case Releasing(ok) => TempsWithin(files, p.slot, {}) && Settled(files, p, ok)
    case _ => true
  }

  /** A marker that has been written belongs to a pair, and names it. */
  ghost predicate MarkerIsTrue(files: Files, slot: nat) {
    Out(slot, Marker) in files && files[Out(slot, Marker)] != Empty ==>
      IsComplete(files, slot) && exists report :: Pair(files, slot, report)
  }

  predicate HoldersExclude(d: Dir) {
    forall a, b :: a in d.procs && b in d.procs && a != b && Holds(d.procs[a].pc) && Holds(d.procs[b].pc) ==>
      d.procs[a].slot != d.procs[b].slot
  }

  ghost predicate Inv(d: Dir) {
    && HoldersExclude(d)
    && (forall pid :: pid in d.procs && Holds(d.procs[pid].pc) ==> Lock(d.procs[pid].slot) in d.files)
    && (forall pid :: pid in d.procs ==> Placed(d.files, d.procs[pid]))
    && (forall pid :: pid in d.procs && !Holds(d.procs[pid].pc) && !Halted(d.procs[pid].pc) ==>
          d.procs[pid].outs == {} && d.procs[pid].temps == {})
    && (forall slot, kind :: Temp(slot, kind) in d.files ==> Lock(slot) in d.files)
    && (forall slot :: MarkerIsTrue(d.files, slot))
  }

  predicate SameSlot(f: Files, g: Files, slot: nat) {
    && (forall kind :: Out(slot, kind) in f <==> Out(slot, kind) in g)
    && (forall kind :: Out(slot, kind) in f ==> f[Out(slot, kind)] == g[Out(slot, kind)])
    && (forall kind :: Temp(slot, kind) in f <==> Temp(slot, kind) in g)
    && (forall kind :: Temp(slot, kind) in f ==> f[Temp(slot, kind)] == g[Temp(slot, kind)])
  }

  /** A step changes files of no slot but its own, and those only when it holds it. */
  lemma StepIsLocal(d: Dir, l: Label, slot: nat)
    requires Enabled(d, l)
    requires l.Begin? || d.procs[l.pid].slot != slot || !Holds(d.procs[l.pid].pc)
    ensures SameSlot(d.files, Apply(d, l).files, slot)
  {
  }

  lemma PlacementIsStable(f: Files, g: Files, p: Proc)
    requires Placed(f, p) && SameSlot(f, g, p.slot)
    ensures Placed(g, p)
  {
  }

  /** Before it has locked a slot a process has created nothing, and an
      unlocked slot has no temporaries. */
  predicate Clean(f: Files, p: Proc) {
    && (!Holds(p.pc) && !Halted(p.pc) ==> p.outs == {} && p.temps == {})
    && (Lock(p.slot) !in f ==> TempsWithin(f, p.slot, {}))
  }

  lemma ReservingIsPlaced(f: Files, p: Proc)
    requires Placed(f, p) && Clean(f, p)
    requires p.pc.Probing? || p.pc.Locking? || p.pc.Rechecking? || p.pc.Backing?
    ensures var (g, q) := Advance(f, p); Placed(g, q)
  {
    if p.pc == Rechecking(Marker) && Out(p.slot, Marker) !in f {
      forall kind ensures Out(p.slot, kind) !in f {
        match kind case Json => case Markdown => case Marker =>
      }
    }
  }

  lemma WritingIsPlaced(f: Files, p: Proc)
    requires Placed(f, p) && (p.pc.Opening? || p.pc.Filling?)
    ensures var (g, q) := Advance(f, p); Placed(g, q)
  {
  }

  lemma ClaimingIsPlaced(f: Files, p: Proc)
    requires Placed(f, p) && p.pc.Claiming?
    ensures var (g, q) := Advance(f, p); Placed(g, q)
  {
  }

  lemma RenamingIsPlaced(f: Files, p: Proc)
    requires Placed(f, p) && (p.pc.Renaming? || p.pc.Digesting?)
    ensures var (g, q) := Advance(f, p); Placed(g, q)
  {
  }

  lemma EndingIsPlaced(f: Files, p: Proc)
    requires Placed(f, p) && (p.pc.Undoing? || p.pc.Sweeping? || p.pc.Releasing?)
    requires p.pc.Undoing? ==> p.outs == {}
    requires p.pc.Sweeping? ==> p.temps == {}
    ensures var (g, q) := Advance(f, p); Placed(g, q)
  {
  }

  lemma InterruptedIsPlaced(f: Files, p: Proc, l: Label)
    requires Placed(f, p) && !l.Do? && !l.Begin?
    requires l.Spill? ==> p.pc.Filling?
    requires l.Remove? ==> if p.pc.Undoing? then l.kind in p.outs else p.pc.Sweeping? && l.kind in p.temps
    requires l.Fail? ==> Writing(p.pc)
    ensures var (g, q) := Effect(f, p, l); Placed(g, q)
  {
  }

  lemma ActorIsPlaced(d: Dir, l: Label)
    requires Inv(d) && Enabled(d, l)
    ensures l.pid in Apply(d, l).procs && Placed(Apply(d, l).files, Apply(d, l).procs[l.pid])
  {
    if !l.Begin? {
      var f, p := d.files, d.procs[l.pid];
      assert Placed(f, p);
      if l.Do? {
        match p.pc
        case Opening(_) => WritingIsPlaced(f, p);
        case Filling(_) => WritingIsPlaced(f, p);
        case Claiming(_) => ClaimingIsPlaced(f, p);
        case Renaming(_) => RenamingIsPlaced(f, p);
        case Digesting => RenamingIsPlaced(f, p);
        case Undoing => EndingIsPlaced(f, p);
        case Sweeping(_) => EndingIsPlaced(f, p);
        case Releasing(_) => EndingIsPlaced(f, p);
        case _ => ReservingIsPlaced(f, p);
      } else {
        InterruptedIsPlaced(f, p, l);
      }
    }
  }

  lemma MarkersStayTrue(d: Dir, l: Label, slot: nat)
    requires Inv(d) && Enabled(d, l)
    ensures MarkerIsTrue(Apply(d, l).files, slot)
  {
    var f, g := d.files, Apply(d, l).files;
    assert MarkerIsTrue(f, slot);
    if l.Begin? || d.procs[l.pid].slot != slot || !Holds(d.procs[l.pid].pc) {
      StepIsLocal(d, l, slot);
      if Out(slot, Marker) in g && g[Out(slot, Marker)] != Empty {
        var report :| Pair(f, slot, report);
        assert Pair(g, slot, report);
      }
    } else {
      var p := d.procs[l.pid];
      assert Placed(f, p);
      if p.pc == Renaming(Marker) && l.Do? {
        assert Pair(g, slot, p.report);
      } else if Out(slot, Marker) in f && f[Out(slot, Marker)] != Empty {
        FinalsAreKept(f, p, l);
        var report :| Pair(f, slot, report);
        assert Pair(g, slot, report);
      }
    }
  }

  predicate SameFinals(f: Files, g: Files, slot: nat) {
    && (forall kind :: Out(slot, kind) in f <==> Out(slot, kind) in g)
    && (forall kind :: Out(slot, kind) in f ==> f[Out(slot, kind)] == g[Out(slot, kind)])
  }

  /** A process that holds a slot whose marker is written leaves its finals alone. */
  lemma FinalsAreKept(f: Files, p: Proc, l: Label)
    requires Placed(f, p) && Holds(p.pc)
    requires Out(p.slot, Marker) in f && f[Out(p.slot, Marker)] != Empty
    requires l.Remove? ==> p.pc.Undoing? || p.pc.Sweeping?
    requires l.Remove? && p.pc.Undoing? ==> l.kind in p.outs
    ensures SameFinals(f, Effect(f, p, l).0, p.slot)
  {
  }

  lemma OthersStayPlaced(d: Dir, l: Label, pid: Pid)
    requires Inv(d) && Enabled(d, l) && pid in d.procs && pid != l.pid
    ensures pid in Apply(d, l).procs && Placed(Apply(d, l).files, Apply(d, l).procs[pid])
  {
    var p := d.procs[pid];
    if Holds(p.pc) {
      StepIsLocal(d, l, p.slot);
      PlacementIsStable(d.files, Apply(d, l).files, p);
    }
  }

  /** What a step does to the locks: a process takes or drops only its own. */
  lemma LockChanges(f: Files, p: Proc, l: Label)
    requires !l.Begin? && (l.Do? || l.Crash? ==> !Halted(p.pc)) && (l.Spill? || l.Fail? ==> Writing(p.pc))
    requires l.Remove? ==> p.pc.Undoing? || p.pc.Sweeping?
    ensures var (g, q) := Effect(f, p, l);
            && (forall slot :: slot != p.slot ==> (Lock(slot) in f <==> Lock(slot) in g))
            && (Holds(q.pc) ==> q.slot == p.slot && (Holds(p.pc) || Lock(p.slot) !in f))
            && (Holds(q.pc) && (Holds(p.pc) ==> Lock(p.slot) in f) ==> Lock(p.slot) in g)
            && (!Holds(p.pc) && Lock(p.slot) in f ==> Lock(p.slot) in g)
  {
  }

  lemma LocksAreKept(d: Dir, l: Label)
    requires Inv(d) && Enabled(d, l)
    ensures var t := Apply(d, l);
            && HoldersExclude(t)
            && (forall pid :: pid in t.procs && Holds(t.procs[pid].pc) ==> Lock(t.procs[pid].slot) in t.files)
  {
    if !l.Begin? {
      LockChanges(d.files, d.procs[l.pid], l);
    }
  }

  lemma TempsStayLocked(d: Dir, l: Label, slot: nat, kind: Kind)
    requires Inv(d) && Enabled(d, l) && Temp(slot, kind) in Apply(d, l).files
    ensures Lock(slot) in Apply(d, l).files
  {
    if !l.Begin? {
      assert Placed(d.files, d.procs[l.pid]);
    }
  }

  lemma IdleHoldNothing(d: Dir, l: Label)
    requires Inv(d) && Enabled(d, l)
    ensures var t := Apply(d, l);
            forall pid :: pid in t.procs && !Holds(t.procs[pid].pc) && !Halted(t.procs[pid].pc) ==>
              t.procs[pid].outs == {} && t.procs[pid].temps == {}
  {
    if !l.Begin? {
      assert Placed(d.files, d.procs[l.pid]);
    }
  }

  /** Only the process that acts, or one that was there before, is there after. */
  lemma ProcsAreKept(d: Dir, l: Label)
    requires Enabled(d, l)
    ensures Apply(d, l).procs.Keys == d.procs.Keys + {l.pid}
  {
  }

  lemma StepKeepsInv(d: Dir, l: Label)
    requires Inv(d) && Enabled(d, l)
    ensures Inv(Apply(d, l))
  {
    hide Placed, MarkerIsTrue, HoldersExclude, Advance, Effect, Apply, Enabled, Holds, Halted;
    var t := Apply(d, l);
    LocksAreKept(d, l);
    IdleHoldNothing(d, l);
    ProcsAreKept(d, l);
    forall pid | pid in t.procs ensures Placed(t.files, t.procs[pid]) {
      if pid == l.pid { ActorIsPlaced(d, l); } else { OthersStayPlaced(d, l, pid); }
    }
    forall slot, kind | Temp(slot, kind) in t.files ensures Lock(slot) in t.files {
      TempsStayLocked(d, l, slot, kind);
    }
    forall slot ensures MarkerIsTrue(t.files, slot) {
      MarkersStayTrue(d, l, slot);
    }
  }

  lemma {:induction false} RunKeepsInv(d: Dir, labels: seq<Label>)
    requires Inv(d) && IsRun(d, labels)
    ensures Inv(Final(d, labels))
    decreases |labels|
  {
    if labels != [] {
      StepKeepsInv(d, labels[0]);
      RunKeepsInv(Apply(d, labels[0]), labels[1..]);
    }
  }

  ghost predicate Reachable(d: Dir) {
    exists labels :: IsRun(Initial, labels) && Final(Initial, labels) == d
  }

  lemma ReachableKeepsInv(d: Dir)
    requires Reachable(d)
    ensures Inv(d)
  {
    var labels :| IsRun(Initial, labels) && Final(Initial, labels) == d;
    RunKeepsInv(Initial, labels);
  }

  /** A slot with a valid completion marker holds the two renderings of one
      report, whichever step any writer crashed at. */
  lemma CompletePairIsOneReport(d: Dir, slot: nat)
    requires Reachable(d)
    ensures IsComplete(d.files, slot) <==> Out(slot, Marker) in d.files && d.files[Out(slot, Marker)] != Empty
    ensures IsComplete(d.files, slot) ==> exists report :: Pair(d.files, slot, report)
  {
    ReachableKeepsInv(d);
    assert MarkerIsTrue(d.files, slot);
  }

  /** Two reservations that are not given back never share a slot. */
  lemma ReservationsExclude(d: Dir, a: Pid, b: Pid)
    requires Reachable(d) && a in d.procs && b in d.procs && a != b
    requires Holds(d.procs[a].pc) && Holds(d.procs[b].pc)
    ensures d.procs[a].slot != d.procs[b].slot
  {
    ReachableKeepsInv(d);
  }

  /** A reservation is only handed out for a slot with no file of a report. */
  lemma ReservedSlotIsFree(d: Dir, pid: Pid)
    requires Reachable(d) && pid in d.procs && d.procs[pid].pc == Opening(Json)
    ensures forall kind :: Out(d.procs[pid].slot, kind) !in d.files && Temp(d.procs[pid].slot, kind) !in d.files
  {
    ReachableKeepsInv(d);
    assert Placed(d.files, d.procs[pid]);
  }

  lemma CompleteSlotIsKept(d: Dir, l: Label, slot: nat)
    requires Inv(d) && Enabled(d, l) && IsComplete(d.files, slot)
    ensures SameFinals(d.files, Apply(d, l).files, slot)
  {
    if l.Begin? || d.procs[l.pid].slot != slot || !Holds(d.procs[l.pid].pc) {
      StepIsLocal(d, l, slot);
    } else {
      assert Placed(d.files, d.procs[l.pid]);
      FinalsAreKept(d.files, d.procs[l.pid], l);
    }
  }

  /** No later reservation and no failed writer ever changes or removes a
      completed pair or its marker. */
  lemma {:induction false} CompletePairIsFinal(d: Dir, labels: seq<Label>, slot: nat)
    requires Inv(d) && IsRun(d, labels) && IsComplete(d.files, slot)
    ensures SameFinals(d.files, Final(d, labels).files, slot) && IsComplete(Final(d, labels).files, slot)
    decreases |labels|
  {
    if labels != [] {
      CompleteSlotIsKept(d, labels[0], slot);
      StepKeepsInv(d, labels[0]);
      CompletePairIsFinal(Apply(d, labels[0]), labels[1..], slot);
    }
  }

  /** A writer about to release its slot has published its own report there, or
      has left no file of a report or a temporary in it. */
  lemma WriterSettlesItsSlot(d: Dir, pid: Pid)
    requires Reachable(d) && pid in d.procs && d.procs[pid].pc.Releasing?
    ensures var p := d.procs[pid];
            && (forall kind :: Temp(p.slot, kind) !in d.files)
            && if p.pc.ok then IsComplete(d.files, p.slot) && Pair(d.files, p.slot, p.report)
               else forall kind :: Out(p.slot, kind) !in d.files
  {
    ReachableKeepsInv(d);
    assert Placed(d.files, d.procs[pid]);
  }

  /** A slot that a writer crashed in is never handed out again: its lock stays. */
  lemma {:induction false} CrashedSlotStaysLocked(d: Dir, labels: seq<Label>, pid: Pid)
    requires Inv(d) && IsRun(d, labels) && pid in d.procs && d.procs[pid].pc == Crashed(true)
    ensures pid in Final(d, labels).procs && Final(d, labels).procs[pid] == d.procs[pid]
    ensures Lock(d.procs[pid].slot) in Final(d, labels).files
    decreases |labels|
  {
    if labels != [] {
      StepKeepsInv(d, labels[0]);
      CrashedSlotStaysLocked(Apply(d, labels[0]), labels[1..], pid);
    }
  }
}
