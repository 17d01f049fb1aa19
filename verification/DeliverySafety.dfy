/** What every interleaving keeps, with no assumption on clocks or lifetimes. */
module DeliverySafety {
  import opened Options
  import opened StateTable
  import opened DeliveryProtocol

  ghost predicate HasIssue(s: Sys, i: IncidentId) {
    exists n :: n in s.issues && s.issues[n] == i
  }

  ghost predicate HasMessage(s: Sys, i: IncidentId) {
    exists m :: m in s.slack && m.incident == i
  }

  /** An Issue of the incident whose link reached Slack. */
  ghost predicate HandedOver(s: Sys, i: IncidentId) {
    exists n :: n in s.issues && s.issues[n] == i && Message(i, Some(n)) in s.slack
  }

  /** Nothing is shown to people before the bundle is stored. */
  ghost predicate WorldIsOrdered(s: Sys) {
    && (forall n :: n in s.issues ==> s.issues[n] in s.bundles)
    && (forall m :: m in s.slack ==> m.incident in s.bundles)
    && (forall m :: m in s.slack && m.link.Some? ==>
          m.link.value in s.issues && s.issues[m.link.value] == m.incident)
  }

  /** The flags of an item never run ahead of the world, its rank names its
      checkpoint, and the outcome of that checkpoint has been recorded. */
  ghost predicate ItemIsSound(s: Sys, e: EventId)
    requires e in s.table
  {
    var item, i := s.table[e], IncidentIdFor(e);
    && item.incident == i
    && item.attempt in s.attempts && s.attempts[item.attempt].event == e
    && item.rank == Rank(item.checkpoint)
    && (item.bundleStored ==> i in s.bundles)
    && (item.issuePublished ==> HasIssue(s, i))
    && (item.slack == Sent ==> HasMessage(s, i))
    && (item.checkpoint == BundleStored ==> item.bundleStored)
    && (item.checkpoint == IssuePublished ==> item.issuePublished)
    && (item.checkpoint == SlackAttempted ==> item.slack != NotAttempted)
    && (item.rank >= 2 ==> item.bundleStored)
  }

  ghost predicate CompleteIsTrue(s: Sys, e: EventId)
    requires e in s.table
  {
    var item := s.table[e];
    item.status == Complete ==>
      && item.bundleStored && item.issuePublished && item.slack == Sent
      && item.checkpoint == SlackAttempted && item.rank == 4
      && HandedOver(s, IncidentIdFor(e))
  }

  predicate IssueIs(s: Sys, n: nat, i: IncidentId) {
    n in s.issues && s.issues[n] == i
  }

  /** What holds of the item and the world before `work` may be recorded. */
  predicate Ready(s: Sys, e: EventId, work: Work)
    requires e in s.table
  {
    var item, i := s.table[e], IncidentIdFor(e);
    match work
    case SnapshotWork => true
    case BundleWork => i in s.bundles
    case IssueWork(url) => item.bundleStored && IssueIs(s, url, i)
    case SlackWork(link, sent) =>
      && item.bundleStored
      && (link.Some? ==> item.issuePublished && IssueIs(s, link.value, i))
      && (sent ==> Message(i, link) in s.slack)
  }

  /** What holds once the outcome of `work` is recorded by attempt `id`. Only
      `slack` can be changed again, and only by a later owner. */
  predicate Recorded(s: Sys, e: EventId, id: AttemptId, work: Work)
    requires e in s.table
  {
    var item := s.table[e];
    && Ready(s, e, work)
    && match work
       case SnapshotWork => true
       case BundleWork => item.bundleStored
       case IssueWork(_) => item.issuePublished
       case SlackWork(_, sent) =>
         && item.slack != NotAttempted
         && (item.attempt == id ==> item.slack == if sent then Sent else Failed)
  }

  /** What an attempt at `pc` knows of its item and the world. */
  predicate PlacedAt(s: Sys, id: AttemptId, e: EventId, pc: Pc) {
    (BeforeClaim(pc) || pc.Done?) || (
      && e in s.table
      && match pc
         case Recording(work) => !work.SnapshotWork? && Ready(s, e, work)
         case Advancing(work) => Recorded(s, e, id, work)
         case ReadingBack(work, _) => Recorded(s, e, id, work)
         case Finding => s.table[e].bundleStored
         case Creating => s.table[e].bundleStored
         case Messaging(link) => Ready(s, e, SlackWork(link, false))
         case Completing(url) => Recorded(s, e, id, SlackWork(Some(url), true)) && s.table[e].rank == 4
         case _ => true)
  }

  predicate Placed(s: Sys, id: AttemptId)
    requires id in s.attempts
  {
    PlacedAt(s, id, s.attempts[id].event, s.attempts[id].pc)
  }

  ghost predicate Inv(s: Sys) {
    && WorldIsOrdered(s)
    && (forall e :: e in s.table ==> ItemIsSound(s, e) && CompleteIsTrue(s, e))
    && (forall id :: id in s.attempts ==> Placed(s, id))
  }

  /** The changes a step may make to what `Inv` mentions: outcomes other than
      the Slack status are kept, and a new owner is a new name. */
  predicate ItemGrows(a: Item, b: Item) {
    && a.incident == b.incident
    && (a.bundleStored ==> b.bundleStored)
    && (a.issuePublished ==> b.issuePublished)
    && (a.slack != NotAttempted ==> b.slack != NotAttempted)
    && a.rank <= b.rank
  }

  predicate Grows(s: Sys, t: Sys) {
    && (forall e :: e in s.table ==> e in t.table && ItemGrows(s.table[e], t.table[e]))
    && s.bundles <= t.bundles
    && (forall n :: n in s.issues ==> n in t.issues && t.issues[n] == s.issues[n])
    && s.slack <= t.slack
    && (forall id :: id in s.attempts ==> id in t.attempts && t.attempts[id].event == s.attempts[id].event)
  }

  lemma WriteGrows(table: Table, id: AttemptId, event: EventId, pc: Pc, now: nat, e: EventId)
    requires Writes(pc) && Request(table, id, event, pc, now).Some? && e in table && table[e].rank <= 4
    ensures var after := Request(table, id, event, pc, now).value; e in after && ItemGrows(table[e], after[e])
  {
  }

  lemma StepGrows(s: Sys, l: Label)
    requires Enabled(s, l)
    requires forall e :: e in s.table ==> s.table[e].rank <= 4
    ensures Grows(s, Apply(s, l))
  {
    if l.Write? {
      var a := s.attempts[l.id];
      if Request(s.table, l.id, a.event, a.pc, l.now).Some? {
        forall e | e in s.table ensures e in Apply(s, l).table && ItemGrows(s.table[e], Apply(s, l).table[e]) {
          WriteGrows(s.table, l.id, a.event, a.pc, l.now, e);
        }
      }
    }
  }

  /** The fence: after a successful write by `writer`, an item still owned by
      another attempt is the item it was. */
  lemma WriteIsFenced(table: Table, event: EventId, writer: AttemptId, pc: Pc, now: nat, e: EventId)
    requires Writes(pc) && Request(table, writer, event, pc, now).Some?
    ensures var after := Request(table, writer, event, pc, now).value;
            && after.Keys == table.Keys + {event}
            && (e in after && after[e].attempt != writer ==> e in table && after[e] == table[e])
  {
  }

  /** Placement survives any growth that does not touch what the attempt owns. */
  lemma PlacementIsStable(s: Sys, t: Sys, id: AttemptId)
    requires id in s.attempts && id in t.attempts && t.attempts[id] == s.attempts[id]
    requires Placed(s, id) && Grows(s, t)
    requires forall e :: e in t.table ==> t.table[e].rank <= 4
    requires forall e :: e in s.table && t.table[e].attempt == id ==> s.table[e] == t.table[e]
    ensures Placed(t, id)
  {
  }

  lemma RanksAreBounded(s: Sys, l: Label)
    requires Enabled(s, l) && forall e :: e in s.table ==> s.table[e].rank <= 4
    ensures forall e :: e in Apply(s, l).table ==> Apply(s, l).table[e].rank <= 4
  {
  }

  /** A step of one attempt leaves every other attempt placed. */
  lemma OthersStayPlaced(s: Sys, l: Label, id: AttemptId)
    requires Inv(s) && Enabled(s, l) && id in s.attempts
    requires !IsBy(l, id)
    ensures id in Apply(s, l).attempts && Placed(Apply(s, l), id)
  {
    hide WorldIsOrdered, CompleteIsTrue, PlacedAt, Request, Writes, Grows;
    assert forall e :: e in s.table ==> ItemIsSound(s, e);
    StepGrows(s, l);
    RanksAreBounded(s, l);
    var t := Apply(s, l);
    forall e | e in s.table && t.table[e].attempt == id ensures s.table[e] == t.table[e] {
      if l.Write? {
        var a := s.attempts[l.id];
        if Request(s.table, l.id, a.event, a.pc, l.now).Some? {
          WriteIsFenced(s.table, a.event, l.id, a.pc, l.now, e);
        }
      }
    }
    PlacementIsStable(s, t, id);
  }

  /** A write that is applied places its sender where the reply will send it,
      and leaves it placed where it stood, so that it may be sent again. */
  lemma WriteIsPlaced(s: Sys, id: AttemptId, e: EventId, pc: Pc, now: nat)
    requires Writes(pc) && PlacedAt(s, id, e, pc)
    requires e in s.table ==> s.table[e].rank <= 4
    ensures match Request(s.table, id, e, pc, now)
            case None => PlacedAt(s, id, e, OnRejected(pc, now))
            case Some(table) =>
              PlacedAt(s.(table := table), id, e, OnWritten(pc)) && PlacedAt(s.(table := table), id, e, pc)
  {
  }

  /** Placement depends on the item and the world alone. */
  lemma SameWorldSamePlace(s: Sys, t: Sys, id: AttemptId, e: EventId, pc: Pc)
    requires s.table == t.table && s.bundles == t.bundles && s.issues == t.issues && s.slack == t.slack
    ensures PlacedAt(s, id, e, pc) <==> PlacedAt(t, id, e, pc)
  {
  }

  lemma HaltedIsPlaced(s: Sys, id: AttemptId, e: EventId, pc: Pc)
    requires PlacedAt(s, id, e, pc)
    ensures PlacedAt(s, id, e, OnRaise(pc))
  {
  }

  lemma WriterIsPlaced(s: Sys, id: AttemptId, now: nat, reply: Reply)
    requires Inv(s) && Enabled(s, Write(id, now, reply))
    ensures Placed(ApplyWrite(s, id, now, reply), id)
  {
    hide PlacedAt, Request, OnRejected, OnWritten, OnRaise, WorldIsOrdered, CompleteIsTrue, Writes;
    var e, pc, t := s.attempts[id].event, s.attempts[id].pc, ApplyWrite(s, id, now, reply);
    assert Placed(s, id) && (e in s.table ==> ItemIsSound(s, e));
    WriteIsPlaced(s, id, e, pc, now);
    match Request(s.table, id, e, pc, now)
    case None => SameWorldSamePlace(s, t, id, e, t.attempts[id].pc);
    case Some(table) =>
      HaltedIsPlaced(s.(table := table), id, e, pc);
      SameWorldSamePlace(s.(table := table), t, id, e, t.attempts[id].pc);
  }

  lemma ReaderIsPlaced(s: Sys, id: AttemptId)
    requires Inv(s) && Enabled(s, Read(id))
    ensures Placed(Apply(s, Read(id)), id)
  {
  }

  lemma CallIsPlaced(s: Sys, l: Label)
    requires Enabled(s, l) && !l.Tick? && !l.Write? && !l.Read? && !l.Start? && Placed(s, l.id)
    ensures Placed(Apply(s, l), l.id)
  {
    var t := Apply(s, l);
    assert t.table == s.table && s.bundles <= t.bundles && s.slack <= t.slack;
    match s.attempts[l.id].pc
    case Messaging(link) =>
    case _ =>
  }

  lemma CallerIsPlaced(s: Sys, l: Label)
    requires Inv(s) && Enabled(s, l) && !l.Tick? && !l.Write? && !l.Read?
    ensures l.id in Apply(s, l).attempts && Placed(Apply(s, l), l.id)
  {
    if !l.Start? {
      assert Placed(s, l.id);
      CallIsPlaced(s, l);
    }
  }

  lemma WorldStaysOrdered(s: Sys, l: Label)
    requires Inv(s) && Enabled(s, l)
    ensures WorldIsOrdered(Apply(s, l))
  {
  }

  /** An item nobody wrote stays sound as the world grows. */
  lemma SoundnessIsStable(s: Sys, t: Sys, e: EventId)
    requires e in s.table && e in t.table && t.table[e] == s.table[e]
    requires Grows(s, t) && ItemIsSound(s, e) && CompleteIsTrue(s, e)
    ensures ItemIsSound(t, e) && CompleteIsTrue(t, e)
  {
  }

  lemma WrittenItemIsSound(s: Sys, id: AttemptId, e: EventId, pc: Pc, now: nat)
    requires Writes(pc) && PlacedAt(s, id, e, pc) && id in s.attempts && s.attempts[id].event == e
    requires e in s.table ==> ItemIsSound(s, e) && CompleteIsTrue(s, e)
    requires Request(s.table, id, e, pc, now).Some?
    ensures var t := s.(table := Request(s.table, id, e, pc, now).value);
            e in t.table && ItemIsSound(t, e) && CompleteIsTrue(t, e)
  {
    var t := s.(table := Request(s.table, id, e, pc, now).value);
    assert t.issues == s.issues && t.slack == s.slack && t.bundles == s.bundles;
    match pc
    case Putting =>
    case Resuming =>
    case Recording(work) =>
    case Advancing(work) =>
    case Completing(url) =>
    case MarkingRetryable =>
  }

  lemma WriteKeepsSoundness(s: Sys, id: AttemptId, now: nat, reply: Reply)
    requires Inv(s) && Enabled(s, Write(id, now, reply))
    requires Request(s.table, id, s.attempts[id].event, s.attempts[id].pc, now).Some?
    ensures var t, e := ApplyWrite(s, id, now, reply), s.attempts[id].event;
            e in t.table && ItemIsSound(t, e) && CompleteIsTrue(t, e)
  {
    hide ItemIsSound, CompleteIsTrue, PlacedAt, Request, WorldIsOrdered, Writes, OnWritten, OnRaise;
    var t, e, pc := ApplyWrite(s, id, now, reply), s.attempts[id].event, s.attempts[id].pc;
    assert Placed(s, id);
    WrittenItemIsSound(s, id, e, pc, now);
    SoundnessIsStable(s.(table := t.table), t, e);
  }

  lemma UnwrittenIsKept(s: Sys, l: Label, e: EventId)
    requires Enabled(s, l) && e in Apply(s, l).table
    requires l.Write? && Request(s.table, l.id, s.attempts[l.id].event, s.attempts[l.id].pc, l.now).Some? ==>
               e != s.attempts[l.id].event
    ensures e in s.table && Apply(s, l).table[e] == s.table[e]
  {
  }

  lemma ApplyIsWrite(s: Sys, l: Label)
    requires Enabled(s, l) && l.Write?
    ensures Apply(s, l) == ApplyWrite(s, l.id, l.now, l.reply)
  {
  }

  lemma ItemsStaySound(s: Sys, l: Label, e: EventId)
    requires Inv(s) && Enabled(s, l) && e in Apply(s, l).table
    ensures ItemIsSound(Apply(s, l), e) && CompleteIsTrue(Apply(s, l), e)
  {
    hide CompleteIsTrue, WorldIsOrdered, Request, Grows, Apply;
    assert forall e :: e in s.table ==> ItemIsSound(s, e);
    StepGrows(s, l);
    if l.Write? && e == s.attempts[l.id].event
       && Request(s.table, l.id, e, s.attempts[l.id].pc, l.now).Some? {
      ApplyIsWrite(s, l);
      WriteKeepsSoundness(s, l.id, l.now, l.reply);
    } else {
      UnwrittenIsKept(s, l, e);
      SoundnessIsStable(s, Apply(s, l), e);
    }
  }

  lemma StepKeepsInv(s: Sys, l: Label)
    requires Inv(s) && Enabled(s, l)
    ensures Inv(Apply(s, l))
  {
    var t := Apply(s, l);
    WorldStaysOrdered(s, l);
    forall e | e in t.table ensures ItemIsSound(t, e) && CompleteIsTrue(t, e) {
      ItemsStaySound(s, l, e);
    }
    forall id | id in t.attempts ensures Placed(t, id) {
      if !IsBy(l, id) {
        OthersStayPlaced(s, l, id);
      } else if l.Write? {
        WriterIsPlaced(s, id, l.now, l.reply);
      } else if l.Read? {
        ReaderIsPlaced(s, id);
      } else {
        CallerIsPlaced(s, l);
      }
    }
  }

  lemma {:induction false} RunKeepsInv(s: Sys, labels: seq<Label>)
    requires Inv(s) && IsRun(s, labels)
    ensures Inv(Final(s, labels))
    decreases |labels|
  {
    if labels != [] {
      StepKeepsInv(s, labels[0]);
      RunKeepsInv(Apply(s, labels[0]), labels[1..]);
    }
  }

  lemma ReachableKeepsInv(s: Sys)
    requires Reachable(s)
    ensures Inv(s)
  {
    var labels :| IsRun(Initial, labels) && Final(Initial, labels) == s;
    RunKeepsInv(Initial, labels);
  }

  /** A complete item tells the truth: bundle stored, Issue published, rank 4,
      and Slack received a message carrying the link of that Issue. */
  lemma CompleteMeansHandedOver(s: Sys, e: EventId)
    requires Reachable(s) && e in s.table && s.table[e].status == Complete
    ensures IncidentIdFor(e) in s.bundles && HandedOver(s, IncidentIdFor(e))
    ensures s.table[e].bundleStored && s.table[e].issuePublished && s.table[e].slack == Sent
    ensures s.table[e].checkpoint == SlackAttempted && s.table[e].rank == 4
  {
    ReachableKeepsInv(s);
  }

  /** Flags never run ahead of the world. */
  lemma FlagsFollowTheWorld(s: Sys, e: EventId)
    requires Reachable(s)
    ensures HasIssue(s, IncidentIdFor(e)) || HasMessage(s, IncidentIdFor(e)) ==> IncidentIdFor(e) in s.bundles
    ensures e in s.table && s.table[e].bundleStored ==> IncidentIdFor(e) in s.bundles
    ensures e in s.table && s.table[e].issuePublished ==> HasIssue(s, IncidentIdFor(e))
    ensures e in s.table && s.table[e].slack == Sent ==> HasMessage(s, IncidentIdFor(e))
  {
    ReachableKeepsInv(s);
  }

  /** The rank names the stored checkpoint, and the outcome of that checkpoint
      is recorded even when a takeover fell between the two writes. */
  lemma CheckpointHasItsOutcome(s: Sys, e: EventId)
    requires Reachable(s) && e in s.table
    ensures s.table[e].rank == Rank(s.table[e].checkpoint)
    ensures match s.table[e].checkpoint
            case Claimed => true
            case SnapshotComplete => true
            case BundleStored => s.table[e].bundleStored
            case IssuePublished => s.table[e].bundleStored && s.table[e].issuePublished
            case SlackAttempted => s.table[e].bundleStored && s.table[e].slack != NotAttempted
  {
    ReachableKeepsInv(s);
  }

  /** Over any run the incident of an item is fixed, its rank never falls, its
      bundle and Issue flags never clear, and the outside world only grows. */
  lemma {:induction false} RunGrows(s: Sys, labels: seq<Label>)
    requires Inv(s) && IsRun(s, labels)
    ensures Grows(s, Final(s, labels))
    decreases |labels|
  {
    if labels != [] {
      StepKeepsInv(s, labels[0]);
      StepGrows(s, labels[0]);
      RunGrows(Apply(s, labels[0]), labels[1..]);
    }
  }

  /** `complete` is final for every field of the item. */
  lemma {:induction false} CompleteIsFinal(s: Sys, labels: seq<Label>, e: EventId)
    requires IsRun(s, labels) && e in s.table && s.table[e].status == Complete
    ensures e in Final(s, labels).table && Final(s, labels).table[e] == s.table[e]
    decreases |labels|
  {
    if labels != [] {
      CompleteIsFinal(Apply(s, labels[0]), labels[1..], e);
    }
  }

  /** The attempt has, or has had, a claim. */
  predicate HasClaimed(pc: Pc) {
    || Publishing(pc) || pc.MarkingRetryable?
    || pc == Done(Published) || pc == Done(HandedBack) || pc == Done(Stranded) || pc == Done(Crashed)
  }

  /** A claim is never just dropped: unless it crashes, a claimed attempt ends with
      the event published, handed back, or with a hand-back that failed. */
  lemma {:induction false} ClaimIsNeverDropped(s: Sys, labels: seq<Label>, id: AttemptId)
    requires IsRun(s, labels) && id in s.attempts && HasClaimed(s.attempts[id].pc)
    ensures id in Final(s, labels).attempts && HasClaimed(Final(s, labels).attempts[id].pc)
    decreases |labels|
  {
    if labels != [] {
      ClaimIsNeverDropped(Apply(s, labels[0]), labels[1..], id);
    }
  }

  /** The attempt is past its claim and the item names another attempt. */
  predicate Superseded(s: Sys, id: AttemptId) {
    && id in s.attempts
    && !BeforeClaim(s.attempts[id].pc)
    && s.attempts[id].event in s.table
    && s.table[s.attempts[id].event].attempt != id
  }

  /** No write of `id` in the run changes the table. */
  predicate WritesNothing(s: Sys, labels: seq<Label>, id: AttemptId)
    requires IsRun(s, labels)
    decreases |labels|
  {
    labels == [] || (
      && (labels[0].Write? && labels[0].id == id ==> Apply(s, labels[0]).table == s.table)
      && WritesNothing(Apply(s, labels[0]), labels[1..], id))
  }

  /** The fence over whole runs: once superseded, an attempt stays superseded
      and none of its writes succeeds, whoever else takes over later. */
  lemma {:induction false} SupersededWritesNothing(s: Sys, labels: seq<Label>, id: AttemptId)
    requires IsRun(s, labels) && Superseded(s, id)
    ensures Superseded(Final(s, labels), id)
    ensures WritesNothing(s, labels, id)
    decreases |labels|
  {
    if labels != [] {
      SupersededWritesNothing(Apply(s, labels[0]), labels[1..], id);
    }
  }

  lemma WriterOwns(table: Table, event: EventId, writer: AttemptId, pc: Pc, now: nat)
    requires Writes(pc) && Request(table, writer, event, pc, now).Some?
    ensures var after := Request(table, writer, event, pc, now).value; event in after && after[event].attempt == writer
  {
  }

  /** Any takeover supersedes the attempt that owned the item. */
  lemma TakeoverSupersedes(s: Sys, id: AttemptId, now: nat, reply: Reply, former: AttemptId)
    requires Enabled(s, Write(id, now, reply)) && former in s.attempts && former != id
    requires s.attempts[former].event == s.attempts[id].event && !BeforeClaim(s.attempts[former].pc)
    requires Apply(s, Write(id, now, reply)).table != s.table
    ensures Superseded(Apply(s, Write(id, now, reply)), former)
  {
    hide Request;
    if Request(s.table, id, s.attempts[id].event, s.attempts[id].pc, now).Some? {
      WriterOwns(s.table, s.attempts[id].event, id, s.attempts[id].pc, now);
    }
  }
}
