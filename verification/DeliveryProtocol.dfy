/** The delivery of one alarm event as a state machine. Any number of attempts,
    for any number of events, take atomic steps in any order: each table call
    and each call to S3, GitHub or Slack is one step. An attempt may raise or
    crash between any two steps, and the reply to any call may be lost. */
module DeliveryProtocol {
  import opened Options
  import opened StateTable

  /** What an attempt records next, with what it has to remember of it. */
  datatype Work =
    | SnapshotWork
    | BundleWork
    | IssueWork(url: nat)
    | SlackWork(link: Option<nat>, sent: bool)

  /** `Failure`: no claim was obtained. A claim that was not completed is handed
      back, or stranded when the hand-back failed too. */
  datatype Result = Published | Duplicate | Busy | Failure | HandedBack | Stranded | Crashed

  /** The next call of an attempt. */
  datatype Pc =
    | Putting
    | Resuming
    | ReadingClaim
    | Collecting
    | Recording(work: Work)
    | Advancing(work: Work)
    | ReadingBack(work: Work, now: nat)
    | PuttingBundle
    | Finding
    | Creating
    | Messaging(link: Option<nat>)
    | Completing(url: nat)
    | MarkingRetryable
    | Done(result: Result)

  datatype Attempt = Attempt(event: EventId, start: int, pc: Pc)

  datatype Message = Message(incident: IncidentId, link: Option<nat>)

  /** `issues` maps an Issue number to the incident of its hidden marker. */
  datatype Sys = Sys(
    table: Table,
    attempts: map<AttemptId, Attempt>,
    bundles: set<IncidentId>,
    issues: map<nat, IncidentId>,
    slack: set<Message>,
    clock: int)

  /** `Lost`: the call took effect and the caller sees an error.
      `Resent`: the write took effect and the client library sends it again. */
  datatype Reply = Delivered | Lost | Resent

  datatype Label =
    | Tick(seconds: nat)
    | Start(id: AttemptId, event: EventId)
    | Write(id: AttemptId, now: nat, reply: Reply)
    | Read(id: AttemptId)
    | Collect(id: AttemptId)
    | StoreBundle(id: AttemptId, reply: Reply)
    | Find(id: AttemptId, found: Option<nat>)
    | Create(id: AttemptId, number: nat, reply: Reply)
    | Send(id: AttemptId, delivered: bool, acknowledged: bool)
    | Refuse(id: AttemptId)
    | Raise(id: AttemptId)
    | Crash(id: AttemptId)

  predicate IsBy(l: Label, id: AttemptId) {
    !l.Tick? && l.id == id
  }

  const Initial := Sys(map[], map[], {}, map[], {}, 0)

  function CheckpointOf(work: Work): Checkpoint {
    match work
    case SnapshotWork => SnapshotComplete
    case BundleWork => BundleStored
    case IssueWork(_) => IssuePublished
    case SlackWork(_, _) => SlackAttempted
  }

  function OutcomeOf(work: Work): Outcome
    requires !work.SnapshotWork?
  {
    match work
    case BundleWork => BundleOutcome
    case IssueWork(_) => IssueOutcome
    case SlackWork(_, sent) => SlackOutcome(sent)
  }

  /** Where an attempt goes once the checkpoint of `work` is recorded. Without
      an Issue link and an acknowledged message the publication is degraded. */
  function After(work: Work): Pc {
    match work
    case SnapshotWork => PuttingBundle
    case BundleWork => Finding
    case IssueWork(url) => Messaging(Some(url))
    case SlackWork(link, sent) =>
      if link.Some? && sent then Completing(link.value) else MarkingRetryable
  }

  predicate BeforeClaim(pc: Pc) {
    pc.Putting? || pc.Resuming? || pc.ReadingClaim?
  }

  /** The attempt holds a claim and has not begun to give it back. */
  predicate Publishing(pc: Pc) {
    !BeforeClaim(pc) && !pc.MarkingRetryable? && !pc.Done?
  }

  predicate Writes(pc: Pc) {
    || pc.Putting? || pc.Resuming? || pc.Advancing? || pc.Completing? || pc.MarkingRetryable?
    || (pc.Recording? && !pc.work.SnapshotWork?)
  }

  /** The exception handler of `Runtime.handle`: only a claimed attempt is
      handed back. */
  function OnRaise(pc: Pc): Pc {
    if Publishing(pc) then MarkingRetryable
    else if pc.MarkingRetryable? then Done(Stranded)
    else if pc.Done? then pc
    else Done(Failure)
  }

  function RequestOf(id: AttemptId, event: EventId, pc: Pc, now: nat): WriteRequest
    requires Writes(pc)
  {
    match pc
    case Putting => PutNew(event, IncidentIdFor(event), id, now)
    case Resuming => Resume(event, IncidentIdFor(event), id, now)
    case Recording(work) => Record(event, id, OutcomeOf(work), now)
    case Advancing(work) => AdvanceTo(event, id, CheckpointOf(work), now)
    case Completing(_) => Mark(event, id, Complete, now)
    case MarkingRetryable => Mark(event, id, Retryable, now)
  }

  function Request(table: Table, id: AttemptId, event: EventId, pc: Pc, now: nat): Option<Table>
    requires Writes(pc)
  {
    Execute(table, RequestOf(id, event, pc, now))
  }

  function OnWritten(pc: Pc): Pc
    requires Writes(pc)
  {
    match pc
    case Putting => Collecting
    case Resuming => Collecting
    case Recording(work) => Advancing(work)
    case Advancing(work) => After(work)
    case Completing(_) => Done(Published)
    case MarkingRetryable => Done(HandedBack)
  }

  function OnRejected(pc: Pc, now: nat): Pc
    requires Writes(pc)
  {
    match pc
    case Putting => Resuming
    case Resuming => ReadingClaim
    case Recording(_) => MarkingRetryable
    case Advancing(work) => ReadingBack(work, now)
    case Completing(_) => MarkingRetryable
    case MarkingRetryable => Done(Stranded)
  }

  function OnRead(item: Option<Item>, id: AttemptId, event: EventId, pc: Pc): Pc
    requires pc.ReadingClaim? || pc.ReadingBack?
  {
    match pc
    case ReadingClaim =>
      if item.Some? && item.value.incident == IncidentIdFor(event) && item.value.status == Complete
      then Done(Duplicate) else Done(Busy)
    case ReadingBack(work, now) =>
      if ReadBackConfirms(item, id, CheckpointOf(work), now) then After(work) else MarkingRetryable
  }

  predicate Enabled(s: Sys, l: Label) {
    match l
    case Tick(_) => true
    case Start(id, _) => id !in s.attempts
    case Write(id, _, _) => id in s.attempts && Writes(s.attempts[id].pc)
    case Read(id) => id in s.attempts && (s.attempts[id].pc.ReadingClaim? || s.attempts[id].pc.ReadingBack?)
    case Collect(id) => id in s.attempts && s.attempts[id].pc.Collecting?
    case StoreBundle(id, _) => id in s.attempts && s.attempts[id].pc.PuttingBundle?
    case Find(id, found) =>
      && id in s.attempts && s.attempts[id].pc.Finding?
      && (found.Some? ==> found.value in s.issues && s.issues[found.value] == IncidentIdFor(s.attempts[id].event))
    case Create(id, number, reply) =>
      id in s.attempts && s.attempts[id].pc.Creating? && number !in s.issues && !reply.Resent?
    case Send(id, delivered, acknowledged) =>
      id in s.attempts && s.attempts[id].pc.Messaging? && (acknowledged ==> delivered)
    case Refuse(id) => id in s.attempts && (s.attempts[id].pc.Finding? || s.attempts[id].pc.Creating?)
    case Raise(id) => id in s.attempts
    case Crash(id) => id in s.attempts
  }

  function Move(s: Sys, id: AttemptId, pc: Pc): Sys
    requires id in s.attempts
  {
    s.(attempts := s.attempts[id := s.attempts[id].(pc := pc)])
  }

  function ApplyWrite(s: Sys, id: AttemptId, now: nat, reply: Reply): Sys
    requires Enabled(s, Write(id, now, reply))
  {
    var pc := s.attempts[id].pc;
    match Request(s.table, id, s.attempts[id].event, pc, now)
    case None => Move(s, id, OnRejected(pc, now))
    case Some(table) =>
      Move(s.(table := table), id,
           match reply case Delivered => OnWritten(pc) case Lost => OnRaise(pc) case Resent => pc)
  }

  function Apply(s: Sys, l: Label): Sys
    requires Enabled(s, l)
  {
    match l
    case Tick(seconds) => s.(clock := s.clock + seconds)
    case Start(id, event) => s.(attempts := s.attempts[id := Attempt(event, s.clock, Putting)])
    case Write(id, now, reply) => ApplyWrite(s, id, now, reply)
    case Read(id) =>
      Move(s, id, OnRead(GetItem(s.table, s.attempts[id].event), id, s.attempts[id].event, s.attempts[id].pc))
    case Collect(id) => Move(s, id, Advancing(SnapshotWork))
    case StoreBundle(id, reply) =>
      Move(s.(bundles := s.bundles + {IncidentIdFor(s.attempts[id].event)}), id,
           match reply
           case Delivered => Recording(BundleWork)
           case Lost => MarkingRetryable
           case Resent => PuttingBundle)
    case Find(id, found) => Move(s, id, if found.Some? then Recording(IssueWork(found.value)) else Creating)
    case Create(id, number, reply) =>
      Move(s.(issues := s.issues[number := IncidentIdFor(s.attempts[id].event)]), id,
           if reply.Delivered? then Recording(IssueWork(number)) else Messaging(None))
    case Send(id, delivered, acknowledged) =>
      var link := s.attempts[id].pc.link;
      Move(if delivered then s.(slack := s.slack + {Message(IncidentIdFor(s.attempts[id].event), link)}) else s,
           id, Recording(SlackWork(link, acknowledged)))
    case Refuse(id) => Move(s, id, Messaging(None))
    case Raise(id) => Move(s, id, OnRaise(s.attempts[id].pc))
    case Crash(id) => Move(s, id, Done(Crashed))
  }

  /** A run is a sequence of labels, each enabled where it is taken. */
  predicate IsRun(s: Sys, labels: seq<Label>)
    decreases |labels|
  {
    labels == [] || (Enabled(s, labels[0]) && IsRun(Apply(s, labels[0]), labels[1..]))
  }

  function Final(s: Sys, labels: seq<Label>): Sys
    requires IsRun(s, labels)
    decreases |labels|
  {
    if labels == [] then s else Final(Apply(s, labels[0]), labels[1..])
  }

  ghost predicate Reachable(s: Sys) {
    exists labels :: IsRun(Initial, labels) && Final(Initial, labels) == s
  }
}
