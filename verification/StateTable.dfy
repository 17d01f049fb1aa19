/** The incident table of `state.py`: one item per event, changed only by
    conditional writes. Every write is a function from the table to either
    the new table or `None`, the conditional-check failure. */
module StateTable {
  import opened Options

  type EventId = string
  type IncidentId = string
  type AttemptId = string

  const ATTEMPT_LEASE_SECONDS := 15 * 60

  datatype Checkpoint = Claimed | SnapshotComplete | BundleStored | IssuePublished | SlackAttempted

  datatype ProcessingStatus = Processing | Retryable | Complete

  datatype SlackStatus = NotAttempted | Sent | Failed

  datatype Item = Item(
    incident: IncidentId,
    checkpoint: Checkpoint,
    rank: nat,
    bundleStored: bool,
    issuePublished: bool,
    slack: SlackStatus,
    status: ProcessingStatus,
    attempt: AttemptId,
    lease: nat)

  type Table = map<EventId, Item>

  /** The three publisher outcomes, each with the attribute it sets. */
  datatype Outcome = BundleOutcome | IssueOutcome | SlackOutcome(sent: bool)

  function Rank(checkpoint: Checkpoint): nat {
    match checkpoint
    case Claimed => 0
    case SnapshotComplete => 1
    case BundleStored => 2
    case IssuePublished => 3
    case SlackAttempted => 4
  }

  /** The digest behind an incident ID, taken to be free of collisions. */
  function IncidentIdFor(event: EventId): IncidentId {
    "inc-" + event
  }

  lemma IncidentIdsAreInjective(e: EventId, f: EventId)
    requires IncidentIdFor(e) == IncidentIdFor(f)
    ensures e == f
  {
    assert IncidentIdFor(e)[4..] == e && IncidentIdFor(f)[4..] == f;
  }

  function NewEventItem(incident: IncidentId, attempt: AttemptId, lease: nat): Item {
    Item(incident, Claimed, Rank(Claimed), false, false, NotAttempted, Processing, attempt, lease)
  }

  function PutNewEvent(
    table: Table, event: EventId, incident: IncidentId, attempt: AttemptId, now: nat): Option<Table>
  {
    if event in table then None
    else Some(table[event := NewEventItem(incident, attempt, now + ATTEMPT_LEASE_SECONDS)])
  }

  function ResumeEvent(
    table: Table, event: EventId, incident: IncidentId, attempt: AttemptId, now: nat): Option<Table>
  {
    if && event in table
       && table[event].incident == incident
       && table[event].status != Complete
       && (table[event].status == Retryable || table[event].lease < now)
    then Some(table[event := table[event].(
      status := Processing, attempt := attempt, lease := now + ATTEMPT_LEASE_SECONDS)])
    else None
  }

  /** The condition shared by every write an owner makes. */
  predicate Owns(table: Table, event: EventId, attempt: AttemptId, now: nat) {
    && event in table
    && table[event].attempt == attempt
    && table[event].status == Processing
    && table[event].lease >= now
  }

  function WithOutcome(item: Item, outcome: Outcome): Item {
    match outcome
    case BundleOutcome => item.(bundleStored := true)
    case IssueOutcome => item.(issuePublished := true)
    case SlackOutcome(sent) => item.(slack := if sent then Sent else Failed)
  }

  function RecordOutcome(table: Table, event: EventId, attempt: AttemptId, outcome: Outcome, now: nat): Option<Table> {
    if Owns(table, event, attempt, now)
    then Some(table[event := WithOutcome(table[event], outcome).(lease := now + ATTEMPT_LEASE_SECONDS)])
    else None
  }

  function Advance(table: Table, event: EventId, attempt: AttemptId, next: Checkpoint, now: nat): Option<Table> {
    if Owns(table, event, attempt, now) && table[event].rank < Rank(next)
    then Some(table[event := table[event].(
      checkpoint := next, rank := Rank(next), lease := now + ATTEMPT_LEASE_SECONDS)])
    else None
  }

  function MarkStatus(
    table: Table, event: EventId, attempt: AttemptId, next: ProcessingStatus, now: nat): Option<Table>
  {
    if Owns(table, event, attempt, now)
    then Some(table[event := table[event].(status := next, lease := now + ATTEMPT_LEASE_SECONDS)])
    else None
  }

  /** A conditional write as it is sent to the table. */
  datatype WriteRequest =
    | PutNew(event: EventId, incident: IncidentId, attempt: AttemptId, now: nat)
    | Resume(event: EventId, incident: IncidentId, attempt: AttemptId, now: nat)
    | Record(event: EventId, attempt: AttemptId, outcome: Outcome, now: nat)
    | AdvanceTo(event: EventId, attempt: AttemptId, next: Checkpoint, now: nat)
    | Mark(event: EventId, attempt: AttemptId, status: ProcessingStatus, now: nat)

  function Execute(table: Table, request: WriteRequest): Option<Table> {
    match request
    case PutNew(event, incident, attempt, now) => PutNewEvent(table, event, incident, attempt, now)
    case Resume(event, incident, attempt, now) => ResumeEvent(table, event, incident, attempt, now)
    case Record(event, attempt, outcome, now) => RecordOutcome(table, event, attempt, outcome, now)
    case AdvanceTo(event, attempt, next, now) => Advance(table, event, attempt, next, now)
    case Mark(event, attempt, status, now) => MarkStatus(table, event, attempt, status, now)
  }

  /** The read-back of `_advance` after its conditional write failed. A stored
      lease of zero reads as minus one. It renews nothing. */
  predicate ReadBackConfirms(item: Option<Item>, attempt: AttemptId, next: Checkpoint, now: nat) {
    && item.Some?
    && item.value.attempt == attempt
    && item.value.status == Processing
    && (if item.value.lease == 0 then -1 else item.value.lease) >= now
    && item.value.rank >= Rank(next)
  }

  function GetItem(table: Table, event: EventId): Option<Item> {
    if event in table then Some(table[event]) else None
  }

  // ---- What a write may do ----

  predicate IsOwnerWrite(request: WriteRequest) {
    request.Record? || request.AdvanceTo? || request.Mark?
  }

  /** The checkpoints in the order they are reached, one rank apart. */
  const CHECKPOINTS := [Claimed, SnapshotComplete, BundleStored, IssuePublished, SlackAttempted]

  lemma RanksCount(checkpoint: Checkpoint)
    ensures Rank(checkpoint) < 5 && CHECKPOINTS[Rank(checkpoint)] == checkpoint
    ensures forall k :: 0 <= k < 5 ==> Rank(CHECKPOINTS[k]) == k
  {
  }

  /** A first claim starts with nothing done, under a lease of fifteen minutes. */
  lemma FirstClaimHasNothingDone(table: Table, event: EventId, incident: IncidentId, attempt: AttemptId, now: nat)
    ensures PutNewEvent(table, event, incident, attempt, now).Some? <==> event !in table
    ensures event !in table ==>
              var after := PutNewEvent(table, event, incident, attempt, now).value;
              after == table[event := after[event]] && after[event] ==
                Item(incident, Claimed, 0, false, false, NotAttempted, Processing, attempt, now + 900)
  {
  }

  /** A write renews the lease of one item and makes its sender the owner. Beyond
      that a takeover changes only the status, an outcome write its own flag, a
      checkpoint write the checkpoint with its rank, and a mark the status. */
  lemma WritesTouchOnly(table: Table, request: WriteRequest)
    requires Execute(table, request).Some? && !request.PutNew?
    ensures var after := Execute(table, request).value;
            && request.event in table && after.Keys == table.Keys
            && (forall e :: e in table && e != request.event ==> after[e] == table[e])
            && var (a, b) := (table[request.event], after[request.event]);
               && b.lease == request.now + 900 && b.attempt == request.attempt && b.incident == a.incident
               && (!request.AdvanceTo? ==> b.checkpoint == a.checkpoint && b.rank == a.rank)
               && (!request.Record? ==>
                     b.bundleStored == a.bundleStored && b.issuePublished == a.issuePublished && b.slack == a.slack)
               && match request
                  case Resume(_, _, _, _) => b.status == Processing
                  case Record(_, _, outcome, _) =>
                    && b.status == a.status
                    && b.bundleStored == (a.bundleStored || outcome.BundleOutcome?)
                    && b.issuePublished == (a.issuePublished || outcome.IssueOutcome?)
                    && b.slack == if !outcome.SlackOutcome? then a.slack else if outcome.sent then Sent else Failed
                  case AdvanceTo(_, _, next, _) =>
                    b.status == a.status && b.checkpoint == next && b.rank == Rank(next) > a.rank
                  case Mark(_, _, next, _) => b.status == next
  {
  }

  /** An owner may write exactly while it is the owner, the event is being processed
      and the lease is not over; a checkpoint must also be ahead. */
  lemma OwnerMayWriteExactly(table: Table, request: WriteRequest)
    requires IsOwnerWrite(request)
    ensures Execute(table, request).Some? <==>
            && request.event in table
            && var item := table[request.event];
               && item.attempt == request.attempt && item.status == Processing && request.now <= item.lease
               && (request.AdvanceTo? ==> item.rank < Rank(request.next))
  {
  }

  /** The read-back stands for the write that was refused: it confirms exactly when
      an owner's write would still be let through and the rank is there already,
      except at the very start of time under a lease of zero. */
  lemma ReadBackExactly(table: Table, event: EventId, attempt: AttemptId, next: Checkpoint, now: nat)
    ensures ReadBackConfirms(GetItem(table, event), attempt, next, now) <==>
            && Execute(table, Mark(event, attempt, Complete, now)).Some?
            && table[event].rank >= Rank(next) && table[event].lease > 0
    ensures ReadBackConfirms(GetItem(table, event), attempt, next, now) ==>
              Execute(table, AdvanceTo(event, attempt, next, now)).None?
  {
  }
}
