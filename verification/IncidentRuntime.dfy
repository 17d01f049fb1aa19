/** `Runtime.handle`, `Publisher.publish` and the state store as the source
    writes them: methods over mutable objects, with every other process free to
    act before each call. They are proved to follow the delivery protocol. */
module IncidentRuntime {
  import opened Options
  import opened StateTable
  import opened DeliveryProtocol
  import opened DeliverySafety
  import P = DeliveryProgress

  lemma StepExtendsReach(s: Sys, l: Label)
    requires Reachable(s) && Enabled(s, l)
    ensures Reachable(Apply(s, l))
  {
    var before :| IsRun(Initial, before) && Final(Initial, before) == s;
    var one := [l];
    assert one[0] == l && one[1..] == [];
    assert IsRun(Apply(s, l), one[1..]) && Final(Apply(s, l), one[1..]) == Apply(s, l);
    assert Final(s, one) == Final(Apply(s, one[0]), one[1..]);
    P.Append(Initial, before, one);
  }

  /** The item shows what an applied request asked for, under a renewed lease. */
  predicate Shows(table: Table, request: WriteRequest) {
    && request.event in table
    && var item := table[request.event];
       && item.attempt == request.attempt && item.lease == request.now + ATTEMPT_LEASE_SECONDS
       && match request
          case PutNew(_, incident, _, _) => item == NewEventItem(incident, item.attempt, item.lease)
          case Resume(_, incident, _, _) => item.incident == incident && item.status == Processing
          case Record(_, _, outcome, _) => WithOutcome(item, outcome) == item
          case AdvanceTo(_, _, next, _) => item.checkpoint == next && item.rank == Rank(next)
          case Mark(_, _, status, _) => item.status == status
  }

  /** Complete items stay as they are. */
  predicate KeepsComplete(before: Table, after: Table) {
    forall e :: e in before && before[e].status == Complete ==> e in after && after[e] == before[e]
  }

  lemma StepKeepsComplete(s: Sys, l: Label)
    requires Enabled(s, l)
    ensures KeepsComplete(s.table, Apply(s, l).table)
  {
    forall e | e in s.table && s.table[e].status == Complete
      ensures e in Apply(s, l).table && Apply(s, l).table[e] == s.table[e]
    {
      assert IsRun(Apply(s, l), [l][1..]);
      CompleteIsFinal(s, [l], e);
      assert Final(Apply(s, l), [l][1..]) == Apply(s, l);
    }
  }

  /** The item of the event, for this incident, is complete. */
  predicate IsComplete(table: Table, event: EventId) {
    event in table && table[event].incident == IncidentIdFor(event) && table[event].status == Complete
  }

  /** A write that only a claim holder makes. */
  predicate NeedsClaim(pc: Pc) {
    pc.Recording? || pc.Completing? || pc.MarkingRetryable?
  }

  /** A read-back that does not confirm the checkpoint. */
  predicate LostClaim(item: Option<Item>, attempt: AttemptId, pc: Pc) {
    pc.ReadingBack? && !ReadBackConfirms(item, attempt, CheckpointOf(pc.work), pc.now)
  }

  datatype Call = Applied | Rejected | Errored

  datatype ReadCall = Fetched(item: Option<Item>) | ReadErrored

  datatype IssueCall = Issued(number: nat) | NoneFound | IntegrationFailed | IssueErrored

  datatype SlackCall = Acknowledged | SlackFailed | SlackErrored

  datatype Mark = Marked | NotOwner | MarkErrored

  datatype ClaimCall = Claim(disposition: Disposition) | ClaimErrored

  datatype Disposition = Started | Resumed | BusyClaim | CompleteClaim

  datatype PublishCall = PublishResult(issue: Option<nat>, slackSent: bool) | PublishErrored

  datatype Status = PublishedStatus | DuplicateStatus | RaisedStatus

  /** DynamoDB, S3, GitHub and Slack with everyone who uses them. `caller` names
      the process that makes a call. */
  class World {
    var sys: Sys
    /** What has gone wrong for the callers: a call that failed, a write or a
        read-back that showed the claim was lost, a degraded publication. */
    ghost var setbacks: nat

    ghost predicate At(caller: AttemptId, event: EventId, pc: Pc)
      reads this
    {
      && Reachable(sys)
      && caller in sys.attempts && sys.attempts[caller].event == event && sys.attempts[caller].pc == pc
    }

    /** Any number of steps of other processes, in any order. */
    method Interfere(caller: AttemptId)
      requires Reachable(sys) && caller in sys.attempts
      modifies this
      ensures Reachable(sys)
      ensures caller in sys.attempts && sys.attempts[caller] == old(sys.attempts[caller])
      ensures setbacks == old(setbacks) && KeepsComplete(old(sys.table), sys.table)
    {
      var schedule: seq<Label> := *;
      for k := 0 to |schedule|
        invariant Reachable(sys) && setbacks == old(setbacks) && KeepsComplete(old(sys.table), sys.table)
        invariant caller in sys.attempts && sys.attempts[caller] == old(sys.attempts[caller])
      {
        var l := schedule[k];
        if Enabled(sys, l) && !IsBy(l, caller) {
          Take(l);
        }
      }
    }

    method Take(l: Label)
      requires Reachable(sys) && Enabled(sys, l)
      modifies this
      ensures Reachable(sys) && sys == Apply(old(sys), l) && setbacks == old(setbacks)
      ensures KeepsComplete(old(sys.table), sys.table)
    {
      StepKeepsComplete(sys, l);
      StepExtendsReach(sys, l);
      sys := Apply(sys, l);
    }

    method Begin(caller: AttemptId, event: EventId)
      requires Reachable(sys) && caller !in sys.attempts
      modifies this
      ensures At(caller, event, Putting) && setbacks == old(setbacks) && KeepsComplete(old(sys.table), sys.table)
    {
      Take(Start(caller, event));
    }

    method Fail(caller: AttemptId, ghost event: EventId, ghost pc: Pc)
      requires At(caller, event, pc)
      modifies this
      ensures At(caller, event, OnRaise(pc)) && setbacks == old(setbacks) + 1
      ensures KeepsComplete(old(sys.table), sys.table)
    {
      Take(Raise(caller));
      setbacks := setbacks + 1;
    }

    method CollectSnapshot(caller: AttemptId, event: EventId) returns (ok: bool)
      requires At(caller, event, Collecting)
      modifies this
      ensures At(caller, event, if ok then Advancing(SnapshotWork) else MarkingRetryable)
      ensures setbacks == old(setbacks) + if ok then 0 else 1
    {
      Interfere(caller);
      ok := *;
      if ok { Take(Collect(caller)); } else { Fail(caller, event, Collecting); }
    }

    /** The client library sends an applied request any number of times more. */
    method Resend(caller: AttemptId, request: WriteRequest, ghost event: EventId, ghost pc: Pc)
      requires At(caller, event, pc) && Writes(pc)
      requires request == RequestOf(caller, event, pc, request.now)
      modifies this
      ensures At(caller, event, pc) && setbacks == old(setbacks) && KeepsComplete(old(sys.table), sys.table)
    {
      hide Reachable, OnWritten, OnRejected, OnRaise, Writes, OutcomeOf, CheckpointOf;
      var resends: nat := *;
      Interfere(caller);
      while resends > 0 && Execute(sys.table, request).Some?
        invariant At(caller, event, pc) && setbacks == old(setbacks) && KeepsComplete(old(sys.table), sys.table)
        decreases resends
      {
        Take(Write(caller, request.now, Resent));
        Interfere(caller);
        resends := resends - 1;
      }
    }

    /** `put_item` and `update_item`: the client library may send the request
        several times, and the caller sees the reply to the last. */
    method SendWrite(caller: AttemptId, request: WriteRequest, ghost event: EventId, ghost pc: Pc) returns (call: Call)
      requires At(caller, event, pc) && Writes(pc)
      requires request == RequestOf(caller, event, pc, request.now)
      modifies this
      ensures call.Applied? ==> At(caller, event, OnWritten(pc)) && Shows(sys.table, request)
      ensures call.Rejected? ==> At(caller, event, OnRejected(pc, request.now))
      ensures call.Errored? ==> At(caller, event, OnRaise(pc))
      ensures setbacks == old(setbacks) + if call.Errored? || (call.Rejected? && NeedsClaim(pc)) then 1 else 0
      ensures KeepsComplete(old(sys.table), sys.table)
    {
      hide Reachable, OnWritten, OnRejected, OnRaise, Writes, OutcomeOf, CheckpointOf;
      Resend(caller, request, event, pc);
      var failed: bool, lost: bool := *, *;
      if failed {
        Fail(caller, event, pc);
        return Errored;
      }
      if Execute(sys.table, request).None? {
        Take(Write(caller, request.now, Delivered));
        if NeedsClaim(pc) { setbacks := setbacks + 1; }
        return Rejected;
      }
      if lost {
        Take(Write(caller, request.now, Lost));
        setbacks := setbacks + 1;
        return Errored;
      }
      Take(Write(caller, request.now, Delivered));
      return Applied;
    }

    method FetchItem(caller: AttemptId, event: EventId, ghost pc: Pc) returns (call: ReadCall)
      requires At(caller, event, pc) && (pc.ReadingClaim? || pc.ReadingBack?)
      modifies this
      ensures call.Fetched? ==>
                At(caller, event, OnRead(call.item, caller, event, pc)) && call.item == GetItem(sys.table, event)
      ensures call.ReadErrored? ==> At(caller, event, OnRaise(pc))
      ensures setbacks == old(setbacks) + if call.ReadErrored? || LostClaim(call.item, caller, pc) then 1 else 0
      ensures KeepsComplete(old(sys.table), sys.table)
    {
      Interfere(caller);
      var failed: bool := *;
      if failed {
        Fail(caller, event, pc);
        return ReadErrored;
      }
      call := Fetched(GetItem(sys.table, event));
      Take(Read(caller));
      if LostClaim(call.item, caller, pc) { setbacks := setbacks + 1; }
    }

    method PutObject(caller: AttemptId, event: EventId) returns (ok: bool)
      requires At(caller, event, PuttingBundle)
      modifies this
      ensures At(caller, event, if ok then Recording(BundleWork) else MarkingRetryable)
      ensures setbacks == old(setbacks) + if ok then 0 else 1
    {
      Interfere(caller);
      var failed: bool := *;
      ok := *;
      if failed {
        Fail(caller, event, PuttingBundle);
        return false;
      }
      Take(StoreBundle(caller, if ok then Delivered else Lost));
      if !ok { setbacks := setbacks + 1; }
    }

    method FindIssueByIncidentId(caller: AttemptId, event: EventId) returns (call: IssueCall)
      requires At(caller, event, Finding)
      modifies this
      ensures match call
              case Issued(number) => At(caller, event, Recording(IssueWork(number)))
              case NoneFound => At(caller, event, Creating)
              case IntegrationFailed => At(caller, event, Messaging(None))
              case IssueErrored => At(caller, event, MarkingRetryable)
      ensures setbacks == old(setbacks) + if call.Issued? || call.NoneFound? then 0 else 1
    {
      Interfere(caller);
      call := *;
      match call
      case Issued(number) =>
        if number in sys.issues && sys.issues[number] == IncidentIdFor(event) {
          Take(Find(caller, Some(number)));
        } else {
          Take(Find(caller, None));
          call := NoneFound;
        }
      case NoneFound => Take(Find(caller, None));
      case IntegrationFailed =>
        Take(Refuse(caller));
        setbacks := setbacks + 1;
      case IssueErrored => Fail(caller, event, Finding);
    }

    method CreateIncidentIssue(caller: AttemptId, event: EventId) returns (call: IssueCall)
      requires At(caller, event, Creating)
      modifies this
      ensures match call
              case Issued(number) => At(caller, event, Recording(IssueWork(number)))
              case NoneFound => false
              case IntegrationFailed => At(caller, event, Messaging(None))
              case IssueErrored => At(caller, event, MarkingRetryable)
      ensures setbacks == old(setbacks) + if call.Issued? then 0 else 1
    {
      Interfere(caller);
      var created: bool, replied: bool, sent: bool := *, *, *;
      var number: nat := *;
      if created && number !in sys.issues {
        Take(Create(caller, number, if replied then Delivered else Lost));
        if !replied { setbacks := setbacks + 1; }
        return if replied then Issued(number) else IntegrationFailed;
      }
      if sent {
        Take(Refuse(caller));
        setbacks := setbacks + 1;
        return IntegrationFailed;
      }
      Fail(caller, event, Creating);
      return IssueErrored;
    }

    method SendText(caller: AttemptId, event: EventId, link: Option<nat>) returns (call: SlackCall)
      requires At(caller, event, Messaging(link))
      modifies this
      ensures match call
              case Acknowledged => At(caller, event, Recording(SlackWork(link, true)))
              case SlackFailed => At(caller, event, Recording(SlackWork(link, false)))
              case SlackErrored => At(caller, event, MarkingRetryable)
      ensures setbacks == old(setbacks) + if call.Acknowledged? then 0 else 1
    {
      Interfere(caller);
      var broken: bool, delivered: bool, acknowledged: bool := *, *, *;
      if broken {
        Fail(caller, event, Messaging(link));
        return SlackErrored;
      }
      Take(Send(caller, delivered || acknowledged, acknowledged));
      if !acknowledged { setbacks := setbacks + 1; }
      return if acknowledged then Acknowledged else SlackFailed;
    }
  }

  class DynamoIncidentStateStore {
    const world: World
    var activeAttempts: map<EventId, AttemptId>

    constructor (world: World)
      ensures this.world == world && activeAttempts == map[]
    {
      this.world := world;
      activeAttempts := map[];
    }

    method EpochSeconds() returns (now: nat) {
      now := *;
    }

    method BeginEvent(event: EventId, incident: IncidentId, attempt: AttemptId) returns (call: ClaimCall)
      requires world.At(attempt, event, Putting) && incident == IncidentIdFor(event)
      modifies this, world
      ensures call.Claim? && (call.disposition.Started? || call.disposition.Resumed?) ==>
                && world.At(attempt, event, Collecting)
                && activeAttempts == old(activeAttempts)[event := attempt]
      ensures call.Claim? && call.disposition.CompleteClaim? ==>
                && world.At(attempt, event, Done(Duplicate))
                && event in world.sys.table && world.sys.table[event].status == Complete
      ensures call.Claim? && call.disposition.BusyClaim? ==>
                world.At(attempt, event, Done(Busy)) && !IsComplete(world.sys.table, event)
      ensures call.ClaimErrored? ==> world.At(attempt, event, Done(Failure))
      ensures (call.ClaimErrored? || call.disposition.BusyClaim? || call.disposition.CompleteClaim?) ==>
                activeAttempts == old(activeAttempts)
      ensures call.Claim? && (call.disposition.Started? || call.disposition.Resumed?) ==>
                event in world.sys.table && world.sys.table[event].status == Processing
      ensures world.setbacks == old(world.setbacks) + if call.ClaimErrored? then 1 else 0
      ensures KeepsComplete(old(world.sys.table), world.sys.table)
    {
      var now := EpochSeconds();
      var put := world.SendWrite(attempt, PutNew(event, incident, attempt, now), event, Putting);
      match put
      case Errored => return ClaimErrored;
      case Applied =>
        activeAttempts := activeAttempts[event := attempt];
        return Claim(Started);
      case Rejected =>
        var update := world.SendWrite(attempt, Resume(event, incident, attempt, now), event, Resuming);
        match update
        case Errored => return ClaimErrored;
        case Applied =>
          activeAttempts := activeAttempts[event := attempt];
          return Claim(Resumed);
        case Rejected =>
          call := ExistingClaim(event, incident, attempt);
    }

    method ExistingClaim(event: EventId, incident: IncidentId, attempt: AttemptId) returns (call: ClaimCall)
      requires world.At(attempt, event, ReadingClaim) && incident == IncidentIdFor(event)
      modifies world
      ensures call.Claim? ==> call.disposition.CompleteClaim? || call.disposition.BusyClaim?
      ensures call.Claim? && call.disposition.CompleteClaim? ==>
                && world.At(attempt, event, Done(Duplicate))
                && event in world.sys.table && world.sys.table[event].status == Complete
      ensures call.Claim? && call.disposition.BusyClaim? ==>
                world.At(attempt, event, Done(Busy)) && !IsComplete(world.sys.table, event)
      ensures call.ClaimErrored? ==> world.At(attempt, event, Done(Failure))
      ensures world.setbacks == old(world.setbacks) + if call.ClaimErrored? then 1 else 0
      ensures KeepsComplete(old(world.sys.table), world.sys.table)
    {
      var response := world.FetchItem(attempt, event, ReadingClaim);
      match response
      case ReadErrored => return ClaimErrored;
      case Fetched(item) =>
        if item.None? || item.value.incident != incident { return Claim(BusyClaim); }
        if item.value.status == Complete { return Claim(CompleteClaim); }
        return Claim(BusyClaim);
    }

    /** `_record_outcome`: the outcome write, then the checkpoint write. */
    method MarkOutcome(event: EventId, work: Work, ghost caller: AttemptId) returns (mark: Mark)
      requires !work.SnapshotWork? && world.At(caller, event, Recording(work))
      requires event in activeAttempts && activeAttempts[event] == caller
      modifies world
      ensures world.At(caller, event, if mark.Marked? then After(work) else MarkingRetryable)
      ensures world.setbacks == old(world.setbacks) + if mark.Marked? then 0 else 1
    {
      var attempt := activeAttempts[event];
      var now := EpochSeconds();
      var call := world.SendWrite(attempt, Record(event, attempt, OutcomeOf(work), now), event, Recording(work));
      match call
      case Errored => return MarkErrored;
      case Rejected => return NotOwner;
      case Applied => mark := AdvanceCheckpoint(event, work, caller);
    }

    /** `_advance`: the checkpoint write, or a read-back that finds the item
        still owned, under a live lease, with the rank already there. */
    method AdvanceCheckpoint(event: EventId, work: Work, ghost caller: AttemptId) returns (mark: Mark)
      requires world.At(caller, event, Advancing(work))
      requires event in activeAttempts && activeAttempts[event] == caller
      modifies world
      ensures world.At(caller, event, if mark.Marked? then After(work) else MarkingRetryable)
      ensures world.setbacks == old(world.setbacks) + if mark.Marked? then 0 else 1
    {
      var attempt := activeAttempts[event];
      var now := EpochSeconds();
      var call := world.SendWrite(attempt, AdvanceTo(event, attempt, CheckpointOf(work), now), event, Advancing(work));
      match call
      case Errored => return MarkErrored;
      case Applied => return Marked;
      case Rejected =>
        var response := world.FetchItem(attempt, event, ReadingBack(work, now));
        match response
        case ReadErrored => return MarkErrored;
        case Fetched(item) =>
          return if ReadBackConfirms(item, attempt, CheckpointOf(work), now) then Marked else NotOwner;
    }

    /** `_mark_processing_status` with the two statuses it is called with. */
    method MarkProcessingStatus(event: EventId, attempt: AttemptId, next: ProcessingStatus, ghost pc: Pc)
      returns (mark: Mark)
      requires (next == Complete && pc.Completing?) || (next == Retryable && pc.MarkingRetryable?)
      requires world.At(attempt, event, pc)
      modifies this, world
      ensures mark.Marked? ==>
                world.At(attempt, event, OnWritten(pc)) && activeAttempts == old(activeAttempts) - {event}
      ensures mark.Marked? ==> event in world.sys.table && world.sys.table[event].status == next
      ensures !mark.Marked? ==> activeAttempts == old(activeAttempts)
      ensures !mark.Marked? ==> world.At(attempt, event, if next == Complete then MarkingRetryable else Done(Stranded))
      ensures world.setbacks == old(world.setbacks) + if mark.Marked? then 0 else 1
    {
      var now := EpochSeconds();
      var call := world.SendWrite(attempt, StateTable.WriteRequest.Mark(event, attempt, next, now), event, pc);
      match call
      case Errored => return MarkErrored;
      case Rejected => return NotOwner;
      case Applied =>
        activeAttempts := activeAttempts - {event};
        return Marked;
    }
  }

  class Publisher {
    const world: World
    const state: DynamoIncidentStateStore

    constructor (world: World, state: DynamoIncidentStateStore)
      ensures this.world == world && this.state == state
    {
      this.world := world;
      this.state := state;
    }

    /** Bundle, Issue, Slack, in that order; each is marked before the next. */
    method Publish(event: EventId, caller: AttemptId) returns (call: PublishCall)
      requires state.world == world && world.At(caller, event, PuttingBundle)
      requires event in state.activeAttempts && state.activeAttempts[event] == caller
      modifies world
      ensures match call
              case PublishResult(issue, sent) => world.At(caller, event, After(SlackWork(issue, sent)))
              case PublishErrored => world.At(caller, event, MarkingRetryable)
      ensures world.setbacks >= old(world.setbacks)
      ensures world.setbacks == old(world.setbacks) <==> call.PublishResult? && call.issue.Some? && call.slackSent
    {
      hide Reachable, Apply, Enabled, OnRaise, IncidentIdFor, OnWritten, Writes, CheckpointOf;
      var stored := world.PutObject(caller, event);
      if !stored { return PublishErrored; }
      var mark := state.MarkOutcome(event, BundleWork, caller);
      if !mark.Marked? { return PublishErrored; }

      var published, link := PublishIssue(event, caller);
      if !published { return PublishErrored; }

      var slack := world.SendText(caller, event, link);
      if slack.SlackErrored? { return PublishErrored; }
      var sent := slack.Acknowledged?;
      mark := state.MarkOutcome(event, SlackWork(link, sent), caller);
      if !mark.Marked? { return PublishErrored; }
      return PublishResult(link, sent);
    }

    /** The Issue found or created, and marked; without a link when GitHub failed. */
    method PublishIssue(event: EventId, caller: AttemptId) returns (ok: bool, link: Option<nat>)
      requires state.world == world && world.At(caller, event, Finding)
      requires event in state.activeAttempts && state.activeAttempts[event] == caller
      modifies world
      ensures world.At(caller, event, if ok then Messaging(link) else MarkingRetryable)
      ensures world.setbacks >= old(world.setbacks)
      ensures world.setbacks == old(world.setbacks) <==> ok && link.Some?
    {
      hide Reachable, Apply, Enabled, OnRaise, IncidentIdFor, OnWritten, Writes, CheckpointOf;
      var issue := world.FindIssueByIncidentId(caller, event);
      if issue.NoneFound? {
        issue := world.CreateIncidentIssue(caller, event);
      }
      match issue
      case IssueErrored => return false, None;
      case IntegrationFailed => return true, None;
      case Issued(number) =>
        var mark := state.MarkOutcome(event, IssueWork(number), caller);
        return mark.Marked?, Some(number);
    }
  }

  class Runtime {
    const world: World
    const state: DynamoIncidentStateStore
    const publisher: Publisher

    constructor (world: World)
      ensures this.world == world && state.world == world && publisher.world == world && publisher.state == state
      ensures fresh(state) && fresh(publisher)
    {
      this.world := world;
      var store := new DynamoIncidentStateStore(world);
      state := store;
      publisher := new Publisher(world, store);
    }

    /** One delivery under a fresh attempt name. Whatever other processes do, it
        follows the protocol to its end: `published` and `duplicate` are only
        answered for a complete event, and the delivery raises exactly when the
        event was busy or something went wrong for one of its calls. A delivery
        that raises either never had a claim, or leaves the event retryable, or
        also failed to hand it back. An event that is complete already is answered
        as a duplicate unless one of the calls fails. */
    method Handle(event: EventId, attempt: AttemptId) returns (status: Status)
      requires state.world == world && publisher.world == world && publisher.state == state
      requires Reachable(world.sys) && attempt !in world.sys.attempts
      modifies world, state
      ensures Reachable(world.sys)
      ensures attempt in world.sys.attempts && world.sys.attempts[attempt].pc.Done?
      ensures !status.RaisedStatus? ==> event in world.sys.table && world.sys.table[event].status == Complete
      ensures status.PublishedStatus? <==> world.sys.attempts[attempt].pc == Done(Published)
      ensures status.DuplicateStatus? <==> world.sys.attempts[attempt].pc == Done(Duplicate)
      ensures old(IsComplete(world.sys.table, event)) ==>
                && KeepsComplete(old(world.sys.table), world.sys.table)
                && (world.setbacks == old(world.setbacks) ==> status.DuplicateStatus?)
      ensures world.sys.attempts[attempt].pc == Done(Busy) ==> !IsComplete(world.sys.table, event)
      ensures status.RaisedStatus? ==>
                var pc := world.sys.attempts[attempt].pc;
                || ((pc == Done(Busy) || pc == Done(Failure)) && state.activeAttempts == old(state.activeAttempts))
                || (pc == Done(HandedBack) && state.activeAttempts == old(state.activeAttempts) - {event}
                    && event in world.sys.table && world.sys.table[event].status == Retryable)
                || (pc == Done(Stranded) && state.activeAttempts == old(state.activeAttempts)[event := attempt]
                    && world.setbacks >= old(world.setbacks) + 2)
      ensures status.RaisedStatus? <==>
                world.setbacks > old(world.setbacks) || world.sys.attempts[attempt].pc == Done(Busy)
    {
      hide Reachable, Apply, Enabled, OnRaise, IncidentIdFor;
      var incident := IncidentIdFor(event);
      world.Begin(attempt, event);
      var claim := state.BeginEvent(event, incident, attempt);
      if claim.ClaimErrored? || claim.disposition.BusyClaim? { return RaisedStatus; }
      if claim.disposition.CompleteClaim? { return DuplicateStatus; }

      var published := ProcessClaimed(event, attempt);
      if published { return PublishedStatus; }
      var mark := state.MarkProcessingStatus(event, attempt, Retryable, MarkingRetryable);
      return RaisedStatus;
    }

    /** The body of the `try` once the claim is held. */
    method ProcessClaimed(event: EventId, attempt: AttemptId) returns (published: bool)
      requires state.world == world && publisher.world == world && publisher.state == state
      requires world.At(attempt, event, Collecting)
      requires event in state.activeAttempts && state.activeAttempts[event] == attempt
      modifies world, state
      ensures world.At(attempt, event, if published then Done(Published) else MarkingRetryable)
      ensures !published ==> state.activeAttempts == old(state.activeAttempts)
      ensures published ==> event in world.sys.table && world.sys.table[event].status == Complete
      ensures world.setbacks >= old(world.setbacks)
      ensures published <==> world.setbacks == old(world.setbacks)
    {
      var collected := world.CollectSnapshot(attempt, event);
      if !collected { return false; }
      var mark := state.AdvanceCheckpoint(event, SnapshotWork, attempt);
      if !mark.Marked? { return false; }
      var rendered: bool := *;
      if !rendered {
        world.Fail(attempt, event, PuttingBundle);
        return false;
      }
      var result := publisher.Publish(event, attempt);
      if result.PublishErrored? || result.issue.None? || !result.slackSent { return false; }
      mark := state.MarkProcessingStatus(event, attempt, Complete, Completing(result.issue.value));
      return mark.Marked?;
    }
  }
}
