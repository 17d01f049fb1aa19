/** The bounded investigation loop, `loop.py`, for any planner and any handlers. */
module AgentLoop {
  import opened Options
  import opened JsonText
  import opened PythonText
  import opened Domain
  import opened AgentTools
  import opened Citations

  const MAX_ROUNDS := 2
  const MAX_TOOLS_PER_ROUND := 3
  const MAX_TOTAL_TOOLS := 6
  const UNCLASSIFIED := "unclassified"
  const FALLBACK_MISSING := "추가 조사를 완료하지 못했습니다."

  /** Any planner: each call may answer anything, or raise (`None`), and may
      answer the same question differently each time. */
  datatype Planner = Planner(
    propose: (nat, Snapshot, seq<ToolResult>, nat) -> Option<Proposal>,
    summarize: (Snapshot, seq<ToolResult>) -> Option<Investigation>)

  function EvidenceOf(results: seq<ToolResult>): set<string> {
    set r, e | r in results && e in r.evidence :: e.id
  }

  /** `_allowed_evidence`. */
  function AllowedEvidence(snapshot: Snapshot, results: seq<ToolResult>): set<string> {
    (set e | e in snapshot.evidence :: e.id) + EvidenceOf(results)
  }

  predicate Supported(statement: Statement, allowed: set<string>) {
    statement.ids != [] && Distinct(statement.ids) && forall id :: id in statement.ids ==> id in allowed
  }

  /** `_validate_supported_output`. */
  predicate SupportedOutput(
    facts: seq<Statement>, directions: seq<Statement>, classification: string, ids: seq<string>, allowed: set<string>)
  {
    && !IsBlank(classification)
    && (forall id :: id in ids ==> id != "") && Distinct(ids) && (forall id :: id in ids ==> id in allowed)
    && (classification == UNCLASSIFIED || ids != [])
    && (forall s :: s in facts ==> Supported(s, allowed))
    && (forall s :: s in directions ==> Supported(s, allowed))
  }

  predicate NoBlanks(items: seq<string>) {
    forall item :: item in items ==> !IsBlank(item)
  }

  /** `_validate_proposal`. */
  predicate ValidProposal(proposal: Proposal, snapshot: Snapshot, prior: seq<ToolResult>, remaining: nat) {
    var allowed := AllowedEvidence(snapshot, prior);
    && |proposal.requests| <= MAX_TOOLS_PER_ROUND && |proposal.requests| <= remaining
    && NoBlanks(proposal.missing)
    && (forall r :: r in proposal.requests ==> Cites(r.reason, allowed))
    && SupportedOutput(
         proposal.facts, proposal.directions, proposal.classification, proposal.classificationIds, allowed)
  }

  /** `_validate_investigation`. The calls handed back need only be equal to the
      completed ones as Python compares them. */
  predicate ValidInvestigation(investigation: Investigation, snapshot: Snapshot, toolCalls: seq<ToolResult>) {
    && SameResults(investigation.toolCalls, toolCalls)
    && NoBlanks(investigation.missing)
    && SupportedOutput(investigation.facts, investigation.directions, investigation.classification,
                       investigation.classificationIds, AllowedEvidence(snapshot, toolCalls))
  }

  function FromProposal(proposal: Proposal, toolCalls: seq<ToolResult>): Investigation {
    Investigation(proposal.facts, proposal.directions, proposal.missing, proposal.classification, toolCalls,
                  proposal.classificationIds)
  }

  function Fallback(snapshot: Snapshot, toolCalls: seq<ToolResult>): Investigation {
    var failures :=
      if snapshot.failures == [] then []
      else ["기본 Snapshot 수집 실패 " + Decimal(|snapshot.failures|) + "건이 있습니다."];
    Investigation([], [], [FALLBACK_MISSING] + failures, UNCLASSIFIED, toolCalls, [])
  }

  lemma FallbackIsValid(snapshot: Snapshot, toolCalls: seq<ToolResult>)
    ensures ValidInvestigation(Fallback(snapshot, toolCalls), snapshot, toolCalls)
  {
    var missing := Fallback(snapshot, toolCalls).missing;
    assert UNCLASSIFIED[0] == 'u' && missing[0][0] == '추';
    assert |missing| == 2 ==> missing[1][0] == '기';
    assert !IsWhitespace('u') && !IsWhitespace('추') && !IsWhitespace('기');
    ResultsAreReflexive(toolCalls);
  }

  // ---- What a run comes to ----

  /** A run so far: its handler calls, the results of those that returned, and for
      each call how many results there were when its round began. */
  datatype Trace = Trace(calls: seq<ToolRequest>, results: seq<ToolResult>, starts: seq<nat>)

  datatype Ran = Ran(trace: Trace, investigation: Investigation)

  const NOTHING := Trace([], [], [])

  /** The requests in order, up to the first handler that raises, in a round that
      began with `start` results. */
  function RunBatch(handlers: Handlers, requests: seq<ToolRequest>, before: Trace, start: nat): (bool, Trace) {
    if requests == [] then (true, before)
    else
      var calls, starts := before.calls + [requests[0]], before.starts + [start];
      match handlers(|before.calls|, requests[0])
      case None => (false, Trace(calls, before.results, starts))
      case Some(result) => RunBatch(handlers, requests[1..], Trace(calls, before.results + [result], starts), start)
  }

  function Answer(planner: Planner, snapshot: Snapshot, results: seq<ToolResult>): Investigation {
    var summary := planner.summarize(snapshot, results);
    if summary.Some? && ValidInvestigation(summary.value, snapshot, results) then summary.value
    else Fallback(snapshot, results)
  }

  /** The rest of a run from the beginning of a round on. */
  function RunFrom(
    planner: Planner, handlers: Handlers, snapshot: Snapshot, topology: Topology, round: nat, before: Trace): Ran
    decreases MAX_ROUNDS - round
  {
    if round >= MAX_ROUNDS then Ran(before, Answer(planner, snapshot, before.results))
    else
      var remaining := MAX_TOTAL_TOOLS - |before.results|;
      if remaining < 0 then Ran(before, Fallback(snapshot, before.results))
      else
        var proposed := planner.propose(round, snapshot, before.results, remaining);
        if || proposed.None? || !ValidProposal(proposed.value, snapshot, before.results, remaining)
           || !BatchPermitted(proposed.value.requests, topology, KeySet(before.calls))
        then Ran(before, Fallback(snapshot, before.results))
        else if proposed.value.requests == [] then
          Ran(before, if before.results != [] then Answer(planner, snapshot, before.results)
                      else FromProposal(proposed.value, before.results))
        else
          var (ok, after) := RunBatch(handlers, proposed.value.requests, before, |before.results|);
          if ok then RunFrom(planner, handlers, snapshot, topology, round + 1, after)
          else Ran(after, Fallback(snapshot, after.results))
  }

  function WholeRun(planner: Planner, handlers: Handlers, snapshot: Snapshot, topology: Topology): Ran {
    RunFrom(planner, handlers, snapshot, topology, 0, NOTHING)
  }

  // ---- The policy ----

  /** Two rounds at most, of consecutive calls: a round that begins with `n`
      results starts with call `n` and makes at most three calls. */
  predicate InRounds(starts: seq<nat>) {
    && (forall k :: 0 <= k < |starts| ==> starts[k] <= k < starts[k] + MAX_TOOLS_PER_ROUND)
    && (forall j, k :: 0 <= j < k < |starts| && starts[k] <= j ==> starts[j] == starts[k])
    && (forall k :: 0 <= k < |starts| ==> starts[k] == 0 || starts[k] == starts[|starts| - 1])
  }

  /** The last round began with `n` results, and no call came between it and the
      first round. */
  predicate LastRoundFrom(starts: seq<nat>, n: nat) {
    forall k :: 0 <= k < |starts| ==> starts[k] == if k < n then 0 else n
  }

  /** What the policy says of the handler calls of one run. */
  predicate Policy(handlers: Handlers, trace: Trace, snapshot: Snapshot, topology: Topology) {
    var Trace(calls, results, starts) := trace;
    && |calls| <= MAX_TOTAL_TOOLS
    && |results| <= |calls| <= |results| + 1
    && (forall k :: 0 <= k < |results| ==> handlers(k, calls[k]) == Some(results[k]))
    && (|results| < |calls| ==> handlers(|results|, calls[|results|]) == None)
    && |starts| == |calls| && InRounds(starts)
    && Distinct(KeysOf(calls))
    && forall k :: 0 <= k < |calls| ==>
         && Allowlisted(calls[k], topology) && !IsBlank(calls[k].reason)
         && starts[k] <= |results|
         && Cites(calls[k].reason, AllowedEvidence(snapshot, results[..starts[k]]))
  }

  lemma KeysAccumulate(requests: seq<ToolRequest>, request: ToolRequest)
    ensures KeySet(requests + [request]) == KeySet(requests) + {DeduplicationKey(request)}
  {
    var all := requests + [request];
    forall key | key in KeySet(requests) ensures key in KeySet(all) {
      var r :| r in requests && DeduplicationKey(r) == key;
      assert r in all;
    }
    assert request in all;
  }

  lemma NewKeyIsDistinct(calls: seq<ToolRequest>, request: ToolRequest)
    requires Distinct(KeysOf(calls)) && DeduplicationKey(request) !in KeySet(calls)
    ensures Distinct(KeysOf(calls + [request]))
    ensures KeySet(calls + [request]) == KeySet(calls) + {DeduplicationKey(request)}
  {
    KeysAccumulate(calls, request);
    var all := calls + [request];
    forall i, j | 0 <= i < j < |all| ensures KeysOf(all)[i] != KeysOf(all)[j] {
      assert all[i] == calls[i];
      if j < |calls| { assert KeysOf(calls)[i] != KeysOf(calls)[j]; }
    }
  }

  /** One more permitted call keeps the policy, whether or not it returns. */
  lemma PolicyExtends(handlers: Handlers, before: Trace, snapshot: Snapshot, topology: Topology,
                      request: ToolRequest, results: seq<ToolResult>, start: nat)
    requires Policy(handlers, before, snapshot, topology)
    requires |before.calls| == |before.results| < MAX_TOTAL_TOOLS && start <= |before.results|
    requires InRounds(before.starts + [start]) && Permitted(request, topology, KeySet(before.calls))
    requires Cites(request.reason, AllowedEvidence(snapshot, before.results[..start]))
    requires match handlers(|before.calls|, request)
             case Some(result) => results == before.results + [result]
             case None => results == before.results
    ensures Policy(handlers, Trace(before.calls + [request], results, before.starts + [start]), snapshot, topology)
  {
    hide DeduplicationKey, Cites, AllowedEvidence, IsBlank, KeySet, InRounds;
    NewKeyIsDistinct(before.calls, request);
    var all, begun := before.calls + [request], before.starts + [start];
    forall k | 0 <= k < |all|
      ensures Allowlisted(all[k], topology) && !IsBlank(all[k].reason) && begun[k] <= |results|
              && Cites(all[k].reason, AllowedEvidence(snapshot, results[..begun[k]]))
    {
      if k < |before.calls| { assert all[k] == before.calls[k] && begun[k] == before.starts[k]; }
      assert results[..begun[k]] == before.results[..begun[k]];
    }
  }

  lemma FirstIsPermitted(requests: seq<ToolRequest>, topology: Topology, calls: seq<ToolRequest>)
    requires requests != [] && BatchPermitted(requests, topology, KeySet(calls))
    ensures Permitted(requests[0], topology, KeySet(calls))
    ensures BatchPermitted(requests[1..], topology, KeySet(calls + [requests[0]]))
  {
    hide DeduplicationKey, IsBlank;
    var first, rest := requests[0], requests[1..];
    KeysAccumulate(calls, first);
    assert KeySet(calls) + KeySet(requests[..0]) == KeySet(calls);
    forall k | 0 <= k < |rest| ensures Permitted(rest[k], topology, KeySet(calls + [first]) + KeySet(rest[..k])) {
      assert Permitted(requests[k + 1], topology, KeySet(calls) + KeySet(requests[..k + 1]));
      assert requests[..k + 1] == [first] + rest[..k];
      KeysJoin(first, rest[..k]);
    }
  }

  lemma KeysJoin(request: ToolRequest, rest: seq<ToolRequest>)
    ensures KeySet([request] + rest) == {DeduplicationKey(request)} + KeySet(rest)
  {
    var all := [request] + rest;
    forall key | key in KeySet(rest) ensures key in KeySet(all) {
      var r :| r in rest && DeduplicationKey(r) == key;
      assert r in all;
    }
    assert request in all;
  }

  lemma RoundGoesOn(starts: seq<nat>, start: nat)
    requires InRounds(starts) && LastRoundFrom(starts, start) && start <= |starts| < start + MAX_TOOLS_PER_ROUND
    ensures InRounds(starts + [start]) && LastRoundFrom(starts + [start], start)
  {
  }

  /** A validated batch keeps the policy: it runs in order, and it stops only at a
      handler that raises. */
  lemma {:induction false} BatchKeepsPolicy(
    handlers: Handlers, requests: seq<ToolRequest>, before: Trace, start: nat, snapshot: Snapshot, topology: Topology)
    requires Policy(handlers, before, snapshot, topology) && |before.calls| == |before.results|
    requires start <= |before.calls| <= |before.calls| + |requests| <= start + MAX_TOOLS_PER_ROUND
    requires |before.calls| + |requests| <= MAX_TOTAL_TOOLS && LastRoundFrom(before.starts, start)
    requires BatchPermitted(requests, topology, KeySet(before.calls))
    requires forall r :: r in requests ==> Cites(r.reason, AllowedEvidence(snapshot, before.results[..start]))
    ensures var (ok, after) := RunBatch(handlers, requests, before, start);
            && Policy(handlers, after, snapshot, topology)
            && (ok ==> after.calls == before.calls + requests && |after.calls| == |after.results|
                       && LastRoundFrom(after.starts, start))
            && (!ok ==> |after.calls| == |after.results| + 1)
    decreases |requests|
  {
    hide Policy, Permitted, BatchPermitted, DeduplicationKey, Cites, AllowedEvidence, KeySet, LastRoundFrom, InRounds;
    if requests != [] {
      var request, rest := requests[0], requests[1..];
      StartsOf(handlers, before, snapshot, topology);
      FirstIsPermitted(requests, topology, before.calls);
      RoundGoesOn(before.starts, start);
      var answer := handlers(|before.calls|, request);
      var results := if answer.Some? then before.results + [answer.value] else before.results;
      PolicyExtends(handlers, before, snapshot, topology, request, results, start);
      if answer.Some? {
        assert results[..start] == before.results[..start];
        BatchKeepsPolicy(
          handlers, rest, Trace(before.calls + [request], results, before.starts + [start]), start, snapshot, topology);
        assert before.calls + [request] + rest == before.calls + requests;
      }
    }
  }

  lemma StartsOf(handlers: Handlers, trace: Trace, snapshot: Snapshot, topology: Topology)
    requires Policy(handlers, trace, snapshot, topology)
    ensures |trace.starts| == |trace.calls| && InRounds(trace.starts)
  {
  }

  /** What holds between two rounds. */
  predicate BetweenRounds(handlers: Handlers, trace: Trace, snapshot: Snapshot, topology: Topology, round: nat) {
    && Policy(handlers, trace, snapshot, topology)
    && |trace.calls| == |trace.results| <= round * MAX_TOOLS_PER_ROUND
    && (round <= 1 ==> LastRoundFrom(trace.starts, 0))
  }

  lemma RoundKeepsPolicy(handlers: Handlers, proposal: Proposal, before: Trace, snapshot: Snapshot, topology: Topology,
                         round: nat)
    requires round < MAX_ROUNDS && BetweenRounds(handlers, before, snapshot, topology, round)
    requires |before.results| <= MAX_TOTAL_TOOLS
    requires ValidProposal(proposal, snapshot, before.results, MAX_TOTAL_TOOLS - |before.results|)
    requires BatchPermitted(proposal.requests, topology, KeySet(before.calls))
    ensures var (ok, after) := RunBatch(handlers, proposal.requests, before, |before.results|);
            && Policy(handlers, after, snapshot, topology)
            && (ok ==> BetweenRounds(handlers, after, snapshot, topology, round + 1))
            && (ok ==> after.calls == before.calls + proposal.requests)
            && (!ok ==> |after.calls| == |after.results| + 1)
  {
    hide Policy, BatchPermitted, KeySet, Cites, AllowedEvidence, SupportedOutput;
    StartsOf(handlers, before, snapshot, topology);
    assert before.results[..|before.results|] == before.results;
    BatchKeepsPolicy(handlers, proposal.requests, before, |before.results|, snapshot, topology);
  }

  /** For every planner and all handlers the calls keep to the policy, and the
      answer is supported by the snapshot and by the results that returned. */
  lemma {:induction false} RunKeepsPolicy(
    planner: Planner, handlers: Handlers, snapshot: Snapshot, topology: Topology, round: nat, before: Trace)
    requires round <= MAX_ROUNDS && BetweenRounds(handlers, before, snapshot, topology, round)
    ensures var ran := RunFrom(planner, handlers, snapshot, topology, round, before);
            && Policy(handlers, ran.trace, snapshot, topology)
            && ValidInvestigation(ran.investigation, snapshot, ran.trace.results)
            && (|ran.trace.results| < |ran.trace.calls| ==> ran.investigation == Fallback(snapshot, ran.trace.results))
    decreases MAX_ROUNDS - round
  {
    hide Policy, BatchPermitted, KeySet, ValidProposal, ValidInvestigation, Fallback, FromProposal;
    hide LastRoundFrom, RunBatch;
    FallbackIsValid(snapshot, before.results);
    if round < MAX_ROUNDS {
      var remaining := MAX_TOTAL_TOOLS - |before.results|;
      var proposed := planner.propose(round, snapshot, before.results, remaining);
      if && proposed.Some? && ValidProposal(proposed.value, snapshot, before.results, remaining)
         && BatchPermitted(proposed.value.requests, topology, KeySet(before.calls))
      {
        ProposalIsValid(proposed.value, snapshot, before.results, remaining);
        var (ok, after) := RunBatch(handlers, proposed.value.requests, before, |before.results|);
        RoundKeepsPolicy(handlers, proposed.value, before, snapshot, topology, round);
        FallbackIsValid(snapshot, after.results);
        if ok { RunKeepsPolicy(planner, handlers, snapshot, topology, round + 1, after); }
      }
    }
  }

  lemma ProposalIsValid(proposal: Proposal, snapshot: Snapshot, prior: seq<ToolResult>, remaining: nat)
    requires ValidProposal(proposal, snapshot, prior, remaining)
    ensures ValidInvestigation(FromProposal(proposal, prior), snapshot, prior)
  {
    ResultsAreReflexive(prior);
  }

  lemma WholeRunKeepsPolicy(planner: Planner, handlers: Handlers, snapshot: Snapshot, topology: Topology)
    ensures var ran := WholeRun(planner, handlers, snapshot, topology);
            && Policy(handlers, ran.trace, snapshot, topology)
            && ValidInvestigation(ran.investigation, snapshot, ran.trace.results)
            && (|ran.trace.results| < |ran.trace.calls| ==> ran.investigation == Fallback(snapshot, ran.trace.results))
  {
    hide ValidInvestigation, Fallback;
    assert Policy(handlers, NOTHING, snapshot, topology);
    RunKeepsPolicy(planner, handlers, snapshot, topology, 0, NOTHING);
  }

  // ---- The loop ----

  class InvestigationAgent {
    const planner: Planner
    const registry: ToolRegistry

    constructor (planner: Planner, registry: ToolRegistry)
      ensures this.planner == planner && this.registry == registry
    {
      this.planner := planner;
      this.registry := registry;
    }

    /** `_finalize`. */
    method Finalize(snapshot: Snapshot, toolCalls: seq<ToolResult>) returns (investigation: Investigation)
      ensures investigation == Answer(planner, snapshot, toolCalls)
      ensures ValidInvestigation(investigation, snapshot, toolCalls)
    {
      FallbackIsValid(snapshot, toolCalls);
      var summary := planner.summarize(snapshot, toolCalls);
      if summary.Some? && ValidInvestigation(summary.value, snapshot, toolCalls) {
        return summary.value;
      }
      return Fallback(snapshot, toolCalls);
    }

    /** The run is the one the planner and the handlers determine. Whatever they
        do, the calls keep to the policy, and the answer is supported by the
        snapshot and by the results of the calls that returned, in order. */
    method Run(snapshot: Snapshot, topology: Topology) returns (investigation: Investigation)
      requires registry.calls == [] && registry.results == []
      modifies registry
      ensures var ran := WholeRun(planner, registry.handlers, snapshot, topology);
              && registry.calls == ran.trace.calls && registry.results == ran.trace.results
              && investigation == ran.investigation
              && Policy(registry.handlers, ran.trace, snapshot, topology)
      ensures ValidInvestigation(investigation, snapshot, registry.results)
      ensures |registry.results| < |registry.calls| ==> investigation == Fallback(snapshot, registry.results)
    {
      hide Policy, ValidProposal, ValidInvestigation, BatchPermitted, Fallback, FromProposal, KeySet, RunBatch;
      WholeRunKeepsPolicy(planner, registry.handlers, snapshot, topology);
      NoKeysYet();
      ghost var starts: seq<nat> := [];
      var executed: seq<ToolResult> := [];
      var seen := new SeenKeys();
      for round := 0 to MAX_ROUNDS
        invariant executed == registry.results && |executed| <= round * MAX_TOOLS_PER_ROUND
        invariant RunFrom(planner, registry.handlers, snapshot, topology, round,
                          Trace(registry.calls, registry.results, starts)) ==
                  WholeRun(planner, registry.handlers, snapshot, topology)
        invariant seen.keys == KeySet(registry.calls)
        invariant fresh(seen)
      {
        var remaining := MAX_TOTAL_TOOLS - |executed|;
        var proposed := planner.propose(round, snapshot, executed, remaining);
        if proposed.None? || !ValidProposal(proposed.value, snapshot, executed, remaining) {
          return Fallback(snapshot, executed);
        }
        var proposal := proposed.value;
        var permitted := registry.ValidateBatch(proposal.requests, topology, seen);
        if !permitted {
          return Fallback(snapshot, executed);
        }
        if proposal.requests == [] {
          if executed != [] {
            investigation := Finalize(snapshot, executed);
            return;
          }
          return FromProposal(proposal, executed);
        }
        WithinBudget(proposal, snapshot, executed, remaining);
        var ok: bool;
        ok, executed, starts := ExecuteBatch(proposal.requests, topology, seen, executed, starts);
        if !ok {
          return Fallback(snapshot, executed);
        }
      }
      investigation := Finalize(snapshot, executed);
    }

    /** Runs a validated batch. The registry denies none of it part-way: only a
        handler that raises can stop it. */
    method ExecuteBatch(requests: seq<ToolRequest>, topology: Topology, seen: SeenKeys, before: seq<ToolResult>,
                        ghost starts: seq<nat>)
      returns (ok: bool, executed: seq<ToolResult>, ghost begun: seq<nat>)
      requires before == registry.results && seen.keys == KeySet(registry.calls)
      requires BatchPermitted(requests, topology, seen.keys)
      modifies registry, seen
      ensures executed == registry.results
      ensures (ok, Trace(registry.calls, registry.results, begun)) ==
              RunBatch(registry.handlers, requests, Trace(old(registry.calls), before, starts), |before|)
      ensures ok ==> seen.keys == KeySet(registry.calls) && |executed| == |before| + |requests|
    {
      hide Permitted, DeduplicationKey, KeySet;
      executed, begun := before, starts;
      ghost var batch := RunBatch(registry.handlers, requests, Trace(registry.calls, before, starts), |before|);
      assert requests[0..] == requests;
      NoKeysYet();
      for k := 0 to |requests|
        invariant executed == registry.results && |executed| == |before| + k
        invariant RunBatch(registry.handlers, requests[k..], Trace(registry.calls, executed, begun), |before|) == batch
        invariant seen.keys == KeySet(registry.calls) == old(seen.keys) + KeySet(requests[..k])
      {
        assert requests[..k + 1] == requests[..k] + [requests[k]];
        assert requests[k..][0] == requests[k] && requests[k..][1..] == requests[k + 1..];
        KeysAccumulate(requests[..k], requests[k]);
        KeysAccumulate(registry.calls, requests[k]);
        var execution := registry.Execute(requests[k], topology, seen);
        begun := begun + [|before|];
        if !execution.Completed? { return false, executed, begun; }
        executed := executed + [execution.result];
      }
      assert requests[|requests|..] == [];
      return true, executed, begun;
    }
  }

  lemma NoKeysYet()
    ensures KeySet([]) == {}
  {
  }

  lemma WithinBudget(proposal: Proposal, snapshot: Snapshot, prior: seq<ToolResult>, remaining: nat)
    requires ValidProposal(proposal, snapshot, prior, remaining)
    ensures |proposal.requests| <= MAX_TOOLS_PER_ROUND
  {
  }
}
