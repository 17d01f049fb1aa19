/** What the investigation loop answers, told from the planner's proposals and the
    calls that were made. */
module AgentAnswers {
  import opened Options
  import opened JsonText
  import opened PythonText
  import opened Domain
  import opened AgentTools
  import opened AgentLoop
  import opened Citations

  /** The proposal of a round may be acted on, given what came before it. */
  predicate IsAcceptable(
    proposed: Option<Proposal>, snapshot: Snapshot, topology: Topology, calls: seq<ToolRequest>,
    results: seq<ToolResult>)
  {
    && proposed.Some? && |results| <= 6 && ValidProposal(proposed.value, snapshot, results, 6 - |results|)
    && BatchPermitted(proposed.value.requests, topology, KeySet(calls))
  }

  function First(planner: Planner, snapshot: Snapshot): Option<Proposal> {
    planner.propose(0, snapshot, [], 6)
  }

  /** What is proposed after a first round of `n` calls, all of which returned. */
  function Second(planner: Planner, snapshot: Snapshot, results: seq<ToolResult>, n: nat): Option<Proposal>
    requires n <= |results| && n <= 6
  {
    planner.propose(1, snapshot, results[..n], 6 - n)
  }

  /** Every proposal asked for was acceptable, and every call returned. */
  predicate WentWell(planner: Planner, trace: Trace, snapshot: Snapshot, topology: Topology) {
    var first := First(planner, snapshot);
    && IsAcceptable(first, snapshot, topology, [], [])
    && (first.value.requests != [] ==>
          var n := |first.value.requests|;
          && n <= |trace.results| == |trace.calls| && n <= 6
          && IsAcceptable(
               Second(planner, snapshot, trace.results, n), snapshot, topology, trace.calls[..n], trace.results[..n]))
  }

  lemma {:induction false} BatchExtends(handlers: Handlers, requests: seq<ToolRequest>, before: Trace, start: nat)
    ensures var (ok, after) := RunBatch(handlers, requests, before, start);
            && before.calls <= after.calls && before.results <= after.results
            && |after.calls| <= |before.calls| + |requests|
            && after.calls == before.calls + requests[..|after.calls| - |before.calls|]
            && (ok ==> after.calls == before.calls + requests && |after.results| == |before.results| + |requests|)
            && (!ok ==> |after.results| - |before.results| + 1 == |after.calls| - |before.calls|)
    decreases |requests|
  {
    if requests != [] {
      var request, rest := requests[0], requests[1..];
      var answer := handlers(|before.calls|, request);
      if answer.Some? {
        var next := Trace(before.calls + [request], before.results + [answer.value], before.starts + [start]);
        BatchExtends(handlers, rest, next, start);
        var (_, after) := RunBatch(handlers, rest, next, start);
        var m := |after.calls| - |next.calls|;
        assert requests[..m + 1] == [request] + rest[..m];
        assert requests == [request] + rest;
      }
    }
  }

  /** The first round, when something is asked for. */
  lemma FirstRound(planner: Planner, handlers: Handlers, snapshot: Snapshot, topology: Topology)
    requires IsAcceptable(First(planner, snapshot), snapshot, topology, [], [])
    requires First(planner, snapshot).value.requests != []
    ensures var ran, asked := WholeRun(planner, handlers, snapshot, topology), First(planner, snapshot).value.requests;
            var (ok, after) := RunBatch(handlers, asked, NOTHING, 0);
            && |asked| <= 3 && |after.calls| <= |asked| && after.calls == asked[..|after.calls|]
            && (ok ==> |after.results| == |asked| && after.calls == asked
                       && ran == RunFrom(planner, handlers, snapshot, topology, 1, after))
            && (!ok ==> |after.results| < |after.calls| && ran == Ran(after, Fallback(snapshot, after.results)))
  {
    hide ValidProposal, BatchPermitted, KeySet, RunBatch, Fallback, FromProposal, Answer;
    NoKeysYet();
    AcceptedIsShort(First(planner, snapshot), snapshot, topology, [], []);
    BatchExtends(handlers, First(planner, snapshot).value.requests, NOTHING, 0);
  }

  /** The run whose first proposal is not acceptable, or asks for nothing. */
  lemma NothingAsked(planner: Planner, handlers: Handlers, snapshot: Snapshot, topology: Topology)
    ensures var ran, first := WholeRun(planner, handlers, snapshot, topology), First(planner, snapshot);
            if !IsAcceptable(first, snapshot, topology, [], []) then ran == Ran(NOTHING, Fallback(snapshot, []))
            else first.value.requests == [] ==> ran == Ran(NOTHING, FromProposal(first.value, []))
  {
    hide ValidProposal, BatchPermitted, KeySet, RunBatch, Fallback, FromProposal, Answer;
    NoKeysYet();
  }

  /** A run that did not go well answers the fallback over the results it has. */
  lemma SetbackAnswersFallback(planner: Planner, handlers: Handlers, snapshot: Snapshot, topology: Topology)
    ensures var ran := WholeRun(planner, handlers, snapshot, topology);
            !WentWell(planner, ran.trace, snapshot, topology) ==>
              ran.investigation == Fallback(snapshot, ran.trace.results)
  {
    hide ValidProposal, BatchPermitted, KeySet, RunBatch, Fallback, FromProposal, Answer, WholeRun, RunFrom;
    var ran := WholeRun(planner, handlers, snapshot, topology);
    var first := First(planner, snapshot);
    NothingAsked(planner, handlers, snapshot, topology);
    if IsAcceptable(first, snapshot, topology, [], []) && first.value.requests != [] {
      var (ok, after) := RunBatch(handlers, first.value.requests, NOTHING, 0);
      FirstRound(planner, handlers, snapshot, topology);
      if ok {
        var n := |first.value.requests|;
        SecondRound(planner, handlers, snapshot, topology, after);
        assert ran.trace.results[..n] == after.results && ran.trace.calls[..n] == after.calls;
      }
    }
  }

  lemma AcceptedIsShort(
    proposed: Option<Proposal>, snapshot: Snapshot, topology: Topology, calls: seq<ToolRequest>,
    results: seq<ToolResult>)
    requires IsAcceptable(proposed, snapshot, topology, calls, results)
    ensures |proposed.value.requests| <= 3
  {
  }

  /** The second round, and the answer after it. */
  lemma SecondRound(planner: Planner, handlers: Handlers, snapshot: Snapshot, topology: Topology, before: Trace)
    requires 0 < |before.results| == |before.calls| <= 3
    ensures var ran := RunFrom(planner, handlers, snapshot, topology, 1, before);
            var second := planner.propose(1, snapshot, before.results, 6 - |before.results|);
            && before.calls <= ran.trace.calls && before.results <= ran.trace.results
            && (if IsAcceptable(second, snapshot, topology, before.calls, before.results)
                   && |ran.trace.results| == |ran.trace.calls|
                then ran.trace.calls == before.calls + second.value.requests
                     && ran.investigation == Answer(planner, snapshot, ran.trace.results)
                else ran.investigation == Fallback(snapshot, ran.trace.results))
  {
    hide ValidProposal, BatchPermitted, KeySet, RunBatch, Fallback, FromProposal, Answer;
    var second := planner.propose(1, snapshot, before.results, 6 - |before.results|);
    if IsAcceptable(second, snapshot, topology, before.calls, before.results) && second.value.requests != [] {
      BatchExtends(handlers, second.value.requests, before, |before.results|);
      var (ok, after) := RunBatch(handlers, second.value.requests, before, |before.results|);
      if ok { assert RunFrom(planner, handlers, snapshot, topology, 2, after).trace == after; }
    }
  }

  /** A run that went well makes the calls that were asked for, in order. A first
      proposal without requests is handed back; after any calls the planner's summary
      is the answer when it is valid, whether or not the second proposal asked for
      more, and the fallback only when it is not. */
  lemma SuccessAnswersThePlanner(planner: Planner, handlers: Handlers, snapshot: Snapshot, topology: Topology)
    requires WentWell(planner, WholeRun(planner, handlers, snapshot, topology).trace, snapshot, topology)
    ensures var ran := WholeRun(planner, handlers, snapshot, topology);
            var first, results := First(planner, snapshot).value, ran.trace.results;
            if first.requests == [] then
              && ran.trace.calls == [] && results == []
              && ran.investigation == Investigation(
                   first.facts, first.directions, first.missing, first.classification, [], first.classificationIds)
            else
              var second := Second(planner, snapshot, results, |first.requests|).value;
              var summary := planner.summarize(snapshot, results);
              && ran.trace.calls == first.requests + second.requests
              && (summary.Some? && ValidInvestigation(summary.value, snapshot, results) ==>
                    ran.investigation == summary.value)
              && (summary.None? || !ValidInvestigation(summary.value, snapshot, results) ==>
                    ran.investigation == Fallback(snapshot, results))
  {
    hide ValidProposal, BatchPermitted, KeySet, RunBatch, Fallback, ValidInvestigation, WholeRun, RunFrom;
    var ran := WholeRun(planner, handlers, snapshot, topology);
    var first := First(planner, snapshot).value;
    NothingAsked(planner, handlers, snapshot, topology);
    if first.requests != [] {
      var (ok, after) := RunBatch(handlers, first.requests, NOTHING, 0);
      FirstRound(planner, handlers, snapshot, topology);
      if ok {
        SecondRound(planner, handlers, snapshot, topology, after);
        assert ran.trace.results[..|first.requests|] == after.results;
        assert ran.trace.calls[..|first.requests|] == after.calls;
      }
    }
  }

  /** The calls of a run that did not go well are those asked for, up to the one that
      raised. */
  lemma CallsWereAskedFor(planner: Planner, handlers: Handlers, snapshot: Snapshot, topology: Topology)
    ensures var ran := WholeRun(planner, handlers, snapshot, topology);
            var calls, first := ran.trace.calls, First(planner, snapshot);
            && (!IsAcceptable(first, snapshot, topology, [], []) ==> calls == [])
            && (IsAcceptable(first, snapshot, topology, [], []) ==>
                  var asked := first.value.requests;
                  calls <= asked || (asked <= calls && |asked| <= |ran.trace.results|))
  {
    hide ValidProposal, BatchPermitted, KeySet, RunBatch, Fallback, FromProposal, Answer, WholeRun, RunFrom;
    var first := First(planner, snapshot);
    NothingAsked(planner, handlers, snapshot, topology);
    if IsAcceptable(first, snapshot, topology, [], []) && first.value.requests != [] {
      var (ok, after) := RunBatch(handlers, first.value.requests, NOTHING, 0);
      FirstRound(planner, handlers, snapshot, topology);
      if ok { SecondRound(planner, handlers, snapshot, topology, after); }
    }
  }

  /** The fallback supports nothing, and says how many collectors failed. */
  lemma FallbackClaimsNothing(snapshot: Snapshot, results: seq<ToolResult>)
    ensures var f := Fallback(snapshot, results);
            && f.facts == [] && f.directions == [] && f.classification == "unclassified" && f.classificationIds == []
            && f.toolCalls == results
            && |f.missing| == (if snapshot.failures == [] then 1 else 2)
            && f.missing[0] == "추가 조사를 완료하지 못했습니다."
            && (snapshot.failures != [] ==> Contains(f.missing[1], Decimal(|snapshot.failures|)))
  {
    if snapshot.failures != [] {
      var before, count, after := "기본 Snapshot 수집 실패 ", Decimal(|snapshot.failures|), "건이 있습니다.";
      assert (before + count + after)[|before|..|before| + |count|] == count;
      assert At(before + count + after, count, |before|);
    }
  }

  // ---- What is valid ----

  /** Distinct IDs of available evidence. */
  predicate CitesDistinct(ids: seq<string>, available: set<string>) {
    && (forall i, j :: 0 <= i < j < |ids| ==> ids[i] != ids[j])
    && forall id :: id in ids ==> id in available
  }

  /** The conditions on what a planner says, proposal or summary. */
  predicate IsSupported(
    facts: seq<Statement>, directions: seq<Statement>, missing: seq<string>, classification: string, ids: seq<string>,
    available: set<string>)
  {
    && (forall s :: s in facts + directions ==> |s.ids| > 0 && CitesDistinct(s.ids, available))
    && (forall item :: item in missing ==> exists k :: 0 <= k < |item| && !IsWhitespace(item[k]))
    && (exists k :: 0 <= k < |classification| && !IsWhitespace(classification[k]))
    && CitesDistinct(ids, available) && "" !in ids
    && (ids == [] ==> classification == "unclassified")
  }

  lemma ProposalIsValidExactly(proposal: Proposal, snapshot: Snapshot, prior: seq<ToolResult>, remaining: nat)
    ensures var available := AllowedEvidence(snapshot, prior);
            ValidProposal(proposal, snapshot, prior, remaining) <==>
            && |proposal.requests| <= 3 && |proposal.requests| <= remaining
            && (forall r :: r in proposal.requests ==> Cites(r.reason, available))
            && IsSupported(proposal.facts, proposal.directions, proposal.missing, proposal.classification,
                           proposal.classificationIds, available)
  {
    hide AllowedEvidence, Cites, IsWhitespace;
  }

  lemma InvestigationIsValidExactly(i: Investigation, snapshot: Snapshot, executed: seq<ToolResult>)
    ensures ValidInvestigation(i, snapshot, executed) <==>
            && |i.toolCalls| == |executed|
            && (forall k :: 0 <= k < |executed| ==> SameResult(i.toolCalls[k], executed[k]))
            && IsSupported(i.facts, i.directions, i.missing, i.classification, i.classificationIds,
                           AllowedEvidence(snapshot, executed))
  {
    hide AllowedEvidence, SameResult, IsWhitespace;
  }

  lemma AllowedExactly(snapshot: Snapshot, results: seq<ToolResult>, id: string)
    ensures id in AllowedEvidence(snapshot, results) <==>
            || (exists e :: e in snapshot.evidence && e.id == id)
            || exists r, e :: r in results && e in r.evidence && e.id == id
  {
  }
}
