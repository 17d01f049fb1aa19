/** The handoff conditions of `handoff.py`: recorded Tools run one after the
    other, each citing evidence visible by then. */
module Handoff {
  import opened Options
  import opened JsonText
  import opened PythonText
  import opened Domain
  import opened AgentTools
  import opened AgentLoop
  import opened Evaluation
  import C = Citations

  datatype Condition = RawAlarm | IncidentBrief

  datatype HandoffClaim = HandoffClaim(text: string, ids: seq<string>)

  datatype Clarification = Clarification(kind: string, requestKind: string)

  datatype HandoffOutput = HandoffOutput(
    direction: Option<string>, clarifications: seq<Clarification>,
    requests: seq<ToolRequest>, claims: seq<HandoffClaim>)

  /** What a recording was made for: its replay context, with digests of the prompt,
      the fixture and the recorded Tools. */
  datatype Provenance = Provenance(
    fixtureId: string, condition: Condition, modelId: string, promptBudget: int,
    promptDigest: string, fixtureDigest: string, registryId: string)

  datatype HandoffRecording = HandoffRecording(provenance: Provenance, output: HandoffOutput)

  datatype HandoffExpectation = HandoffExpectation(labels: set<string>, clarificationKinds: set<string>)

  datatype HandoffRun = HandoffRun(
    toolCalls: nat, direction: Option<string>, clarificationRequests: nat, unsupportedClaims: nat)

  const USER_CONTEXT := "request_user_context"

  function VisibleIds(fixture: EvalFixture, condition: Condition): set<string> {
    if condition == RawAlarm then {} else set e | e in fixture.snapshot.evidence :: e.id
  }

  predicate ClaimIsUnsupported(claim: HandoffClaim, available: set<string>) {
    claim.ids == [] || exists id :: id in claim.ids && id !in available
  }

  function CountClaims(claims: seq<HandoffClaim>, available: set<string>): (n: nat)
    ensures n <= |claims|
    ensures n == 0 <==> forall claim :: claim in claims ==> !ClaimIsUnsupported(claim, available)
  {
    if claims == [] then 0
    else
      assert claims == claims[..|claims| - 1] + [claims[|claims| - 1]];
      CountClaims(claims[..|claims| - 1], available)
      + if ClaimIsUnsupported(claims[|claims| - 1], available) then 1 else 0
  }

  /** What may be cited after the first `k` requests have run. */
  function AvailableAfter(fixture: EvalFixture, requests: seq<ToolRequest>, visible: set<string>): set<string> {
    if requests == [] then visible
    else
      var front, last := requests[..|requests| - 1], requests[|requests| - 1];
      var before := AvailableAfter(fixture, front, visible);
      match Recorded(fixture.toolResults, DeduplicationKey(last))
      case Some(result) => before + (set e | e in result.evidence :: e.id)
      case None => before
  }

  /** Request `k` cites evidence available by then, is permitted and new, and is
      recorded by the fixture. */
  predicate MayRun(fixture: EvalFixture, requests: seq<ToolRequest>, visible: set<string>, k: nat)
    requires k < |requests|
  {
    && C.Cites(requests[k].reason, AvailableAfter(fixture, requests[..k], visible))
    && Permitted(requests[k], fixture.topology, KeySet(requests[..k]))
    && Recorded(fixture.toolResults, DeduplicationKey(requests[k])).Some?
  }

  predicate Executable(fixture: EvalFixture, requests: seq<ToolRequest>, visible: set<string>) {
    |requests| <= MAX_TOTAL_TOOLS && forall k :: 0 <= k < |requests| ==> MayRun(fixture, requests, visible, k)
  }

  lemma OneMoreRuns(fixture: EvalFixture, requests: seq<ToolRequest>, visible: set<string>, k: nat)
    requires k < |requests|
    ensures KeySet(requests[..k + 1]) == KeySet(requests[..k]) + {DeduplicationKey(requests[k])}
    ensures match Recorded(fixture.toolResults, DeduplicationKey(requests[k]))
            case Some(result) =>
              AvailableAfter(fixture, requests[..k + 1], visible) ==
              AvailableAfter(fixture, requests[..k], visible) + (set e | e in result.evidence :: e.id)
            case None => true
  {
    hide DeduplicationKey;
    assert requests[..k + 1] == requests[..k] + [requests[k]];
    assert requests[..k + 1][..k] == requests[..k];
    KeysAccumulate(requests[..k], requests[k]);
  }

  /** `_execute_recorded_tools`. */
  method ExecuteRecordedTools(fixture: EvalFixture, requests: seq<ToolRequest>, visible: set<string>)
    returns (available: Option<set<string>>)
    ensures available == if Executable(fixture, requests, visible)
                         then Some(AvailableAfter(fixture, requests, visible)) else None
  {
    hide DeduplicationKey, C.Cites, Permitted, AvailableAfter, KeySet;
    if |requests| > MAX_TOTAL_TOOLS { return None; }
    var registry := new ToolRegistry(RecordedHandlers(fixture.toolResults));
    var seen := new SeenKeys();
    var ids := visible;
    NothingRun(fixture, requests, visible);
    for k := 0 to |requests|
      invariant fresh(registry) && fresh(seen) && registry.handlers == RecordedHandlers(fixture.toolResults)
      invariant ids == AvailableAfter(fixture, requests[..k], visible) && seen.keys == KeySet(requests[..k])
      invariant forall i :: 0 <= i < k ==> MayRun(fixture, requests, visible, i)
    {
      var request := requests[k];
      if !C.Cites(request.reason, ids) {
        assert !MayRun(fixture, requests, visible, k);
        return None;
      }
      var execution := registry.Execute(request, fixture.topology, seen);
      if !execution.Completed? {
        assert !MayRun(fixture, requests, visible, k);
        return None;
      }
      ids := ids + set e | e in execution.result.evidence :: e.id;
      OneMoreRuns(fixture, requests, visible, k);
    }
    assert requests[..|requests|] == requests;
    return Some(ids);
  }

  lemma NothingRun(fixture: EvalFixture, requests: seq<ToolRequest>, visible: set<string>)
    ensures AvailableAfter(fixture, requests[..0], visible) == visible && KeySet(requests[..0]) == {}
  {
  }

  /** The label and the clarifications keep to the vocabulary of the fixture. */
  predicate InVocabulary(expectation: HandoffExpectation, output: HandoffOutput) {
    && (output.direction.Some? ==> output.direction.value in expectation.labels)
    && forall c :: c in output.clarifications ==>
         c.kind == USER_CONTEXT && c.requestKind in expectation.clarificationKinds
  }

  /** A recording that a condition accepts in its replay context. */
  predicate Replayable(
    fixture: EvalFixture, expectation: HandoffExpectation, context: Provenance, recording: HandoffRecording)
  {
    && recording.provenance == context && InVocabulary(expectation, recording.output)
    && Executable(fixture, recording.output.requests, VisibleIds(fixture, context.condition))
  }

  /** `_run_condition`. */
  method RunCondition(
    fixture: EvalFixture, expectation: HandoffExpectation, context: Provenance, recording: HandoffRecording)
    returns (run: Option<HandoffRun>)
    ensures run.Some? <==> Replayable(fixture, expectation, context, recording)
    ensures run.Some? ==>
              var output, visible := recording.output, VisibleIds(fixture, context.condition);
              run.value == HandoffRun(
                |output.requests|, output.direction, |output.clarifications|,
                CountClaims(output.claims, AvailableAfter(fixture, output.requests, visible)))
  {
    hide Executable, AvailableAfter, ClaimIsUnsupported;
    var output := recording.output;
    if recording.provenance != context { return None; }
    if output.direction.Some? && output.direction.value !in expectation.labels { return None; }
    for k := 0 to |output.clarifications|
      invariant forall i :: 0 <= i < k ==>
        && output.clarifications[i].kind == USER_CONTEXT
        && output.clarifications[i].requestKind in expectation.clarificationKinds
    {
      var c := output.clarifications[k];
      if c.kind != USER_CONTEXT || c.requestKind !in expectation.clarificationKinds { return None; }
    }
    var available := ExecuteRecordedTools(fixture, output.requests, VisibleIds(fixture, context.condition));
    if available.None? { return None; }
    var unsupported := 0;
    for k := 0 to |output.claims|
      invariant unsupported == CountClaims(output.claims[..k], available.value)
    {
      assert output.claims[..k + 1][..k] == output.claims[..k];
      if ClaimIsUnsupported(output.claims[k], available.value) { unsupported := unsupported + 1; }
    }
    assert output.claims[..|output.claims|] == output.claims;
    return Some(HandoffRun(|output.requests|, output.direction, |output.clarifications|, unsupported));
  }

  // ---- What a condition comes to ----

  /** A recording is replayed only where it was made for: this fixture, condition,
      model and budget, and the digests of these inputs. Its direction is one the
      fixture expects, and it asks for nothing but user context of expected kinds. */
  lemma ReplayableExactly(
    fixture: EvalFixture, expectation: HandoffExpectation, context: Provenance, recording: HandoffRecording)
    ensures var (p, output) := (recording.provenance, recording.output);
            Replayable(fixture, expectation, context, recording) <==>
            && p.fixtureId == context.fixtureId && p.condition == context.condition && p.modelId == context.modelId
            && p.promptBudget == context.promptBudget && p.promptDigest == context.promptDigest
            && p.fixtureDigest == context.fixtureDigest && p.registryId == context.registryId
            && (output.direction == None || exists d :: d in expectation.labels && output.direction == Some(d))
            && (forall k :: 0 <= k < |output.clarifications| ==>
                  output.clarifications[k].requestKind in expectation.clarificationKinds
                  && output.clarifications[k].kind == "request_user_context")
            && Executable(fixture, output.requests, VisibleIds(fixture, context.condition))
  {
    hide Executable, VisibleIds;
  }

  /** Evidence of the snapshot, unless there is only the raw alarm, or of a recorded
      Tool that one of the requests asks for. */
  predicate IsCitable(fixture: EvalFixture, condition: Condition, requests: seq<ToolRequest>, id: string) {
    || (condition == IncidentBrief && exists e :: e in fixture.snapshot.evidence && e.id == id)
    || exists request, r, e ::
         request in requests && r in fixture.toolResults && IsSameCall(r.request, request)
         && e in r.evidence && e.id == id
  }

  lemma RecordedExactly(results: seq<ToolResult>, request: ToolRequest)
    requires Distinct(KeysOf(RequestsOf(results)))
    ensures Recorded(results, DeduplicationKey(request)).Some? <==>
            exists r :: r in results && IsSameCall(r.request, request)
    ensures forall r :: r in results && IsSameCall(r.request, request) ==>
              Recorded(results, DeduplicationKey(request)) == Some(r)
  {
    hide DeduplicationKey;
    forall r | r in results
      ensures DeduplicationKey(r.request) == DeduplicationKey(request) <==> IsSameCall(r.request, request)
    {
      KeyIdentifiesRequest(r.request, request);
    }
    forall r, q | r in results && q in results && IsSameCall(r.request, request) && IsSameCall(q.request, request)
      ensures r == q
    {
      KeysExactly(results);
      var i :| 0 <= i < |results| && results[i] == r;
      var j :| 0 <= j < |results| && results[j] == q;
      assert i == j || i < j || j < i;
      assert IsSameCall(results[i].request, results[j].request) && IsSameCall(results[j].request, results[i].request);
    }
  }

  /** What may be cited is what the condition shows and what the requests brought in. */
  lemma {:induction false} AvailableExactly(
    fixture: EvalFixture, condition: Condition, requests: seq<ToolRequest>, id: string)
    requires Distinct(KeysOf(RequestsOf(fixture.toolResults)))
    ensures id in AvailableAfter(fixture, requests, VisibleIds(fixture, condition)) <==>
            IsCitable(fixture, condition, requests, id)
    decreases |requests|
  {
    hide DeduplicationKey, IsSameCall, Distinct;
    if requests != [] {
      var front, last := requests[..|requests| - 1], requests[|requests| - 1];
      assert requests == front + [last];
      AvailableExactly(fixture, condition, front, id);
      RecordedExactly(fixture.toolResults, last);
      assert IsCitable(fixture, condition, requests, id) <==>
             (IsCitable(fixture, condition, front, id) ||
              exists r, e :: r in fixture.toolResults && IsSameCall(r.request, last) && e in r.evidence && e.id == id);
    }
  }

  /** The reason of request `k` mentions something citable by then. */
  ghost predicate IsReasoned(fixture: EvalFixture, condition: Condition, requests: seq<ToolRequest>, k: nat)
    requires k < |requests|
  {
    exists id :: C.Mentions(requests[k].reason, id) && IsCitable(fixture, condition, requests[..k], id)
  }

  /** A recording is executable when it asks for at most six Tools, each allowlisted,
      recorded, asked for once, and with a reason that cites what it may. */
  lemma ExecutableExactly(fixture: EvalFixture, condition: Condition, requests: seq<ToolRequest>)
    requires Distinct(KeysOf(RequestsOf(fixture.toolResults)))
    ensures Executable(fixture, requests, VisibleIds(fixture, condition)) <==>
            && |requests| <= 6
            && (forall k :: 0 <= k < |requests| ==>
                  && Allowlisted(requests[k], fixture.topology) && !IsBlank(requests[k].reason)
                  && IsReasoned(fixture, condition, requests, k)
                  && exists r :: r in fixture.toolResults && IsSameCall(r.request, requests[k]))
            && forall i, j :: 0 <= i < j < |requests| ==> !IsSameCall(requests[i], requests[j])
  {
    hide DeduplicationKey, IsBlank, C.Mentions, AvailableAfter, Distinct, IsCitable, Allowlisted, IsSameCall;
    forall k | 0 <= k < |requests|
      ensures MayRun(fixture, requests, VisibleIds(fixture, condition), k) <==>
              && Allowlisted(requests[k], fixture.topology) && !IsBlank(requests[k].reason)
              && IsReasoned(fixture, condition, requests, k)
              && (exists r :: r in fixture.toolResults && IsSameCall(r.request, requests[k]))
              && forall i :: 0 <= i < k ==> !IsSameCall(requests[i], requests[k])
    {
      MayRunExactly(fixture, condition, requests, k);
    }
  }

  lemma MayRunExactly(fixture: EvalFixture, condition: Condition, requests: seq<ToolRequest>, k: nat)
    requires Distinct(KeysOf(RequestsOf(fixture.toolResults))) && k < |requests|
    ensures MayRun(fixture, requests, VisibleIds(fixture, condition), k) <==>
            && Allowlisted(requests[k], fixture.topology) && !IsBlank(requests[k].reason)
            && IsReasoned(fixture, condition, requests, k)
            && (exists r :: r in fixture.toolResults && IsSameCall(r.request, requests[k]))
            && forall i :: 0 <= i < k ==> !IsSameCall(requests[i], requests[k])
  {
    hide DeduplicationKey, IsBlank, C.Mentions, AvailableAfter, VisibleIds, Distinct, IsCitable;
    hide Allowlisted, IsSameCall;
    var available := AvailableAfter(fixture, requests[..k], VisibleIds(fixture, condition));
    forall id ensures id in available <==> IsCitable(fixture, condition, requests[..k], id) {
      AvailableExactly(fixture, condition, requests[..k], id);
    }
    RecordedExactly(fixture.toolResults, requests[k]);
    SeenExactly(requests, k);
  }

  lemma SeenExactly(requests: seq<ToolRequest>, k: nat)
    requires k < |requests|
    ensures DeduplicationKey(requests[k]) !in KeySet(requests[..k]) <==>
            forall i :: 0 <= i < k ==> !IsSameCall(requests[i], requests[k])
  {
    hide DeduplicationKey;
    forall i | 0 <= i < k
      ensures DeduplicationKey(requests[i]) == DeduplicationKey(requests[k]) <==> IsSameCall(requests[i], requests[k])
      ensures requests[i] in requests[..k]
    {
      KeyIdentifiesRequest(requests[i], requests[k]);
      assert requests[..k][i] == requests[i];
    }
  }

  /** The claims counted are those that cite nothing, or something not citable. */
  lemma {:induction false} ClaimsExactly(
    fixture: EvalFixture, condition: Condition, requests: seq<ToolRequest>, claims: seq<HandoffClaim>)
    requires Distinct(KeysOf(RequestsOf(fixture.toolResults)))
    ensures CountClaims(claims, AvailableAfter(fixture, requests, VisibleIds(fixture, condition))) ==
            |set k | 0 <= k < |claims| && !IsBacked(fixture, condition, requests, claims[k])|
    decreases |claims|
  {
    hide AvailableAfter, VisibleIds, IsBacked, ClaimIsUnsupported, Distinct;
    if claims != [] {
      var n := |claims| - 1;
      ClaimsExactly(fixture, condition, requests, claims[..n]);
      ClaimExactly(fixture, condition, requests, claims[n]);
      OneMoreClaim(fixture, condition, requests, claims);
    }
  }

  lemma OneMoreClaim(
    fixture: EvalFixture, condition: Condition, requests: seq<ToolRequest>, claims: seq<HandoffClaim>)
    requires claims != []
    ensures var n := |claims| - 1;
            |set k | 0 <= k < |claims| && !IsBacked(fixture, condition, requests, claims[k])|
            == |set k | 0 <= k < n && !IsBacked(fixture, condition, requests, claims[..n][k])|
               + if IsBacked(fixture, condition, requests, claims[n]) then 0 else 1
  {
    hide IsBacked;
    var n := |claims| - 1;
    var before := set k | 0 <= k < n && !IsBacked(fixture, condition, requests, claims[..n][k]);
    var all := set k | 0 <= k < |claims| && !IsBacked(fixture, condition, requests, claims[k]);
    assert n !in before;
    assert all == before + if IsBacked(fixture, condition, requests, claims[n]) then {} else {n};
  }

  lemma ClaimExactly(fixture: EvalFixture, condition: Condition, requests: seq<ToolRequest>, claim: HandoffClaim)
    requires Distinct(KeysOf(RequestsOf(fixture.toolResults)))
    ensures IsBacked(fixture, condition, requests, claim) <==>
            !ClaimIsUnsupported(claim, AvailableAfter(fixture, requests, VisibleIds(fixture, condition)))
  {
    hide AvailableAfter, VisibleIds, IsCitable, Distinct;
    var available := AvailableAfter(fixture, requests, VisibleIds(fixture, condition));
    forall id ensures id in available <==> IsCitable(fixture, condition, requests, id) {
      AvailableExactly(fixture, condition, requests, id);
    }
  }

  predicate IsBacked(fixture: EvalFixture, condition: Condition, requests: seq<ToolRequest>, claim: HandoffClaim) {
    |claim.ids| > 0 && forall id :: id in claim.ids ==> IsCitable(fixture, condition, requests, id)
  }

  lemma {:induction false} AllClaimsUnsupported(claims: seq<HandoffClaim>)
    ensures CountClaims(claims, {}) == |claims|
  {
    if claims != [] {
      AllClaimsUnsupported(claims[..|claims| - 1]);
      var claim := claims[|claims| - 1];
      assert claim.ids != [] ==> claim.ids[0] in claim.ids && claim.ids[0] !in {};
    }
  }

  /** From a raw alarm nothing can be cited: a recording of its context and
      vocabulary is accepted exactly when it asks for no Tool, and every claim it
      makes counts as unsupported. */
  lemma RawAlarmSupportsNothing(
    fixture: EvalFixture, expectation: HandoffExpectation, context: Provenance, recording: HandoffRecording)
    requires context.condition == RawAlarm
    ensures var output, visible := recording.output, VisibleIds(fixture, RawAlarm);
            && (Replayable(fixture, expectation, context, recording) <==>
                recording.provenance == context && InVocabulary(expectation, output) && output.requests == [])
            && (output.requests == [] ==>
                  CountClaims(output.claims, AvailableAfter(fixture, output.requests, visible)) == |output.claims|)
  {
    hide InVocabulary;
    var output := recording.output;
    AllClaimsUnsupported(output.claims);
    if output.requests != [] {
      assert output.requests[..0] == [];
      assert AvailableAfter(fixture, output.requests[..0], {}) == {};
      assert !MayRun(fixture, output.requests, {}, 0);
    }
  }
}
