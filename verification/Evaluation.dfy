/** Offline evaluation: what an accepted fixture guarantees, a hybrid run of it,
    and the score of a run. */
module Evaluation {
  import opened Options
  import opened JsonText
  import opened PythonText
  import opened Domain
  import opened AgentTools
  import opened AgentLoop
  import opened PythonEquality
  import C = Citations

  /** `factIds`: the Evidence IDs of each expected fact. */
  datatype ExpectedOutcome = ExpectedOutcome(
    requiredIds: set<string>, directionLabels: set<string>, usefulTools: set<string>, classification: string,
    factIds: seq<set<string>>)

  datatype EvalFixture = EvalFixture(
    id: string, snapshot: Snapshot, topology: Topology, toolResults: seq<ToolResult>, expected: ExpectedOutcome)

  datatype EvalRun = EvalRun(fixtureId: string, investigation: Investigation, toolCalls: seq<ToolRequest>)

  /** Ratios are kept as the two counts they are made of. */
  datatype RunMetrics = RunMetrics(
    requiredCited: nat, correctDirection: bool, toolCallCount: nat, unnecessaryToolCallCount: nat,
    unsupportedStatementClaims: nat, unsupportedClassificationClaims: nat, unclassifiedCorrect: bool)

  function RequestsOf(results: seq<ToolResult>): seq<ToolRequest> {
    seq(|results|, k requires 0 <= k < |results| => results[k].request)
  }

  function AllIds(results: seq<ToolResult>): seq<string> {
    if results == [] then [] else AllIds(results[..|results| - 1]) + IdsOf(results[|results| - 1].evidence)
  }

  /** The IDs a claim may cite: those of the snapshot and of the given results. */
  function AvailableIds(snapshot: Snapshot, results: seq<ToolResult>): seq<string> {
    IdsOf(snapshot.evidence) + AllIds(results)
  }

  // ---- What the parser accepts ----

  function ReferencedIds(expected: ExpectedOutcome): set<string> {
    expected.requiredIds + set ids, id | ids in expected.factIds && id in ids :: id
  }

  predicate ReferencesExist(expected: ExpectedOutcome, available: seq<string>) {
    forall id :: id in ReferencedIds(expected) ==> id in available
  }

  /** Required Evidence and the Evidence of every expected fact must be there. */
  lemma ReferencesExactly(expected: ExpectedOutcome, available: seq<string>)
    ensures ReferencesExist(expected, available) <==>
            && (forall id :: id in expected.requiredIds ==> id in available)
            && forall k, id :: 0 <= k < |expected.factIds| && id in expected.factIds[k] ==> id in available
  {
    forall k, id | 0 <= k < |expected.factIds| && id in expected.factIds[k] ensures id in ReferencedIds(expected) {
      assert expected.factIds[k] in expected.factIds;
    }
    forall ids | ids in expected.factIds ensures exists k :: 0 <= k < |expected.factIds| && expected.factIds[k] == ids {
    }
  }

  /** The part of an accepted fixture the scorer depends on. */
  predicate Accepted(fixture: EvalFixture) {
    && Distinct(AvailableIds(fixture.snapshot, fixture.toolResults))
    && (forall id :: id in AvailableIds(fixture.snapshot, fixture.toolResults) ==> !IsBlank(id))
    && ReferencesExist(fixture.expected, AvailableIds(fixture.snapshot, fixture.toolResults))
    && Distinct(KeysOf(RequestsOf(fixture.toolResults)))
    && BatchPermitted(RequestsOf(fixture.toolResults), fixture.topology, {})
  }

  /** The duplicate test of the parsers: as many members as elements. */
  lemma {:induction false} DistinctByCount(s: seq<string>)
    ensures |s| == |set x | x in s| <==> Distinct(s)
    ensures |set x | x in s| <= |s|
  {
    if s != [] {
      var last, front := s[|s| - 1], s[..|s| - 1];
      DistinctByCount(front);
      assert s == front + [last];
      assert (set x | x in s) == (set x | x in front) + {last};
      if last in front {
        var k :| 0 <= k < |front| && front[k] == last;
        assert s[k] == s[|s| - 1];
      } else {
        DistinctPlusOne(front, last);
      }
    }
  }

  lemma DistinctPlusOne(front: seq<string>, last: string)
    requires last !in front
    ensures Distinct(front + [last]) <==> Distinct(front)
  {
    var s := front + [last];
    forall i, j | Distinct(front) && 0 <= i < j < |s| ensures s[i] != s[j] {
      assert s[i] == front[i] && s[i] in front;
      if j < |front| { assert s[j] == front[j]; }
    }
    forall i, j | Distinct(s) && 0 <= i < j < |front| ensures front[i] != front[j] {
      assert s[i] == front[i] && s[j] == front[j];
    }
  }

  /** `_validate_evidence_contract`: no ID twice, and no reference to an absent one. */
  method ValidateEvidence(snapshot: Snapshot, results: seq<ToolResult>, expected: ExpectedOutcome) returns (ok: bool)
    ensures ok <==> && Distinct(AvailableIds(snapshot, results))
                    && ReferencesExist(expected, AvailableIds(snapshot, results))
  {
    hide Distinct, AvailableIds;
    var unique, ids := UniqueIds(snapshot, results);
    if !unique { return false; }
    var referenced := expected.requiredIds;
    for k := 0 to |expected.factIds|
      invariant referenced == expected.requiredIds + set i, id | 0 <= i < k && id in expected.factIds[i] :: id
    {
      referenced := referenced + expected.factIds[k];
    }
    assert referenced == ReferencedIds(expected);
    ok := referenced <= set id | id in ids;
  }

  /** The duplicate test over the IDs a claim may cite, and those IDs. */
  method UniqueIds(snapshot: Snapshot, results: seq<ToolResult>) returns (ok: bool, ids: seq<string>)
    ensures ids == AvailableIds(snapshot, results) && (ok <==> Distinct(ids))
  {
    ids := IdsOf(snapshot.evidence);
    for k := 0 to |results|
      invariant ids == AvailableIds(snapshot, results[..k])
    {
      ids := ids + IdsOf(results[k].evidence);
      assert results[..k + 1][..k] == results[..k];
    }
    assert results[..|results|] == results;
    DistinctByCount(ids);
    ok := |ids| == |set id | id in ids|;
  }

  // ---- A hybrid run ----

  function Recorded(results: seq<ToolResult>, key: string): (r: Option<ToolResult>)
    ensures r.Some? ==> r.value in results && DeduplicationKey(r.value.request) == key
    ensures r.None? ==> forall x :: x in results ==> DeduplicationKey(x.request) != key
  {
    if results == [] then None
    else if DeduplicationKey(results[0].request) == key then Some(results[0])
    else Recorded(results[1..], key)
  }

  /** `_RecordedToolHandler`: the recorded result under the request at hand. */
  function RecordedHandlers(results: seq<ToolResult>): Handlers {
    (n: nat, request: ToolRequest) =>
      match Recorded(results, DeduplicationKey(request))
      case Some(result) => Some(result.(request := request))
      case None => None
  }

  /** The hybrid run of a fixture with a planner. */
  function HybridRun(fixture: EvalFixture, planner: Planner): EvalRun {
    var investigation :=
      WholeRun(planner, RecordedHandlers(fixture.toolResults), fixture.snapshot, fixture.topology).investigation;
    EvalRun(fixture.id, investigation, RequestsOf(investigation.toolCalls))
  }

  /** `run_fixture` in hybrid mode. */
  method RunFixture(fixture: EvalFixture, planner: Planner) returns (run: EvalRun)
    ensures run == HybridRun(fixture, planner)
  {
    hide WholeRun, Policy, ValidInvestigation;
    var registry := new ToolRegistry(RecordedHandlers(fixture.toolResults));
    var agent := new InvestigationAgent(planner, registry);
    var investigation := agent.Run(fixture.snapshot, fixture.topology);
    run := EvalRun(fixture.id, investigation, RequestsOf(investigation.toolCalls));
  }

  // ---- The score ----

  /** Recorded under the key of the call, and equal to it as Python compares. */
  predicate IsRecorded(results: seq<ToolResult>, actual: ToolResult) {
    exists r :: r in results && DeduplicationKey(r.request) == DeduplicationKey(actual.request)
                && SameResult(actual, r.(request := actual.request))
  }

  predicate SameRequests(a: seq<ToolRequest>, b: seq<ToolRequest>) {
    |a| == |b| && forall k :: 0 <= k < |a| ==> SameRequest(a[k], b[k])
  }

  /** `score_run` raises nothing. */
  predicate Scorable(fixture: EvalFixture, run: EvalRun) {
    var calls := run.investigation.toolCalls;
    && fixture.id == run.fixtureId
    && SameRequests(RequestsOf(calls), run.toolCalls)
    && |calls| <= MAX_TOTAL_TOOLS
    && Distinct(KeysOf(RequestsOf(calls)))
    && Distinct(KeysOf(RequestsOf(fixture.toolResults)))
    && (forall r :: r in calls ==> IsRecorded(fixture.toolResults, r))
    && Distinct(AvailableIds(fixture.snapshot, calls))
  }

  predicate StatementIsUnsupported(statement: Statement, available: set<string>) {
    || !statement.plain
    || statement.ids == []
    || (exists id :: id in statement.ids && IsBlank(id))
    || !Distinct(statement.ids)
    || (exists id :: id in statement.ids && id !in available)
  }

  predicate ClassificationIsUnsupported(investigation: Investigation, available: set<string>) {
    || !Distinct(investigation.classificationIds)
    || (exists id :: id in investigation.classificationIds && id !in available)
    || (investigation.classification != UNCLASSIFIED && investigation.classificationIds == [])
  }

  function CountUnsupported(statements: seq<Statement>, available: set<string>): nat {
    if statements == [] then 0
    else CountUnsupported(statements[..|statements| - 1], available)
         + if StatementIsUnsupported(statements[|statements| - 1], available) then 1 else 0
  }

  function CountUnnecessary(requests: seq<ToolRequest>, useful: set<string>): nat {
    if requests == [] then 0
    else CountUnnecessary(requests[..|requests| - 1], useful) + if requests[|requests| - 1].tool in useful then 0 else 1
  }

  function CitedIds(investigation: Investigation): set<string> {
    (set s, id | s in investigation.facts + investigation.directions && id in s.ids :: id)
    + (set id | id in investigation.classificationIds)
  }

  /** The dictionary of a recording: its results under their keys. */
  predicate IsTableOf(table: map<string, ToolResult>, results: seq<ToolResult>) {
    && (forall r :: r in results ==> DeduplicationKey(r.request) in table && table[DeduplicationKey(r.request)] == r)
    && (forall key :: key in table ==> table[key] in results && DeduplicationKey(table[key].request) == key)
  }

  lemma TableDecides(table: map<string, ToolResult>, results: seq<ToolResult>, actual: ToolResult)
    requires IsTableOf(table, results)
    ensures var key := DeduplicationKey(actual.request);
            IsRecorded(results, actual) <==> key in table && SameResult(actual, table[key].(request := actual.request))
  {
    hide DeduplicationKey, SameResult;
    var key := DeduplicationKey(actual.request);
    if key in table { assert table[key] in results; }
  }

  /** `_recorded_tool_results`: a dictionary, or an error on a second request
      with the same key. */
  method RecordedToolResults(results: seq<ToolResult>) returns (recorded: Option<map<string, ToolResult>>)
    ensures recorded.Some? <==> Distinct(KeysOf(RequestsOf(results)))
    ensures recorded.Some? ==> IsTableOf(recorded.value, results)
  {
    hide DeduplicationKey;
    var table: map<string, ToolResult> := map[];
    ghost var keys := KeysOf(RequestsOf(results));
    for k := 0 to |results|
      invariant table.Keys == (set i | 0 <= i < k :: keys[i])
      invariant forall i :: 0 <= i < k ==> table[keys[i]] == results[i]
      invariant Distinct(keys[..k])
    {
      var key := DeduplicationKey(results[k].request);
      assert keys[k] == key;
      if key in table {
        ghost var i :| 0 <= i < k && keys[i] == key;
        assert !Distinct(keys);
        return None;
      }
      assert keys[..k + 1] == keys[..k] + [key];
      table := table[key := results[k]];
    }
    assert keys[..|results|] == keys;
    return Some(table);
  }

  method CountUnsupportedClaims(statements: seq<Statement>, available: set<string>) returns (count: nat)
    ensures count == CountUnsupported(statements, available)
  {
    count := 0;
    for k := 0 to |statements|
      invariant count == CountUnsupported(statements[..k], available)
    {
      assert statements[..k + 1][..k] == statements[..k];
      if StatementIsUnsupported(statements[k], available) { count := count + 1; }
    }
    assert statements[..|statements|] == statements;
  }

  method CountUnnecessaryCalls(requests: seq<ToolRequest>, useful: set<string>) returns (count: nat)
    ensures count == CountUnnecessary(requests, useful)
  {
    count := 0;
    for k := 0 to |requests|
      invariant count == CountUnnecessary(requests[..k], useful)
    {
      assert requests[..k + 1][..k] == requests[..k];
      if requests[k].tool !in useful { count := count + 1; }
    }
    assert requests[..|requests|] == requests;
  }

  /** Every executed result is one the fixture recorded for that request. */
  method AllRecorded(table: map<string, ToolResult>, ghost results: seq<ToolResult>, calls: seq<ToolResult>)
    returns (ok: bool)
    requires IsTableOf(table, results)
    ensures ok <==> forall r :: r in calls ==> IsRecorded(results, r)
  {
    hide DeduplicationKey, IsRecorded, IsTableOf;
    for k := 0 to |calls|
      invariant forall i :: 0 <= i < k ==> IsRecorded(results, calls[i])
    {
      var key := DeduplicationKey(calls[k].request);
      TableDecides(table, results, calls[k]);
      if key !in table || !SameResult(calls[k], table[key].(request := calls[k].request)) { return false; }
    }
    return true;
  }

  function Metrics(fixture: EvalFixture, run: EvalRun): RunMetrics {
    var investigation := run.investigation;
    var available := set id | id in AvailableIds(fixture.snapshot, investigation.toolCalls);
    RunMetrics(
      |fixture.expected.requiredIds * CitedIds(investigation)|,
      investigation.directions != [] && investigation.directions[0].text in fixture.expected.directionLabels,
      |investigation.toolCalls|, CountUnnecessary(RequestsOf(investigation.toolCalls), fixture.expected.usefulTools),
      CountUnsupported(investigation.facts + investigation.directions, available),
      if ClassificationIsUnsupported(investigation, available) then 1 else 0,
      fixture.expected.classification == UNCLASSIFIED && investigation.classification == UNCLASSIFIED)
  }

  // ---- What the score says ----

  /** Some Evidence of the snapshot or of a call has the ID. */
  predicate IsAvailable(snapshot: Snapshot, calls: seq<ToolResult>, id: string) {
    || (exists e :: e in snapshot.evidence && e.id == id)
    || exists r, e :: r in calls && e in r.evidence && e.id == id
  }

  /** The citations of a statement name available Evidence, at least one piece, none
      twice, none blank, in a tuple of plain strings. */
  predicate IsWellCited(snapshot: Snapshot, calls: seq<ToolResult>, statement: Statement) {
    && statement.plain && |statement.ids| > 0
    && (forall i, j :: 0 <= i < j < |statement.ids| ==> statement.ids[i] != statement.ids[j])
    && forall id :: id in statement.ids ==> !IsBlank(id) && IsAvailable(snapshot, calls, id)
  }

  predicate IsCited(investigation: Investigation, id: string) {
    || id in investigation.classificationIds
    || (exists s :: s in investigation.facts && id in s.ids)
    || exists s :: s in investigation.directions && id in s.ids
  }

  /** Each figure of the score, read off the run. */
  predicate Measures(fixture: EvalFixture, run: EvalRun, m: RunMetrics) {
    var i, expected := run.investigation, fixture.expected;
    var statements := i.facts + i.directions;
    && m.toolCallCount == |i.toolCalls|
    && m.unnecessaryToolCallCount ==
       |set k | 0 <= k < |i.toolCalls| && i.toolCalls[k].request.tool !in expected.usefulTools|
    && m.unsupportedStatementClaims ==
       |set k | 0 <= k < |statements| && !IsWellCited(fixture.snapshot, i.toolCalls, statements[k])|
    && m.unsupportedClassificationClaims <= 1
    && (m.unsupportedClassificationClaims == 0 <==>
          && (i.classificationIds == [] ==> i.classification == "unclassified")
          && (forall j, k :: 0 <= j < k < |i.classificationIds| ==> i.classificationIds[j] != i.classificationIds[k])
          && forall id :: id in i.classificationIds ==> IsAvailable(fixture.snapshot, i.toolCalls, id))
    && m.requiredCited == |set id | id in expected.requiredIds && IsCited(i, id)|
    && (m.correctDirection <==> |i.directions| > 0 && i.directions[0].text in expected.directionLabels)
    && (m.unclassifiedCorrect <==> expected.classification == i.classification == "unclassified")
  }

  lemma AvailableIdsExactly(snapshot: Snapshot, calls: seq<ToolResult>, id: string)
    ensures id in AvailableIds(snapshot, calls) <==> IsAvailable(snapshot, calls, id)
  {
    AvailableExactly(snapshot, calls);
    assert id in AvailableIds(snapshot, calls) <==> id in AllowedEvidence(snapshot, calls);
  }

  lemma {:induction false} UnnecessaryExactly(requests: seq<ToolRequest>, useful: set<string>)
    ensures CountUnnecessary(requests, useful) == |set k | 0 <= k < |requests| && requests[k].tool !in useful|
  {
    if requests != [] {
      var n := |requests| - 1;
      var front := requests[..n];
      UnnecessaryExactly(front, useful);
      var before := set k | 0 <= k < |front| && front[k].tool !in useful;
      var all := set k | 0 <= k < |requests| && requests[k].tool !in useful;
      assert all == before + if requests[n].tool !in useful then {n} else {};
    }
  }

  lemma {:induction false} UnsupportedExactly(snapshot: Snapshot, calls: seq<ToolResult>, statements: seq<Statement>)
    ensures var available := set id | id in AvailableIds(snapshot, calls);
            CountUnsupported(statements, available) ==
            |set k | 0 <= k < |statements| && !IsWellCited(snapshot, calls, statements[k])|
  {
    hide IsWellCited, StatementIsUnsupported, AvailableIds;
    if statements != [] {
      var n := |statements| - 1;
      UnsupportedExactly(snapshot, calls, statements[..n]);
      WellCitedExactly(snapshot, calls, statements[n]);
      OneMoreStatement(snapshot, calls, statements);
    }
  }

  lemma OneMoreStatement(snapshot: Snapshot, calls: seq<ToolResult>, statements: seq<Statement>)
    requires statements != []
    ensures var n := |statements| - 1;
            |set k | 0 <= k < |statements| && !IsWellCited(snapshot, calls, statements[k])|
            == |set k | 0 <= k < n && !IsWellCited(snapshot, calls, statements[..n][k])|
               + if IsWellCited(snapshot, calls, statements[n]) then 0 else 1
  {
    hide IsWellCited;
    var n := |statements| - 1;
    var before := set k | 0 <= k < n && !IsWellCited(snapshot, calls, statements[..n][k]);
    var all := set k | 0 <= k < |statements| && !IsWellCited(snapshot, calls, statements[k]);
    assert n !in before;
    forall k | 0 <= k < n ensures k in before <==> k in all {
      assert statements[..n][k] == statements[k];
    }
    assert all == before + if IsWellCited(snapshot, calls, statements[n]) then {} else {n};
  }

  lemma WellCitedExactly(snapshot: Snapshot, calls: seq<ToolResult>, statement: Statement)
    ensures var available := set id | id in AvailableIds(snapshot, calls);
            IsWellCited(snapshot, calls, statement) <==> !StatementIsUnsupported(statement, available)
  {
    hide IsAvailable, AvailableIds, IsBlank;
    forall id ensures id in AvailableIds(snapshot, calls) <==> IsAvailable(snapshot, calls, id) {
      AvailableIdsExactly(snapshot, calls, id);
    }
  }

  lemma ClassificationExactly(snapshot: Snapshot, i: Investigation)
    ensures var available := set id | id in AvailableIds(snapshot, i.toolCalls);
            !ClassificationIsUnsupported(i, available) <==>
            && (i.classificationIds == [] ==> i.classification == "unclassified")
            && (forall j, k :: 0 <= j < k < |i.classificationIds| ==> i.classificationIds[j] != i.classificationIds[k])
            && forall id :: id in i.classificationIds ==> IsAvailable(snapshot, i.toolCalls, id)
  {
    hide IsAvailable, AvailableIds;
    forall id ensures id in AvailableIds(snapshot, i.toolCalls) <==> IsAvailable(snapshot, i.toolCalls, id) {
      AvailableIdsExactly(snapshot, i.toolCalls, id);
    }
  }

  lemma CitedExactly(i: Investigation, required: set<string>)
    ensures required * CitedIds(i) == set id | id in required && IsCited(i, id)
  {
    forall id ensures id in CitedIds(i) <==> IsCited(i, id) {
      if s :| s in i.facts && id in s.ids { assert s in i.facts + i.directions; }
      if s :| s in i.directions && id in s.ids { assert s in i.facts + i.directions; }
    }
  }

  lemma MetricsMeasure(fixture: EvalFixture, run: EvalRun)
    ensures Measures(fixture, run, Metrics(fixture, run))
  {
    hide IsAvailable, IsWellCited, IsCited, AvailableIds, CountUnsupported, CountUnnecessary, CitedIds;
    hide ClassificationIsUnsupported;
    var i := run.investigation;
    UnnecessaryExactly(RequestsOf(i.toolCalls), fixture.expected.usefulTools);
    assert (set k | 0 <= k < |i.toolCalls| && i.toolCalls[k].request.tool !in fixture.expected.usefulTools) ==
           (set k | 0 <= k < |RequestsOf(i.toolCalls)|
                    && RequestsOf(i.toolCalls)[k].tool !in fixture.expected.usefulTools);
    UnsupportedExactly(fixture.snapshot, i.toolCalls, i.facts + i.directions);
    ClassificationExactly(fixture.snapshot, i);
    CitedExactly(i, fixture.expected.requiredIds);
  }

  /** Same Tool, resource and parameters. */
  predicate IsSameCall(a: ToolRequest, b: ToolRequest) {
    a.tool == b.tool && a.resource == b.resource && a.parameters == b.parameters
  }

  /** When the score is given: the calls of the run are its requests, at most six,
      no two of them and no two recorded ones the same call, each one recorded with
      the same outcome, and no Evidence ID twice. */
  lemma ScorableExactly(fixture: EvalFixture, run: EvalRun)
    ensures var calls, recorded := run.investigation.toolCalls, fixture.toolResults;
            Scorable(fixture, run) <==>
            && fixture.id == run.fixtureId
            && |calls| == |run.toolCalls| <= 6
            && (forall k :: 0 <= k < |calls| ==> SameRequest(calls[k].request, run.toolCalls[k]))
            && (forall i, j :: 0 <= i < j < |calls| ==> !IsSameCall(calls[i].request, calls[j].request))
            && (forall i, j :: 0 <= i < j < |recorded| ==> !IsSameCall(recorded[i].request, recorded[j].request))
            && (forall a :: a in calls ==> exists r :: r in recorded && IsReplayOf(a, r))
            && Distinct(AvailableIds(fixture.snapshot, calls))
  {
    hide AvailableIds, SameRequest, DeduplicationKey, IsReplayOf, IsRecorded;
    var calls, recorded := run.investigation.toolCalls, fixture.toolResults;
    KeysExactly(calls);
    KeysExactly(recorded);
    forall a | a in calls
      ensures IsRecorded(recorded, a) <==> exists r :: r in recorded && IsReplayOf(a, r)
    {
      ReplayExactly(recorded, a);
    }
    assert SameRequests(RequestsOf(calls), run.toolCalls) <==>
           (|calls| == |run.toolCalls| &&
            forall k :: 0 <= k < |calls| ==> SameRequest(calls[k].request, run.toolCalls[k]));
  }

  /** The same call, with the recorded evidence and failure. */
  predicate IsReplayOf(actual: ToolResult, r: ToolResult) {
    && IsSameCall(r.request, actual.request) && actual.failure == r.failure
    && |actual.evidence| == |r.evidence|
    && forall k :: 0 <= k < |r.evidence| ==> SameEvidence(actual.evidence[k], r.evidence[k])
  }

  lemma ReplayExactly(recorded: seq<ToolResult>, a: ToolResult)
    ensures IsRecorded(recorded, a) <==> exists r :: r in recorded && IsReplayOf(a, r)
  {
    hide DeduplicationKey, SameEvidence;
    RequestsAreReflexive(a.request);
    hide SameRequest;
    forall r | r in recorded
      ensures IsReplayOf(a, r) <==>
              DeduplicationKey(r.request) == DeduplicationKey(a.request) && SameResult(a, r.(request := a.request))
    {
      KeyIdentifiesRequest(r.request, a.request);
    }
  }

  lemma KeysExactly(results: seq<ToolResult>)
    ensures Distinct(KeysOf(RequestsOf(results))) <==>
            forall i, j :: 0 <= i < j < |results| ==> !IsSameCall(results[i].request, results[j].request)
  {
    hide DeduplicationKey;
    var keys := KeysOf(RequestsOf(results));
    forall i, j | 0 <= i < j < |results|
      ensures keys[i] == keys[j] <==> IsSameCall(results[i].request, results[j].request)
    {
      KeyIdentifiesRequest(results[i].request, results[j].request);
    }
  }

  /** `score_run`. */
  method ScoreRun(fixture: EvalFixture, run: EvalRun) returns (metrics: Option<RunMetrics>)
    ensures metrics == if Scorable(fixture, run) then Some(Metrics(fixture, run)) else None
    ensures metrics.Some? ==> Measures(fixture, run, metrics.value)
  {
    MetricsMeasure(fixture, run);
    hide Measures;
    hide DeduplicationKey, IsRecorded, IsTableOf, AvailableIds, Distinct, KeysOf, CitedIds;
    var investigation := run.investigation;
    var calls := investigation.toolCalls;
    if || fixture.id != run.fixtureId || !SameRequests(RequestsOf(calls), run.toolCalls)
       || |calls| > MAX_TOTAL_TOOLS
    {
      return None;
    }
    var keys := KeysOf(RequestsOf(calls));
    DistinctByCount(keys);
    if |keys| != |set key | key in keys| { return None; }
    var recorded := RecordedToolResults(fixture.toolResults);
    if recorded.None? { return None; }
    var known := AllRecorded(recorded.value, fixture.toolResults, calls);
    if !known { return None; }
    var unique, _ := UniqueIds(fixture.snapshot, calls);
    if !unique { return None; }
    var available := set id | id in AvailableIds(fixture.snapshot, calls);
    var unsupported := CountUnsupportedClaims(investigation.facts + investigation.directions, available);
    var unnecessary := CountUnnecessaryCalls(RequestsOf(calls), fixture.expected.usefulTools);
    return Some(RunMetrics(
      |fixture.expected.requiredIds * CitedIds(investigation)|,
      investigation.directions != [] && investigation.directions[0].text in fixture.expected.directionLabels,
      |calls|, unnecessary, unsupported,
      if ClassificationIsUnsupported(investigation, available) then 1 else 0,
      fixture.expected.classification == UNCLASSIFIED && investigation.classification == UNCLASSIFIED));
  }

  // ---- The scorer agrees with what the loop guarantees ----

  lemma DistinctJoin(a: seq<string>, b: seq<string>)
    ensures Distinct(a + b) <==> Distinct(a) && Distinct(b) && forall x :: x in a ==> x !in b
  {
    if Distinct(a + b) {
      forall i, j | 0 <= i < j < |a| ensures a[i] != a[j] { assert (a + b)[i] == a[i] && (a + b)[j] == a[j]; }
      forall i, j | 0 <= i < j < |b| ensures b[i] != b[j] {
        assert (a + b)[|a| + i] == b[i] && (a + b)[|a| + j] == b[j];
      }
      forall x | x in a ensures x !in b {
        var i :| 0 <= i < |a| && a[i] == x;
        forall j | 0 <= j < |b| ensures b[j] != x { assert (a + b)[i] == x && (a + b)[|a| + j] == b[j]; }
      }
    } else {
      var i, j :| 0 <= i < j < |a + b| && (a + b)[i] == (a + b)[j];
      if i < |a| <= j {
        assert a[i] in a && b[j - |a|] in b;
      } else if |a| <= i {
        assert b[i - |a|] == b[j - |a|];
      }
    }
  }

  lemma {:induction false} IdsAreThere(results: seq<ToolResult>, k: nat)
    requires k < |results|
    ensures forall id :: id in IdsOf(results[k].evidence) ==> id in AllIds(results)
  {
    if k < |results| - 1 {
      IdsAreThere(results[..|results| - 1], k);
      assert results[..|results| - 1][k] == results[k];
    }
  }

  /** Where all IDs are distinct, so are those of each result, and two results
      share none, with each other or with what comes before. */
  lemma {:induction false} DistinctApart(prefix: seq<string>, results: seq<ToolResult>, i: nat, j: nat)
    requires Distinct(prefix + AllIds(results)) && i < j < |results|
    ensures forall id :: id in IdsOf(results[i].evidence) ==> id !in IdsOf(results[j].evidence)
  {
    var n := |results| - 1;
    assert prefix + AllIds(results) == prefix + AllIds(results[..n]) + IdsOf(results[n].evidence);
    DistinctJoin(prefix + AllIds(results[..n]), IdsOf(results[n].evidence));
    assert results[..n][i] == results[i];
    if j < n {
      assert results[..n][j] == results[j];
      DistinctApart(prefix, results[..n], i, j);
    } else {
      IdsAreThere(results[..n], i);
    }
  }

  lemma {:induction false} DistinctEach(prefix: seq<string>, results: seq<ToolResult>, k: nat)
    requires Distinct(prefix + AllIds(results)) && k < |results|
    ensures Distinct(IdsOf(results[k].evidence))
    ensures forall id :: id in prefix ==> id !in IdsOf(results[k].evidence)
  {
    var n := |results| - 1;
    assert prefix + AllIds(results) == prefix + AllIds(results[..n]) + IdsOf(results[n].evidence);
    DistinctJoin(prefix + AllIds(results[..n]), IdsOf(results[n].evidence));
    if k < n {
      assert results[..n][k] == results[k];
      DistinctEach(prefix, results[..n], k);
    }
  }

  predicate Disjoint(a: seq<string>, b: seq<string>) {
    forall id :: id in a ==> id !in b
  }

  lemma SameIds(a: ToolResult, b: ToolResult)
    requires SameResult(a, b)
    ensures IdsOf(a.evidence) == IdsOf(b.evidence)
  {
    assert forall k :: 0 <= k < |a.evidence| ==> SameEvidence(a.evidence[k], b.evidence[k]);
  }

  /** Executed results with different keys are different recordings, so their
      evidence IDs never meet. */
  lemma ExecutedApart(prefix: seq<string>, recorded: seq<ToolResult>, a: ToolResult, b: ToolResult)
    requires Distinct(prefix + AllIds(recorded)) && IsRecorded(recorded, a) && IsRecorded(recorded, b)
    requires DeduplicationKey(a.request) != DeduplicationKey(b.request)
    ensures Disjoint(IdsOf(a.evidence), IdsOf(b.evidence))
  {
    hide DeduplicationKey;
    var r :| && r in recorded && DeduplicationKey(r.request) == DeduplicationKey(a.request)
             && SameResult(a, r.(request := a.request));
    var q :| && q in recorded && DeduplicationKey(q.request) == DeduplicationKey(b.request)
             && SameResult(b, q.(request := b.request));
    SameIds(a, r.(request := a.request));
    SameIds(b, q.(request := b.request));
    var i :| 0 <= i < |recorded| && recorded[i] == r;
    var j :| 0 <= j < |recorded| && recorded[j] == q;
    assert IdsOf(a.evidence) == IdsOf(r.evidence) && IdsOf(b.evidence) == IdsOf(q.evidence);
    if i < j { DistinctApart(prefix, recorded, i, j); } else { DistinctApart(prefix, recorded, j, i); }
  }

  lemma ExecutedEach(prefix: seq<string>, recorded: seq<ToolResult>, a: ToolResult)
    requires Distinct(prefix + AllIds(recorded)) && IsRecorded(recorded, a)
    ensures Distinct(IdsOf(a.evidence)) && Disjoint(prefix, IdsOf(a.evidence))
  {
    hide DeduplicationKey;
    var r :| && r in recorded && DeduplicationKey(r.request) == DeduplicationKey(a.request)
             && SameResult(a, r.(request := a.request));
    var i :| 0 <= i < |recorded| && recorded[i] == r;
    SameIds(a, r.(request := a.request));
    DistinctEach(prefix, recorded, i);
  }

  lemma {:induction false} DisjointFromAll(results: seq<ToolResult>, ids: seq<string>)
    requires forall r :: r in results ==> Disjoint(IdsOf(r.evidence), ids)
    ensures Disjoint(AllIds(results), ids)
  {
    if results != [] {
      DisjointFromAll(results[..|results| - 1], ids);
      assert results[|results| - 1] in results;
    }
  }

  lemma LastIsApart(prefix: seq<string>, recorded: seq<ToolResult>, calls: seq<ToolResult>)
    requires Distinct(prefix + AllIds(recorded)) && calls != []
    requires forall r :: r in calls ==> IsRecorded(recorded, r)
    requires forall i, j :: 0 <= i < j < |calls| ==>
               DeduplicationKey(calls[i].request) != DeduplicationKey(calls[j].request)
    ensures Disjoint(AllIds(calls[..|calls| - 1]), IdsOf(calls[|calls| - 1].evidence))
  {
    hide DeduplicationKey, IsRecorded, Distinct, Disjoint, AllIds;
    var front, last := calls[..|calls| - 1], calls[|calls| - 1];
    forall r | r in front ensures Disjoint(IdsOf(r.evidence), IdsOf(last.evidence)) {
      var k :| 0 <= k < |front| && front[k] == r;
      assert calls[k] == r && r in calls && last in calls;
      ExecutedApart(prefix, recorded, r, last);
    }
    DisjointFromAll(front, IdsOf(last.evidence));
  }

  lemma {:induction false} ExecutedIdsAreDistinct(
    prefix: seq<string>, recorded: seq<ToolResult>, calls: seq<ToolResult>)
    requires Distinct(prefix + AllIds(recorded))
    requires forall r :: r in calls ==> IsRecorded(recorded, r)
    requires forall i, j :: 0 <= i < j < |calls| ==>
               DeduplicationKey(calls[i].request) != DeduplicationKey(calls[j].request)
    ensures Distinct(prefix + AllIds(calls))
  {
    hide DeduplicationKey, IsRecorded;
    if calls == [] {
      DistinctJoin(prefix, AllIds(recorded));
      assert prefix + AllIds(calls) == prefix;
    } else {
      var front, last := calls[..|calls| - 1], calls[|calls| - 1];
      ExecutedIdsAreDistinct(prefix, recorded, front);
      assert last in calls;
      ExecutedEach(prefix, recorded, last);
      LastIsApart(prefix, recorded, calls);
      DistinctJoin(prefix + AllIds(front), IdsOf(last.evidence));
      assert prefix + AllIds(calls) == prefix + AllIds(front) + IdsOf(last.evidence);
    }
  }

  lemma {:induction false} AllIdsExactly(results: seq<ToolResult>)
    ensures (set id | id in AllIds(results)) == EvidenceOf(results)
  {
    if results != [] {
      var front, last := results[..|results| - 1], results[|results| - 1];
      AllIdsExactly(front);
      assert results == front + [last];
      IdsExactly(last.evidence);
      assert EvidenceOf(results) == EvidenceOf(front) + (set e | e in last.evidence :: e.id);
    }
  }

  lemma IdsExactly(evidence: seq<Evidence>)
    ensures (set id | id in IdsOf(evidence)) == (set e | e in evidence :: e.id)
  {
    forall e | e in evidence ensures e.id in IdsOf(evidence) {
      var k :| 0 <= k < |evidence| && evidence[k] == e;
      assert IdsOf(evidence)[k] == e.id;
    }
  }

  lemma AvailableExactly(snapshot: Snapshot, results: seq<ToolResult>)
    ensures (set id | id in AvailableIds(snapshot, results)) == AllowedEvidence(snapshot, results)
  {
    AllIdsExactly(results);
    IdsExactly(snapshot.evidence);
  }

  /** The statements whose citations are not a tuple of plain strings. */
  function CountIrregular(statements: seq<Statement>): (n: nat)
    ensures n == 0 <==> forall s :: s in statements ==> s.plain
  {
    if statements == [] then 0
    else
      var front, last := statements[..|statements| - 1], statements[|statements| - 1];
      assert statements == front + [last];
      CountIrregular(front) + if last.plain then 0 else 1
  }

  lemma {:induction false} OnlyIrregularUnsupported(statements: seq<Statement>, available: set<string>)
    requires forall s :: s in statements ==> Supported(s, available)
    requires forall id :: id in available ==> !IsBlank(id)
    ensures CountUnsupported(statements, available) == CountIrregular(statements)
  {
    hide IsBlank;
    if statements != [] {
      var last := statements[|statements| - 1];
      assert last in statements;
      OnlyIrregularUnsupported(statements[..|statements| - 1], available);
    }
  }

  // ---- The scorer and the loop ----

  /** Either no Tool can be cited for, or no recorded request holds a boolean or a
      number that equals a value of another type. */
  predicate IsUnambiguous(fixture: EvalFixture) {
    || fixture.snapshot.evidence == []
    || forall r :: r in fixture.toolResults ==> !IsAmbiguous(Object(r.request.parameters))
  }

  /** Without evidence in the snapshot no request can cite any. */
  lemma NothingCitedNothingRun(handlers: Handlers, trace: Trace, snapshot: Snapshot, topology: Topology)
    requires Policy(handlers, trace, snapshot, topology) && snapshot.evidence == []
    ensures trace.calls == []
  {
    FirstCallCites(handlers, trace, snapshot, topology);
    assert AllowedEvidence(snapshot, []) == {};
  }

  lemma FirstCallCites(handlers: Handlers, trace: Trace, snapshot: Snapshot, topology: Topology)
    requires Policy(handlers, trace, snapshot, topology)
    ensures trace.calls != [] ==> C.Cites(trace.calls[0].reason, AllowedEvidence(snapshot, []))
  {
    hide C.Cites, AllowedEvidence;
    if trace.calls != [] {
      assert trace.starts[0] == 0 && trace.results[..0] == [];
    }
  }

  /** What a call returned is what was recorded for its request. */
  lemma ExecutedIsRecorded(fixture: EvalFixture, trace: Trace, k: nat) returns (r: ToolResult)
    requires Policy(RecordedHandlers(fixture.toolResults), trace, fixture.snapshot, fixture.topology)
    requires k < |trace.results|
    ensures r in fixture.toolResults && trace.results[k] == r.(request := trace.calls[k])
    ensures DeduplicationKey(r.request) == DeduplicationKey(trace.calls[k])
  {
    hide DeduplicationKey, Distinct, AllowedEvidence, IsBlank, C.Cites;
    assert RecordedHandlers(fixture.toolResults)(k, trace.calls[k]) == Some(trace.results[k]);
    r := Recorded(fixture.toolResults, DeduplicationKey(trace.calls[k])).value;
  }

  /** Where nothing is ambiguous, a call handed back has the request it was made
      with, and it is recorded. */
  lemma ReturnedIsRecorded(fixture: EvalFixture, trace: Trace, returned: ToolResult, k: nat)
    requires Policy(RecordedHandlers(fixture.toolResults), trace, fixture.snapshot, fixture.topology)
    requires k < |trace.results| && SameResult(returned, trace.results[k]) && IsUnambiguous(fixture)
    ensures returned.request == trace.calls[k] && IsRecorded(fixture.toolResults, returned)
  {
    if fixture.snapshot.evidence == [] {
      NothingCitedNothingRun(RecordedHandlers(fixture.toolResults), trace, fixture.snapshot, fixture.topology);
      assert false;
    }
    var r := ExecutedIsRecorded(fixture, trace, k);
    hide Policy, DeduplicationKey, IsAmbiguous, Same;
    KeyIdentifiesRequest(r.request, trace.calls[k]);
    SameIsSymmetric(Object(returned.request.parameters), Object(trace.calls[k].parameters));
    OnlyItself(Object(trace.calls[k].parameters), Object(returned.request.parameters));
    RequestsAreReflexive(returned.request);
    assert SameResult(returned, r.(request := returned.request));
  }

  lemma ReturnedKeysAreDistinct(calls: seq<ToolRequest>, returned: seq<ToolResult>)
    requires Distinct(KeysOf(calls)) && |returned| <= |calls|
    requires forall k :: 0 <= k < |returned| ==> returned[k].request == calls[k]
    ensures Distinct(KeysOf(RequestsOf(returned)))
    ensures forall i, j :: 0 <= i < j < |returned| ==>
              DeduplicationKey(returned[i].request) != DeduplicationKey(returned[j].request)
  {
    hide DeduplicationKey;
    var keys, all := KeysOf(RequestsOf(returned)), KeysOf(calls);
    forall i, j | 0 <= i < j < |returned|
      ensures DeduplicationKey(returned[i].request) != DeduplicationKey(returned[j].request) && keys[i] != keys[j]
    {
      assert all[i] == DeduplicationKey(calls[i]) && all[j] == DeduplicationKey(calls[j]) && all[i] != all[j];
    }
  }

  /** What the loop validated is supported for the scorer too, except that the
      scorer also looks at the type of the citations. */
  lemma ClaimsAreSupported(fixture: EvalFixture, investigation: Investigation, executed: seq<ToolResult>)
    requires Accepted(fixture) && ValidInvestigation(investigation, fixture.snapshot, executed)
    requires forall r :: r in investigation.toolCalls ==> IsRecorded(fixture.toolResults, r)
    ensures var statements := investigation.facts + investigation.directions;
            var available := set id | id in AvailableIds(fixture.snapshot, investigation.toolCalls);
            && CountUnsupported(statements, available) == CountIrregular(statements)
            && !ClassificationIsUnsupported(investigation, available)
  {
    hide DeduplicationKey, Distinct, SameResult, IsBlank, CountUnsupported, CountIrregular;
    var returned, statements := investigation.toolCalls, investigation.facts + investigation.directions;
    var available := set id | id in AvailableIds(fixture.snapshot, returned);
    AvailableExactly(fixture.snapshot, returned);
    SameEvidenceIds(returned, executed);
    NoBlankIds(fixture, returned);
    forall s | s in statements ensures Supported(s, available) {
      assert s in investigation.facts || s in investigation.directions;
    }
    OnlyIrregularUnsupported(statements, available);
  }

  lemma SameEvidenceIds(a: seq<ToolResult>, b: seq<ToolResult>)
    requires SameResults(a, b)
    ensures EvidenceOf(a) == EvidenceOf(b)
  {
    hide SameResult;
    forall k | 0 <= k < |a| ensures IdsOf(a[k].evidence) == IdsOf(b[k].evidence) {
      assert SameResult(a[k], b[k]);
      SameIds(a[k], b[k]);
    }
    SameIdsSameEvidence(a, b);
    SameIdsSameEvidence(b, a);
  }

  lemma SameIdsSameEvidence(a: seq<ToolResult>, b: seq<ToolResult>)
    requires |a| == |b| && forall k :: 0 <= k < |a| ==> IdsOf(a[k].evidence) == IdsOf(b[k].evidence)
    ensures EvidenceOf(a) <= EvidenceOf(b)
  {
    forall r, e | r in a && e in r.evidence ensures e.id in EvidenceOf(b) {
      var k :| 0 <= k < |a| && a[k] == r;
      var j :| 0 <= j < |r.evidence| && r.evidence[j] == e;
      assert IdsOf(r.evidence)[j] == e.id && IdsOf(b[k].evidence)[j] == b[k].evidence[j].id;
      assert b[k] in b && b[k].evidence[j] in b[k].evidence;
    }
  }

  lemma NoBlankIds(fixture: EvalFixture, returned: seq<ToolResult>)
    requires Accepted(fixture) && forall r :: r in returned ==> IsRecorded(fixture.toolResults, r)
    ensures forall id :: id in AllowedEvidence(fixture.snapshot, returned) ==> !IsBlank(id)
  {
    hide DeduplicationKey, Distinct, SameResult, IsBlank, BatchPermitted;
    AvailableExactly(fixture.snapshot, fixture.toolResults);
    forall id | id in AllowedEvidence(fixture.snapshot, returned) ensures !IsBlank(id) {
      if !(exists e :: e in fixture.snapshot.evidence && e.id == id) {
        var a, e :| a in returned && e in a.evidence && e.id == id;
        assert IsRecorded(fixture.toolResults, a);
        var r :| && r in fixture.toolResults && DeduplicationKey(r.request) == DeduplicationKey(a.request)
                 && SameResult(a, r.(request := a.request));
        SameIds(a, r.(request := a.request));
        var j :| 0 <= j < |a.evidence| && a.evidence[j] == e;
        assert IdsOf(a.evidence)[j] == id && IdsOf(r.evidence)[j] == r.evidence[j].id;
        assert id in EvidenceOf(fixture.toolResults);
      }
      assert id in AllowedEvidence(fixture.snapshot, fixture.toolResults);
      assert id in AvailableIds(fixture.snapshot, fixture.toolResults);
    }
  }

  lemma SameRequestsReflexive(requests: seq<ToolRequest>)
    ensures SameRequests(requests, requests)
  {
    forall k | 0 <= k < |requests| ensures SameRequest(requests[k], requests[k]) {
      RequestsAreReflexive(requests[k]);
    }
  }

  /** For every planner: the hybrid run of an accepted, unambiguous fixture is
      scored without an error, with at most six Tool calls, no unsupported
      classification, and no unsupported statement but those whose citations are
      not a tuple of plain strings. */
  lemma HybridRunScoresClean(fixture: EvalFixture, planner: Planner)
    requires Accepted(fixture) && IsUnambiguous(fixture)
    ensures var run := HybridRun(fixture, planner);
            var statements, m := run.investigation.facts + run.investigation.directions, Metrics(fixture, run);
            && Scorable(fixture, run)
            && m.toolCallCount == |run.toolCalls| <= MAX_TOTAL_TOOLS
            && m.unsupportedClassificationClaims == 0
            && m.unsupportedStatementClaims == CountIrregular(statements)
            && (m.unsupportedStatementClaims == 0 <==> forall s :: s in statements ==> s.plain)
  {
    hide WholeRun, Policy, SupportedOutput, SameResult, IsUnambiguous, DeduplicationKey, IsRecorded;
    hide BatchPermitted, AvailableIds;
    hide CountUnsupported, CountIrregular, ClassificationIsUnsupported;
    var handlers := RecordedHandlers(fixture.toolResults);
    var ran := WholeRun(planner, handlers, fixture.snapshot, fixture.topology);
    var returned := ran.investigation.toolCalls;
    WholeRunKeepsPolicy(planner, handlers, fixture.snapshot, fixture.topology);
    ReturnedAreRecorded(fixture, ran.trace, returned);
    ReturnedKeysAreDistinct(ran.trace.calls, returned);
    AvailableUnfolds(fixture.snapshot, fixture.toolResults);
    ExecutedIdsAreDistinct(IdsOf(fixture.snapshot.evidence), fixture.toolResults, returned);
    AvailableUnfolds(fixture.snapshot, returned);
    SameRequestsReflexive(RequestsOf(returned));
    ClaimsAreSupported(fixture, ran.investigation, ran.trace.results);
  }

  lemma AvailableUnfolds(snapshot: Snapshot, results: seq<ToolResult>)
    ensures AvailableIds(snapshot, results) == IdsOf(snapshot.evidence) + AllIds(results)
  {
  }

  lemma ReturnedAreRecorded(fixture: EvalFixture, trace: Trace, returned: seq<ToolResult>)
    requires Policy(RecordedHandlers(fixture.toolResults), trace, fixture.snapshot, fixture.topology)
    requires SameResults(returned, trace.results) && IsUnambiguous(fixture)
    ensures |returned| <= |trace.calls| <= MAX_TOTAL_TOOLS && Distinct(KeysOf(trace.calls))
    ensures forall k :: 0 <= k < |returned| ==>
              returned[k].request == trace.calls[k] && IsRecorded(fixture.toolResults, returned[k])
  {
    hide SameResult, IsRecorded, IsUnambiguous, DeduplicationKey;
    forall k | 0 <= k < |returned|
      ensures returned[k].request == trace.calls[k] && IsRecorded(fixture.toolResults, returned[k])
    {
      assert SameResult(returned[k], trace.results[k]);
      ReturnedIsRecorded(fixture, trace, returned[k], k);
    }
  }

  // ---- Where the score fails ----

  /** A planner that asks for `requests`, and hands every call back with the
      parameters `parameters`. */
  function Substituting(requests: seq<ToolRequest>, parameters: map<string, Json>): Planner {
    Planner(
      (round, snapshot, prior, remaining) =>
        Some(Proposal(if round == 0 then requests else [], [], [], [], UNCLASSIFIED, [])),
      (snapshot, results) => Some(Investigation([], [], [], UNCLASSIFIED, Substituted(results, parameters), [])))
  }

  function Substituted(results: seq<ToolResult>, parameters: map<string, Json>): seq<ToolResult> {
    seq(|results|, k requires 0 <= k < |results| =>
      results[k].(request := results[k].request.(parameters := parameters)))
  }

  predicate AllRecordedFor(results: seq<ToolResult>, requests: seq<ToolRequest>) {
    forall k :: 0 <= k < |requests| ==> Recorded(results, DeduplicationKey(requests[k])).Some?
  }

  lemma {:induction false} RecordedBatchRuns(
    results: seq<ToolResult>, requests: seq<ToolRequest>, before: Trace, start: nat)
    requires AllRecordedFor(results, requests)
    ensures var (ok, after) := RunBatch(RecordedHandlers(results), requests, before, start);
            && ok && |after.results| == |before.results| + |requests| && after.calls == before.calls + requests
            && before.results <= after.results
            && forall k :: 0 <= k < |requests| ==> after.results[|before.results| + k].request == requests[k]
    decreases |requests|
  {
    hide DeduplicationKey;
    if requests != [] {
      var request, rest := requests[0], requests[1..];
      assert Recorded(results, DeduplicationKey(request)).Some?;
      forall k | 0 <= k < |rest| ensures Recorded(results, DeduplicationKey(rest[k])).Some? {
        assert rest[k] == requests[k + 1];
      }
      var result := RecordedHandlers(results)(|before.calls|, request).value;
      var next := Trace(before.calls + [request], before.results + [result], before.starts + [start]);
      RecordedBatchRuns(results, rest, next, start);
      assert before.calls + [request] + rest == before.calls + requests;
      assert forall k :: 0 < k < |requests| ==> requests[k] == rest[k - 1];
    }
  }

  /** An ID that is not blank mentions itself. */
  lemma CitesItself(id: string, ids: set<string>)
    requires id in ids && !IsBlank(id)
    ensures C.Cites(id, ids)
  {
    assert C.OccursAt(id, id, 0);
    assert C.Mentions(id, id);
  }

  lemma PlainProposalIsValid(requests: seq<ToolRequest>, snapshot: Snapshot, prior: seq<ToolResult>, remaining: nat)
    requires |requests| <= MAX_TOOLS_PER_ROUND && |requests| <= remaining
    requires forall r :: r in requests ==> C.Cites(r.reason, AllowedEvidence(snapshot, prior))
    ensures ValidProposal(Proposal(requests, [], [], [], UNCLASSIFIED, []), snapshot, prior, remaining)
  {
    assert UNCLASSIFIED[0] == 'u' && !IsWhitespace('u');
  }

  /** What such a planner's run comes to. */
  lemma SubstitutingRun(fixture: EvalFixture, requests: seq<ToolRequest>, parameters: map<string, Json>)
    requires requests != [] && |requests| <= MAX_TOOLS_PER_ROUND
    requires BatchPermitted(requests, fixture.topology, {}) && AllRecordedFor(fixture.toolResults, requests)
    requires forall r :: r in requests ==> C.Cites(r.reason, AllowedEvidence(fixture.snapshot, []))
    requires forall r :: r in requests ==> Same(Object(parameters), Object(r.parameters))
    ensures var calls := HybridRun(fixture, Substituting(requests, parameters)).investigation.toolCalls;
            && |calls| == |requests|
            && forall k :: 0 <= k < |calls| ==> calls[k].request == requests[k].(parameters := parameters)
  {
    hide DeduplicationKey, C.Cites, AllowedEvidence, BatchPermitted, RunBatch, RunFrom, Same, Substituting;
    hide AllRecordedFor, ValidInvestigation;
    var planner, handlers := Substituting(requests, parameters), RecordedHandlers(fixture.toolResults);
    var (ok, after) := RunBatch(handlers, requests, NOTHING, 0);
    RecordedBatchRuns(fixture.toolResults, requests, NOTHING, 0);
    forall k | 0 <= k < |after.results| ensures after.results[k].request == requests[k] && requests[k] in requests {
      assert after.results[|NOTHING.results| + k].request == requests[k];
    }
    FirstRound(fixture, requests, parameters, after);
    SecondRound(fixture, requests, parameters, after);
  }

  lemma FirstRound(
    fixture: EvalFixture, requests: seq<ToolRequest>, parameters: map<string, Json>, after: Trace)
    requires requests != [] && |requests| <= MAX_TOOLS_PER_ROUND && BatchPermitted(requests, fixture.topology, {})
    requires forall r :: r in requests ==> C.Cites(r.reason, AllowedEvidence(fixture.snapshot, []))
    requires RunBatch(RecordedHandlers(fixture.toolResults), requests, NOTHING, 0) == (true, after)
    ensures var planner, handlers := Substituting(requests, parameters), RecordedHandlers(fixture.toolResults);
            WholeRun(planner, handlers, fixture.snapshot, fixture.topology) ==
            RunFrom(planner, handlers, fixture.snapshot, fixture.topology, 1, after)
  {
    hide DeduplicationKey, C.Cites, AllowedEvidence, BatchPermitted, SupportedOutput, ValidProposal, RunBatch, Same;
    PlainProposalIsValid(requests, fixture.snapshot, [], MAX_TOTAL_TOOLS);
    NoKeysYet();
  }

  lemma SecondRound(
    fixture: EvalFixture, requests: seq<ToolRequest>, parameters: map<string, Json>, after: Trace)
    requires 0 < |after.results| <= MAX_TOOLS_PER_ROUND
    requires forall k :: 0 <= k < |after.results| ==>
               Same(Object(parameters), Object(after.results[k].request.parameters))
    ensures var planner, handlers := Substituting(requests, parameters), RecordedHandlers(fixture.toolResults);
            RunFrom(planner, handlers, fixture.snapshot, fixture.topology, 1, after).investigation.toolCalls ==
            Substituted(after.results, parameters)
  {
    hide DeduplicationKey, C.Cites, AllowedEvidence, BatchPermitted, SupportedOutput, ValidProposal, RunBatch, Same;
    PlainProposalIsValid([], fixture.snapshot, after.results, MAX_TOTAL_TOOLS - |after.results|);
    EmptyBatchIsPermitted(fixture.topology, KeySet(after.calls));
    SubstitutedIsValid(fixture.snapshot, after.results, parameters);
  }

  lemma EmptyBatchIsPermitted(topology: Topology, seen: set<string>)
    ensures BatchPermitted([], topology, seen)
  {
  }

  lemma SubstitutedIsValid(snapshot: Snapshot, results: seq<ToolResult>, parameters: map<string, Json>)
    requires forall k :: 0 <= k < |results| ==> Same(Object(parameters), Object(results[k].request.parameters))
    ensures ValidInvestigation(
              Investigation([], [], [], UNCLASSIFIED, Substituted(results, parameters), []), snapshot, results)
  {
    hide Same;
    var returned := Substituted(results, parameters);
    ResultsAreReflexive(results);
    forall k | 0 <= k < |results| ensures SameResult(returned[k], results[k]) {
      assert SameResult(results[k], results[k]);
    }
    assert UNCLASSIFIED[0] == 'u' && !IsWhitespace('u');
  }

  /** A recorded request may be asked for again, with a reason of one's own. */
  lemma RecordedMayRun(fixture: EvalFixture, r: ToolResult, request: ToolRequest)
    requires Accepted(fixture) && fixture.snapshot.evidence != [] && r in fixture.toolResults
    requires request == ToolRequest(
               r.request.tool, r.request.resource, r.request.parameters, fixture.snapshot.evidence[0].id)
    ensures Allowlisted(request, fixture.topology) && !IsBlank(request.reason)
    ensures C.Cites(request.reason, AllowedEvidence(fixture.snapshot, []))
    ensures Recorded(fixture.toolResults, DeduplicationKey(request)).Some?
  {
    hide DeduplicationKey, IsBlank, C.Cites, Distinct;
    var requests := RequestsOf(fixture.toolResults);
    BatchPermittedExactly(requests, fixture.topology, {});
    var i :| 0 <= i < |fixture.toolResults| && fixture.toolResults[i] == r;
    assert requests[i] == r.request && r.request in requests;
    assert Allowlisted(r.request, fixture.topology);
    var id := fixture.snapshot.evidence[0].id;
    assert AvailableIds(fixture.snapshot, fixture.toolResults)[0] == id;
    assert fixture.snapshot.evidence[0] in fixture.snapshot.evidence;
    CitesItself(id, AllowedEvidence(fixture.snapshot, []));
    KeyIdentifiesRequest(r.request, request);
  }

  /** An accepted fixture that is not unambiguous can be run so that the score
      raises: a planner hands back calls that are equal, as Python compares, to
      the completed ones, under parameters with another key. */
  lemma AmbiguousCanRaise(fixture: EvalFixture, r: ToolResult) returns (planner: Planner)
    requires Accepted(fixture) && fixture.snapshot.evidence != [] && r in fixture.toolResults
    requires IsAmbiguous(Object(r.request.parameters))
    ensures !Scorable(fixture, HybridRun(fixture, planner))
  {
    hide IsAmbiguous, Same, HybridRun, DeduplicationKey, IsBlank, C.Cites, Distinct, SameResult, AvailableIds;
    hide AllowedEvidence, Allowlisted;
    var other := AnotherValue(Object(r.request.parameters));
    OtherIsObject(r.request.parameters, other);
    SameIsSymmetric(Object(r.request.parameters), other);
    SameIsReflexive(other);
    var request := ToolRequest(
      r.request.tool, r.request.resource, r.request.parameters, fixture.snapshot.evidence[0].id);
    var twin := request.(parameters := other.members);
    RecordedMayRun(fixture, r, request);
    KeyIdentifiesRequest(request, twin);
    var recorded := Recorded(fixture.toolResults, DeduplicationKey(twin));
    var requests := if recorded.None? then [request] else [request, twin];
    if recorded.Some? {
      KeyIdentifiesRequest(recorded.value.request, twin);
      RecordedMayRun(fixture, recorded.value, twin);
    }
    MayRunTogether(requests, fixture.topology);
    planner := Substituting(requests, other.members);
    SubstitutingRun(fixture, requests, other.members);
    var calls := HybridRun(fixture, planner).investigation.toolCalls;
    assert calls[0].request == twin;
    if recorded.None? {
      assert calls[0] in calls && !IsRecorded(fixture.toolResults, calls[0]);
    } else {
      assert calls[1].request == twin;
      TwiceIsNotDistinct(RequestsOf(calls));
    }
  }

  lemma TwiceIsNotDistinct(requests: seq<ToolRequest>)
    requires |requests| >= 2 && requests[0] == requests[1]
    ensures !Distinct(KeysOf(requests))
  {
    assert KeysOf(requests)[0] == KeysOf(requests)[1];
  }

  lemma OtherIsObject(parameters: map<string, Json>, other: Json)
    requires Same(Object(parameters), other)
    ensures other.Object?
  {
  }

  lemma MayRunTogether(requests: seq<ToolRequest>, topology: Topology)
    requires |requests| == 1 || (|requests| == 2 && DeduplicationKey(requests[0]) != DeduplicationKey(requests[1]))
    requires forall k :: 0 <= k < |requests| ==> Allowlisted(requests[k], topology) && !IsBlank(requests[k].reason)
    ensures BatchPermitted(requests, topology, {})
  {
    hide DeduplicationKey, Allowlisted, IsBlank;
    BatchPermittedExactly(requests, topology, {});
  }

  /** Every planner's run of an accepted fixture is scored without an error exactly
      when the fixture is unambiguous. */
  lemma EveryRunIsScoredExactly(fixture: EvalFixture)
    requires Accepted(fixture)
    ensures (forall planner :: Scorable(fixture, HybridRun(fixture, planner))) <==> IsUnambiguous(fixture)
  {
    hide Scorable, HybridRun, Accepted, Metrics, CountIrregular;
    if IsUnambiguous(fixture) {
      forall planner ensures Scorable(fixture, HybridRun(fixture, planner)) {
        HybridRunScoresClean(fixture, planner);
      }
    } else {
      var r :| r in fixture.toolResults && IsAmbiguous(Object(r.request.parameters));
      var planner := AmbiguousCanRaise(fixture, r);
    }
  }

  // A recorded request for one item: `1` and `true` are equal in Python.
  const LIMIT_FIXTURE := EvalFixture(
    "limit", Snapshot([Evidence("E-001", "alarm", "queue is old", map[])], []), {("queue", "jobs")},
    [ToolResult(ToolRequest("sqs_status", "jobs", map["limit" := Number(1)], "E-001"), [], None)],
    ExpectedOutcome({}, {}, {}, UNCLASSIFIED, []))

  /** Such a fixture is accepted, and a planner makes its score raise. */
  lemma LimitOfOneCanRaise()
    ensures Accepted(LIMIT_FIXTURE) && exists planner :: !Scorable(LIMIT_FIXTURE, HybridRun(LIMIT_FIXTURE, planner))
  {
    hide Scorable, HybridRun, DeduplicationKey, BatchPermitted;
    var f := LIMIT_FIXTURE;
    LimitIsAccepted();
    assert Object(f.toolResults[0].request.parameters).members["limit"] == Number(1);
    assert f.toolResults[0] in f.toolResults;
    var planner := AmbiguousCanRaise(f, f.toolResults[0]);
  }

  lemma LimitIsAccepted()
    ensures Accepted(LIMIT_FIXTURE)
  {
    hide DeduplicationKey, BatchPermitted;
    var f := LIMIT_FIXTURE;
    assert AllIds([]) == [] && f.toolResults[..0] == [] && AllIds(f.toolResults) == [];
    assert AvailableIds(f.snapshot, f.toolResults) == ["E-001"];
    assert "E-001"[0] == 'E' && !IsWhitespace('E');
    var requests := RequestsOf(f.toolResults);
    assert Allowlisted(requests[0], f.topology);
    MayRunTogether(requests, f.topology);
  }

  /** Citations in a list are accepted by the loop and counted as unsupported by
      the scorer. */
  lemma ListIsCounted(fixture: EvalFixture) returns (planner: Planner)
    requires Accepted(fixture) && fixture.snapshot.evidence != []
    ensures var run := HybridRun(fixture, planner);
            Scorable(fixture, run) && Metrics(fixture, run).unsupportedStatementClaims == 1
  {
    hide DeduplicationKey, C.Cites, IsBlank, Distinct, Scorable, BatchPermitted;
    var id := fixture.snapshot.evidence[0].id;
    var fact := Statement("", [id], false);
    planner := Planner(
      (round, snapshot, prior, remaining) => Some(Proposal([], [fact], [], [], UNCLASSIFIED, [])),
      (snapshot, results) => None);
    FactRun(fixture, planner, fact);
    var run := HybridRun(fixture, planner);
    var available := set x | x in AvailableIds(fixture.snapshot, []);
    assert StatementIsUnsupported(fact, available);
    assert [fact][..0] == [] && CountUnsupported([], available) == 0;
    assert CountUnsupported([fact], available) == 1;
    assert run.investigation.facts + run.investigation.directions == [fact];
    NoCallsAreScored(fixture, run);
  }

  lemma FactRun(fixture: EvalFixture, planner: Planner, fact: Statement)
    requires fixture.snapshot.evidence != [] && fact.ids == [fixture.snapshot.evidence[0].id]
    requires planner.propose(0, fixture.snapshot, [], MAX_TOTAL_TOOLS)
             == Some(Proposal([], [fact], [], [], UNCLASSIFIED, []))
    ensures HybridRun(fixture, planner).investigation == Investigation([fact], [], [], UNCLASSIFIED, [], [])
  {
    hide C.Cites, RunBatch;
    assert fixture.snapshot.evidence[0] in fixture.snapshot.evidence;
    assert Supported(fact, AllowedEvidence(fixture.snapshot, []));
    assert UNCLASSIFIED[0] == 'u' && !IsWhitespace('u');
    assert ValidProposal(Proposal([], [fact], [], [], UNCLASSIFIED, []), fixture.snapshot, [], MAX_TOTAL_TOOLS);
  }

  lemma NoCallsAreScored(fixture: EvalFixture, run: EvalRun)
    requires Accepted(fixture) && run.fixtureId == fixture.id
    requires run.investigation.toolCalls == [] && run.toolCalls == []
    ensures Scorable(fixture, run)
  {
    hide DeduplicationKey, IsBlank, BatchPermitted;
    DistinctJoin(IdsOf(fixture.snapshot.evidence), AllIds(fixture.toolResults));
    assert AvailableIds(fixture.snapshot, []) == IdsOf(fixture.snapshot.evidence);
  }

  /** Running and scoring together: any planner, any accepted fixture. */
  method EvaluateHybrid(fixture: EvalFixture, planner: Planner) returns (metrics: Option<RunMetrics>)
    requires Accepted(fixture)
    ensures var run := HybridRun(fixture, planner);
            metrics == if Scorable(fixture, run) then Some(Metrics(fixture, run)) else None
    ensures IsUnambiguous(fixture) ==>
              && metrics.Some?
              && metrics.value.toolCallCount <= MAX_TOTAL_TOOLS
              && metrics.value.unsupportedClassificationClaims == 0
              && metrics.value.unsupportedStatementClaims ==
                 var i := HybridRun(fixture, planner).investigation; CountIrregular(i.facts + i.directions)
  {
    hide HybridRun, Scorable, Metrics, IsUnambiguous;
    var run := RunFixture(fixture, planner);
    metrics := ScoreRun(fixture, run);
    if IsUnambiguous(fixture) { HybridRunScoresClean(fixture, planner); }
  }
}
