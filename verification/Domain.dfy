/** The contracts shared across the incident pipeline. */
module Domain {
  import opened Options
  import opened JsonText
  import opened PythonText
  import CanonicalJson
  import PythonEquality

  datatype Evidence = Evidence(id: string, source: string, summary: string, data: map<string, Json>)

  datatype ToolRequest = ToolRequest(tool: string, resource: string, parameters: map<string, Json>, reason: string)

  datatype ToolResult = ToolResult(request: ToolRequest, evidence: seq<Evidence>, failure: Option<string>)

  datatype Snapshot = Snapshot(evidence: seq<Evidence>, failures: seq<string>)

  /** `plain`: the citations are a tuple of plain strings. A planner may pass
      another iterable or strings of a subclass. */
  datatype Statement = Statement(text: string, ids: seq<string>, plain: bool)

  datatype Proposal = Proposal(
    requests: seq<ToolRequest>, facts: seq<Statement>, directions: seq<Statement>,
    missing: seq<string>, classification: string, classificationIds: seq<string>)

  datatype Investigation = Investigation(
    facts: seq<Statement>, directions: seq<Statement>, missing: seq<string>,
    classification: string, toolCalls: seq<ToolResult>, classificationIds: seq<string>)

  // ---- Python's equality of contracts ----

  predicate SameRequest(a: ToolRequest, b: ToolRequest) {
    && a.tool == b.tool && a.resource == b.resource && a.reason == b.reason
    && PythonEquality.Same(Object(a.parameters), Object(b.parameters))
  }

  predicate SameEvidence(a: Evidence, b: Evidence) {
    && a.id == b.id && a.source == b.source && a.summary == b.summary
    && PythonEquality.Same(Object(a.data), Object(b.data))
  }

  predicate SameResult(a: ToolResult, b: ToolResult) {
    && SameRequest(a.request, b.request) && a.failure == b.failure
    && |a.evidence| == |b.evidence| && forall k :: 0 <= k < |a.evidence| ==> SameEvidence(a.evidence[k], b.evidence[k])
  }

  predicate SameResults(a: seq<ToolResult>, b: seq<ToolResult>) {
    |a| == |b| && forall k :: 0 <= k < |a| ==> SameResult(a[k], b[k])
  }

  lemma RequestsAreReflexive(a: ToolRequest)
    ensures SameRequest(a, a)
  {
    PythonEquality.SameIsReflexive(Object(a.parameters));
  }

  lemma ResultsAreReflexive(a: seq<ToolResult>)
    ensures SameResults(a, a)
  {
    forall k | 0 <= k < |a| ensures SameResult(a[k], a[k]) {
      RequestsAreReflexive(a[k].request);
      forall j | 0 <= j < |a[k].evidence| ensures SameEvidence(a[k].evidence[j], a[k].evidence[j]) {
        PythonEquality.SameIsReflexive(Object(a[k].evidence[j].data));
      }
    }
  }

  predicate Distinct<T(==)>(s: seq<T>) {
    forall i, j :: 0 <= i < j < |s| ==> s[i] != s[j]
  }

  function IdsOf(evidence: seq<Evidence>): (ids: seq<string>)
    ensures |ids| == |evidence| && forall k :: 0 <= k < |ids| ==> ids[k] == evidence[k].id
  {
    seq(|evidence|, k requires 0 <= k < |evidence| => evidence[k].id)
  }

  /** The canonical text whose digest is `deduplication_key`; the digest is
      taken to be free of collisions. */
  function DeduplicationKey(request: ToolRequest): string {
    Encode(RequestValue(request))
  }

  function RequestValue(request: ToolRequest): Json {
    Object(map["parameters" := Object(request.parameters),
               "resource_key" := Text(request.resource),
               "tool" := Text(request.tool)])
  }

  /** Two requests are duplicates exactly when tool, resource and parameters are
      equal as JSON values; the reason and the order of parameters play no part. */
  lemma KeyIdentifiesRequest(a: ToolRequest, b: ToolRequest)
    ensures DeduplicationKey(a) == DeduplicationKey(b)
            <==> a.tool == b.tool && a.resource == b.resource && a.parameters == b.parameters
  {
    CanonicalJson.EncodeIsInjective(RequestValue(a), RequestValue(b));
    if RequestValue(a) == RequestValue(b) {
      assert RequestValue(a).members["parameters"] == RequestValue(b).members["parameters"];
      assert RequestValue(a).members["resource_key"] == RequestValue(b).members["resource_key"];
      assert RequestValue(a).members["tool"] == RequestValue(b).members["tool"];
    }
  }
}
