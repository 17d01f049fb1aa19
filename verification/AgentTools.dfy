/** The registry of permitted Tools, `tools.py`: what may run, and that it runs
    at most once. */
module AgentTools {
  import opened Options
  import opened JsonText
  import opened PythonText
  import opened Domain

  const TOOL_NAMES := {
    "service_log_search", "rds_events", "secret_rotation_metadata", "sqs_status", "github_changed_files" }

  function ResourceType(tool: string): string
    requires tool in TOOL_NAMES
  {
    if tool == "service_log_search" then "log_group"
    else if tool == "rds_events" then "rds_instance"
    else if tool == "secret_rotation_metadata" then "secret"
    else if tool == "sqs_status" then "queue"
    else "github_repository"
  }

  /** The resources a topology allows, each with its type. */
  type Topology = set<(string, string)>

  predicate Allowlisted(request: ToolRequest, topology: Topology) {
    request.tool in TOOL_NAMES && (ResourceType(request.tool), request.resource) in topology
  }

  /** Each Tool reads resources of one type, and an unknown Tool reads none. */
  lemma ToolsByResource(request: ToolRequest, topology: Topology)
    ensures Allowlisted(request, topology) <==>
            || (request.tool == "service_log_search" && ("log_group", request.resource) in topology)
            || (request.tool == "rds_events" && ("rds_instance", request.resource) in topology)
            || (request.tool == "secret_rotation_metadata" && ("secret", request.resource) in topology)
            || (request.tool == "sqs_status" && ("queue", request.resource) in topology)
            || (request.tool == "github_changed_files" && ("github_repository", request.resource) in topology)
  {
  }

  /** `_validate`: nothing is raised. */
  predicate Permitted(request: ToolRequest, topology: Topology, seen: set<string>) {
    && Allowlisted(request, topology)
    && !IsBlank(request.reason)
    && DeduplicationKey(request) !in seen
  }

  function KeysOf(requests: seq<ToolRequest>): seq<string> {
    seq(|requests|, k requires 0 <= k < |requests| => DeduplicationKey(requests[k]))
  }

  function KeySet(requests: seq<ToolRequest>): set<string> {
    set r | r in requests :: DeduplicationKey(r)
  }

  /** A batch that may run in order: each request is permitted once those before
      it have run. */
  predicate BatchPermitted(requests: seq<ToolRequest>, topology: Topology, seen: set<string>) {
    forall k :: 0 <= k < |requests| ==> Permitted(requests[k], topology, seen + KeySet(requests[..k]))
  }

  /** What validating a batch gives: no duplicate, nothing seen before, and every
      request allowlisted with a reason; and nothing more. */
  lemma BatchPermittedExactly(requests: seq<ToolRequest>, topology: Topology, seen: set<string>)
    ensures BatchPermitted(requests, topology, seen) <==>
            && Distinct(KeysOf(requests))
            && (forall r :: r in requests ==>
                  Allowlisted(r, topology) && !IsBlank(r.reason) && DeduplicationKey(r) !in seen)
  {
    if BatchPermitted(requests, topology, seen) {
      forall i, j | 0 <= i < j < |requests| ensures KeysOf(requests)[i] != KeysOf(requests)[j] {
        assert Permitted(requests[j], topology, seen + KeySet(requests[..j]));
        assert requests[i] == requests[..j][i];
      }
      forall r | r in requests
        ensures Allowlisted(r, topology) && !IsBlank(r.reason) && DeduplicationKey(r) !in seen
      {
        var k :| 0 <= k < |requests| && requests[k] == r;
        assert Permitted(requests[k], topology, seen + KeySet(requests[..k]));
      }
    } else {
      var k :| 0 <= k < |requests| && !Permitted(requests[k], topology, seen + KeySet(requests[..k]));
      if DeduplicationKey(requests[k]) in KeySet(requests[..k]) {
        var r :| r in requests[..k] && DeduplicationKey(r) == DeduplicationKey(requests[k]);
        var i :| 0 <= i < k && requests[i] == r;
        assert KeysOf(requests)[i] == KeysOf(requests)[k];
      }
    }
  }

  lemma NoKeys(requests: seq<ToolRequest>)
    ensures KeySet(requests[..0]) == {}
  {
  }

  lemma OneMoreKey(requests: seq<ToolRequest>, k: nat)
    requires k < |requests|
    ensures KeySet(requests[..k + 1]) == KeySet(requests[..k]) + {DeduplicationKey(requests[k])}
  {
    hide DeduplicationKey;
    assert requests[..k + 1] == requests[..k] + [requests[k]];
  }

  /** The set of keys a run passes from call to call. */
  class SeenKeys {
    var keys: set<string>

    constructor ()
      ensures keys == {}
    {
      keys := {};
    }
  }

  datatype Execution = Completed(result: ToolResult) | Denied | Raised

  /** A handler is any code: it may answer anything, or raise, and may answer the
      same request differently each time. */
  type Handlers = (nat, ToolRequest) -> Option<ToolResult>

  class ToolRegistry {
    const handlers: Handlers
    /** Every handler call made, and the results of those that returned. */
    var calls: seq<ToolRequest>
    var results: seq<ToolResult>

    constructor (handlers: Handlers)
      ensures this.handlers == handlers && calls == [] && results == []
    {
      this.handlers := handlers;
      calls, results := [], [];
    }

    method Execute(request: ToolRequest, topology: Topology, seen: SeenKeys) returns (execution: Execution)
      modifies this, seen
      ensures execution.Denied? <==> !Permitted(request, topology, old(seen.keys))
      ensures execution.Denied? ==> calls == old(calls) && results == old(results) && seen.keys == old(seen.keys)
      ensures !execution.Denied? ==> calls == old(calls) + [request]
      ensures !execution.Denied? ==> match handlers(|old(calls)|, request)
                case Some(result) =>
                  && execution == Completed(result) && results == old(results) + [result]
                  && seen.keys == old(seen.keys) + {DeduplicationKey(request)}
                case None => execution == Raised && results == old(results) && seen.keys == old(seen.keys)
    {
      if !Permitted(request, topology, seen.keys) { return Denied; }
      var answer := handlers(|calls|, request);
      calls := calls + [request];
      if answer.None? { return Raised; }
      results := results + [answer.value];
      seen.keys := seen.keys + {DeduplicationKey(request)};
      return Completed(answer.value);
    }

    /** `validate_batch`: the whole batch is checked before any handler runs. */
    method ValidateBatch(requests: seq<ToolRequest>, topology: Topology, seen: SeenKeys) returns (ok: bool)
      ensures ok <==> BatchPermitted(requests, topology, seen.keys)
    {
      hide DeduplicationKey, IsBlank, Permitted, KeySet;
      var pending := seen.keys;
      NoKeys(requests);
      for k := 0 to |requests|
        invariant pending == seen.keys + KeySet(requests[..k])
        invariant forall i :: 0 <= i < k ==> Permitted(requests[i], topology, seen.keys + KeySet(requests[..i]))
      {
        if !Permitted(requests[k], topology, pending) { return false; }
        pending := pending + {DeduplicationKey(requests[k])};
        OneMoreKey(requests, k);
      }
      return true;
    }
  }
}
