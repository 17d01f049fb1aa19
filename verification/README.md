# Incident investigator: a verified model

The incident investigator is a Lambda that turns one alarm event into one
incident: it claims the event in a DynamoDB table, collects a snapshot, runs a
bounded investigation, stores a redacted bundle in S3, finds or creates a GitHub
Issue, posts to Slack and marks the event complete. Attempts may race, crash
between any two calls, lose replies and be redelivered. Around it stand an
evaluation harness that scores recorded investigations and publishes reports to
a shared directory, and a scanner for IAM policies.

This project models those parts in Dafny and proves what they promise for every
input, every interleaving and every crash point. `dafny verify dfyconfig.toml`
checks all of it.

## How the model is built

* **Delivery** (`StateTable`, `DeliveryProtocol`, `DeliverySafety`,
  `IssueUniqueness`, `DeliveryProgress`, `IncidentRuntime`). The table, S3,
  GitHub and Slack are one state; every table call and every external call is
  one atomic step of one attempt. Any number of attempts for any number of
  events interleave. A label says whether a reply is delivered, lost, or the
  write is sent twice by the client library; an attempt may raise or crash
  between any two calls; a clock advances, and every write carries the clock
  reading of its sender, which is not trusted except where a lemma says so.
  `IncidentRuntime` writes `Runtime.handle`, `Publisher.publish` and the state
  store as methods over mutable objects, lets all other processes act before
  each call, and proves that the methods follow the state machine.
* **Reports** (`ReportProtocol`, `ReportSafety`, `ReportProgress`, `ReportDirectory`). The
  directory is a map from paths to contents; each file operation is one step.
  `ReportDirectory` writes the reservation loop and the report writer as methods
  over that map, with every file operation free to fail.
* **Investigation** (`Domain`, `AgentTools`, `AgentLoop`, `AgentAnswers`,
  `Citations`, `Evaluation`, `Handoff`, `PythonEquality`). Planners and Tool handlers are
  arbitrary functions that may raise. The loop and the registry are classes
  proved against a specification of the whole run; the scorer and the fixture
  checks are methods proved against specification functions, and the two sides
  are then compared. The loop checks what a planner hands back with Python's
  `==`, which does not tell `1`, `1.0` and `true` apart; the model has that
  equality.
* **Trees and text** (`JsonText`, `CanonicalJson`, `CanonicalForm`,
  `SensitiveKeys`, `Redaction`, `Redactor`, `PythonText`, `IssueMarkers`,
  `IssueBrief`, `SnapshotIds`, `StatementBlocks`).
  Canonical JSON with a reader, redaction of JSON trees and the test for
  credential keys, the hidden marker in Issues, Markdown escaping, Evidence IDs
  and the HCL block scanner.

Three results are exact conditions rather than plain guarantees.

* At most one Issue per incident holds for every run **if and only if** the
  lifetime of an attempt plus twice the clock skew fits into the fifteen-minute
  lease; with the Lambda limit of 300 seconds that leaves exactly 300 seconds of
  skew.
* A second redaction pass is a no-op **if and only if** the document passes a
  test on its own keys and values. It can fail in two ways, each with a concrete
  document: a key that looks like a token becomes a sentinel that names a token,
  so the value under it becomes sensitive only in the second pass; and a string
  that holds such JSON is rewritten once and refused the second time.
* Every planner's hybrid run of an accepted fixture is scored without an error
  **if and only if** the fixture is unambiguous: it has no evidence a Tool
  request could cite, or no recorded request has a boolean or a number that
  equals a value of another type among its parameters. Otherwise a planner can
  hand back completed calls under parameters that are equal for the loop and
  have another key for the scorer. And the unsupported statements of a scored
  run are exactly those whose citations are not a tuple of plain strings, which
  the loop does not look at.

## Model

| member | source | states |
|---|---|---|
| DeliverySafety.CompleteMeansHandedOver | src/pilo_incident_investigator/handler.py:275-293 | In every reachable state a complete event has its bundle in S3, both flags set, Slack status sent, rank 4, and Slack received a message carrying the link of an Issue of that incident; no assumption on clocks or lifetimes. |
| DeliverySafety.FlagsFollowTheWorld | src/pilo_incident_investigator/publishers.py:190-246 | Flags never run ahead of the world: an Issue or message implies the bundle is stored, and each flag of an item implies the object, Issue or message it stands for. |
| DeliverySafety.CheckpointHasItsOutcome | src/pilo_incident_investigator/state.py:199-233 | The rank always names the stored checkpoint, and the outcome of that checkpoint is recorded even when a takeover fell between the outcome write and the checkpoint write. |
| DeliverySafety.StepKeepsInv | src/pilo_incident_investigator/state.py:279-322 | Every step of every attempt, the read-back that reports success without a write included, keeps the invariant that links the position of each attempt to its item and to the world. |
| DeliverySafety.RunKeepsInv | src/pilo_incident_investigator/state.py:78-322 | The invariant holds along every run, of any length and any interleaving. |
| DeliverySafety.RunGrows | src/pilo_incident_investigator/state.py:279-322 | Over any run the incident of an item never changes, its rank never falls, its bundle and Issue flags never clear, a Slack attempt is never forgotten, and the outside world only grows. |
| DeliverySafety.CompleteIsFinal | src/pilo_incident_investigator/state.py:95-124 | Once complete, no later run changes any field of the item. |
| DeliverySafety.ClaimIsNeverDropped | src/pilo_incident_investigator/handler.py:294-344 | Over any run, an attempt that had a claim ends published, handed back, or stranded by a hand-back that failed too, unless it crashes. |
| DeliverySafety.WriteIsFenced | src/pilo_incident_investigator/state.py:199-268 | A successful write changes no item that is owned by another attempt afterwards. |
| DeliverySafety.WriterOwns | src/pilo_incident_investigator/state.py:95-116 | Whoever writes successfully is the owner afterwards. |
| DeliverySafety.TakeoverSupersedes | src/pilo_incident_investigator/state.py:95-116 | A write that changes the table supersedes every other attempt of the same event that is past its claim. |
| DeliverySafety.SupersededWritesNothing | src/pilo_incident_investigator/state.py:199-268 | The fence over whole runs: a superseded attempt stays superseded for ever and none of its later writes changes the table. |
| DeliverySafety.WriteIsPlaced | src/pilo_incident_investigator/state.py:199-268 | A write that is applied leaves its sender consistent both where the reply will send it and where it stands, so losing the reply or sending it again is safe; a rejected one leaves it consistent where the failure sends it. |
| DeliverySafety.WrittenItemIsSound | src/pilo_incident_investigator/state.py:199-268 | An item just written never claims more than has happened in S3, GitHub and Slack. |
| StateTable.RanksCount | src/pilo_incident_investigator/state.py:21 | A checkpoint has its place in their order as its rank. |
| StateTable.FirstClaimHasNothingDone | src/pilo_incident_investigator/state.py:78-93 | A first claim is written exactly for an event without an item, with nothing recorded, under a lease of 900 seconds. |
| StateTable.WritesTouchOnly | src/pilo_incident_investigator/state.py:95-268 | Every other write renews the lease of its own item for 900 seconds, makes its sender the owner and changes nothing but what it is for: a takeover the status, an outcome its one flag, a checkpoint the checkpoint with its rank, a mark the status. |
| StateTable.OwnerMayWriteExactly | src/pilo_incident_investigator/state.py:199-268 | The writes of an owner go through exactly while it is the owner, the event is being processed and the lease is not over; a checkpoint must also be ahead. |
| StateTable.ReadBackExactly | src/pilo_incident_investigator/state.py:307-320 | The read-back confirms exactly when an owner could still write and the rank is there already, except under a lease of zero, and only where the checkpoint write is refused. |
| IssueUniqueness.LiveAttemptsExclude | src/pilo_incident_investigator/state.py:95-116 | No two live attempts that hold a claim work on the same event. |
| IssueUniqueness.StepKeepsExclusive | src/pilo_incident_investigator/publishers.py:206-226 | Under the bound every step keeps three facts together: each live claimant holds the lease, none that is about to create finds an Issue of its incident already there, and no incident has two Issues. |
| IssueUniqueness.RunKeepsExclusive | src/pilo_incident_investigator/publishers.py:206-226 | Those facts hold along every timely run, with redeliveries, crashes, lost create replies and takeovers. |
| IssueUniqueness.RoomIsSufficient | src/pilo_incident_investigator/state.py:22 | If lifetime plus twice the skew is at most 900 seconds, no timely run creates a second Issue for an incident. |
| IssueUniqueness.RoomIsNecessary | src/pilo_incident_investigator/state.py:95-116 | If it is more, some timely run creates two: the second attempt takes the lease while the first is still about to call GitHub. |
| IssueUniqueness.UniquenessHasExactBounds | infra/main.tf:101 | At most one Issue per incident exactly when lifetime plus twice the skew is at most 900 seconds; for 300-second attempts exactly when the skew is at most 300 seconds. |
| DeliveryProgress.DeliveryCompletes | src/pilo_incident_investigator/handler.py:206-293 | In every interleaving with other attempts, a claimed delivery whose own calls succeed inside its lease never loses its item, is never stuck, takes at most 17 steps and ends with the event complete, whether the checkpoint write or its read-back is taken. |
| DeliveryProgress.StepMakesProgress | src/pilo_incident_investigator/state.py:279-322 | Each of its own steps lowers the number of steps left, and no step of another attempt raises it. |
| DeliveryProgress.ClaimSucceeds | src/pilo_incident_investigator/state.py:78-124 | A fresh delivery of a claimable event obtains the claim from any state that keeps the invariant. |
| DeliveryProgress.NoEventIsLost | src/pilo_incident_investigator/state.py:95-124 | From every reachable state, an event that was handed back, or whose lease ran out, is claimed by the first calls of any attempt with a fresh name; from there every fault-free run, in any interleaving with other attempts, goes on until the event is complete, within 17 steps of the attempt, and such a run exists. |
| DeliveryProgress.CrashLosesNothing | src/pilo_incident_investigator/state.py:95-116 | An attempt may crash at any point; nothing but the attempt changes, and an event that is not complete can be claimed once its lease is over. |
| DeliveryProgress.ClaimableExactly | src/pilo_incident_investigator/state.py:95-116 | An existing event can be claimed exactly when it is retryable or its lease is strictly over, and never once complete. |
| DeliveryProgress.RedeliveryIsDuplicate | src/pilo_incident_investigator/handler.py:206-213 | A delivery of a complete event whose own calls succeed is never stuck and ends as a duplicate with its third call at the latest, in every interleaving with other attempts, and the item stays as it was. |
| DeliveryProgress.RedeliveryBegins | src/pilo_incident_investigator/state.py:270-277 | From every reachable state with the event complete, any attempt with a fresh name starts such a delivery. |
| IncidentRuntime.Runtime.Handle | src/pilo_incident_investigator/handler.py:190-344 | One delivery among arbitrary others stays inside the protocol and ends; `published` and `duplicate` are answered only for an event that is complete. An event that is complete at entry keeps its item and is answered as a duplicate unless a call of the delivery fails, and `busy` is never the end for a complete one. It raises exactly when the event was busy or there was a setback: a call that raised or whose reply was lost, a write or read-back that showed the claim was lost, or an Issue or message that failed. A delivery that raises had no claim, or leaves the event retryable, or failed to hand it back as well. |
| IncidentRuntime.Runtime.ProcessClaimed | src/pilo_incident_investigator/handler.py:206-293 | From a held claim, the event is complete at the end exactly when there was no setback; otherwise the attempt stands where it must hand the event back. |
| IncidentRuntime.Publisher.Publish | src/pilo_incident_investigator/publishers.py:190-246 | Bundle, Issue and Slack are reached in this order with each outcome recorded before the next call; the answer names the Issue and the Slack status the attempt has really recorded, and it is a full publication exactly when there was no setback. |
| IncidentRuntime.Publisher.PublishIssue | src/pilo_incident_investigator/publishers.py:214-226 | An Issue is searched for before one is created; the attempt goes on with a link exactly when there was no setback, goes on without one when GitHub failed, and otherwise must hand the event back. |
| IncidentRuntime.DynamoIncidentStateStore.BeginEvent | src/pilo_incident_investigator/state.py:78-124 | Started and resumed mean that the attempt owns the item; complete means that the item is complete, and busy that it is not; the active attempt is remembered exactly when a claim is obtained. |
| IncidentRuntime.DynamoIncidentStateStore.ExistingClaim | src/pilo_incident_investigator/state.py:270-277 | Answers complete exactly for a complete item of this incident: busy means that the item is absent, of another incident or not complete. |
| IncidentRuntime.DynamoIncidentStateStore.MarkOutcome | src/pilo_incident_investigator/state.py:199-233 | Success means that both the outcome and the checkpoint are confirmed; anything else leaves the attempt to hand the event back. |
| IncidentRuntime.DynamoIncidentStateStore.AdvanceCheckpoint | src/pilo_incident_investigator/state.py:279-322 | Success means that the checkpoint was written or was read back as already there under this attempt's live lease. |
| IncidentRuntime.DynamoIncidentStateStore.MarkProcessingStatus | src/pilo_incident_investigator/state.py:235-268 | Success means that the item shows the status, and only then is the active attempt forgotten. |
| IncidentRuntime.World.SendWrite | src/pilo_incident_investigator/state.py:78-124 | A write that was answered as applied shows in the table with its owner and a renewed 900-second lease, however often the client library sent it. |
| ReportSafety.CompletePairIsOneReport | src/pilo_incident_investigator/evaluation/report.py:243-259 | In every reachable directory a slot counts as complete exactly when its marker has been written, and then its JSON and Markdown are the two renderings of one report. |
| ReportSafety.StepKeepsInv | src/pilo_incident_investigator/evaluation/report.py:297-349 | Every file operation of every writer, failing or crashing ones included, keeps the invariant of the directory. |
| ReportSafety.RunKeepsInv | src/pilo_incident_investigator/evaluation/report.py:272-349 | So does every run of any number of concurrent writers. |
| ReportSafety.ReservationsExclude | src/pilo_incident_investigator/evaluation/report.py:272-294 | Two reservations that have not been given back never share a slot. |
| ReportSafety.ReservedSlotIsFree | src/pilo_incident_investigator/evaluation/report.py:282-294 | A reservation is handed out only for a slot with no final file and no temporary, thanks to the check after locking. |
| ReportSafety.CompletePairIsFinal | src/pilo_incident_investigator/evaluation/report.py:297-349 | No later reservation and no failing writer ever changes or removes a completed pair or its marker. |
| ReportSafety.WriterSettlesItsSlot | src/pilo_incident_investigator/evaluation/report.py:339-349 | A writer about to release its slot has published its own report there or has left nothing of it behind, and no temporary in either case. |
| ReportSafety.CrashedSlotStaysLocked | src/pilo_incident_investigator/evaluation/report.py:272-294 | The slot of a crashed holder keeps its lock in every later state, so it is never handed out again. |
| ReportProgress.WriterPublishes | src/pilo_incident_investigator/evaluation/report.py:297-349 | In every interleaving with other writers, a writer that holds a reservation and whose own file operations succeed is never refused and never stuck, and after at most eighteen operations has published its own report as a complete pair. |
| ReportProgress.OnlyTakenIsGivenUp | src/pilo_incident_investigator/evaluation/report.py:209-218 | A slot is given up only when a file takes it; a search then goes on with the next second, a single attempt ends, and a lock that was taken is given back. |
| ReportProgress.FreeSlotIsReserved | src/pilo_incident_investigator/evaluation/report.py:272-294 | While no final and no lock stands in its way, every step of a reservation brings it nearer, up to the hand-out. |
| ReportProgress.LockedExactly | src/pilo_incident_investigator/evaluation/report.py:272-294 | No lock is left behind: in every reachable directory a slot is locked exactly while some process has its lock, be it one that crashed with it. |
| ReportProgress.CompleteExactly | src/pilo_incident_investigator/evaluation/report.py:243-259 | A pair is complete exactly when both reports are there, neither is empty, and the marker has the digests of these very texts. |
| ReportProgress.TamperedIsIncomplete | src/pilo_incident_investigator/evaluation/report.py:243-259 | A complete pair stops being one when any of its three files is removed or changed. |
| ReportDirectory.Directory.ReserveExact | src/pilo_incident_investigator/evaluation/report.py:272-294 | Succeeds only on a slot that was free and adds the lock alone; otherwise the slot is taken and, without a race, the directory is as before. |
| ReportDirectory.Directory.ReserveSlot | src/pilo_incident_investigator/evaluation/report.py:209-218 | Ends, at the first timestamp from the candidate on that is not taken, whatever races other writers win; other slots are untouched. |
| ReportDirectory.TakenShrinks | src/pilo_incident_investigator/evaluation/report.py:209-218 | Each second the search gives up strictly lowers the number of taken timestamps ahead of it. |
| ReportDirectory.RaceAddsAtMostOne | src/pilo_incident_investigator/evaluation/report.py:272-294 | A lost race makes up for at most the one timestamp that was just passed. |
| ReportDirectory.Directory.WriteText | src/pilo_incident_investigator/evaluation/report.py:678-689 | Creates the whole file exclusively, or leaves the directory as it was, also when the write stops half-way. |
| ReportDirectory.Directory.WriteTemps | src/pilo_incident_investigator/evaluation/report.py:311-314 | Both temporaries are there, or removing those in its list restores the directory. |
| ReportDirectory.Directory.WritePair | src/pilo_incident_investigator/evaluation/report.py:297-349 | Publishes both renderings, or leaves exactly what its two lists of created paths can undo. |
| ReportDirectory.Directory.WriteFiles | src/pilo_incident_investigator/evaluation/report.py:297-349 | The pair and its marker are there, or removing what the lists name restores the directory. |
| ReportDirectory.Directory.WriteReserved | src/pilo_incident_investigator/evaluation/report.py:297-349 | Publishes the report and releases the slot, or restores the directory exactly and releases the slot; the latter exactly when the slot was not clear or some file operation failed. |
| ReportDirectory.PublishedIsComplete | src/pilo_incident_investigator/evaluation/report.py:243-259 | What a successful writer leaves is accepted as a complete pair: the two renderings and their marker are added, the lock is gone, every other file is as before, and no other complete slot stops being one. |
| ReportDirectory.FreeExactly | src/pilo_incident_investigator/evaluation/report.py:282-294 | A slot is free exactly when nothing but temporaries stands under its timestamp. |
| Citations.MentionsAreTokens | src/pilo_incident_investigator/agent/contracts.py:20-25 | The boundary search finds an ID exactly when it is one of the maximal token runs of the text, never as part of a longer one. |
| Citations.CitesExactly | src/pilo_incident_investigator/agent/contracts.py:20-25 | A text cites available evidence exactly when its tokens and the available IDs meet. |
| Citations.NextDecides | src/pilo_incident_investigator/agent/contracts.py:20-25 | An ID is not cited by one that goes on with a letter, a digit, a hyphen or an underscore, and is when anything else follows. |
| PythonEquality.AmbiguousExactly | src/pilo_incident_investigator/domain.py:90-101 | A parameter value is equal, in Python, to one with another canonical text exactly when a boolean or a number that some float holds occurs in it. |
| Domain.KeyIdentifiesRequest | src/pilo_incident_investigator/domain.py:90-101 | Two requests have the same key exactly when tool, resource and parameters are equal as unordered JSON values; the reason plays no part. |
| AgentTools.BatchPermittedExactly | src/pilo_incident_investigator/agent/tools.py:91-119 | A batch passes exactly when every request is allowlisted with a reason, none was seen before and no two are duplicates. |
| AgentTools.ToolsByResource | src/pilo_incident_investigator/agent/tools.py:19-36 | The five Tools and no other are allowlisted, each for a resource of its own type in the topology. |
| AgentTools.ToolRegistry.Execute | src/pilo_incident_investigator/agent/tools.py:80-89 | A denied request reaches no handler and changes nothing; a permitted one makes one handler call, and its key is remembered exactly when the handler returned. |
| AgentTools.ToolRegistry.ValidateBatch | src/pilo_incident_investigator/agent/tools.py:91-101 | Accepts exactly the batches whose requests would each be permitted after those before it, and changes nothing. |
| AgentLoop.InvestigationAgent.Run | src/pilo_incident_investigator/agent/loop.py:25-48 | The run is exactly the one that planner and handlers determine, keeps the policy, and its answer is supported; the calls it hands back are equal, as Python compares, to the completed ones in order, and it is the fallback when a handler raised. What that answer is, the rows of `AgentAnswers` say. |
| AgentLoop.InvestigationAgent.ExecuteBatch | src/pilo_incident_investigator/agent/loop.py:42-46 | A validated batch runs in order up to the first handler that raises, and what returned is kept; the registry denies none of it part-way. |
| AgentLoop.RunKeepsPolicy | src/pilo_incident_investigator/agent/loop.py:25-48 | For every planner and all handlers: at most six handler calls in at most two rounds of at most three, pairwise distinct keys, all allowlisted, each reason citing evidence available when its round began; the results are those of the handlers, in order. |
| AgentLoop.BatchKeepsPolicy | src/pilo_incident_investigator/agent/loop.py:42-46 | One validated batch keeps that policy, and stops early only when a handler raised. |
| AgentLoop.InvestigationAgent.Finalize | src/pilo_incident_investigator/agent/loop.py:50-56 | Whatever the planner summarises or raises, the answer is supported by the snapshot and the calls made, and the calls in it are Python-equal to those. |
| AgentLoop.FallbackIsValid | src/pilo_incident_investigator/agent/loop.py:153-164 | The fallback always passes the validation that planners' answers must pass. |
| AgentLoop.PolicyExtends | src/pilo_incident_investigator/agent/loop.py:25-48 | One more permitted call that cites evidence of its round keeps the policy, whether or not it returns. |
| AgentAnswers.SuccessAnswersThePlanner | src/pilo_incident_investigator/agent/loop.py:25-56 | When every proposal asked for was valid and permitted and every call returned: a first proposal without requests is handed back as it is; otherwise the calls are those of both proposals, in order, and the answer is the summary of the planner whenever that is valid, also when the second proposal asks for nothing, and the fallback only when it is not. |
| AgentAnswers.SetbackAnswersFallback | src/pilo_incident_investigator/agent/loop.py:25-48 | In every other run, where a proposal raised, was invalid or was denied, or a handler raised, the answer is the fallback over the results there are. |
| AgentAnswers.CallsWereAskedFor | src/pilo_incident_investigator/agent/loop.py:42-46 | The calls of such a run are those asked for, in order, up to the one that raised. |
| AgentAnswers.FallbackClaimsNothing | src/pilo_incident_investigator/agent/loop.py:153-164 | The fallback claims nothing, cites nothing, keeps the results and says how many collectors failed. |
| AgentAnswers.ProposalIsValidExactly | src/pilo_incident_investigator/agent/loop.py:59-133 | A proposal is valid exactly when it asks for at most three Tools and no more than remain, each with a reason that cites available evidence, and all it says is supported: cited by distinct available IDs, with no blank text, and unclassified where the classification cites nothing. |
| AgentAnswers.InvestigationIsValidExactly | src/pilo_incident_investigator/agent/loop.py:89-133 | A summary is valid exactly when it hands back the executed calls in order and all it says is supported. |
| AgentAnswers.AllowedExactly | src/pilo_incident_investigator/agent/loop.py:136-139 | Available evidence is that of the snapshot and of every result so far. |
| Evaluation.RunFixture | src/pilo_incident_investigator/evaluation/runner.py:179-221 | A hybrid run is the whole run of the bounded loop over the recorded results, with the requests of the calls it hands back. |
| Evaluation.ValidateEvidence | src/pilo_incident_investigator/evaluation/schema.py:478-493 | Accepts exactly the fixtures whose snapshot and recorded results share no Evidence ID and whose expected outcome refers to none that is absent. |
| Evaluation.ReferencesExactly | src/pilo_incident_investigator/evaluation/schema.py:478-493 | A reference is one to required Evidence or to the Evidence of any expected fact, and each must be among the available. |
| Evaluation.RecordedToolResults | src/pilo_incident_investigator/evaluation/metrics.py:379-386 | Builds the table of recorded results, or fails exactly when two of them have the same key. |
| Evaluation.ScoreRun | src/pilo_incident_investigator/evaluation/metrics.py:218-295 | Raises nothing exactly for scorable runs, with results compared as Python does and citations by type, and then returns metrics whose every figure is read off the run: the number of calls to Tools that are not useful, of statements not well cited, of required IDs cited, and exactly when direction, classification and its citations are right. |
| Evaluation.MetricsMeasure | src/pilo_incident_investigator/evaluation/metrics.py:243-295 | Each figure of the metrics is a count or a condition over the run itself. |
| Evaluation.ScorableExactly | src/pilo_incident_investigator/evaluation/metrics.py:218-241 | A run is scored exactly when it is of the fixture, its requests are those of its calls, at most six and no two alike, each one recorded with the same evidence and failure, and no Evidence ID comes twice. |
| Evaluation.UnnecessaryExactly | src/pilo_incident_investigator/evaluation/metrics.py:264-266 | The unnecessary calls are the calls of Tools that are not useful, counted one by one. |
| Evaluation.WellCitedExactly | src/pilo_incident_investigator/evaluation/metrics.py:366-376 | A statement counts as supported exactly when it cites at least one piece of available evidence, none twice and none blank, in a tuple of plain strings. |
| Evaluation.ExecutedIdsAreDistinct | src/pilo_incident_investigator/evaluation/metrics.py:218-295 | Calls with distinct keys that replay a recording with unique Evidence IDs never bring an ID in twice. |
| Evaluation.ClaimsAreSupported | src/pilo_incident_investigator/evaluation/metrics.py:366-396 | Of what the loop validates, the scorer counts as unsupported exactly the statements whose citations are not a tuple of plain strings, and never the classification. |
| Evaluation.HybridRunScoresClean | src/pilo_incident_investigator/evaluation/metrics.py:218-295 | For every planner and every accepted, unambiguous fixture: scored without an error, at most six Tool calls, no unsupported classification, and no unsupported statement exactly when all citations are tuples of plain strings. |
| Evaluation.EveryRunIsScoredExactly | src/pilo_incident_investigator/evaluation/metrics.py:229-241 | Every planner's run of an accepted fixture is scored without an error exactly when the fixture is unambiguous. |
| Evaluation.AmbiguousCanRaise | src/pilo_incident_investigator/agent/loop.py:96-97 | For every accepted fixture with evidence and an ambiguous recorded request there is a planner whose calls the loop accepts as equal and the scorer refuses. |
| Evaluation.LimitOfOneCanRaise | src/pilo_incident_investigator/evaluation/metrics.py:234-241 | A concrete one: a request recorded with the parameter `1` and handed back with `true`. |
| Evaluation.ListIsCounted | src/pilo_incident_investigator/evaluation/metrics.py:366-376 | For every accepted fixture with evidence there is a planner whose one fact, cited in a list, the loop accepts and the scorer counts as unsupported. |
| Evaluation.EvaluateHybrid | src/pilo_incident_investigator/evaluation/runner.py:191-221 | Running and scoring together: the metrics of the run when it is scorable, which an unambiguous fixture guarantees, with the counts above. |
| Handoff.ExecuteRecordedTools | src/pilo_incident_investigator/evaluation/handoff.py:666-687 | Succeeds exactly when every request in turn cites evidence available by then, is permitted and recorded; the IDs it returns are the visible ones and those of all executed results. |
| Handoff.RunCondition | src/pilo_incident_investigator/evaluation/handoff.py:180-217 | Accepts exactly the recordings made for the replay context that keep to the vocabulary of the fixture and are executable, and counts exactly the claims that cite nothing or something not available. |
| Handoff.RawAlarmSupportsNothing | src/pilo_incident_investigator/evaluation/handoff.py:196-206 | Under the raw alarm a recording of its context and vocabulary is accepted exactly when it asks for no Tool, and every claim it makes is counted unsupported. |
| Handoff.ExecutableExactly | src/pilo_incident_investigator/evaluation/handoff.py:666-687 | Under either condition the requests are executable exactly when there are at most six and each is allowlisted, new, recorded, and reasoned by an ID that can be cited by then. |
| Handoff.AvailableExactly | src/pilo_incident_investigator/evaluation/handoff.py:196-206 | What can be cited after some requests: the evidence of the snapshot, unless there is only the raw alarm, and that of the recorded results of those requests. |
| Handoff.ClaimsExactly | src/pilo_incident_investigator/evaluation/handoff.py:313-317 | The claims counted as unsupported are exactly those that cite nothing or something that cannot be cited. |
| Handoff.ReplayableExactly | src/pilo_incident_investigator/evaluation/handoff.py:454-476 | A recording is accepted only in the context it was made for, field by field, with a direction and clarifications the fixture allows. |
| CanonicalJson.ValueReads | src/pilo_incident_investigator/bundle.py:12-51 | Every value is read back from its canonical text, whatever follows it (RFC 8259, sections 2 to 7). |
| CanonicalJson.LoadsUndoesEncode | src/pilo_incident_investigator/publishers.py:271-292 | Decoding undoes canonical encoding, for every value. |
| CanonicalJson.EncodeIsInjective | src/pilo_incident_investigator/domain.py:90-101 | Two values have the same canonical text exactly when they are equal as unordered JSON values. |
| CanonicalJson.CanonicalObjectsExactly | src/pilo_incident_investigator/publishers.py:271-292 | The canonical-form check accepts exactly the canonical texts of objects, each of one object only; what those texts look like, the rows of `CanonicalForm` say. |
| CanonicalForm.MembersAscend | src/pilo_incident_investigator/bundle.py:12-51 | The members of an encoded object stand in strictly ascending order of their keys, each key of the object once. |
| CanonicalForm.LeqExactly | src/pilo_incident_investigator/domain.py:90-101 | That order is by code point: at the first place where two keys differ the smaller character decides, and a prefix comes first. |
| CanonicalForm.CanonicalIsShortest | src/pilo_incident_investigator/bundle.py:12-51 | Of all texts that read as a value its canonical text is a shortest: no space, and no escape longer than needed. |
| CanonicalForm.HexIsSmall | src/pilo_incident_investigator/bundle.py:12-51 | Control characters are escaped with small hexadecimal digits. |
| Redaction.RedactExactly | src/pilo_incident_investigator/redaction.py:265-309 | Redaction is refused exactly for an empty container or a non-text leaf under a sensitive key, two keys that become one, or text the rules refuse; otherwise it keeps the shape and every other number, boolean and null, and every leaf under a sensitive key is an approved sentinel. |
| Redaction.NothingToRedactExactly | src/pilo_incident_investigator/redaction.py:265-309 | Nothing is replaced exactly when the document is clean, and then it is unchanged. |
| Redaction.CountsExactly | src/pilo_incident_investigator/redaction.py:265-309 | For every category the count is the sum, over each key and each text of the document, of what the rules report outside sensitive context, and of one `SENSITIVE_FIELD` for each text under a sensitive key that is not an approved sentinel; nothing else is counted. |
| Redaction.EveryKeyIsVisited | src/pilo_incident_investigator/redaction.py:265-277 | That sum passes over no member of an object. |
| Redaction.SecondPassIsNoOpExactly | src/pilo_incident_investigator/redaction.py:265-309 | A second pass replaces nothing exactly when the document passes a test that can be made beforehand: what the rules make of each key, and of each text outside sensitive context, leaves them nothing more to do, and wherever a rewritten key becomes sensitive only approved sentinels are left below it. |
| Redaction.StableKeysAreEnough | src/pilo_incident_investigator/redaction.py:265-277 | That test holds when rewriting makes no key sensitive and the rewritten keys and texts of the document settle. |
| Redaction.SecondPassCanRefuse | src/pilo_incident_investigator/redaction.py:265-277 | It can fail: a number under a key that is a GitHub token passes the first redaction, and the second one refuses the result. |
| Redaction.EmbeddedCanRefuse | src/pilo_incident_investigator/redaction.py:311-359 | Nor is it enough that no key changes: a string that holds such JSON is rewritten by the first pass and refused by the second. |
| SensitiveKeys.PartedInOnePass | src/pilo_incident_investigator/redaction.py:435-438 | The two substitutions over a key, one after the other, part it exactly at its word boundaries: before the last capital of an acronym that begins a word, and before a capital after a small letter or digit. |
| SensitiveKeys.SpellingIsImmaterial | src/pilo_incident_investigator/redaction.py:435-438 | The words of a name are found alike in `like_this`, `LIKE_THIS` and, for words of two letters or more, `likeThis`. |
| SensitiveKeys.OneLetterHumpsMerge | src/pilo_incident_investigator/redaction.py:435-438 | The bound of two letters is needed: one-letter humps merge into one word. |
| SensitiveKeys.SensitiveInEverySpelling | src/pilo_incident_investigator/redaction.py:441-450 | A credential name is sensitive in each of these spellings exactly when its words are, wrapper names excepted. |
| SensitiveKeys.NeighboursHideNothing | src/pilo_incident_investigator/redaction.py:441-450 | A sensitive word or pair of words makes a key sensitive whatever words stand around it, wrapper names excepted. |
| SensitiveKeys.OneWordExactly | src/pilo_incident_investigator/redaction.py:441-450 | Written in one word, exactly the listed credential names are sensitive. |
| SensitiveKeys.PairsExactly | src/pilo_incident_investigator/redaction.py:133-152 | The pairs of words that name a credential together. |
| SensitiveKeys.CutsHideNothing | src/pilo_incident_investigator/redaction.py:445-449 | However such a name is cut into words, the key stays sensitive. |
| SensitiveKeys.GithubSentinelIsSensitive | src/pilo_incident_investigator/redaction.py:441-450 | The sentinel for a GitHub token is itself a sensitive key, the token it replaces is not. |
| Redaction.ReportAddsUp | src/pilo_incident_investigator/redaction.py:402-406 | The report names each category that has replacements once, with its count, in ascending order, and nothing else; its total is the number of replacements. |
| Redactor.Redactor.RedactJson | src/pilo_incident_investigator/redaction.py:279-303 | The recursion that threads one mutable counter returns the redacted value and adds exactly its replacements to the counter, which `Redaction.CountsExactly` counts one by one. |
| Redactor.Redactor.RedactList | src/pilo_incident_investigator/redaction.py:279-303 | Items are redacted in order, and their replacements are added up in the counter. |
| Redactor.Redactor.RedactMapping | src/pilo_incident_investigator/redaction.py:265-277 | The dictionary filled member by member, in whatever order they come, is the redacted object, with the same refusals. |
| Redactor.OrderIsImmaterial | src/pilo_incident_investigator/redaction.py:388-399 | The order of the members of an object changes neither the result, nor the counts, nor whether it is refused. |
| IssueMarkers.ValidateIssueMarkdown | src/pilo_incident_investigator/integrations/github.py:289-298 | The scan accepts exactly the bounded texts without a credential shape none of whose comments, closed or not, holds the reserved token. |
| IssueMarkers.ScanFindsMarker | src/pilo_incident_investigator/integrations/github.py:21-25 | A marker line anywhere in a text is caught by the scan, also behind earlier unclosed or nested comment openers. |
| IssueMarkers.AcceptedHasNoMarker | src/pilo_incident_investigator/integrations/github.py:289-298 | Accepted Markdown contains no marker of any incident. |
| IssueMarkers.CommentsAreReal | src/pilo_incident_investigator/integrations/github.py:21 | Each content found stands right after an opener and reaches to the first closer, or to the end of the text. |
| IssueMarkers.EveryOpenerIsRead | src/pilo_incident_investigator/integrations/github.py:294-298 | No opener is passed over: it opens a comment that is found or lies inside one. |
| IssueMarkers.HasTokenExactly | src/pilo_incident_investigator/integrations/github.py:22-25 | A content holds the reserved token exactly when a part of it reads, in any case of its letters, as the word, a hyphen with any space around it and `id`, standing free on both sides. |
| IssueMarkers.BodyNamesItsIncident | src/pilo_incident_investigator/integrations/github.py:193-203 | The body built for an incident holds the marker line of that incident and of no other, for all accepted Markdown. |
| IssueMarkers.FindIssue | src/pilo_incident_investigator/integrations/github.py:164-191 | Returns the first Issue, open ones first, that has the marker as a whole line, and nothing exactly when none has. |
| IssueMarkers.SearchFindsItsIssue | src/pilo_incident_investigator/integrations/github.py:164-191 | Over Issues built by the client the search is empty exactly when none was built for the incident, and what it returns was. |
| IssueBrief.SafeInline | src/pilo_incident_investigator/brief.py:95-100 | The sequence of in-place replacements equals a one-pass escape of each character of the whitespace-normalised text. |
| IssueBrief.StagedExactly | src/pilo_incident_investigator/brief.py:98-99 | After any number of replacements each character is escaped exactly once or not yet; an escape is never escaped again. |
| IssueBrief.UnescapeUndoes | src/pilo_incident_investigator/brief.py:95-100 | The escape has a left inverse, so no two texts are shown alike. |
| IssueBrief.SplitUndoesUnlines | src/pilo_incident_investigator/brief.py:40-53 | Splitting the rendered brief gives back the lines it was rendered from. |
| PythonText.LinesAreParted | src/pilo_incident_investigator/integrations/github.py:184-191 | Lines end at any break, a carriage return takes its line feed with it, and a text without a break is one line. |
| IssueBrief.FourHeadings | src/pilo_incident_investigator/brief.py:40-53 | Whatever the texts are, exactly four lines start a section. |
| IssueBrief.BriefIsSafe | src/pilo_incident_investigator/brief.py:40-100 | A rendered brief has exactly four lines that start a section and no comment opener, so the Issue validation accepts it exactly when it is not too long and shows no credential shape. |
| IssueBrief.EveryStatementHasItsHeading | src/pilo_incident_investigator/brief.py:40-92 | Read back from the rendered text: under each of the four headings stand, in order and with their citations, exactly the facts, the directions, what is missing and the classification. |
| IssueBrief.CitationsAreParted | src/pilo_incident_investigator/brief.py:75-92 | Citations are listed in order, a comma and a space between two of them. |
| IssueBrief.WordsAreKept | src/pilo_incident_investigator/brief.py:95-97 | Normalising a text keeps its words. |
| IssueBrief.EscapeIsInert | src/pilo_incident_investigator/brief.py:95-100 | In an escaped text every Markdown control stands right after the backslash that takes its meaning away, no angle bracket is left and every `&` begins an entity. |
| SnapshotIds.AllocationIsStable | src/pilo_incident_investigator/snapshot.py:87-92 | Allocation is a permutation that keeps the order within each source; the sources ascend, compared at the first character where they differ, and the IDs read `E-001`, `E-002` and so on, pairwise distinct. |
| SnapshotIds.IdsDiffer | src/pilo_incident_investigator/snapshot.py:87-92 | Padded IDs are distinct for any number of items, also past 999. |
| SnapshotIds.AllocationIgnoresIds | src/pilo_incident_investigator/snapshot.py:87-92 | IDs given by collectors play no part in the result. |
| SnapshotIds.AllocationIsIdempotent | src/pilo_incident_investigator/snapshot.py:87-92 | Allocating twice is allocating once. |
| SnapshotIds.Collect | src/pilo_incident_investigator/snapshot.py:57-84 | The Snapshot holds the allocated evidence of all collectors that answered and the failures of the rest, and never trips its own duplicate check (domain.py, lines 74 to 77). |
| SnapshotIds.EachHasItsPart | src/pilo_incident_investigator/snapshot.py:57-84 | A failing collector hides none of the others: each collector adds its items together and in order, or its failure once, whatever comes before and after it. |
| SnapshotIds.CollectorIsHeard | src/pilo_incident_investigator/snapshot.py:57-92 | Every item of a collector that answered is in the Snapshot with all but its ID as it was, and every failure is listed. |
| StatementBlocks.ScanBlock | scripts/check_iam_policy.py:152-173 | The loop with a depth and two flags ends at the brace that closes the block under a recursive reading of nested blocks and strings, or finds none exactly when there is none. |
| StatementBlocks.FindStatementBlocks | scripts/check_iam_policy.py:150-175 | The blocks returned are, in order, exactly the closed ones, each from its start to the brace that closes it. |
| StatementBlocks.ClosesAtFirstExcess | scripts/check_iam_policy.py:152-173 | The closing brace is the first point outside strings where more blocks are closed than opened. |
| StatementBlocks.UnclosedNeverExceeds | scripts/check_iam_policy.py:172-174 | A block that is left out never closes more than it opens. |
| StatementBlocks.BlocksExactly | scripts/check_iam_policy.py:150-175 | The blocks found are, each once and in order of their starts, exactly the parts of the text that begin with the free-standing word, space and an opening brace and end at the first excess of closing braces. |
| StatementBlocks.StringEndsExactly | scripts/check_iam_policy.py:157-164 | A string ends with the first quote that has an even number of backslashes before it, and otherwise never. |

## Left out

- Incident IDs and digests: `StateTable.IncidentIdFor` and `Domain.DeduplicationKey` stand for hashes and are injective; hash collisions are not modelled.
- Identifier checks of the state store (blank strings) and the unused `claim_event`: single-branch validation and dead code.
- Snapshot collection, the investigation and rendering inside `Runtime.handle` are one step each that succeeds or raises; the investigation has its own model in `AgentLoop`.
- Time-based deletion in S3 and deletion of Issues by people: stored objects stay.
- Timely runs: an Issue search sees every Issue created before it, a write carries a clock reading taken after its attempt began, and all effects of an attempt fall inside its lifetime; no safety result except Issue uniqueness uses this.
- DeliveryProgress.NoEventIsLost: fault-free means that the attempt's own calls succeed and that no clock reading of any attempt lies beyond its lease.
- Slack status may go from sent back to failed on a retry, as in the source; `DeliverySafety.RunGrows` therefore only says that an attempted status stays attempted.
- A rename that takes effect and then reports an error, a fresh lock file that cannot be closed, and the second `release()` in `scripts/run_eval.py` after a failed write: the lock is released once per reservation.
- Report digests are one step over both files and stand for the texts they were computed from.
- The layout of reports, release gates and aggregation: fixed tables and sums.
- ReportDirectory.Directory.ReserveSlot: the races other writers win during one search are bounded by a parameter; without a bound the search need not end.
- Ratios, latencies and costs of `RunMetrics`: floating point; only counts and flags are modelled.
- The snapshot-only mode and live Bedrock runs: no loop, or foreign I/O.
- Field-by-field parsing of fixtures: only what the scorer depends on.
- Evaluation.HybridRunScoresClean: planners are functions of values. A planner that changes in place the dictionaries it is handed, or hands back values of other types than declared apart from citations (text that is not a string, objects with an equality of their own), is not covered; such a planner can make the score raise for any fixture with a Tool to run.
- Evaluation.EveryRunIsScoredExactly: integers beyond 2^53 count as unambiguous; some of them equal a float, which the model has only up to that bound.
- Handoff.RunCondition: the digests of the replay context are given, and forbidden-action patterns are not modelled.
- CanonicalJson.ValueReads: numbers are integers and whole floats up to 2^53; other fractions, exponents and minus zero, escapes of surrogate pairs, lone surrogates and the UTF-8 step of canonical bundles are not modelled.
- Redaction.RedactExactly: the text rules (regular expressions, JSON inside strings) and the test for sensitive keys are parameters, so that the results hold for any of them.
- Redaction.SecondPassIsNoOpExactly: assumes that the text rules count what they change and leave approved sentinels alone. That they find nothing in their own output is not assumed; where it matters it is part of the test on the document.
- Redaction.SecondPassCanRefuse, Redaction.EmbeddedCanRefuse: shown with the key test of the source and with text rules that do what the source does on the strings involved and leave other text alone.
- SensitiveKeys.SpellingIsImmaterial: names of small letters; digits and letters outside ASCII are not covered.
- Redaction of typed bundles field by field: calls of the tree and text redaction.
- IssueMarkers.ValidateIssueMarkdown: the check for credential shapes is a parameter; word characters are the ASCII ones, and the two non-ASCII letters that case-insensitive matching folds to `i` and `s` are not matched.
- IssueMarkers.FindIssue: search results are given as parsed; requests, status codes and malformed answers are one failure in the delivery model.
- IssueBrief.BriefIsSafe: for an investigation as redaction leaves it, with citations already validated as structural IDs.
- StatementBlocks.FindStatementBlocks: word boundaries use the ASCII word characters; actions, resources and region conditions inside blocks are not modelled.
- AWS collectors, Tool normalisers, HTTP transports, topology loading, configuration and logging: foreign I/O and single-branch validation.
