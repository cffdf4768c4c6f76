# Katapult, modelled and proved in Dafny

Katapult is a control plane that moves Kubernetes volumes between clusters. This project models the parts of it
in which something can go wrong across several calls, and proves what they guarantee over every run:

- **Transfers** (`Transfers`, `Handlers`, `Lifecycle`, `Outcomes`, `Faults`, `FaultFree`, `Replay`, `Cleanups`,
  `Interleaving`, `Finality`, `Races`, `Orchestrator`, `Backoff`). Each operation of the orchestrator is a handler that
  takes one external call per step. An operation that nothing interrupts is its handler run to the end, with an
  arbitrary set of failing calls; `Outcomes` says what its caller is told and `Faults` what it leaves behind;
  `Interleaving` lets any number of handlers alternate, `Finality` says exactly when a terminal state survives that,
  and `Races` what it does to cleanups and completion times. `Orchestrator` is the imperative form over a row store
  and an event log, each method proved equal to its handler run alone. A transfer is followed as one `Cell`: its row,
  its log, the states persisted so far, and the calls made on its behalf.
- **Progress streaming** (`HubSpec`, `ProgressHub`, `Sse`, `Streams`, `Serving`). The hub as a state machine over its
  operations and as classes on the heap; the event-stream writer and the chunked reader as printer and parser; the hub
  put together with the orchestrator; and the handler that serves a client, up to what the client reads.
- **Agents** (`Registry`, `Stores`, `Agreement`, `ServiceLaws`, `AgentService`). The service's decisions, the in-memory
  store and the two SQL tables, the runs of the service over each, what each operation does and answers, and the
  classes that implement them.
- **The VolumeTransfer controller** (`Reconciler`, `Passes`, `Controller`): runs of it, and what one pass does.
- **Two pieces of the project tooling** (`ManagedBlock`; `Backup`, `BackupSuccess` and `Rollback`): the managed block in
  AGENTS.md and CLAUDE.md, and backup and rollback of a migration.

`dafny verify dfyconfig.toml` checks everything.

Conventions. Clock readings, random draws, new identifiers and the answers of the outside world are parameters. A new
identifier is one not used before; where a run would reuse one, that step does nothing. A repository call that fails
leaves the store as it is. Where a law does not hold on all inputs, a lemma states the exact condition:

- a terminal state under interleaving: `Finality.FinalExactly`, `Finality.SameStateExactly`
- completion times under interleaving: `Races.CompletedExactly`, `Races.CompletedMeansOverExactly`
- the event log: `Replay.CreateFaithful`, `Replay.LogReplayExactly`
- subscribers of transfers that are over: `Streams.LingersExactly`, `Streams.NoStreamOutlivesItsTransfer`
- the stream's round trip: `Sse.RoundTripExactly`
- the two agent stores: `Agreement.AgreementExactly`, `Agreement.StoresAgreeExactly`
- the end of a cancellation: `Reconciler.CancelExactly`
- the managed block: `ManagedBlock.IdempotentExactly`, `ManagedBlock.PutPutExactly`, `ManagedBlock.FileIdempotentExactly`
- backup: `BackupSuccess.BackUpSucceedsExactly`, `Backup.BackUpExactly`
- rollback: `Rollback.RestoredExactly`, `Rollback.RollbackExactly`, `Rollback.RollbackRestoresAllExactly`

Where the code and its comments disagree, the model follows the code. The SQL upsert has a comment about identifiers
changing on conflict; through the service they never do. The comment on the SSE client promises waits of 1s, 2s, 4s up
to 30s; the code also falls back to 1s as soon as a connection yields an event.

## Model

| member | source | states |
|---|---|---|
| `Transfers.ValidateTransferRequest` | katapult/internal/transfer/validation.go:51-101 | accepts exactly the requests whose two ends differ, whose volumes were both found, and whose destination was reported empty or may be overwritten; every lookup error rejects; and each rejection is given exactly for its own reason, the first that applies |
| `Transfers.SelectStrategy` | katapult/internal/transfer/strategy.go:17-49 | fails exactly for an unknown override; a known one gives the strategy of that name; without one, streams exactly within one cluster and uses S3 exactly between clusters with S3 configured |
| `Transfers.StrategyNames` | katapult/internal/transfer/strategy.go:17-49 | every strategy is selected by its own name, and the names are stream, s3 and direct |
| `Transfers.TableEnds` | katapult/internal/domain/transfer.go:100-147 | a state is terminal exactly if no edge leaves it, and pending is the only one that no edge enters |
| `Transfers.ValidateCreateTransferInput` | katapult/internal/http/validation.go:38-88 | reports no field error exactly for the acceptable inputs, and blames exactly the fields at fault |
| `Orchestrator.TransferRepo.CreateTransfer` | katapult/internal/testutil/memtransferrepo.go:29-36 | the row is stored, replacing one already there and keeping its log; no other transfer changes |
| `Orchestrator.TransferRepo.UpdateTransferState` | katapult/internal/testutil/memtransferrepo.go:50-60 | only the state of the one row changes; an unknown identifier is an error |
| `Orchestrator.TransferRepo.UpdateTransferStrategy` | katapult/internal/testutil/memtransferrepo.go:62-72 | only the strategy of the one row changes |
| `Orchestrator.TransferRepo.UpdateTransferProgress` | katapult/internal/testutil/memtransferrepo.go:74-87 | only the progress of the one row changes |
| `Orchestrator.TransferRepo.UpdateTransferStarted` | katapult/internal/testutil/memtransferrepo.go:89-100 | only the start time of the one row changes |
| `Orchestrator.TransferRepo.UpdateTransferCompleted` | katapult/internal/testutil/memtransferrepo.go:102-113 | only the completion time changes, not the state |
| `Orchestrator.TransferRepo.UpdateTransferFailed` | katapult/internal/testutil/memtransferrepo.go:115-128 | state, failure and completion time change together |
| `Orchestrator.TransferRepo.IncrementRetryCount` | katapult/internal/testutil/memtransferrepo.go:130-140 | the counter goes up by one from its current value, not from the caller's copy |
| `Orchestrator.TransferRepo.CreateTransferEvent` | katapult/internal/testutil/memtransferrepo.go:142-149 | the event is appended to the log of the identifier, with or without a row; no row and no other log changes |
| `Orchestrator.Orchestrator.ExecuteCleanup` | katapult/internal/transfer/cleanup.go:41-76 | the calls made are, in this order and no others: revoke credentials, cancel the source agent, cancel the destination agent and, for S3 only, delete the objects |
| `Orchestrator.Orchestrator.CreateTransfer` | katapult/internal/transfer/orchestrator.go:113-247 | for every set of failing calls: succeeds exactly if the request is safe, its strategy, if named, is known, and none of the insertion, the state, strategy and start-time writes and the two commands fails, and is rejected otherwise; a row is stored exactly if the insertion goes through, with the ends, owner and limits of the request; row, log, persisted states and calls are those of `CreateLeaves`; no other transfer changes; every stored transfer still lives by the transition table and terminal ones are frozen |
| `Orchestrator.Orchestrator.CancelTransfer` | katapult/internal/transfer/orchestrator.go:251-317 | for every set of failing calls: succeeds exactly on a transfer that is there and not terminal and whose row can be read and written; leaves what `CancelLeaves` says; the same for other transfers and the transition table |
| `Orchestrator.Orchestrator.HandleProgress` | katapult/internal/transfer/orchestrator.go:325-497 | for every set of failing calls: accepted exactly if the transfer is there, what the report asks for is allowed in its state and the writes for it go through; leaves what `ReportLeaves` says, including completion, retry and exhaustion; the same for other transfers and the transition table |
| `Outcomes.CreateOutcome` | katapult/internal/transfer/orchestrator.go:113-247 | for every set of failing calls the outcome of a creation, as told for `CreateTransfer` |
| `Outcomes.CreateStores` | katapult/internal/transfer/orchestrator.go:113-237 | whatever fails, a stored row has the ends, overwrite flag, owner, creation time and retry limit of the request; the commands sent are a prefix of source, destination; a creation that succeeds has sent both and stored the selected strategy |
| `Outcomes.CancelOutcome` | katapult/internal/transfer/orchestrator.go:251-317 | the outcome of a cancellation |
| `Outcomes.ReportOutcome` | katapult/internal/transfer/orchestrator.go:325-497 | the outcome of a report |
| `Outcomes.TransferKept` | katapult/internal/transfer/orchestrator.go:113-497 | over every run with any failures a stored transfer keeps its ends, owner, limits and strategy |
| `Faults.CreateEverywhere` | katapult/internal/transfer/orchestrator.go:113-247 | whichever calls fail, a creation leaves the row, log, states and calls told by `CreateLeaves` without its steps: a failed write stops it where it stands, a lost event stops nothing, and a failure is stored and recorded unless those writes fail too |
| `Faults.CancelEverywhere` | katapult/internal/transfer/orchestrator.go:251-317 | the same for a cancellation: once both writes are done, closing, both cancel commands and the cleanup follow whatever fails |
| `Faults.ReportEverywhere` | katapult/internal/transfer/orchestrator.go:325-497 | the same for a report |
| `Faults.StepLeaves` | katapult/internal/transfer/orchestrator.go:113-497 | the three together, also for a transfer that is not there |
| `Lifecycle.CancelRejectsTerminal` | katapult/internal/transfer/orchestrator.go:251-275 | cancelling a terminal transfer is rejected and changes nothing at all |
| `Lifecycle.ReportKeepsTerminal` | katapult/internal/transfer/orchestrator.go:325-497 | a report on a terminal transfer never touches its state or completion time |
| `Lifecycle.StepCellLife` | katapult/internal/domain/transfer.go:100-147 | each operation, with any failures, keeps the persisted states on the transition table and terminal states final |
| `Lifecycle.LifecycleHolds` | katapult/internal/transfer/orchestrator.go:113-497 | over every run with any failures: persisted states form a path of the transition table from pending, terminal states and their completion times are final, a completion time means a terminal state, transferring or completed means a persisted strategy, and the retry count never passes max(RetryMax, 0) |
| `Lifecycle.LivesAreFew` | katapult/internal/domain/transfer.go:100-147 | the paths of the transition table from pending are exactly the nine written out |
| `FaultFree.CreateClosedForm` | katapult/internal/transfer/orchestrator.go:113-247 | without repository faults, a creation leads to one of the final rows, logs and call sequences written out in `AfterCreate` |
| `FaultFree.CancelClosedForm` | katapult/internal/transfer/orchestrator.go:251-317 | the closed form of a cancellation |
| `FaultFree.ReportClosedForm` | katapult/internal/transfer/orchestrator.go:325-497 | the closed form of a report |
| `Replay.CreateFaithful` | katapult/internal/transfer/orchestrator.go:138-246 | the log of a creation tells its row exactly unless a validated request names an unknown strategy, whose failure is never logged |
| `Replay.LogReplayExactly` | katapult/internal/transfer/orchestrator.go:138-472 | over every fault-free run, all logs tell their rows (start with created, fold to the persisted state, one ending iff terminal, retries numbered 1, 2, 3, ... up to the retry count) iff no creation that takes effect is safe with an unknown strategy; such a log is never mended |
| `Replay.LogReplay` | katapult/internal/transfer/orchestrator.go:138-472 | so they do in every fault-free run on accepted inputs |
| `Replay.CompletionTimes` | katapult/internal/transfer/orchestrator.go:113-497 | in every fault-free run, whatever was requested, a completion time is set iff the state is terminal |
| `Replay.RetriesRunOut` | katapult/internal/transfer/orchestrator.go:420-468 | a transferring transfer is terminal after as many failed reports as it has retries left, and one more |
| `Replay.CleanupFrom` | katapult/internal/transfer/cleanup.go:41-76 | from any state, the cleanups run for a transfer are those already run plus the endings by cancellation or report |
| `Replay.CleanupExactlyOnce` | katapult/internal/transfer/orchestrator.go:265-486 | in every fault-free run, cleanup runs exactly once for each transfer that ends by cancellation or report and never otherwise, and deletes objects iff the strategy is S3 |
| `Cleanups.CleanupCalls` | katapult/internal/transfer/cleanup.go:41-76 | the calls of a cleanup, written out, and when the objects are among them |
| `Cleanups.CancelCommandsCounted` | katapult/internal/transfer/orchestrator.go:265-486 | over every fault-free run, each end of a transfer is told to cancel once if a report ended it, twice if a cancellation did, and never before it ends or if its own creation failed; equal clusters are counted together |
| `Interleaving.CommandSafety` | katapult/internal/transfer/orchestrator.go:157-237 | in every interleaving with any failures a transfer gets at most two transfer commands, source then destination, and only for a request that was in order |
| `Interleaving.RetryBound` | katapult/internal/transfer/orchestrator.go:420-468 | with at most n handlers between reading and counting, the retry count never passes RetryMax + n - 1, and stays 0 if no retries are allowed |
| `Finality.FinalExactly` | katapult/internal/transfer/orchestrator.go:113-497 | in every interleaving with any failures, a terminal transfer stays terminal whatever happens next iff its creation can no longer persist validating or transferring |
| `Finality.FinalOnceCreated` | katapult/internal/transfer/orchestrator.go:239-246 | a transfer that ends after its creation has returned is never reopened |
| `Finality.SameStateExactly` | katapult/internal/transfer/orchestrator.go:265-468 | a terminal transfer keeps its very state whatever happens next iff no creation, cancellation or report under way has another state left to write; handlers that start later never matter |
| `Finality.CancelOverwritten` | katapult/internal/transfer/orchestrator.go:199-210 | the failing side of `FinalExactly` is reachable: for every request in order some interleaving persists cancelled and then transferring, with the completion time left on the row |
| `Races.CleanupsCounted` | katapult/internal/transfer/orchestrator.go:265-486 | in every interleaving with any failures, a transfer has been cleaned up exactly as often as cancellations and reports have carried its ending through |
| `Races.CompletedExactly` | katapult/internal/transfer/orchestrator.go:113-497 | in every interleaving with any failures, a completion time is set iff the transfer was marked failed or a cancellation or report has got past writing one |
| `Races.CompletedMeansOverExactly` | katapult/internal/transfer/orchestrator.go:113-497 | a completion time goes on meaning a terminal state whatever happens next iff the creation can no longer reopen the transfer |
| `Backoff.DelaysGrow` | katapult/internal/transfer/retry.go:25-30 | the delay before jitter never decreases with the attempt and stays at the cap once there |
| `Backoff.BackoffDecision` | katapult/internal/transfer/retry.go:18-46 | a retry is granted iff attempts are left, with a delay within [(1-f)d, (1+f)d], where d is base 2^n, or the cap if that is less |
| `Backoff.CappedIs` | katapult/internal/transfer/retry.go:25-30 | the delay before jitter is base 2^n, or the cap if that is less |
| `Backoff.JitterGrows` | katapult/internal/transfer/retry.go:32-38 | the delay grows with the random draw, and the middle draw leaves it as it is |
| `Backoff.JitterReaches` | katapult/internal/transfer/retry.go:32-38 | the least draw gives (1-f)d, the middle one d and the greatest (1+f)d |
| `Backoff.RetryIsMayRetry` | katapult/internal/transfer/orchestrator.go:420-432 | the report handler retries exactly when the backoff says so |
| `Backoff.WaitsBounded` | katapult/internal/transfer/orchestrator.go:420-445 | over every fault-free run the delays computed for a transfer stay within the longest delays of the attempts it has left |
| `Backoff.LifetimeBackoff` | katapult/internal/transfer/retry.go:18-46 | all delays of a transfer's life sum to at most (1+f) min(RetryMax cap, base (2^RetryMax - 1)) |
| `HubSpec.Safety` | katapult/internal/observability/hub.go:45-112 | after any sequence of operations: registered under its own transfer iff not closed, no empty subscriber set, at most 16 buffered, and no send on a closed channel or double close has happened |
| `HubSpec.LeaseMatches` | katapult/internal/observability/hub.go:45-74 | a subscriber is in the table exactly while the operations say it is subscribed, and only under its transfer |
| `HubSpec.Delivery` | katapult/internal/observability/hub.go:76-93 | received followed by buffered is exactly what was published to the transfer during the subscription, less the events that found 16 pending |
| `HubSpec.AcceptedInOrder` | katapult/internal/observability/hub.go:76-93 | those events are a subsequence of the published ones |
| `HubSpec.ClosedConserves` | katapult/internal/observability/hub.go:95-112 | after closing nothing is lost or added, and enough receives drain the buffer |
| `ProgressHub.ProgressHub.Subscribe` | katapult/internal/observability/hub.go:45-74 | a fresh subscriber on the heap; the abstract hub makes the subscribe step |
| `ProgressHub.ProgressHub.Unsubscribe` | katapult/internal/observability/hub.go:57-71 | the abstract unsubscribe step; callable any number of times, before or after closing |
| `ProgressHub.ProgressHub.Publish` | katapult/internal/observability/hub.go:76-93 | the loop over subscribers makes exactly the abstract publish step |
| `ProgressHub.ProgressHub.CloseTransfer` | katapult/internal/observability/hub.go:95-112 | the loop closes every subscriber of the transfer and no other |
| `Sse.RestHasNoSeparator` | web/src/api/sse.ts:18-57 | what the reader leaves in its buffer never contains a blank line |
| `Sse.ParseInTwoPieces` | web/src/api/sse.ts:18-57 | for all texts a and b, parsing a and then the remainder with b gives the events and remainder of parsing a + b |
| `Sse.ChunkingInvariance` | web/src/api/sse.ts:93-113 | the same for every way to cut a text into chunks |
| `Sse.StreamReading` | web/src/api/sse.ts:93-113 | for newline-free payloads, keepalives in between and any chunks, the reader yields exactly the decodable trimmed payloads and an empty buffer |
| `Sse.RoundTrip` | katapult/internal/http/sse_handler.go:105-132 | trimmed payloads come back unchanged and in order, with nothing left over |
| `Sse.RoundTripExactly` | web/src/api/sse.ts:33-53 | for every list of newline-free payloads and every chunking, everything comes back iff every payload is non-empty and trimmed |
| `Sse.WireFormat` | katapult/internal/http/sse_handler.go:115-132 | the text of a stream is, item by item, an event line, a data line and a blank line, or a keepalive comment and a blank line |
| `Text.TrimMeaning` | web/src/api/sse.ts:38-40 | trimming takes white space from both ends, all of it, and nothing else |
| `Sse.ScanKeepsLast` | web/src/api/sse.ts:33-42 | scanning the lines from the top leaves the trimmed remainder of the last event line and of the last data line, empty if there is none |
| `Sse.ReadFrame` | web/src/api/sse.ts:33-53 | an event is yielded iff the last event line says progress and the last data line is not empty and decodes, and it is that decoded data |
| `Sse.ParseSseFrames` | web/src/api/sse.ts:18-57 | the generator's loop equals the parser on values |
| `Sse.ReadConnection` | web/src/api/sse.ts:92-116 | the buffer loop of one connection equals feeding the chunks |
| `Sse.StreamProgress` | web/src/api/sse.ts:64-124 | the events of all connections in order, the wait after each that ended, and an error at the first attempt that is refused or unreadable |
| `Sse.BackoffClosedForm` | web/src/api/sse.ts:118-122 | the wait is min(1000 2^n, 30000) milliseconds, n counting the silent connections since the last that yielded something |
| `Streams.LingersExactly` | katapult/internal/http/sse_handler.go:31-71 | with lookup and subscription as two steps, in every fault-free run a client is subscribed to a transfer that is over iff it subscribed after the end and has not left since |
| `Streams.EntryExactly` | katapult/internal/observability/hub.go:45-112 | the hub keeps an entry for a transfer that is over iff such a client lingers on it |
| `Streams.NoStreamOutlivesItsTransfer` | katapult/internal/http/sse_handler.go:43-71 | in every fault-free run, at no time does a transfer that is over have a subscriber iff every subscription is made while its transfer is live, as when nothing comes between lookup and subscription |
| `Streams.EndingCloses` | katapult/internal/transfer/orchestrator.go:265-486 | an operation that ends a transfer closes its streams |
| `Streams.LookUpAdmits` | katapult/internal/http/sse_handler.go:31-61 | the lookup lets on exactly the clients that ask, with a hub, for a transfer that is there and neither completed, failed nor cancelled |
| `Streams.ReportReaches` | katapult/internal/transfer/orchestrator.go:325-372 | a stored report is put into the buffer of every subscriber of its transfer that has fewer than 16 pending, and of no other, whatever else fails and also if it ends the transfer |
| `Serving.WriteItem` | katapult/internal/http/sse_handler.go:126-132 | the response body is what the writer prints for the items so far |
| `Serving.ServeEvents` | katapult/internal/http/sse_handler.go:105-121 | the hub is where the wake-ups handled bring it, the response holds exactly what they make the handler write, and the loop stops at the first wake-up at which the client has left or its stream is closed and drained, and at no other |
| `Serving.HandleStreamProgress` | katapult/internal/http/sse_handler.go:19-124 | the status for every answer (malformed, failed lookup, missing, finished, no hub, no flusher); finished transfers get their stored state and no subscription, others the stored state and then what the event loop promises, between subscribing and unsubscribing |
| `Serving.SessionDelivers` | katapult/internal/http/sse_handler.go:70-121 | from any reachable hub, received and buffered together are what was published during the session less the events that found 16 pending, and nothing is buffered if the stream ended by closing |
| `Serving.KeepalivesCounted` | katapult/internal/http/sse_handler.go:115-117 | every tick of the keepalive timer is answered with one comment, and nothing else is |
| `Serving.TraceIsComplete` | katapult/internal/http/sse_handler.go:105-121 | apart from its own receives the loop does nothing to the hub |
| `Serving.ServeAndRead` | web/src/api/sse.ts:64-124 | end to end, whatever others do to the hub and however the body is cut into chunks: the client reads the stored state and then exactly the reports received, with nothing left over and the guarantee of `SessionDelivers` |
| `Registry.TransitionTo` | katapult/internal/domain/agent.go:61-98 | succeeds iff the table has the edge, and then healthy iff the target is the healthy state |
| `Registry.IdentityHolds` | katapult/internal/registry/service.go:29-145 | over every run: one agent per node; its identifier, first registration and non-empty namespace never change; healthy iff in the healthy state |
| `Registry.DisconnectedUntilRegistered` | katapult/internal/registry/service.go:114-138 | a disconnected agent stays disconnected until its node registers again, whatever heartbeats and evaluations come |
| `Registry.HealthHolds` | katapult/internal/registry/health.go:34-62 | with a clock that never goes back, no agent is ever unhealthy with heartbeat age <= U or disconnected with age <= D |
| `Registry.EvaluationClassifies` | katapult/internal/registry/health.go:34-62 | after an evaluation every agent that is not disconnected is healthy iff its age is at most U, and none that stays unhealthy is older than D |
| `Registry.ClassifiedAfterRun` | katapult/internal/registry/health.go:34-62 | that classification holds after every run from an empty store |
| `Registry.FirstCount` | katapult/internal/testutil/memrepo.go:82-95 | the first count is the number of agents the unhealthy pass changed |
| `Registry.SecondCount` | katapult/internal/testutil/memrepo.go:97-110 | the second count is the number of agents the disconnected pass changed |
| `Registry.EvaluationIdempotent` | katapult/internal/registry/health.go:34-62 | a second evaluation at the same instant changes nothing and counts nothing |
| `ServiceLaws.HeartbeatMeans` | katapult/internal/registry/service.go:114-145 | a heartbeat of a known agent that is not disconnected is acknowledged and stored, with the agent healthy; any other is rejected and changes nothing |
| `ServiceLaws.SqlHeartbeatMeans` | katapult/internal/store/postgres/agent.go:115-147 | over the tables the same, exactly if moreover the inventory names no claim twice |
| `ServiceLaws.Recovers` | katapult/internal/registry/service.go:127-138 | over either store an unhealthy agent is healthy after its heartbeat |
| `ServiceLaws.FirstRegistration` | katapult/internal/registry/service.go:29-89 | the first agent of a node is stored healthy under the new identifier with its tools and inventory iff its tools are good |
| `ServiceLaws.Reregistration` | katapult/internal/registry/service.go:29-89 | a node that has an agent keeps its identifier and first registration; a registration with good tools and the namespace it is bound to replaces the rest, any other changes nothing |
| `ServiceLaws.EvaluationMeans` | katapult/internal/registry/health.go:34-62 | what an evaluation makes of each agent, by its state and its age |
| `ServiceLaws.AgentEdges` | katapult/internal/domain/agent.go:63-82 | the transition table of agents, edge by edge |
| `Stores.InsertSucceeds` | katapult/internal/store/postgres/agent.go:64-72 | the row-by-row insertion succeeds iff no claim is named twice and none is there already |
| `Stores.ReplacedContents` | katapult/internal/store/postgres/agent.go:129-142 | deleting and inserting leaves exactly the new inventory for the agent and all others as they were |
| `Stores.TableNamesDistinct` | katapult/internal/store/postgres/migrations/002_create_agent_pvcs.up.sql:1-10 | no inventory that names a claim twice can equal what the table holds |
| `Agreement.UpsertAgrees` | katapult/internal/store/postgres/agent.go:26-76 | on what the service stores, the SQL upsert succeeds iff the inventory names no claim twice, and then agrees with the in-memory one although it never writes registered_at |
| `Agreement.HeartbeatAgrees` | katapult/internal/store/postgres/agent.go:115-147 | the same for heartbeats |
| `Agreement.DisconnectedSame` | katapult/internal/store/postgres/agent.go:157-163 | the statement that leaves `healthy` alone agrees with the loop that clears it |
| `Agreement.CountsAgree` | katapult/internal/store/postgres/agent.go:149-163 | rows affected equal the loop's count |
| `Agreement.AgreementExactly` | katapult/internal/store/postgres/agent.go:26-163 | one operation keeps the stores in agreement iff the service refuses it or its inventory names no claim twice |
| `Agreement.StoresAgree` | katapult/internal/store/postgres/agent.go:26-163 | over every sequence of registrations, heartbeats and evaluations in which no accepted inventory names a claim twice, both stores describe the same agents (inventories as multisets) and give the same answers |
| `Agreement.StoresAgreeExactly` | katapult/internal/store/postgres/agent.go:26-163 | the stores agree after every operation of a run iff it is such a sequence |
| `AgentService.MemRepo.UpsertAgent` | katapult/internal/testutil/memrepo.go:24-39 | the loop removes exactly the other agents of the node and stores the new one |
| `AgentService.MemRepo.GetAgentByClusterAndNode` | katapult/internal/testutil/memrepo.go:53-64 | finds an agent of the node iff there is one |
| `AgentService.MemRepo.Age` | katapult/internal/testutil/memrepo.go:82-110 | the loop of both ageing passes marks exactly the stale agents and counts them |
| `AgentService.AgentRepository.UpsertAgent` | katapult/internal/store/postgres/agent.go:26-76 | the transaction ends in the specified tables or, on any failure, in the tables it started from |
| `AgentService.AgentRepository.UpdateHeartbeat` | katapult/internal/store/postgres/agent.go:115-147 | the same for heartbeats, including the foreign-key failure |
| `AgentService.UniqueIdsKept` | katapult/internal/store/postgres/migrations/001_create_agents.up.sql:1-11 | agent identifiers stay unique across the table under every operation |
| `AgentService.Service.RegisterAgent` | katapult/internal/registry/service.go:29-89 | over either store, the new contents and the answer are those of the registration step; over the in-memory store it is accepted iff the tools are good and no agent of the node is bound to another namespace |
| `AgentService.Service.Heartbeat` | katapult/internal/registry/service.go:114-145 | over either store, the new contents and the answer are those of the heartbeat step; it is acknowledged iff the agent is known and not disconnected and, over the tables, the inventory names no claim twice |
| `AgentService.Service.Evaluate` | katapult/internal/registry/health.go:34-62 | the same for an evaluation, with both counts |
| `Reconciler.ConditionSet` | katapult/internal/controller/volumetransfer_controller.go:194-216 | there is then exactly one condition of the kind, with the given status, reason, message and generation and a transition time that moves only with the status; all others are as before |
| `Reconciler.SetConditionIn` | katapult/internal/controller/volumetransfer_controller.go:194-216 | the loop that edits the slice in place, or appends, equals the specification; the transition time moves only with the status |
| `Reconciler.ReconcilerHolds` | katapult/internal/controller/volumetransfer_controller.go:44-185 | over every run with any failures: a recorded TransferID never changes, transfers started = status writes lost after a start + the one recorded, at most one Ready condition, terminal phases match the stored transfer for good |
| `Reconciler.WhatTheResourceSays` | katapult/internal/controller/volumetransfer_controller.go:143-170 | from a fresh resource: at most one start more than lost writes, and Ready=True means phase completed and a completed transfer in the store |
| `Reconciler.StartNeedsFinalizer` | katapult/internal/controller/volumetransfer_controller.go:73-101 | a transfer is created only while the finalizer is stored and the resource is not being deleted |
| `Reconciler.CancelExactly` | katapult/internal/transfer/orchestrator.go:251-288 | a cancellation leaves the transfer terminal iff it was, or its state could be read and written |
| `Reconciler.ReleasedIsTerminal` | katapult/internal/controller/volumetransfer_controller.go:54-71 | over every run in which cancellations can read and write the state, the recorded transfer is terminal once the finalizer is released |
| `Passes.StartedAsSpecified` | katapult/internal/controller/volumetransfer_controller.go:82-101 | a pass that starts a transfer stores the ends, overwrite flag, retry limit and owner that the resource names, with the strategy it names if any, and commands its source and then its destination; it starts one exactly if the resource can be started and the calls go through |
| `Passes.StartedSays` | katapult/internal/controller/volumetransfer_controller.go:103-123 | what such a pass leaves in the resource: identifier, phase and Ready condition, or the failure; nothing if the status write is lost |
| `Passes.PolledSays` | katapult/internal/controller/volumetransfer_controller.go:126-184 | with a transfer recorded a pass changes nothing but the status, which then tells its state, progress and reason |
| `Passes.ReleasedAsTold` | katapult/internal/controller/volumetransfer_controller.go:54-71 | on deletion the recorded transfer is cancelled, then the finalizer goes exactly if the update goes through |
| `Controller.VolumeTransferReconciler.Reconcile` | katapult/internal/controller/volumetransfer_controller.go:44-185 | the stored resource and the one transfer it concerns become what the reconciliation function says; a transfer it starts is the one the resource specifies; no other transfer changes |
| `ManagedBlock.InjectedText` | cypilot/.core/skills/cypilot/scripts/cypilot/commands/init.py:246-286 | the new text is the old text outside the block with the new block in place, also with crossed markers |
| `ManagedBlock.PutGet` | cypilot/.core/skills/cypilot/scripts/cypilot/commands/init.py:263-286 | after injecting, the block is found as written and the outside text is as before |
| `ManagedBlock.NewBlockPlaced` | cypilot/.core/skills/cypilot/scripts/cypilot/commands/init.py:250-282 | a missing file becomes the block and a newline; a text without both markers is kept after the block and a blank line |
| `ManagedBlock.LineEnds` | cypilot/.core/skills/cypilot/scripts/cypilot/commands/init.py:260-262 | reading turns every kind of line end into one newline and keeps every other character |
| `ManagedBlock.PutPutExactly` | cypilot/.core/skills/cypilot/scripts/cypilot/commands/init.py:263-286 | a second injection gives what it alone would have given iff the markers were in order or incomplete and the first body has no end marker |
| `ManagedBlock.CrossedStaysCrossed` | cypilot/.core/skills/cypilot/scripts/cypilot/commands/init.py:263-272 | with the end marker first, every injection grows the file and leaves the markers crossed |
| `ManagedBlock.IdempotentExactly` | cypilot/.core/skills/cypilot/scripts/cypilot/commands/init.py:246-286 | a second injection is "unchanged" iff the markers were in order or incomplete and the body has no end marker |
| `ManagedBlock.FileIdempotentExactly` | cypilot/.core/skills/cypilot/scripts/cypilot/commands/init.py:260-286 | on disk, where reading turns every line end into a newline, the second injection is "unchanged" iff moreover the body has no carriage return |
| `ManagedBlock.AgentsIdempotent` | cypilot/.core/skills/cypilot/scripts/cypilot/commands/init.py:222-290 | a second run on AGENTS.md is "unchanged" iff the markers were in order or incomplete and the install directory has neither the end marker nor a carriage return |
| `ManagedBlock.AgentsWritten` | cypilot/.core/skills/cypilot/scripts/cypilot/commands/init.py:246-286 | AGENTS.md is left alone or becomes the text outside the block, as read, around the new block |
| `ManagedBlock.AgentsOutside` | cypilot/.core/skills/cypilot/scripts/cypilot/commands/init.py:246-286 | for every install directory without the end marker, the text outside the block, as read, is the same before and after |
| `ManagedBlock.AgentsPutPut` | cypilot/.core/skills/cypilot/scripts/cypilot/commands/init.py:246-286 | for all install directories, a run with another one leaves what that run alone would have left iff the markers were in order or incomplete and the first directory has no end marker |
| `ManagedBlock.ClaudeLaws` | cypilot/.core/skills/cypilot/scripts/cypilot/commands/init.py:293-324 | the same for the block of CLAUDE.md: "unchanged" the second time iff the markers were in order or incomplete, and the outside text is kept |
| `ManagedBlock.InjectManagedBlock` | cypilot/.core/skills/cypilot/scripts/cypilot/commands/init.py:246-286 | reads the file with its line ends translated and rewrites it as the injection says; a dry run and an unchanged block leave it alone |
| `ManagedBlock.InjectRootClaude` | cypilot/.core/skills/cypilot/scripts/cypilot/commands/init.py:300-324 | the same for CLAUDE.md |
| `Backup.AllBackedUp` | cypilot/.core/skills/cypilot/scripts/cypilot/commands/migrate.py:308-351 | copies that succeed are of pairwise disjoint paths, since an overlapping copy is refused, and all but those that clash are exact |
| `Backup.BackUpLists` | cypilot/.core/skills/cypilot/scripts/cypilot/commands/migrate.py:290-370 | a backup that succeeds lists exactly what exists of its plan and changes nothing outside its directory, also if that directory was there before |
| `Backup.BackUpExactly` | cypilot/.core/skills/cypilot/scripts/cypilot/commands/migrate.py:290-370 | it holds an item exactly iff the item does not clash: is not a file for whose name the backup directory had a directory before |
| `Backup.PlanIsGood` | cypilot/.core/skills/cypilot/scripts/cypilot/commands/migrate.py:300-351 | the program's own list of paths and its directory name are what the backup needs iff neither configured path lies in the backup directory |
| `Backup.PlanLooksFor` | cypilot/.core/skills/cypilot/scripts/cypilot/commands/migrate.py:308-351 | exactly these are backed up if they exist: the two configured directories, the two files of the old layout, AGENTS.md, the four agent directories and, for a submodule, .gitmodules |
| `BackupSuccess.BackUpSucceedsExactly` | cypilot/.core/skills/cypilot/scripts/cypilot/commands/migrate.py:290-370 | a backup goes through iff no file is in the place of its directory, the paths to copy do not overlap, nothing from an older backup is in the way of any of them, and the name of the manifest is free |
| `BackupSuccess.FreshBackUpExactly` | cypilot/.core/skills/cypilot/scripts/cypilot/commands/migrate.py:290-370 | into a new directory: iff the paths do not overlap and none is the project itself or lies under the manifest's name |
| `Rollback.OneRestored` | cypilot/.core/skills/cypilot/scripts/cypilot/commands/migrate.py:386-402 | an item reported as restored is exactly as at backup time |
| `Rollback.RestoreLeaves` | cypilot/.core/skills/cypilot/scripts/cypilot/commands/migrate.py:386-402 | restoring an item, also when it fails half-way, leaves every path apart from it alone |
| `Rollback.RollbackExactly` | cypilot/.core/skills/cypilot/scripts/cypilot/commands/migrate.py:372-407 | after any backup that succeeded and any changes outside its directory, every path listed as restored is exactly as at backup time iff it did not clash, whatever errors struck elsewhere; restored and failed together are all that was backed up |
| `Rollback.RollbackRestoresAllExactly` | cypilot/.core/skills/cypilot/scripts/cypilot/commands/migrate.py:372-407 | a rollback without errors brings everything back exactly iff no file of the plan clashes |
| `Rollback.RestoredExactly` | cypilot/.core/skills/cypilot/scripts/cypilot/commands/migrate.py:372-407 | an item is listed as restored iff no error strikes it and no file is in the way of it; the others are listed as failed |
| `Rollback.ProgramClash` | cypilot/.core/skills/cypilot/scripts/cypilot/commands/migrate.py:300-351 | a clash can happen: a project with an AGENTS.md and a backup directory holding a directory of that name is backed up successfully by the program's own plan |
| `Rollback.OwnDirectoryLosesAll` | cypilot/.core/skills/cypilot/scripts/cypilot/commands/migrate.py:386-402 | with the backup directory itself as first item, a rollback without errors deletes the backup and every other item and reports all as restored |
| `Rollback.FileSystem.BackupV2State` | cypilot/.core/skills/cypilot/scripts/cypilot/commands/migrate.py:290-370 | the copying loop equals the backup on values, in a directory named .cypilot-v2-backup- and the timestamp; a file in the place of that directory ends it |
| `Rollback.FileSystem.Rollback` | cypilot/.core/skills/cypilot/scripts/cypilot/commands/migrate.py:372-407 | the restoring loop equals the rollback on values |
| `Rollback.MigrateAndRollBack` | cypilot/.core/skills/cypilot/scripts/cypilot/commands/migrate.py:290-407 | backup, any change of the rest of the tree, rollback: a manifest is found iff the backup succeeded, and then the promises of `RollbackExactly` and `RestoredExactly` hold on the file system itself |

## Left out

- Transport, authentication, TLS, generated code, the CLI and the main packages: plumbing over libraries that are not part of this model.
- React pages, components and hooks: user interface.
- Prometheus metrics: external counters. The active gauge is not incremented on create, so it conserves nothing.
- Progress enrichment, error classification and message formatting: results are opaque values here.
- JSON and UTF-8: payloads are opaque newline-free strings, chunks are character sequences, and the manifest's text stands for the list it records.
- Tool version validation, volume discovery: their verdicts are parameters.
- Listing and pagination of agents and transfers: the two stores differ past the last page and in the order of equal timestamps.
- SQL store of transfers: rows and logs follow the in-memory transfer store; only the atomic counter increment matters for interleavings, and both have it.
- Failures of the agent store other than constraint violations: a failed query or pass leaves the tables as they were and ends the call.
- Time: each operation reads the clock once, the control plane and the database share one clock, and delays are not truncated to whole nanoseconds.
- Identifier collisions: new identifiers are assumed unused, as random UUIDs are.
- Agents as pointers: the in-memory agent store hands out copies, so agents are values and aliasing is not modelled.
- Serving.ServeEvents: takes the hub by value instead of the heap object, and what others do to it between two wake-ups as a list.
- Reconciler: only the controller writes the resource's status and its finalizer, so a recorded TransferID always parses; requeue delays and log lines are not modelled.
- Writing files: no newline is translated, as on POSIX systems.
- Symbolic links, file times and paths with `..` in backup and rollback; an I/O error during a backup ends it without a result.
- Rollback.RollbackExactly: is stated for configured paths outside the backup directory; `OwnDirectoryLosesAll` shows what happens when that directory is itself configured.
- The rest of the migration and the other cypilot commands: the migration is any change outside the backup directory.
