# Verification of the AFSIM to ns-3 state bridge

The bridge keeps a service (Python, `src/afsim_ns3_bridge`) in step with a
simulation (C++ client, `src/windows_adapter`): the client submits snapshots of
entities and flows, sends changes over a TCP connection that may break at any
time, and gets back link quality and effect decisions that the service computes
with a persistent ns-3 process (`src/ns3_runner`). This project models that loop
in Dafny and proves what it is for: the service ends up with the client's latest
state, results come back as they were written, and nothing old ever overrides
something newer.

`dafny verify dfyconfig.toml` checks everything.

## How it is laid out

* The service's state: `Models` (validation), `StateStore` (the store, as a class
  proved against functions), `StoreIntegrity` (what any sequence of messages keeps),
  `DeltaMeaning` (when a message is accepted, and what is then stored under each id),
  `PartialUpdates` (what an update makes of a record, member by member).
* The client's state: `Protocol` (records and the objects they are written as),
  `StateDeltaTracker`, `DiffPatch` (difference and patch are inverse),
  `SnapshotMeaning` (the service's snapshot is the client's state, field by field),
  `UntrimmedIds` (what happens to ids with spaces around them),
  `TcpJsonlClient` (queue and framing), `AfsimBridgeController`.
* The service's acceptance and worker: `BridgeService` (class and functions),
  `Idempotency` (the bounded cache refines an unbounded one), `ComputeWorker`
  (the coalescing worker as a state machine whose steps are the code between
  two `await`s).
* Replication: `Replication` composes tracker, queue, bytes in transit and
  acceptance into one system of atomic steps with an invariant;
  `ReplicationResults` draws the consequences; `ClientRefinement` shows that the
  system's client steps are those of the objects, over the lines they write.
* The text on the wire: `JsonText` (what both sides write), `JsonReader` (a
  reference reader), `MessageText` (client messages, lines), `ClientText` (client
  messages written out), `MessageMeaning` (the object that a client message
  denotes), `JsonScanner` (the client's hand-written scanners), `ContainerEnds`, `KeySearch`, `FieldReading`,
  `FieldNames`, `MetricsMessage`, `OrdinaryMessages` (when and how a message is
  read back), `ScannerMeaning` (the scanners on JSON in general), `ResponseText`
  (the response written out).
* The result path: `Effects`, `Responses` (the response built from a snapshot,
  and what arrives of it), `LossDraw`, `MessageTransportGate`,
  `NetworkEffectGate`, `EffectDelivery` (runs of received lines and drains),
  `EndToEnd` (what the gates answer after a response, in terms of its snapshot).
* The runner: `Ns3Runner` (validation and path search), `ScenarioText`,
  `ScenarioHandOff`, `ScenarioMeaning` (the scenario of a snapshot),
  `ComputationRuns` (what arrives, and which computations of a whole run succeed).
* `Wrappers`, `Text`, `Indexing` and `Json` hold what the others share.

Objects whose methods change fields are classes; each method is proved against a
function of the old state, and the lemmas are about those functions.

## What the main results say

* Over every run of submissions, connections, sends (complete, failed, failed
  with the line nevertheless delivered), disconnections and deliveries, while a
  connection is open, delivering what is outstanding makes the service hold the
  latest submitted state: the snapshot it computes on has the submitted records,
  field by field. After a reconnection at most two steps are needed.
* A change is accepted if and only if a full message came before, its time is not
  before the stored one, all its parts are fit and the references of the result
  resolve; what is then under an id are the updates to that id merged in order.
* If the service answers a resent snapshot as a duplicate, it already holds that
  snapshot. No change is ever sent twice.
* The bounded request cache behaves like an unbounded one exactly as long as no
  forgotten id is reused.
* The newest accepted state is never lost by coalescing; published revisions
  increase strictly; without new messages the worker rests after at most nine steps.
* A lookup by the client's substring search finds the right member exactly when
  no earlier string looks like the name. From the response to a snapshot of
  ordinary strings the client reads exactly the snapshot's links, measurements
  and effects.
* The lines that the client writes denote exactly the objects with which
  convergence is proved.
* A message is delivered exactly when the result holds a link of that very
  direction with enough quality; the hash is a permutation at every byte.
* Each accepted effect decision is attempted, pending or replaced by a later one
  with the same four ids, and among attempts with the same four ids revisions increase.
* After a response newer than all before, the subsystem of every policy is answered
  with what the last flow of its direction was measured to be, its decision is
  pending for the sink, and messages are delivered exactly over the snapshot's
  devices whose links carry them.
* The path search answers true exactly when a chain of up links joins two
  nodes that are alive.
* A computation succeeds exactly when its snapshot and all snapshots before it
  fit the runner's number types, and then the runner has run exactly the scenario
  that the snapshot's entities, devices and flows make up.

## Where the code does less than one would expect

Each point is a lemma below.

* `initialize` files entities and flows under stripped ids, `apply_delta` under the
  ids as they stand. After an accepted full message the service holds the client's
  state if and only if no entity id and no flow id has spaces around it
  (`UntrimmedIds.IdsKeptIffTrimmed`). Otherwise the next change of such an entity
  or flow is accepted and filed as a second one, the outdated one staying
  (`UntrimmedIds.UntrimmedEntityIsFiledTwice`, `UntrimmedIds.UntrimmedFlowIsFiledTwice`),
  and its removal is accepted and removes nothing
  (`UntrimmedIds.UntrimmedRemovalRemovesNothing`). Replication is therefore proved
  for trimmed ids; `StoreIntegrity` and the hand-off need no such assumption.
* `StateDeltaTracker::Reset` replaces the entities before it looks at the flows. A
  `SubmitInitial` that throws therefore leaves the tracker at the state queued last
  if and only if the entities are unfit themselves or the same as before
  (`AfsimBridgeController.FailedInitialKeepsBaselineIff`). Otherwise they are lost:
  submitted again with the old flows they count as no change
  (`AfsimBridgeController.FailedInitialLosesUpdate`), and in no reachable state does
  a reconnection bring them to the service
  (`ClientRefinement.ThrownEntitiesNeverArrive`).
* A string value that equals a looked-up name misleads the client's scanner to the
  value of the next member (`FieldReading.ImitatedKeyMisleads`); a request id
  `links` makes it drop the whole message (`OrdinaryMessages.RequestNamedLinksThrows`).
* The client's string reader throws on control characters other than the five
  with short escapes, which both writers emit as `\u00XX`
  (`FieldReading.QuotedReadsBack`).
* After an `ERROR` line the engine stops reading but the runner goes on with the
  rest of the batch, whose output stays in the pipe. From then on no computation
  on that process succeeds (`ComputationRuns.ComputationSucceedsIff`).

## Assumptions

* In the replication system submitted ids are not empty, unique and trimmed, client
  snapshots mention only their own entities, client time does not go backwards,
  request ids (with and without the suffix `-resync`) are fresh: the conditions
  `Replication.Submittable`.
* In `EndToEnd` the snapshot's strings are ordinary and readable for the client's
  scanner and its numbers are read back exactly (`EndToEnd.Clear`); for subsystems,
  no two policies are for the same subsystem of the same entity.
* One lifetime of the service, one client. What was handed to a connection
  arrives in order up to some point; the rest is lost before the next connection
  is served. A snapshot that arrived later than that would replace a newer state,
  because `initialize` has no time check.

## Model

| member | source | states |
|---|---|---|
| StateStore.MergeEntityInto | src/afsim_ns3_bridge/state.py:18-32 | the merging loop computes the member-wise merge: position and velocity objects are united, any other member is replaced |
| StateStore.StateStore.InitializeFrom | src/afsim_ns3_bridge/state.py:53-81 | a full message either replaces the whole state and raises the revision by one, or changes nothing |
| StateStore.StateStore.ApplyDeltaFrom | src/afsim_ns3_bridge/state.py:83-148 | a delta is all-or-nothing: the method refuses exactly what `DeltaMeaning.DeltaAcceptedIff` says and otherwise leaves the store described there |
| StateStore.ValidateReferences | src/afsim_ns3_bridge/state.py:168-210 | true exactly when every parent, device peer, policy peer and flow end is a key of the entities |
| DeltaMeaning.PatchMeans | src/afsim_ns3_bridge/state.py:110-142 | one table: all removals and upserts are fit exactly when the change is accepted, and then every id has what its removal and the upserts that name it leave, merged in order |
| DeltaMeaning.DeltaAcceptedIff | src/afsim_ns3_bridge/state.py:83-148 | a delta is accepted if and only if the store is initialized, the time is not below the stored one, its members are lists, every removal and upsert is fit, and the references of the result resolve; the store then holds that result, the time and the next revision |
| DeltaMeaning.ChangesKeepTime | src/afsim_ns3_bridge/state.py:83-90 | over any run of deltas the stored time never goes back, and before a full message every delta is refused |
| DeltaMeaning.FullAcceptedIff | src/afsim_ns3_bridge/state.py:53-81 | a full message is accepted if and only if both members are lists of valid objects, no two with one id, and the references resolve, whatever the store held; it then holds exactly those |
| PartialUpdates.EntityIsUpdated | src/afsim_ns3_bridge/state.py:18-32 | an accepted partial update changes exactly the members it has in the validated entity, and of position and velocity exactly the axes it has |
| PartialUpdates.FlowIsUpdated | src/afsim_ns3_bridge/state.py:140 | the same for a flow |
| PartialUpdates.Defaults | src/afsim_ns3_bridge/models.py:191-252 | missing devices and policies are none, a missing parent id is no parent, and a flow that does not say so is active |
| PartialUpdates.HeadingAccepted | src/afsim_ns3_bridge/models.py:36-53 | a heading is accepted exactly when it is a number, whole or not, from 0 to 360 |
| PartialUpdates.CoordinateAccepted | src/afsim_ns3_bridge/models.py:77-85 | a coordinate is accepted exactly when it is a number |
| Models.EnvelopeMeans | src/afsim_ns3_bridge/models.py:256-270 | an envelope is accepted exactly with this version, a known type, an id that is not blank and a time that is not negative; otherwise the code tells what is wrong |
| StoreIntegrity.StoreStaysConsistent | src/afsim_ns3_bridge/state.py:53-166 | over any sequence of messages the store stays consistent, the revision counts the accepted ones, and a snapshot succeeds exactly once initialized |
| StoreIntegrity.SnapshotIsClosed | src/afsim_ns3_bridge/state.py:150-210 | every reference in every snapshot names an entity of that snapshot, also when table keys carry spaces |
| StoreIntegrity.SnapshotAscends | src/afsim_ns3_bridge/state.py:150-166 | a snapshot has one record for each key, in ascending order of the keys; ids that are keys ascend strictly |
| Text.StripIsMiddle | src/afsim_ns3_bridge/models.py:20-33 | stripping takes away the spaces at both ends and nothing else |
| Text.FoldingMeans | src/afsim_ns3_bridge/models.py:118-154 | folding a word changes the case of ASCII letters and nothing else, so it loses only case |
| Text.AtMostMeans | src/afsim_ns3_bridge/state.py:153-159 | the order of keys is that of the first differing character, a beginning coming first |
| StoreIntegrity.MergeEntityAssociative | src/afsim_ns3_bridge/state.py:18-32 | merging is associative on updates whose position and velocity are objects |
| StoreIntegrity.UpsertsMerge | src/afsim_ns3_bridge/state.py:115-142 | two partial upserts of an entity or flow, the first accepted, equal the one merged upsert, and one is refused exactly when the other is |
| WireFormat.EntityAccepted | src/afsim_ns3_bridge/models.py:190-222 | the service accepts a written entity if and only if the client record is well formed |
| SnapshotMeaning.EntityParsed | src/afsim_ns3_bridge/models.py:190-222 | what the client writes of an entity is read as that entity: every field of it, its devices and its policies |
| SnapshotMeaning.FlowParsed | src/afsim_ns3_bridge/models.py:234-253 | what the client writes of a flow is read as that flow, source as source and target as target |
| SnapshotMeaning.SnapshotIsState | src/afsim_ns3_bridge/state.py:150-166 | the snapshot of a store that holds a client state is that state field by field, each record once, by ascending id, with the store's time and revision |
| WireFormat.EntityUpdateReplaces | src/windows_adapter/AfsimNs3Protocol.cpp:109-136 | entities are written whole, so merging one into what an earlier message left gives exactly the new one |
| StateDeltaTracker.SameVector | src/windows_adapter/StateDeltaTracker.cpp:48-64 | true exactly for lists of equal length that agree at every position |
| StateDeltaTracker.SameEntity | src/windows_adapter/StateDeltaTracker.cpp:66-79 | the comparison field by field is equality of records, so no difference is overlooked |
| StateDeltaTracker.StateDeltaTracker.Reset | src/windows_adapter/StateDeltaTracker.cpp:117-131 | both lists become the baseline; on a bad flow list only the entities are replaced |
| StateDeltaTracker.StateDeltaTracker.Update | src/windows_adapter/StateDeltaTracker.cpp:133-183 | returns the difference between old and new baseline and stores the new one; on a bad list nothing changes |
| StateDeltaTracker.DiffMembers | src/windows_adapter/StateDeltaTracker.cpp:147-177 | upserts are exactly the new and changed ids, removals exactly the missing ones, and no id is both |
| StateDeltaTracker.DiffIsEmpty | src/windows_adapter/StateDeltaTracker.cpp:185-190 | the difference is empty exactly when old and new state are the same |
| StateDeltaTracker.DiffAscends | src/windows_adapter/StateDeltaTracker.cpp:147-177 | upserts and removals come in ascending order without an id twice |
| StateDeltaTracker.IndexEntitiesMeans | src/windows_adapter/StateDeltaTracker.cpp:96-113 | a list is fit exactly when its ids are not empty and differ, and then each record is found under its id and nothing else is |
| DiffPatch.PatchReaches | src/afsim_ns3_bridge/state.py:110-142 | removals and whole upserts take a table to the target table when all other ids already have their target value |
| DiffPatch.DeltaApplies | src/afsim_ns3_bridge/state.py:83-148 | the message with the difference is accepted and leaves exactly the new state, from the old state or any state that agrees on unchanged ids |
| DiffPatch.DeltaAppliesTwice | src/windows_adapter/StateDeltaTracker.cpp:133-183 | difference and patch are inverse, and applying the difference again changes no more than time and revision |
| DiffPatch.InitApplies | src/afsim_ns3_bridge/state.py:53-81 | a full message makes any store, whatever its time, hold exactly the submitted state |
| UntrimmedIds.IdsKeptIffTrimmed | src/afsim_ns3_bridge/state.py:53-81 | an accepted full message makes the store hold the submitted state if and only if no entity id and no flow id has spaces around it |
| UntrimmedIds.DeltaAfterFiled | src/afsim_ns3_bridge/state.py:83-148 | after any accepted full message, trimmed or not, the next change message is accepted exactly when the references still resolve, and the resulting tables are given |
| UntrimmedIds.UntrimmedEntityIsFiledTwice | src/afsim_ns3_bridge/state.py:115-127 | a full message with an untrimmed entity id, then a change of that entity: the change is accepted, the new record is filed under the raw id and the outdated one stays under the stripped id |
| UntrimmedIds.UntrimmedFlowIsFiledTwice | src/afsim_ns3_bridge/state.py:134-142 | the same for a flow |
| UntrimmedIds.UntrimmedRemovalRemovesNothing | src/afsim_ns3_bridge/state.py:110-132 | a full message, then the removal of any entities and flows with untrimmed ids: accepted, and only time and revision change |
| TcpJsonlClient.Impl.Normalize | src/windows_adapter/TcpJsonlClient.cpp:422-431 | trailing CR and LF are replaced by one LF, and the result is never empty |
| TcpJsonlClient.Impl.QueueInitial | src/windows_adapter/TcpJsonlClient.cpp:257-264 | queue and resync line become the snapshot alone |
| TcpJsonlClient.Impl.QueueDelta | src/windows_adapter/TcpJsonlClient.cpp:266-280 | appends the change, or replaces a full queue by the snapshot and answers false; the resync line is always the newest snapshot |
| TcpJsonlClient.Impl.BeginConnection | src/windows_adapter/TcpJsonlClient.cpp:325-334 | a connection starts with the resync line and an empty queue |
| TcpJsonlClient.Impl.TakeNext | src/windows_adapter/TcpJsonlClient.cpp:337-345 | the oldest queued line becomes current when nothing is |
| TcpJsonlClient.Impl.FinishSend | src/windows_adapter/TcpJsonlClient.cpp:346-355 | a sent line is dropped; an unsent one goes back to the front and the connection ends |
| TcpJsonlClient.Impl.Receive | src/windows_adapter/TcpJsonlClient.cpp:373-411 | the handler gets the complete lines, one trailing CR removed and empty ones skipped; the unfinished line stays |
| TcpJsonlClient.ChunksDoNotMatter | src/windows_adapter/TcpJsonlClient.cpp:373-411 | every way of cutting a stream into chunks gives the handler the same lines and leaves the same rest |
| TcpJsonlClient.FramesRoundTrip | src/windows_adapter/TcpJsonlClient.cpp:383-431 | messages without CR and LF, normalized and concatenated, come back one by one |
| TcpJsonlClient.LineEndsDoNotMatter | src/windows_adapter/TcpJsonlClient.cpp:383-411 | messages come back one by one whether their lines end in LF or in CR and LF |
| TcpJsonlClient.EmptyLinesAreSkipped | src/windows_adapter/TcpJsonlClient.cpp:398-405 | empty lines, with or without a CR, never reach the handler |
| TcpJsonlClient.NormalizedMeans | src/windows_adapter/TcpJsonlClient.cpp:422-431 | normalizing takes away all CRs and LFs at the end and nothing else, and adds one LF |
| BridgeService.BridgeService.Process | src/afsim_ns3_bridge/server.py:72-125 | one message: duplicate answer, refusal, or state change with queued job, acknowledgement and remembered request; nothing else changes |
| BridgeService.BridgeService.Queue | src/afsim_ns3_bridge/server.py:158-167 | the mailbox holds the new job only, and the replaced revision is reported |
| BridgeService.BridgeService.TakeJob | src/afsim_ns3_bridge/server.py:170-175 | the mailbox is emptied together with its event |
| BridgeService.BridgeService.FinishJob | src/afsim_ns3_bridge/server.py:179-201 | the last error is set or cleared, and only a current result without error is published |
| BridgeService.BridgeService.RememberRequest | src/afsim_ns3_bridge/server.py:244-253 | the request becomes the newest cache entry and the oldest beyond the limit are dropped |
| Idempotency.ReplyMeans | src/afsim_ns3_bridge/server.py:72-125 | every answer of the service: refusals, queries and repeats change nothing, and a new request is acknowledged exactly when the store accepts it, with its own id and time and the new revision |
| Idempotency.CacheIsNewestAccepted | src/afsim_ns3_bridge/server.py:91-125 | the cache is always the last accepted requests in order with distinct ids, 1000 of them once there are as many, and the revision counts acceptances |
| Idempotency.RepeatAnswered | src/afsim_ns3_bridge/server.py:92-102 | while fewer than 1000 revisions have passed, a repeat gets the original response marked duplicate, other content is refused with 1004, and nothing changes |
| Idempotency.AcceptRefines | src/afsim_ns3_bridge/server.py:72-125 | the answer equals that of a service that forgets nothing if and only if the message reuses no forgotten id |
| Idempotency.RunRefines | src/afsim_ns3_bridge/server.py:72-125 | over whole runs within the window the bounded cache gives the replies and the state of the unbounded one |
| Idempotency.ExactlyOnce | src/afsim_ns3_bridge/server.py:72-125 | a run leaves the store that the run with its repeats removed leaves |
| ComputeWorker.RunKeepsInv | src/afsim_ns3_bridge/server.py:158-224 | every run of accepting, queueing, waking, finishing and publishing keeps the worker's invariant |
| ComputeWorker.NewestNeverLost | src/afsim_ns3_bridge/server.py:158-201 | outside `process` the newest revision is waiting, or nothing waits and it is at work or was the last one finished |
| ComputeWorker.QuiescentIsCurrent | src/afsim_ns3_bridge/server.py:169-224 | a worker with nothing to do and no error has computed the state's revision |
| ComputeWorker.PublicationsIncrease | src/afsim_ns3_bridge/server.py:199-224 | every publication has the state's revision at its check, and of any two publications the later has the greater revision |
| ComputeWorker.JobsConserved | src/afsim_ns3_bridge/server.py:104-125 | accepted jobs are replaced, taken or waiting, and a coalesced revision is the one just before its acknowledgement's |
| ComputeWorker.FewComputationsLeft | src/afsim_ns3_bridge/server.py:169-201 | without new messages at most two more computations end |
| ComputeWorker.WorkerStops | src/afsim_ns3_bridge/server.py:158-224 | from every reachable state, without new messages the worker rests after at most nine steps, and at rest without an error it has computed the state's revision |
| ComputeWorker.ProcessIsTwoSteps | src/afsim_ns3_bridge/server.py:104-125 | an accepted `process` is two steps of the worker's system, whatever other steps come between them, with the acknowledgement that `process` returns |
| Replication.RunKeepsInv | src/windows_adapter/AfsimBridgeController.cpp:65-109 | every run of the whole system keeps the replication invariant, never forgets a used request id and never moves its time back |
| ReplicationResults.ServiceConverges | src/windows_adapter/TcpJsonlClient.cpp:325-355 | in every reachable connected state, delivering transit, current line and queue in order leaves the latest submitted state; with nothing outstanding the service holds it |
| ReplicationResults.LatestSubmissionArrives | src/windows_adapter/AfsimBridgeController.cpp:53-109 | after the latest submission of any run, on an open connection with nothing outstanding, the service's snapshot has exactly the submitted entities and flows, field by field and by ascending id |
| ReplicationResults.ResyncDuplicateIsSound | src/afsim_ns3_bridge/server.py:91-102 | if the resent snapshot's id is still remembered, the store already equals that snapshot and the duplicate answer changes nothing |
| ReplicationResults.ChangesSentOnce | src/windows_adapter/TcpJsonlClient.cpp:327-352 | no change is handed to a socket twice, on one connection or on two |
| ReplicationResults.LinesStayInOrder | src/windows_adapter/TcpJsonlClient.cpp:325-355 | between connections no step reorders or loses waiting lines: a sent line is the first, a failed one stays in front, and a broken connection costs at most the line being sent |
| ReplicationResults.QueueBounded | src/windows_adapter/TcpJsonlClient.cpp:266-280 | the queue never exceeds its limit by more than one, and not at all after a submission that queues |
| ReplicationResults.ProgressEndsConverged | src/windows_adapter/TcpJsonlClient.cpp:335-356 | on a connection that stays up, sending and delivering ends after a bounded number of steps in the latest state |
| ReplicationResults.ReconnectRecovers | src/windows_adapter/TcpJsonlClient.cpp:293-334 | from any reachable disconnected state a reconnection needs at most two steps to bring the service to the latest state |
| ClientRefinement.SubmitIsWritten | src/windows_adapter/AfsimBridgeController.cpp:65-109 | a submission in the system is the controller's `SubmitCurrentState`, over the lines that are written, and its answer tells exactly what has become of the queue |
| ClientRefinement.InitialIsWritten | src/windows_adapter/AfsimBridgeController.cpp:53-63 | an explicit initial submission in the system is the controller's `SubmitInitial` |
| ClientRefinement.ConnectionIsWritten | src/windows_adapter/TcpJsonlClient.cpp:325-356 | connecting, taking, sending and failing in the system are the steps of the queue object |
| ClientRefinement.LineMeansPayload | src/windows_adapter/AfsimNs3Protocol.cpp:174-211 | the line of every message of the system is JSON text with a newline, and the text denotes exactly the payload that the service is given |
| ClientRefinement.ThrownEntitiesNeverArrive | src/windows_adapter/StateDeltaTracker.cpp:117-131 | in any reachable state: after a `SubmitInitial` that throws over its flows, the same entities with the old flows count as no change, and however the connection goes on, with nothing outstanding the service holds the old state and not the submitted one |
| AfsimBridgeController.AfsimBridgeController.SubmitInitial | src/windows_adapter/AfsimBridgeController.cpp:53-63 | the tracker takes the state and the queue becomes its snapshot; on unfit ids nothing is queued, and the tracker keeps its state but for entities that were fit |
| AfsimBridgeController.AfsimBridgeController.SubmitCurrentState | src/windows_adapter/AfsimBridgeController.cpp:65-90 | first call sends the snapshot; later ones send the difference, or nothing exactly when the state is the same; the answer tells queued from overflowed; an exception leaves tracker and queue as `Reset` or `Update` leave them |
| AfsimBridgeController.AfsimBridgeController.SubmitDelta | src/windows_adapter/AfsimBridgeController.cpp:92-109 | change and reconnect snapshot are queued together and the tracker is reset to the submitted state; an exception queues nothing and leaves the tracker as `Reset` does |
| AfsimBridgeController.FailedInitialKeepsBaselineIff | src/windows_adapter/StateDeltaTracker.cpp:117-131 | a throwing `SubmitInitial` queues nothing, and leaves the tracker's baseline as it was if and only if the entities are unfit themselves or the same as before |
| AfsimBridgeController.FailedInitialLosesUpdate | src/windows_adapter/AfsimBridgeController.cpp:53-90 | after a throwing `SubmitInitial` with fit new entities, submitting them with the old flows answers no change and queues nothing, though the state differs from the one queued last |
| AfsimBridgeController.AfsimBridgeController.OnJsonLine | src/windows_adapter/AfsimBridgeController.cpp:177-192 | the message gate first, then the effect gate, then the pending map, keyed by all four ids (`EffectDelivery.NewestIsDelivered`, `EffectDelivery.PendingIsOneEach`); an exception of either leaves the rest as it was |
| AfsimBridgeController.AfsimBridgeController.ApplyPendingEffects | src/windows_adapter/AfsimBridgeController.cpp:111-137 | every pending decision is attempted exactly once, applied plus reported is their number, and the queue is empty afterwards |
| JsonText.Quote | src/windows_adapter/AfsimNs3Protocol.cpp:11-57 | the character loop writes the escaped string between quotes |
| MessageText.WriteArray | src/windows_adapter/AfsimNs3Protocol.cpp:90-107 | the loop with separators writes the JSON array of the values |
| JsonReader.RenderedIsRead | src/windows_adapter/AfsimNs3Protocol.cpp:11-157 | a reader after RFC 8259 gives back every rendered value, whatever its strings contain |
| JsonReader.RenderIsInjective | src/windows_adapter/AfsimNs3Protocol.cpp:11-157 | different values are never written as the same text |
| JsonReader.ControlIsCode | src/windows_adapter/AfsimNs3Protocol.cpp:18-52 | other control characters are written by code point with lower-case hexadecimal digits |
| MessageText.UnbrokenRender | src/windows_adapter/AfsimNs3Protocol.cpp:16-57 | rendered JSON holds no raw CR or LF |
| MessageText.ProperInit | src/windows_adapter/AfsimNs3Protocol.cpp:174-190 | full messages consist of quoted strings and literals only |
| MessageText.ProperDelta | src/windows_adapter/AfsimNs3Protocol.cpp:192-211 | change messages consist of quoted strings and literals only |
| MessageMeaning.InitTextMeans | src/windows_adapter/AfsimNs3Protocol.cpp:174-190 | the text of a full message is read as one value without rest, and it denotes the object of that message: same names, every value equal, nothing else |
| MessageMeaning.DeltaTextMeans | src/windows_adapter/AfsimNs3Protocol.cpp:192-211 | the text of a change message is read as one value without rest, and it denotes the object of that message |
| ClientText.DeviceIsWritten | src/windows_adapter/AfsimNs3Protocol.cpp:65-75 | a device is written as exactly these seven named members |
| ClientText.PolicyIsWritten | src/windows_adapter/AfsimNs3Protocol.cpp:77-88 | a policy is written as exactly these seven named members |
| ClientText.EntityIsWritten | src/windows_adapter/AfsimNs3Protocol.cpp:109-136 | an entity is written as exactly these nine members, `null` for a missing parent, position and velocity axis by axis |
| ClientText.FlowIsWritten | src/windows_adapter/AfsimNs3Protocol.cpp:138-148 | a flow is written as exactly these seven named members |
| ClientText.InitIsWritten | src/windows_adapter/AfsimNs3Protocol.cpp:174-190 | a full message has version 0.2, the type `afsim_init`, id, time, entities and flows, under these names and in this order |
| ClientText.DeltaIsWritten | src/windows_adapter/AfsimNs3Protocol.cpp:192-211 | a change message has version 0.2, the type `afsim_delta`, id, time and the four lists |
| MessageText.MessagesArrive | src/windows_adapter/TcpJsonlClient.cpp:373-431 | however a stream of rendered messages is cut, exactly those messages reach the handler in order |
| JsonScanner.FindValueStart | src/windows_adapter/MessageTransportGate.cpp:16-39 | the position after key, colon and blanks, or an exception |
| JsonScanner.JsonString | src/windows_adapter/MessageTransportGate.cpp:41-97 | the loop reads the string field with its escapes, or throws |
| JsonScanner.JsonUint64 | src/windows_adapter/MessageTransportGate.cpp:99-120 | the loop reads the digits with the overflow check |
| JsonScanner.MatchingEnd | src/windows_adapter/MessageTransportGate.cpp:148-190 | the loop returns the position at which the counted depth comes back to zero outside strings |
| JsonScanner.ReadObjectArray | src/windows_adapter/MessageTransportGate.cpp:192-225 | the loop collects the objects of the array, or throws |
| ContainerEnds.MatchingEndIsOwnEnd | src/windows_adapter/MessageTransportGate.cpp:148-190 | started at a rendered array or object inside any text, the scan returns that value's own closing bracket |
| KeySearch.CleanMeans | src/windows_adapter/MessageTransportGate.cpp:21-22 | a rendered string holds the searched text exactly when it is the key or ends with a quote and the key |
| KeySearch.NameFoundIffClean | src/windows_adapter/MessageTransportGate.cpp:16-39 | the search finds the member's own name if and only if nothing before it looks like the key |
| FieldReading.ImitatedKeyMisleads | src/windows_adapter/MessageTransportGate.cpp:21-27 | a value equal to the key makes the lookup land on the next member's value |
| FieldReading.QuotedReadsBack | src/windows_adapter/MessageTransportGate.cpp:51-96 | a quoted string comes back if its control characters have short escapes, and otherwise the reader throws |
| FieldReading.ReadableMeans | src/windows_adapter/AfsimNs3Protocol.cpp:18-45 | readable strings are exactly those whose control characters are the five with a short escape |
| FieldReading.NumeralReadsBack | src/windows_adapter/MessageTransportGate.cpp:107-119 | a decimal numeral is read as its value if that fits in 64 bits, and otherwise the reader throws |
| FieldReading.StringFieldRead | src/windows_adapter/MessageTransportGate.cpp:41-97 | a reachable string member is read back, or throws exactly when it is not readable |
| FieldReading.BooleanFieldRead | src/windows_adapter/MessageTransportGate.cpp:134-146 | a reachable boolean member is read back |
| FieldReading.NumberFieldRead | src/windows_adapter/MessageTransportGate.cpp:122-132 | the text that is converted for a reachable number member is exactly the written number |
| FieldReading.ObjectArrayRead | src/windows_adapter/MessageTransportGate.cpp:192-225 | a reachable array of objects gives back exactly its rendered elements in order |
| ScannerMeaning.ReadersAgree | src/windows_adapter/MessageTransportGate.cpp:51-96 | on every text that a JSON reader takes as a string the client's reader gives the same string, or throws exactly when an escape by code point occurs |
| ScannerMeaning.BlanksDoNotMatter | src/windows_adapter/MessageTransportGate.cpp:16-39 | blanks around the colon, however many, do not change what a lookup finds |
| ResponseText.ResponseIsRead | src/afsim_ns3_bridge/server.py:203-221 | whatever its strings contain, the response read as JSON is exactly the object written out here |
| ResponseText.LinkIsWritten | src/afsim_ns3_bridge/engine.py:216-228 | a link of the response is written as exactly these eight named members |
| ResponseText.MetricIsWritten | src/afsim_ns3_bridge/engine.py:156-180 | a measurement is written under these names, with source, arrow and target as its direction |
| ResponseText.NodeIsWritten | src/afsim_ns3_bridge/engine.py:195-215 | a node and its mapping are written under these names |
| ResponseText.QueueIsWritten | src/afsim_ns3_bridge/server.py:203-216 | the queue state says whether a revision waits and which, `null` for none, and the status is code 0 with `ok` |
| ResponseText.PolicyEffectIsWritten | src/afsim_ns3_bridge/effects.py:46-63 | the effect of a policy is written with its ids, its state, each reason by its name and the policy's own thresholds |
| MetricsMessage.LinkReadsBack | src/windows_adapter/MessageTransportGate.cpp:269-279 | a written link is read back with source, target, state, delay and loss |
| MetricsMessage.MetricReadsBack | src/windows_adapter/MessageTransportGate.cpp:281-293 | a written measurement is read back with its direction, usability and latency |
| MetricsMessage.EffectReadsBack | src/windows_adapter/NetworkEffectGate.cpp:230-241 | a written effect is read back as its decision |
| MetricsMessage.GatesAgree | src/windows_adapter/NetworkEffectGate.cpp:224-228 | both gates take the same type and revision from a line |
| MetricsMessage.MessageGateReadsBack | src/windows_adapter/MessageTransportGate.cpp:260-293 | the message gate reads back revision, links and measurements of a whole response |
| MetricsMessage.EffectGateReadsBack | src/windows_adapter/NetworkEffectGate.cpp:185-241 | the effect gate reads back all effects of a whole response |
| OrdinaryMessages.OrdinaryMessageIsReadBack | src/afsim_ns3_bridge/server.py:203-224 | a response none of whose strings is, or ends with a quote and, a looked-up name is read back completely by both gates |
| OrdinaryMessages.NodesAreOrdinary | src/afsim_ns3_bridge/engine.py:195-215 | the list of nodes never disturbs a lookup as long as its ids do not, though its members share names with links and effects |
| OrdinaryMessages.RequestNamedLinksThrows | src/windows_adapter/MessageTransportGate.cpp:192-200 | a response to a request with the id `links` makes the message gate throw |
| Responses.BuildMetrics | src/afsim_ns3_bridge/engine.py:156-180 | the loop gives one measurement for each flow in order, that of a flow without a result being disconnected with loss one |
| Responses.MetricsMean | src/afsim_ns3_bridge/engine.py:156-180 | what is reported for a flow are the runner's values, or disconnected, loss one and down without a result |
| Responses.SnapshotIsBuildable | src/afsim_ns3_bridge/state.py:150-166 | every snapshot of a consistent store with a time has known words, closed references and numbers in range, so a response can be built from it |
| Responses.ResponseIsOrdinary | src/afsim_ns3_bridge/engine.py:188-234 | the response built from a snapshot of ordinary strings is ordinary: none of its members, status, mappings and queue state included, disturbs a lookup |
| Responses.ResultsArrive | src/afsim_ns3_bridge/server.py:203-224 | for a snapshot of ordinary, readable strings the message gate reads from the response exactly its links and its flows' measurements, the effect gate exactly the effects of its policies |
| LossDraw.HashText | src/windows_adapter/MessageTransportGate.cpp:227-236 | the loop is the byte-wise hash of the text's UTF-8 bytes |
| LossDraw.UnitDraw | src/windows_adapter/MessageTransportGate.cpp:238-256 | the loop draws from the bytes of the ids, serial and revision |
| LossDraw.HashIsPermutation | src/windows_adapter/MessageTransportGate.cpp:229-235 | hashing any bytes is a permutation of the 64-bit states: it has an inverse on both sides |
| LossDraw.HashConcat | src/windows_adapter/MessageTransportGate.cpp:244-246 | hashing a concatenation is hashing one part after the other |
| LossDraw.OneSerialByteSeparates | src/windows_adapter/MessageTransportGate.cpp:247-253 | serials that differ in exactly one byte always hash differently |
| LossDraw.Utf8Decodes | src/windows_adapter/MessageTransportGate.cpp:227-236 | the hashed bytes of a character hold its number: their bits put together give it back |
| LossDraw.DrawIsOneHash | src/windows_adapter/MessageTransportGate.cpp:238-253 | the draw hashes one string of bytes: source, target, then serial and revision byte by byte in turn |
| LossDraw.OneByteOfDrawSeparates | src/windows_adapter/MessageTransportGate.cpp:238-253 | draws whose byte strings differ in exactly one place, in source, target, serial or revision, never hash alike |
| LossDraw.HashSnoc | src/windows_adapter/MessageTransportGate.cpp:227-236 | each byte is first mixed in and then multiplied by the prime modulo two to the 64 |
| LossDraw.XorIsBitwise | src/windows_adapter/MessageTransportGate.cpp:232 | mixing sets exactly the bits in which hash and byte differ |
| LossDraw.WordIsItsBytes | src/windows_adapter/MessageTransportGate.cpp:249-251 | the eight bytes taken of a word make up the word |
| LossDraw.UnitIsTopBits | src/windows_adapter/MessageTransportGate.cpp:254-255 | the draw is the hash over two to the 64, cut off after 53 bits |
| LossDraw.UnitIsUnit | src/windows_adapter/MessageTransportGate.cpp:254-255 | the draw lies in [0, 1) |
| MessageTransportGate.FoldLinks | src/windows_adapter/MessageTransportGate.cpp:269-279 | the loop over the links is the fold of the readable ones, or throws if one is not |
| MessageTransportGate.FoldMetrics | src/windows_adapter/MessageTransportGate.cpp:281-293 | the loop over the measurements is the fold on top of the links |
| MessageTransportGate.ProfileMeans | src/windows_adapter/MessageTransportGate.cpp:267-293 | a direction's loss is its last link's, clamped; its delay the greatest of zero, last link and all latencies; its connection the last measurement's, else the last link's |
| MessageTransportGate.MessageTransportGate.UpdateFromMetricsJson | src/windows_adapter/MessageTransportGate.cpp:260-303 | a readable newer result replaces profiles and revision; anything else, exceptions included, changes nothing |
| MessageTransportGate.MessageTransportGate.Decide | src/windows_adapter/MessageTransportGate.cpp:305-345 | the decision with its reason, delay, loss and revision |
| MessageTransportGate.DeliveredMeans | src/windows_adapter/MessageTransportGate.cpp:316-344 | delivery exactly when a link of that direction has loss below one and not above the draw and the last measurement, or without one the link, is up |
| MessageTransportGate.DecisionExplained | src/windows_adapter/MessageTransportGate.cpp:310-344 | the decision carries the revision and the direction's delay and loss as links and measurements determine them, with only one of the two as well, and its reason tells no entry, link down, loss and delivery apart |
| MessageTransportGate.MoreLossNeverDelivers | src/windows_adapter/MessageTransportGate.cpp:330-344 | for fixed direction, serial and revision more loss never turns a drop into a delivery |
| MessageTransportGate.GateHoldsNewest | src/windows_adapter/MessageTransportGate.cpp:295-302 | after any lines in any order the gate holds the profiles of the greatest readable revision, first received |
| NetworkEffectGate.NetworkEffectGate.UpdateFromMetricsJson | src/windows_adapter/NetworkEffectGate.cpp:221-254 | decisions of a newer readable revision are taken over and returned; otherwise nothing changes; what is then looked up is `EffectDelivery.StateIsLastDecided` |
| NetworkEffectGate.NetworkEffectGate.GetState | src/windows_adapter/NetworkEffectGate.cpp:256-264 | the recorded state, blocked without one |
| NetworkEffectGate.NetworkEffectGate.CanOperate | src/windows_adapter/NetworkEffectGate.cpp:266-272 | a subsystem can operate exactly when it has a state that is not blocked |
| NetworkEffectGate.StatesFollow | src/windows_adapter/NetworkEffectGate.cpp:248-251 | the recorded states stay those of the last decisions, and no others |
| EffectDelivery.RunKeepsInv | src/windows_adapter/AfsimBridgeController.cpp:111-192 | over any run of lines and drains: effect gate not ahead of message gate, strictly increasing revisions at the sink for each key, every decision settled, nothing else attempted, counts conserved |
| EffectDelivery.NewestIsDelivered | src/windows_adapter/AfsimBridgeController.cpp:186-191 | an accepted decision with no later one of the same entity, subsystem id, subsystem type and peer was attempted or is pending, and after a drain it was attempted |
| EffectDelivery.AttemptsIncrease | src/windows_adapter/AfsimBridgeController.cpp:111-137 | among attempts that agree in all four ids revisions increase strictly |
| EffectDelivery.PendingIsOneEach | src/windows_adapter/AfsimBridgeController.cpp:12-18 | no two pending decisions agree in all four ids |
| EffectDelivery.StateIsLastDecided | src/windows_adapter/NetworkEffectGate.cpp:248-264 | after any run the state answered for an entity and a subsystem is that of the last accepted decision with those two ids, blocked if there is none |
| EffectDelivery.OperatesIffDecided | src/windows_adapter/NetworkEffectGate.cpp:256-272 | after any run a subsystem can operate exactly when the last accepted decision with its two ids does not block it |
| EffectDelivery.VisitsCount | src/windows_adapter/AfsimBridgeController.cpp:119-136 | a drain attempts as many decisions as were pending |
| EndToEnd.PolicyDecidesSubsystem | src/afsim_ns3_bridge/effects.py:14-45 | after a newer response the subsystem of every policy is answered with what the last flow from its entity to its peer was measured to be: available within the limits, blocked without flow, result or connection, else the violation state |
| EndToEnd.PolicyDecisionPends | src/windows_adapter/AfsimBridgeController.cpp:177-192 | and the decision with the policy's ids, type and peer, that state and the snapshot's revision is pending for the sink |
| EndToEnd.ResultDecidesMessage | src/windows_adapter/MessageTransportGate.cpp:260-345 | after a newer response a message is delivered exactly when the last device from its source to its target has a loss below one and not above the draw and the last such flow was measured connected and up, or without a flow the link is up |
| EndToEnd.NodeMeans | src/afsim_ns3_bridge/engine.py:181-215 | a node is reported connected exactly when its entity is alive and at an end of some device's link that is up |
| Effects.EvaluateEffects | src/afsim_ns3_bridge/effects.py:8-65 | the nested loops judge every policy of every entity in order, by the last metric from the entity to the peer (`Effects.AvailableMeans`), and report it with its thresholds |
| Effects.AvailableMeans | src/afsim_ns3_bridge/effects.py:28-45 | the last metric whose source is the entity and whose target is the peer decides: available exactly when it meets the policy, blocked when it is disconnected, and each broken limit is a reason and nothing else is |
| Effects.BlockedWithoutMetric | src/afsim_ns3_bridge/effects.py:25-33 | without a metric from the entity to the peer the state is blocked with exactly that reason |
| Effects.EffectsInOrder | src/afsim_ns3_bridge/effects.py:23-63 | the effects come in the order of entities and policies, one for each |
| Effects.EveryPolicyIsJudged | src/afsim_ns3_bridge/effects.py:23-63 | the effects are those of the policies, and nothing else |
| Effects.BetterKeepsAvailable | src/afsim_ns3_bridge/effects.py:38-45 | a better measurement never takes an available subsystem away |
| Ns3Runner.ValidateScenario | src/ns3_runner/afsim-ns3-runner.cc:140-182 | accepts exactly the scenarios with matching counts, contiguous nodes, links and flows in range |
| Ns3Runner.ValidIsSearchable | src/ns3_runner/afsim-ns3-runner.cc:140-182 | in a validated scenario the ends of links and flows are positions of nodes that carry just these indexes |
| ScenarioHandOff.ChecksAgree | src/ns3_runner/afsim-ns3-runner.cc:153-181 | the runner accepts the numbers of a link or flow exactly if the service's ranges hold and its ends are nodes |
| Ns3Runner.HasActivePath | src/ns3_runner/afsim-ns3-runner.cc:184-229 | terminates and is true exactly when both ends are alive and joined by a chain of up links between alive nodes |
| Ns3Runner.ConnectedSymmetric | src/ns3_runner/afsim-ns3-runner.cc:204-205 | the answer is the same in both directions |
| Ns3Runner.MoreLinksStayConnected | src/ns3_runner/afsim-ns3-runner.cc:197-206 | adding links never turns it false |
| ScenarioText.SplitJoined | src/ns3_runner/afsim-ns3-runner.cc:66-77 | fields without tabs that are not empty are split as they were joined |
| ScenarioText.FinalTabAddsNothing | src/ns3_runner/afsim-ns3-runner.cc:66-77 | fields without tabs, empty or not, followed by one more tab are split as they were joined |
| ScenarioText.NumeralRead | src/ns3_runner/afsim-ns3-runner.cc:79-94 | a decimal numeral is read exactly when it fits the width |
| ScenarioText.FlagMeans | src/ns3_runner/afsim-ns3-runner.cc:102-114 | exactly `1` is true and exactly `0` is false |
| ScenarioText.NegativeNumeralRead | src/ns3_runner/afsim-ns3-runner.cc:79-94 | behind a minus sign a numeral is read modulo two to the 64 |
| ScenarioText.BadLineFails | src/ns3_runner/afsim-ns3-runner.cc:422-517 | a line of an unknown command or with the wrong number of fields is an error and the scenario is forgotten; a line without fields is skipped |
| ScenarioText.Links | src/afsim_ns3_bridge/engine.py:277-306 | the nested loops give one link for each device of each entity in order |
| ScenarioMeaning.LinksAreDevices | src/afsim_ns3_bridge/engine.py:277-306 | the links are those of the devices in order, from the entity to the peer, and up exactly when the device's link is up and both ends are alive |
| ScenarioMeaning.SnapshotIsRun | src/afsim_ns3_bridge/engine.py:43-114 | a snapshot that fits is run as exactly the nodes, links and flows that its entities, devices and flows make up, with the ends at the right nodes and flows enabled exactly when active between alive entities |
| ScenarioHandOff.BuildLines | src/afsim_ns3_bridge/engine.py:43-118 | the loops write header, nodes, links, flows and `RUN` |
| ScenarioHandOff.SnapshotIsRanged | src/afsim_ns3_bridge/state.py:150-210 | every snapshot of a consistent store is closed and has its numbers in range |
| ScenarioHandOff.BatchIsSound | src/afsim_ns3_bridge/engine.py:46-114 | in such a snapshot every link and flow end has a node index |
| ScenarioHandOff.SoundIsValid | src/ns3_runner/afsim-ns3-runner.cc:140-182 | what is made of it passes the runner's validation |
| ScenarioHandOff.NodeLine | src/ns3_runner/afsim-ns3-runner.cc:454-469 | a node line adds exactly that node if its numbers can be read, and otherwise is an error |
| ScenarioHandOff.LinkLine | src/ns3_runner/afsim-ns3-runner.cc:470-486 | a link line adds exactly that link, with both node indexes, if it fits, and otherwise is an error |
| ScenarioHandOff.FlowLine | src/ns3_runner/afsim-ns3-runner.cc:487-503 | a flow line adds exactly that flow if it fits, and otherwise is an error |
| ScenarioHandOff.FitBatchIsRun | src/ns3_runner/afsim-ns3-runner.cc:414-519 | a batch that fits is run as exactly its records, whatever the runner held before |
| ComputationRuns.BatchGrowsPipe | src/ns3_runner/afsim-ns3-runner.cc:431-517 | every batch adds output with its own id or none; one that does not fit adds an error first and then something more |
| ComputationRuns.ComputeGrows | src/afsim_ns3_bridge/engine.py:116-154 | one computation on an empty pipe succeeds and leaves it empty exactly when the snapshot fits; on another one it reads what was left over |
| ComputationRuns.IdsDiffer | src/afsim_ns3_bridge/engine.py:56 | scenario ids tell revisions apart |
| ComputationRuns.ComputationSucceedsIff | src/afsim_ns3_bridge/engine.py:37-154 | over whole runs on one process a computation succeeds exactly when its snapshot and all before it fit, and then the runner ran exactly the scenario of that snapshot |
| ComputationRuns.StoredStateIsRun | src/afsim_ns3_bridge/engine.py:43-114 | after any sequence of messages the store's snapshot makes a valid scenario of exactly its entities, devices and flows, and if it fits exactly that is run |

## Left out

* Doubles are reals and their text is a parameter of the writers and readers (`setprecision(15)`, Python's `repr`, `std::stod`): infinities, NaN and rounding are not modelled; that a written number is read back is a hypothesis about the numbers that occur, and a number that `stod` rejects is an exception.
* A double written without a fraction is an `int` after `json.loads`; the model keeps it a number, which validation and merging do not tell apart.
* `json.loads` itself, the HTTP side and rejection of non-finite constants: the service starts from parsed objects. `MessageMeaning` relates the text of a message to its object through the reference reader `JsonReader`, which reads any JSON text that the writers here produce and is not Python's.
* Text is a sequence of characters; the client works on its UTF-8 bytes, in which the characters it searches for never occur inside others. Only the hash is taken over the bytes themselves.
* The SHA-256 digest of a request is the canonical payload itself, so two payloads have the same digest only if they are equal.
* Texts of error messages; the protocol's error codes are kept where they decide.
* Sockets, `select`, reconnect delays, threads and mutexes: connecting, sending and receiving are atomic steps in any order. A failed send may or may not have handed over the whole line.
* The limits on message size, and restarts of the service: revisions come from one lifetime.
* `asyncio` locks and events other than as the points where tasks may switch.
* `metrics_query` answers: a query changes nothing, its answer is not modelled.
* `RunScenario`'s simulation: measured values are arbitrary; an exception of ns-3 itself, a crash and a restart of the runner process are not modelled.
* The runner reads lines; that no field holds a line break is not part of the hand-off.
* `MetricsHttpServer`, CSV export, client sets and broadcasting, environment parsing, build scripts, `AfsimNs3Extension.cpp` and `GeoCoordinates.cpp`.
* The runner's `QUIT` line, and which error a malformed line is reported with.
* The order in which `std::map` drains pending effects: `ApplyPendingEffects` visits them in some order, so what is proved holds for that one too.
* The sink is a function of the decision that says whether it throws; the error handler is the list of reported decisions.
* `visited` is an array, adjacency lists are sequences of sequences; 32-bit indexes do not wrap because scenarios are validated first.
* How `compute` fills its dictionary of results by flow: which flows have a result, and which, is arbitrary in `Responses`.
* AfsimBridgeController.AfsimBridgeController.OnJsonLine: does not say which gate threw, because the receiving loop discards the exception.
