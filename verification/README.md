# Verified model of the collaboration sidecar

Several replicas of the collaboration sidecar hold live Yjs documents of one material and merge them
into one PostgreSQL row. The row carries an epoch (`room_schema`), the encoded state, `stored_version`
and `projected_version`; a lagging read projection (`materials.content`) follows it. Idle rooms are
compacted: the document is rebuilt from the projection under the next epoch, which drops its history.
Clients get durability receipts. The project models this protocol as a step relation over any number
of replicas and proves what every run keeps; around it stand the limit accounting in front of a live
document, eviction and its quorum, the retry and projection loops, the frame reader, headless block
replacement, and three self-contained algorithms of the parsing pipeline and the web client.

Yjs is replaced by a concrete two-phase set: a document is a set of inserted and a set of deleted ids,
merging is union, the visible value is the difference, and compaction builds a fresh document without
tombstones. Merging a replica of an old epoch into a compacted row really can bring deleted content
back (`Documents.StaleMergeResurrects`), so the epoch fence has something to prevent.

| files | subject |
|---|---|
| `Documents` | documents, merging, operation logs |
| `Limits`, `Validation`, `ShrinkOnly`, `ShrinkRuns` | metrics, the amortised check, rooms that may only shrink |
| `Persistence` | the transactions on the row, and the store that runs them |
| `Protocol`, `Invariants`, `DurableDocuments`, `Progress`, `RetryQueue` | the protocol, what each event keeps, what every run promises, when each event takes effect |
| `Projection` | the retry passes of the projection service |
| `Eviction`, `Sidecar`, `Quorum` | eviction on one replica, the hooks that perform it, the acknowledgement quorum |
| `Frames` | the reader of inbound binary frames |
| `Commands`, `Whitespace` | compare-and-swap block replacement |
| `Figures`, `OcrMerge`, `Sse` | figure clustering, OCR line merging, event-stream splitting |

Methods of the classes carry out what the source does in place and are proved equal to a function of
the old state; the lemmas are about those functions.

## Where the code differs from its documentation

- `collaboration/README.md:41-42` says failed stores remain in the retry queue. Every store of the room
  that settles, a retry or a live one, deletes whatever is queued. `RetryQueue.SettlingKeepsQueuedIff`
  says exactly when the deleted entry had been stored; `RetryQueue.NewerSnapshotCanBeDropped` and
  `RetryQueue.LiveStoreCanDropSnapshot` are a run of each kind in which it had not.
- `collaboration/src/persistence.ts:16-20` describes a budget of 32 KiB of update bytes. It never
  decides: pending bytes are also added to the node count, whose headroom trips first
  (`Validation.BudgetNeverDecides`). While no store settles the check holds the size and node caps up to
  24 content bytes and one node per update byte and no further (`Validation.AmortisedBoundIsExact`).
  With stores settling it holds them exactly while what an accepted measurement misses of the document
  fits in what the headroom leaves over (`Validation.AcceptBoundIsExact`); an accept that may miss
  anything, or that may be over the caps itself, leaves no growth covered
  (`Validation.UnguardedAcceptsBreakCaps`). The depth limit is held exactly when every level costs at
  least 1499 bytes of update (`Validation.DepthBoundIsExact`).
- `collaboration/src/server.ts:395-397` relies on the shrinking rule for over-quota rooms. It bounds the
  live document, but a snapshot that was queued before the room was reloaded can still be retried, and
  the row then grows (`ShrinkRuns.RetryAfterReloadGrows`). Until the room is reloaded nothing has to be
  assumed of the stores (`ShrinkOnly.NeverGrowsUntilReload`); after that, a commit keeps the bound if
  and only if the live document has what is stored and the row shows a value the room has held
  (`ShrinkOnly.SafeCommitIsExact`). A baseline or a late accept above the current document admits
  growth, and nothing else does (`ShrinkRuns.FirstShrinkBoundIff`).
- `collaboration/README.md:42-43` says lagging rows are retried periodically. A pass takes the 25 rows
  with the oldest update and a failure does not change that order, so an acceptable row is served
  exactly when fewer than 25 rows before it keep being rejected (`Projection.EventuallyProjectedIff`).
- `server/README.md:84-85` says content mutations never fall back to SQL. `Protocol` follows it: SQL
  writes content only while the material has no row. The check and the write in
  `server/internal/store/queries.go` are separate transactions, and
  `Persistence.LateSqlWriteReplacesDocument` shows what a write that lands after the first load does.
- `collaboration/src/server.ts:247-251` wants a room being discarded to admit no traffic. All evictions
  of a room share one flag, so one keeps stores out exactly until another of them ends
  (`Eviction.OnlyAnotherEndOpensRoom`); after that it can return while a store is writing
  (`Eviction.ExposedEvictionReturnsEarly`).
- A command that replaces a block by one whose id has surrounding spaces leaves the next copy of the
  block for another command to replace (`Commands.SpacedIdLetsTwoWin`).

## Model

| member | source | states |
|---|---|---|
| Documents.MergeReplaysUnseen | collaboration/src/persistence.ts:238-241 | merging a live document into the row shows exactly the row's value with the operations it had not seen replayed on it |
| Documents.StaleMergeResurrects | collaboration/src/persistence.ts:353-365 | after tombstones are dropped, merging an older replica leaves the value alone exactly when that replica shows nothing deleted; otherwise exactly that content returns |
| Limits.MeasureMaterialValue | collaboration/src/limits.ts:36-58 | the in-place walk computes count and depth of the tree cut at the ceiling |
| Limits.Measurement.Visit | collaboration/src/limits.ts:47-55 | one visit adds the cut subtree's nodes and raises the depth to the deepest node reached |
| Limits.TruncatedWalkIsExact | collaboration/src/limits.ts:36-73 | for every tree the cut walk is within all limits exactly when the whole tree is; the depth reported is the true one up to 256 |
| Limits.MeasuredIsShaped | collaboration/src/limits.ts:47-56 | the metrics of any value have more nodes than levels, or are those of the empty value |
| Limits.CodeNamesFirstCap | collaboration/src/limits.ts:60-90 | there is no code if and only if all three metrics are at most 2 MiB, 10 000 and 16, and otherwise the code names the first that is not, in the order size, nodes, depth |
| Validation.RoomValidator.ShouldMeasure | collaboration/src/persistence.ts:40-51 | decides by the missing baseline, the byte budget, the two headrooms and the depth margin |
| Validation.NeedsMeasureIff | collaboration/src/persistence.ts:40-51 | the exact numbers behind those tests |
| Validation.AdmittedIff | collaboration/src/persistence.ts:126-155 | an update is admitted if and only if it need not be measured, or exceeds the baseline in nothing, or is not shrink-only and under every cap; with the error of each refusal and the accounting in every case |
| Validation.FirstUpdateIff | collaboration/src/persistence.ts:126-146 | in a room without a baseline an update is admitted if and only if it is under every cap or exceeds the current document in nothing, and its measurement founds the baseline |
| Validation.AmortisedBoundIsExact | collaboration/src/persistence.ts:16-57 | over all sequences of validated updates, with no store settling, a document that was just loaded or just accepted under the limits stays within the size and node caps if and only if each update byte adds at most 24 content bytes and one node |
| Validation.AcceptBoundIsExact | collaboration/src/persistence.ts:267-268 | with accepts in between that are under the caps and miss at most so many bytes and nodes of the document, the caps hold over all sequences if and only if that fits in the headroom; with nothing missed, up to the same 24 bytes and one node |
| Validation.UnguardedAcceptsBreakCaps | collaboration/src/persistence.ts:53-56 | if accepts may miss anything, or may be over the caps, the caps hold if and only if documents do not grow at all |
| Validation.BudgetNeverDecides | collaboration/src/persistence.ts:42-47 | whenever the byte budget is used up, the node headroom already asks for a measurement |
| Validation.DepthBoundIsExact | collaboration/src/persistence.ts:48-49 | over all sequences of validated updates and of accepts no shallower than the document, from a document just loaded or just accepted, the depth limit holds if and only if every level costs at least 1499 bytes of update |
| Validation.DeepensUnmeasured | collaboration/src/persistence.ts:40-51 | at every lower cost per level, an update of six levels passes unmeasured and leaves the document too deep |
| ShrinkOnly.ShrinkOnlyNeverGrows | collaboration/src/persistence.ts:127-156 | from a loaded room on, with every update shrink-only and every commit safe, no document or row ever exceeds the loaded one in any metric, through failed, queued, retried and late stores and reloads |
| ShrinkOnly.NeverGrowsUntilReload | collaboration/src/server.ts:440-501 | until the room is reloaded the bound holds with no assumption on the stores, retries included |
| ShrinkOnly.SafeCommitIsExact | collaboration/src/persistence.ts:217-268 | for a bound under the limits, a commit and everything after it stay within the bound, whatever the metrics of values are and with no other detached document committing, if and only if the live document includes what is stored and the row shows a value the room has held |
| ShrinkRuns.RetryAfterReloadGrows | collaboration/src/server.ts:621-629 | a run in which a snapshot queued before a reload is retried after it and the row ends up larger than the document that was loaded |
| ShrinkOnly.StaysBounded | collaboration/src/persistence.ts:127-160 | the same from any room, with any bound on its documents, baseline and unsettled stores |
| ShrinkRuns.FirstShrinkBoundIff | collaboration/src/persistence.ts:131-155 | in a room whose documents are within its live one, the metrics at the first shrink-only update bound everything after it if and only if the baseline is missing or within them, and so is every accept still to come |
| ShrinkOnly.QueueChanges | collaboration/src/server.ts:491-497 | what the room's queued snapshot is after each event, and that a retry stores exactly it |
| Persistence.CompactionKeepsValueIff | collaboration/src/persistence.ts:333-365 | a compaction drops every tombstone and takes the next version for both watermarks; it keeps the value if and only if the projection shows the value of the row |
| Persistence.LoadsIff | collaboration/src/persistence.ts:169-206 | a load succeeds if and only if the row has its epoch, or there is no row and the content is an envelope; it reads out the row, or version 1 with exactly the content's value; each error has its exact condition |
| Persistence.StoresIff | collaboration/src/persistence.ts:234-275 | a store commits if and only if the row, when there is one, has its epoch, and each metric of the merged document is under its cap, or each is at most the row's; then the row is the merge at the next version, and value and metrics returned are those of that row |
| Persistence.CompactsIff | collaboration/src/persistence.ts:333-365 | a compaction writes if and only if there is a row of its epoch whose versions agree and the content is an envelope; then the next epoch and version hold exactly the content's value and no tombstone; each refusal has its exact condition |
| Persistence.ProjectsIff | server/internal/store/yjs_documents.go:52-91 | a projection takes effect if and only if its version has been stored and not been projected; then the content is its value and only the watermark of the row changes |
| Persistence.LateSqlWriteReplacesDocument | server/internal/store/queries.go:1124-1235 | a SQL content write that lands after the first load is taken for version 1 and replaces the document at the next compaction |
| Persistence.Database.Project | server/internal/store/yjs_documents.go:52-166 | unknown versions and materials are refused, projected versions are acknowledged and ignored, every other replaces the content and advances the watermark |
| Persistence.YjsDocumentStore.ValidateUpdate | collaboration/src/persistence.ts:115-156 | verdict and accounting of one inbound update, including the baseline a rejected update leaves behind; other rooms keep theirs |
| Persistence.YjsDocumentStore.Load | collaboration/src/persistence.ts:162-215 | bootstraps a missing row as version 1 from the content, and otherwise reads out the state only under the row's own epoch; every error changes nothing |
| Persistence.YjsDocumentStore.Store | collaboration/src/persistence.ts:217-283 | merges into the row under its own epoch, takes the next version, keeps the projection watermark, refuses over-limit growth, and rebases the room's accounting |
| Persistence.YjsDocumentStore.Compact | collaboration/src/persistence.ts:313-379 | writes only when the epoch is the row's and both versions agree, and then rebuilds from the content under the next epoch |
| Protocol.CheckpointQueue.Request | collaboration/src/server.ts:432-438 | the id joins the room's queue unless 64 are queued |
| Protocol.CheckpointQueue.Claim | collaboration/src/server.ts:442-444 | the claim is the whole queue of the room |
| Protocol.CheckpointQueue.Settle | collaboration/src/server.ts:449-453 | exactly the claimed ids leave, later requests and other rooms stay, no empty queue is kept |
| Invariants.StepKeeps | collaboration/src/server.ts:409-502 | every event of the protocol keeps the whole invariant: row, ids per epoch, live documents, stores under the lock, claims, receipts, messages, history and recovery |
| Invariants.RunKeeps | collaboration/src/persistence.ts:162-379 | the invariant holds at every point of every run |
| Invariants.CommitStoreKeeps | collaboration/src/persistence.ts:224-267 | a commit prepared under the lock keeps the invariant whatever edits, unloads and requests came between its read and its COMMIT |
| Invariants.SettleKeeps | collaboration/src/server.ts:447-464 | the caller's settling keeps the invariant whatever projections, compactions, loads and stores came between COMMIT and it |
| Invariants.ReceiptCovered | collaboration/src/server.ts:442-464 | ids claimed before the store read the document are covered by the version it committed, however much later they are broadcast |
| Invariants.CompactWrites | collaboration/src/persistence.ts:333-365 | a compaction enters an epoch nobody has seen and keeps row, history and recovery |
| DurableDocuments.EventsWriteLog | collaboration/src/persistence.ts:217-379 | a commit appends exactly the operations its document has and the row has not; a compaction appends none, keeps the value and drops all tombstones; the first load appends the content; no other event writes the row or the log |
| DurableDocuments.RowRefinesLog | collaboration/src/persistence.ts:162-379 | refinement: at every point of every run the row's value is the replay of one log that only grows, and every version ever committed is the replay of a prefix of it |
| DurableDocuments.NothingDeletedReappears | collaboration/src/persistence.ts:235-241 | no tombstone of any row is visible in any later row, across any number of compactions |
| DurableDocuments.ReceiptsAreDurable | collaboration/src/server.ts:416-464 | a receipt at version v means the row committed at v has every operation the live document had when the id was requested; any later row still shows its insertions, less what version v or the batches logged between the two delete, and none of its deletions |
| DurableDocuments.ProjectionShowsItsVersion | collaboration/src/persistence.ts:252-266 | the projected version never passes the stored one and the content is exactly the value of that version, with messages lost, repeated and reordered; at equal versions it is the value of the row |
| DurableDocuments.EpochFence | collaboration/src/persistence.ts:204-237 | at every step of every run, an event under another epoch changes nothing and reads nothing out; only compaction changes the epoch, by one; every write takes the next version |
| DurableDocuments.EpochsNeverGoBack | collaboration/src/persistence.ts:357-364 | epoch and stored version are monotone over every run |
| DurableDocuments.OneCompactionPerEpoch | collaboration/src/persistence.ts:333-365 | of all compactions of a run at most one writes the row under each epoch, with no help from the eviction key |
| DurableDocuments.RecoveryIsAbsorbing | collaboration/src/persistence.ts:240-251 | a later row over a limit never exceeds an earlier one in any metric, and a row within the limits is never followed by one outside them |
| DurableDocuments.HistoryOnlyGrows | collaboration/src/server.ts:447-464 | log, commits, receipts and recorded requests are only ever extended |
| Progress.LoadTakesRowIff | collaboration/src/server.ts:409-415 | in every run a load succeeds exactly under the row's epoch, or from content when there is no row, and the loaded document is then the state of the row |
| Progress.StoreCanCommitIff | collaboration/src/persistence.ts:224-251 | in every run a store that has begun can take the row if and only if its epoch is the row's and the merge is under every cap or exceeds the row in nothing |
| Progress.QueueChanges | collaboration/src/server.ts:448-497 | what the retry queue is after each event: exactly the live document of a failed store that is to be queued, nothing for the room of a store that settles, unchanged otherwise |
| Progress.FailuresLeave | collaboration/src/server.ts:621-641 | a failed store leaves the calls and the lock, and a retry takes exactly what is queued |
| Progress.FailureCanBeRetried | collaboration/src/server.ts:491-497 | from every point of every run a store in progress can fail, and its live document then be retried or dropped |
| Progress.EditsReach | collaboration/src/server.ts:354-371 | an update that reaches a live document is merged into it |
| Progress.ProjectionsAreSent | collaboration/src/projection.ts:56-66 | a settled store sends the version it committed with its value, and the retry loop that of a lagging row |
| Progress.DeliveryProjectsIff | server/internal/store/yjs_documents.go:71-163 | in every run a message takes effect if and only if its version is ahead of the projection |
| Progress.CompactionWritesIff | collaboration/src/persistence.ts:333-365 | in every run a compaction of the current epoch writes if and only if the projection has caught up; it keeps the value, drops every tombstone and takes the next epoch and version |
| Progress.QueuedIff | collaboration/src/server.ts:432-453 | an id is queued after an event if and only if it was and the event is neither an unload of its room nor the settling of a store that claimed it, or the event is its request and fewer than 64 were queued |
| Progress.ClaimsStand | collaboration/src/server.ts:442-444 | a store claims everything queued when it begins, and its claim lasts until it settles or fails |
| Progress.ReceiptSentIff | collaboration/src/server.ts:447-464 | the settling of a live store, and nothing else, broadcasts a receipt, of exactly what it claimed and at the version it committed |
| Progress.ReceiptArrives | collaboration/src/server.ts:416-464 | in every run a request that is still queued when a store of its room begins is in the receipt that store broadcasts |
| Progress.CheckpointCompletes | collaboration/src/server.ts:416-470 | from every point of every run at which a room can be stored, five events bring the live document into the row, the id into a receipt at the next version, the room out of the retry queue and its projection on the way |
| Progress.CompactionIsAlwaysPossible | collaboration/src/projection.ts:56-66 | from every point of every run at which the row is not locked, however many messages were lost, the retry loop can bring the projection up to date and the room can be compacted |
| RetryQueue.SettlingKeepsQueuedIff | collaboration/src/server.ts:448-448 | whatever a settling store, retry or live, deletes from the queue is in the version it committed if and only if the operations its document did not have were in the version before, and in the row, while the epoch stands, if and only if they are in the row |
| RetryQueue.SettledRetryStoredIt | collaboration/src/server.ts:621-629 | a retry whose snapshot is still the queued one, and a live store whose document has everything queued, leave it in the version they committed, and every later row keeps its effect, compactions included |
| RetryQueue.LiveStoreCanDropSnapshot | collaboration/src/server.ts:447-448 | a run of ten events, with no retry, after which a failed snapshot is in no queue, no loaded document, no call and not in the row |
| RetryQueue.NewerSnapshotCanBeDropped | collaboration/src/server.ts:627-629 | a run of twelve events in which the retry of an older snapshot makes a newer one vanish the same way |
| Projection.Table.Pending | collaboration/src/persistence.ts:381-403 | the batch is exactly the oldest lagging rows up to the bound, each with the version and the value it has together |
| Projection.Table.Project | collaboration/src/projection.ts:16-42 | the endpoint's effect on the table, for a content it accepts or rejects |
| Projection.AnsweredIsCurrent | collaboration/src/projection.ts:60-71 | an accepted row no longer lags and shows its own value; a rejected one keeps what it showed, its place and an error |
| Projection.ProjectionService.RetryPending | collaboration/src/projection.ts:56-76 | a pass answers min(25, n) of the n lagging rows, brings the accepted ones up to date with the content of their version, touches no other row, and leaves the rejected ones at the head of the queue; a pass that finds another active does nothing |
| Projection.ProjectionService.AnswerAll | collaboration/src/projection.ts:60-72 | every row of the batch is answered once, whatever the others' answers |
| Projection.PassesDrain | collaboration/src/projection.ts:56-76 | with an accepting gateway k passes take exactly the first 25k rows, and none lag if and only if 25k reaches their number |
| Projection.EventuallyProjectedIff | collaboration/src/projection.ts:60-71 | an acceptable row is eventually brought up to date if and only if fewer than 25 rows before it keep being rejected |
| Projection.ServedSoon | collaboration/src/projection.ts:60-71 | the pass after which such a row no longer lags exists |
| Projection.PassesNeverOverlap | collaboration/src/projection.ts:57-75 | however the first and last lines of passes interleave at most one pass is active and the flag says whether one is; `RetryPending` begins and ends with exactly these lines |
| Projection.PassEntersIff | collaboration/src/projection.ts:57-75 | a pass gets in if and only if none is active, and its end lets the next one in |
| Eviction.ActiveStores.BeginStore | collaboration/src/server.ts:140-150 | the token joins the room's set, made when missing; the handle is the set the map holds |
| Eviction.ActiveStores.Finish | collaboration/src/server.ts:151-155 | the token leaves and an empty set is dropped from the map |
| Eviction.ActiveStoresAreExact | collaboration/src/server.ts:140-162 | at every step of every run the map holds exactly the rooms with unfinished stores, each with exactly their set |
| Eviction.EvictionLeavesRoomQuiet | collaboration/src/server.ts:212-245 | when an eviction returns, nothing begun before it is in flight and no snapshot of the room is queued; if no other eviction of the room ended meanwhile, nothing begun during it reached the database either |
| Eviction.StartsIff | collaboration/src/server.ts:440-497 | from every reachable state a store or retry goes on if and only if its room is neither rejected nor being evicted, and is then counted as active; refused, it leaves nothing but, for a store outside an eviction, its snapshot in the queue |
| Eviction.SettlesTakeEffect | collaboration/src/server.ts:447-501 | what the active stores, the queue and the rejected rooms are after each outcome |
| Eviction.EvictionsTakeEffect | collaboration/src/server.ts:212-245 | an eviction shuts the room and drops what is queued, its wait ends if and only if nothing of the room runs, and its end opens the room |
| Eviction.OnlyAnotherEndOpensRoom | collaboration/src/server.ts:241-244 | an eviction that has kept stores out goes on doing so after an event if and only if that event is not the end of another eviction of the room |
| Eviction.ExposedEvictionReturnsEarly | collaboration/src/server.ts:226-244 | whenever one of two drained evictions of a room ends, a store can be let through and the other return while it writes |
| Eviction.OverlapLosesTheGuarantee | collaboration/src/server.ts:241-244 | with two overlapping evictions the second can return while a store begun during it is writing |
| Eviction.StepKeeps | collaboration/src/server.ts:440-501 | every store, retry and eviction event keeps the map exact and each eviction's promise |
| Sidecar.Hooks.StoreStarts | collaboration/src/server.ts:440-447 | a store is active before availability is checked; refused, it leaves no trace in the map and is queued exactly when the room is not being evicted |
| Sidecar.Hooks.RetryStarts | collaboration/src/server.ts:621-628 | the same for one turn of the retry loop, which queues nothing |
| Sidecar.Hooks.Settles | collaboration/src/server.ts:447-501 | after a commit, a limit error or another failure the queue, the rejected rooms and the active stores are those of the model |
| Sidecar.Hooks.EvictBegins | collaboration/src/server.ts:212-226 | the flag is set and the room's queued snapshot dropped before anything is awaited |
| Sidecar.Hooks.EvictDrains | collaboration/src/server.ts:158-162 | the wait ends exactly when the room has no active store |
| Sidecar.Hooks.EvictEnds | collaboration/src/server.ts:240-244 | the flags are cleared on every exit, the queue only on return |
| Quorum.EvictionWaiters.RecordEvictionAck | collaboration/src/server.ts:195-210 | effect of one acknowledgement on the waiters and on what was resolved |
| Quorum.EvictionWaiters.Expire | collaboration/src/server.ts:320-323 | a timeout fails the request if it still waits |
| Quorum.ActionNeedsEveryInstance | collaboration/src/server.ts:304-343 | the guarded action ran only if every instance of the request's snapshot acknowledged ok; no request resolves twice, and it fails only after a refusal or a timeout |
| Quorum.EveryAckIsReceived | collaboration/src/server.ts:204-206 | a waiting request has received exactly the members of its snapshot that acknowledged it ok since it was registered |
| Quorum.ResolvesIff | collaboration/src/server.ts:195-210 | a request that nobody refused and that did not time out has resolved true if and only if every member of its snapshot acknowledged it ok, in any order, and waits until then; a refused or timed-out one no longer waits |
| Quorum.ActsIff | collaboration/src/server.ts:335-336 | with nobody refusing and no timeout, the guarded action can run if and only if every member of the snapshot acknowledged ok |
| Quorum.PositiveIsRecorded | collaboration/src/server.ts:195-210 | the acknowledgements, refusals and timeouts counted for a registered request are exactly those that arrived |
| Quorum.AckDecides | collaboration/src/server.ts:195-210 | while a request waits, any refusal fails it, unknown and repeated acknowledgements change nothing, and one completes it if and only if it is the last missing |
| Quorum.LateAckIsIgnored | collaboration/src/server.ts:196-197 | an acknowledgement of a resolved request changes nothing |
| Frames.ReadVarUint | collaboration/src/server.ts:104-117 | the loop returns the number and leaves the offset where the recursive reader does, without reading out of bounds |
| Frames.InboundYjsUpdate | collaboration/src/server.ts:119-138 | the sequence of reads returns the payload of a sync update of message type 0 or 4, and null at the first read that does not fit |
| Frames.ReadsExactlyVarUints | collaboration/src/server.ts:104-117 | a byte string is read as n if and only if it is an unsigned LEB128 number n of at most five bytes |
| Frames.VarUintInvertsEncode | collaboration/src/server.ts:104-117 | reading inverts the shortest encoding exactly below 2^35, and longer encodings are refused |
| Frames.FrameRoundTrip | collaboration/src/server.ts:119-138 | for every name, message type, sync type, update and trailing bytes the encoded frame reads back as its update exactly when the types are (0 or 4, 2) and the lengths are below 2^35 |
| Frames.InboundIsFrame | collaboration/src/server.ts:119-138 | whatever is read back is the payload of a frame the message starts with |
| Commands.Editor.ApplyCollaborationCommand | collaboration/src/commands.ts:37-78 | the document changes exactly when the command replaces, and every error leaves it alone |
| Commands.OutcomeIff | collaboration/src/commands.ts:20-73 | a command replaces if and only if it keeps a non-blank id and the type, has children, and the first node with the id is the expected block and not yet the replacement; the no-op and each error have their exact condition, and a replaced node keeps its type |
| Whitespace.TrimIs | collaboration/src/commands.ts:16-18 | trimming an id takes off spaces at both ends and nothing else |
| Commands.FirstIsFirst | collaboration/src/commands.ts:54-59 | the entry found carries the id and precedes every other node that does; when none is found there is none |
| Commands.ReplaceFrame | collaboration/src/commands.ts:68-73 | removal and insertion at a path change the subtree there and nothing else: ancestors keep their fields, all other nodes stay |
| Commands.FirstAfterReplace | collaboration/src/commands.ts:53-59 | with the id put back, the replaced node is again the first match |
| Commands.SwapTouchesOneSubtree | collaboration/src/commands.ts:53-73 | a successful swap found the expected block at the first match, left the replacement there, and touched no other node |
| Commands.RetryIsNoOpIff | collaboration/src/commands.ts:60-64 | repeating a successful command is a no-op if and only if the replacement's id has no surrounding spaces |
| Commands.FirstAppliedWins | collaboration/src/commands.ts:60-67 | of several commands with one expected block exactly the first applied wins if and only if it leaves no copy of that block as the first with its id or no other competes; if its replacement's id has no surrounding spaces it leaves none, the document stays as it left it, and every different replacement is refused |
| Commands.SpacedIdLetsTwoWin | collaboration/src/commands.ts:16-18 | a document with two copies of a block in which two commands replace, the first with a space in its id |
| Figures.FirstCluster | pipeline/pipeline/parse/figures.py:240-244 | the scan stops at the first cluster within the distance |
| Figures.BuildClusters | pipeline/pipeline/parse/figures.py:236-247 | the page sets built in place are exactly the pages of each cluster's members, and membership is the first near representative |
| Figures.DropRecurring | pipeline/pipeline/parse/figures.py:227-257 | keeps, in order, exactly the figures whose cluster is on fewer pages than the threshold |
| Figures.RepsSpread | pipeline/pipeline/parse/figures.py:238-247 | representatives are pairwise more than 6 bits apart, every hash has a near one, and each represents itself |
| Figures.ClusterDiameter | pipeline/pipeline/parse/figures.py:240-241 | two members of a cluster are within 12 bits |
| Figures.ClustersInBits | pipeline/pipeline/parse/figures.py:240-247 | a hash belongs to the first representative from which it differs in at most 6 bits, and representatives differ in more than 6 |
| Figures.RecursIff | pipeline/pipeline/parse/figures.py:235-252 | a figure is dropped if and only if its cluster is on at least three pages and on at least three in ten of all pages, rounded down |
| Figures.DistanceTriangle | pipeline/pipeline/parse/figures.py:241 | the bit distance satisfies the triangle inequality |
| Figures.WholeClusters | pipeline/pipeline/parse/figures.py:249-253 | the result is a subsequence of the input and clusters are kept or dropped whole |
| Figures.RepsOfKept | pipeline/pipeline/parse/figures.py:236-253 | clustering what is kept gives exactly the kept representatives, in order |
| Figures.DroppingIsIdempotent | pipeline/pipeline/parse/figures.py:227-257 | dropping again with the same hashes and page count drops nothing |
| OcrMerge.CollectExisting | modal/marker_adapt.py:296-312 | the dictionary holds exactly the normalised texts of each page |
| OcrMerge.AcceptLines | modal/marker_adapt.py:317-334 | the loop accepts exactly the lines that clash with no known text, each accepted one becoming known |
| OcrMerge.MergeOcrLines | modal/marker_adapt.py:284-349 | the content itself when nothing is accepted, else the stable sort of content and accepted lines |
| OcrMerge.AcceptedAddText | modal/marker_adapt.py:317-334 | accepted lines are pairwise no substrings of each other nor of the page's texts |
| OcrMerge.RejectedIsCovered | modal/marker_adapt.py:324-326 | every line with text is comparable with a text the page ends up with |
| OcrMerge.StableSortSorts | modal/marker_adapt.py:342-348 | the sort is a permutation in key order that keeps the order within each key |
| OcrMerge.StableOrderIsUnique | modal/marker_adapt.py:342-348 | there is only one such order, so any stable sort gives the same list |
| OcrMerge.MergedKnown | modal/marker_adapt.py:340-349 | the texts of each flagged page afterwards are exactly those it had and the accepted ones |
| OcrMerge.MergeKeepsAndAdds | modal/marker_adapt.py:284-349 | the three promises together for the merged result of every flagged page |
| OcrMerge.MergedReadsInOrder | modal/marker_adapt.py:342-349 | the result is in order of page, items without one last, and on a page by the top of the box, an item without a box counting as at the top |
| OcrMerge.AcceptedBecomesItem | modal/marker_adapt.py:326-334 | an accepted line is in the result as an item of its page with its own text and box, and every old item is still there |
| Sse.ConsumeSSE | src/api/sse.ts:2-25 | the emitted events are those of the whole text, however it is cut into chunks |
| Sse.SplitConcat | src/api/sse.ts:13-19 | splitting can stop after any prefix, inside a separator too, and go on with what was left over |
| Sse.SplitJoins | src/api/sse.ts:14-21 | the events and the remainder put together again are the text, and each event ends at the first blank line after it starts |
| Sse.JoinSplits | src/api/sse.ts:14-21 | splitting inverts joining, so the leftmost split is the only such division |
| Sse.ChunkingDoesNotMatter | src/api/sse.ts:9-21 | two divisions of one text into chunks give the same events |

## Left out

- Yjs, slate-yjs and Slate internals: documents are two-phase sets and ordinary trees, ids are globally unique, an operation is integrated after those it depends on, and the Plate-to-Yjs round trip is the identity; normalisation after a replaced block is not modelled.
- Hocuspocus: validating and applying an inbound update is one step, and so is unloading a document with its hook.
- SQL text, pooling, Redis and HTTP: kept are the locked row step, commits whose answer is lost, and messages that may be lost, repeated and reordered. The eviction key is not modelled; compaction is given no guard beyond its own transaction.
- Several materials in `Protocol` and `Persistence.YjsDocumentStore`: one material stands for each, since no transaction of the store touches two, and a room is its epoch. Deleting a material is not modelled.
- Clients of `Protocol`: a client has one document per room name (`src/features/notes/NoteEditorCore.tsx:269-272`), so an update never carries ids of an earlier epoch into a later one unless the later epoch has them; `DurableDocuments.NothingDeletedReappears` rests on it.
- Stores of `Protocol` begin on the document that is loaded at that moment, as the collaboration library calls its hook; `DurableDocuments.ReceiptsAreDurable` rests on it, because queued receipt ids are kept by room name.
- Timers, debounce, heartbeats and wall-clock limits: nondeterministic steps. There is no liveness claim beyond the projection queue.
- Tokens, origins and secrets, read-only connections, and the length check of receipt ids: requests reach the model once they are admitted.
- Compaction candidates and the idle and size thresholds: any epoch may be compacted at any time.
- Persistence.Database.Project: revisions, flashcard statistics and content validation of the gateway appear only as a possible rejection in `Projection`; a rejected projection in `Protocol` is a lost message.
- Projection.ProjectionService.RetryPending: the rows do not change between the query and the last answer, and the gateway rejects a fixed set; stores that interleave with a pass are covered by `DurableDocuments.ProjectionShowsItsVersion`.
- Projection.Table.Pending: rows with equal `updated_at` may come in any order; the queue order is stated for distinct times.
- Limits.MeasureMaterialValue: the byte length of the serialised envelope is an input.
- Validation.AmortisedBoundIsExact: the growth per byte is of the candidate measured by the metrics; how many content bytes, nodes or levels one byte of a Yjs update can produce is not modelled.
- ShrinkOnly.SafeCommitIsExact: other replicas writing the row are not modelled; the bound is about the rooms of one replica.
- Frames.InboundYjsUpdate: only sync updates are read out, so an update inside a sync handshake reply is not measured; what happens to it is not modelled.
- Commands.Editor.ApplyCollaborationCommand: a replacement is one assignment; node fields other than id, type and children are one opaque value.
- Figures.DropRecurring: hashing and decoding of images are inputs, and `int(pages * 0.3)` is taken in exact arithmetic.
- OcrMerge.MergeOcrLines: normalisation, tag removal and lower-casing are inputs, and coordinates are exact reals.
- Sse.ConsumeSSE: chunks are decoded text; a UTF-8 sequence cut across chunks is the decoder's business.
- `drop_scan_rasters`, `select_figures`, page parsing, the job registry, spaced repetition, chat streaming and the user interface.
