# SForum plugin host: verified protocols

SForum is a forum whose backend hosts plugins. This project models the parts of the host
whose correctness rests on a protocol rather than on a single function, and proves what
each protocol keeps over every interleaving, run or input.

| file | models |
|---|---|
| StreamErrors.dfy | error chains and the private abort/incident classification of stream failures |
| StreamSession.dfy | one route stream session: terminal and cancel race through one Once |
| WebSocketBridge.dfy, WebSocketPumps.dfy | the arbitration between two pumps, and the pumps |
| StreamPumps.dfy | the HTTP request and response pumps |
| LifecyclePurge.dfy | the uninstall purge under crashes, lost acknowledgements, retries and reinstalls |
| FailureRecorder.dfy | the bounded failure queue with drain on close and admitted incidents |
| IncidentLedger.dfy | the write-once incident rows with replay detection |
| CoordinatorLaunch.dfy, GenesisRetry.dfy | launch, run and stop of the plugin runtime coordinator; the genesis wait |
| WorkerOwner.dfy, ApiSupervision.dfy, ThemeWatcher.dfy | who closes what before a failure is signalled |
| QueryInvalidator.dfy | the cache authority that replaces itself |
| DatabaseCatalog.dfy | the order-independent database catalog |
| QueryString.dfy, ReplayFingerprint.dfy, ReplayScope.dfy, ReplayStorage.dfy | replay fingerprints, actor scopes and stored authorizations |
| SessionErasure.dfy | paged erasure of plugin session state |
| QueryPolicy.dfy | the query actor's policy document |
| Ordering.dfy, Decimals.dfy, Text.dfy, Options.dfy | orders, sorting, strictly sorted listings; decimal text; white space; missing values |

## How to read the models

A concurrent protocol is a state machine: a `World`, labelled actions with `Enabled` and
`Step`, and `Run` for a finite sequence of enabled actions. One action is one critical
section, one atomic or channel operation, one wire or database call, or one transition of
a Once; any number of callers may be at any program point. A lemma about `Run` therefore
ranges over every interleaving. An inductive invariant `Inv` is kept by every step, and
the main lemmas read their claims off it or carry a further predicate along the run.
Where the source has an object whose methods change its fields, a class with those fields
stands beside the machine, each method specified by the same effect functions.

A sequential algorithm is a method with the source's loops, proved against a
specification function or directly against what it promises. Readers, sessions, listers
and writers answer from scripts that are arbitrary inputs.

Calls into other systems (PostgreSQL, Redis, gRPC, the file system, the WebSocket
connection, timers, contexts) are actions or scripted answers with a free choice of
outcome, including failure before and after the effect. Hashes and JSON documents are
kept as the values they are computed from.

## What does not hold, and exactly when it does

- A purge that dies inside the removal of the package tree can leave a tree that no retry
  accepts: the removal is not atomic, and re-inspection demands the exact digest
  (`LifecyclePurge.CrashInsideRemoval`). A fault-free retry succeeds if and only if the
  path is free or still holds the exact package (`LifecyclePurge.RetryConverges`).
- The comment at apps/api/bootstrap/plugin_session_state_privacy.go:39-41 says that a user
  with more than one page of sessions is still fully erased. The lister clamps pages to 200
  and page size to 50 (apps/api/app/Models/Identity/sessions.go:352-366), so the loop reads
  page 200 again and again and reports success. For distinct non-blank ids the erasure is
  complete if and only if there are at most 10,000 sessions, revoked ones included
  (`SessionErasure.ErasureIsCompleteIff`; `SessionErasure.OneSessionTooMany` is an input).
- Storing and loading a replay authorization is the identity if and only if no list in it
  is nil and no operation value is empty but not nil (`ReplayStorage.StoreThenLoad`); for
  other records the content is kept.
- A legacy fingerprint determines the query if and only if no key carries two different
  values (`ReplayFingerprint.LegacyPinsQueryIff`). The compatibility test admits only such
  queries; it also turns away a key repeated with equal values, which would be harmless.
- Whether the WebSocket bridge commits, and whether it reports an abort, does not depend on
  the order in which two queued results arrive; the exact error does, if and only if both
  pumps failed equally strongly with different failures
  (`WebSocketBridge.ReportedErrorDependsOnOrder`).
- A coordinator error prevents the handle if and only if it is pushed before the launcher's
  last look for one, or a later check stops the launcher anyway: the finished run, or the
  caller's context while that check is still ahead (`CoordinatorLaunch.PushedErrorIsLostIff`).
  A callback that tested readiness in time and pushes after that look is lost, and the
  handle is returned (`CoordinatorLaunch.LatePushIsLost`).
- Erasing the orphan reclaimer and its failures leaves the genesis verdict as it is, except
  that reclaiming spends the time budget (the comment at
  apps/api/bootstrap/plugin_runtime_coordinator.go:547-549 promises an unchanged budget; the
  time that reclaiming takes counts against it): a loop that ran out of time ends the same without
  the reclaimer if and only if its clock would have been past the deadline at the same check
  (`GenesisRetry.ReclaimIsErased`; `GenesisRetry.SlowReclaimCostsTheGenesis` is an input).

## Model

| member | source | states |
|---|---|---|
| `StreamErrors.ClassifyIsStable` | apps/api/app/Http/route_dispatcher_stream_v2.go:203-221 | classifying adds a Host wrapper and nothing else: no sentinel is lost or gained, a second classification is unobservable, and the disposition a chain already carried survives exactly when no listed sentinel demands another |
| `StreamErrors.ClassifyVerdict` | apps/api/app/Http/route_dispatcher_stream_v2.go:203-221 | the verdict sentinel by sentinel: drain and context end abort, budget, invalid preflight and missing terminal are their incidents, in that priority; nothing else is touched |
| `StreamErrors.ChainMeaning` | apps/api/app/Http/route_dispatcher_stream_v2.go:203-221 | a sentinel is found anywhere in an error chain; the disposition is the first one on the way down |
| `StreamErrors.AbortMeaning` | apps/api/app/Http/route_dispatcher_websocket.go:294-302 | an abort keeps its error, and an abort of nothing is a cancel |
| `StreamSession.CleanupIsExactlyOnceAndOrdered` | apps/api/app/Http/route_dispatcher_stream_v2.go:440-495 | in every interleaving the lease release, wire cancel and Done each happen at most once, the wire is cancelled only for a cancel and before the release, and Done closes only after state, cause or response and cleanup are published |
| `StreamSession.QuiescentIsSettled` | apps/api/app/Http/route_dispatcher_stream_v2.go:440-495 | once all operations returned the session is untouched or fully cleaned up: one release, one Done, one wire cancel iff cancelled |
| `StreamSession.WinnerIsFinal` | apps/api/app/Http/route_dispatcher_stream_v2.go:440-495 | the session leaves Active once; phase, response and cause never change again on any run |
| `StreamSession.EofMeansResponseForever` | apps/api/app/Http/route_dispatcher_stream_v2.go:309-363 | Recv answers EOF only when the response with the expected status is published, and it stays published |
| `StreamSession.CanceledHidesResponse` | apps/api/app/Http/route_dispatcher_stream_v2.go:343-363 | after a cancel won, no response is ever visible and no Recv answers EOF |
| `StreamSession.BegunAfterCancelReportsItsCause` | apps/api/app/Http/route_dispatcher_stream_v2.go:273-316 | an operation begun after a cancel can only answer that cancel's classified cause and never touches the wire |
| `StreamSession.CancelAnswer` | apps/api/app/Http/route_dispatcher_stream_v2.go:415-422 | whoever goes through the shared Once returns only after a winner is final, and is answered by that winner |
| `StreamSession.FailureProvenance` | apps/api/app/Http/route_dispatcher_stream_v2.go:415-427 | over every run, by sentinels: if a forced drain is the final cause the answer is an abort with the drain's sentinels; else if the Host budget is, its incident; else exactly the operation's own error, classified; a committed terminal is not rewritten |
| `StreamSession.WireFailureIsAnswered` | apps/api/app/Http/route_dispatcher_stream_v2.go:273-327 | the same from the wire call that failed, except that CloseRequest may have learnt of the expected terminal |
| `StreamSession.HostCauseBeatsTheTerminal` | apps/api/app/Http/route_dispatcher_stream_v2.go:293-304 | a failed CloseRequest under a forced drain or budget answers that cause even if the terminal has arrived |
| `StreamSession.TerminalAbsorbsTheCloseError` | apps/api/app/Http/route_dispatcher_stream_v2.go:293-306 | otherwise the expected terminal absorbs the error, and no other answer of the wire does |
| `StreamSession.BudgetReplacesTheWireCancel` | apps/api/app/Http/route_dispatcher_stream_v2.go:263-284 | a run: the budget ends the lease, the armed callback wins, the wire reports a cancel, and Send answers the budget incident |
| `StreamSession.ArmedCallbackPublishesTheLeaseCause` | apps/api/app/Http/route_dispatcher_stream_v2.go:263-271 | an armed callback that wins publishes the lease's cause with its sentinels and the disposition they demand |
| `StreamSession.CallbackFiresOnce` | apps/api/app/Http/route_dispatcher_stream_v2.go:263-271 | the armed callback runs at most once |
| `StreamSession.CancelPublishesItsCause` | apps/api/app/Http/route_dispatcher_stream_v2.go:365-373 | a Cancel with a cause that wins publishes that cause |
| `StreamSession.TerminalAnswer` | apps/api/app/Http/route_dispatcher_stream_v2.go:340-348 | a Recv that saw EOF and the expected terminal answers EOF iff the terminal won, else the classified cause of the cancel |
| `StreamSession.BegunComesToItsWire` | apps/api/app/Http/route_dispatcher_stream_v2.go:273-317 | an operation begun on a session nobody cancelled comes to its own wire call |
| `StreamSession.WireSuccessIsKept` | apps/api/app/Http/route_dispatcher_stream_v2.go:273-342 | what the wire granted is what the caller gets; EOF asks for the terminal |
| `StreamSession.EofWithoutTerminalKeepsItsFailure` | apps/api/app/Http/route_dispatcher_stream_v2.go:329-339 | an EOF with a missing terminal answers a missing-terminal incident, with a drifted one an unclassified target error, against every winner |
| `StreamSession.CloseErrorAbsorbedOnlyAfterTerminal` | apps/api/app/Http/route_dispatcher_stream_v2.go:286-307 | CloseRequest turns a wire error into success only if the wire answered a terminal with the expected status to that call |
| `StreamSession.BareCancelKeepsTheDrainCause` | apps/api/app/Http/route_dispatcher_stream_v2.go:467-485 | a cancel without cause that wins after the lease was drained publishes the drain's cause, although its own release cancels the lease |
| `StreamSession.TickDescends` | apps/api/app/Http/route_dispatcher_stream_v2.go:273-348 | each operation takes a bounded number of steps |
| `StreamSession.NoDeadlock` | apps/api/app/Http/route_dispatcher_stream_v2.go:440-495 | while some operation has not returned, some thread can move: nobody waits at the Once for a blocked owner |
| `StreamSession.EveryOperationReturns` | apps/api/app/Http/route_dispatcher_stream_v2.go:440-495 | every reachable world runs on to one in which every operation returned |
| `StreamSession.UninterruptedCallIsTheMethod` | apps/api/app/Http/route_dispatcher_stream_v2.go:440-495 | the labelled steps of one uninterrupted Once body add up to the effect of the object's method |
| `StreamSession.RouteV2StreamSession.constructor` | apps/api/app/Http/route_dispatcher_stream_v2.go:252-261 | a new session is active with nothing published or released |
| `StreamSession.RouteV2StreamSession.CompleteTerminal` | apps/api/app/Http/route_dispatcher_stream_v2.go:441-465 | the first claim publishes the response, releases, closes Done and answers true; a later call changes nothing and answers whether the terminal won |
| `StreamSession.RouteV2StreamSession.CompleteCancel` | apps/api/app/Http/route_dispatcher_stream_v2.go:468-495 | the first claim publishes the captured cause, cancels the wire, releases and closes Done; a later call changes nothing |
| `StreamSession.RouteV2StreamSession.CompleteOperationFailure` | apps/api/app/Http/route_dispatcher_stream_v2.go:415-422 | answers by sentinels as above: drain, budget, else the classified own error; leaves a decided session alone |
| `StreamSession.RouteV2StreamSession.GetResponse` | apps/api/app/Http/route_dispatcher_stream_v2.go:350-363 | a response only in the terminal state, then of the expected status and after one release, one Done and no wire cancel |
| `WebSocketBridge.PumpFailureVerdict` | apps/api/app/Http/route_dispatcher_websocket.go:92-107 | what is reported for a pump, by its error's sentinels and disposition: classified as is, missing or EOF an aborted transport, budget its incident, drain and context end an abort, and a runtime failure unclassified with its own sentinels |
| `WebSocketBridge.NormalizeMeaning` | apps/api/app/Http/route_dispatcher_websocket.go:253-262 | a result out of order becomes an abort, a failed one carries what is reported for it, a normal one stays |
| `WebSocketBridge.QueuedOutcome` | apps/api/app/Http/route_dispatcher_websocket.go:264-278 | both queued: which pump's failure is reported, from the two errors alone; equally strong failures yield the first |
| `WebSocketBridge.RuntimeCrashIsReported` | apps/api/app/Http/route_dispatcher_websocket.go:192-242 | over every run: a runtime failure the response pump posted before the decision is the single outcome, unclassified with its own sentinels, unless the request side failed by something not an abort |
| `WebSocketBridge.AbortMeansOnlyAborts` | apps/api/app/Http/route_dispatcher_websocket.go:192-242 | over every run without a normal response: the outcome is an abort iff every failure seen is; a half-closed request alone is a missing terminal |
| `WebSocketBridge.OutcomeIsChosen` | apps/api/app/Http/route_dispatcher_websocket.go:192-242 | the single outcome of a run is the arbitration's choice for what was seen |
| `WebSocketBridge.ArbitrationIgnoresArrivalOrder` | apps/api/app/Http/route_dispatcher_websocket.go:207-278 | with both results queued, in either order: complete iff the response pump ended normally; otherwise an abort is reported iff every failing pump's own error, by its sentinels, is an abort |
| `WebSocketBridge.ReportedErrorDependsOnOrder` | apps/api/app/Http/route_dispatcher_websocket.go:264-273 | the exact error depends on arrival order iff both pumps failed, equally strongly, with different failures |
| `WebSocketBridge.BridgeConsumesBothAndCompletesOnlyOnResponse` | apps/api/app/Http/route_dispatcher_websocket.go:180-242 | in every interleaving with the timer exactly two results are consumed before the bridge returns, and it completes only on a normal response result |
| `WebSocketBridge.SeenWasConsumed` | apps/api/app/Http/route_dispatcher_websocket.go:180-242 | what the bridge had seen at its decision is the beginning of the two results it consumes, one per pump |
| `WebSocketBridge.ReportPrecedesTeardown` | apps/api/app/Http/route_dispatcher_websocket.go:192-204 | nothing is cancelled, closed or drained before the outcome is reported |
| `WebSocketBridge.BridgeWaitsOnlyForPumps` | apps/api/app/Http/route_dispatcher_websocket.go:207-242 | the bridge can only be waiting for a pump that has not ended, and each of its steps brings it nearer to its return |
| `WebSocketPumps.PumpRequests` | apps/api/app/Http/route_dispatcher_websocket.go:304-335 | data messages become chunks one by one; the request is closed iff the peer closed normally and every chunk was accepted; normal iff that close succeeded |
| `WebSocketPumps.PumpResponses` | apps/api/app/Http/route_dispatcher_websocket.go:342-393 | chunks become messages one by one; normal iff everything was written, the terminal switched protocols and the close frame went out |
| `WebSocketPumps.QueuedCommitsOnlyOnUpgrade` | apps/api/app/Http/route_dispatcher_websocket.go:207-393 | both results queued, in either order: the arbitration completes iff every chunk was written and the close frame sent after a 101 terminal |
| `WebSocketPumps.BridgeCommitsOnlyOnUpgrade` | apps/api/app/Http/route_dispatcher_websocket.go:180-393 | in every interleaving with the timer: the dispatch commits iff the response pump had posted before the decision, every chunk was written and the close frame sent after a 101 terminal |
| `StreamPumps.PumpRequest` | apps/api/app/Http/route_dispatcher.go:491-516 | chunks are non-empty and within the limit and concatenate to the reader's bytes; CloseRequest once iff the reader ended and every chunk was accepted; otherwise a prefix and the exact error |
| `StreamPumps.PumpLoop` | apps/api/app/Http/route_dispatcher.go:498-515 | the same for a reader and a session that are there: bytes conserved in bounded non-empty chunks, one close, the exact verdict |
| `StreamPumps.StreamResponse` | apps/api/app/Http/route_dispatcher.go:518-554 | writes a prefix in order, all unless the writer broke; then one outcome: committed iff no write broke and the first receive error is an EOF with a response, missing terminal iff without, failed by exactly the first other error, aborted iff by the writer; then cancels |
| `StreamPumps.StreamUntilOutcome` | apps/api/app/Http/route_dispatcher.go:529-553 | the same for the loop before the deferred cancel |
| `LifecyclePurge.PurgeIsAllOrNothing` | apps/api/bootstrap/extension_lifecycle_cleanup.go:45-103 | over every run with crashes and lost acknowledgements: bindings, grants, mail selection and row go in one step, after the package path is gone; success is answered only then, and only by an attempt that itself saw the path free |
| `LifecyclePurge.OccupiedPathIsRefused` | apps/api/bootstrap/extension_lifecycle_cleanup.go:58-69 | an attempt without an identity row that inspects an occupied path touches nothing and ends failed or crashed on every continuation, reinstalls included; without a fault in a conflict |
| `LifecyclePurge.NoRowSuccessInspectedAFreePath` | apps/api/bootstrap/extension_lifecycle_cleanup.go:58-69 | with reinstalls: an attempt that found no row succeeds only after its own inspection of a free path |
| `LifecyclePurge.SuccessSawTheFreePath` | apps/api/bootstrap/extension_lifecycle_cleanup.go:58-102 | every success of every run was preceded by that attempt seeing the path free |
| `LifecyclePurge.NothingBeforeTheRuntimeIsGone` | apps/api/bootstrap/extension_lifecycle_cleanup.go:70-93 | no attempt disposes, removes or succeeds without having been told that the runtime instance is gone |
| `LifecyclePurge.RefusalsTouchNothing` | apps/api/bootstrap/extension_lifecycle_cleanup.go:70-93 | a runtime still there or a disposition not asked for is a conflict that touches no row and no file |
| `LifecyclePurge.RemovesOnlyTheExactPackage` | apps/api/bootstrap/extension_lifecycle_cleanup_package.go:65-80 | a removal begins only on a tree with exactly the retained digest, and nothing else changes the tree |
| `LifecyclePurge.LostAcknowledgementsAreFailures` | apps/api/bootstrap/extension_lifecycle_cleanup.go:87-101 | a lost acknowledgement is a failure, neither success nor conflict, with its effect in place |
| `LifecyclePurge.FaultsChangeNothing` | apps/api/bootstrap/extension_lifecycle_cleanup.go:52-101 | a failed effect is a failure that changes nothing |
| `LifecyclePurge.AcceptedDispositions` | apps/api/bootstrap/extension_lifecycle_cleanup.go:160-213 | an accepted disposition is for exactly this request, proven by its own hash, with the outcome its mode allows |
| `LifecyclePurge.PurgeReceiptBinds` | apps/api/bootstrap/extension_lifecycle_cleanup.go:215-263 | equal purge receipts come from equal requests, receipt ids, proof digests and proofs |
| `LifecyclePurge.RetryConverges` | apps/api/bootstrap/extension_lifecycle_cleanup.go:45-103 | a fault-free retry ends purged iff the path is free or holds the exact package, otherwise in a conflict |
| `LifecyclePurge.FreshRetryOutcome` | apps/api/bootstrap/extension_lifecycle_cleanup.go:45-103 | the same for a new attempt after any run in which no attempt is alive |
| `LifecyclePurge.RetryEnds` | apps/api/bootstrap/extension_lifecycle_cleanup.go:45-103 | such a retry always reaches its end |
| `LifecyclePurge.CrashInsideRemoval` | apps/api/bootstrap/extension_lifecycle_cleanup_package.go:65-88 | a run in which the process dies inside the tree removal and leaves a tree that no retry accepts |
| `LifecyclePurge.AttemptsTouchOnlyTheRetained` | apps/api/bootstrap/extension_lifecycle_cleanup_postgres.go:109-148 | an attempt changes rows or files only while the exact retained row is there |
| `LifecyclePurge.RetainedStaysGone` | apps/api/bootstrap/extension_lifecycle_cleanup.go:66-69 | the retained row does not come back, whatever is reinstalled |
| `LifecyclePurge.ReinstallIsNeverPurged` | apps/api/bootstrap/extension_lifecycle_cleanup.go:66-102 | once the retained row is gone, rows and files are exactly what the rest of the system last wrote: no attempt deletes a reinstall |
| `LifecyclePurge.ReceiptsAgree` | apps/api/bootstrap/extension_lifecycle_cleanup.go:215-263 | all successful attempts answer one receipt, the one that binds the first disposition, which is a valid one |
| `LifecyclePurge.CleanupIdentity.LockExactExtension` | apps/api/bootstrap/extension_lifecycle_cleanup_postgres.go:109-148 | present iff the row is exactly the retained artifact; absent row is no conflict; any other row is |
| `LifecyclePurge.CleanupIdentity.CommitPurge` | apps/api/bootstrap/extension_lifecycle_cleanup_postgres.go:150-198 | all five statements become visible together or none does, also when the commit is not acknowledged; an identity is finished once |
| `LifecyclePurge.CleanupIdentity.Rollback` | apps/api/bootstrap/extension_lifecycle_cleanup_postgres.go:200-206 | finishes the identity and changes no row |
| `FailureRecorder.EveryAcceptedEventIsAccounted` | apps/api/app/Http/route_failure_recorder.go:83-132 | accepted = attempted + in hand + queued + dropped, each queued event attempted once and in order |
| `FailureRecorder.ClosedDoorStaysShut` | apps/api/app/Http/route_failure_recorder.go:83-143 | after closed is set nothing is enqueued or dropped and no incident begins |
| `FailureRecorder.CloseNilMeansDrained` | apps/api/app/Http/route_failure_recorder.go:265-309 | Close answering nil: empty queue, all attempted, drain gone, no incident in flight, and it stays so |
| `FailureRecorder.DrainTerminates` | apps/api/app/Http/route_failure_recorder.go:292-309 | once shut, the drain never blocks and ends |
| `FailureRecorder.CloseIsNotDeadlocked` | apps/api/app/Http/route_failure_recorder.go:265-290 | whenever the waiter of Close cannot move, the drain or an admitted incident can |
| `FailureRecorder.IncidentLifecycle` | apps/api/app/Http/route_failure_recorder.go:135-183 | every incident that ended was refused at a closed door, or persisted or not, quarantined once either way, resolved iff persisted, and counted out, in this order |
| `FailureRecorder.RecordLifecycle` | apps/api/app/Http/route_failure_recorder.go:102-121 | every ordinary event reached the queue exactly once unless the door was closed |
| `FailureRecorder.DroppedOnlyWhenFull` | apps/api/app/Http/route_failure_recorder.go:111-121 | at the queue an event is appended while there is room and dropped only when it is full |
| `FailureRecorder.CloseShutsTheDoor` | apps/api/app/Http/route_failure_recorder.go:265-275 | a Close shuts the door before it goes on |
| `FailureRecorder.RouteFailureRecorder.Record` | apps/api/app/Http/route_failure_recorder.go:83-132 | refused, appended or counted as dropped, by the closed flag and the room left |
| `FailureRecorder.RouteFailureRecorder.BeginRuntimeIncident` | apps/api/app/Http/route_failure_recorder.go:135-143 | admitted iff open, and then counted |
| `FailureRecorder.RouteFailureRecorder.Shut` | apps/api/app/Http/route_failure_recorder.go:265-275 | closes the door, idempotently |
| `FailureRecorder.RouteFailureRecorder.DrainAll` | apps/api/app/Http/route_failure_recorder.go:292-309 | attempts the whole queue in order |
| `IncidentLedger.ScanInvertsInsert` | apps/api/app/Http/route_runtime_incident_store.go:248-283 | inserting and scanning is the identity iff the evidence is storable, which valid evidence is |
| `IncidentLedger.AcceptedEvidence` | apps/api/app/Http/route_runtime_incident_store.go:284-319 | evidence is accepted iff execution was observed, numbers and names fit, and it is a stream incident before the commit or a response incident after it |
| `IncidentLedger.ContractIff` | apps/api/app/Http/route_runtime_incident_store.go:83-85 | a contract is a name and a positive decimal version joined by one at-sign |
| `IncidentLedger.CreationMeaning` | apps/api/app/Http/route_runtime_incident_store.go:95-195 | a new key: invalid without the exact installed version, else its pending record with row and audit event together, also when only the acknowledgement is lost |
| `IncidentLedger.UpdateMeaning` | apps/api/app/Http/route_runtime_incident_store.go:197-246 | a bad key or result is refused; a pending row takes the result for good, acknowledged or not; any other row is left alone |
| `IncidentLedger.LedgerIsWriteOnce` | apps/api/app/Http/route_runtime_incident_store.go:95-246 | over any run: no row is lost, evidence never changes, a result leaves pending at most once, rows and audit events match one to one |
| `IncidentLedger.ReplayAcceptedIffEqual` | apps/api/app/Http/route_runtime_incident_store.go:95-195 | a later creation of a recorded key is accepted iff its evidence is equal, conflicts iff it is valid and different, and writes nothing |
| `IncidentLedger.LostCreationIsReplayed` | apps/api/app/Http/route_runtime_incident_store.go:95-195 | a creation whose acknowledgement was lost is recovered by repeating it |
| `IncidentLedger.ResolutionIsFinal` | apps/api/app/Http/route_runtime_incident_store.go:197-246 | a successful Resolve holds for good, so any two agree |
| `IncidentLedger.ResolveConflictMeaning` | apps/api/app/Http/route_runtime_incident_store.go:197-246 | the second statement: success iff the same result was read, conflict iff another, not found iff no row, unavailable iff it failed; a pending one is read only if the row appeared between the statements |
| `IncidentLedger.RouteRuntimeIncidentStore.Create` | apps/api/app/Http/route_runtime_incident_store.go:95-195 | answer and new rows are those of the ledger specification, for every fault |
| `IncidentLedger.RouteRuntimeIncidentStore.Resolve` | apps/api/app/Http/route_runtime_incident_store.go:197-246 | resolves a pending row once; invalid, missing, equal and different results are told apart |
| `CoordinatorLaunch.GenesisComesFirst` | apps/api/bootstrap/plugin_runtime_coordinator.go:242-370 | builder, runner and callbacks never start before a valid genesis |
| `CoordinatorLaunch.ErrorReturnLeavesNoOrphan` | apps/api/bootstrap/plugin_runtime_coordinator.go:242-370 | every error return leaves the runner unstarted, finished or told to stop |
| `CoordinatorLaunch.EarlyErrorMeansNoHandle` | apps/api/bootstrap/plugin_runtime_coordinator.go:242-370 | an error pushed before the launcher's last look, before or after readiness, means no handle is ever returned |
| `CoordinatorLaunch.PushedErrorIsLostIff` | apps/api/bootstrap/plugin_runtime_coordinator.go:292-352 | after a push some continuation returns a handle iff it was returned already, or only the finished-run check is left and the run goes on, or that and the context check are left and both pass |
| `CoordinatorLaunch.LatePushIsLost` | apps/api/bootstrap/plugin_runtime_coordinator.go:242-370 | a run in which a callback tested readiness in time, pushed too late, and the handle is returned |
| `CoordinatorLaunch.HandleIsReturnedAlive` | apps/api/bootstrap/plugin_runtime_coordinator.go:242-370 | a handle is returned only ready, unstopped, with the run going on and no error pushed in time |
| `CoordinatorLaunch.DoneContextMeansNoHandle` | apps/api/bootstrap/plugin_runtime_coordinator.go:331-352 | a caller's context that is done before the launcher checked it means no handle is ever returned |
| `CoordinatorLaunch.ErrorTellsTheTruth` | apps/api/bootstrap/plugin_runtime_coordinator.go:242-370 | an error return is justified: no valid genesis, a failed builder, a finished run, or an abort for an error that was pushed, a deadline that passed, or a caller that was gone |
| `CoordinatorLaunch.FirstErrorIsReported` | apps/api/bootstrap/plugin_runtime_coordinator.go:292-300 | the first error in the channel is the one an abort reports, and no handle is returned |
| `CoordinatorLaunch.AbortKeepsItsCause` | apps/api/bootstrap/plugin_runtime_coordinator.go:311-322 | an aborted launch returns the cause it was aborted for, however stopping goes |
| `CoordinatorLaunch.NothingStartsInVain` | apps/api/bootstrap/plugin_runtime_coordinator.go:254-309 | a caller gone before the builder means nothing is built or run; a failed builder means nothing is run |
| `CoordinatorLaunch.LateCallbacksAreIgnored` | apps/api/bootstrap/plugin_runtime_coordinator.go:283-300 | a callback after stopping, and an error after readiness, do nothing |
| `CoordinatorLaunch.ReadyIsClosedOnce` | apps/api/bootstrap/plugin_runtime_coordinator.go:283-291 | the readiness channel is closed at most once |
| `CoordinatorLaunch.LauncherReturns` | apps/api/bootstrap/plugin_runtime_coordinator.go:242-370 | the launcher always has a step of its own until it has returned |
| `CoordinatorLaunch.LauncherDescends` | apps/api/bootstrap/plugin_runtime_coordinator.go:242-370 | each of its steps brings it nearer to its return |
| `CoordinatorLaunch.AtMostOneFailureInOrder` | apps/api/bootstrap/plugin_runtime_coordinator.go:380-396 | at most one failure, equal to Err and after it; Done closes last; exactly one if never stopped |
| `CoordinatorLaunch.StoppedRunIsSilent` | apps/api/bootstrap/plugin_runtime_coordinator.go:380-419 | no failure if stopping was set before the runner came to deliver |
| `CoordinatorLaunch.NothingAfterClose` | apps/api/bootstrap/plugin_runtime_coordinator.go:380-396 | nothing is sent and Err does not change after the failure channel closed |
| `CoordinatorLaunch.RunnerNeverBlocks` | apps/api/bootstrap/plugin_runtime_coordinator.go:380-396 | once the coordinator returned, the runner always reaches its end |
| `GenesisRetry.CallsAreBounded` | apps/api/bootstrap/plugin_runtime_coordinator.go:513-579 | at most ceil(remaining/interval) + 1 ensure calls for any clock that advances at least each requested wait |
| `GenesisRetry.VerdictIsTheLastAnswer` | apps/api/bootstrap/plugin_runtime_coordinator.go:513-579 | only an in-progress answer is retried; accepted iff the last answer was an exact publication, refused when it was not exact, failed on any other error |
| `GenesisRetry.ReclaimIsErased` | apps/api/bootstrap/plugin_runtime_coordinator.go:513-579 | the loop without the reclaimer and its failures ends the same, calls included, iff the loop did not run out of time or would have at the same check without the time reclaiming took; it never makes fewer calls |
| `GenesisRetry.FasterChangesOnlyTimeouts` | apps/api/bootstrap/plugin_runtime_coordinator.go:513-579 | any saved time leaves verdict and calls as they are, unless the loop had run out of time or was cancelled |
| `GenesisRetry.FasterAfterTimeout` | apps/api/bootstrap/plugin_runtime_coordinator.go:513-579 | after a timeout the faster loop makes at least as many calls, and ends the same iff its clock is past the deadline at the same check |
| `GenesisRetry.SameAnswersSameVerdict` | apps/api/bootstrap/plugin_runtime_coordinator.go:513-579 | two loops that saw the same sequence of answers reach the same verdict |
| `GenesisRetry.SlowReclaimCostsTheGenesis` | apps/api/bootstrap/plugin_runtime_coordinator.go:545-558 | a world in which one slow reclaim turns an acceptance into a timeout |
| `GenesisRetry.EnsureGenesis` | apps/api/bootstrap/plugin_runtime_coordinator.go:483-579 | the loop computes that verdict within 30 s and in steps of 200 ms by default, and no requested wait passes the deadline |
| `WorkerOwner.CloseBeforeSignal` | apps/api/bootstrap/worker.go:221-288 | a worker failure shows only after the runtime's Close returned; the gateway closes after that; each at most once |
| `WorkerOwner.CloseReturnsClosed` | apps/api/bootstrap/worker.go:273-288 | any Close that returns finds everything closed |
| `WorkerOwner.EveryCloseReturnsClosed` | apps/api/bootstrap/worker.go:273-288 | over every run, a Close that was begun returns only with coordinator stopped, runtime and gateway closed |
| `WorkerOwner.FailureIsDelivered` | apps/api/bootstrap/worker.go:221-231 | when the monitor has returned, the failure channel is closed and carried exactly the coordinator's failure, if there was one |
| `WorkerOwner.NoDeadlock` | apps/api/bootstrap/worker.go:221-288 | while some thread waits, one that does not wait can move |
| `WorkerOwner.TickDescends` | apps/api/bootstrap/worker.go:221-288 | every thread ends after a bounded number of steps |
| `ApiSupervision.RuntimeClosesBeforeFailureShows` | apps/api/bootstrap/api_plugin_runtime_coordinator.go:11-33 | a forwarded failure is visible only after the runtime was closed; at most one; channels close in order |
| `ApiSupervision.FailureIsForwarded` | apps/api/bootstrap/api_plugin_runtime_coordinator.go:11-33 | the supervisor ends in a bounded number of steps, having forwarded exactly the coordinator's failure after one close, or nothing |
| `ApiSupervision.MergeKeepsTheFirstFailure` | apps/api/bootstrap/api_plugin_runtime_coordinator.go:35-71 | from the start: if some source fails at any time, stop is never called and all forwarders are done, then some failure was sent; every value sent was some source's failure |
| `ApiSupervision.NoSendAfterClose` | apps/api/bootstrap/api_plugin_runtime_coordinator.go:35-71 | no send after close, and close only after every forwarder left |
| `ApiSupervision.ForwardersFinish` | apps/api/bootstrap/api_plugin_runtime_coordinator.go:50-65 | a forwarder with a failure can send, or leave because of a cancel, or the sender that filled the slot is about to cancel, which frees it; it never depends on a consumer |
| `ApiSupervision.ForwarderDescends` | apps/api/bootstrap/api_plugin_runtime_coordinator.go:50-65 | every step of a forwarder brings it nearer to its end |
| `ApiSupervision.StopFreesEveryForwarder` | apps/api/bootstrap/api_plugin_runtime_coordinator.go:45-71 | after stop every forwarder that is not done can move |
| `ThemeWatcher.FallbackBeforeFailure` | apps/api/bootstrap/theme_runtime_watcher.go:172-196 | a failure is delivered at most once, after the fallback ran and after Err; channels close in order |
| `ThemeWatcher.LaunchLeavesNoOrphan` | apps/api/bootstrap/theme_runtime_watcher.go:107-170 | an error return leaves the watcher unstarted, finished or told to stop |
| `ThemeWatcher.HandleIsReturnedAlive` | apps/api/bootstrap/theme_runtime_watcher.go:107-170 | a handle is returned only while no failure was reported and the run goes on |
| `ThemeWatcher.StoppedRunIsSilent` | apps/api/bootstrap/theme_runtime_watcher.go:172-196 | a run told to stop before it came to the fallback neither restores the theme nor reports a failure |
| `ThemeWatcher.DoneContextMeansNoHandle` | apps/api/bootstrap/theme_runtime_watcher.go:107-170 | a caller's context that is done before the launcher checked it means no handle |
| `ThemeWatcher.FailedBuildStartsNothing` | apps/api/bootstrap/theme_runtime_watcher.go:107-170 | a watcher that cannot be built is never run |
| `ThemeWatcher.LastLookDecides` | apps/api/bootstrap/theme_runtime_watcher.go:107-170 | the last look returns a handle iff no failure is there and the run is not over |
| `ThemeWatcher.HandleCanBeReturned` | apps/api/bootstrap/theme_runtime_watcher.go:107-170 | a run that returns a handle |
| `ThemeWatcher.LauncherDescends` | apps/api/bootstrap/theme_runtime_watcher.go:107-170 | each launcher step brings it nearer to its return |
| `ThemeWatcher.LauncherMoves` | apps/api/bootstrap/theme_runtime_watcher.go:107-170 | the launcher has a step unless it still waits for readiness, a failure or its caller |
| `QueryInvalidator.AuthorityIsLinear` | apps/api/bootstrap/query_registry_cache.go:300-369 | over any interleaving at most one authority is live, none is closed twice or used after close, and the factory is not called after Close |
| `QueryInvalidator.CreatedAreAccounted` | apps/api/bootstrap/query_registry_cache.go:300-369 | created = closed + current + pending close |
| `QueryInvalidator.ReplacementPolicy` | apps/api/bootstrap/query_registry_cache.go:300-351 | an input error keeps the authority; any other failure closes it and the next call uses a fresh one |
| `QueryInvalidator.AnswerMeaning` | apps/api/bootstrap/query_registry_cache.go:300-351 | each answer by its exact condition; a refused call changes nothing and a partially built authority is closed at once |
| `QueryInvalidator.RecoveringQueryInvalidator.InvalidateOwnerTags` | apps/api/bootstrap/query_registry_cache.go:300-351 | answer, state and log are those of the specification, and the invariant is kept |
| `QueryInvalidator.RecoveringQueryInvalidator.Close` | apps/api/bootstrap/query_registry_cache.go:353-369 | detaches and closes the current authority once |
| `DatabaseCatalog.LoadCatalog` | apps/api/bootstrap/extension_database_catalog.go:132-186 | the two loops compute the catalog or the failure of the specification |
| `DatabaseCatalog.LoadMeaning` | apps/api/bootstrap/extension_database_catalog.go:132-247 | success iff no two listed artifacts of one key differ and every one is acceptable by its manifest's own fields; then each comes once, by id, version and digest, and the catalog is, artifact by artifact, one definition per operation with its key, text and schema, and nothing else |
| `DatabaseCatalog.AppendsIff` | apps/api/bootstrap/extension_database_catalog.go:188-247 | an artifact is accepted iff its manifest is valid, v3, of its own identity and type with own_schema, and every operation has its exact file, readable text, known kind and well-formed schema |
| `DatabaseCatalog.FitsSchemaIff` | apps/api/bootstrap/extension_database_catalog.go:315-328 | a schema reference splits iff it is empty or an id and a positive decimal version joined by an at-sign |
| `DatabaseCatalog.OfKindMeaning` | apps/api/bootstrap/extension_database_catalog.go:225-244 | the operations of a kind are exactly those, and the kinds are all there are |
| `DatabaseCatalog.CatalogDependsOnArtifactsOnly` | apps/api/bootstrap/extension_database_catalog.go:132-186 | success and catalog are a function of the set of exact artifacts |
| `DatabaseCatalog.PermutationInvariant` | apps/api/bootstrap/extension_database_catalog.go:132-186 | any permutation of the extensions gives the same answer |
| `DatabaseCatalog.StartingPresentArtifactChangesNothing` | apps/api/bootstrap/extension_database_catalog.go:105-127 | publishing with a starting artifact that is already listed gives the catalog of the listing |
| `DatabaseCatalog.ConflictsAlwaysFail` | apps/api/bootstrap/extension_database_catalog.go:160-176 | two different snapshots of one exact artifact always fail |
| `DatabaseCatalog.DefinitionsMirrorOperations` | apps/api/bootstrap/extension_database_catalog.go:188-247 | an accepted artifact yields one definition per operation, in declared order within its kind, with its own key, text and schema |
| `DatabaseCatalog.SchemaRefRoundTrip` | apps/api/bootstrap/extension_database_catalog.go:315-328 | a reference splits into (id, version) iff it is their join, with a non-empty id and a positive decimal version |
| `QueryString.EscapeRoundTrip` | apps/api/app/Http/route_idempotency.go:201-207 | escaping is undone by unescaping and yields no separator |
| `QueryString.GroupEqualIff` | apps/api/app/Http/route_idempotency.go:201-207 | two parsed queries are equal iff every key has the same values in the same order |
| `QueryString.EncodeRoundTrip` | apps/api/app/Http/route_idempotency.go:201-207 | parsing an encoded query gives back exactly the value lists |
| `QueryString.EscapeIsByByte` | apps/api/app/Http/route_idempotency.go:201-207 | unreserved bytes stay, a blank is a plus, any other is a percent sign and two capital hexadecimal digits |
| `QueryString.ParseIsBySegment` | apps/api/app/Http/route_idempotency.go:201-207 | a query parses segment by segment, and an error in any is an error |
| `QueryString.ParseSegment` | apps/api/app/Http/route_idempotency.go:201-207 | a segment is nothing, an error for a semicolon or a bad escape, or the pair around its first equals sign |
| `QueryString.UnescapeReadsOn` | apps/api/app/Http/route_idempotency.go:201-207 | a plus is a blank and every byte but the percent sign is itself |
| `QueryString.PercentIsAByte` | apps/api/app/Http/route_idempotency.go:201-207 | a percent sign needs two hexadecimal digits and is their byte |
| `ReplayFingerprint.CanonicalEqualIff` | apps/api/app/Http/route_idempotency.go:201-207 | canonical queries are equal iff the parsed value lists are |
| `ReplayFingerprint.CanonicalIsFaithful` | apps/api/app/Http/route_idempotency.go:201-207 | the canonical query parses to the same lists and is its own canonical form |
| `ReplayFingerprint.LegacyEqualIff` | apps/api/app/Http/route_idempotency.go:235-244 | legacy queries are equal iff every key has the same values in any order |
| `ReplayFingerprint.SortEachList` | apps/api/app/Http/route_idempotency.go:235-244 | every value list ends sorted, with the same values |
| `ReplayFingerprint.IsLegacyCompatible` | apps/api/app/Http/route_idempotency.go:246-260 | true iff the chain has one step, the query parses and no key repeats |
| `ReplayFingerprint.LegacyPinsQueryIff` | apps/api/app/Http/route_idempotency.go:235-260 | the legacy form determines the query iff no key carries two different values; compatible queries are such |
| `ReplayFingerprint.FingerprintEqualIff` | apps/api/app/Http/route_idempotency.go:162-199 | equal fingerprint documents iff equal method, path, parsed query, content type, body and plan binding |
| `ReplayFingerprint.FingerprintedIff` | apps/api/app/Http/route_idempotency.go:162-199 | a request has fingerprints iff its query parses, it names at most one well-formed media type and the plan binds |
| `ReplayFingerprint.LegacyFingerprintEqualIff` | apps/api/app/Http/route_idempotency.go:209-244 | legacy documents are equal iff method, path, body and media type are and every key has the same values in any order |
| `ReplayFingerprint.CompatibleLegacyIsExact` | apps/api/app/Http/route_idempotency.go:209-260 | for a compatible new request a legacy match implies the same request |
| `ReplayFingerprint.IncompatibleLegacyMayMislead` | apps/api/app/Http/route_idempotency.go:209-260 | for every query with two different values of one key, another request has the same legacy document and a different fingerprint |
| `ReplayScope.ScopeEqualIff` | apps/api/app/Http/route_idempotency.go:143-160 | a caller is refused or gets a scope, and two accepted callers share one iff they are the same actor by the same credential or the same anonymous address |
| `Decimals.DecimalValue` | apps/api/app/Http/route_idempotency.go:143-150 | the decimal form of an actor id is digits that read back as that id |
| `ReplayStorage.ForStorage` | apps/api/app/Http/route_idempotency.go:262-284 | keeps the transcript and normalizes nil and empty slices |
| `ReplayStorage.FromStored` | apps/api/app/Http/route_idempotency.go:286-309 | keeps the transcript and normalizes nil and empty slices |
| `ReplayStorage.StoreThenLoad` | apps/api/app/Http/route_idempotency.go:262-309 | storing then loading is the identity iff no list is nil and no value is empty but not nil |
| `ReplayStorage.LoadThenStore` | apps/api/app/Http/route_idempotency.go:262-309 | loading then storing writes back the stored record iff it has the shape that storing produces; the transcript is kept for every record |
| `SessionErasure.Erase` | apps/api/bootstrap/plugin_session_state_privacy.go:44-91 | ends; succeeds iff wired, the id is valid and every call succeeded; every reached id is invalidated once, with exact counts |
| `SessionErasure.ValidUserMeaning` | apps/api/bootstrap/plugin_session_state_privacy.go:50-54 | an accepted user id is, trimmed, an optional plus sign and digits of a positive 64-bit value |
| `Text.TrimMeaning` | apps/api/bootstrap/plugin_session_state_privacy.go:66-70 | trimming takes white space off both ends and nothing else |
| `SessionErasure.ErasePages` | apps/api/bootstrap/plugin_session_state_privacy.go:58-90 | the paging loop: termination, no page too many, exact counts |
| `SessionErasure.ErasePage` | apps/api/bootstrap/plugin_session_state_privacy.go:66-82 | one page: each id not seen before is invalidated once; a failure leaves a prefix |
| `SessionErasure.DistinctMeaning` | apps/api/bootstrap/plugin_session_state_privacy.go:66-75 | the invalidated ids are exactly the distinct non-blank trimmed ids |
| `SessionErasure.ErasureIsCompleteIff` | apps/api/bootstrap/plugin_session_state_privacy.go:39-90 | for proper ids success reaches every session iff there are at most 10,000 of them |
| `SessionErasure.OneSessionTooMany` | apps/api/bootstrap/plugin_session_state_privacy.go:39-90 | 10,001 proper ids of which a successful erasure leaves one |
| `QueryPolicy.Compact` | apps/api/bootstrap/query_registry.go:152-161 | in place: the kept prefix is strictly increasing with the same elements |
| `QueryPolicy.SortedUnique` | apps/api/bootstrap/query_registry.go:146-161 | the result is the strictly increasing listing of the input's elements; the input is not changed |
| `Ordering.LessMeaning` | apps/api/bootstrap/query_registry.go:146-148 | the order of strings: a proper prefix first, else by the first character that differs |
| `QueryPolicy.PolicyOf` | apps/api/bootstrap/query_registry.go:101-135 | roles and allowed permissions as strictly increasing lists, whatever the map order |
| `QueryPolicy.DocumentsEqualIff` | apps/api/bootstrap/query_registry.go:101-135 | two documents are equal iff status, role set and allowed-permission set are |

## Left out

- LifecyclePurge: the validation of the request, of the retention marker and of the finished uninstall operation row, and the confinement of the package path to its root, are not modelled; they only add ways to answer a conflict before any effect.
- LifecyclePurge: nobody else writes the package path or the rows of the extension while the exact retained row is there; the source relies on this between re-inspection and removal.
- LifecyclePurge: the database disposition is idempotent (it repeats its first receipt), as its contract says; its inside is not part of this model.
- LifecyclePurge: the directory walk that computes the package digest is one step, and no reader of a half-removed tree other than a later attempt is modelled.
- StreamSession: sessions without a stream or a lease, nil receivers and the lazily made Done channel of a zero session are left out: they answer a constant.
- StreamSession: opening a stream, its preflight and the outer lifetime wrapper with the Host budget timer are left out; a budget or drain enters as the cause of the lease context.
- WebSocketBridge: the upgrade handshake, header and subprotocol checks are left out, settled branch by branch.
- WebSocketBridge: the grace timer is an action that may fire at any time; a non-positive timeout is the run in which it fires at once.
- StreamPumps: readers, sessions and writers answer from finite scripts, so a peer that never ends is outside; every finite prefix of it is covered.
- FailureRecorder: which events need a quarantine, their audit metadata and time bounds of the audit writer are left out.
- FailureRecorder.RouteFailureRecorder.Record: one uninterrupted call; the interleavings are in the state machine of the same module.
- IncidentLedger: JSON audit metadata is kept as the columns it is built from; random keys are inputs.
- CoordinatorLaunch: the coordinator, the builder, the theme watcher's runner, the worker owner and the API supervisor are modelled on values as step machines and not as heap objects, so aliasing of handles is not captured.
- CoordinatorLaunch: inactive handles, Safe Mode and timeout defaults are left out.
- GenesisRetry: the clock is an arbitrary sequence that advances at least each requested wait; with and without the reclaimer the context ends at the same point of the loop, or never.
- ApiSupervision: that the merged channel carries at most one value is not claimed: a second send can precede the cancel.
- QueryInvalidator: the stage hand-off flag and the opening of the Redis client are left out as single-branch code.
- DatabaseCatalog: a manifest is in its normal form from the start, its validation is one flag, and reading an operation file is a function of key, path and digest; parameters and columns are left out, they are copied field by field.
- DatabaseCatalog.PermutationInvariant: which failure is reported (a conflict or a rejected artifact) may depend on the order when there are both; only success and the catalog are claimed.
- QueryString: the standard library's query parser and encoder are modelled on bytes from their documented behaviour, without a limit on the number of parameters.
- IncidentLedger.AcceptedEvidence: the step, stage and stream-failure tables of the routes package are written out, not derived.
- ReplayFingerprint: the plan binding and media type parsing are inputs; the idempotency store is not part of this model.
- ReplayScope: the parsing and normal form of client addresses is an input, and their hash is injective.
- SessionErasure.Erase: the listing is the same for all pages; sessions that appear or vanish while it runs are not modelled, and neither is a lister other than the PostgreSQL one.
- QueryPolicy: the hash over the policy document is taken as injective, and the actor lookup is left out.
- The dispatcher, the registries, the runtime manager, the guard tables, dependency assembly, configuration and all front ends are left out.
