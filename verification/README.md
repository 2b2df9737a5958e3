# Verified model of Imagent's durable protocols and bounded tables

Imagent is a gateway between messaging Channels and agent Applications. This project models the parts of
it that must stay correct under faults, interleavings and bounds, and proves what they promise.

- **Durable effects** (`EffectReceipts`, `EffectExecutor`, `EffectSession`, `EffectSafety`, `EffectCreation`,
  `EffectTruth`).
  A receipt moves from RESERVED over NATIVE_SIDE_EFFECT_STARTED and NATIVE_RESULT_KNOWN to TERMINAL.
  `GatewayStore` is the in-memory store. `EffectSession.EffectCall` is the executor's code between two
  awaits on that store. `EffectExecutor` is the same protocol as a state machine over its awaits: any number of
  calls of one action key, crashes, and a moving binding generation, where each store operation may
  succeed, fail before it applies, or fail or be cancelled after it applied. The safety results hold of every run.
- **Queue evidence** (`QueueReceipts`, `QueueObservation`, `ObservationEntry`). Receipts are read from canonical
  items, one id at a time or in a batch; and a snapshot, its event tail and live notifications, some of
  them buffered while the snapshot is awaited, are stitched into one contiguous stream of changes.
- **Fan-out and keyed locks** (`Fanout`, `KeyedLocks`). Bounded subscriptions that never lose an event
  silently, and mutual exclusion per key whose lock entries come and go with their users.
- **T3 state tables** (`T3Baselines`, `T3Dedup`, `T3Cursor`, `T3CursorRestart`). Reservations with pinned
  entries, a bounded deduplication table kept as two structures, and a cursor over sliding windows.
- **Searches** (`ComponentGraph`, `FragmentSearch`). Dependency cycles, and assembling a text from fragments.
- **Requests, startup, pointers** (`RequestShapes`, `StartupClaims`, `StartupAdmission`, `JsonPointer`).

Objects that the source updates in place are classes here, and each of their methods is proved against a
function on values; the results about runs are lemmas over these functions. Code that suspends at an
`await` is cut there: one method or one step is the code between two awaits.

Four promises hold only under a condition, which is proved to be exact.

- **No lost creation.** A workflow call that created a resource does not answer with it on every run. For
  reconcilers that may report anything, it does if and only if no other valid workflow call of the same
  fingerprint supplies `reconcile` (`EffectCreation.CreationKeptExactlyWithoutRival`). For truthful ones, which
  report the created resource or nothing, a run loses the creation if and only if the creating call's own record
  returns a receipt that another call has already ended with Partial, which then leads to the `RuntimeError` of
  effect_execution.py:671-672 (`EffectTruth.TruthfulCreationLostExactly`). Such a receipt comes only from runs with
  a rebinding or with a commit whose route conflicts (`EffectTruth.PartialMeansMovedOrConflicting`), and a truthful
  run without them keeps every creation. A truthful run that loses one is given
  (`EffectTruth.TruthfulRivalMakesCreationLost`).
- **Fragments.** The search never uses an empty fragment. The literal reading, which lets an empty listed value
  count as a part, gives another answer if and only if an empty value completes a target that no two
  non-empty values assemble (`FragmentSearch.ReadingsDifferExactly`).
- **Startup claims.** Startup drops no claim if and only if each `start` finds the admission queue empty. That
  is so when starts do not overlap, with `stop` allowed at any time (`StartupClaims.ClaimsAreConserved`,
  `StartupClaims.ProcessingFollowsArrival`).
- **Activity cursor.** An initialisation on an empty window keeps whatever cursor there was and forgets the seen
  ids. Without a cursor the next window is taken as a whole, which is the whole log if and only if the window
  starts at its beginning; with one, the polls go on from it or report the gap. So a restart on an empty window
  and then a successful poll present an activity twice if and only if the presenter had failed after presenting
  one that the polled window shows (`T3CursorRestart.EmptyRestartRepeatsExactly`); with a cursor every non-empty
  window shows it, without one it may be gone. Over any number of restarts nothing is presented twice if and
  only if no poll shows again what was presented, before a presenter failure, behind a cursor that has not moved
  since (`T3CursorRestart.PresentedTwiceExactly`); it is enough that the restart after such a failure sees a
  non-empty window (`T3CursorRestart.NothingIsPresentedTwice`).

## Model

| member | source | states |
|---|---|---|
| EffectReceipts.GatewayStore.ReserveEffect | src/imagent/gateway/persistence/memory_store.py:521-564 | an existing receipt is returned only if payload, category and phase id agree; a new one captures the binding generation; a refusal changes nothing |
| EffectReceipts.GatewayStore.MarkNativeSideEffectStarted | src/imagent/gateway/persistence/memory_store.py:566-582 | `acquired` exactly when this operation moved the receipt out of RESERVED |
| EffectReceipts.GatewayStore.RecordEffectOutcome | src/imagent/gateway/persistence/memory_store.py:584-631 | a TERMINAL receipt is never overwritten; every other refusal leaves the store as it was |
| EffectReceipts.GatewayStore.RecordEffectPreflightFailure | src/imagent/gateway/persistence/memory_store.py:633-654 | a preflight failure is recorded only from RESERVED |
| EffectReceipts.GatewayStore.CommitWorkflowBinding | src/imagent/gateway/persistence/memory_store.py:656-739 | the binding generation moves exactly when the receipt becomes a terminal success |
| EffectReceipts.ReserveAdvances | src/imagent/gateway/persistence/memory_store.py:521-564 | reserving keeps a valid receipt valid and only advances it |
| EffectReceipts.RecordAdvances | src/imagent/gateway/persistence/memory_store.py:566-654 | marking and recording never move a phase back, never change identity, freeze TERMINAL, and keep receipts valid |
| EffectReceipts.CommitAdvances | src/imagent/gateway/persistence/memory_store.py:656-739 | the same for committing |
| EffectSession.EffectCall.ResumeReserve | src/imagent/gateway/effect_execution.py:242-268 | the code from the reservation to the next await takes the machine's step, on the store and under any fault |
| EffectSession.EffectCall.ResumeRecordPreflight | src/imagent/gateway/effect_execution.py:635-662 | the same for recording a preflight failure |
| EffectSession.EffectCall.Mark | src/imagent/gateway/persistence/memory_store.py:566-582 | what the awaiting call sees of the fence, and what the store then holds, under any fault |
| EffectSession.EffectCall.ResumeFence | src/imagent/gateway/effect_execution.py:491-512 | the same for the durable fence; the call goes on to `invoke` exactly if it acquired the fence and saw that |
| EffectSession.EffectCall.ResumeInvoke | src/imagent/gateway/effect_execution.py:285-291 | an invalid, raising or cancelled `invoke` leads to an unknown outcome, a valid one to recording it |
| EffectSession.EffectCall.ResumeReconcile | src/imagent/gateway/effect_execution.py:523-536 | the same for `reconcile`, which may also report nothing |
| EffectSession.EffectCall.Record | src/imagent/gateway/persistence/memory_store.py:584-631 | what the awaiting call sees of a recorded outcome, and what the store then holds, under any fault |
| EffectSession.EffectCall.ResumeRecordKnown | src/imagent/gateway/effect_execution.py:292-318 | recording the invoked outcome takes the machine's step |
| EffectSession.EffectCall.ResumeRecordReconciled | src/imagent/gateway/effect_execution.py:537-593 | recording the reconciled outcome takes the machine's step |
| EffectSession.EffectCall.ResumePersistUnknown | src/imagent/gateway/effect_execution.py:595-613 | there is an answer in every case, the stored outcome where there is one |
| EffectSession.EffectCall.ResumeCommit | src/imagent/gateway/effect_execution.py:681-730 | committing a binding takes the machine's step |
| EffectSession.EffectCall.ResumeRead | src/imagent/gateway/effect_execution.py:733-746 | what each handler does with the shielded read after a failed or cancelled operation |
| EffectSession.EffectCall.ResumeReread | src/imagent/gateway/effect_execution.py:364-377 | the unguarded read after a reconciled success |
| EffectSafety.StepKeeps | src/imagent/gateway/effect_execution.py:232-730 | one step of any call keeps what is known of the receipt and of every call |
| EffectSafety.RunKeeps | src/imagent/gateway/effect_execution.py:232-730 | so does every run, and the receipt only advances along it |
| EffectSafety.AtMostOneInvocation | src/imagent/gateway/effect_execution.py:232-318 | over every run `invoke` starts at most once in total, in one call, and only behind an acquired fence |
| EffectSafety.HonestAnswers | src/imagent/gateway/effect_execution.py:285-318 | a call that reached `invoke` answers Failed only with a natively reported error, and no call answers with a reference that was not reported |
| EffectSafety.SuccessfulWorkflowIsBoundOnce | src/imagent/gateway/effect_execution.py:664-730 | the binding is written at most once, and a workflow that answers Succeeded was bound under the generation captured at its reservation |
| EffectSafety.TerminalReceiptIsFrozen | src/imagent/gateway/persistence/memory_store.py:584-739 | a TERMINAL receipt never changes again |
| EffectSafety.ReplayRunsNoCallback | src/imagent/gateway/effect_execution.py:242-259 | a later call of a TERMINAL fingerprint runs no callback; its answer is that of the fault of its one store call |
| EffectSafety.ReplayAnswersAtOnce | src/imagent/gateway/effect_execution.py:242-258 | that answer is the stored outcome without a fault, a conflict only for another action's receipt or under a fault, and an escape only for invalid arguments or a cancellation |
| EffectSafety.RetryIsBounded | src/imagent/gateway/effect_execution.py:275-284 | the self-recursion is at most one level deep, and a call ends within 32 effective steps |
| EffectCreation.OwnStep | src/imagent/gateway/effect_execution.py:397-489 | the creating call's own steps keep the creation in its receipt or its hands |
| EffectCreation.OtherStep | src/imagent/gateway/effect_execution.py:514-593 | steps of other calls keep it as long as none records a reconciled outcome |
| EffectCreation.RivalMakesCreationLost | src/imagent/gateway/effect_execution.py:664-672 | with a rival whose reconciler reports a failure, this run loses the creation |
| EffectCreation.CreationKeptExactlyWithoutRival | src/imagent/gateway/effect_execution.py:397-489 | for reconcilers that may report anything, a created reference is kept on every run exactly when no rival supplies `reconcile` |
| EffectTruth.OwnStepTrue | src/imagent/gateway/effect_execution.py:397-489 | each own step keeps the creation in the creating call's hands or its answer, unless its record finds a Partial receipt |
| EffectTruth.OtherStepNames | src/imagent/gateway/effect_execution.py:514-593 | with a truthful reconciler no other call puts anything but the created reference into the receipt |
| EffectTruth.TruthfulCreationLostExactly | src/imagent/gateway/effect_execution.py:397-489 | with truthful reconcilers a run keeps the creation exactly if the creating call's own record did not find the receipt ended with Partial |
| EffectTruth.PartialMeansMovedOrConflicting | src/imagent/gateway/persistence/memory_store.py:681-718 | a workflow ends Partial with the stale-binding code only in a run with a rebinding, with the conflict code only in a run with a commit whose route conflicts, and with no other code |
| EffectTruth.QuietTruthfulRunsKeepCreation | src/imagent/gateway/effect_execution.py:397-489 | truthful runs without a rebinding and without a commit whose route conflicts keep every creation |
| EffectTruth.TruthfulRivalMakesCreationLost | src/imagent/gateway/effect_execution.py:664-672 | a run with a truthful rival that loses the creation after a rebinding |
| QueueReceipts.ReadQueuedReceipt | src/imagent/applications/adapters/zen_queue.py:148-219 | the one-pass reader computes the reading defined by selections of items, including every refusal |
| QueueReceipts.FileItem | src/imagent/applications/adapters/zen_queue.py:171-183 | an item is filed under its kind unless the kind is taken or the queued item has a delivery mode |
| QueueReceipts.GroupItems | src/imagent/applications/adapters/zen_queue.py:238-249 | one pass groups the items by requested id, exactly if the list is canonical |
| QueueReceipts.ReadQueuedReceipts | src/imagent/applications/adapters/zen_queue.py:222-253 | a batch is accepted exactly if the full list is canonical and every single read of it is accepted, with equal results position by position |
| QueueReceipts.BatchAcceptedAsSingles | src/imagent/applications/adapters/zen_queue.py:222-253 | for at least one id, the batch is accepted exactly if every single read is |
| QueueReceipts.GroupIsEnough | src/imagent/applications/adapters/zen_queue.py:250-253 | reading one id's group gives what reading the full canonical list gives |
| QueueReceipts.OrderIsIrrelevant | src/imagent/applications/adapters/zen_queue.py:148-219 | reordering the items changes no reading |
| QueueReceipts.BatchOrderIsIrrelevant | src/imagent/applications/adapters/zen_queue.py:222-253 | nor any batch |
| QueueReceipts.LineageIsMonotone | src/imagent/applications/adapters/zen_queue.py:156-219 | an accepted extension keeps the queued item and fingerprint, and an ADMITTED Turn or CANCELLED state is final |
| QueueObservation.AcceptedAreContiguous | src/imagent/applications/adapters/zen_queue_observation.py:312-324 | arrivals are accepted exactly if they are of the process epoch, the live ones carry the watermarks snapshot+1, snapshot+2, ... in order, and their lineage fits; covered and immediately repeated ones change nothing |
| QueueObservation.StreamIsStitched | src/imagent/applications/adapters/zen_queue_observation.py:258-324 | the same over every interleaving of the installation with buffered and live notifications, until the first error |
| QueueObservation.OnlyBreaksRaise | src/imagent/applications/adapters/zen_queue_observation.py:284-324 | after the installation a change of the entry's connection raises exactly if it breaks the stitching |
| QueueObservation.RunKeepsInv | src/imagent/applications/adapters/zen_queue_observation.py:218-324 | buffering is transparent: an installed entry is the snapshot's entry with all arrivals accepted in order |
| QueueObservation.NoticesNameOneItem | src/imagent/applications/adapters/zen_queue_observation.py:326-359 | every published notice names the queued item that the index still names for its client |
| QueueObservation.AcceptAllKeepsLineage | src/imagent/applications/adapters/zen_queue_observation.py:326-359 | an indexed queued item never changes |
| QueueObservation.IndexAgreesWithReceipts | src/imagent/applications/adapters/zen_queue_observation.py:247-257 | the wake-up index of a snapshot and the receipts read from it name the same queued item |
| ObservationEntry.QueueSubscription.Publish | src/imagent/applications/adapters/zen_queue_observation.py:127-133 | a full queue ends the subscription with the overflow instead of losing the notice silently |
| ObservationEntry.QueueSubscription.Finish | src/imagent/applications/adapters/zen_queue_observation.py:135-143 | the end replaces what is pending, once |
| ObservationEntry.QueueSubscription.TakeNext | src/imagent/applications/adapters/zen_queue_observation.py:109-122 | notices are received in order without a gap, then exactly the end |
| ObservationEntry.QueueEntry.Retire | src/imagent/applications/adapters/zen_queue_observation.py:207-210 | the entry leaves the table exactly when it has no subscriber and no installation |
| ObservationEntry.QueueEntry.Subscribe | src/imagent/applications/adapters/zen_queue_observation.py:176-205 | a new subscription joins without touching the others, unless the observer is closing |
| ObservationEntry.QueueEntry.CompleteSubscribe | src/imagent/applications/adapters/zen_queue_observation.py:196-205 | a failed installation raises its own exception, otherwise the entry's error, or that of a closing observer, is raised; each ends the new subscription |
| ObservationEntry.QueueEntry.CloseSubscription | src/imagent/applications/adapters/zen_queue_observation.py:112-125 | a close, and a cancelled receive, end the subscription without a gap and touch no other |
| ObservationEntry.QueueEntry.Dispatch | src/imagent/applications/adapters/zen_queue_observation.py:284-297 | malformed parameters reset, another Thread's notification is passed over, an own one is handled |
| ObservationEntry.QueueEntry.PublishNotice | src/imagent/applications/adapters/zen_queue_observation.py:358-359 | every open subscription is given the notice or ends with the overflow |
| ObservationEntry.QueueEntry.FailEntry | src/imagent/applications/adapters/zen_queue_observation.py:212-216 | every subscriber ends with the gap and no other subscription is touched |
| ObservationEntry.QueueEntry.PublishQueueChange | src/imagent/applications/adapters/zen_queue_observation.py:326-359 | index, notice and refusal are as specified for one change |
| ObservationEntry.QueueEntry.AcceptChange | src/imagent/applications/adapters/zen_queue_observation.py:312-324 | the entry moves and publishes as specified for one accepted change |
| ObservationEntry.QueueEntry.Notification | src/imagent/applications/adapters/zen_queue_observation.py:284-310 | a notification is buffered or accepted as specified; any error ends every subscriber with a gap |
| ObservationEntry.QueueEntry.BuildIndex | src/imagent/applications/adapters/zen_queue_observation.py:249-257 | the index of queued items, refused for a repeated or invalid client id |
| ObservationEntry.QueueEntry.PublishTailChanges | src/imagent/applications/adapters/zen_queue_observation.py:262-272 | the tail is published in strictly increasing order up to the snapshot's watermark, or refused |
| ObservationEntry.QueueEntry.TakeSnapshot | src/imagent/applications/adapters/zen_queue_observation.py:237-279 | the synchronous rest of the installation puts snapshot, tail and buffered changes together as specified |
| ObservationEntry.QueueEntry.BeginInstall | src/imagent/applications/adapters/zen_queue_observation.py:220-224 | the first answer sets the epochs or ends all subscribers |
| ObservationEntry.QueueEntry.FinishInstall | src/imagent/applications/adapters/zen_queue_observation.py:237-282 | the installation ends installed, or with every subscriber ended |
| ObservationEntry.QueueEntry.AbandonInstall | src/imagent/applications/adapters/zen_queue_observation.py:280-282 | an installation that raises ends every subscriber |
| ObservationEntry.QueueEntry.ResetConnection | src/imagent/applications/adapters/zen_queue_observation.py:361-363 | so does a connection reset |
| Fanout.NothingIsLostSilently | src/imagent/applications/events.py:203-249 | while a stream is live, consumed ++ queued is all that was offered; afterwards a prefix of it is followed by the terminal error; the queue never exceeds its size |
| Fanout.FailureIsDelivered | src/imagent/applications/events.py:203-218 | a consumer that keeps receiving from a failed stream gets a prefix and then exactly its error |
| Fanout.FanoutSubscription.Publish | src/imagent/applications/events.py:232-239 | an offered event is queued, or ends the stream with the overflow, or comes too late |
| Fanout.FanoutSubscription.FailWith | src/imagent/applications/events.py:241-249 | a live stream fails once, with or without its pending events |
| Fanout.FanoutSubscription.TakeNext | src/imagent/applications/events.py:203-218 | one receive takes the next event or the terminal error |
| Fanout.FanoutSubscription.CloseStream | src/imagent/applications/events.py:220-224 | closing is idempotent and asks for the removal once |
| Fanout.EventBroadcaster.Subscribe | src/imagent/applications/events.py:261-276 | a new stream starts with the initial events and leaves the others alone |
| Fanout.EventBroadcaster.PublishEvent | src/imagent/applications/events.py:278-280 | every subscription of the key is offered the event, no other is touched, and a subscription is registered exactly while it is live |
| Fanout.EventBroadcaster.FailKey | src/imagent/applications/events.py:301-311 | every live subscription of the key fails and the key is gone |
| Fanout.EventBroadcaster.FailAll | src/imagent/applications/events.py:285-299 | every live subscription fails and the table is empty |
| Fanout.EventBroadcaster.ReceiveOn | src/imagent/applications/events.py:203-218 | a receive keeps the table consistent |
| Fanout.EventBroadcaster.CloseOn | src/imagent/applications/events.py:220-224 | a close removes exactly this subscription |
| Fanout.EventBroadcaster.Remove | src/imagent/applications/events.py:313-323 | the last subscription of a key takes the key with it |
| KeyedLocks.EveryScheduleIsSafe | src/imagent/gateway/concurrency.py:40-61 | the roles that `hold` gives its tasks are exclusive per key and within the capacity over every interleaving |
| KeyedLocks.TableStepKeeps | src/imagent/gateway/concurrency.py:42-61 | the registry's own steps, guarded by its entries and locks alone, keep the entries in agreement with the suspended frames and do what the roles say |
| KeyedLocks.EveryRegistryRunIsSafe | src/imagent/gateway/concurrency.py:40-61 | over every interleaving of these steps: exclusion per key, an entry exactly while its key has a user, the capacity, and an empty registry once all have left |
| KeyedLocks.KeyedLockRegistry.RegistryFollowsRoles | src/imagent/gateway/concurrency.py:40-61 | an entry exists exactly while the key has a holder or waiter, a lock is free exactly when nobody is inside, and the registry is empty once all tasks have left |
| KeyedLocks.KeyedLockRegistry.EnterHold | src/imagent/gateway/concurrency.py:42-51 | a new key is refused exactly when the capacity is used up |
| KeyedLocks.KeyedLockRegistry.AcquireLock | src/imagent/gateway/concurrency.py:52-54 | a waiting task gets the lock exactly when nobody is inside |
| KeyedLocks.KeyedLockRegistry.LeaveHold | src/imagent/gateway/concurrency.py:56-61 | leaving, also by cancellation while waiting, releases what was acquired and drops the entry with its last user |
| ComponentGraph.FindDependencyCycle | scripts/validate_component_map.py:419-446 | a returned list is a real edge path that ends where it starts, and None is returned exactly when there is no cycle |
| ComponentGraph.DependencySearch.Visit | scripts/validate_component_map.py:424-440 | one visit completes its component or returns a cycle, and keeps the path and the ranks of completed components |
| ComponentGraph.RankedGraphHasNoCycle | scripts/validate_component_map.py:419-446 | a graph whose components are all completed has no cycle |
| FragmentSearch.AssembledFromFragments | examples/reference_consumer/main.py:573-601 | the answer is that the target is a concatenation of at least two listed values, none used more often than it is listed, unless more distinct states than the bound can be reached |
| FragmentSearch.Search.Assemble | examples/reference_consumer/main.py:581-586 | the memoised search equals the unmemoised one, counts each reachable state once, and fails only beyond its bound |
| FragmentSearch.Search.Explore | examples/reference_consumer/main.py:587-599 | trying the remaining candidates in turn decides the state |
| FragmentSearch.CountCandidates | examples/reference_consumer/main.py:574-578 | the candidates are the distinct proper non-empty substrings listed, with their counts |
| FragmentSearch.SearchIsSound | examples/reference_consumer/main.py:581-599 | a positive search yields parts within the counts |
| FragmentSearch.SearchIsComplete | examples/reference_consumer/main.py:581-599 | parts within the counts make the search positive |
| FragmentSearch.SearchDecidesAssembly | examples/reference_consumer/main.py:573-601 | the substring filter loses no assembly |
| FragmentSearch.EmptyPartIsNotCounted | examples/reference_consumer/main.py:574-576 | an input on which the literal reading differs |
| FragmentSearch.LooseReadingIsExact | examples/reference_consumer/main.py:574-576 | the literal reading adds exactly a listed target with a listed empty value, and an empty target with two of them |
| FragmentSearch.ReadingsDifferExactly | examples/reference_consumer/main.py:574-576 | the readings differ exactly where an empty value completes the target and no two non-empty values assemble it |
| FragmentSearch.ReadingsAgree | examples/reference_consumer/main.py:574-576 | where no empty value completes the target the readings agree |
| FragmentSearch.EmptyPartMayNotMatter | examples/reference_consumer/main.py:574-576 | an input on which an empty value completes the target and the readings agree all the same |
| FragmentSearch.NextIsReachable | examples/reference_consumer/main.py:587-596 | choosing a remaining candidate that fits leads from one reachable state to another |
| T3Baselines.ReservationsAreConserved | src/imagent/applications/adapters/t3.py:802-841 | over every interleaving, baselines plus reservations stay within the maximum, reservations are the sends between reserve and record or release, and active baselines are stored |
| T3Baselines.RefusedExactlyWhenPinned | src/imagent/applications/adapters/t3.py:849-861 | a reservation is refused exactly when active baselines and reservations fill the table, and no active baseline is evicted or changed |
| T3Baselines.TurnBaselines.FindEvictable | src/imagent/applications/adapters/t3.py:854-857 | the oldest entry that is not active |
| T3Baselines.TurnBaselines.ReserveTurnBaseline | src/imagent/applications/adapters/t3.py:849-861 | the loop ends, and evicts exactly the oldest inactive entries that are needed or available |
| T3Baselines.TurnBaselines.RecordTurnBaseline | src/imagent/applications/adapters/t3.py:868-880 | a reserved send stores its baseline as the newest and active entry |
| T3Baselines.TurnBaselines.ReleaseTurnBaselineReservation | src/imagent/applications/adapters/t3.py:863-866 | the underflow check never fires |
| T3Baselines.TurnBaselines.MarkTurnTerminal | src/imagent/applications/adapters/t3.py:882-883 | the Turn is no longer pinned |
| T3Dedup.TableHoldsNewestAdditions | src/imagent/applications/adapters/t3.py:885-918 | after any sequence of remembers the table holds exactly the newest additions, up to the maximum, each once, and always the last one remembered |
| T3Dedup.IdentityTable.Remember | src/imagent/applications/adapters/t3.py:903-918 | both structures agree, no per-thread set is empty, the contents are those of a bounded insert-if-absent FIFO, and the answer is whether the id was new |
| T3Dedup.IdentityTable.RememberMessage | src/imagent/applications/adapters/t3.py:885-901 | the same for messages, where the empty id is never remembered |
| T3Dedup.IdentityTable.EvictOldest | src/imagent/applications/adapters/t3.py:911-917 | the oldest pair leaves both structures |
| T3Dedup.IdentityTable.Seen | src/imagent/applications/adapters/t3.py:1213-1214 | the per-thread sets answer membership in the ordered table |
| T3Cursor.EachEntryOnce | src/imagent/applications/adapters/t3.py:1014-1098 | from an initialisation on a non-empty window until the first error, the polls present exactly the later entries covered, once each |
| T3Cursor.PollFromCursor | src/imagent/applications/adapters/t3.py:1160-1196 | the whole behaviour of one poll: nothing, a gap, or exactly the new entries, with the cursor moved only after all were presented |
| T3CursorRestart.EmptyStartTakesWholeWindow | src/imagent/applications/adapters/t3.py:1167-1175 | after an empty initialisation without a cursor the next window is taken as a whole, which is the whole log exactly if it starts at its beginning |
| T3CursorRestart.EmptyStartKeepsCursor | src/imagent/applications/adapters/t3.py:1167-1189 | with a cursor the polls go on from it, or report the gap, as if nothing had been seen |
| T3CursorRestart.EmptyStartReportsLostCursor | src/imagent/applications/adapters/t3.py:1177-1188 | with a cursor that a non-empty window does not show there is a gap |
| T3CursorRestart.EmptyRestartRepeatsExactly | src/imagent/applications/adapters/t3.py:1290-1312 | with or without a cursor, an empty restart and a successful poll present an activity twice exactly if the presenter had failed after presenting one that the polled window shows |
| T3CursorRestart.CursorRestartShowsAll | src/imagent/applications/adapters/t3.py:1177-1189 | with a cursor every non-empty window shows all that was presented before the failure |
| T3CursorRestart.EmptyRestartPresentsTwice | src/imagent/applications/adapters/t3.py:1290-1312 | a run in which an activity is presented twice |
| T3CursorRestart.EmptyRestartMayNotRepeat | src/imagent/applications/adapters/t3.py:1167-1175 | a run without a cursor in which the polled window no longer shows it and nothing is presented twice |
| T3CursorRestart.RunKeepsHistory | src/imagent/applications/adapters/t3.py:943-961 | over any number of subscriptions, what was presented lies before the cursor, except for what failed polls presented behind it since it last moved |
| T3CursorRestart.PresentedTwiceExactly | src/imagent/applications/adapters/t3.py:943-961 | over any number of subscriptions, nothing is presented twice exactly if no poll shows again what failed polls presented behind an unmoved cursor |
| T3CursorRestart.NothingIsPresentedTwice | src/imagent/applications/adapters/t3.py:943-961 | so nothing is presented twice while restarts after such a failure see non-empty windows |
| T3Cursor.OrderKeepsActivities | src/imagent/applications/adapters/t3.py:1070-1070 | ordering loses and repeats nothing |
| T3Cursor.OrderSorts | src/imagent/applications/adapters/t3.py:1070-1070 | presentation follows the creation times |
| T3Cursor.OrderIsStable | src/imagent/applications/adapters/t3.py:1070-1070 | and activities of equal time keep the order of the window |
| T3Cursor.PresentationState.FindCursor | src/imagent/applications/adapters/t3.py:1177-1184 | the last position of the cursor's id |
| T3Cursor.PresentationState.NewActivities | src/imagent/applications/adapters/t3.py:1160-1196 | the candidates or the gap, and the state in which they are looked at |
| T3Cursor.PresentationState.PublishActivities | src/imagent/applications/adapters/t3.py:1014-1098 | what one poll presents, where it fails, and the state it leaves |
| RequestShapes.DerivedShapeIsValid | src/imagent/applications/requests.py:263-280 | the shape derived from an accepted request passes its own validator |
| RequestShapes.ValidShapeIsAnswerable | src/imagent/applications/requests.py:283-357 | every valid shape has a response that passes admission and validation |
| RequestShapes.AcceptedRequestIsAnswerable | src/imagent/applications/requests.py:158-206 | so every accepted request can be answered |
| RequestShapes.DerivedShapeIsExact | src/imagent/applications/requests.py:283-317 | a response is valid for the derived shape exactly if it is admitted and gives each question what the request offers |
| StartupClaims.ClaimsAreConserved | src/imagent/gateway/orchestration.py:1099-1128 | a claim arrives at most once, exactly if its lease is transferred, and is then in exactly one of queued, processed, released or dropped; none is dropped exactly if each start finds the queue empty |
| StartupClaims.ProcessingFollowsArrival | src/imagent/gateway/orchestration.py:471-499 | one start at a time, with stops at any time: processing follows arrival and nothing is dropped |
| StartupClaims.SuccessMeansDrained | src/imagent/gateway/orchestration.py:471-477 | a start succeeds only with an empty queue and no overflow since the latest reset |
| StartupClaims.OverlappingStartsDrop | src/imagent/gateway/orchestration.py:413-415 | a run in which two overlapping starts drop a claim |
| StartupAdmission.GatewayStartupAdmission.Admit | src/imagent/gateway/lifecycle.py:227-233 | a bounded FIFO with a sticky overflow that is counted once |
| StartupAdmission.GatewayStartupAdmission.Reset | src/imagent/gateway/lifecycle.py:220-222 | the queue and the overflow are cleared, the count is not |
| StartupAdmission.GatewayStartupAdmission.PopLeft | src/imagent/gateway/lifecycle.py:235-236 | the oldest claim leaves first |
| StartupAdmission.InboundAdmissionLease.BeginDeliver | src/imagent/gateway/admission.py:112-121 | delivery is refused unless the lease is open, and a mismatch releases it |
| StartupAdmission.InboundAdmissionLease.FinishRefresh | src/imagent/gateway/admission.py:122-153 | the claim is handed off exactly if the refresh succeeded, otherwise the lease is closed |
| StartupAdmission.InboundAdmissionLease.BeginRelease | src/imagent/gateway/admission.py:155-158 | only an open lease starts a release |
| StartupAdmission.InboundAdmissionLease.FinishRelease | src/imagent/gateway/admission.py:159-168 | a failed release opens the lease again |
| StartupAdmission.StartupGateway.HandleClaimed | src/imagent/gateway/orchestration.py:1099-1128 | a transferred claim goes to processing, to the queue or to release, and to one of them only |
| StartupAdmission.StartupGateway.BeginStart | src/imagent/gateway/orchestration.py:409-415 | a start opens admission and resets the queue |
| StartupAdmission.StartupGateway.FinishPreparations | src/imagent/gateway/orchestration.py:428-428 | admission opens after the preparations |
| StartupAdmission.StartupGateway.CheckOverflow | src/imagent/gateway/orchestration.py:450-450 | an overflow between two starts begins the rollback |
| StartupAdmission.StartupGateway.FailStart | src/imagent/gateway/orchestration.py:478-481 | a start that raises closes admission before it rolls back |
| StartupAdmission.StartupGateway.RollbackNext | src/imagent/gateway/orchestration.py:482-499 | the rollback gives each queued claim to release once |
| StartupAdmission.StartupGateway.DrainNext | src/imagent/gateway/orchestration.py:472-477 | the drain gives each queued claim to processing once and stops at an overflow |
| StartupAdmission.StartupGateway.StopAdmission | src/imagent/gateway/orchestration.py:566-568 | a stop closes admission and leaves the queue to the start at work |
| JsonPointer.ResolvePointer | scripts/validate_schemas.py:12-23 | the loop descends the decoded tokens, or reports the pointer as unsupported or missing |
| JsonPointer.DecodeInvertsEscape | scripts/validate_schemas.py:19-19 | replacing `~1` first and `~0` second undoes the escaping of section 3 of RFC 6901 on every string |
| JsonPointer.OtherPassOrderFails | scripts/validate_schemas.py:19-19 | the other order of the two passes does not |
| JsonPointer.SplitInvertsEncode | scripts/validate_schemas.py:18-19 | splitting and decoding an encoded pointer gives back its keys |
| JsonPointer.ResolveInvertsEncode | scripts/validate_schemas.py:12-23 | resolving the encoding of any keys descends exactly those keys |
| JsonPointer.EncodeIsInjective | scripts/validate_schemas.py:18-19 | distinct key sequences have distinct pointers |

## Left out

- Store mutations and their replay (effect_execution.py:104-229): the same receipt rules without a native callback.
- The SQLite store, its rows and leases: the in-memory store stands for the contract, and its lease is one flag.
- EffectReceipts.GatewayStore.CommitWorkflowBinding: does not model the route table; a route conflict is one flag of the commit. Nor does it model a commit that is half applied: memory_store.py:720-722 publishes the binding, its floor and the route before line 737 validates the new receipt, which raises if the wall clock went back since the reservation (effects.py:476-477). Then the generation has moved while the receipt is not terminal, and the next commit ends with Partial without a rebinding.
- EffectSession.EffectCall.ResumeCommit: leaving the commit fence is not a step of its own. An exit that raises has the effect of a fence that raises, or of a fault after the commit; an exit that suppresses an exception is not modelled.
- EffectTruth.TruthfulRivalMakesCreationLost: requires the two calls to carry the same request, which equal fingerprints stand for.
- Digests, UUIDs, base64, timestamps and JSON text: opaque values. A fingerprint is the text it yields or a refusal.
- Wire parsing of queue changes (`_change` in zen_queue_observation.py): a notification carries the parsed change, or none where parsing refuses it.
- Type checks of the outermost values (a list of items, a tuple of ids): the model's arguments have these types.
- The observer's table of several entries: one entry is modelled, with whether the table still holds it.
- StartupClaims.SuccessMeansDrained: with overlapping starts the overflow is counted since the latest reset, which may be that of another start.
- KeyedLocks.KeyedLockRegistry.EnterHold: lock entries are values behind ids in one table, not objects shared by reference; the identity check of the entry is a check of the id.
- KeyedLocks.KeyedLockRegistry.AcquireLock: does not model the order in which waiting tasks get a lock.
- FragmentSearch.CountCandidates: lists the candidates by first occurrence instead of sorted; the answer is proved for any order.
- T3Cursor.PresentationState.PublishActivities: leaves out the messages that are ordered among the activities; they have their own deduplication.
- T3Dedup.IdentityTable.Remember: one class stands for the two tables of messages and of terminal Turns, which have the same code.
- T3Cursor.PresentationState.NewActivities: the parameter that restricts a poll to one Turn is never passed and is not modelled.
- T3CursorRestart.NothingIsPresentedTwice: one presentation state is kept; the eviction of a Thread's state, after which it starts anew, is not modelled.
- The handling of a claimed message, adapters, presenters and other callbacks: they return, raise or are cancelled, in any way.
- Starting and stopping Applications, Channels and other owners: only where they may raise during a start.
- Diagnostics and error texts are not modelled.
