# Verification of the durable state around an agent Run

This project models the parts of the assistant agent that must survive crashes, stale writers and
concurrent threads, and proves what they promise.  Every model follows the code's own branches.  Code
that changes files, fields or loop variables step by step is a class or a method that is proved against
a specification; where crashes or threads may interleave, the file writes, checkpoints and lock sections
are the steps of a state machine, and the main results hold for every sequence of steps.

| file | models |
|---|---|
| `RunDisk.dfy`, `RunStore.dfy` | the two-slot Run checkpoint store with tombstones, and its Session index |
| `ToolBudgets.dfy`, `ToolProtocol.dfy`, `ToolExecutor.dfy` | tool calls: permission, budget, durable "started", effect, durable "completed", recovery, batches |
| `ExecutionEvents.dfy` | the event stream wrapper used by several threads |
| `InteractionPort.dfy` | the blocking interaction port used by several threads |
| `SessionLedger.dfy`, `SessionStore.dfy`, `RunSync.dfy`, `TerminalSync.dfy`, `SessionFork.dfy` | the public ledger of a Session, stale saves, bringing a Run into it, forks |
| `OutputStore.dfy`, `ArtifactCapture.dfy`, `Utf8.dfy` | output drafts, limits and publication, and the writer that streams text into a draft |
| `BoundedCollector.dfy` | the head and tail collector for process output |
| `ChartTransforms.dfy`, `DatasetKeys.dfy`, `ArtifactSize.dfy`, `Decimals.dfy` | histogram and boxplot, column renaming, the self-describing artifact size |

Some promises turned out not to hold as the code's comments or its names suggest.  The code is kept as
it is.  Of every pair below the first member states the exact condition and the second gives an input or
a run that shows the failure:

- An index epoch counted as verified need not equal a full scan, because publishing a tombstone does not
  change the Run directory.  It never misses a live Run (`RunDisk.VerifiedEpochsNeverMissARun`), and it
  stays equal exactly until a listed Run is tombstoned, or damaged without a backup
  (`RunDisk.IndexStaysExactExactlyIf`, `RunDisk.VerifiedEpochCanBeStale`).
- `last_for_session_locked` fails although nothing about the Session is wrong when the refs of another
  Session were left half written (`RunStore.RunStore.LastForSession`, `RunStore.CrashedSaveOpensIndexGap`).
- A Session tombstone does not hide a Run whose older slot predates the Session
  (`RunDisk.RunOfDeletedSessionLoadsAgainExactlyIf`, `RunDisk.StandaloneFallbackOutlivesItsSession`).
- `respond` may return true although the waiter leaves without the decision
  (`InteractionPort.AcceptedAnswerIsReturnedExactlyIf`, `InteractionPort.AcceptedAnswerCanBeLost`).
- The broker can publish a request that was given up, when a later one has its id
  (`InteractionPort.PublishedRequestIsWaitingExactlyIf`, `InteractionPort.StaleRequestCanBePublished`).
- `on_close` can run beside a `next` once a `next` has raised, as it does at the end of every stream, if
  more than one thread consumes the stream (`ExecutionEvents.OverlapPossibleExactlyIf`,
  `ExecutionEvents.CallbackCanOverlapNextAfterRaise`).
- Cancelling a resumed batch raises as soon as a call at or after the current one already has a result
  (`ToolExecutor.ToolExecutor.StopHere`, `ToolProtocol.CancellingCanRaise`).
- A Run that leaves charts or outputs without a final answer cannot be synchronized a second time
  (`RunSync.SecondSyncChangesNothingUnlessStranded`, `RunSync.SecondSyncCanFail`).
- When a Run without a final answer has made both charts and outputs, no message shows the outputs
  (`RunSync.AllIsShownExactlyIf`, `RunSync.OutputCanStayUnshown`).
- Outputs shown by an earlier answer make readers refuse the Session
  (`RunSync.RunSyncIsSelfContainedExactlyIf`, `TerminalSync.TwoAnswersBreakTheSession`).
- Readers refuse a fork when two of the copied messages show one output, because the second copy is the
  first one again; the document is there nevertheless (`SessionFork.ForkIsSelfContainedExactlyIf`,
  `TerminalSync.SpoiledForkIsReachable`).
- The limit on the number of drafts can be exceeded after a crash
  (`OutputStore.DraftLimitHoldsExactlyIf`, `OutputStore.DraftLimitCanBeExceeded`), and a crash inside a
  reset spoils the draft (`OutputStore.ResetCrashSpoilsDraft`, `OutputStore.ResetCrashCanSpoilDraft`).
- The lower whisker can lie above the first quartile (`ChartTransforms.WhiskerBelowQuartileExactlyIf`,
  `ChartTransforms.WhiskerCanExceedQuartile`), and the upper whisker below the third
  (`ChartTransforms.WhiskerAboveQuartileExactlyIf`, `ChartTransforms.WhiskerCanFallBelowQuartile`).
- A reference to no column is captured when it equals a generated alias
  (`DatasetKeys.DanglingReferenceIsCapturedExactlyIf`, `DatasetKeys.DanglingReferenceCanBeCaptured`).

## Model

| member | source | states |
|---|---|---|
| RunDisk.StepKeepsInv | src/assistant_agent/persistence/run_store.py:291-357 | every single file operation of any process, every in-place damage and every edit of the index files keeps: slots of one Run agree on the Session, and an epoch ever recorded as verified that still matches the directory lists every live Run |
| RunDisk.VerifiedEpochsNeverMissARun | src/assistant_agent/persistence/run_store.py:326-357 | the same over whole runs with crashes between any two operations |
| RunDisk.IndexStaysExactExactlyIf | src/assistant_agent/persistence/run_store.py:326-357 | while the Run directory keeps its time, an index that equalled the scan still does exactly if since then no listed Run was tombstoned, or damaged in place without a backup |
| RunDisk.VerifiedEpochCanBeStale | src/assistant_agent/persistence/run_store.py:326-357 | from an empty store: one Run saved, verified and tombstoned, and the verified epoch still matches although the index is not the scan |
| RunDisk.ManifestNeverMissesARun | src/assistant_agent/persistence/run_store.py:291-302 | while only the store writes the index, in every crash state the manifest may list Runs that are gone but misses no live one |
| RunDisk.ExactIsUnique | src/assistant_agent/persistence/run_store.py:271-289 | a full scan has one result, so an index equals it or is rebuilt |
| RunDisk.TombstonedRunNeverLoads | src/assistant_agent/persistence/run_store.py:485-494 | after a Run tombstone no save, crash or late worker makes the Run load again |
| RunDisk.RunOfDeletedSessionNeverLoads | src/assistant_agent/persistence/run_store.py:485-494 | after a Session tombstone no Run whose documents belong to the Session loads again, damage included |
| RunDisk.RunOfDeletedSessionLoadsAgainExactlyIf | src/assistant_agent/persistence/run_store.py:465-494 | a live Run of a deleted Session can load again, after one step or after any, exactly if it has an older document that does not belong to the Session |
| RunDisk.StandaloneFallbackOutlivesItsSession | src/assistant_agent/persistence/run_store.py:465-494 | such a Run, reached from an empty store: saved without a Session, then in one, which is deleted |
| RunDisk.StandaloneStepsDoNotInterfere | src/assistant_agent/persistence/run_store.py:373-399 | a save of a Run without Session, which takes no index lock, changes nothing the holder of the index lock knows |
| RunStore.RunStore.Take | src/assistant_agent/persistence/run_store.py:96-114 | one atomic file operation, recorded in the trace, so what methods say about the trace holds in every crash state |
| RunStore.RunStore.Restart | src/assistant_agent/persistence/run_store.py:96-114 | every moment of any run, with any epoch verified by then or none, is a valid start for the next process |
| RunStore.RunStore.Switch | src/assistant_agent/persistence/run_store.py:96-114 | the same while this process goes on: another one works on the disk with what it remembers |
| RunStore.RunStore.SaveUnchecked | src/assistant_agent/persistence/run_store.py:420-444 | the new document in the current slot and the last readable one in the previous slot; at every crash point the old or the new document loads; no other Run is touched |
| RunStore.RunStore.ClearCurrent | src/assistant_agent/persistence/run_store.py:431-437 | a readable current slot becomes the previous one, a damaged one is unlinked and the previous one stays |
| RunStore.RunStore.SaveWithRunLock | src/assistant_agent/persistence/run_store.py:401-418 | goes through exactly if the Run is not tombstoned, its slots are both absent or a document can be read from one, and that document has no Session or the same; otherwise nothing is written |
| RunStore.RunStore.ExistingSessionId | src/assistant_agent/persistence/run_store.py:411-418 | the Session of the readable checkpoint, corrupt exactly if there are slots but none is readable |
| RunStore.RunStore.Save | src/assistant_agent/persistence/run_store.py:373-399 | goes through exactly under that condition and if its Session accepts the Run; then the Run is live and listed and damage to either slot leaves one of the last two documents; at every crash point the old or the new document loads |
| RunStore.SaveGoesThroughExactlyIf | src/assistant_agent/persistence/run_store.py:373-418 | the same condition in terms of the slots, the Session and the index, and exactly when each refusal is given |
| RunStore.FirstSaveGoesThrough | src/assistant_agent/persistence/run_store.py:373-399 | the first save of a Run goes through in an empty store, and in any store whose verified index does not list it |
| RunStore.IndexGapExactlyIf | src/assistant_agent/persistence/run_store.py:326-344 | the one failing situation: an unverified index that equals the scan, where the refs of the Session are right and those of another are not |
| RunStore.RunStore.IndexRun | src/assistant_agent/persistence/run_store.py:373-399 | the index lists the Run before its slots are written; refused exactly in the index gap or for a Run of another Session |
| RunStore.RunStore.AddToIndex | src/assistant_agent/persistence/run_store.py:373-399 | ref first, then manifest, and the index stays usable and complete |
| RunStore.SurvivesDamage | src/assistant_agent/persistence/run_store.py:446-483 | damage to either slot after a save leaves the new document or the one before |
| RunStore.RunStore.AuthoritativeSessions | src/assistant_agent/persistence/run_store.py:271-289 | the scan loop finds exactly the live Runs of every Session |
| RunStore.RunStore.BuildSessionIndex | src/assistant_agent/persistence/run_store.py:291-302 | a new generation and a manifest that matches the scan; a crash before the manifest switches leaves manifest and old generation intact |
| RunStore.RunStore.WriteGeneration | src/assistant_agent/persistence/run_store.py:291-302 | all refs of a new generation, every other generation and the manifest unchanged at every moment |
| RunStore.RunStore.WriteSession | src/assistant_agent/persistence/run_store.py:291-302 | the refs of one Session, likewise |
| RunStore.RunStore.WriteSessionRef | src/assistant_agent/persistence/run_store.py:137-151 | one correct ref more, every other generation unchanged at every moment |
| RunStore.RunStore.CleanupIndex | src/assistant_agent/persistence/run_store.py:256-269 | all generations but one removed, the kept one and the manifest unchanged at every moment |
| RunStore.RunStore.RebuildSessionIndex | src/assistant_agent/persistence/run_store.py:304-309 | the index equals the full scan, is usable for every Session, and its epoch counts as verified |
| RunStore.RunStore.IndexLocked | src/assistant_agent/persistence/run_store.py:311-318 | a usable index stays untouched, any other is rebuilt to equal the scan |
| RunStore.RunStore.VerifyIndexEpoch | src/assistant_agent/persistence/run_store.py:326-344 | afterwards the manifest covers all live Runs and its epoch is verified; it fails exactly if the manifest equals the scan but refs do not match it |
| RunStore.RunStore.MarkIndexEpochVerified | src/assistant_agent/persistence/run_store.py:341-357 | only a manifest that covers all live Runs is remembered, and nothing on disk changes |
| RunStore.RunStore.OpenIndex | src/assistant_agent/persistence/run_store.py:311-344 | what an operation takes for the Runs of a Session, exactly, and exactly when it fails |
| RunStore.RunStore.EnsureSessionIndex | src/assistant_agent/persistence/run_store.py:320-324 | on opening, whatever is on disk, the index becomes usable and complete and only its generation remains |
| RunStore.RunStore.LastForSession | src/assistant_agent/persistence/run_store.py:527-571 | the answer is the maximum by (updated_at, id) of the live public Runs a full scan finds; no answer exactly for a deleted Session and in the index gap |
| RunStore.LastPublicIsLatest | src/assistant_agent/persistence/run_store.py:542-571 | that answer in terms of the slots: a public Run of the Session, and every other one was updated earlier, or at the same time with a smaller id; none exactly if there is no public Run |
| RunStore.RunStore.LastIndexedRun | src/assistant_agent/persistence/run_store.py:542-571 | the latest public Run among the listed ones, or that the listing is stale |
| RunStore.CrashedSaveOpensIndexGap | src/assistant_agent/persistence/run_store.py:326-344 | the gap is reachable: a writer of another Session that crashed after its first ref |
| RunStore.RunStore.Delete | src/assistant_agent/persistence/run_store.py:600-622 | the Run is tombstoned, gone and not listed; at every crash point it is as before or gone; no other Run changes |
| RunStore.RunStore.DeleteLocked | src/assistant_agent/persistence/run_store.py:624-635 | tombstone before slots; true exactly if there was something to delete |
| RunStore.RunStore.Delist | src/assistant_agent/persistence/run_store.py:600-622 | a Run that is gone leaves the index, which stays complete |
| RunStore.RunStore.DeleteSessionRuns | src/assistant_agent/persistence/run_store.py:573-595 | exactly the live Runs of the deleted Session, in order, are removed, and the index equals the scan afterwards |
| RunStore.RunStore.DeleteAll | src/assistant_agent/persistence/run_store.py:573-589 | exactly these Runs are deleted, in ascending order |
| RunStore.RunStore.RemoveSessionRefs | src/assistant_agent/persistence/run_store.py:590-595 | the Session leaves the index, which equals the scan afterwards |
| ExecutionEvents.SourceCallsNeverOverlap | src/assistant_agent/application/runs.py:106-164 | for any number of threads and any schedule: closing the source overlaps no next and no other close, no two next overlap, the callback has run at most once and is told "not started" only if no next was admitted |
| ExecutionEvents.NoNextAfterClose | src/assistant_agent/application/runs.py:106-139 | after a close request or the end no further next is admitted and the callback does not run again |
| ExecutionEvents.NextIsAdmittedExactlyIf | src/assistant_agent/application/runs.py:106-115 | in every schedule an idle thread's next is admitted exactly if no close has got past its cancellation, no thread has finished the stream, and no other next is in progress |
| ExecutionEvents.StreamGoesOnUnlessClosed | src/assistant_agent/application/runs.py:106-164 | a close is requested only if some thread called close and then got past its cancellation; without one, and without a raise, the stream is neither closing nor finished and the callback has not run |
| ExecutionEvents.FlagsTellTheSchedule | src/assistant_agent/application/runs.py:87-164 | the flags for a requested close and for the end are set exactly if the schedule holds the move that sets them |
| ExecutionEvents.RequestedCloseIsDone | src/assistant_agent/application/runs.py:130-164 | with no call in progress, a requested close has run the callback exactly once unless closing the source raised, and after a raise the next close claims the source again |
| ExecutionEvents.OverlapNeedsRaiseAndSecondConsumer | src/assistant_agent/application/runs.py:106-164 | in every schedule the callback runs beside a next only if a next has raised and a second thread has called next |
| ExecutionEvents.OverlapPossibleExactlyIf | src/assistant_agent/application/runs.py:106-164 | whichever threads close, some schedule lets the callback run beside a next exactly if more than one thread may call next |
| ExecutionEvents.CallbackCanOverlapNextAfterRaise | src/assistant_agent/application/runs.py:118-122 | such a schedule, for any two threads that call next |
| ExecutionEvents.StepKeepsInv | src/assistant_agent/application/runs.py:87-164 | every lock section and every return or raise keeps exclusion, somebody left to finish, and the bookkeeping |
| InteractionPort.WaitersGetTheirOwnAnswer | src/assistant_agent/application/interactions.py:95-206 | in every interleaving: answered ids are pending, a request is answered at most once, no waiter reaches the clear-and-retry branch, and a returned decision is the one accepted answer to that very request with its id and type |
| InteractionPort.AnswerIsAcceptedExactlyIf | src/assistant_agent/application/interactions.py:95-111 | in every interleaving a response returns true exactly if the port is open and some thread is busy with a request of its id and type that is unanswered, uninterrupted and in time, and exactly if it becomes the answer of a request; otherwise nothing changes |
| InteractionPort.RequestIsTakenExactlyIf | src/assistant_agent/application/interactions.py:176-190 | a request is taken exactly if the port is open and no thread is busy with one of its id; it is then pending and queued |
| InteractionPort.HeadIsPublishedExactlyIf | src/assistant_agent/application/interactions.py:74-93 | the head of the queue is published exactly if some thread awaits an answer under its id |
| InteractionPort.InterruptAndCloseReachAll | src/assistant_agent/application/interactions.py:158-174 | an interrupt marks exactly the requests some thread is busy with, and interrupt and close undertake to wake exactly these |
| InteractionPort.NoWakeUpIsLost | src/assistant_agent/application/interactions.py:158-206 | a waiter on an answered, interrupted or closed request can wake up once the closing or interrupting thread has gone through its list |
| InteractionPort.LeavingForgetsOnlyItself | src/assistant_agent/application/interactions.py:202-205 | when a wait ends its id is forgotten everywhere and no other request is |
| InteractionPort.PublishedRequestIsWaitingExactlyIf | src/assistant_agent/application/interactions.py:74-93 | what the broker publishes has the id of an unanswered, uninterrupted request that is in time and that some thread is waiting on; it is that very request exactly if no later one has its id |
| InteractionPort.StaleRequestCanBePublished | src/assistant_agent/application/interactions.py:74-93 | a run that reuses an id and publishes the request that was given up |
| InteractionPort.AcceptedAnswerIsReturnedExactlyIf | src/assistant_agent/application/interactions.py:95-206 | from any state in which a waiting thread has an accepted answer: some continuation returns it, and one by its own steps does, exactly if the port is open, the request not interrupted, and the clock, if it is still to be read, within the deadline; by its own steps the thread can leave without it exactly if one of these fails or it has not woken before the deadline |
| InteractionPort.AcceptedAnswerCanBeLost | src/assistant_agent/application/interactions.py:95-111 | an accepted answer can miss its waiter, by this schedule |
| InteractionPort.StepKeepsInv | src/assistant_agent/application/interactions.py:61-206 | every lock section, wake-up and clock tick keeps ownership, objects, threads and notifications consistent |
| InteractionPort.BlockingInteractionPort.InterruptPending | src/assistant_agent/application/interactions.py:167-174 | exactly the pending requests are marked and handed out for waking |
| ToolBudgets.TruncateOutput | src/assistant_agent/tools/registry.py:40-48 | never longer than the limit, unchanged if it fits, otherwise a prefix and the marker |
| ToolBudgets.LimitOutput | src/assistant_agent/tools/registry.py:74-104 | charging the limited output never exceeds a positive cap; it differs from the output exactly if truncated; exhaustion is reported only if the cap is used up |
| ToolBudgets.OutputMeetsBothLimits | src/assistant_agent/tools/registry.py:74-104 | output that meets the limit of the call and what is left of the total is unchanged; any other is cut to the longest length that meets both, and the total is reported as exhausted exactly if it forbids one more character |
| ToolBudgets.ToolBudget.TryConsumeCall | src/assistant_agent/tools/models.py:47-56 | one unit taken exactly if one is left and characters are not used up, or the reason and nothing taken; within the caps afterwards if before |
| ToolBudgets.ToolBudget.RemainingOutputChars | src/assistant_agent/tools/models.py:68-71 | exactly this many characters can be charged without passing the caps |
| ToolBudgets.ToolBudget.ConsumeOutput | src/assistant_agent/tools/models.py:73-74 | afterwards that many fewer characters remain, down to none; negative amounts count as nothing |
| ToolBudgets.ToolBudget.LimitResultOutput | src/assistant_agent/tools/registry.py:74-104 | exactly the returned characters are charged, and the caps hold afterwards if before |
| ToolProtocol.StepKeepsInv | src/assistant_agent/tools/registry.py:341-404 | every step of a process, crash, resume, recovery decision and cancellation keeps the protocol invariant |
| ToolProtocol.EffectsAtMostOnce | src/assistant_agent/agent/run/resume.py:67-98 | counted over the actions of any run: a tool runs for a call at most once, plus once per recovery that asked about the call and was told to retry, plus once per recovery that found it recorded as safe; never the latter if no checkpoint recorded it so |
| ToolProtocol.CountersAreTimes | src/assistant_agent/agent/run/resume.py:67-98 | the counters of effects, retries and replays are exactly the actions that cause them |
| ToolProtocol.RecoveryDoesAsAsked | src/assistant_agent/agent/run/resume.py:80-97 | retry plans the call again, skip stores the recovery-skipped result, abort leaves the document as it was; the tool does not run and no other call changes |
| ToolProtocol.SkippedForGood | src/assistant_agent/agent/run/resume.py:89-97 | a skipped call keeps that result and never runs again |
| ToolProtocol.SafeCallIsReplayed | src/assistant_agent/agent/run/resume.py:64-71 | a call recorded as safe is planned again without a choice |
| ToolProtocol.RecoveryPassesOthers | src/assistant_agent/agent/run/resume.py:64-98 | a recovery goes through the batch from its first call and leaves every call alone that is not "started" |
| ToolProtocol.ReportedMeansRan | src/assistant_agent/agent/run/coordinator.py:487-569 | over any run a saved result that says that the tool ran is only there if it did |
| ToolProtocol.EffectsWithinBudget | src/assistant_agent/tools/registry.py:365-371 | over all runs no more effects than consumed units, no more units than the cap, and characters within a positive cap |
| ToolProtocol.EffectsArePrepared | src/assistant_agent/tools/registry.py:345-385 | every effect comes right after the permission, the consumed unit and the durable "started" of the same call |
| ToolProtocol.SavedResultIsFinal | src/assistant_agent/agent/tool_batch.py:68-78 | a call with a saved result never runs again and the result never changes |
| ToolProtocol.UnknownOutcomeNeedsDecision | src/assistant_agent/agent/run/resume.py:67-98 | if the tool of a call of unknown outcome that needs a decision runs again, a recovery has asked about it in between and was told to retry |
| ToolProtocol.EffectIsRemembered | src/assistant_agent/tools/registry.py:373-376 | after a crash a call that may have had its effect is "started" or has its result |
| ToolProtocol.BatchEndsSettled | src/assistant_agent/agent/run/coordinator.py:647-657 | at the end of a batch all calls are settled, so the check when closing it never fails |
| ToolProtocol.CancellingCanRaise | src/assistant_agent/agent/run/coordinator.py:494-496 | from a Run without calls: a refused call, a crash, a resume and a cancellation end the process and change nothing |
| ToolExecutor.ToolExecutor.Execute | src/assistant_agent/tools/registry.py:245-418 | the exact result and the exact budget afterwards for every rejection, denial, exhausted budget and answer; only the call itself changes; effect and unit exactly if it was allowed and affordable; saved, or left "started" if the outcome is unknown |
| ToolExecutor.OutcomeExactly | src/assistant_agent/tools/registry.py:245-418 | the tool runs exactly if the call is not rejected, permitted and affordable; every other answer says that it did not run; rejection before denial before budget; what is returned and charged |
| ToolExecutor.ToolExecutor.Denied | src/assistant_agent/tools/registry.py:107-132 | a refusal is limited, charged and saved as the result, without effect or unit |
| ToolExecutor.ToolExecutor.RequestPermissions | src/assistant_agent/tools/registry.py:341-354 | no result, effect or unit before the permission |
| ToolExecutor.ToolExecutor.ApprovalPending | src/assistant_agent/agent/run/coordinator.py:446-461 | the checkpoint before a prompt changes only status and policy of the call |
| ToolExecutor.ToolExecutor.ToolStarted | src/assistant_agent/agent/run/coordinator.py:463-485 | "started" is durable before the effect |
| ToolExecutor.ToolExecutor.ToolCompleted | src/assistant_agent/agent/run/coordinator.py:487-569 | the result is saved, or the call stays "started" without one |
| ToolExecutor.ToolExecutor.TryConsumeCall | src/assistant_agent/tools/registry.py:365-371 | a unit before "started", or the refusal saved as the result |
| ToolExecutor.ToolExecutor.RunAndLimit | src/assistant_agent/tools/registry.py:377-390 | the effect, then the limit; used characters grow by the limited output |
| ToolExecutor.ToolExecutor.CancelPending | src/assistant_agent/agent/tool_batch.py:150-175 | every remaining call gets one cancellation result and one message; it raises exactly if one of them already has a result |
| ToolExecutor.ToolExecutor.CancelNext | src/assistant_agent/agent/run/coordinator.py:494-496 | a call that has ended cannot be completed again, any other gets the cancellation |
| ToolExecutor.ToolExecutor.StopHere | src/assistant_agent/agent/tool_batch.py:63-67 | a pause leaves the answers as they are, a cancellation completes them, and exactly when cancelling raises |
| ToolExecutor.ToolExecutor.WorkOff | src/assistant_agent/agent/tool_batch.py:68-113 | a saved call is skipped unchanged, any other is executed and answered unless its outcome is unknown |
| ToolExecutor.ToolExecutor.SkipSavedCall | src/assistant_agent/agent/tool_batch.py:68-78 | a saved call changes nothing but the position |
| ToolExecutor.ToolExecutor.EnsureBudget | src/assistant_agent/agent/run/budgets.py:164-210 | exactly when the budget is exhausted and the grant is higher, exactly the exhausted cap is raised to it |
| ToolExecutor.ToolExecutor.ExecuteToolBatch | src/assistant_agent/agent/tool_batch.py:50-147 | results, reported exhaustion, skipped calls and the remaining budget are those of working off the calls one by one; a finished or cancelled batch has a result for every call and one message for each that had none, in order; a pause or an unknown outcome leaves exactly a prefix; it finishes only if nobody asked to stop, and stops where somebody did |
| ToolExecutor.ResultIsSavedOrOutcome | src/assistant_agent/agent/tool_batch.py:68-113 | in that account a saved result is kept and every other call gets its own outcome under the budget left or granted at that point |
| ToolExecutor.TallyCounts | src/assistant_agent/agent/tool_batch.py:107-110 | skipped calls are those that did not run, and without grants the first exhaustion is reported |
| ToolExecutor.FreshAnswers | src/assistant_agent/agent/tool_batch.py:112-113 | with nothing saved, the messages are exactly one per call in call order |
| SessionLedger.WellFormedIsSelfContained | src/assistant_agent/contracts/sessions.py:146-181 | unique ids and replies to the nearest earlier user message give what readers demand, if every message owns what it shows |
| SessionLedger.SynchronizeIsSafe | src/assistant_agent/persistence/store.py:298-361 | the ledger only grows, only into the public history, stays sound, and doing the same again changes nothing |
| SessionLedger.SynchronizeExactly | src/assistant_agent/persistence/store.py:298-361 | a ledger that shows no prefix of the history stays; any other is completed with exactly one entry for every missing message, its id, role, time, content and reply by position, exactly if every missing id is unused and every new answer has an earlier user message; otherwise the first position that fails is refused |
| SessionLedger.PublicOfConcat | src/assistant_agent/persistence/store.py:75-86 | the public messages are a filter: they are found part by part |
| SessionLedger.NothingToAppend | src/assistant_agent/persistence/store.py:314-335 | a ledger that shows the whole history stays as it is |
| SessionLedger.AppendKeepsWellFormed | src/assistant_agent/persistence/store.py:336-361 | an appended entry with a new id that replies to the latest user message keeps the ledger well formed |
| SessionLedger.LastUser | src/assistant_agent/persistence/store.py:336-338 | the latest user message, none exactly if there is none |
| SessionLedger.LastUserIsLatest | src/assistant_agent/persistence/store.py:329-331 | no user message comes behind the one that is found |
| SessionLedger.AutoTitle | src/assistant_agent/application/models.py:34-41 | a valid title of at most eighty characters, the beginning of the collapsed text of a user message unless the Session is empty |
| SessionLedger.TitleIsFirstText | src/assistant_agent/application/models.py:34-41 | it is the collapsed text of the first user message that is not blank, cut to eighty characters |
| SessionLedger.WordsOfJoined | src/assistant_agent/application/models.py:30-31 | splitting at white space undoes joining with blanks, so collapsing twice is collapsing once |
| SessionStore.SessionStore.Save | src/assistant_agent/persistence/store.py:251-296 | the exact outcome and document for a Session of any age; on success the Session in memory is the document |
| SessionStore.SaveGoesThroughExactlyIf | src/assistant_agent/persistence/store.py:251-361 | a save goes through exactly if the Session is not deleted, exists or is new as expected, continues what is stored, and every missing message can be appended; and the refusals |
| SessionStore.SaveWritesEverything | src/assistant_agent/persistence/store.py:271-296 | what is written: the messages and what the Session shows, the time, one entry for every missing message, and the first title |
| SessionStore.SynchronizeLedger | src/assistant_agent/persistence/store.py:298-361 | the in-place loop computes the specified extension or the specified failure |
| SessionStore.MergeStored | src/assistant_agent/persistence/store.py:273-285 | title, version, creation time and origin come from the document, pending entries only if they continue its ledger |
| SessionStore.Finish | src/assistant_agent/persistence/store.py:286-296 | the extended ledger, the first title and the time, or the failure |
| SessionStore.SaveContinues | src/assistant_agent/persistence/store.py:251-296 | however old the saved Session is, the document continues the one on disk, keeps a user title and stays sound |
| SessionStore.StaleSaveIsRefusedExactlyIf | src/assistant_agent/persistence/store.py:282-285 | a pending ledger conflicts exactly if it is longer than the stored one and does not begin with it |
| SessionStore.DocumentsOnlyContinue | src/assistant_agent/persistence/store.py:251-397 | for any interleaving of saves of any Sessions, renamings, forks and deletions: the ledger is only extended, the metadata version never decreases and grows with every new title, and the document is never recreated in between |
| SessionStore.UserTitleNeedsRename | src/assistant_agent/persistence/store.py:375-397 | a title the user set is replaced only by a renaming to the new title that goes through at that moment |
| SessionStore.OnlyOneRenameWins | src/assistant_agent/persistence/store.py:375-397 | of all renamings that expect the same version only one ever goes through |
| SessionStore.EveryDocumentIsReadable | src/assistant_agent/contracts/sessions.py:146-181 | over any run in which only sound ledgers are saved readers accept every document |
| SessionStore.UnreadableForGood | src/assistant_agent/contracts/sessions.py:146-181 | a document with a message that shows what belongs to another is refused for as long as it exists, whatever is saved later |
| SessionStore.NoWriteAfterTombstone | src/assistant_agent/persistence/store.py:260-261 | a deleted Session's document is never written again |
| SessionStore.SessionStore.UpdateMetadata | src/assistant_agent/persistence/store.py:375-397 | goes through exactly for a valid title and the current version of a living Session; then title, source and version of this document change and its ledger and all others stay; otherwise nothing changes |
| SessionStore.SessionStore.FindFork | src/assistant_agent/persistence/store.py:479-502 | finds a fork with this source and key exactly if there is one |
| SessionStore.SessionStore.ForkSession | src/assistant_agent/persistence/store.py:399-477 | one new document and nothing else changed, which readers accept exactly if no output is shown by two copied messages; a known key returns that fork or a conflict and changes nothing |
| SessionStore.ForkIsFoundAgain | src/assistant_agent/persistence/store.py:411-421 | a repeated key finds the same fork, whatever happened since, while it exists |
| SessionFork.BuildForkedSession | src/assistant_agent/persistence/session_fork.py:30-137 | the copied prefix with everything it shows, every output published once for the first message that shows it, or the first obstacle |
| SessionFork.PublishOutputs | src/assistant_agent/persistence/session_fork.py:73-85 | an output the new Session has already is shown as it was published, for whatever message that was |
| SessionFork.Boundary | src/assistant_agent/persistence/session_fork.py:40-49 | the chosen user message, none exactly if the Session has no such user message |
| SessionFork.ForkIsARenamedPrefix | src/assistant_agent/persistence/session_fork.py:50-111 | same length, roles, contents, times and reply edges, unique ids, no reply leaves the prefix |
| SessionFork.ForkIsSelfContainedExactlyIf | src/assistant_agent/persistence/session_fork.py:85-124 | readers accept the fork of a well-formed ledger exactly if no output is shown by two of the copied messages; synchronizing it with its own messages changes nothing |
| SessionFork.ReadableSharesNothing | src/assistant_agent/contracts/sessions.py:166-171 | in a readable Session whose outputs each belong to one message none is shown twice, so its forks are readable |
| SessionFork.MessageIsCopiedExactlyIf | src/assistant_agent/persistence/session_fork.py:59-84 | a message of a well-formed ledger is copied exactly if the Session still has all its charts and outputs unchanged and every output can be read and published |
| SessionFork.CopiesOneByOne | src/assistant_agent/persistence/session_fork.py:50-111 | every message is copied with its role, time and content, every chart with its own id for the copied message, every output for the first copied message that shows it |
| SessionFork.ForkBegins | src/assistant_agent/persistence/session_fork.py:112-137 | the new document: id, times, version, title, origin, and the copied messages as its history |
| RunSync.SynchronizeRunLedger | src/assistant_agent/application/runs.py:318-417 | the in-place loop computes the specified ledger or failure, and only ever appends |
| RunSync.RunSyncShowsHistory | src/assistant_agent/application/runs.py:318-417 | the new ledger extends the old one, is well formed and shows exactly the public history, plus one empty answer exactly if what the Run made has no final answer |
| RunSync.RunSyncSucceedsExactlyIf | src/assistant_agent/application/runs.py:318-417 | success exactly if the ledger shows a prefix, every new answer follows a user message, and charts come with at most one answer |
| RunSync.SecondSyncChangesNothingUnlessStranded | src/assistant_agent/application/runs.py:326-335 | a second synchronization changes nothing, or fails exactly if an empty answer had to be added |
| RunSync.SecondSyncCanFail | src/assistant_agent/application/runs.py:326-335 | a Run with one question and one output that can be synchronized once and not again |
| RunSync.StoreSyncChangesNothing | src/assistant_agent/persistence/store.py:314-335 | saving with the history of the Run appends nothing more |
| RunSync.RunSyncIsSelfContainedExactlyIf | src/assistant_agent/contracts/sessions.py:146-181 | readers accept the new ledger of a readable Session exactly if the Run has made no outputs, or has no answer before its last message |
| RunSync.EarlierAnswerBreaksSelfContainment | src/assistant_agent/application/runs.py:343-383 | an earlier answer shows all outputs of the Run, which belong to another message |
| RunSync.RunSyncWritesExactly | src/assistant_agent/application/runs.py:318-417 | every new entry by position: id, Run, time, role, content; a question shows nothing, an answer replies to the latest question and shows all charts and outputs; what has no final answer is carried by one more, empty message |
| RunSync.AllIsShownExactlyIf | src/assistant_agent/application/runs.py:384-417 | some new message shows everything the Run made exactly if it has a final answer, or has not made both charts and outputs |
| RunSync.OutputCanStayUnshown | src/assistant_agent/application/runs.py:384-417 | a Run with one question, one chart and one output, whose output no message shows |
| RunSync.NewMessagesAreOfRun | src/assistant_agent/application/runs.py:337-368 | every new message has an id of this Run, and shows all or none of its charts, and all or none of its outputs |
| TerminalSync.SyncTerminalSession | src/assistant_agent/application/runs.py:261-315 | load, extend, save as one replacement of the document, or nothing |
| TerminalSync.SyncedSessionShowsRun | src/assistant_agent/application/runs.py:261-315 | the save goes through and the document shows exactly the public history |
| TerminalSync.SyncTwiceChangesNothing | src/assistant_agent/application/runs.py:308-315 | repeating it after a crash before the Run is marked changes nothing, unless something is stranded |
| TerminalSync.SyncWritesCleanExactlyIf | src/assistant_agent/application/runs.py:261-315 | the save of a Session in order keeps it readable exactly if the Run has made no outputs, or has no answer before its last message |
| TerminalSync.TwoAnswersBreakTheSession | src/assistant_agent/application/runs.py:343-383 | from an empty store: a Session and a Run with two answers and an output, and readers refuse the document |
| TerminalSync.EarlierAnswerSpoilsForks | src/assistant_agent/persistence/session_fork.py:59-111 | after a Run with outputs and an earlier answer every fork before a later user message is refused by readers |
| TerminalSync.SpoiledForkIsReachable | src/assistant_agent/persistence/session_fork.py:59-111 | such a fork, reached from an empty store, to which nothing was an obstacle |
| TerminalSync.MergeExactly | src/assistant_agent/application/runs.py:276-291 | every id is there once, with what the Session had last under it, or else with what the Run made first; and nothing else |
| TerminalSync.MergeTwice | src/assistant_agent/application/runs.py:276-291 | merging the same again changes nothing |
| OutputStore.PublishKeepsLimits | src/assistant_agent/persistence/outputs.py:51-128 | counts and bytes per Run and Session within their limits, at most one output per call, all others unchanged |
| OutputStore.PublishSucceedsExactlyIf | src/assistant_agent/persistence/outputs.py:51-128 | a new output is published exactly if all limits hold with it, a known one exactly if it is the same publication, and then nothing changes |
| OutputStore.PublishTwice | src/assistant_agent/persistence/outputs.py:71-92 | the same publication again, after any others, returns the same artifact and changes nothing |
| OutputStore.CrashedFinalizeRepeats | src/assistant_agent/persistence/outputs.py:232-259 | after a crash between publication and marker, finalizing again returns the same artifact |
| OutputStore.FinalizePublishesTheChunks | src/assistant_agent/persistence/outputs.py:232-259 | finalizing an open draft publishes the very bytes of its chunks, refused exactly with a gap, without chunks, or if they are no text |
| OutputStore.BeginSucceedsExactlyIf | src/assistant_agent/persistence/outputs.py:130-179 | a draft is begun exactly if its type is allowed and the Run has one left; one that is there is found, completed or refused |
| OutputStore.AppendSucceedsExactlyIf | src/assistant_agent/persistence/outputs.py:181-230 | a chunk is accepted exactly if the draft is open and whole, and the chunk repeats one or is the next and all limits hold with it |
| OutputStore.RunKeepsLimits | src/assistant_agent/persistence/outputs.py:51-366 | over any sequence of operations and crashes, draft bytes per file, Run and Session, published counts and bytes stay within their limits |
| OutputStore.StepKeepsSound | src/assistant_agent/persistence/outputs.py:51-366 | each operation, completed or crashed, keeps all limits and the content of every other output |
| OutputStore.DeleteKeepsOk | src/assistant_agent/persistence/outputs.py:330-333 | exactly one output goes, all limits hold |
| OutputStore.WithoutExactly | src/assistant_agent/persistence/outputs.py:335-346 | deleting a Session and discarding the drafts of a Run take exactly what is theirs |
| OutputStore.ContentNeverChanges | src/assistant_agent/persistence/outputs.py:71-92 | a published output never changes while it lives |
| OutputStore.DraftLimitHoldsExactlyIf | src/assistant_agent/persistence/outputs.py:148-158 | the limit on drafts is passed exactly if it is reached and the directory is there without a description |
| OutputStore.DraftLimitCanBeExceeded | src/assistant_agent/persistence/outputs.py:148-179 | such a run with one crash |
| OutputStore.ResetCrashSpoilsDraft | src/assistant_agent/persistence/outputs.py:273-279 | a crash inside a reset makes the draft unusable exactly if it falls after the first and before the last chunk |
| OutputStore.ResetCrashCanSpoilDraft | src/assistant_agent/persistence/outputs.py:273-279 | a run with two chunks and such a crash |
| OutputStore.OutputStore.PublishText | src/assistant_agent/persistence/outputs.py:51-128 | computes the specified publication |
| OutputStore.OutputStore.BeginTextDraft | src/assistant_agent/persistence/outputs.py:130-179 | the draft as specified, also if the process dies after the directory |
| OutputStore.OutputStore.AppendTextDraft | src/assistant_agent/persistence/outputs.py:181-230 | the chunk appended within all limits, repeated or refused, and the size of the draft |
| OutputStore.OutputStore.ResetTextDraft | src/assistant_agent/persistence/outputs.py:273-279 | the loop leaves exactly the chunks a crash after that many removals leaves |
| OutputStore.OutputStore.ReadTextDraft | src/assistant_agent/persistence/outputs.py:261-271 | returns a text exactly if the draft has no gap, has chunks, and they are together the encoding of that text; otherwise the exact refusal |
| OutputStore.OutputStore.FinalizeTextDraft | src/assistant_agent/persistence/outputs.py:232-259 | the specified artifact, also with a crash before the marker |
| OutputStore.OutputStore.Fork | src/assistant_agent/persistence/outputs.py:348-366 | the same content under the target Session |
| OutputStore.SecondCopyIsFirst | src/assistant_agent/persistence/outputs.py:348-366 | copying an output into the same Session for another message returns the first copy and changes nothing |
| Utf8.DecodeOfEncode | src/assistant_agent/persistence/outputs.py:261-271 | decoding the encoded text gives the text back (section 3 of RFC 3629) |
| Utf8.EncodeOfDecode | src/assistant_agent/persistence/outputs.py:261-271 | strict decoding accepts only the encoding of what it returns (section 3 of RFC 3629) |
| Utf8.Examples | src/assistant_agent/persistence/outputs.py:261-271 | the examples of section 7 of RFC 3629 |
| ArtifactCapture.LongestFits | src/assistant_agent/agent/artifact_capture.py:74-82 | exactly the prefixes up to that length fit |
| ArtifactCapture.ArtifactCaptureWriter.LargestPrefix | src/assistant_agent/agent/artifact_capture.py:74-82 | the binary search finds the longest fitting prefix |
| ArtifactCapture.CutsAreTheText | src/assistant_agent/agent/artifact_capture.py:44-54 | pieces and rest are the text; pieces are not empty, fit, and end at character boundaries; with a limit of at least four the rest fits |
| ArtifactCapture.CutsOfConcat | src/assistant_agent/agent/artifact_capture.py:44-54 | cutting text that arrives in parts cuts it as if it had arrived at once |
| ArtifactCapture.ArtifactCaptureWriter.Start | src/assistant_agent/agent/artifact_capture.py:36-42 | an earlier attempt leaves nothing behind |
| ArtifactCapture.ArtifactCaptureWriter.Write | src/assistant_agent/agent/artifact_capture.py:44-54 | draft and buffer depend only on what has arrived; it ends, and a character is too wide only for a limit below four |
| ArtifactCapture.ArtifactCaptureWriter.AppendPiece | src/assistant_agent/agent/artifact_capture.py:84-92 | chunks are numbered contiguously and hold exactly the pieces |
| ArtifactCapture.ArtifactCaptureWriter.Finalize | src/assistant_agent/agent/artifact_capture.py:56-72 | a successful end publishes exactly the text that arrived |
| BoundedCollector.Collector.Add | src/assistant_agent/execution/process.py:84-94 | head, tail and total are those of the whole stream for any chunking, in bounded memory |
| BoundedCollector.Collector.Finish | src/assistant_agent/execution/process.py:96-107 | the stream itself, or its beginning, the exact omitted count and its end |
| Decimals.DecimalIsExact | src/assistant_agent/execution/process.py:102-103 | the printed number can be read back |
| ChartTransforms.BinIndexIsRight | src/assistant_agent/tools/chart_transforms.py:42-49 | the computed index is in range and names the bin whose interval contains the value |
| ChartTransforms.BinsAreDisjoint | src/assistant_agent/tools/chart_transforms.py:36-41 | no value lies in two bins |
| ChartTransforms.Histogram | src/assistant_agent/tools/chart_transforms.py:31-50 | for every non-empty list and one to a hundred bins there are that many bins of equal width, or one around values that are all equal; each count is the number of values in its bin and the counts add up to all values |
| ChartTransforms.QuantileIsMonotone | src/assistant_agent/tools/chart_transforms.py:310-318 | a larger probability never gives a smaller type-7 quantile |
| ChartTransforms.SomeValueInside | src/assistant_agent/tools/chart_transforms.py:107-113 | some value lies between the fences, so both whisker searches succeed |
| ChartTransforms.Boxplot | src/assistant_agent/tools/chart_transforms.py:107-116 | quartiles and whiskers are ordered, the outliers are exactly the values outside the fences, and inside and outliers make up all values |
| ChartTransforms.InsideAndOutside | src/assistant_agent/tools/chart_transforms.py:114-116 | every value is inside or an outlier |
| ChartTransforms.WhiskerBelowQuartileExactlyIf | src/assistant_agent/tools/chart_transforms.py:110-113 | the lower whisker is at most the first quartile exactly if the value just below the quartile is inside the fence |
| ChartTransforms.WhiskerCanExceedQuartile | src/assistant_agent/tools/chart_transforms.py:110-113 | four values for which it is not |
| ChartTransforms.WhiskerAboveQuartileExactlyIf | src/assistant_agent/tools/chart_transforms.py:110-113 | the upper whisker is at least the third quartile exactly if the value at or just above the quartile is inside the fence |
| ChartTransforms.WhiskerCanFallBelowQuartile | src/assistant_agent/tools/chart_transforms.py:110-113 | four values for which it is not |
| ChartTransforms.PercentIsWhole | src/assistant_agent/tools/chart_transforms.py:183-188 | the percentages of a category add up to one hundred |
| DatasetKeys.ChartDraft.NormalizeDatasetKeys | src/assistant_agent/tools/chart_input_v2.py:219-250 | duplicates are refused unchanged; otherwise keys are unique, valid keys stay, the others get the free aliases one after the other, references are rewritten, and a second pass changes nothing |
| DatasetKeys.NextAlias | src/assistant_agent/tools/chart_input_v2.py:238-241 | the search for a free alias ends at the first one |
| DatasetKeys.RewriteTranslatesReferences | src/assistant_agent/tools/chart_input_v2.py:253-280 | every reference, in nested panels too, is translated and nothing else |
| DatasetKeys.ReferenceStillResolves | src/assistant_agent/tools/chart_input_v2.py:219-280 | a reference to a declared column refers to the same column afterwards, and to no other |
| DatasetKeys.DanglingReferenceIsCapturedExactlyIf | src/assistant_agent/tools/chart_input_v2.py:219-280 | a reference to no column resolves afterwards exactly if it is one of the first aliases that are no keys yet, of which there are as many as unusable keys |
| DatasetKeys.DanglingReferenceCanBeCaptured | src/assistant_agent/tools/chart_input_v2.py:219-280 | the column "bad key" captures a reference to "field_1" |
| ArtifactSize.StateSize | src/assistant_agent/contracts/charts_v2.py:477-482 | four rounds state the least truthful size, or none within the limit exists |
| ArtifactSize.ThirdMeasurementIsTruthful | src/assistant_agent/contracts/charts_v2.py:437-449 | three rounds reach a size that the integrity check accepts, for any payload |
| ArtifactSize.ThirdMeasurementIsLeast | src/assistant_agent/persistence/session_fork.py:162-165 | no smaller size is truthful |
| ArtifactSize.SecondMeasurementCanBeWrong | src/assistant_agent/persistence/session_fork.py:162-165 | two rounds are not enough |

## Left out

- Real file systems, `fsync`, clocks, JSON and hashing: files are map entries replaced atomically, directory times are a version, timestamps are ordered integers, ids and hashes are injective constructors; ids of Runs and Sessions are naturals with their order for the string order.
- Slots and documents with an unknown schema version: the code raises before it changes anything.
- A directory tree or a temporary file that is created or removed file by file counts as one step, except for slots, refs, chunks and markers.
- Saves of Runs without a Session that overlap an indexed operation: covered by RunDisk.StandaloneStepsDoNotInterfere step by step, not as one run.
- `RunStore.list`, `prune` and the CLI around the stores: they only read, or call the operations modelled here.
- The lock tables of `PersistentLifecycle`: locks appear as the atomic sections they protect; the order in which `fork_session` takes two locks is not modelled.
- Tool batches without a coordinator, tool observers, logging and approval-time accounting: they write no checkpoint.
- The texts of refusals of an exhausted budget: the numbers in them do not matter and they are not charged.
- Iteration budgets, continuation requests and their hard limits: a granted extension is an input, caps may only grow.
- Compaction of the conversation: the ledger rule for a history that is no prefix is modelled, the compaction itself is not.
- Message content is its plain text; attachments of forked messages and their new ids are not part of this model.
- Previews, provider, model and the separate list of assistant messages of a Session.
- SessionFork.BuildForkedSession: which outputs cannot be read or published again is a parameter; the limits behind it are those of the output store.
- Validation of output filenames, identifiers and content: inputs are taken as validated, the content check is a parameter.
- Payload files of outputs are part of their metadata: a payload without metadata is invisible to every listing.
- A crash inside the deletion of an output, between its two files.
- Surrogates, which cannot be encoded: texts are Unicode scalar values.
- Floating point: numbers are exact; the cube root of the Freedman-Diaconis rule is left out, the number of bins is given; labels, axes and grouping by category are not modelled.
- `aggregate_dataset` and `heatmap_dataset`: they would only add easy sums.
- DatasetKeys.ChartDraft.NormalizeDatasetKeys: aliases are proved valid while the number of columns has at most 58 digits, because a key has at most 64 characters.
- OutputStore.ResetCrashSpoilsDraft: says which crashes spoil a draft; the code offers no way to repair one, only to discard the drafts of the Run.
