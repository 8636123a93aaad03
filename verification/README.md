# Sagas, their services and what they guarantee

A Dafny model of the transactional core of a service platform: the saga orchestrator with its state
store, the three sagas built on it, and the services around them whose state or arithmetic carries a
guarantee.  `dafny verify dfyconfig.toml` checks everything.

Outcomes that the outside world decides (a database call failing, a runner's verdict, a provider's
answer, the clock, the scheduler) are parameters.  Theorems quantify over all of them.  Lemmas are
marked `{:induction false}` throughout: every induction is written out.

| file | what it models |
|---|---|
| SagaSpec, SagaOrder, SagaTheorems | one saga run as functions over any state; stable sorting; what every run keeps |
| SagaPublishing | the same run under any publisher, and when it is the run nothing disturbs |
| SagaOrchestrator | the orchestrator class, its publisher, its store connection and context, proved against SagaPublishing |
| SagaMachine | the same run cut into single calls, for interleaving |
| StateStore | the TTL table, its class, and histories of calls |
| Registration | any number of registration sagas interleaved on one users table |
| TestRunSaga | the test-run saga, its loop over cases and the TestRun entity |
| PaymentSaga | the subscription payment saga as a trace of calls |
| Permissions | role permissions flattened to rows and grouped back |
| BillingPeriod | ECMA-262 dates and the length of billing periods |
| Paging | page listing and the shared pagination response |
| JsText, JsonPath, Runners | number and path reading, the API and web test runners |
| KafkaConsumer | one partition of the search service's consumer |
| Invoices, InvoiceMachine | invoices, transactions, dunning and refunds; payments and sweeps cut into single reads and writes |

Where a property one would expect does not hold of the code, the model keeps the code and states the
exact condition:

- A failing step with an empty name is reported COMPLETED, because the failed step's name is tested
  for truth (StatusReflectsFailure, EmptyNameHidesFailure).  The status shows the failure of every run
  of steps so named if and only if no name is empty (FailuresShowIffNamed).
- A step that rejects with null or undefined is not compensated: reading its message throws in the
  catch block, and the run is FAILED with every completed step left standing.  Compensation begins if
  and only if what the first failing attempt threw has a message (CompensationBeginsIff,
  RejectionWithoutReason); an undo that rejects so ends the compensation of the steps before it.  A run
  is aborted like this if and only if its first failing attempt, or one of the undos then made, answers
  without a reason (AbortedIff).  Such a run also stays IN_PROGRESS in the store: on the same condition
  the stored status is not the returned one (StatusTellsResultIff).
- A publisher can change a run, though its errors are swallowed: when it rejects with null or undefined
  the logging of that throws.  A run that fails, if at all, with an error of its own, and whose undos
  then work, is left as it is if and only if the publisher so rejects on none of its events but
  STEP_COMPENSATED (PublisherIsHarmlessIff; the first half holds of every run, HarmlessPublisher).
  Otherwise an executed step can stay uncompensated (CompletionLost).
- Updating a role is two writes without a transaction: when the second fails, the role is left with no
  permissions (UpdateOrganizationRole, FailedUpdateEmpties).
- `compensate` does not reverse its argument, although its comment and the specification file next to
  it (shared/common/src/saga/saga-orchestrator.service.spec.ts:261-302) say so; `execute` does the
  reversing (CompensateKeepsGivenOrder).
- Steps that share a name overwrite each other's result.  Steps that undo themselves are rolled back
  in every run if and only if their names are pairwise distinct (RollbackIffDistinct); for every two
  equal names SharedNameBreaksRollback gives the run that is not.
- An update of an expired entry merges into it until a sweep removes it, so sweeps can be seen
  through updates, exactly then (SweepVisibleToUpdate, SweepShows); the status cannot be affected
  (FieldTracks).
- Loading permissions throws when a resource is named like a property every object inherits, such as
  "constructor" (GroupMeaning, RoundTrip, ConstructorCannotBeLoaded).
- A test run can be left RUNNING; LeftRunning says exactly for which answers of the calls, and
  LeftRunningHappens gives two.
- No code increments the retry header of a Kafka record.  A record can reach the dead-letter topic if
  and only if its header is exhausted as written, a header that is not a number included, and its
  value parses (DeadLetterIff); a record below the limit that keeps failing is retried without end
  (FailingRecordHoldsThePartition, RetriedWithoutEnd).
- The dead-letter step parses the value again under its own catch.  A record that is not JSON is
  therefore passed with no trace: as long as failures carry errors, a passed record is dropped if and
  only if its value does not parse (DroppedIffUnreadable, UnreadableRecordIsDropped); a handler that
  rejects with null or undefined drops a readable record in the same way (FailingAttempt).
- A period ends on the start's day of the month exactly when the month reached is long enough
  (SameDayOfMonth, MonthRunsOver).
- The invoice invariant holds for atomic calls.  When payments and sweeps interleave, it holds
  throughout if and only if each write finds what was read before it (SoundThroughoutIffInTime);
  DoublePayment and PaidIsLeft give the two ways it fails.

## Model

| member | source | states |
|---|---|---|
| SagaOrchestrator.EventPublisher.Publish | shared/common/src/saga/interfaces/saga-event-publisher.interface.ts:6-7 | every event handed over is recorded as an attempt, whatever the publisher throws |
| SagaOrchestrator.Orchestrator.PublishEvent | shared/common/src/saga/saga-orchestrator.service.ts:330-342 | one attempt on the publisher if there is one; an error it throws goes nowhere, a rejection without a reason escapes |
| SagaOrchestrator.Orchestrator.TryStep | shared/common/src/saga/saga-orchestrator.service.ts:200-222 | the step is executed, its result stored, the completion hook run and the completion published, and what that throws answered |
| SagaOrchestrator.Orchestrator.ExecuteStep | shared/common/src/saga/saga-orchestrator.service.ts:185-231 | state, recorded results, error and events of one step, with both hooks and any publisher, as `ExecStepVia` says |
| SagaOrchestrator.Orchestrator.CompensateStep | shared/common/src/saga/saga-orchestrator.service.ts:252-283 | one undo with the result recorded for the step; errors, of the undo or of publishing, are passed over, and the undo skipped when its first event cannot be published; an undo that rejects without a reason escapes |
| SagaOrchestrator.Orchestrator.Compensate | shared/common/src/saga/saga-orchestrator.service.ts:236-287 | undoes the steps in the order given, to the state and events of `CompensateVia`; nothing when its own event cannot be published |
| SagaOrchestrator.Orchestrator.CompensateAll | shared/common/src/saga/saga-orchestrator.service.ts:251-284 | the loop: every undo in turn, up to the first that rejects without a reason |
| SagaOrchestrator.Orchestrator.FailStepAndCompensate | shared/common/src/saga/saga-orchestrator.service.ts:81-99 | publishes the failure, then undoes the completed steps last first; stops where what was thrown has no message or an event cannot be published |
| SagaOrchestrator.Orchestrator.AdvanceAll | shared/common/src/saga/saga-orchestrator.service.ts:76-86 | the loop leaves the state, results, completed prefix, failed step and events of the forward run |
| SagaOrchestrator.Orchestrator.RunForward | shared/common/src/saga/saga-orchestrator.service.ts:70-103 | the loop with its catch block: also the state and events of the compensation, and whether it ends in the outermost catch |
| SagaOrchestrator.Orchestrator.FinalStatus | shared/common/src/saga/saga-orchestrator.service.ts:107-129 | COMPENSATED exactly when a failed step with a non-empty name is recorded; stamps and publishes accordingly, and says whether publishing escaped |
| SagaOrchestrator.Orchestrator.Abort | shared/common/src/saga/saga-orchestrator.service.ts:155-179 | SAGA_FAILED is published and the run FAILED, or the call rejects if that event cannot be published |
| SagaOrchestrator.Orchestrator.RecordOutcome | shared/common/src/saga/saga-orchestrator.service.ts:135-179 | the result stands and is stored if the update does not throw; FAILED, with one more event, if it throws an error; rejected if it throws without a reason, or SAGA_FAILED cannot be published |
| SagaOrchestrator.Orchestrator.Conclude | shared/common/src/saga/saga-orchestrator.service.ts:105-179 | status, stamps, events, result and stored state after the loop, whatever the store and the publisher answer |
| SagaOrchestrator.Orchestrator.TryRun | shared/common/src/saga/saga-orchestrator.service.ts:74-179 | the run from its first step on: state, events, result, stored state and stamps of a run that is completed, compensated, aborted or whose update throws |
| SagaOrchestrator.Orchestrator.SaveAndRun | shared/common/src/saga/saga-orchestrator.service.ts:61-180 | nothing runs when `save` throws; otherwise the saved state and then the whole try block |
| SagaOrchestrator.Orchestrator.Execute | shared/common/src/saga/saga-orchestrator.service.ts:34-180 | for all steps, states, stores and publishers: the whole run on the sorted steps, its status, completed and failed steps, error, events, stamps and stored state; rejected with nothing run exactly when `save` throws or SAGA_STARTED cannot be published |
| SagaOrchestrator.Orchestrator.GetStatus | shared/common/src/saga/saga-orchestrator.service.ts:292-299 | the status the store holds and has not expired, none without a store |
| SagaOrchestrator.StatusFollowsRun | shared/common/src/saga/saga-orchestrator.service.ts:61-144 | the status is IN_PROGRESS from save to update and the returned one after it, until one TTL passes, whatever other sagas, reads and sweeps do |
| SagaOrchestrator.ResultTellsSteps | shared/common/src/saga/saga-orchestrator.service.ts:76-151 | for every run: the completed steps are the names before the first failing attempt, in order, and the failed step its name, or all the names and none |
| SagaOrchestrator.ResultTellsOutcome | shared/common/src/saga/saga-orchestrator.service.ts:105-179 | status and error of every run from its attempts: the first failure's own error and COMPENSATED or, unnamed, COMPLETED; FAILED where a reason is missing or the store throws |
| SagaOrchestrator.AnswerTells | shared/common/src/saga/saga-orchestrator.service.ts:144-179 | the caller gets that result, or a rejection exactly when SAGA_FAILED cannot be published or the store throws without a reason |
| SagaOrchestrator.StatesTell | shared/common/src/saga/saga-orchestrator.service.ts:61-67 | the fields stored at the start and in the end, with the status under its own name |
| SagaOrchestrator.StoredStatus | shared/common/src/saga/saga-orchestrator.service.ts:61-144 | the stored status for one hour after the last write: COMPENSATED after a failure of a named step, COMPLETED otherwise, IN_PROGRESS when a reason was missing; then none |
| SagaOrchestrator.Orchestrator.RecordedIsWritten | shared/common/src/saga/saga-orchestrator.service.ts:61-144 | a store that does not throw is left as the run's own writes leave it |
| SagaOrchestrator.StatusTellsResultIff | shared/common/src/saga/saga-orchestrator.service.ts:61-179 | after a run on a store that does not throw, with a harmless publisher, the stored status is the returned one if and only if neither the first failing attempt nor an undo then made answers without a reason |
| SagaPublishing.HarmlessPublisher | shared/common/src/saga/saga-orchestrator.service.ts:330-342 | for every run: a publisher that rejects without a reason on none of its events but STEP_COMPENSATED changes nothing, whatever errors it throws |
| SagaPublishing.PublisherIsHarmlessIff | shared/common/src/saga/saga-orchestrator.service.ts:330-342 | for a run that fails, if at all, with an error of its own and whose undos work, that is the exact condition for the run to stay as it is |
| SagaPublishing.CompletionLost | shared/common/src/saga/saga-orchestrator.service.ts:200-229 | a rejection without a reason of STEP_COMPLETED leaves the executed step standing in a run reported COMPENSATED |
| SagaPublishing.StartChoked | shared/common/src/saga/saga-orchestrator.service.ts:192-198 | a rejection without a reason of STEP_STARTED: the step fails unexecuted |
| SagaPublishing.CompletionChoked | shared/common/src/saga/saga-orchestrator.service.ts:200-229 | of STEP_COMPLETED: the executed and recorded step fails through its failure hook |
| SagaPublishing.CompensationChoked | shared/common/src/saga/saga-orchestrator.service.ts:90-99 | of STEP_FAILED or SAGA_COMPENSATING: nothing is undone and the run is aborted |
| SagaPublishing.UndoChoked | shared/common/src/saga/saga-orchestrator.service.ts:252-283 | of STEP_COMPENSATING: that undo is skipped and the others go on |
| SagaPublishing.EndChoked | shared/common/src/saga/saga-orchestrator.service.ts:107-179 | of the last event: the run is aborted with all done or undone; of SAGA_FAILED or SAGA_STARTED: the call rejects |
| SagaOrder.SortStepsIsStable | shared/common/src/saga/saga-orchestrator.service.ts:304-306 | the sorted list is ordered, a permutation, and keeps ties in input order |
| SagaOrder.StableSortIsUnique | shared/common/src/saga/saga-orchestrator.service.ts:304-306 | any ordered list with the same ties is the same list |
| SagaOrder.SupplyOrderIsIrrelevant | shared/common/src/saga/saga-orchestrator.service.ts:40-76 | with distinct orders the whole run does not depend on how the steps were supplied |
| SagaOrder.OrderedIsSorted | shared/common/src/saga/saga-orchestrator.service.ts:304-306 | a list already in order is left as it is |
| SagaTheorems.CompletedIsPrefixBeforeFirstFailure | shared/common/src/saga/saga-orchestrator.service.ts:76-103 | the completed steps are exactly those before the first attempt that fails, and the error is that attempt's |
| SagaTheorems.AttemptMeaning | shared/common/src/saga/saga-orchestrator.service.ts:200-230 | one attempt call by call: execute, recording, completion hook, failure hook, and whose error and state count |
| SagaTheorems.UndoMeaning | shared/common/src/saga/saga-orchestrator.service.ts:252-283 | an undo is given the result recorded for its step and escapes only by rejecting without a reason |
| SagaTheorems.StatusReflectsFailure | shared/common/src/saga/saga-orchestrator.service.ts:107-129 | the status differs from COMPLETED for a failed run if and only if the run was aborted or the failing step has a non-empty name |
| SagaTheorems.EmptyNameHidesFailure | shared/common/src/saga/saga-orchestrator.service.ts:109-120 | a failing step with an empty name is reported COMPLETED |
| SagaTheorems.FailuresShowIffNamed | shared/common/src/saga/saga-orchestrator.service.ts:109-120 | no run of steps with the given names hides a failure if and only if no name is empty |
| SagaTheorems.TraceIsAWord | shared/common/src/saga/saga-orchestrator.service.ts:54-166 | every run publishes the word of its own outcomes: pairs for completed steps, then success, or failure and the undos in reverse, each followed by STEP_COMPENSATED unless it threw, or an abort where a reason is missing |
| SagaTheorems.EveryWordIsATrace | shared/common/src/saga/saga-orchestrator.service.ts:54-166 | every word of that language is published by some run, so the language is exact |
| SagaTheorems.CompensationBeginsIff | shared/common/src/saga/saga-orchestrator.service.ts:81-99 | compensation begins if and only if the first failing attempt threw something that has a message; otherwise the failed run is FAILED in the state of that attempt |
| SagaTheorems.AbortedIff | shared/common/src/saga/saga-orchestrator.service.ts:81-166 | a run ends in the outermost catch block if and only if its first failing attempt, or one of the undos then made, answers without a reason |
| SagaTheorems.RejectionWithoutReason | shared/common/src/saga/saga-orchestrator.service.ts:81-88 | a completed step followed by one that rejects without a reason: FAILED, and the first step stands |
| SagaTheorems.ExactAccounting | shared/common/src/saga/saga-orchestrator.service.ts:70-103 | however calls are logged, the log is one execute per step up to the first failure and, on failure with an error, one compensate per completed step in reverse with the recorded result, up to an undo that rejects without a reason |
| SagaTheorems.InstrumentMirrorsAll | shared/common/src/saga/saga-orchestrator.service.ts:185-231 | every list of steps can be logged so |
| SagaTheorems.CompensateKeepsGivenOrder | shared/common/src/saga/saga-orchestrator.service.ts:251-284 | `compensate` calls the undos in the order it is given, not reversed, all of them unless one rejects without a reason |
| SagaTheorems.OwnResultsReachUndo | shared/common/src/saga/saga-orchestrator.service.ts:206-207 | with distinct names each undo receives exactly what its own execute returned |
| SagaTheorems.SemanticAtomicity | shared/common/src/saga/saga-orchestrator.service.ts:70-103 | if failing attempts leave no effect and each undo restores the state before its execute, a run failed with an error ends in the initial state, a successful one in the composition of all steps, and one failed without a reason where the failing step began |
| SagaTheorems.DistinctNamesKeepResults | shared/common/src/saga/saga-orchestrator.service.ts:206-263 | distinct names meet the hypothesis on recorded results |
| SagaTheorems.SharedNameBreaksRollback | shared/common/src/saga/saga-orchestrator.service.ts:206-263 | for every two equal names there are steps so named that undo themselves and a failed run of them that ends elsewhere |
| SagaTheorems.RollbackIffDistinct | shared/common/src/saga/saga-orchestrator.service.ts:206-263 | steps with the given names that undo themselves are rolled back in every run that fails with an error, if and only if the names are pairwise distinct |
| SagaMachine.PiecesMakeTheRun | shared/common/src/saga/saga-orchestrator.service.ts:76-103 | executing one step or one undo at a time to the end is the whole run |
| SagaMachine.PiecesRunOut | shared/common/src/saga/saga-orchestrator.service.ts:76-103 | every piece brings a saga nearer to its end |
| StateStore.SagaStateStore.CleanupExpiredStates | shared/common/src/saga/saga-state-store.service.ts:31-45 | removes exactly the expired entries and counts them |
| StateStore.SagaStateStore.Save | shared/common/src/saga/saga-state-store.service.ts:50-61 | replaces the entry and dates its expiry one TTL ahead |
| StateStore.SagaStateStore.Get | shared/common/src/saga/saga-state-store.service.ts:66-79 | answers an entry that has not expired; drops one that has |
| StateStore.SagaStateStore.Update | shared/common/src/saga/saga-state-store.service.ts:84-104 | merges into whatever entry is there, expired or not, or saves; refreshes the expiry |
| StateStore.SagaStateStore.Delete | shared/common/src/saga/saga-state-store.service.ts:109-112 | removes the one entry |
| StateStore.SagaStateStore.Clear | shared/common/src/saga/saga-state-store.service.ts:128-131 | removes all |
| StateStore.WritesDate | shared/common/src/saga/saga-state-store.service.ts:50-104 | a save dates the entry, an update keeps that date, both give it one hour and touch no other |
| StateStore.GetSweepsItsOwn | shared/common/src/saga/saga-state-store.service.ts:66-79 | a read drops exactly its own entry, exactly when expired |
| StateStore.SweepKeepsLive | shared/common/src/saga/saga-state-store.service.ts:31-45 | a sweep keeps exactly the entries not expired, as they are |
| StateStore.StoreRefinement | shared/common/src/saga/saga-state-store.service.ts:31-104 | over all histories with a monotone clock whose updates hit live or absent entries, `get` answers the latest merged state if and only if it was last written at most one TTL ago and not deleted since |
| StateStore.SweepsAreInvisible | shared/common/src/saga/saga-state-store.service.ts:31-104 | histories with the same writes answer alike wherever sweeps and reads occur |
| StateStore.SweepVisibleToUpdate | shared/common/src/saga/saga-state-store.service.ts:84-101 | a sweep just before an update shows in its result if and only if the entry was expired and still there |
| StateStore.SweepShows | shared/common/src/saga/saga-state-store.service.ts:84-101 | one history with and without a sweep, read differently afterwards |
| StateStore.FieldTracks | shared/common/src/saga/saga-state-store.service.ts:84-101 | a field every write sets needs no hypothesis on updates |
| StateStore.StatusAgreement | shared/common/src/saga/saga-state-store.service.ts:50-104 | between save and update, and after it, the status of one saga is the last one written until one TTL passes |
| Registration.GenerateUsername | apps/core/src/saga/user-registration.saga.ts:312-327 | 1 to 30 allowed lower-case characters, or the error path |
| Registration.UsernameFromEmail | apps/core/src/saga/user-registration.saga.ts:312-327 | a username is the cleaned part before the at-sign cut to 30 characters; the error path is taken exactly when nothing there is allowed; a local part that is one already is kept |
| Registration.CleanLetterwise | apps/core/src/saga/user-registration.saga.ts:312-327 | cleaning goes letter by letter: capitals become small, letters, digits, underscore and hyphen are kept, the rest goes |
| Registration.RegistrationStepsAreSorted | apps/core/src/saga/user-registration.saga.ts:62-68 | the declared order is the order of execution |
| Registration.ValidateRejects | apps/core/src/saga/user-registration.saga.ts:76-105 | the first step fails exactly when the lookup does or the email is taken, and changes nothing |
| Registration.CreateUndone | apps/core/src/saga/user-registration.saga.ts:124-175 | the undo of an insert restores the table unless the delete fails |
| Registration.AssignUndone | apps/core/src/saga/user-registration.saga.ts:180-247 | the undo of a role given to a user without it restores the table unless the update fails |
| Registration.PublishUndone | apps/core/src/saga/user-registration.saga.ts:251-306 | the undo of the event emits a "deleted" of the same row, with Kafka and unless that fails |
| Registration.TurnEffect | apps/core/src/saga/user-registration.saga.ts:76-247 | one turn of a saga inserts a fresh row of its email, rewrites its own row, deletes its own row, leaves its row behind when the delete fails, or changes no row |
| Registration.TurnPublishes | apps/core/src/saga/user-registration.saga.ts:251-306 | the only event a turn can emit is the "created" of its own row, on completing the last step |
| Registration.TurnKeepsRow | apps/core/src/saga/user-registration.saga.ts:182-220 | the row of a saga whose role assignment stands is the one it read back |
| Registration.InvAlways | apps/core/src/saga/user-registration.saga.ts:76-281 | in every reachable state of any number of interleaved sagas each held row has one owner, and the table is the initial rows, the held rows and those whose delete failed |
| Registration.NoSagaTouchesAnothersRow | apps/core/src/saga/user-registration.saga.ts:159-247 | no turn of one saga, compensating or not, changes a row another holds |
| Registration.UsernamesStayUnique | apps/core/src/saga/user-registration.saga.ts:124-175 | no two rows ever share a username, if none did at first |
| Registration.ConcurrentRegistrations | apps/core/src/saga/user-registration.saga.ts:76-281 | once all sagas ended: initial rows unchanged, one whole row for each completed saga (email, username, the hash of its own hashing turn, name, just the role asked for), distinct emails, none taken before, plus the rows whose compensating delete failed, and nothing else |
| Registration.NoOrphans | apps/core/src/saga/user-registration.saga.ts:159-175 | if no call made while compensating fails, no such row is left |
| Registration.EventsMatchCompletion | apps/core/src/saga/user-registration.saga.ts:251-304 | with Kafka enabled exactly the completed sagas emitted "created", once and with their row, and no event has another origin; disabled, nothing is emitted |
| Registration.EverySagaEnds | apps/core/src/saga/user-registration.saga.ts:52-71 | a saga has ended after twelve turns of its own, whatever the interleaving and the failures |
| Registration.LoneRegistration | apps/core/src/saga/user-registration.saga.ts:76-306 | a saga alone completes if and only if no call fails, email, username and id are free, the hash is not empty and the role exists; it leaves exactly its row and, with Kafka, its event |
| TestRunSaga.TestRunService.CreateResult | plugins/ai-agent-testing/src/application/services/test-run.service.ts:149-163 | a new row in status RUNNING, or an error |
| TestRunSaga.TestRunService.UpdateResult | plugins/ai-agent-testing/src/application/services/test-run.service.ts:191-223 | changes the status of one row, or an error |
| TestRunSaga.TestRunService.RunCase | plugins/ai-agent-testing/src/application/sagas/execute-test-run.saga.ts:161-224 | one turn of the loop: row, counters and whether the step throws |
| TestRunSaga.TestRunService.ExecuteTests | plugins/ai-agent-testing/src/application/sagas/execute-test-run.saga.ts:151-228 | the loop fills the table and counts as `ExecuteCases` says |
| TestRunSaga.Conservation | plugins/ai-agent-testing/src/application/sagas/execute-test-run.saga.ts:157-227 | when the step completes each case has exactly one new row, other rows are unchanged, the counters are the rows' statuses and add up to the cases except for rows left PENDING or RUNNING |
| TestRunSaga.VerdictsAreKept | plugins/ai-agent-testing/src/application/sagas/execute-test-run.saga.ts:168-222 | the row of each case has the verdict of its own runner, ERROR if the runner threw or its verdict could not be stored |
| TestRunSaga.ThrowsIff | plugins/ai-agent-testing/src/application/sagas/execute-test-run.saga.ts:157-222 | the step throws if and only if for some case the row cannot be created or neither a verdict nor ERROR can be stored |
| TestRunSaga.ShownRunnersCountAll | plugins/ai-agent-testing/src/application/sagas/execute-test-run.saga.ts:198-209 | with the two shown runners passed plus failed is the number of cases |
| TestRunSaga.TestRun.constructor | plugins/ai-agent-testing/src/domain/entities/test-run.entity.ts:90-111 | a run with the status and the counters it is given, whatever they add up to |
| TestRunSaga.TestRun.UpdateCounts | plugins/ai-agent-testing/src/domain/entities/test-run.entity.ts:142-147 | sets the counters and the total to their sum |
| TestRunSaga.TestRun.IncrementPassed | plugins/ai-agent-testing/src/domain/entities/test-run.entity.ts:149-152 | one more passed, and the distance of the total from the sum of the counters unchanged |
| TestRunSaga.TestRun.IncrementFailed | plugins/ai-agent-testing/src/domain/entities/test-run.entity.ts:154-157 | one more failed, and the distance of the total from the sum of the counters unchanged |
| TestRunSaga.TestRun.IncrementSkipped | plugins/ai-agent-testing/src/domain/entities/test-run.entity.ts:159-162 | one more skipped, and the distance of the total from the sum of the counters unchanged |
| TestRunSaga.TestRun.Complete | plugins/ai-agent-testing/src/domain/entities/test-run.entity.ts:118-130 | the entity decides the status the saga decides from the same counters |
| TestRunSaga.TestStepsAreSorted | plugins/ai-agent-testing/src/application/sagas/execute-test-run.saga.ts:76-81 | the declared order is the order of execution |
| TestRunSaga.FinalRunRow | plugins/ai-agent-testing/src/application/sagas/execute-test-run.saga.ts:89-291 | the run's whole row and the result rows when the saga returns, for each place it may have stopped |
| TestRunSaga.LeftRunning | plugins/ai-agent-testing/src/application/sagas/execute-test-run.saga.ts:89-291 | from the answers of the calls: with nothing to load or a failing start the run is left RUNNING if and only if it was before, otherwise if and only if a later step fails and the reverting update fails too |
| TestRunSaga.LeftRunningHappens | plugins/ai-agent-testing/src/application/sagas/execute-test-run.saga.ts:102-142 | two runs left RUNNING: final and reverting update both fail; nothing to load for a run already RUNNING |
| TestRunSaga.CompletedRunStatus | plugins/ai-agent-testing/src/application/sagas/execute-test-run.saga.ts:240-276 | with the shown runners a completed run is PASSED when all rows passed, FAILED when none did and PARTIAL otherwise, and its total is the number of cases |
| TestRunSaga.CompletedRunCounts | plugins/ai-agent-testing/src/application/sagas/execute-test-run.saga.ts:240-276 | whatever the runners, the final status and total from the numbers of rows that passed, failed and were skipped |
| PaymentSaga.PayStepsAreSorted | plugins/payment/src/saga/subscription-payment.saga.ts:67-73 | the declared order is the order of execution |
| PaymentSaga.PaymentCompensation | plugins/payment/src/saga/subscription-payment.saga.ts:81-304 | the exact trace of every run: on failure each recorded invoice, payment and subscription is passed once to cancel, refund and delete, in that order, whatever earlier undos answer; on success nothing is undone |
| PaymentSaga.PaymentTrace | plugins/payment/src/saga/subscription-payment.saga.ts:81-304 | the trace of every run written out by what the calls answer |
| PaymentSaga.MoneyKept | plugins/payment/src/saga/subscription-payment.saga.ts:158-203 | a payment stays taken exactly when the saga completed or the refund failed |
| Permissions.PermissionTable.FindMany | apps/core/src/permissions/permissions.dynamic.ts:43-52 | the selected rows, in some order |
| Permissions.PermissionTable.CreateOrganizationRole | apps/core/src/permissions/permissions.dynamic.ts:110-135 | adds exactly the rows of the record, duplicates skipped, and counts the new ones |
| Permissions.PermissionTable.UpdateOrganizationRole | apps/core/src/permissions/permissions.dynamic.ts:140-155 | replaces the rows of one role of one organization; leaves that role without rows when the second write throws |
| Permissions.PermissionTable.LoadOrganizationRolePermissions | apps/core/src/permissions/permissions.dynamic.ts:39-66 | per resource of the selected rows exactly its actions, once each; throws if and only if a resource bears a name every object inherits |
| Permissions.PermissionTable.CheckOrganizationPermission | apps/core/src/permissions/permissions.dynamic.ts:72-96 | true if and only if one of the roles has the row |
| Permissions.GroupMeaning | apps/core/src/permissions/permissions.dynamic.ts:54-65 | grouping gives that answer in whatever order the rows come |
| Permissions.RoundTrip | apps/core/src/permissions/permissions.dynamic.ts:39-155 | after an update loading gives back the record as sets, if and only if no resource with an action bears an inherited name |
| Permissions.FailedUpdateEmpties | apps/core/src/permissions/permissions.dynamic.ts:140-155 | after an update whose second write throws the role loads as empty |
| Permissions.ConstructorCannotBeLoaded | apps/core/src/permissions/permissions.dynamic.ts:54-63 | after an update with a resource called "constructor", or like another property every object has, loading throws |
| Permissions.OthersLoadAsBefore | apps/core/src/permissions/permissions.dynamic.ts:140-155 | every other role and organization loads as before |
| Permissions.CheckAgreesWithLoad | apps/core/src/permissions/permissions.dynamic.ts:72-96 | a check holds if and only if the action is in the loaded group |
| BillingPeriod.DayFromYearIsEcma | plugins/payment/src/subscription/subscription.service.ts:31-32 | the year arithmetic under the dates is the closed form of ECMA-262 |
| BillingPeriod.MonthLengths | plugins/payment/src/subscription/subscription.service.ts:31-51 | the days of each month and the leap years, written out |
| BillingPeriod.MakeDayRunsOver | plugins/payment/src/subscription/subscription.service.ts:40-49 | how days and months run over: day by day, month by month, twelve to the year, from 1 January 1970 |
| BillingPeriod.FieldsOf | plugins/payment/src/subscription/subscription.service.ts:40-49 | reads a real date that names the day |
| BillingPeriod.FieldsRoundTrip | plugins/payment/src/subscription/subscription.service.ts:40-49 | reading back what was made of a real date gives that date |
| BillingPeriod.JsDate.SetMonth | plugins/payment/src/subscription/subscription.service.ts:40-43 | moves the date with overflow into later months, the time of day kept |
| BillingPeriod.JsDate.SetFullYear | plugins/payment/src/subscription/subscription.service.ts:46-49 | moves the year with overflow from 29 February, the time of day kept |
| BillingPeriod.PeriodEnd | plugins/payment/src/subscription/subscription.service.ts:31-51 | the mutated copy of now is the end day of the cycle |
| BillingPeriod.MoveToEnd | plugins/payment/src/subscription/subscription.service.ts:38-51 | the switch moves the date to the end day of the cycle, the time of day kept |
| BillingPeriod.MonthlyPeriod | plugins/payment/src/subscription/subscription.service.ts:39-41 | over all start dates a monthly period lasts the days of the start month |
| BillingPeriod.QuarterlyPeriod | plugins/payment/src/subscription/subscription.service.ts:42-44 | a quarter lasts the days of the start month and the two after it, 89 to 92 |
| BillingPeriod.YearlyPeriod | plugins/payment/src/subscription/subscription.service.ts:45-47 | a year lasts 366 days exactly when a 29 February lies ahead within it, else 365 |
| BillingPeriod.OneTimePeriod | plugins/payment/src/subscription/subscription.service.ts:48-50 | a one-time period lasts 3650 days and the leap years ahead, 3651 to 3653 |
| BillingPeriod.PeriodEndsLater | plugins/payment/src/subscription/subscription.service.ts:38-51 | the end is after the start |
| BillingPeriod.SameDayOfMonth | plugins/payment/src/subscription/subscription.service.ts:38-51 | the end falls on the start's day of the month if and only if the month reached is long enough |
| BillingPeriod.MonthRunsOver | plugins/payment/src/subscription/subscription.service.ts:39-41 | a month from 31 January of a common year ends on 3 March |
| Paging.HasMoreAgrees | plugins/payment/src/subscription/subscription.service.ts:78-103 | `hasMore` of the listing is `hasNextPage` of the shared response |
| Paging.PagesCover | shared/common/src/dto/base-response.dto.ts:72-82 | a page has a next one if and only if the pages up to it do not cover the total |
| Paging.PageHolds | plugins/payment/src/subscription/subscription.service.ts:77-104 | a page holds the rows of its place, at most `limit` and fewer only at the end; the total is the whole list's |
| Paging.MetaTells | shared/common/src/dto/base-response.dto.ts:65-87 | the response echoes page, limit and total, and gives the least number of pages and whether one comes before or after |
| Paging.FollowingYieldsAll | plugins/payment/src/subscription/subscription.service.ts:77-104 | following `hasMore` from page 1 ends and yields the whole list, each row once |
| JsText.ParseIntReads | plugins/ai-agent-testing/src/infrastructure/runner/api-runner.ts:159 | leading space, an optional sign and digits are read as the number, the rest ignored |
| JsText.ParseIntRejects | apps/searcher/src/kafka/kafka-consumer.service.ts:223-229 | text without a digit after space and sign is not a number, a second sign or a space after the sign included |
| JsText.DigitsAreTen | plugins/ai-agent-testing/src/infrastructure/runner/api-runner.ts:159 | the ten digits |
| JsText.PlaceValue | plugins/ai-agent-testing/src/infrastructure/runner/api-runner.ts:159 | a digit appended makes ten times the value and the digit |
| JsText.TwoHundred | plugins/ai-agent-testing/src/infrastructure/runner/api-runner.ts:159 | the status text that stands for a missing one reads 200 |
| JsText.SpacesAndOthers | plugins/ai-agent-testing/src/infrastructure/runner/api-runner.ts:159 | the usual white space counts as such, and no digit, letter or sign does |
| JsonPath.MatchIndexedIsExact | plugins/ai-agent-testing/src/infrastructure/runner/api-runner.ts:242 | the indexed pattern matches exactly a word followed by digits in brackets |
| JsonPath.WordsAreListed | plugins/ai-agent-testing/src/infrastructure/runner/api-runner.ts:242 | the word characters of the pattern: letters, digits and the underscore |
| JsonPath.GetValueAtPath | plugins/ai-agent-testing/src/infrastructure/runner/api-runner.ts:233-252 | the loop walks the parts of the path |
| JsonPath.PathFindsField | plugins/ai-agent-testing/src/infrastructure/runner/api-runner.ts:233-252 | a path of one part finds the own field of that name, or what the prototypes have |
| JsonPath.PathFindsElement | plugins/ai-agent-testing/src/infrastructure/runner/api-runner.ts:240-246 | name and bracketed digits find the element at that decimal index of the named array; beyond the end the prototypes answer, in null or undefined nothing is found |
| JsonPath.PathIntoSequence | plugins/ai-agent-testing/src/infrastructure/runner/api-runner.ts:246-248 | an index finds the element of an array or the code unit of a text, and "length" how many there are |
| JsonPath.PathOfNothing | plugins/ai-agent-testing/src/infrastructure/runner/api-runner.ts:237-240 | in null or undefined every path finds undefined |
| JsonPath.PathComposition | plugins/ai-agent-testing/src/infrastructure/runner/api-runner.ts:233-252 | a joined path is one path and then the other, from any value |
| Runners.ApiRunner.ExecuteStep | plugins/ai-agent-testing/src/infrastructure/runner/api-runner.ts:107-215 | the error of one step, with the values its message quotes, and the response it leaves on the context |
| Runners.ApiRunner.Execute | plugins/ai-agent-testing/src/infrastructure/runner/api-runner.ts:17-102 | results numbered from 0, all passed but a failing last, status PASSED if and only if every step passed, else the first error |
| Runners.WebRunner.Execute | plugins/ai-agent-testing/src/infrastructure/runner/web-runner.ts:20-105 | every step passes |
| Runners.ReportIsUnique | plugins/ai-agent-testing/src/infrastructure/runner/api-runner.ts:28-86 | the steps and what they meet determine the verdict |
| Runners.PassedIsSound | plugins/ai-agent-testing/src/infrastructure/runner/api-runner.ts:153-167 | in a passed run each status assertion follows a request whose latest response has the expected status |
| Runners.NoErrorIffMet | plugins/ai-agent-testing/src/infrastructure/runner/api-runner.ts:107-215 | a step throws nothing if and only if it is met: an answered request, the status of the latest response, or equals, contains, exists or notNull of the value at a path of its body |
| Runners.PassedIffAllMet | plugins/ai-agent-testing/src/infrastructure/runner/api-runner.ts:28-86 | a run passes if and only if every step is met, and fails at the first that is not |
| Runners.FailureQuotes | plugins/ai-agent-testing/src/infrastructure/runner/api-runner.ts:153-208 | what a failing assertion says: expected and actual status, or path, operator and both values |
| Runners.ReportedIsCounted | plugins/ai-agent-testing/src/infrastructure/runner/api-runner.ts:67-86 | the reported status is one the test-run saga counts |
| KafkaConsumer.KafkaConsumerService.RegisterHandler | apps/searcher/src/kafka/kafka-consumer.service.ts:276-279 | a handler is present from then on |
| KafkaConsumer.KafkaConsumerService.OnModuleDestroy | apps/searcher/src/kafka/kafka-consumer.service.ts:102-103 | shutdown has begun |
| KafkaConsumer.KafkaConsumerService.CommitOffsets | apps/searcher/src/kafka/kafka-consumer.service.ts:173-179 | the committed offset is the one given, even a lower one, unless the call fails |
| KafkaConsumer.KafkaConsumerService.SendToDeadLetterQueue | apps/searcher/src/kafka/kafka-consumer.service.ts:231-274 | a send is attempted exactly when the value parses and what was thrown is not null; otherwise the record is dropped; a failing send is swallowed |
| KafkaConsumer.KafkaConsumerService.HandleMessage | apps/searcher/src/kafka/kafka-consumer.service.ts:147-221 | what is handled, committed, dead-lettered, lost and dropped, and whether the message comes again; a missing header is no attempt, one that is present and empty is exhausted |
| KafkaConsumer.CommitsNeverDecrease | apps/searcher/src/kafka/kafka-consumer.service.ts:84-221 | over all runs of deliver, finish, rewind, register and shutdown the committed offset never decreases |
| KafkaConsumer.OffsetSafety | apps/searcher/src/kafka/kafka-consumer.service.ts:147-221 | every record below the committed offset was handled or had no handler, or came with an exhausted header and was sent to the dead-letter topic with a readable value, or came with an exhausted header and was dropped |
| KafkaConsumer.DroppedIffUnreadable | apps/searcher/src/kafka/kafka-consumer.service.ts:202-253 | as long as failures carry errors, a passed record was dropped if and only if its value does not parse, and then nothing else was done with it |
| KafkaConsumer.UnreadableRecordIsDropped | apps/searcher/src/kafka/kafka-consumer.service.ts:202-253 | a record that is not JSON with a header that is not a number is committed past and dropped on its first delivery |
| KafkaConsumer.SkippedIsNotPassed | apps/searcher/src/kafka/kafka-consumer.service.ts:84-90 | no record skipped during shutdown is ever passed by a commit |
| KafkaConsumer.FailingRecordHoldsThePartition | apps/searcher/src/kafka/kafka-consumer.service.ts:196-229 | a record whose readable count is below the limit is never dead-lettered, lost or dropped, and holds the partition until handled |
| KafkaConsumer.FailingAttempt | apps/searcher/src/kafka/kafka-consumer.service.ts:193-274 | a failing attempt ends in a dead-letter send if and only if the header is exhausted, the value parses and what was thrown is not null; it is thrown again if and only if the header is not exhausted or the last commit fails |
| KafkaConsumer.DeadLetterIff | apps/searcher/src/kafka/kafka-consumer.service.ts:193-274 | some run sends the record to the dead-letter topic if and only if its header is exhausted as written and its value parses |
| KafkaConsumer.RetriedWithoutEnd | apps/searcher/src/kafka/kafka-consumer.service.ts:196-206 | a record without a header whose handler always throws: any number of attempts leaves everything as it was |
| KafkaConsumer.HandledIff | apps/searcher/src/kafka/kafka-consumer.service.ts:164-191 | over all runs a record is handled if and only if it is readable and an attempt delivered with a handler registered had the handler work, and counts as without a handler if and only if it is readable and was attempted with none registered |
| KafkaConsumer.RegistrationDecides | apps/searcher/src/kafka/kafka-consumer.service.ts:164-191 | without registration nothing is handled; with one before everything else nothing lacks a handler |
| KafkaConsumer.WorkingAttempt | apps/searcher/src/kafka/kafka-consumer.service.ts:164-191 | a working attempt at a readable record handles it, or finds no handler, and commits past it |
| KafkaConsumer.FailsIff | apps/searcher/src/kafka/kafka-consumer.service.ts:147-193 | an attempt fails exactly when the value does not parse, the handler throws or the commit fails |
| KafkaConsumer.RetryLimit | apps/searcher/src/kafka/kafka-consumer.service.ts:196-229 | headers reading 0, 1 and 2, and a missing one, leave a try; 3 and more, an empty one and one that is no number leave none |
| KafkaConsumer.NothingAfterShutdown | apps/searcher/src/kafka/kafka-consumer.service.ts:84-90 | once shutdown has begun and nothing is in flight, nothing is handled, committed or sent any more |
| KafkaConsumer.RewindRedelivers | apps/searcher/src/kafka/kafka-consumer.service.ts:202-206 | delivery again starts at the first record not committed past |
| Invoices.BillingService.CreateInvoice | plugins/payment/src/billing/billing.service.ts:70-112 | subtotal by the loop, tax and total of the lines |
| Invoices.BillingService.MarkInvoicePaid | plugins/payment/src/billing/billing.service.ts:208-224 | both rows change together, or neither when one is missing |
| Invoices.BillingService.ProcessPayment | plugins/payment/src/billing/billing.service.ts:117-203 | rejects missing and paid invoices unchanged; otherwise opens a transaction of the total and marks both rows on a direct success |
| Invoices.BillingService.ProcessOverdueInvoices | plugins/payment/src/billing/billing.service.ts:232-254 | marks due pending invoices one by one and counts them: all of them, or those reached before an update throws, exactly when some update would |
| Invoices.BillingService.RefundPayment | plugins/payment/src/checkout/checkout.service.ts:154-209 | retypes a succeeded transaction on a full refund; its status stays |
| Invoices.CreateMakes | plugins/payment/src/billing/billing.service.ts:70-112 | a new invoice has a line of quantity times price for each item, their sum, the rate in percent of it as tax, and both as total; it is pending, due on its date, and nothing else changes |
| Invoices.TotalIsSum | plugins/payment/src/billing/billing.service.ts:72-75 | the subtotal is the sum of the lines |
| Invoices.PayChangesIff | plugins/payment/src/billing/billing.service.ts:117-224 | what a payment changes: a transaction of the total is opened, and invoice and transaction marked exactly on a direct success that can be written |
| Invoices.DunChangesIff | plugins/payment/src/billing/billing.service.ts:232-254 | a sweep changes an invoice if and only if it was reached, pending and past its due date, and then only to overdue with one more dunning level |
| Invoices.OverdueWasDue | plugins/payment/src/billing/billing.service.ts:232-254 | over all histories an invoice is overdue only if a sweep reached it after its due date |
| Invoices.RefundChangesIff | plugins/payment/src/checkout/checkout.service.ts:154-209 | a refund changes a transaction if and only if it succeeded, the provider agrees and the whole amount is asked for; then only its type |
| Invoices.BooksStaySound | plugins/payment/src/billing/billing.service.ts:70-254 | over all histories of atomic calls: PAID if and only if exactly one succeeded transaction exists, of the total; totals are lines plus tax; at most one dunning |
| Invoices.PaidIsNeverLeft | plugins/payment/src/billing/billing.service.ts:117-254 | a paid invoice stays as it is; totals never change and dunning never goes back |
| Invoices.PayingKeepsIff | plugins/payment/src/billing/billing.service.ts:208-224 | recording a success keeps that invariant if and only if the invoice is not paid at that moment, as it may be when two payments overlap |
| Invoices.DunningKeepsIff | plugins/payment/src/billing/billing.service.ts:240-248 | marking one invoice overdue keeps it if and only if the invoice is still pending at that moment |
| InvoiceMachine.SoundThroughoutIffInTime | plugins/payment/src/billing/billing.service.ts:117-254 | over every interleaving of whole calls, payments and sweeps the invariant holds at every moment if and only if each success is recorded on an invoice not paid meanwhile and each overdue mark hits one still pending |
| InvoiceMachine.PaymentInPieces | plugins/payment/src/billing/billing.service.ts:117-203 | the reads and writes of a payment, left alone, do what the whole call does |
| InvoiceMachine.SweepInPieces | plugins/payment/src/billing/billing.service.ts:232-254 | the reads and writes of a sweep, left alone, do what the whole call does |
| InvoiceMachine.DoublePayment | plugins/payment/src/billing/billing.service.ts:117-224 | after any history, two payments of one unpaid invoice that both check before either confirms both succeed |
| InvoiceMachine.PaidIsLeft | plugins/payment/src/billing/billing.service.ts:232-248 | after any history, a payment between a sweep's look and its update leaves a paid invoice overdue |
| InvoiceMachine.CreatedIsOpen | plugins/payment/src/billing/billing.service.ts:70-112 | an invoice just created meets the hypotheses of both |

## Left out

- Real-time timeouts: a step that times out counts as a throwing step, and a timed-out call that still
  takes effect later is outside the hypothesis that failing attempts leave no effect.
- Steps that change the context themselves: a step sees the recorded results and answers its own, it
  does not write into the result map or the saga's data; logging, event payloads and timestamps.
- Orders that are not finite numbers: `order` is a real.
- Concurrency inside one call of `Execute`: the class runs alone; interleaving is modelled by
  SagaMachine, Registration and the histories of StateStore.
- The calls of the three concrete sagas fail with errors, as their clients do, not with null.
- A store whose failing `save` or `update` has still written, and `getAll`, which ignores expiry.
- SagaOrchestrator.Orchestrator.Execute: the stored context is the live object; the model stores its
  saga id in its place.
- Registration: database calls are atomic, a failing call leaves no effect, the lookup and the update
  of the role step are one turn, and the roles table does not change meanwhile; hashing is an oracle.
- TestRunSaga.FinalRunRow: claims only the status of a reverted run, not its start time, and results
  are reduced to their status.
- Creating, listing and summarising test runs, and the other services of the testing plugin.
- Subscription updates, cancellation and reactivation, trial dates, and the lookup of the plan.
- BillingPeriod.PeriodEnd: dates are plain local days with a time of day; daylight saving and the
  limits of the date range are not modelled.
- Paging: the database query is a list already filtered and ordered; page and limit are at least 1, as
  the argument validators demand.
- JsonPath: property names of indexes above 2^53, and what prototypes hold, which is a parameter.
- Runners: URLs, headers, request bodies, logs and durations; conversion of a value to text is a
  parameter; the simulated web steps are reduced to their number.
- KafkaConsumer: auto-commit, batches, rebalancing between consumers and restarts of the process; one
  topic partition, one process lifetime, backoff delays ignored.
- Invoices: invoice numbers, references and currencies; arithmetic is exact; cumulative refund limits,
  which the code does not check, and webhooks, which do not change invoices here.
- Graph and HTTP layers, authentication, search indexing, dependency injection, seeds and scripts.
