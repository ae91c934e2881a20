# Message service: verified model

The message service collects stage reports of pipeline runs, assembles each run into one email,
delivers it, orphans runs that stall, and keeps accounts, audit history and rendered reports
within their retention. This project models that behaviour in Dafny and proves properties of it.
`dafny verify dfyconfig.toml` checks everything.

## How it is built

1. **The transactional scope.** `UnitOfWork` is the scope statement by statement, with a shared
   lock and a BEGIN, COMMIT and ROLLBACK that may each fail. `Serializability` shows that tasks
   interleaving at every await behave as if whole units of work ran one at a time, whichever of
   those fail and whenever the process crashes. `Refinement` joins this to the next layer: every
   interleaving of tasks whose units are the lifecycle's leaves a store that some sequence of
   lifecycle units leaves. That justifies treating a unit of work as one step from here on.
2. **The lifecycle store.** `Database`, `Outbox` and `Transactions` define the tables and every
   unit of work of the run lifecycle as a function. `AuditReplay`, `HandOff` and `Submissions` hold what
   any sequence of them keeps: the audit history rebuilds the tables, orphaning and enqueueing
   happen together exactly once, first claims follow the configured order, and a stage row shows
   the last submission. `Effects` says what each unit of work leaves alone, and `Acceptance`
   when each is accepted, with which error it is refused, and which rows it then writes, without
   the functions that define it.
3. **The running service.** `Lifecycle` is the service as a transition system: delivery tasks,
   resends, sweeper ticks and the dispatcher, each with a program counter between two of its
   units of work, interleaved in any order, with crashes that wipe memory. `Delivery`,
   `LostDeliveries`, `Dispatching`, `Redispatch`, `Sweeping` and `Draining` hold the theorems
   over all its runs.
4. **The use cases as the program runs them.** `Statements`, `UseCases`, `DeliveryTask`,
   `Resending`, `SweeperTick` and `DispatcherTick` are methods over the mutable connection and
   lock, each statement free to fail, other tasks committing wherever the program awaits. Their
   contracts tie them to layer 2: they commit exactly that unit of work, or nothing. The
   connection counts the operations that failed on it (`faults`), so a contract also says when a
   method must not fail: unless one did, or a stored run cannot be rebuilt.
5. **Self-contained parts.** `Assembly` (email composition) with `EmailContent`, which says what
   an email contains without the functions that compose it; `Timestamps` (the stored text
   form), `AuditPruner`, `Accounts` with `AccountUseCases`, `Migrations`, `ReportPruner`,
   `SmtpRetry`, `TraceMatrix` with `TraceDocument`.

## Assumptions

- SQLite refuses BEGIN inside an open transaction; a statement that fails changes nothing; only
  committed data survives a crash.
- Fresh run ids, audit ids and session tokens are distinct from all earlier ones.
- Rendering, password verification, migration scripts and the email pattern are deterministic
  functions of their arguments. Configuration is fixed while the service runs.
- There is one dispatcher, one audit pruner and one process, as the service starts them.
- Clock readings are arbitrary integers unless a contract says otherwise.

## Where documentation and code differ

The model follows the code.

- The sweeper's per-run unit of work re-checks the state of a run but not its age.
  `Sweeping.OrphansActiveRun` is a history in which a run is orphaned just after it reported;
  `Sweeping.StillExpiredIffUnmoved` says exactly when a scanned run is still expired.
- The sweeper updates the run before it inserts the audit row. The two are committed together;
  no statement order is claimed.
- The dispatcher's documentation says that no row is dispatched twice. Stale claims are taken
  over: `Redispatch.RowDispatchedTwice` is a history in which a handler runs twice for one row.
  No row is claimed twice exactly when no claim found a stale one (`Redispatch.ClaimedOnceIff`),
  a row is claimed again only after every tick that held it died before settling it
  (`Redispatch.ReclaimedOnlyAfterDeath`), and the number of dispatches is bounded
  (`Dispatching.BoundedDispatch`).
- The tick result documents `enqueued_actions` as runs times configured actions. With
  per-pipeline lists that is true exactly when all lists have the global length
  (`Sweeping.DocumentedCount`); the true count is the number of rows of the moved runs.
- Finishing a delivery is total only for the error classes it catches. `LostDeliveries.DiesIff`
  says exactly what kills a task, `LostDeliveries.ConcludedIffReturned` that an outcome is on
  record exactly if the task returned, `LostDeliveries.LostForever` that only the sweeper moves
  the run of a dead task, and `LostDeliveries.EndsInSending` is a history that ends so.
- Attachment names are meant to tell stages apart, but they are sanitized and then cut at the
  tail. `Assembly.NamesCollide` says exactly which stages of a run share one,
  `Assembly.CollidingNames` gives both kinds of collision.
- A ROLLBACK that itself fails leaves the shared connection inside a transaction. From then on
  every BEGIN is refused until the process restarts; nothing wrong becomes durable, and nothing
  at all does.
- Self-protection alone does not keep an administrator: the privilege of the actor is looked up
  before the unit of work, and `Accounts.MutualLockout` shows two administrators disabling each
  other. `Accounts.LastAdminLost` says exactly which operation loses the last one, and
  `Accounts.AdminThroughoutIff` lifts that over histories.

## Model

| member | source | states |
|---|---|---|
| UnitOfWork.SqliteUnitOfWork.Enter | src/message_service/infrastructure/persistence/unit_of_work.py:145-187 | BEGIN taken under the lock; a refused BEGIN gives the lock back at once; re-entry changes nothing |
| UnitOfWork.SqliteUnitOfWork.Commit | src/message_service/infrastructure/persistence/unit_of_work.py:270-293 | success makes the working database durable and releases the lock once; failure leaves both flags so the exit can clean up; a second finalization is refused |
| UnitOfWork.SqliteUnitOfWork.Rollback | src/message_service/infrastructure/persistence/unit_of_work.py:295-317 | the same for an explicit rollback |
| UnitOfWork.SqliteUnitOfWork.Exit | src/message_service/infrastructure/persistence/unit_of_work.py:200-266 | whatever fails, the lock is released exactly once, and the durable database is the block's or untouched; it reports a failure, or leaves a transaction open, only if COMMIT or ROLLBACK failed |
| UnitOfWork.SqliteUnitOfWork.ReleaseLock | src/message_service/infrastructure/persistence/unit_of_work.py:189-198 | releases the lock if and only if this scope holds it |
| UnitOfWork.RunBlock | src/message_service/infrastructure/persistence/unit_of_work.py:145-317 | a whole `async with` block under arbitrary BEGIN/COMMIT/ROLLBACK failures: intended outcome or nothing, and the intended one if no operation failed; with an earlier transaction left open, nothing at all |
| UnitOfWork.RunBlocks | src/message_service/infrastructure/persistence/unit_of_work.py:325-384 | any number of blocks: acquisitions equal releases equal blocks, and each durable database is an intended outcome of one block on the previous one, all of them if no operation failed |
| UnitOfWork.RowSurvivesRaiseIfCommitted | src/message_service/application/use_cases/login.py:130-163 | for any block: durable is what stood at its first explicit commit, whatever is raised after it; else, raising or rolling back, what it started from |
| Serializability.Serializable | src/message_service/infrastructure/persistence/unit_of_work.py:145-317 | every statement-level interleaving of tasks explicit commits and rollbacks and crashes included, equals units of work taken one at a time in the order they ended; one release per unit |
| Serializability.TurnExact | src/message_service/infrastructure/persistence/unit_of_work.py:200-317 | one unit taken alone is durable exactly when it ran to its end, or to an explicit commit, and its COMMIT succeeded; otherwise it leaves the database as it was |
| Serializability.MutualExclusion | src/message_service/infrastructure/persistence/unit_of_work.py:145-198 | at most one task is between acquiring the lock and the end of its unit |
| Serializability.LeftoversNeverCommit | src/message_service/infrastructure/persistence/unit_of_work.py:224-268 | after a failed ROLLBACK nothing more becomes durable until a restart, least of all the failed unit's writes |
| Serializability.WedgedByRollback | src/message_service/infrastructure/persistence/unit_of_work.py:224-268 | the store gets into that condition exactly by a failed ROLLBACK |
| Serializability.RestartUnwedges | src/message_service/infrastructure/persistence/unit_of_work.py:224-266 | a restart ends it and discards the leftovers |
| Refinement.InterleavingsKeepTheBooks | src/message_service/infrastructure/persistence/unit_of_work.py:145-317 | whatever tasks interleave, fail or crash: the durable store is one some sequence of lifecycle units leaves, so every property of all sequences holds |
| Refinement.FinalizeImplements | src/message_service/application/use_cases/finalize_run.py:153-191 | the finalize block, as three statements, is such a task's unit |
| RunStates.LawfulAdvances | src/message_service/domain/state_machines/run_states.py:70-98 | every lawful history moves strictly forward and revisits no state |
| RunStates.TableExact | src/message_service/domain/state_machines/run_states.py:70-98 | the whole table: a run not over goes one step on, fails, or is orphaned, and nothing else |
| RunStates.TerminalIsLast | src/message_service/domain/state_machines/run_states.py:70-98 | a terminal state only ends a history |
| RunStates.SentHasOneHistory | src/message_service/domain/state_machines/run_states.py:70-98 | a run is SENT exactly after INITIATED, AGGREGATING, READY, SENDING |
| StageStates.StageHistory | src/message_service/domain/state_machines/stage_states.py:69-90 | IN_PROGRESS is never entered; SUBMITTED is entered once, first, every later submission being a retry |
| StageStates.TableExact | src/message_service/domain/state_machines/stage_states.py:69-90 | the whole table: a first submission, then retries or acceptance; whatever is not over, except the reserved state, may time out or fail |
| Database.CheckRun | src/message_service/domain/aggregates/run.py:111-140 | accepts exactly runs not updated before created, whose mode has its template and whose stage ids are distinct |
| Outbox.BatchIsPrefix | src/message_service/infrastructure/persistence/sweeper_action_repository.py:54-101 | a SELECT .. ORDER BY .. LIMIT: distinct matching rows, as many as allowed, none left out that sorts before one taken |
| Outbox.NewRowsActions | src/message_service/infrastructure/persistence/sweeper_action_repository.py:119-136 | one orphaned run adds exactly its list, in order, and nobody else's |
| Effects.ClaimBatch | src/message_service/infrastructure/persistence/sweeper_action_repository.py:138-240 | a claim takes distinct rows: never-claimed ones, then stuck ones with attempts left, never one just stamped |
| Effects.RunKept | src/message_service/application/use_cases/submit_stage_report.py:194-206 | a run keeps its declaration, moves only along the table, and past collecting its stage rows are frozen |
| Effects.RecordedKinds | src/message_service/application/use_cases/assemble_and_deliver.py:1015-1190 | only orphaning writes SWEEP_ORPHAN and only finishing writes SEND_REPORT, of its own run |
| Acceptance.BeginExact | src/message_service/application/use_cases/begin_run.py:306-372 | a run begins exactly if its id is new and its declaration consistent; then the tables gain that run, its event, and one pending row per declared stage |
| Acceptance.SubmissionAccepted | src/message_service/application/use_cases/submit_stage_report.py:186-266 | after any units of work, a submission is accepted iff the run is there, readable, INITIATED or AGGREGATING, declares the stage, and body and position come together; a refusal names which of these failed. How often the stage was submitted does not matter |
| Acceptance.SubmitExact | src/message_service/application/use_cases/submit_stage_report.py:256-334 | an accepted submission gives its row the new report, body and position, SUBMITTED the first time and RETRIED after, moves the run to AGGREGATING, records one event, and touches no other row |
| Acceptance.FinalizeExact | src/message_service/application/use_cases/finalize_run.py:153-191 | a run is finalized iff it can be read and is AGGREGATING; then it is READY, with one event and nothing else changed |
| Acceptance.StartExact | src/message_service/application/use_cases/assemble_and_deliver.py:485-494 | a delivery starts iff its run can be read and is READY; then it is SENDING, at that time, and nothing else changed |
| Acceptance.FinishSentExact | src/message_service/application/use_cases/assemble_and_deliver.py:1015-1088 | a successful delivery is concluded iff the run can be read and is SENDING or already over; SENT in the first case, its terminal state kept in the second, and one SEND_REPORT row with the recipients and attachments |
| Acceptance.FinishFailedExact | src/message_service/application/use_cases/assemble_and_deliver.py:1090-1190 | a failed one likewise for every readable run: FAILED unless it was over, and one row with the reason |
| Acceptance.ResendExact | src/message_service/application/use_cases/resend_run.py:220-239 | a resend adds its one row and changes no table |
| Acceptance.OrphanExact | src/message_service/application/use_cases/sweeper.py:263-357 | a run is orphaned iff it can be read and is not over; then it is ORPHANED, with one unclaimed row per configured action in order and one event listing them, the stages still pending, and when the run last moved |
| Acceptance.FreshExact | src/message_service/infrastructure/persistence/sweeper_action_repository.py:138-167 | the fresh part of a claim is the oldest never-claimed rows, up to the limit, in order |
| Acceptance.StuckExact | src/message_service/infrastructure/persistence/sweeper_action_repository.py:194-240 | the stuck part is the longest-claimed rows that are unfinished, stale and below the cap, in what the fresh ones leave of the limit |
| Acceptance.ClaimExact | src/message_service/application/use_cases/sweeper_action_dispatcher.py:188-214 | a claim stamps these rows, adds an attempt to the stuck ones, and changes no other; it is refused only if a row was enqueued later than now or a run cannot be read |
| Acceptance.ExhaustedExact | src/message_service/infrastructure/persistence/sweeper_action_repository.py:242-275 | the rows abandoned are the longest-claimed unfinished stale ones at the cap, up to the limit |
| Acceptance.AbandonExact | src/message_service/application/use_cases/sweeper_action_dispatcher.py:292-341 | each of them is completed with the abandonment message and has its event, in order; no other row changes, and it is never refused |
| Acceptance.SettleExact | src/message_service/infrastructure/persistence/sweeper_action_repository.py:169-192 | a settlement completes its row, with the error and one more attempt if the handler failed, and changes no other; it is refused only for a row not claimed by then |
| AuditReplay.CommitFaithful | src/message_service/application/use_cases/submit_stage_report.py:308-334 | every unit of work keeps: the audit history is lawful and replays to the state of every run and stage |
| AuditReplay.AuditReplaysToTables | src/message_service/application/use_cases/assemble_and_deliver.py:1015-1233 | any units of work in any order: replaying the history rebuilds the tables, and each recorded prior state is the replayed one |
| AuditReplay.SubmitAgrees | src/message_service/application/use_cases/submit_stage_report.py:256-325 | a submission records the stage's actual prior state, a lawful change, and whether the run moved |
| Submissions.LastSubmissionWins | src/message_service/application/use_cases/submit_stage_report.py:244-334 | after any units of work every stage row shows exactly the record of its accepted submissions: the last one wins, and their number decides its state |
| HandOff.CommitHandsOff | src/message_service/application/use_cases/sweeper.py:280-348 | ORPHANED iff exactly one SWEEP_ORPHAN row, listing exactly the run's outbox rows, its configured actions and its pending stages; else neither |
| HandOff.HandOffHolds | src/message_service/application/use_cases/sweeper.py:280-348 | the same over every history, together with claims in order |
| HandOff.FirstClaimsFollowConfiguredOrder | src/message_service/infrastructure/persistence/sweeper_action_repository.py:54-60 | what was never claimed of an orphaned run is always a suffix of its configured action list |
| Lifecycle.OneCommit | src/message_service/application/use_cases/assemble_and_deliver.py:461-651 | each step of the running service commits at most its one unit of work |
| Delivery.InvKept | src/message_service/application/use_cases/assemble_and_deliver.py:461-651 | the invariant linking program counters, run states, audit history and mail survives every step, including crashes |
| Delivery.CommitSteady | src/message_service/application/use_cases/assemble_and_deliver.py:485-494 | no unit of work of anyone else moves a finalized run except by orphaning it, or touches its content or its outcomes |
| Delivery.DeliveredAtMostOnce | src/message_service/application/use_cases/assemble_and_deliver.py:461-651 | a run's delivery calls the mailer at most once ever and records at most one outcome |
| Delivery.FinishNeverIllegal | src/message_service/application/use_cases/assemble_and_deliver.py:1031-1079 | finishing a delivery never raises an illegal transition; it succeeds iff the run row can be rebuilt |
| Delivery.ReturnedIsRecorded | src/message_service/application/use_cases/assemble_and_deliver.py:1090-1190 | a delivery that returned left its run terminal, SENT or FAILED as its outcome says unless orphaned first, with exactly one SEND_REPORT row: the mailer's verdict, or without a mailer call a success if the content renders and a failure if not |
| Delivery.FinishCommits | src/message_service/application/use_cases/assemble_and_deliver.py:1015-1190 | what a finishing delivery commits: the run concluded and one row with its outcome, recipients, attachments and reason |
| Delivery.FinishNumbers | src/message_service/application/use_cases/assemble_and_deliver.py:561-651 | those numbers are the attachments of the run's email and the recipients found, or the reason for which the mailer or the rendering failed |
| Delivery.SentMeansDelivered | src/message_service/application/use_cases/assemble_and_deliver.py:561-651 | a run is SENT iff its delivery returned success before any orphaning; then the mailer took the report or nobody was subscribed |
| Delivery.OnlyFrozenContentIsMailed | src/message_service/application/use_cases/assemble_and_deliver.py:681-762 | every email, first send or resend, is the one the declaration and stage table at the finalize commit call for: subject, attachments one by one, body with its summaries and contributions (as in EmailContent.EmailExact) |
| Delivery.FrozenSinceFinalization | src/message_service/application/use_cases/submit_stage_report.py:88-206 | declaration and stage rows never change after finalization |
| Delivery.ListingsAgree | src/message_service/infrastructure/persistence/stage_repository.py:80-126 | whatever order the stage rows are listed in, the email is the same |
| Delivery.ResendRenders | src/message_service/application/use_cases/resend_run.py:119-175 | a resend renders the frozen email, or ends as a recorded failure or an untranslated error, as the content makes it |
| Delivery.ResendSends | src/message_service/application/use_cases/resend_run.py:177-218 | it mails that email once if anyone is subscribed, and its verdict is the mailer's answer |
| Delivery.ResendRecords | src/message_service/application/use_cases/resend_run.py:220-246 | and commits one row with that verdict and nothing else |
| LostDeliveries.ConcludedIffReturned | src/message_service/application/use_cases/assemble_and_deliver.py:461-651 | an outcome is on record iff the delivery returned; a run being sent has a started, unreturned task |
| LostDeliveries.DiesIff | src/message_service/application/use_cases/assemble_and_deliver.py:496-651 | a task dies iff its own step meets an error it does not translate, or the service crashes before it returned |
| LostDeliveries.LostForever | src/message_service/application/use_cases/assemble_and_deliver.py:496-651 | a run whose delivery died is never SENT or FAILED and gains no outcome: only the sweeper moves it |
| LostDeliveries.EndsInSending | src/message_service/application/use_cases/assemble_and_deliver.py:496-651 | a concrete history that ends SENDING with the task dead, exactly when rendering succeeds and the mailer breaks, or fails with an untranslated error |
| Dispatching.InvKept | src/message_service/application/use_cases/sweeper_action_dispatcher.py:186-341 | every step keeps the bookkeeping of claims, attempts, handler calls and rows in hand |
| Dispatching.BoundedDispatch | src/message_service/application/use_cases/sweeper_action_dispatcher.py:186-341 | claimed and unfinished means claimed attempts + 1 times with attempts within the cap; a handler runs at most max + 1 times per row |
| Dispatching.SettledForever | src/message_service/infrastructure/persistence/sweeper_action_repository.py:62-109 | a settled row never changes again |
| Dispatching.ClaimedIsWaiting | src/message_service/application/use_cases/sweeper_action_dispatcher.py:188-214 | the rows handled after a claim are exactly those it claimed, in claim order |
| Dispatching.HandledIsKept | src/message_service/application/use_cases/sweeper_action_dispatcher.py:223-263 | what a handler returned is kept for its own row, in order; a row without handler or run fails |
| Dispatching.SettledAsHandled | src/message_service/application/use_cases/sweeper_action_dispatcher.py:265-283 | and each row is settled with what was kept for it |
| Dispatching.DispatchDescends | src/message_service/application/use_cases/sweeper_action_dispatcher.py:186-341 | every dispatcher step that changes the store lowers the sum over unfinished rows of max + 2 - claims |
| Dispatching.DispatcherTerminates | src/message_service/application/use_cases/sweeper_action_dispatcher.py:162-341 | over any run the dispatcher changes the store at most (max + 2) times per row ever enqueued |
| Redispatch.RowDispatchedTwice | src/message_service/application/use_cases/sweeper_action_dispatcher.py:30-42 | a concrete history in which one row is claimed twice and its handler runs twice |
| Redispatch.ClaimedOnceIff | src/message_service/infrastructure/persistence/sweeper_action_repository.py:194-240 | no row is ever claimed twice iff no claim ever found a stale one |
| Redispatch.ClaimsMatchDeaths | src/message_service/application/use_cases/sweeper_action_dispatcher.py:188-283 | an unfinished row has been claimed once for each tick that died holding it, and once more while held |
| Redispatch.ReclaimedOnlyAfterDeath | src/message_service/infrastructure/persistence/sweeper_action_repository.py:75-101 | a row is claimed again only after every tick that had claimed it died before settling it |
| Sweeping.TickIsComplete | src/message_service/application/use_cases/sweeper.py:207-259 | a tick that returned left every scanned run terminal; its counters are the runs it moved and the rows those have |
| Sweeping.MovedOnce | src/message_service/application/use_cases/sweeper.py:280-313 | no run is moved by two ticks |
| Sweeping.DocumentedCount | src/message_service/application/use_cases/sweeper.py:90-107 | the documented formula for enqueued_actions holds for every tick iff every per-pipeline list is as long as the global one |
| Sweeping.StillExpiredIffUnmoved | src/message_service/application/use_cases/sweeper.py:280-305 | a scanned run still sweepable is still expired iff its state is the one scanned |
| Sweeping.OrphansActiveRun | src/message_service/application/use_cases/sweeper.py:280-313 | a concrete history in which a run that has just reported is orphaned |
| Draining.TicksDrain | src/message_service/infrastructure/persistence/run_repository.py:105-220 | with a still clock, n ticks leave max(0, K - n * limit) of K expired runs, the oldest going first |
| Draining.EnoughTicksOrphanAll | src/message_service/application/use_cases/sweeper.py:207-259 | ceil(K / limit) ticks orphan them all |
| Assembly.RenderStages | src/message_service/application/use_cases/assemble_and_deliver.py:711-762 | the filter, sort and render loop computes the fragments, or the first render error |
| Assembly.BuildStageAttachments | src/message_service/application/use_cases/assemble_and_deliver.py:820-836 | the PER_STAGE loop keeps exactly the non-blank fragments in order |
| Assembly.CanonicalAssembly | src/message_service/application/use_cases/assemble_and_deliver.py:711-762 | fragments and email do not depend on storage order |
| EmailContent.EmailExact | src/message_service/application/use_cases/assemble_and_deliver.py:653-911 | when there is an email and what it is, over the set of stage rows: the run's subject; in (order, id) order, one named attachment per contributing stage with a non-blank rendering, or the one aggregated file over those sections; the body template of the pipeline, else the default, over one summary per contributing stage and the contributions placed before and after. Each rendering is the stage's own template over its own report, empty without one |
| EmailContent.ErrorExact | src/message_service/application/use_cases/assemble_and_deliver.py:692-911 | when there is none, the error is that of the first rendering to fail: the stages in order, then the aggregated file, then the body |
| Assembly.PresentedExact | src/message_service/application/use_cases/assemble_and_deliver.py:716-737 | the presented stages are exactly the contributing ones, strictly ascending |
| Assembly.FragmentsExact | src/message_service/application/use_cases/assemble_and_deliver.py:711-762 | fragments ascend strictly by (order, id), one for each SUBMITTED/ACCEPTED/RETRIED stage and no other, carrying its rendering |
| Assembly.BucketsPartition | src/message_service/application/use_cases/assemble_and_deliver.py:874-903 | the before and after buckets are ordered, disjoint, and hold exactly the body contributions |
| Assembly.Filename | src/message_service/application/use_cases/assemble_and_deliver.py:156-194 | at most 255 characters, suffix kept |
| Assembly.NameExact | src/message_service/application/use_cases/assemble_and_deliver.py:151-194 | pipeline, run and stage joined by underscores, cut to what leaves room for the suffix |
| Assembly.NameFitsInBytes | src/message_service/application/use_cases/assemble_and_deliver.py:156-194 | for UUID run ids a name is ASCII, so the limit is one of bytes |
| Assembly.NamesCollide | src/message_service/application/use_cases/assemble_and_deliver.py:151-194 | two stages of a run get one name iff their sanitized ids agree on the part that fits |
| Assembly.CollidingNames | src/message_service/application/use_cases/assemble_and_deliver.py:151-194 | concrete collisions, by sanitizing and by the cut |
| Timestamps.ByteOrderIsChronological | src/message_service/application/ports/clock.py:54-85 | for years 1..9999, byte order of the stored strings is chronological order; all are 27 characters |
| Timestamps.IsoZForm | src/message_service/application/ports/clock.py:54-85 | the stored form: separators in their places and each group of digits spelling its field, the fraction always six wide |
| Timestamps.ShortFormMisorders | src/message_service/application/ports/clock.py:54-85 | why the width is fixed: dropping zero microseconds breaks the order |
| Timestamps.RoundTrip | src/message_service/infrastructure/persistence/_helpers.py:24-58 | parsing a formatted timestamp gives it back |
| Timestamps.IsoZInjective | src/message_service/application/ports/clock.py:54-85 | distinct instants have distinct strings |
| Statements.UpdateState | src/message_service/infrastructure/persistence/run_repository.py:148-167 | an unconditional update that raises on a missing run and otherwise changes state and time only |
| Statements.ListByRun | src/message_service/infrastructure/persistence/stage_repository.py:80-126 | all of the run's rows, in an unspecified order |
| Statements.ClaimPending | src/message_service/infrastructure/persistence/sweeper_action_repository.py:138-167 | stamps exactly the oldest never-claimed rows |
| Statements.ReclaimStuck | src/message_service/infrastructure/persistence/sweeper_action_repository.py:194-240 | stamps exactly the stalest unfinished claims with attempts left, adding one attempt |
| UseCases.CountDuplicates | src/message_service/application/use_cases/begin_run.py:215-223 | the counting dict finds exactly the ids declared more than once |
| UseCases.RepeatedExact | src/message_service/application/use_cases/begin_run.py:215-223 | an id counts as a duplicate iff two places declare it |
| UseCases.Validate | src/message_service/application/use_cases/begin_run.py:190-304 | accepts exactly the acceptable requests. In the run it returns an explicit version stands unchanged, `latest` has become the catalog's latest version, and every template is known; a refusal is the first violation in the order of the checks |
| UseCases.ResolveExact | src/message_service/application/use_cases/begin_run.py:126-167 | resolving yields the one pinned template there can be, or nothing exactly for `latest` of a name without versions |
| UseCases.Begin | src/message_service/application/use_cases/begin_run.py:169-384 | an accepted request commits the run as validated, with its audit row and pending stages, together or not at all; a refused one touches nothing, and an acceptable one fails only if the database does |
| UseCases.Submit | src/message_service/application/use_cases/submit_stage_report.py:148-344 | succeeds exactly for a submittable report unless the database fails, each refusal naming what is wrong with it; commits the new row, the run's state and the event, or nothing; says whether it was a retry |
| UseCases.Finalize | src/message_service/application/use_cases/finalize_run.py:131-205 | a delivery is scheduled exactly when the READY state is durable |
| DeliveryTask.Finish | src/message_service/application/use_cases/assemble_and_deliver.py:1015-1190 | on a run being sent or orphaned: no illegal transition; when it commits, the run is concluded and one outcome row holds the verdict with its numbers; it fails only if the database does or the run cannot be read |
| DeliveryTask.Prepare | src/message_service/application/use_cases/assemble_and_deliver.py:496-504 | loading and rendering with others committing in between gives the email the content at the start calls for, or the error of its first failing rendering |
| DeliveryTask.Execute | src/message_service/application/use_cases/assemble_and_deliver.py:461-651 | one delivery under interference and failures: at most one mailer call, with that email; what it returns follows from the mailer's answer or the failed rendering, and is what the newest audit row records |
| Resending.Resend | src/message_service/application/use_cases/resend_run.py:119-246 | refused only for the run's state; mails the email of the frozen content at most once, if anyone is subscribed, and commits one RESEND_REPORT row with the resulting verdict and nothing else |
| SweeperTick.ListExpired | src/message_service/infrastructure/persistence/run_repository.py:105-220 | up to limit expired runs, oldest first |
| SweeperTick.ScanExact | src/message_service/infrastructure/persistence/run_repository.py:105-220 | what a scan returns: runs not over that have not moved for the timeout, the longest idle first, and none idle longer left out |
| SweeperTick.OrphanOne | src/message_service/application/use_cases/sweeper.py:263-357 | state, audit row and outbox rows together, as in Acceptance.OrphanExact; a gone or terminal run is skipped with nothing committed; an error means the database failed or the run cannot be read |
| SweeperTick.Tick | src/message_service/application/use_cases/sweeper.py:207-259 | a tick that returns under arbitrary interference leaves every run of its scan terminal and counts its own moves and rows; it fails only for the database or an unreadable run |
| DispatcherTick.AbandonExhausted | src/message_service/application/use_cases/sweeper_action_dispatcher.py:292-341 | every exhausted row of the batch audited, settled and counted together or not at all |
| DispatcherTick.ClaimRows | src/message_service/application/use_cases/sweeper_action_dispatcher.py:188-214 | commits exactly the claim or nothing, and returns the claimed rows in handling order |
| DispatcherTick.InvokeHandlers | src/message_service/application/use_cases/sweeper_action_dispatcher.py:223-263 | one outcome per claimed row, what its handler returned; exactly the rows with a run and a registered handler are invoked, once, and the others fail |
| DispatcherTick.SettleAll | src/message_service/application/use_cases/sweeper_action_dispatcher.py:265-283 | each claimed row settled with its own outcome, no other row touched, the counts those of the outcomes; it ends early only for the database or a clock that steps back |
| DispatcherTick.DispatchPending | src/message_service/application/use_cases/sweeper_action_dispatcher.py:162-290 | a tick that returns has settled all it claimed with what the handlers, each called once, returned; claimed, succeeded, failed and abandoned are the true counts, and the abandoned rows are the exhausted batch, all settled |
| AuditPruner.DeletedIsFetchedIff | src/message_service/infrastructure/persistence/audit_log.py:66-86 | what is deleted lies within what was fetched iff no arrival gets ahead of the batch; then both are the same batch |
| AuditPruner.BatchIsOldest | src/message_service/infrastructure/persistence/audit_log.py:152-200 | a batch is the oldest min(limit, expired) rows, ties broken by id, oldest first |
| AuditPruner.ArchivedBeforeDeleted | src/message_service/application/use_cases/audit_log_pruner.py:155-186 | over every interleaving, failed archive and crash: every deleted row is in the archive, and no row is lost |
| AuditPruner.TickDeletes | src/message_service/application/use_cases/audit_log_pruner.py:155-186 | an undisturbed tick archives and deletes exactly the batch it fetched |
| AuditPruner.DeleteConserves | src/message_service/infrastructure/persistence/audit_log.py:66-75 | deleting a batch splits the table into what stays and what goes |
| AuditPruner.ArchiveWriter.Append | src/message_service/infrastructure/persistence/audit_archive_writer.py:56-76 | appends all or raises, possibly partway |
| AuditPruner.RunOnce | src/message_service/application/use_cases/audit_log_pruner.py:143-203 | a tick deletes exactly the oldest min(limit, expired) rows, archived first if there is a writer, unless the archive or the database fails: then nothing |
| Accounts.SessionsAreCurrent | src/message_service/application/use_cases/admin_users.py:344-470 | every stored session belongs to an enabled user and was opened against the present password hash |
| Accounts.RevocationIsFinal | src/message_service/application/use_cases/admin_users.py:372-470 | after a disable or reset no earlier token of that user is ever authenticated again |
| Accounts.LoginOutcome | src/message_service/application/use_cases/login.py:115-187 | accepted iff an enabled account's password verifies; a refusal commits exactly one LOGIN_FAILED row and no session |
| Accounts.LoginExact | src/message_service/application/use_cases/login.py:115-218 | a login opens one session of the user with that email and records it, or records the reason of its refusal; users and other sessions stand |
| Accounts.RequestExact | src/message_service/interfaces/rest/app.py:204-247 | a live token is authenticated as its user and refreshed, an idle one loses its session, any other changes nothing |
| Accounts.LogoutExact | src/message_service/application/use_cases/logout.py:48-73 | a logout ends exactly that session and records it |
| Accounts.CreateExact | src/message_service/application/use_cases/admin_users.py:168-252 | a user is created iff the email is well formed and nobody has it; the row is as asked for, under a new id, and nothing else changes |
| Accounts.UpdateExact | src/message_service/application/use_cases/admin_users.py:275-398 | each column named gets the value given and no other moves; refused exactly to someone taking their own privilege or access, or for a missing user; sessions end exactly on a disable |
| Accounts.ResetExact | src/message_service/application/use_cases/admin_users.py:418-476 | the user has the new hash, no other column and no other user changes, the sessions of the user are gone, and one event names the column |
| Accounts.ResetChangesPassword | src/message_service/application/use_cases/admin_users.py:418-476 | after a reset, a login with that email and a password is accepted iff the user is enabled and the password verifies against the new hash |
| Accounts.ReconcileExact | src/message_service/bootstrap/service.py:339-382 | afterwards the configured email belongs to an enabled administrator: the user there was, password and name untouched, or a new one with the configured hash |
| Accounts.ChangesAreAudited | src/message_service/application/use_cases/admin_users.py:345-470 | no administrative change of a user row without exactly one UPDATE_USER row for that user naming every changed column |
| Accounts.LastAdminLost | src/message_service/application/use_cases/admin_users.py:275-398 | the last enabled administrator is lost iff an update on behalf of someone else takes its privilege or access |
| Accounts.AdminThroughoutIff | src/message_service/application/use_cases/admin_users.py:275-398 | over any history there is an enabled administrator throughout iff no update took the last one |
| Accounts.NeverLockedOut | src/message_service/bootstrap/service.py:339-382 | after reconciliation the same, and in particular while each operation commits with its actor still an administrator |
| Accounts.MutualLockout | src/message_service/application/use_cases/admin_users.py:275-330 | two administrators can disable each other |
| AccountUseCases.DoLogin | src/message_service/application/use_cases/login.py:115-218 | the method commits exactly the login's outcome, the failure row included although it raises |
| AccountUseCases.CreateUser | src/message_service/application/use_cases/admin_users.py:168-252 | commits user and audit row together; duplicate or malformed emails change nothing |
| AccountUseCases.NamedFields | src/message_service/application/use_cases/admin_users.py:329-341 | the sorted list of the fields named |
| AccountUseCases.UpdateUser | src/message_service/application/use_cases/admin_users.py:275-398 | commits the update, its audit row and the revocation together; self-protection changes nothing |
| AccountUseCases.ResetPassword | src/message_service/application/use_cases/admin_users.py:418-476 | commits the reset of Accounts.ResetExact as one unit or changes nothing, and the latter only if the user is missing or the database fails |
| AccountUseCases.DoLogout | src/message_service/application/use_cases/logout.py:48-73 | commits the audit row and the deletion together |
| AccountUseCases.Authenticate | src/message_service/interfaces/rest/app.py:204-247 | an idle session is deleted, a live one touched and its user authenticated |
| AccountUseCases.ReconcileAdmin | src/message_service/bootstrap/service.py:339-382 | creates the configured admin or re-asserts its privilege, password untouched |
| Migrations.Discover | src/message_service/infrastructure/persistence/migration_runner.py:110-162 | accepts exactly well-named files numbered 1..n and returns them in order; a refusal names a bad name or the first gap |
| Migrations.WellNamedExact | src/message_service/infrastructure/persistence/migration_runner.py:110-162 | a name is accepted iff it is three digits, an underscore, a word, and the suffix |
| Migrations.ParseExact | src/message_service/infrastructure/persistence/migration_runner.py:110-162 | its version is the number those digits spell, its name the part before the suffix, its script the text |
| Migrations.FetchApplied | src/message_service/infrastructure/persistence/migration_runner.py:188-206 | the applied versions, or a failure exactly if the database failed; no schema changes |
| Migrations.ApplyOne | src/message_service/infrastructure/persistence/migration_runner.py:209-248 | schema and bookkeeping row together or neither; it fails only if the script or the database does |
| Migrations.ApplyMigrations | src/message_service/infrastructure/persistence/migration_runner.py:54-102 | exactly a prefix is applied and it has not shrunk; success applies all the rest; with nothing pending, or on a refused directory or unreadable bookkeeping, nothing changes; without a database failure it stops only at a refused directory or at a script that does not run |
| Migrations.Startups | src/message_service/infrastructure/persistence/migration_runner.py:54-102 | over any startups with any failures, refused directories among them, the applied versions are 1..k and the schema is the fold of the first k |
| ReportPruner.LongestPrefix | src/message_service/application/use_cases/report_pruner.py:196-242 | a prefix of candidates fits the budget iff it is part of what a tick takes |
| ReportPruner.FirstIsTaken | src/message_service/application/use_cases/report_pruner.py:209-232 | the first run with files is taken whenever it fits |
| ReportPruner.EvictFile | src/message_service/application/use_cases/report_pruner.py:308-454 | a deletion counts exactly with its durable SUCCESS row, and every attempt leaves a row unless the database failed |
| ReportPruner.RunOnce | src/message_service/application/use_cases/report_pruner.py:162-257 | attempts all files, as found at each run's turn, of the longest fitting prefix of the candidates returned and of no other run, each counted once |
| SmtpRetry.ReplyClasses | src/message_service/infrastructure/email/aiosmtplib_mailer.py:65-79 | reply codes are classified as in section 4.2.1 of RFC 5321 except 421 |
| SmtpRetry.RefusalRetried | src/message_service/infrastructure/email/aiosmtplib_mailer.py:115-121 | an all-recipients refusal is retried iff some refusal is transient or none is known |
| SmtpRetry.RetriedExact | src/message_service/infrastructure/email/aiosmtplib_mailer.py:82-139 | for every way an attempt can end: retried iff a disconnection, a connect timeout, a name-resolution or other OS error, a 4yz reply other than 421, or a refusal of every recipient with some such code or none known |
| SmtpRetry.EndsOnce | src/message_service/infrastructure/email/aiosmtplib_mailer.py:329-386 | the ending attempt is unique for every relay behaviour |
| SmtpRetry.SendWithRetries | src/message_service/infrastructure/email/aiosmtplib_mailer.py:315-386 | at most max_retries + 1 attempts, one backoff between two; the first attempt not to be retried fixes the result: sent, raised, or permanent failure; without one the retries are exhausted |
| SmtpRetry.Send | src/message_service/infrastructure/email/aiosmtplib_mailer.py:286-313 | an oversized message reaches no relay; any other has the same outcome |
| SmtpRetry.BackoffBounds | src/message_service/infrastructure/email/aiosmtplib_mailer.py:368-373 | backoffs never fall and stay within [initial, max] |
| SmtpRetry.BackoffDoubles | src/message_service/infrastructure/email/aiosmtplib_mailer.py:368-373 | the first wait is the initial interval and each further one doubles up to the ceiling |
| SmtpRetry.WaitsBounded | src/message_service/infrastructure/email/aiosmtplib_mailer.py:369-385 | n waits total at most n * max and at most initial * (2^n - 1) |
| TraceMatrix.StatusMeaning | scripts/build-trace-matrix.py:353-399 | Draft iff no artifact in the subtree, Implemented iff every leaf has one, at any depth |
| TraceMatrix.ArtifactsNeverLower | scripts/build-trace-matrix.py:353-399 | adding artifacts never lowers a status |
| TraceMatrix.ChildrenExact | scripts/build-trace-matrix.py:223-270 | the children of a requirement are the ids whose parent it is, as often as they are listed |
| TraceMatrix.ChildrenRoundTrip | scripts/build-trace-matrix.py:447-464 | the printed children column parses back to the children |
| TraceMatrix.BuildMatrix | scripts/build-trace-matrix.py:223-270 | every row emitted is the row of a listed requirement, and every one of a category has its row |
| TraceMatrix.VerifyRollup | scripts/build-trace-matrix.py:482-568 | reports exactly the requirements whose row has not the status the rule gives, and so nothing iff every row has |
| TraceMatrix.BuiltIsConsistent | scripts/build-trace-matrix.py:482-568 | whatever the documents, what the builder emits passes the checker, sorted or unsorted children alike |
| TraceMatrix.PrintedStatusMeaning | scripts/build-trace-matrix.py:223-270 | a printed level-1 status means what it says of the requirements below it |
| TraceMatrix.BuildAndCheck | scripts/build-trace-matrix.py:571-627 | building and then checking reports nothing |
| TraceDocument.DocumentRoundTrip | scripts/build-trace-matrix.py:436-479 | reading the printed lines by the row patterns gives back the rows, whatever stands between them |
| TraceDocument.BuiltDocumentPasses | scripts/build-trace-matrix.py:482-568 | the checker, reading the text of any document the builder prints, reports nothing |

## Left out

- Statements.GetRun: the JSON columns of runs and stages and their parsing, because only the timestamp check of a rebuilt run can fail on what the service writes.
- Timestamps.RoundTrip: naive and non-UTC date-times, other ISO forms the parser also accepts, and the pattern check `is_iso_z`, because the service stores only the one form.
- Assembly.RenderStages: report-store snapshots of fragments and bodies, which are best effort and read by nothing in the model.
- DeliveryTask.Execute: who is subscribed; how many recipients a delivery finds is a parameter.
- UseCases.Validate: how the template manifest ranks versions; which one is the latest is a parameter of the catalog.
- Acceptance.SubmitExact: details of audit rows that nothing reads back, such as actor names and attachment counts of resends.
- Migrations.Discover: a directory configured in place of the packaged one, whose scan ignores a file named just `.sql`; the packaged scan, modelled here, refuses it.
- Transactions.AbandonTx: the wording of error messages stored with a row, which nothing reads.
- AuditReplay.AuditReplaysToTables: retention, because it is about the full history; the pruner removes old rows (module AuditPruner).
- Accounts.LoginOutcome: the decoy verification that equalizes timing, which has no effect on the result.
- AccountUseCases.CreateUser: the email pattern itself, which is a parameter.
- ReportPruner.RunOnce: the removal of empty directories, which deletes no file and is logged only.
- TraceDocument.DocumentRoundTrip: non-ASCII digits in requirement ids, and matches of a row pattern across lines, which no printed line can begin.
- SQL text, connection settings, file-system and SMTP sessions, MIME assembly, template and JSON Schema engines, hashing: operations that may fail, or functions of their arguments.
- gRPC, REST routes other than the session middleware, command line, configuration loading, logs and metrics: plumbing without state of its own.
- Cancellation of asyncio tasks, scheduler drain and polling loops: failures are modelled as exceptions.
- The size-exceeded notification to administrators, which is sent after the outcome is committed.
- Subscriptions, tag and template manifests, dashboard lists: single-branch checks and simple lookups.
