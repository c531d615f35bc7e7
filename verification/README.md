# Verification of the curator's core protocols

This project models the parts of the Telegram curator whose correctness depends on more than one function: the leased
work protocols that several crash-prone workers run over shared tables, the merge of Telegram deliveries into durable
messages, the two independent descriptions of a model's structured output, routing, the pipeline order, and the choice
of video frames. It proves what those parts promise, for every input and every run.

Verify it with `dafny verify dfyconfig.toml` (Dafny 4.11).

## How it is organised

Every transaction is one atomic step. It is modelled twice, and the two are proved equal: as a function from the tables
before to the tables after (`RangeStore`, `StageStore`, `Ingest`, `RoutingRuns`), and as a method of a `Repository` class
that updates its tables in place, as the source does. The `...Protocol` modules prove what each transaction keeps; the
`...Runs` modules prove what holds in every state of every run, where steps of any number of workers, dispatchers and
schedulers interleave, crash, and carry any token and any clock. The `...Progress` and `...Laws` modules say from outside,
on the rows and values themselves, what each operation does, when it does it, and that the protocols can always go on to
their end. Fresh UUIDs are fresh numbers, and `now` is an argument of each step, so no safety statement rests on clocks.

| modules | what they cover |
|---|---|
| `Leases` | what a legal history of leased rows looks like, and what follows from it: fencing, one end, bounded retries |
| `RangeStore`, `RangeProtocol`, `RangeRuns`, `RangeProgress` | range executions: freeze, lease, advance, complete, fail, wake-ups, and progress |
| `HistoryIngestion`, `IngestionProgress`, `Scheduler` | the worker over these and the message tables, the scheduler and the dispatcher |
| `StageStore`, `StageProtocol`, `StageRuns`, `StageProgress`, `StageOutcomes`, `StageRepository`, `StageWorker`, `Sanitizer` | analysis stage runs: claim, cache reuse, inference, commit, gate, roll-up, and what lasts |
| `Validator`, `JsonSchema`, `Schema` | the structured-output validator and the generated JSON Schema |
| `Telegram`, `Ingest`, `IngestLaws`, `IngestRuns`, `Convergence`, `ConvergenceExact` | deliveries, their merge into parts and parents, and exactly when orders end alike |
| `MediaGroupBuffer`, `BufferRuns` | the album buffer |
| `Conditions`, `ConditionLaws`, `Labels`, `RoutingFacts`, `RoutingPolicy`, `RoutingStore`, `RoutingRuns`, `RoutingProgress` | conditions, effective labels, rules, and idempotent evaluation |
| `Pipeline`, `VideoFrames` | dependency order and conditions of a pipeline; greedy frame selection |
| `Json`, `Ordering` | JSON values as Python compares them; Python's orders and `sorted` |

## Where the code does not give what one might expect

Each is proved as a lemma, beside the condition under which the expectation holds.

- The schema builder strips target IDs and the validator does not (`schema.py:179`, `result_validator.py:275-282`). For a
  batch the two agree on every payload if and only if all expected IDs are stripped already
  (`Schema.BatchAgreementExactly`).
- Ingestion does not always end alike for every order of the same deliveries. For components whose assets have separate
  IDs it does if and only if, for each component, all versions have one group, those with the greatest edit time have one
  content, and one of these was published as early as any version (`ConvergenceExact.ConvergesExactly`). Otherwise a
  regrouped component stays with whichever group came first, versions with one edit time overwrite each other, or a stale
  version is dropped together with its earlier publication time; `ConvergenceExact.TwoVersionsAgreeExactly` is the case of
  two versions.
- The album buffer can return a component twice in one batch, which normalisation then refuses. For given updates some
  timing does so if and only if a component that came grouped comes later with another group or with none
  (`BufferRuns.RegroupedIsReturnedTwiceExactly`): the groups come due in one call, or the ungrouped update arrives as the
  wait ends. An ungrouped update that arrives before any wait ends is returned alone
  (`BufferRuns.EarlyUpdateIsReturnedAlone`).
- A blocked run can become failed in a later roll-up if and only if one of its stage runs has failed
  (`StageOutcomes.BlockStaysExactly`).
- The labels of a cached result are those of the inference it came from if and only if no test run reused it on the way,
  or there were none (`StageOutcomes.CachedLabelsExactly`); a test run assigns none, also to those who reuse from it.
- A label condition that compares a score with an integer by `score_eq` is never true nor false, because scores are floats
  and the comparison asks for one type (`RoutingFacts.GlobalLabelMeaning`).
- The negative gate closes its run over active stage runs exactly when one of them belongs to a message no item names
  (`StageProtocol.GateLeavesNothingActive`). When stage runs belong to their run's message this cannot happen, and a terminal
  run is quiet and final (`StageRuns.TerminalRunsAreQuiet`, `StageRuns.TerminalForever`).
- `none_media` negates `any_media` on every facts object, not only on those the label snapshot produces, so the lemma
  asks for nothing.

## Model

| member | source | states |
|---|---|---|
| `RangeRuns.CompletedWindowsTile` | tgcurator/infrastructure/database/processing_repository.py:415-471 | in every state of every run, a message ID of a resolved range lies in a completed window exactly when it lies between the start and the watermark, and then in one window only |
| `RangeRuns.ActiveHighNamesTheUnfinished` | tgcurator/infrastructure/database/processing_repository.py:111-206 | in every run, `active_high` is unset exactly when all executions of the range are completed, and otherwise names the right bound of the one unfinished execution, which starts at the watermark |
| `RangeRuns.GuardsNeverFire` | tgcurator/infrastructure/database/processing_repository.py:434-449 | in every run, a window that passes `_can_freeze` never meets a unique index, and an execution that reached its right bound under its lease is never refused by the range |
| `RangeRuns.ConstraintsHold` | tgcurator/infrastructure/database/models.py:303-507 | every CHECK and UNIQUE constraint of ranges, executions and wake-ups holds in every reachable state, those on dates, fixed ends and boundary fields included |
| `RangeRuns.WakeupsFollowExecutions` | tgcurator/infrastructure/database/processing_repository.py:542-595 | in any interleaving with dispatchers, an execution has exactly one wake-up; it is never cancelled and is completed exactly when the execution is over |
| `RangeRuns.LeasesFence` | tgcurator/infrastructure/database/processing_repository.py:387-539 | whatever the clocks say, a change made under a token comes after the one claim that drew it, with only advances under the same token in between |
| `RangeRuns.EndsOnce` | tgcurator/infrastructure/database/processing_repository.py:415-526 | an execution completes, fails for good or is exhausted at most once, and nothing happens to it afterwards |
| `RangeRuns.LifecycleIsBounded` | tgcurator/infrastructure/database/processing_repository.py:352-380 | no execution makes more than twice `max_attempts` lifecycle transitions in any run |
| `RangeRuns.ExhaustionNeedsAnExpiredLease` | tgcurator/infrastructure/database/processing_repository.py:352-368 | a claim gives up on an execution only when it finds it running with an expired lease and no attempts left |
| `RangeRuns.RunKeeps` | tgcurator/infrastructure/database/processing_repository.py:111-595 | the invariant behind the statements above holds after any number of steps, for arbitrary tokens and clocks |
| `RangeRuns.StepKeeps` | tgcurator/infrastructure/database/processing_repository.py:111-595 | every transaction, dispatcher step and admissible outside edit keeps the rows' invariant and the legality of the execution log |
| `RangeProgress.ClaimedFromSomeTime` | tgcurator/infrastructure/database/processing_repository.py:354-385 | in every reachable state each unfinished execution with attempts left is claimed, under the new token and with one attempt more, by every claim from some time on |
| `RangeProgress.GivenUpFromSomeTime` | tgcurator/infrastructure/database/processing_repository.py:366-368 | in every reachable state an unfinished execution without attempts left is failed, its range with it and its wake-up ended, by every claim once its lease has ended, and by none before |
| `RangeProgress.EveryExecutionCanComplete` | tgcurator/infrastructure/database/processing_repository.py:335-471 | from every reachable state some steps complete any unfinished execution with attempts left and move its range to the right bound |
| `RangeProgress.EveryWindowCanBeProcessed` | tgcurator/infrastructure/database/processing_repository.py:111-471 | from every reachable state some steps freeze, claim and complete any window the range admits, so that its watermark reaches the right bound |
| `RangeProgress.WokenFromSomeTime` | tgcurator/infrastructure/database/processing_repository.py:26-44 | in every reachable state an unfinished execution has a wake-up that, from some time on, every dispatcher with room for it and not kept from the row selects |
| `RangeProgress.ClaimedExactly` | tgcurator/infrastructure/database/processing_repository.py:335-385 | what a claim makes of an execution with attempts left, column by column, and that otherwise nothing changes |
| `RangeProgress.AdvancedExactly` | tgcurator/infrastructure/database/processing_repository.py:387-413 | in reachable states the mark moves exactly under the token and the unexpired lease, forwards and within the window |
| `RangeProgress.CompletedExactly` | tgcurator/infrastructure/database/processing_repository.py:415-471 | in reachable states an execution completes exactly under its lease and at its right bound; range and wake-ups move with it, a fixed range ends at its fixed end |
| `RangeProgress.FailedExactly` | tgcurator/infrastructure/database/processing_repository.py:473-526 | under the lease a failure is put off to the retry time exactly when it is retryable and attempts are left; otherwise execution and range fail |
| `RangeProgress.FrozenExactly` | tgcurator/infrastructure/database/processing_repository.py:111-206 | in reachable states a window is frozen exactly when channel and range admit it, column by column: a pending execution, its wake-up, and the range closed to others |
| `RangeProgress.ReleasedExactly` | tgcurator/infrastructure/database/processing_repository.py:277-306 | a wake-up is released exactly by the token it is leased under |
| `RangeProgress.SelectedAreFirst` | tgcurator/infrastructure/database/processing_repository.py:26-44 | the selected rows are due (pending at their time, or leased past their expiry), in order of due time and ID, and any due row left out comes after all of them |
| `RangeProgress.PlannedExactly` | tgcurator/application/processing/scheduler.py:51-91 | the scheduler lists a range and plans a window for it exactly when the range admits the window and its right bound is the fixed end or the newest message after the quiet time |
| `RangeProgress.ScheduledExactly` | tgcurator/application/processing/scheduler.py:46-101 | from any state within the invariant, every scanned range with something new up to its right bound gets its window and wake-up, column by column, and every other one gets nothing |
| `RangeProgress.ScheduledLeaves` | tgcurator/application/processing/scheduler.py:46-101 | scheduling touches no range, execution or wake-up but those of the scanned ranges |
| `RangeProgress.LeasedExactly` | tgcurator/infrastructure/database/processing_repository.py:215-243 | a due wake-up is leased under the token it draws with one dispatch more, and nothing else changes |
| `RangeProtocol.InsertNeverConflicts` | tgcurator/infrastructure/database/processing_repository.py:134-206 | under the invariant a window that may be frozen hits neither the bounds index nor the one-active index |
| `RangeProtocol.CompletionNeverRefused` | tgcurator/infrastructure/database/processing_repository.py:434-449 | under the invariant an execution that reached its right bound under its lease finds the range waiting for exactly its window |
| `RangeProtocol.FreezeTiles` | tgcurator/infrastructure/database/processing_repository.py:153-206 | freezing a window keeps the completed windows a tiling, with the new window as the one unfinished one |
| `RangeProtocol.FreezeKeeps` | tgcurator/infrastructure/database/processing_repository.py:111-206 | a freeze keeps all constraints, tilings and the wake-up correspondence |
| `RangeProtocol.CompleteTiles` | tgcurator/infrastructure/database/processing_repository.py:434-465 | completion extends the tiling by exactly the completed window |
| `RangeProtocol.CompleteKeeps` | tgcurator/infrastructure/database/processing_repository.py:415-471 | a completion, refused or not, keeps the invariant |
| `RangeProtocol.ClaimKeeps` | tgcurator/infrastructure/database/processing_repository.py:335-385 | a claim keeps the invariant, and gives up only on a running row whose lease has expired |
| `RangeProtocol.AdvanceKeeps` | tgcurator/infrastructure/database/processing_repository.py:387-413 | an advance keeps the invariant |
| `RangeProtocol.FailKeeps` | tgcurator/infrastructure/database/processing_repository.py:473-526 | a failure, retried or final, keeps the invariant |
| `RangeProtocol.ClaimDueKeeps` | tgcurator/infrastructure/database/processing_repository.py:215-243 | leasing due wake-ups keeps the invariant |
| `RangeProtocol.ReleaseKeeps` | tgcurator/infrastructure/database/processing_repository.py:245-306 | an acknowledgement or reschedule under any token, however late, keeps the invariant |
| `RangeProtocol.EditRangeKeeps` | tgcurator/infrastructure/database/models.py:303-357 | pausing, resuming or disabling a range keeps the invariant |
| `RangeStore.Repository.CreateExecutionAndWakeup` | tgcurator/infrastructure/database/processing_repository.py:111-206 | the whole new state, and that it reports creation exactly when the range admits the window and no unique index refuses it |
| `RangeStore.Repository.DueWakeups` | tgcurator/infrastructure/database/processing_repository.py:26-44 | the due rows no other transaction holds, by due time and ID, up to the limit and none skipped |
| `RangeStore.Repository.ClaimDue` | tgcurator/infrastructure/database/processing_repository.py:215-243 | exactly the first due rows that are not locked, up to the limit, are leased, each under its own token, and the claims are those rows in order |
| `RangeStore.Repository.LeaseRows` | tgcurator/infrastructure/database/processing_repository.py:222-243 | every selected row is leased under its token and no other row changes |
| `RangeStore.Repository.ReleaseClaim` | tgcurator/infrastructure/database/processing_repository.py:277-306 | only the row leased under the token is released; anything else leaves the table as it was |
| `RangeStore.Repository.AcknowledgeDispatch` | tgcurator/infrastructure/database/processing_repository.py:245-259 | releases the row to the repair time and notes the dispatch |
| `RangeStore.Repository.RescheduleAfterFailure` | tgcurator/infrastructure/database/processing_repository.py:261-275 | releases the row to the retry time without noting a dispatch |
| `RangeStore.Repository.ClaimExecution` | tgcurator/infrastructure/database/processing_repository.py:335-385 | a stored execution of a stored range with attempts left is claimed if and only if it is pending, its retry time has come or its lease has ended; it then runs under the token and the new expiry with one attempt more, nothing else changes, and the claim carries its columns. Otherwise nothing is claimed, and an exhausted one fails |
| `RangeStore.Repository.AdvanceWatermark` | tgcurator/infrastructure/database/processing_repository.py:387-413 | advances exactly under the unexpired lease and within the window; every refusal changes nothing |
| `RangeStore.Repository.CompleteExecution` | tgcurator/infrastructure/database/processing_repository.py:415-471 | row, range and wake-up end together or not at all |
| `RangeStore.Repository.FailExecution` | tgcurator/infrastructure/database/processing_repository.py:473-526 | backs off with a rescheduled wake-up while attempts are left, otherwise ends row, range and wake-up |
| `RangeStore.Repository.LockedActiveRow` | tgcurator/infrastructure/database/processing_repository.py:528-539 | a row is returned exactly while its token holds the unexpired lease |
| `RangeStore.Repository.RescheduleWakeup` | tgcurator/infrastructure/database/processing_repository.py:541-559 | every wake-up of the execution that is not cancelled is pending again, others are untouched |
| `RangeStore.Repository.SetWakeupTerminal` | tgcurator/infrastructure/database/processing_repository.py:560-576 | every wake-up of the execution that is not cancelled is completed, others are untouched |
| `RangeStore.Repository.TerminalizeExhaustedLease` | tgcurator/infrastructure/database/processing_repository.py:578-595 | the exhausted row fails with the lease-expired error, its range fails and its wake-up ends |
| `Leases.Fencing` | tgcurator/infrastructure/database/processing_repository.py:335-539 | in a legal history each change under a token has exactly one earlier claim with that token and only progress under it in between |
| `Leases.HeldSince` | tgcurator/infrastructure/database/processing_repository.py:335-385 | a held row was last claimed with the token it is held by and only advanced since |
| `Leases.NothingAfterEnd` | tgcurator/infrastructure/database/processing_repository.py:452-526 | once a row has ended no later event is about it |
| `Leases.RecordedStep` | tgcurator/infrastructure/database/processing_repository.py:352-380 | an event that fits its row's phase extends a legal history and spends the transition budget it costs |
| `HistoryIngestion.ReachedMeansIngested` | tgcurator/application/processing/history_ingestion.py:32-54 | with any number of workers crashing anywhere and any other ingestion in between, an execution at its right bound, hence any completed one, has for every post of a validated fetch of its whole window a stored row under the post's message whose edit time is not earlier |
| `HistoryIngestion.WatermarkMeansIngested` | tgcurator/application/processing/history_ingestion.py:32-54 | every message ID behind a range's watermark lies in a completed window with such a fetch, every post of it stored |
| `HistoryIngestion.FetchedPostsAreMembers` | tgcurator/infrastructure/database/message_ingest_repository.py:336-377 | every post of such a fetch has a row no older than it and is a member of its message's materialised parent |
| `HistoryIngestion.UpsertStores` | tgcurator/infrastructure/database/message_ingest_repository.py:336-377 | an upsert that is not refused leaves, for each part of the message, a row of that message no older than the part |
| `HistoryIngestion.StoredStays` | tgcurator/infrastructure/database/message_ingest_repository.py:68-112 | no upsert or edit by anyone takes a stored post back or replaces it by an older one |
| `HistoryIngestion.RunKeeps` | tgcurator/application/processing/history_ingestion.py:32-54 | the link between marks, fetches and stored rows holds after any interleaving of workers with the protocol and other ingestion |
| `HistoryIngestion.StepKeeps` | tgcurator/application/processing/history_ingestion.py:32-54 | every worker step, crash and protocol step keeps that link |
| `IngestionProgress.PassCompletes` | tgcurator/application/processing/history_ingestion.py:32-54 | from every reachable state a resting worker can take a free execution, ingest the whole of a valid answer whose messages fit the tables, and complete it with every post stored |
| `HistoryIngestion.ValidateHistoryWindow` | tgcurator/application/processing/history_ingestion.py:56-72 | accepts exactly the answers whose messages all come from the channel and lie in the window |
| `Scheduler.PlannedMayFreeze` | tgcurator/application/processing/scheduler.py:51-91 | a planned window passes `_can_freeze` as long as the rows it was planned from have not changed |
| `Scheduler.StalePlanRefused` | tgcurator/application/processing/scheduler.py:51-91 | a plan drawn from an older state is accepted only if the range still stands at the same place with no active window |
| `Scheduler.Schedule` | tgcurator/application/processing/scheduler.py:46-101 | the state after all listed ranges were planned from the listing and frozen in turn, and the exact number of freezes that succeeded |
| `Scheduler.CreatedAreRows` | tgcurator/application/processing/scheduler.py:92-101 | each creation counted is one execution row more |
| `Scheduler.Settle` | tgcurator/application/processing/scheduler.py:134-149 | a delivered wake-up is acknowledged, a refused one rescheduled, under the token of its claim |
| `Scheduler.DispatchDue` | tgcurator/application/processing/scheduler.py:119-155 | the first due wake-ups that are not locked are claimed, none of them is left leased (each is pending again at the repair or retry time), all others are unchanged, and every claim is counted once |
| `StageRuns.CachedResultsHaveAnOrigin` | tgcurator/infrastructure/database/analysis_repository.py:335-441 | in every run a cached result leads by finitely many, never repeating `reused_from` hops to an inference result with the same key, policy and scope, and equals it sanitised once with only the target ID replaced |
| `StageRuns.HitsStayExact` | tgcurator/infrastructure/database/analysis_repository.py:335-388 | a hit found in one transaction is still an exact source, with the same sanitised result, in every later state, so also at commit |
| `StageRuns.SucceededForever` | tgcurator/infrastructure/database/analysis_repository.py:362-441 | a succeeded row is the same in every later state |
| `StageRuns.TerminalRunsAreQuiet` | tgcurator/infrastructure/database/analysis_repository.py:744-880 | no reachable terminal analysis run has a pending, running or retry-waiting stage run |
| `StageRuns.TerminalForever` | tgcurator/infrastructure/database/analysis_repository.py:838-880 | a terminal analysis run never reopens |
| `StageRuns.ClaimMeetsNoTerminalRun` | tgcurator/infrastructure/database/analysis_repository.py:187-193 | a due stage run is never turned down because its analysis run is over |
| `StageRuns.LeasesFence` | tgcurator/infrastructure/database/analysis_repository.py:882-919 | a start, commit or failure under a lease token comes after the one claim that drew it, with only starts under it in between |
| `StageRuns.EndsOnce` | tgcurator/infrastructure/database/analysis_repository.py:601-668 | a stage run succeeds, fails for good, is exhausted or is skipped at most once, and nothing happens to it afterwards |
| `StageRuns.LifecycleIsBounded` | tgcurator/infrastructure/database/analysis_repository.py:194-207 | no stage run makes more than twice `max_attempts` lifecycle transitions |
| `StageRuns.ExhaustionNeedsAnExpiredLease` | tgcurator/infrastructure/database/analysis_repository.py:143-196 | a claim gives up on a stage run only when its lease has expired and no attempts are left |
| `StageRuns.ConstraintsHold` | tgcurator/infrastructure/database/models.py:1754-1844 | the lifecycle CHECK constraints of stage runs and analysis runs hold in every reachable state |
| `StageRuns.RunKeeps` | tgcurator/infrastructure/database/analysis_repository.py:172-957 | the invariant behind the statements above holds after any number of steps of any number of workers |
| `StageRuns.StepKeeps` | tgcurator/infrastructure/database/analysis_repository.py:172-957 | every transaction keeps constraints, quiet terminal runs, the legal history and the explained cache results |
| `StageRuns.ReuseEnds` | tgcurator/infrastructure/database/analysis_repository.py:362-441 | following `reused_from` reaches an inference row, and the result there explains the result here |
| `StageRuns.ReuseIsAcyclic` | tgcurator/infrastructure/database/analysis_repository.py:362-441 | success order falls along `reused_from`, so a chain never returns to a row |
| `StageProgress.ClaimedFromSomeTime` | tgcurator/infrastructure/database/analysis_repository.py:172-220 | in every reachable state each active stage run with attempts left is claimed, under the new token and with one attempt more, by every claim from some time on |
| `StageProgress.GivenUpFromSomeTime` | tgcurator/infrastructure/database/analysis_repository.py:194-207 | in every reachable state an active stage run without attempts left is failed by every claim once its lease has ended; its run fails with it unless other stage runs of it are active |
| `StageProgress.EveryStageRunCanSucceed` | tgcurator/infrastructure/database/analysis_repository.py:172-668 | from every reachable state some steps let any active stage run with attempts left succeed with any answer |
| `StageProgress.ClaimedExactly` | tgcurator/infrastructure/database/analysis_repository.py:172-220 | a stage run with attempts left is claimed exactly when it is pending, its retry time has come or its lease has ended; row and run change column by column as stated and nothing else does |
| `StageProgress.StartedExactly` | tgcurator/infrastructure/database/analysis_repository.py:443-517 | a call is recorded exactly under the token, the unexpired lease and for the very target |
| `StageProgress.CommittedExactly` | tgcurator/infrastructure/database/analysis_repository.py:601-668 | a result is stored exactly under the lease and by the call started last, with one assignment for each label outside test runs |
| `StageProgress.FailedExactly` | tgcurator/infrastructure/database/analysis_repository.py:670-707 | under the lease a failure is put off exactly when it is retryable and attempts are left, otherwise it is final |
| `StageProgress.GateAppliesExactly` | tgcurator/infrastructure/database/analysis_repository.py:744-790 | the gate applies exactly to items backed by a stored, activated, negative assignment of this run, message and stage run |
| `StageProgress.GatedExactly` | tgcurator/infrastructure/database/analysis_repository.py:791-831 | an applied gate blocks each named message not yet blocked by the first item about it, skips exactly the run's active stage runs of named messages, and closes the run |
| `StageProgress.RolledUpExactly` | tgcurator/infrastructure/database/analysis_repository.py:838-880 | the roll-up: under way while any stage run is active, else failed if one failed, else blocked if it was or one was skipped by the gate, else completed |
| `StageOutcomes.LabelsAreOf` | tgcurator/infrastructure/database/analysis_repository.py:397-412 | the labels copied from a source are the verdicts of all its assignments in the order they were made |
| `StageOutcomes.BlockStaysExactly` | tgcurator/infrastructure/database/analysis_repository.py:856-878 | in every reachable state a blocked run can leave that status in some continuation if and only if one of its stage runs has failed |
| `StageOutcomes.BlocksHaveACause` | tgcurator/infrastructure/database/analysis_repository.py:791-805 | in every run a blocked message names an activated negative assignment of its own that is still stored |
| `StageOutcomes.CachedLabelsExactly` | tgcurator/infrastructure/database/analysis_repository.py:413-430 | in every run a cached result has the labels of the inference it came from if and only if no test run reused it on the way, or there were none; otherwise it has none |
| `StageOutcomes.LabelsAlong` | tgcurator/infrastructure/database/analysis_repository.py:413-430 | along a path of reuse the labels of its end are handed on until a test run drops them |
| `StageProtocol.ClaimKeeps` | tgcurator/infrastructure/database/analysis_repository.py:172-220 | a claim, exhausted or not, keeps constraints, links and quiet terminal runs |
| `StageProtocol.RowKeeps` | tgcurator/infrastructure/database/analysis_repository.py:362-705 | a transaction that moves one leased row on within its run keeps the invariant |
| `StageProtocol.GateKeeps` | tgcurator/infrastructure/database/analysis_repository.py:744-836 | the gate keeps the invariant: it leaves nothing active in the run it closes |
| `StageProtocol.GateNamesTheRun` | tgcurator/infrastructure/database/analysis_repository.py:771-790 | items that pass the gate's checks all name the message of the run |
| `StageProtocol.GateLeavesNothingActive` | tgcurator/infrastructure/database/analysis_repository.py:806-831 | a gate leaves its run with active stage runs exactly when one of them belongs to a message no item names |
| `StageProtocol.RollUpKeeps` | tgcurator/infrastructure/database/analysis_repository.py:838-880 | the roll-up keeps the invariant |
| `StageProtocol.RollUpStatus` | tgcurator/infrastructure/database/analysis_repository.py:856-878 | running exactly while something is active, failed exactly when nothing is active and a stage failed, a block kept exactly when none failed, and a terminal run stays terminal |
| `StageRepository.Repository.Claim` | tgcurator/infrastructure/database/analysis_repository.py:172-220 | the whole new state, exhaustion included, what is claimed when, and the columns the claim carries |
| `StageRepository.Repository.TerminalizeExhausted` | tgcurator/infrastructure/database/analysis_repository.py:959-993 | the row fails and its run fails or stays running with the rest of its stage runs |
| `StageRepository.Repository.LoadStageSnapshot` | tgcurator/infrastructure/database/analysis_repository.py:222-240 | the snapshot's target is the claimed row, while it still carries the token |
| `StageRepository.Repository.FindCacheHit` | tgcurator/infrastructure/database/analysis_repository.py:335-360 | an exact source other than the row itself, completed last among all of them and of the greatest ID among those, with its sanitised result; none exactly when there is no such source |
| `StageRepository.Repository.CommitCacheHit` | tgcurator/infrastructure/database/analysis_repository.py:362-441 | the whole new state, and that the reported gate items are exactly the activated negative assignments added |
| `StageRepository.Repository.CommitHitRow` | tgcurator/infrastructure/database/analysis_repository.py:397-435 | one row takes the rewritten result, origin and source, and copies the source's assignments unless the run is a test |
| `StageRepository.Repository.Assign` | tgcurator/infrastructure/database/analysis_repository.py:413-430 | appends one assignment for each label, none in a test run, and reports the gating ones |
| `StageRepository.Repository.LockTarget` | tgcurator/infrastructure/database/analysis_repository.py:882-919 | a target is returned exactly while it runs under the snapshot's token and an unexpired lease |
| `StageRepository.Repository.StartInference` | tgcurator/infrastructure/database/analysis_repository.py:443-517 | all rows are started, or none unless every target is still leased |
| `StageRepository.Repository.CommitValidatedTargets` | tgcurator/infrastructure/database/analysis_repository.py:601-668 | the whole new state: results of other targets, other calls and lost leases are dropped, and gate items are the gating assignments added |
| `StageRepository.Repository.CommitRow` | tgcurator/infrastructure/database/analysis_repository.py:624-667 | one row succeeds with its result exactly when it is leased and was started by this call |
| `StageRepository.Repository.RetryOrFailTargets` | tgcurator/infrastructure/database/analysis_repository.py:670-707 | the named targets that are still leased back off or fail, each with its own failure |
| `StageRepository.Repository.RetryOrFailRow` | tgcurator/infrastructure/database/analysis_repository.py:921-957 | backs off while retryable and attempts are left, otherwise fails for good |
| `StageRepository.Repository.ApplyNegativeGate` | tgcurator/infrastructure/database/analysis_repository.py:744-836 | applies exactly when every item names a stored, activated, negative assignment of the run by its message and stage run; then blocks, skips and closes |
| `StageRepository.Repository.CompleteAnalysisRun` | tgcurator/infrastructure/database/analysis_repository.py:838-880 | the rolled-up run, and that only an unknown run is reported so |
| `StageRepository.AnsweredLeavesNothingRunning` | tgcurator/application/analysis/worker.py:146-181 | once answers are committed and the rest failed, none of any number of targets is left under its lease |
| `StageRepository.HitsEach` | tgcurator/infrastructure/database/analysis_repository.py:362-441 | a cache commit of several targets gives each row what a commit of that target alone would |
| `StageRepository.StartsEach` | tgcurator/infrastructure/database/analysis_repository.py:443-517 | starting several targets records manifest, call and cache tag on each of them and changes no other row |
| `StageRepository.CommitsEach` | tgcurator/infrastructure/database/analysis_repository.py:601-668 | an answer among several, the only one for its target, is committed as it would be alone |
| `StageRepository.FailsEach` | tgcurator/infrastructure/database/analysis_repository.py:670-707 | a failure among several, the only one for its target, is recorded as it would be alone |
| `StageRepository.AnswerEndsLease` | tgcurator/infrastructure/database/analysis_repository.py:601-668 | a leased target with an answer from its own call is no longer under its lease after the commit |
| `StageRepository.FailureEndsLease` | tgcurator/infrastructure/database/analysis_repository.py:670-707 | a target with a failure is no longer under its lease afterwards |
| `Sanitizer.SanitizeIdempotent` | tgcurator/infrastructure/database/analysis_repository.py:112-140 | sanitising JSON twice is sanitising it once |
| `Sanitizer.SanitizeCleans` | tgcurator/infrastructure/database/analysis_repository.py:112-140 | no credential URL and no unredacted value under a sensitive key survives, and clean JSON is left alone |
| `Sanitizer.RewriteTwice` | tgcurator/infrastructure/database/analysis_repository.py:1305-1310 | passing a result on twice shows only the last target ID, the rest being sanitised once |
| `Sanitizer.OpenStays` | tgcurator/infrastructure/database/analysis_repository.py:112-140 | at every place reached without a sensitive key everything stays as it was, lengths and keys included, but for credential URLs |
| `Sanitizer.HiddenIsRedacted` | tgcurator/infrastructure/database/analysis_repository.py:112-140 | under the first sensitive key of a path there is only the marker |
| `Sanitizer.RewriteMeans` | tgcurator/infrastructure/database/analysis_repository.py:1305-1310 | a passed-on result names its new target, keeps its other fields sanitized, and is an object |
| `StageWorker.AnalysisStageRunWorker.Process` | tgcurator/application/analysis/worker.py:29-182 | one undisturbed pass takes the stage run exactly when it waits, has attempts left and its run is open; the row is then leased and worked on as `Work` states, the analysis run is over exactly when nothing of it is active, and outside test runs a new negative assignment leaves the message blocked |
| `StageWorker.AnalysisStageRunWorker.Work` | tgcurator/application/analysis/worker.py:38-182 | what the claimed row comes to: an unprepared call fails it or puts it off under its own code; if an exact source exists it succeeds from the cache with the one completed last; otherwise the call decides. The claim is settled and the invariant kept |
| `StageWorker.AnalysisStageRunWorker.Take` | tgcurator/application/analysis/worker.py:30-36 | a claim that succeeds is held under its token with room for fresh assignment IDs |
| `StageWorker.AnalysisStageRunWorker.Call` | tgcurator/application/analysis/worker.py:97-182 | a started call leaves the row with manifest, call and cache tag, and failed or put off under the provider's own code, or as `SettleAnswer` states |
| `StageWorker.AnalysisStageRunWorker.SettleAnswer` | tgcurator/application/analysis/worker.py:138-182 | a valid result for the target leaves the row succeeded by inference with that result's document and, outside test runs, one assignment for each of its labels; any other payload puts it off or fails it under the target's own issue, or the one about the whole payload. Activated negative labels block the message |
| `StageWorker.AnalysisStageRunWorker.SettleHit` | tgcurator/application/analysis/worker.py:81-95 | a reused result leaves the row succeeded from the cache with its source, the rewritten result and the source's labels, and its activated negative labels block the message |
| `StageWorker.AnalysisStageRunWorker.SettleProviderFailure` | tgcurator/application/analysis/worker.py:117-136 | a failed call puts the row off exactly when the failure is retryable and attempts are left, else fails it, under the provider's code, and assigns nothing |
| `StageWorker.AnalysisStageRunWorker.CommitAnswer` | tgcurator/application/analysis/worker.py:146-180 | the state after valid results are committed and retry targets failed, and the gate items that come of it |
| `StageWorker.AnalysisStageRunWorker.FailuresFor` | tgcurator/application/analysis/worker.py:152-180 | each retry target fails with its own issue, else the targetless one, else the first; always retryable |
| `StageWorker.AnalysisStageRunWorker.FailClaim` | tgcurator/application/analysis/worker.py:219-234 | failing the claim puts the row off or fails it under the given code after the worker's own delay, settles it and assigns nothing |
| `StageWorker.AnalysisStageRunWorker.Finish` | tgcurator/application/analysis/worker.py:184-200 | gate, if there are items, then roll-up, and the claim is settled |
| `StageWorker.AnsweredCallSettles` | tgcurator/application/analysis/worker.py:146-181 | for any number of targets and any payload, no expected target of an answered call is left running under its lease |
| `StageWorker.RetryIssueIsItsOwn` | tgcurator/application/analysis/worker.py:153-170 | for every payload `issues[0]` exists when there are retry targets, and the issue used is the target's own, or the targetless one when the envelope is broken |
| `StageWorker.EachTargetHandled` | tgcurator/application/analysis/worker.py:146-181 | every expected target has a result or is to be retried |
| `StageWorker.FinishSettles` | tgcurator/application/analysis/worker.py:184-200 | rolling up, after the gate or without it, leaves the run terminal exactly when nothing of it is active |
| `StageWorker.FreshGateApplies` | tgcurator/application/analysis/worker.py:184-195 | the gate never refuses the items a commit has just produced, and blocks their message |
| `StageWorker.RetriesNeverComeSooner` | tgcurator/application/analysis/worker.py:253-259 | later attempts wait at least as long |
| `StageWorker.DelaysDouble` | tgcurator/application/analysis/worker.py:253-259 | the first delay is the base and each further one twice the one before, none beyond the ceiling |
| `StageWorker.ResultIsStored` | tgcurator/application/analysis/worker.py:146-151 | the stored document and labels say what the validated result says, field by field |
| `StageWorker.RetryAt` | tgcurator/application/analysis/worker.py:253-259 | a retry is never due before now nor after the ceiling |
| `Schema.BatchAgreementExactly` | tgcurator/domain/analysis/schema.py:47-119 | in batch modes what the validator returns is complete exactly when the payload satisfies the schema, names every target and repeats no label, for every payload, if and only if all expected target IDs are already stripped |
| `Schema.SingleVerdictAgrees` | tgcurator/domain/analysis/result_validator.py:57-89 | in single modes what the validator returns is complete exactly when the payload satisfies the schema and repeats no label, for every payload |
| `Schema.BatchAgrees` | tgcurator/domain/analysis/schema.py:66-94 | with stripped target IDs the two descriptions agree on every payload |
| `Schema.UnstrippedDisagrees` | tgcurator/domain/analysis/schema.py:176-182 | an unstripped target ID gives a payload the validator completes and the schema refuses |
| `Schema.SingleAgrees` | tgcurator/domain/analysis/schema.py:95-112 | for one target the validator accepts in full exactly what satisfies the schema and repeats no label |
| `Schema.Pigeonhole` | tgcurator/domain/analysis/schema.py:79-84 | when every target is named, at most `maxItems` good items are exactly those that name each target once |
| `Schema.AcceptedWhenDistinct` | tgcurator/domain/analysis/result_validator.py:125-166 | good items are all accepted exactly when no two name the same target |
| `Schema.WitnessIsComplete` | tgcurator/domain/analysis/result_validator.py:90-181 | for every set of expected targets there is a payload the validator completes |
| `Schema.Build` | tgcurator/domain/analysis/schema.py:47-119 | succeeds exactly for a non-blank template and non-blank targets distinct after stripping, one of them in single modes, and yields the document |
| `Schema.BuildableExactly` | tgcurator/domain/analysis/schema.py:47-65 | a document is built exactly for a named template and non-blank targets, one in single modes, that stay apart without surrounding space |
| `Schema.ResultItemSchema` | tgcurator/domain/analysis/schema.py:121-165 | the filled-in dictionaries are the properties and required names of the policy |
| `Schema.DocumentMeaning` | tgcurator/domain/analysis/schema.py:73-112 | what payloads the document accepts, annotations and envelope included |
| `Schema.DocumentNames` | tgcurator/domain/analysis/schema.py:73-112 | the `x-tgcurator` object of a document: schema version, template version, label set version, execution mode and output mode, and nothing else |
| `Schema.DocumentsTellApart` | tgcurator/domain/analysis/schema.py:73-112 | equal documents name the same template version, label set version, execution mode and output mode, so a document never stands for another stage |
| `Schema.BatchItemAgrees` | tgcurator/domain/analysis/schema.py:66-72 | an item satisfies the batch item schema and repeats no label exactly when the validator accepts its fields and its target is listed |
| `Schema.SingleItemAgrees` | tgcurator/domain/analysis/schema.py:121-165 | an item satisfies the item schema and repeats no label exactly when the validator accepts its fields |
| `Schema.DenseMeaning` | tgcurator/domain/analysis/schema.py:126-136 | the dense schema accepts exactly one score from 0 to 1 for each label key |
| `Schema.MatchMeaning` | tgcurator/domain/analysis/schema.py:140-148 | the match schema accepts exactly a known key with a score from 0 to 1 |
| `Schema.SparseMeaning` | tgcurator/domain/analysis/schema.py:137-150 | the sparse schema without repeated labels is what the validator accepts |
| `Schema.EvidenceMeaning` | tgcurator/domain/analysis/schema.py:154-159 | the evidence schema accepts exactly arrays of strings |
| `JsonSchema.EnumMeaning` | tgcurator/domain/analysis/schema.py:69-69 | a string enum accepts exactly the listed strings (JSON Schema Validation, sections 6.1.1 and 6.1.2) |
| `JsonSchema.StringMeaning` | tgcurator/domain/analysis/schema.py:151-153 | accepts exactly strings |
| `JsonSchema.ScoreMeaning` | tgcurator/domain/analysis/schema.py:130-133 | accepts exactly numbers from 0 to 1, integers included and booleans excluded (sections 6.2.2 and 6.2.4) |
| `JsonSchema.ArrayMeaning` | tgcurator/domain/analysis/schema.py:154-159 | accepts exactly arrays of accepted items (Core, section 10.3.1.2) |
| `JsonSchema.BoundedArrayMeaning` | tgcurator/domain/analysis/schema.py:79-84 | accepts exactly arrays of at most `maxItems` accepted items (section 6.4.1) |
| `JsonSchema.ObjectMeaning` | tgcurator/domain/analysis/schema.py:160-165 | all properties required and none additional means exactly those keys with accepted values (6.5.3; Core 10.3.2.1 and 10.3.2.3) |
| `JsonSchema.AnnotationsIgnored` | tgcurator/domain/analysis/schema.py:73-94 | keywords a validator does not know change nothing |
| `Validator.CompleteExactly` | tgcurator/domain/analysis/result_validator.py:39-47 | a validation is complete exactly when every item is acceptable, none names an unexpected or repeated target and every target is named |
| `Validator.ResultsAndRetriesPartition` | tgcurator/domain/analysis/result_validator.py:177-181 | valid results and retry targets split the expected targets, each part in the expected order |
| `Validator.RetriesAreExplained` | tgcurator/domain/analysis/result_validator.py:115-181 | each retry target has an issue of its own, or the payload has exactly one, targetless issue |
| `Validator.AcceptedMeansAnswered` | tgcurator/domain/analysis/result_validator.py:112-166 | a target is kept exactly when one item names it and that item is acceptable |
| `Validator.UnansweredIsExplained` | tgcurator/domain/analysis/result_validator.py:112-176 | an expected target without a result is missing from the payload or an issue names it |
| `Validator.Validate` | tgcurator/domain/analysis/result_validator.py:57-88 | refuses malformed targets, reports broken envelopes, otherwise gives the verdict of the single or batch form; every kept result is faithful to the payload |
| `Validator.ValidateSingle` | tgcurator/domain/analysis/result_validator.py:183-205 | refuses other than one target, reports a broken envelope, else gives the verdict on the one item |
| `Validator.OutcomeIsFaithful` | tgcurator/domain/analysis/result_validator.py:208-272 | every kept result comes from the item that answers for its target: its labels are exactly those the item scores, with these scores, in output order (a sparse label without a match is left out), and reason and evidence are the item's own |
| `Validator.ScoreTableMeans` | tgcurator/domain/analysis/result_validator.py:225-253 | the score table holds a score for a label exactly when the item states it, in its table or in one of its matches |
| `Validator.ValidateBatch` | tgcurator/domain/analysis/result_validator.py:90-181 | results, issues and retries of a batch: one result for each target named once and acceptably, an issue with a cause for everything else |
| `Validator.InspectAll` | tgcurator/domain/analysis/result_validator.py:122-166 | after the loop exactly the accepted answers are kept and every other item is reported |
| `Validator.Inspect` | tgcurator/domain/analysis/result_validator.py:122-166 | an item is kept exactly when accepted, a duplicate is reported once however often it is named |
| `Validator.CountTargets` | tgcurator/domain/analysis/result_validator.py:112-119 | the counter holds how many items name each target |
| `Validator.ReportMissing` | tgcurator/domain/analysis/result_validator.py:168-176 | one missing issue for each expected target no item names, in the expected order |
| `Validator.ValidateResultItem` | tgcurator/domain/analysis/result_validator.py:208-272 | the first failing check decides the issue, and a result carries the resolved labels, reason and evidence |
| `Validator.NormalizeScores` | tgcurator/domain/analysis/result_validator.py:223-251 | scores are accepted exactly when complete and in range, and give the table of scores |
| `Validator.NormalizeMatches` | tgcurator/domain/analysis/result_validator.py:230-248 | matches are accepted exactly when known, in range and not repeated; labels without a match score 0 |
| `Validator.ResolveScores` | tgcurator/domain/analysis/labels.py:159-183 | for a valid label set the resolved labels are those of exactly the scored bindings, each once, ascending in output order; each has its binding's version, key, scope and sign, the given score, and is activated exactly from the threshold on |
| `Validator.KeysDistinct` | tgcurator/domain/analysis/labels.py:97-130 | the ordered keys of a valid label set never repeat |
| `Json.StripIdempotent` | tgcurator/domain/analysis/common.py:99-103 | stripping twice is stripping once, so IDs built into a schema are stable |
| `Json.StripMeans` | tgcurator/domain/analysis/common.py:99-103 | stripping cuts white space and nothing else off both ends until none is left there |
| `Json.BlankMeans` | tgcurator/domain/analysis/common.py:99-103 | a text is refused as blank exactly when it holds nothing but white space |
| `ConvergenceExact.ConvergesExactly` | tgcurator/infrastructure/database/message_ingest_repository.py:336-377 | for versions of components with separate assets: all sequences of messages that deliver them, in any order, grouping and repetition, end in the same rows and parents if and only if no component changes its group, its newest versions have one content, and one of them was published as early as any of its versions |
| `ConvergenceExact.TwoVersionsAgreeExactly` | tgcurator/infrastructure/database/message_ingest_repository.py:68-112 | two versions of one component end alike in both orders if and only if they have one group and either one edit time and one content, or the later edited was published no later |
| `ConvergenceExact.GroupsMustAgree` | tgcurator/infrastructure/database/message_ingest_repository.py:380-402 | whenever a component comes with two different groups, two orders end differently |
| `ConvergenceExact.NewestMustAgree` | tgcurator/infrastructure/database/message_ingest_repository.py:68-112 | whenever two newest versions of a component differ in content, two orders end differently |
| `ConvergenceExact.PublicationMustBeKept` | tgcurator/infrastructure/database/message_ingest_repository.py:68-112 | whenever a version was published before every newest version of its component, two orders end differently |
| `ConvergenceExact.AlonesFold` | tgcurator/infrastructure/database/message_ingest_repository.py:68-112 | delivered one by one, the versions of a component leave the row that folding the merge over them gives, whatever comes in between |
| `Convergence.BatchesConverge` | tgcurator/application/ingestion.py:21-34 | deliveries that meet this condition, however ordered, batched, split into partial albums and replayed, are all accepted and end in the same rows and parents |
| `Convergence.IngestConverges` | tgcurator/infrastructure/database/message_ingest_repository.py:336-377 | sequences of logical messages that deliver the same such versions end in the same rows and parents |
| `Convergence.HistoriesConverge` | tgcurator/infrastructure/database/message_ingest_repository.py:336-377 | two histories of deliveries and edits, refusals included, that accepted the same versions end in the same rows and parents when newest versions have one content and keep the earliest publication time |
| `Convergence.RowsReflect` | tgcurator/infrastructure/database/message_ingest_repository.py:68-112 | after any history of deliveries and edits, without further hypotheses, each row has the content of a newest accepted version under the group of all of them, published as early as some version and no later than any newest one |
| `Convergence.DeliveriesAreSeen` | tgcurator/infrastructure/database/message_ingest_repository.py:336-402 | deliveries of a sound set in which no component changes its group are all accepted |
| `Convergence.SoundDeliveryAccepted` | tgcurator/infrastructure/database/message_ingest_repository.py:336-402 | after any history a delivery whose components no other parent owns is accepted, if assets of different components are separate |
| `Convergence.BatchIsDelivered` | tgcurator/application/ingestion.py:27-34 | normalising a batch loses and invents no version |
| `IngestRuns.ParentsAreMaterialized` | tgcurator/infrastructure/database/message_ingest_repository.py:355-377 | in every committed state of any history each parent equals the normal form of all its retained parts |
| `IngestRuns.ParentsTell` | tgcurator/infrastructure/database/message_ingest_repository.py:355-377 | in every committed state of any history each parent's text, times, metadata and media are those of exactly its retained parts |
| `IngestRuns.MembersOnlyGrow` | tgcurator/infrastructure/database/message_ingest_repository.py:336-377 | no later transaction removes a parent or one of its members |
| `Ingest.Repository.UpsertMessage` | tgcurator/infrastructure/database/message_ingest_repository.py:336-377 | the whole new state, or the old one when the ownership check or the recomputed parent refuses it |
| `Ingest.Repository.UpsertPart` | tgcurator/infrastructure/database/message_ingest_repository.py:68-112 | insert, or replace unless stale or owned elsewhere, keeping the earlier publication time |
| `Ingest.Repository.Owns` | tgcurator/infrastructure/database/message_ingest_repository.py:380-402 | the ownership check passes exactly when every component's row belongs to the parent |
| `Ingest.Repository.Retained` | tgcurator/infrastructure/database/message_ingest_repository.py:128-136 | the parts reloaded are all and only those the parent owns |
| `Ingest.Repository.RecordSourceEdit` | tgcurator/infrastructure/database/source_lifecycle_repository.py:86-149 | a recorded edit changes part and parent together, a stale or unknown one nothing, a failing one is rolled back |
| `Ingest.UpsertKeeps` | tgcurator/infrastructure/database/message_ingest_repository.py:336-377 | an upsert keeps every parent materialised and touches only rows of its own parent |
| `Ingest.EditKeeps` | tgcurator/infrastructure/database/source_lifecycle_repository.py:86-149 | an edit keeps every parent materialised and touches only the component's own parent |
| `Ingest.MembersNeverShrink` | tgcurator/infrastructure/database/message_ingest_repository.py:128-155 | a transaction that touches one owner's rows takes no member from any parent |
| `Ingest.PutAllAt` | tgcurator/infrastructure/database/message_ingest_repository.py:68-112 | one statement merges each delivered component once and leaves all other rows |
| `IngestLaws.DeliveredExactly` | tgcurator/infrastructure/database/message_ingest_repository.py:68-112 | an accepted message inserts unseen components, replaces older versions keeping the earlier publication time, and leaves newer versions and all other components as they were |
| `IngestLaws.RefusedExactly` | tgcurator/infrastructure/database/message_ingest_repository.py:336-402 | a message is refused exactly when a component belongs to another message or two assets of its retained parts share an ID |
| `IngestLaws.EditedExactly` | tgcurator/infrastructure/database/source_lifecycle_repository.py:86-149 | an edit is recorded exactly when it is newer than what is known of its component, gives it the new text, metadata, media and edit time, and changes no other row |
| `Ingest.PartsAreOwned` | tgcurator/infrastructure/database/message_ingest_repository.py:128-155 | a parent's parts are exactly the rows it owns, under its own key |
| `Telegram.NormalizeTelegramMessages` | tgcurator/domain/messages/telegram.py:139-177 | refuses exactly batches that repeat a component or hold an album that does not assemble; otherwise returns one message for each key, by channel, primary ID and regular before album, each telling of its parts field by field |
| `Telegram.SortIntoGroups` | tgcurator/domain/messages/telegram.py:144-160 | the loop finds a repeated component exactly when there is one, and otherwise splits the batch by key |
| `Telegram.ArrivalOrderIrrelevant` | tgcurator/domain/messages/telegram.py:139-177 | the normal form depends on which deliveries there are, not on their order |
| `Telegram.EveryDeliveryOnce` | tgcurator/domain/messages/telegram.py:139-177 | every delivery is a part of the one message of its key, and no message has another part |
| `Telegram.NormalizeIdempotent` | tgcurator/domain/messages/telegram.py:180-240 | normalising the parts of a message gives that message back |
| `Telegram.NormalizeSame` | tgcurator/domain/messages/telegram.py:204-240 | only which parts there are matters, not their order |
| `Telegram.NormalizeSucceeds` | tgcurator/domain/messages/telegram.py:204-240 | sound parts assemble exactly when no two assets share an ID |
| `Telegram.TimesAreBounds` | tgcurator/domain/messages/telegram.py:204-240 | publication is the least and edit the greatest time of the parts, and some part attains each |
| `Telegram.NormalizeTells` | tgcurator/domain/messages/telegram.py:204-240 | a normalised message tells of exactly the parts it was made of: ascending IDs, the least one primary, the text of the part with the smallest ID among those that have one (none exactly when none has), least publication and greatest edit time, and the metadata and media of all parts in ID order |
| `BufferRuns.Conservation` | tgcurator/application/media_group_buffer.py:29-87 | over any calls every accepted update is released exactly once, waiting, or replaced while waiting by a later update of its component |
| `BufferRuns.NothingOverdue` | tgcurator/application/media_group_buffer.py:29-61 | after a call no group waits past its window, whatever earlier clocks said, and after a shutdown none waits |
| `BufferRuns.GroupsReleasedWhole` | tgcurator/application/media_group_buffer.py:82-87 | of two updates waiting in one group a call returns both or neither |
| `BufferRuns.ReleaseInOrder` | tgcurator/application/media_group_buffer.py:43-87 | groups come out by first arrival, each in one stretch by message ID |
| `BufferRuns.FlushReleases` | tgcurator/application/media_group_buffer.py:43-77 | a flush releases exactly the updates of groups whose wait has ended, a shutdown all of them |
| `BufferRuns.BatchesHoldEachComponentOnce` | tgcurator/application/media_group_buffer.py:29-61 | as long as no component that came grouped comes again with another group or none, no returned batch repeats a component, so normalisation does not refuse it for that |
| `BufferRuns.RegroupedIsReturnedTwiceExactly` | tgcurator/application/media_group_buffer.py:29-61 | for any updates: some calls with clocks that never go back accept exactly these and return a component twice in one batch if and only if a component that came grouped comes later with another group or with none |
| `BufferRuns.EarlyUpdateIsReturnedAlone` | tgcurator/application/media_group_buffer.py:29-41 | an ungrouped update that comes before any wait has ended is returned alone and leaves all groups waiting |
| `MediaGroupBuffer.MediaGroupAggregationBuffer.constructor` | tgcurator/application/media_group_buffer.py:24-27 | an empty buffer with the given positive window |
| `MediaGroupBuffer.MediaGroupAggregationBuffer.Add` | tgcurator/application/media_group_buffer.py:29-41 | what was due comes out first, then a message that stands alone; a grouped one replaces its slot and keeps the group's first arrival |
| `MediaGroupBuffer.MediaGroupAggregationBuffer.FlushDue` | tgcurator/application/media_group_buffer.py:43-61 | releases the due groups and keeps exactly the others |
| `MediaGroupBuffer.MediaGroupAggregationBuffer.FlushAll` | tgcurator/application/media_group_buffer.py:63-77 | releases everything and leaves nothing |
| `MediaGroupBuffer.MediaGroupAggregationBuffer.Release` | tgcurator/application/media_group_buffer.py:82-87 | the popped groups' updates in order, and no other group touched |
| `RoutingRuns.OneEvaluationPerRequest` | tgcurator/application/routing/service.py:40-103 | in any interleaving of find, load, persist and crash, all callers of a request that returned hold the one stored evaluation with exactly its intents in the same order |
| `RoutingProgress.EveryRequestIsAnswered` | tgcurator/application/routing/service.py:40-103 | from every reachable state a new caller of a request is answered within four steps of its own: with the stored evaluation if there is one, else with the draft it stores |
| `RoutingProgress.FoundExactly` | tgcurator/infrastructure/database/routing_repository.py:86-93 | looking a request up answers it with the stored evaluation and all its rows, or fails if the ID was bound to another message or policy, or goes on if nothing is stored |
| `RoutingProgress.WrittenExactly` | tgcurator/infrastructure/database/routing_repository.py:184-227 | writing a draft stores evaluation and intents, or answers from the store if another caller was first |
| `RoutingProgress.PreparesExactly` | tgcurator/application/routing/service.py:67-150 | a draft can be prepared exactly when every action decided on has an identity to publish under |
| `RoutingProgress.PreparedMeans` | tgcurator/application/routing/service.py:67-150 | a draft follows the rules by priority on the facts and holds, for each action decided on, the intent made of it |
| `RoutingProgress.PolicyTells` | tgcurator/infrastructure/database/routing_repository.py:251-367 | a loaded policy has the columns of its rule rows and, for each rule, exactly its stored actions by rising output order |
| `RoutingRuns.RunKeeps` | tgcurator/application/routing/service.py:40-103 | the store holds exactly the committed drafts after any run |
| `RoutingRuns.StepKeeps` | tgcurator/infrastructure/database/routing_repository.py:184-227 | every step of every caller keeps that |
| `RoutingRuns.ReloadCommitted` | tgcurator/infrastructure/database/routing_repository.py:454-533 | reloading a committed evaluation returns the committed intents in their original order |
| `RoutingRuns.Repository.PersistEvaluation` | tgcurator/infrastructure/database/routing_repository.py:184-227 | inserts once for each request and otherwise reloads or refuses, also when the unique constraints on intents are hit, with the whole new state |
| `RoutingRuns.WritesNeverConflict` | tgcurator/infrastructure/database/models.py:2369-2376 | in any interleaving an insertion meets neither unique constraint on intents: evaluation with action, and business key |
| `RoutingStore.ReloadRestores` | tgcurator/infrastructure/database/routing_repository.py:480-533 | whatever order rows are listed in, sorting by outcome rank and output order restores the decision order |
| `RoutingStore.PreparedIntentsAscend` | tgcurator/application/routing/service.py:105-150 | the intents prepared for a decision already stand in the order a reload sorts by |
| `RoutingStore.DecisionInOrder` | tgcurator/infrastructure/database/routing_repository.py:251-367 | the actions of a decision ascend by outcome rank, then by output order |
| `RoutingStore.MatchedInOrder` | tgcurator/domain/routing/models.py:117-161 | matched rules contribute their actions by rank of their outcome |
| `RoutingStore.RuleActionsOrdered` | tgcurator/infrastructure/database/routing_repository.py:353-356 | the actions of a built rule ascend strictly in output order and all are stored rows |
| `RoutingStore.PreparedPayloadValid` | tgcurator/infrastructure/database/routing_repository.py:536-582 | what a caller prepares always passes the payload check |
| `RoutingStore.PayloadValidExactly` | tgcurator/infrastructure/database/routing_repository.py:536-582 | a payload passes exactly when it holds the decision's outcomes and, for each action in order, an intent made for it under some ID and identity, a given identity kept |
| `RoutingStore.ConflictsExactly` | tgcurator/infrastructure/database/models.py:2369-2456 | an insertion is refused exactly when the table would no longer meet both unique constraints |
| `RoutingStore.BuildIntents` | tgcurator/application/routing/service.py:105-150 | fails exactly when some action has no rule or no identity that is not blank, its own or else the default of its destination; otherwise one intent for each action, in order, made of the action's own columns |
| `RoutingStore.ActionsDistinct` | tgcurator/infrastructure/database/routing_repository.py:353-356 | no action occurs twice in a decision |
| `RoutingStore.FreshIntentsFit` | tgcurator/infrastructure/database/models.py:2369-2456 | intents of one evaluation, each for another action, never conflict with those of other evaluations |
| `RoutingPolicy.EvaluateRouting` | tgcurator/domain/routing/models.py:117-161 | the outcomes are about different rules by falling priority and then rising ID, each telling whether it is enabled, matches and stops; if one stopped, it is the last and no rule that comes before it was left out, otherwise none was; the actions are those of the matching rules in that order; a rule is reported as matching exactly when it is enabled, its condition is valid and the facts make it true |
| `RoutingPolicy.DecisionFollows` | tgcurator/domain/routing/models.py:117-161 | the same of every decision the specification admits, with rule IDs distinct |
| `RoutingPolicy.EvaluateOrdered` | tgcurator/domain/routing/models.py:121-155 | the loop over sorted rules reaches that decision |
| `RoutingPolicy.DecisionUnique` | tgcurator/domain/routing/models.py:117-161 | rules and facts determine the whole decision |
| `RoutingPolicy.RuleOrderIrrelevant` | tgcurator/domain/routing/models.py:117-161 | listing the rules in another order changes nothing |
| `RoutingPolicy.StopsEarliest` | tgcurator/domain/routing/models.py:117-161 | evaluation stops at the earliest rule that stops it |
| `RoutingFacts.NamespaceSnapshot` | tgcurator/domain/review/resolution.py:67-99 | fails exactly when two labels claim one slot, and otherwise stores each label in its slot, each asset with the kind of its first label, and nothing else |
| `RoutingFacts.SnapshotTells` | tgcurator/domain/review/resolution.py:67-99 | every label stands in its own table with version, score and activation, every entry is a label, and an asset's kind is that of its first label |
| `RoutingFacts.FactsTell` | tgcurator/application/routing/service.py:153-171 | the facts are what was loaded, with the review status, and whether the message is blocked, by default not |
| `RoutingFacts.FactsCarryLabels` | tgcurator/application/routing/service.py:153-171 | the facts object carries the snapshots of all three namespaces |
| `RoutingFacts.GlobalLabelMeaning` | tgcurator/domain/routing/dsl.py:226-268 | on those facts a label condition with a dot-free key, for activation or any score comparison, answers by the stored label, and is unknown when there is none |
| `RoutingFacts.AnyMediaMeaning` | tgcurator/domain/routing/dsl.py:191-216 | on those facts `any_media`, for any test, is true exactly when the label of some asset passes and false exactly when every labelled asset has the label and none passes |
| `Labels.ResolveLabelNamespaces` | tgcurator/domain/review/resolution.py:11-42 | the model value of an identity is the last assigned; its manual value what the last edit by time and then event ID set, if it set; its effective value the manual one, else the model one; all three namespaces are complete and sorted |
| `Labels.ResolvedIsNamespaced` | tgcurator/domain/review/resolution.py:11-62 | the same of the resolved value itself, said of assignments and events alone |
| `Labels.LatestManual` | tgcurator/domain/review/resolution.py:11-42 | the latest event of each identity by time and ID, whatever the listing order |
| `Labels.ModelByIdentity` | tgcurator/domain/review/resolution.py:11-42 | the last model assignment of each identity |
| `Labels.EffectiveByIdentity` | tgcurator/domain/review/resolution.py:11-42 | manual sets replace model values and manual clears fall back to them |
| `Labels.Ordered` | tgcurator/domain/review/resolution.py:53-64 | the table's values strictly ascending, all and only those |
| `Labels.TablesMeanLabels` | tgcurator/domain/review/resolution.py:11-42 | the three tables hold exactly the model, manual and effective labels |
| `Labels.ManualMeaning` | tgcurator/domain/review/resolution.py:11-42 | an identity is manual exactly when its latest event is a set |
| `Labels.EventOrderIrrelevant` | tgcurator/domain/review/resolution.py:11-42 | permuting the manual events changes none of the namespaces |
| `Conditions.Evaluate` | tgcurator/domain/routing/dsl.py:166-216 | the early-exit loops compute strong Kleene evaluation |
| `Conditions.EvaluateMedia` | tgcurator/domain/routing/dsl.py:191-216 | the loop over media entries computes it in whatever order entries come |
| `Conditions.DefiniteAnswersSurvive` | tgcurator/domain/routing/dsl.py:166-311 | a definite answer survives any enrichment of the facts that keeps resolvable paths at their values |
| `Conditions.MatchesSurvive` | tgcurator/domain/routing/dsl.py:42-52 | so a match never disappears, and a matched negation never turns, when facts are added |
| `Conditions.ChildOrderIrrelevant` | tgcurator/domain/routing/dsl.py:170-185 | neither order nor repetition of children changes `all` or `any` |
| `Conditions.ConjunctionOfChildren` | tgcurator/domain/routing/dsl.py:170-177 | `all` is true exactly when all children are and false exactly when one is, early exit notwithstanding |
| `Conditions.DisjunctionOfChildren` | tgcurator/domain/routing/dsl.py:178-185 | `any` is true exactly when one child is and false exactly when all are |
| `Conditions.DeMorgan` | tgcurator/domain/routing/dsl.py:170-190 | De Morgan's laws hold with unknown as a third value |
| `Conditions.NoneMediaNegatesAnyMedia` | tgcurator/domain/routing/dsl.py:191-203 | `none_media` is the negation of `any_media` on every facts object |
| `Conditions.ValidFactsAllowed` | tgcurator/domain/routing/dsl.py:55-137 | a condition that passes validation reads only allowed facts in its fact-based leaves |
| `ConditionLaws.ResolveFollows` | tgcurator/domain/routing/dsl.py:226-234 | a fact is what stands under its whole name, or else what its dotted path leads to |
| `ConditionLaws.ExistsMeans` | tgcurator/domain/routing/dsl.py:219-224 | `exists` is true for a value, false for null, unknown when the fact is not there |
| `ConditionLaws.EqMeans` | tgcurator/domain/routing/dsl.py:292-296 | values of different types are neither equal nor unequal; of one type they are equal exactly when they are once booleans and integers are taken for numbers |
| `ConditionLaws.NumbersCompare` | tgcurator/domain/routing/dsl.py:276-283 | numbers compare by value, whole or not |
| `ConditionLaws.StringsCompare` | tgcurator/domain/routing/dsl.py:284-290 | strings compare by their first difference, a beginning before the whole |
| `ConditionLaws.OthersDoNotCompare` | tgcurator/domain/routing/dsl.py:284-291 | anything else has no order |
| `ConditionLaws.InListMeans` | tgcurator/domain/routing/dsl.py:297-300 | `in` asks whether an equal value occurs in the list |
| `ConditionLaws.ContainsMeans` | tgcurator/domain/routing/dsl.py:301-306 | `contains` asks a string for a part and a list for an equal element |
| `ConditionLaws.StartsWithMeans` | tgcurator/domain/routing/dsl.py:307-310 | `starts_with` asks a string for its beginning |
| `ConditionLaws.LabelPresentMeans` | tgcurator/domain/routing/dsl.py:211-215 | `label_present` is true exactly for a number from the minimum on, unknown for anything else |
| `ConditionLaws.ValidExactly` | tgcurator/domain/routing/dsl.py:55-165 | a condition is valid exactly when everything inside it, to whatever depth, is well formed and at most twenty levels down |
| `Pipeline.TopologicalIds` | tgcurator/domain/analysis/pipeline.py:166-195 | succeeds exactly on duplicate-free, closed, acyclic graphs, and then returns a topological order |
| `Pipeline.LexicographicallyLeast` | tgcurator/domain/analysis/pipeline.py:179-195 | every other topological order is lexicographically larger |
| `Pipeline.InputOrderIrrelevant` | tgcurator/domain/analysis/pipeline.py:179-195 | the order does not depend on how the nodes are listed |
| `Pipeline.OrderExcludesCycles` | tgcurator/domain/analysis/pipeline.py:179-195 | a graph with a topological order has no cycle |
| `Pipeline.StuckMeansCycle` | tgcurator/domain/analysis/pipeline.py:179-195 | when nothing is ready but nodes remain, there is a cycle |
| `Pipeline.Release` | tgcurator/domain/analysis/pipeline.py:186-192 | striking a node from the dependency sets collects exactly the nodes that become free |
| `Pipeline.AncestorIds` | tgcurator/domain/analysis/pipeline.py:144-156 | the worklist terminates with exactly the transitive closure |
| `Pipeline.AllowedFactKeys` | tgcurator/domain/analysis/pipeline.py:157-163 | the allowed keys are the blocked flag and exactly the facts of ancestors |
| `Pipeline.ValidateVersion` | tgcurator/domain/analysis/pipeline.py:106-176 | a version is accepted exactly when its graph orders and every condition passes with its allowed keys |
| `Pipeline.ConditionsReadEarlierFacts` | tgcurator/domain/analysis/pipeline.py:141-163 | every fact an accepted condition reads is the blocked flag or comes from a node strictly earlier in the order |
| `VideoFrames.SampleVideo` | tgcurator/application/media/videos.py:176-213 | a positive duration always gives a valid result: first frame as cover, pairwise separated frames, none left out without reason, and no more than fit |
| `VideoFrames.Sample` | tgcurator/application/media/videos.py:176-213 | the same for any fingerprint distance, and failure exactly for a duration that is not positive; a candidate is kept exactly when it is far from the cover and from all kept before it and there is room left |
| `VideoFrames.FirstComeFirstKept` | tgcurator/application/media/videos.py:136-166 | each candidate in time order is kept exactly when it is far enough from the cover and from everything kept before it, while there is room |
| `VideoFrames.SelectRepresentativeFrames` | tgcurator/application/media/videos.py:136-166 | the loop selects the greedy choice among the sorted candidates |
| `VideoFrames.ChosenSeparated` | tgcurator/application/media/videos.py:136-166 | kept frames are candidates, at most the cap, in order and pairwise separated in time and content, also from the cover |
| `VideoFrames.ChosenMaximal` | tgcurator/application/media/videos.py:136-166 | unless the cap is reached every candidate left out is too close to the cover or a kept frame |
| `VideoFrames.ScansDecide` | tgcurator/application/media/videos.py:145-163 | the two scans and the cover test together keep exactly the candidates far from everything kept |
| `VideoFrames.Packing` | tgcurator/application/media/videos.py:136-166 | frames a gap apart, the first a gap after zero, number at most the duration divided by the gap |
| `VideoFrames.SelectionApart` | tgcurator/application/media/videos.py:136-166 | the selection from unsorted evidence is separated and maximal |
| `VideoFrames.FramesAreValid` | tgcurator/application/media/videos.py:80-105 | separated candidates always pass the checks of the result |
| `VideoFrames.CandidatesSpread` | tgcurator/application/media/videos.py:108-118 | candidate times run strictly upwards from zero to the end of the video |
| `VideoFrames.CandidatesCoverGaps` | tgcurator/application/media/videos.py:108-118 | as many candidates, evenly spread, as it takes for neighbours to be no more than a gap apart, but no fewer and no more than the profile allows |
| `VideoFrames.DistanceIsHamming` | tgcurator/application/media/videos.py:121-133 | the distance is the number of the 64 bits in which the hashes differ |
| `VideoFrames.DistanceIsMetric` | tgcurator/application/media/videos.py:121-133 | the distance is symmetric and satisfies the triangle inequality |
| `Ordering.StringLessMeans` | tgcurator/domain/routing/models.py:126-126 | strings are ordered by the first place where they differ, and a beginning comes before the whole |

## Left out

- SQL text, sessions, row locks and deadlocks: a transaction is an atomic step, and a row skipped because it is locked is a step that does nothing.
- Celery, FastAPI, Telethon, the HTTP provider, FFmpeg, Pillow and file storage: their answers are arbitrary arguments that pass the checks shown in the source.
- Hashing, canonical serialisation and encryption: a cache key is an opaque string and JSON is a datatype, whose numbers are unbounded integers and reals; rounding, infinities and NaN are not modelled.
- `complete_for_entity` (`processing_repository.py:308-326`): nothing calls it, and called early it would end the wake-up of a live execution.
- Image and video archive rows, their workers and the asset rows and wake-ups that ingestion writes: the same lease pattern, with fewer rows; visual fingerprints with them.
- `record_deletion`, manual blocks and review actions: each sets columns no proved statement reads.
- Who inserts processing ranges, channels, messages, analysis runs and stage runs: no code of the modelled files does, so runs take such insertions as steps of their surroundings, limited by the table constraints. A stage run is inserted for its run's own message and never into a run that is over.
- `skipped_condition`: nothing sets it; the status is in the model and no transaction reaches it.
- Wake-ups of stage runs: they are ended and rescheduled by the same two updates as those of range executions (`analysis_repository.py:996-1041`), for which the correspondence is proved.
- Error code and type columns of analysis runs, audit rows of inference calls, reason, evidence and target columns of assignments, and timestamps that only record the last update.
- Type, identifier and UUID checks of constructors, version-number fields, prompt rendering, settings, logging and migrations.
- Rows are identified by numbers instead of UUIDs, and a message parent by the columns of its unique index.
- Routing: rendered payloads, dry runs, and the refusal of missing or disabled destinations while a snapshot is loaded; conditions that are not well-formed JSON of a known shape.
- Not given by the code and not stated: that everything up to `last_seen` is ingested (buffered albums may be overtaken), and that an activated negative label blocks its message when the worker dies before the gate.
- RoutingFacts.GlobalLabelMeaning: asks for a label key without dots, because global labels are looked up by a path split at dots (`dsl.py:230`) while keys may contain them (`common.py:14`).
- Conditions.ValidFactsAllowed: covers fact-based leaves; `label`, `any_media` and `none_media` nodes are not checked against the allowed keys (`dsl.py:77-84`).
- Sanitizer.SanitizeIdempotent: is about JSON values. `sanitize_json` also turns other Python objects into strings, and such a string is only inspected in the next pass; which keys are sensitive and which strings are credential URLs are parameters, of which only that the two markers are no URLs is used.
- Convergence.BatchesConverge: batches that normalisation refuses (a repeated component, an album that repeats an asset ID) never reach the tables and are not part of the histories compared.
- StageWorker.AnalysisStageRunWorker.Process: is one pass no other worker disturbs, for the one target a snapshot loads; interleaved passes and crashes are the runs of `StageRuns`, and `AnsweredCallSettles` covers any number of targets.
- RangeStore.Repository.CreateExecutionAndWakeup: the queue is the range execution queue, which is what the scheduler passes.
- RangeStore.Repository.ClaimDue: which due rows other transactions hold, hence the statement skips, is an argument.
- StageRepository.Repository.LoadStageSnapshot: says which target is loaded, not the stage version, media and context read with it; the worker's model takes those as arguments.
- RoutingRuns.Repository.PersistEvaluation: conflicts of primary keys are left out, because IDs are fresh, and the hash in `business_idempotency_key` is taken to be injective.
- VideoFrames.Sample: artifacts carry their perceptual hash only, and times are reals.
