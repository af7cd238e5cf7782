# Verified model of the workflow engine

The engine drives a feature run through a fixed sequence of twelve phases. Progress
is stored in a run ledger, guarded by worker leases and budgets, and a run can be
resumed after a failure or a crash. This project models those parts in Dafny and
proves what they keep over whole runs. `dafny verify dfyconfig.toml` checks it all.

- `Records`, `FileLedger`, `LedgerHistory`, `LedgerCrash`: the durable ledger, an
  append-only log with a live index. Replay, compare-and-swap, torn writes.
- `MemoryLedger`: the bounded in-memory ledger with its reverse key index.
- `Orchestration`, `ResumeChains`: the phase loop over the durable ledger, and chains
  of start, resume and cancel in which every process has its own phase outcomes,
  budget breaches, lease conflicts, exceptions and point of death.
- `Completion`: exactly when a run can still complete.
- `Outcomes`: when one process completes, and what the first thing that goes wrong leaves.
- `RecordHistory`, `MemoryHistory`: what the records of either ledger say, read off the
  calls alone.
- `ResumeContexts`: which context a resume goes on from, and which artifacts survive.
- `MemoryChains`: the same chains over the in-memory ledger, and what they lose.
- `Leases`: worker leases on a file that each store reads once.
- `PlanGraph`, `Traceability`: the search for dependency cycles, the plan validator, and
  the traceability report.
- `Router`, `Budgets`: bounded retry, repair and fallback; budget checks and the two
  projections of model consumption.
- `ConfigMerge`, `Patches`, `Delivery`, `Workspace`, `Workflow`: layered configuration,
  diff headers, idempotent delivery, revert of unauthorized changes, phase transitions.

A class of the source whose methods change its fields is a class here. Each method is
proved against a function (`Apply`, `PhaseLoop`, `Route`, `Post`, ...) that says what one
call does, and the results are lemmas over arbitrary sequences of such calls.

## Where the code says less than its documentation

The code is followed in each case, and the difference is proved.

- The file ledger's description says that a partial last line is truncated on replay.
  It is skipped, not truncated, so everything appended after it is lost to every later
  replay (`LedgerCrash.AppendsAfterTearAreLost`).
- A state change drops the cost fields of the live record although the log keeps them
  (`LedgerHistory.CompletionForgetsCost`, `LedgerHistory.FullAgreementIff`), and a resume
  drops them from the log as well (`RecordHistory.ResumeForgetsStamps`).
- The in-memory ledger says that a negative cost is refused; it copies the record
  without validation and stores it (`MemoryLedger.NegativeStampIsStored`,
  `MemoryLedger.StampStaysNonNegativeIff`).
- The cursor's description says that a retry increments the attempt counter. The
  orchestrator always records attempt 0, so every cursor has it
  (`ResumeChains.ResumeIsExact`).
- The in-memory ledger says that replacing a record carries the resume state over. It
  drops the cursor, so a failed attempt without a checkpoint counts as done after the next
  start record (`MemoryChains.DroppedCursorResumesRightIff`,
  `MemoryChains.FailedPhaseIsSkipped`), and a chain is exact if and only if no resume
  stops at that point (`MemoryChains.InMemoryResumeIsExactIff`).
- A bounded number of remediation attempts is promised. The count is not restored by a
  resume, so the limit never has an effect (`ResumeChains.ResumeIgnoresLimit`).
- A resume after a failed ci phase cannot succeed, because the head SHA is not restored
  (`Completion.StuckAtCi`, `Completion.ChainCanCompleteIff`).
- A process that dies after recording the last phase and before marking completion
  leaves a run that no resume ever marks complete (`Completion.UnmarkedNeverCompletes`).
- Revisions protect a run against stale writers only while it stays resident in the
  in-memory ledger (`MemoryLedger.SecondWinnerIff`), and on the durable ledger only
  within one ledger object (`LedgerHistory.SecondLedgerWinsIff`).
- Two lease stores on one file do not exclude each other once both have read it, and each
  erases what the other wrote (`Leases.AcquireFromAnotherStore`,
  `Leases.FlushOverAnotherStore`).
- An acquire can answer with a lease that has lapsed (`Leases.KeptMayHaveLapsed`).
- The plan validator accepts a plan with repeated task ids whose tasks depend on each
  other (`PlanGraph.RepeatedIdsHideACycle`).
- The traceability validator says that it reports orphaned scenarios. It cannot: a
  scenario is only known through a trace, which names a requirement
  (`Traceability.ValidateTraces`).
- A model invocation is not always recorded as a whole (`Budgets.AllOrNothingIff`).
- A path entry without a slash at its end covers every path that begins with it, not
  only what lies under it (`Workspace.EntriesCover`).
- The file name of an idempotency key is not unique (`Delivery.SharesFileIff`).

## Model

| member | source | states |
|---|---|---|
| FileLedger.FileRunLedger.constructor | src/seharness/controller/real_adapters.py:492-500 | opening a log file gives the index that replaying its readable lines gives |
| FileLedger.FileRunLedger.RebuildIndex | src/seharness/controller/real_adapters.py:502-610 | the line-by-line loop that stops at the first undecodable line computes the replay of the decodable prefix |
| FileLedger.FileRunLedger.RecordStart | src/seharness/controller/real_adapters.py:620-702 | the whole new index, the one appended line, and the answer; a known run keeps cursor, phase, context and cost |
| FileLedger.FileRunLedger.UpdateState | src/seharness/controller/real_adapters.py:704-788 | the whole new index, the one appended line, and the answer, conflicts and validation errors included |
| FileLedger.FileRunLedger.RecordPhase | src/seharness/controller/real_adapters.py:790-818 | recording a phase is an update to the running state that refuses an empty phase before anything else |
| FileLedger.FileRunLedger.RecordCostAttribution | src/seharness/controller/real_adapters.py:906-980 | a partial cost stamp overlays the old one under the revision guard, and is logged |
| LedgerHistory.ReplayRefinesLive | src/seharness/controller/real_adapters.py:502-788 | over any history of calls and restarts, replaying the log gives the live index: same runs, same value in every field but the cost, and every cost value the live record still holds |
| LedgerHistory.FullAgreementIff | src/seharness/controller/real_adapters.py:757-788 | starting from full agreement, a call keeps even the cost equal if and only if it is a start, a state change of a record without cost, or a stamp naming no empty task or axis |
| LedgerHistory.CompletionForgetsCost | src/seharness/controller/real_adapters.py:759-772 | a stamped cost disappears from the live record on completion and reappears after a restart |
| LedgerHistory.RevisionsHaveNoGaps | src/seharness/controller/real_adapters.py:759-786 | in every history the log lines of each run are numbered 1, 2, 3, ... and the live revision is the last number |
| LedgerHistory.OneWinnerPerRevision | src/seharness/controller/real_adapters.py:717-737 | two guarded calls on one ledger that expect the same revision of a run never both succeed, whatever calls and restarts lie between |
| LedgerHistory.SecondLedgerWinsIff | src/seharness/controller/real_adapters.py:492-500 | a second ledger object on the same log wins the same revision if and only if its own index still has it; the log then carries the next revision twice |
| LedgerHistory.ApplyShape | src/seharness/controller/real_adapters.py:717-737 | a conflict, an unknown run or a validation error changes nothing; a success changes one run and logs one line |
| LedgerHistory.RefusedIff | src/seharness/controller/real_adapters.py:704-788 | exactly which calls are refused, in which way and in which order, and what a conflict reports |
| RecordHistory.RecordsTellTheirCalls | src/seharness/controller/real_adapters.py:620-788 | over any history, a run has a record exactly if a call on it succeeded, and every field but the cost, live and replayed, is what the last successful call that sets it says: state, repository, key, description, context, cursor, phase, and the revision as their number |
| RecordHistory.CostsTellTheirCalls | src/seharness/controller/real_adapters.py:906-980 | each cost field, live and replayed, is what the successful calls and restarts say of that field |
| RecordHistory.ResumeForgetsStamps | src/seharness/controller/real_adapters.py:620-702 | the mark and the start record of a resume wipe every stamp, from the log too |
| LedgerCrash.ReadsUpToFirstTornWrite | src/seharness/controller/real_adapters.py:505-514 | replay reads exactly the lines before the first write without its newline, and that one too if it is whole and last |
| LedgerCrash.AppendsAfterTearAreLost | src/seharness/controller/real_adapters.py:505-514 | after a torn write no later append, by any number of processes, is ever replayed |
| LedgerCrash.ReplayYieldsAPrefix | src/seharness/controller/real_adapters.py:481-487 | over any torn writes, restarts and further calls, a replay yields the log of a prefix of the requested operations |
| MemoryLedger.ApplyValid | src/seharness/controller/run_ledger.py:289-363 | every operation keeps the order duplicate-free and equal to the resident runs, the size within the bound, and the key index the exact inverse of the non-empty keys |
| MemoryLedger.OnlyWritesChangeTheStore | src/seharness/controller/run_ledger.py:625-643 | a conflict, a repeated or taken key, an unknown run or a validation error leaves the whole store unchanged |
| MemoryLedger.KeyDecidesStart | src/seharness/controller/run_ledger.py:306-318 | a start whose key a resident run has is answered with that run or refused in its name, and any other valid start is written |
| MemoryLedger.RefusedIff | src/seharness/controller/run_ledger.py:622-643 | exactly which calls are refused, and in which way |
| MemoryHistory.MemoryRecordsTellTheirCalls | src/seharness/controller/run_ledger.py:339-357 | every field of a resident record is what the last successful call since its insertion that sets it says; a start drops the cursor and keeps the legacy phase, the context and the cost |
| MemoryLedger.OrderIsASuffixOfInsertions | src/seharness/controller/run_ledger.py:692-698 | after any history the resident runs are the latest insertions, in insertion order |
| MemoryLedger.RevisionCountsMutations | src/seharness/controller/run_ledger.py:672-690 | a resident run's revision is one plus its successful calls since it was last inserted |
| MemoryLedger.OneWinnerWhileResident | src/seharness/controller/run_ledger.py:622-643 | while a run stays resident, one expected revision has at most one winner |
| MemoryLedger.SecondWinnerIff | src/seharness/controller/run_ledger.py:622-643 | after a winner, a second call that expects the same revision wins if and only if the run was evicted and inserted again in between, has had exactly that many successful calls since, and the other guards hold |
| MemoryLedger.GuardedWinsIff | src/seharness/controller/run_ledger.py:622-643 | the same condition for any guarded call |
| MemoryLedger.EvictionAdmitsTwoWinners | src/seharness/controller/run_ledger.py:692-698 | a run of calls in which this happens |
| MemoryLedger.StampStaysNonNegativeIff | src/seharness/controller/run_ledger.py:562-593 | a stamp is stored unchecked, and keeps a record free of negative amounts if and only if it is free of them |
| MemoryLedger.NegativeStampIsStored | src/seharness/controller/run_ledger.py:562-593 | a negative amount is written to a resident run |
| MemoryLedger.RunLedger.RecordStart | src/seharness/controller/run_ledger.py:289-363 | dedupe by key, key conflict, re-keying, insertion and eviction, with the whole new state and the answer |
| MemoryLedger.RunLedger.UpdateState | src/seharness/controller/run_ledger.py:595-690 | the guarded state change and cursor move on one record, keeping the invariant |
| MemoryLedger.RunLedger.EvictOldest | src/seharness/controller/run_ledger.py:692-698 | popping from the front until the bound holds, records and keys included |
| MemoryLedger.RunLedger.RecordCostAttribution | src/seharness/controller/run_ledger.py:562-593 | the cost stamp under the revision guard, without validation of the amounts |
| Orchestration.Orchestrator.RunPhases | src/seharness/orchestrator/orchestrator.py:719-863 | the phase loop writes exactly the ledger calls of the loop specification, in order, and returns its result |
| Orchestration.Orchestrator.RunOnePhase | src/seharness/orchestrator/orchestrator.py:750-863 | one iteration records the outcome, with a breached budget turning it into blocked, then marks the halting or completing state |
| Orchestration.Orchestrator.Start | src/seharness/orchestrator/orchestrator.py:496-688 | a first start records the run and enters the loop at the first phase unless it stops before |
| Orchestration.Orchestrator.Resume | src/seharness/orchestrator/orchestrator.py:940-973 | a resume refuses completed and cancelled runs, marks, checks drift and phase, restarts the record and enters the loop at the resume index |
| Orchestration.Orchestrator.Cancel | src/seharness/orchestrator/orchestrator.py:975-1008 | a known run that is not complete is marked cancelled, any other call is refused without effect |
| Orchestration.FollowingExtendsAnyLog | src/seharness/orchestrator/orchestrator.py:719-863 | the calls a process makes extend any log the same way, so chains of processes compose |
| Outcomes.LoopCompletesIff | src/seharness/orchestrator/orchestrator.py:719-863 | the loop returns completion if and only if every phase from its entry on returns, within budget, without an exception, with a success by its inputs: a free outcome that succeeded, a validation exit of none or zero, a ready ci with a known head SHA under the remote policy |
| Outcomes.StartCompletesIff | src/seharness/orchestrator/orchestrator.py:496-863 | the same for a start, over all twelve phases |
| Outcomes.ResumeCompletesIff | src/seharness/orchestrator/orchestrator.py:940-973 | the same for a resume, from its entry on |
| Outcomes.FirstTroubleDecides | src/seharness/orchestrator/orchestrator.py:750-863 | the first phase that is not fine decides what is recorded, the cursor, the state and the result, in every way a phase can end |
| Outcomes.ExhaustedBudgetBlocks | src/seharness/orchestrator/orchestrator.py:792-850 | a phase that returns with an exhausted budget leaves a blocked cursor on it, and a blocked run and result if the process goes on |
| Outcomes.ExhaustedResumeBlocks | src/seharness/orchestrator/orchestrator.py:792-850 | the same for the record after a whole resume |
| Outcomes.GoesOnIffFine | src/seharness/orchestrator/orchestrator.py:1471-1548 | a phase goes on to the next if and only if it is fine, and then hands on its context |
| Outcomes.HandsOnArtifacts | src/seharness/orchestrator/orchestrator.py:1471-1548 | which artifacts, exit code and remediation count each phase hands on |
| Outcomes.HandsOnDelivery | src/seharness/orchestrator/orchestrator.py:1595-1666 | the pull request, branch and head SHA that draft_pr hands on, or the reason for skipping |
| Outcomes.HandsOnVerdict | src/seharness/orchestrator/orchestrator.py:1668-1723 | the ci verdict in the context: ready, blocked without a SHA, or the reported state |
| ResumeContexts.ResumeGoesOnFromLastContext | src/seharness/orchestrator/orchestrator.py:1870-1910 | over any chain, the live and the replayed record hold the context of the last successful phase record, and the next resume rebuilds its context from exactly that one |
| ResumeContexts.ResumeRebuildsLastContext | src/seharness/orchestrator/orchestrator.py:1870-1910 | for a record of either ledger: what a resume reads back from the last recorded context, and what starts over |
| ResumeContexts.ArtifactsSurvive | src/seharness/orchestrator/orchestrator.py:1853-1910 | over any chain, the exit code settled by validation, the artifacts settled by review and the pull request settled by draft_pr never change again |
| ResumeChains.ResumeIsExact | src/seharness/orchestrator/orchestrator.py:575-603 | over any chain after a first start, recorded successes are the first phases of the sequence, once each and in order; the next resume begins at that count; completion is marked only after all twelve; every cursor has attempt 0 |
| ResumeChains.LoopProgress | src/seharness/orchestrator/orchestrator.py:719-863 | one process that enters at the recorded index moves it by exactly the successes it records, and reports completion only at the end |
| ResumeChains.AtIndexResumes | src/seharness/orchestrator/orchestrator.py:575-603 | a record that stands before phase k, without a cursor or with one on the success before it or on a failed attempt of it, resumes at phase k |
| ResumeChains.StartIgnoresLimit | src/seharness/orchestrator/orchestrator.py:1528-1539 | no start behaves differently under another remediation limit; its contexts have at most one attempt and are never exhausted |
| ResumeChains.ResumeIgnoresLimit | src/seharness/orchestrator/orchestrator.py:1480-1486 | the same for every resume, whatever the record holds |
| Completion.ChainCanCompleteIff | src/seharness/orchestrator/orchestrator.py:940-973 | some chain completes a run if and only if it is complete, or it can be resumed, a phase is left, and that phase is not ci or the local policy is allowed |
| Completion.ResumeShape | src/seharness/orchestrator/orchestrator.py:940-973 | the calls of a resume: nothing, the mark alone, or the mark, the start record with the run's own repository and no key, and the loop |
| Completion.ResumeCanCompleteIff | src/seharness/orchestrator/orchestrator.py:719-863 | the same for one resume under a given policy |
| Completion.OneProcessDoesBoth | src/seharness/orchestrator/orchestrator.py:1707-1709 | a remote-policy chain completes a run only with a process in it that takes the run through both draft_pr and ci |
| Completion.StuckAtCi | src/seharness/orchestrator/orchestrator.py:1707-1709 | without the local policy, a run whose next phase is ci when its process ends never gets past ci in any later chain |
| Completion.ResumeAtCiFails | src/seharness/orchestrator/orchestrator.py:1897-1910 | a resume at ci records no success and never reports completion, because the head SHA is not rebuilt |
| Completion.UnmarkedNeverCompletes | src/seharness/orchestrator/orchestrator.py:861-863 | if a process dies between the last phase record and the completion mark, no later chain ever marks the run complete |
| Completion.UnmarkedResumeClaimsCompletion | src/seharness/orchestrator/orchestrator.py:712-723 | a later resume of such a run reports completion if and only if it gets into its loop, and never marks it |
| MemoryChains.InMemoryResumeIsExactIff | src/seharness/controller/run_ledger.py:339-357 | over any in-memory chain after a first start, the next resume begins after the recorded successes and the lost phases together, one lost for each resume that loses one; so the chain is exact if and only if none does |
| MemoryChains.NextResumeIsRightIff | src/seharness/orchestrator/orchestrator.py:575-603 | after one in-memory resume the next begins right after the recorded successes, unless it replaced a failed attempt without a checkpoint and recorded nothing; then one phase later |
| MemoryChains.DroppedCursorResumesRightIff | src/seharness/controller/run_ledger.py:339-357 | a replaced record resumes where it stood if and only if it is not a failed attempt without a checkpoint; otherwise one phase later |
| MemoryChains.FailedPhaseIsSkipped | src/seharness/controller/run_ledger.py:339-357 | at every phase, a resume that fails there and one that stops after its start record make the next one skip it in memory, and retry it on the durable ledger |
| Leases.LeasesExclude | src/seharness/orchestrator/leases.py:169-212 | over any interleaving of calls on one store with a clock that does not run backwards, a call is answered with a lease, new or kept, only if every other token's latest lease on the run has expired or was released |
| Leases.RefusedIffHeldByAnother | src/seharness/orchestrator/leases.py:185-194 | an acquire is refused if and only if some other token's latest lease on the run has neither lapsed nor been released |
| Leases.AnswersFollowFromAnswers | src/seharness/orchestrator/leases.py:169-280 | every answer, with all fields of a granted lease, is decided by the store's earlier answers and the clock |
| Leases.StoreHoldsWhatItAnswered | src/seharness/orchestrator/leases.py:169-280 | the store holds exactly the leases it granted and that were not released or recovered since |
| Leases.KeptIsNotRenewed | src/seharness/orchestrator/leases.py:187-189 | an owner that acquires again gets its stored lease back untouched, lapsed or not |
| Leases.KeptMayHaveLapsed | src/seharness/orchestrator/leases.py:187-189 | an acquire that succeeds with a lease that has lapsed exactly if its time is up |
| Leases.OneHolderAtATime | src/seharness/orchestrator/leases.py:214-280 | at any moment at most one token holds a live, unreleased lease on a run |
| Leases.LeaseStore.constructor | src/seharness/orchestrator/leases.py:128-132 | a store opened on a flushed file works with the same leases |
| Leases.LeaseStore.EnsureLoaded | src/seharness/orchestrator/leases.py:145-161 | loading reads the file once and does not change what the store works with |
| Leases.LeaseStore.Flush | src/seharness/orchestrator/leases.py:137-143 | rewriting the file in any order and loading it again gives back the same lease map |
| Leases.LeaseStore.AcquireLease | src/seharness/orchestrator/leases.py:169-212 | own lease returned untouched, live foreign lease refused, otherwise a new lease; the file follows |
| Leases.LeaseStore.RenewLease | src/seharness/orchestrator/leases.py:214-246 | only the owner extends a lease; missing and foreign leases are reported |
| Leases.LeaseStore.ReleaseLease | src/seharness/orchestrator/leases.py:248-262 | only the owner removes a lease; a missing one is no error |
| Leases.LeaseStore.RecoverExpired | src/seharness/orchestrator/leases.py:264-280 | exactly the lapsed leases are removed and reported |
| Leases.AcquireFromAnotherStore | src/seharness/orchestrator/leases.py:145-212 | with a live foreign lease in an up-to-date store, another store on the file grants the run if and only if it has read the file before and its copy holds no lease on the run or a lapsed foreign one; the grant replaces the file by that copy |
| Leases.FlushOverAnotherStore | src/seharness/orchestrator/leases.py:137-143 | a flush leaves the other store up to date if and only if both hold the same leases |
| Leases.TwoStoresOnOneFile | src/seharness/orchestrator/leases.py:159-161 | two stores on one file both grant a live lease on the same run if the second read the file early, and exclude each other if it reads it after the first acquired |
| PlanGraph.ReportsExactlyTheSimpleCycles | src/seharness/artifacts/traceability.py:288-301 | a path is reported if and only if it is a closed simple cycle of the dependency graph |
| PlanGraph.RotationsAreCycles | src/seharness/artifacts/traceability.py:278-301 | a cycle started one node later is a cycle, so every rotation is reported |
| PlanGraph.Dfs | src/seharness/artifacts/traceability.py:288-297 | the recursive search terminates and appends exactly its cycles to the shared list |
| PlanGraph.FindDependencyCycles | src/seharness/artifacts/traceability.py:278-301 | the returned list holds exactly the simple cycles of the graph |
| PlanGraph.Validate | src/seharness/artifacts/traceability.py:318-378 | a plan is accepted if and only if every task is well stated, all dependencies are known and the graph has no cycle; otherwise the verdict names the first rule that fails and exactly the tasks, dependencies or cycles that break it |
| PlanGraph.OneVerdict | src/seharness/artifacts/traceability.py:318-323 | the rules are ordered: no plan admits two verdicts |
| PlanGraph.SchedulableIff | src/seharness/artifacts/traceability.py:285 | with known dependencies, a schedule exists if and only if the graph with the dependencies of all tasks, repeated ids included, has no cycle |
| PlanGraph.AcceptedPlansAreSchedulable | src/seharness/artifacts/traceability.py:318-378 | an accepted plan with unique ids has an order of all tasks with every dependency before its dependent |
| PlanGraph.RepeatedIdsHideACycle | src/seharness/artifacts/traceability.py:285 | an accepted plan with a repeated id that has no schedule |
| Traceability.BuildReport | src/seharness/artifacts/traceability.py:201-226 | the pass over tasks, traces and scenarios yields exactly the two relations the traces spell out |
| Traceability.ValidateTraces | src/seharness/artifacts/traceability.py:229-269 | the report is complete if and only if every task has a trace and every requirement a scenario somewhere in the plan; no scenario is ever an orphan |
| Traceability.MapsAreInverse | src/seharness/artifacts/traceability.py:203-215 | a scenario is listed under a requirement if and only if the requirement is listed under the scenario |
| Traceability.SameTasksSameReport | src/seharness/artifacts/traceability.py:201-269 | the report depends on the set of tasks only, not on their order or repetition |
| Traceability.AcceptedPlansLackOnlyScenarios | src/seharness/artifacts/traceability.py:229-269 | for a plan the plan validator accepts, completeness is exactly that no requirement lacks a scenario |
| Router.ModelRouter.Invoke | src/seharness/models/router.py:163-212 | result, number of calls on both providers and sleeps of one routed request, exactly as the scripts of answers call for |
| Router.ModelRouter.InvokeWithRateLimitRetry | src/seharness/models/router.py:214-253 | the retry loop stops at the first answer that is not rate-limited or at the limit, with one backoff before each retry |
| Router.RoutingBounds | src/seharness/models/router.py:163-212 | the primary is called at most the attempt limit plus one times, and exactly when that happens; fallback at most once and only after a routable error |
| Router.RoutesAsCalledFor | src/seharness/models/router.py:163-212 | retries, calls, fallback and result exactly as the scripts call for, including the alternate's answer, a cured answer, a missing adapter and no alternate |
| Router.OneRoutingIsCalledFor | src/seharness/models/router.py:163-212 | the scripts call for one routing only |
| Router.MaybeRepair | src/seharness/models/output_repair.py:53-109 | one repair call exactly when an error asks for repair and there is a way to ask again; its answer is returned, and repaired exactly when clean |
| Router.BackoffDoubles | src/seharness/models/router.py:98-109 | each sleep is the previous one doubled up to the cap, so sleeps never shrink |
| Router.TotalSleepBounds | src/seharness/models/router.py:98-109 | the total sleep is bounded by the geometric sum and by the cap times the retries |
| Budgets.RecordsConserve | src/seharness/orchestrator/per_phase_budget.py:171-193 | after any sequence of records, refused ones included, the sum over phases equals the sum over tasks equals the tracker's growth, on every axis |
| Budgets.PerPhaseBudgetRecorder.Record | src/seharness/orchestrator/per_phase_budget.py:134-193 | one record books the same amount in tracker, phase and task, or changes nothing |
| Budgets.RecordGrows | src/seharness/orchestrator/per_phase_budget.py:186-193 | an accepted record raises its axis on the tracker, its phase and its task by its value, and nothing else |
| Budgets.InvocationGrows | src/seharness/orchestrator/per_phase_budget.py:195-239 | an accepted invocation raises tokens, cost and seconds by its tokens, cost and seconds on the tracker, its phase and its task, and nothing else |
| Budgets.PerPhaseBudgetRecorder.RecordInvocation | src/seharness/orchestrator/per_phase_budget.py:195-239 | three records in a row; an accepted one grows tracker, phase and task by tokens, cost and seconds on their own axes; what was booked before a refused one stays booked |
| Budgets.AllOrNothingIff | src/seharness/orchestrator/per_phase_budget.py:195-239 | an invocation is booked on all three axes or on none if and only if the filter lacks tokens or has all three model axes, as the default one has |
| Budgets.DecisionIsFirstBreach | src/seharness/orchestrator/budgets.py:148-167 | a check blocks if and only if some axis has reached its ceiling, and names the first such axis in declaration order |
| Budgets.BlockedStaysBlocked | src/seharness/orchestrator/budgets.py:135-167 | once blocked, always blocked under further records, and the reported axis only moves earlier |
| Budgets.SetUnblocksIff | src/seharness/orchestrator/budgets.py:140-143 | after setting an axis a check passes if and only if the axis is below its ceiling and no other is breached |
| Budgets.SetCanUnblock | src/seharness/orchestrator/budgets.py:140-143 | setting an axis, unlike recording, can unblock a run |
| Budgets.BudgetTracker.Check | src/seharness/orchestrator/budgets.py:148-167 | the loop over the axes computes that decision |
| ConfigMerge.DeepMerge | src/seharness/config_loader.py:109-122 | the key-by-key loop computes the recursive merge and terminates |
| ConfigMerge.MergeLookup | src/seharness/config_loader.py:109-122 | what a merge holds at any path, from what the two sides hold there: a leaf, a merged section, a path cut off or cleared by the override, or the base's value |
| ConfigMerge.EmptyIsIdentity | src/seharness/config_loader.py:109-122 | an empty section is a neutral element on both sides |
| ConfigMerge.Idempotent | src/seharness/config_loader.py:109-122 | merging a value with itself changes nothing |
| ConfigMerge.AssociativeIff | src/seharness/config_loader.py:109-122 | three layers merge associatively if and only if no leaf of the middle one separates two sections of which the last lacks part of the first |
| ConfigMerge.HighestLayerWins | src/seharness/config_loader.py:150-166 | a leaf of one layer, at a path no higher layer mentions or blocks, is the value of the four-layer configuration |
| ConfigMerge.LeafBetweenSectionsIsNotAssociative | src/seharness/config_loader.py:150-166 | a layering for which the order of merging matters |
| ConfigMerge.SetNestedSets | src/seharness/config_loader.py:82-89 | the path that was set reads back its value |
| ConfigMerge.SetNestedKeepsOthers | src/seharness/config_loader.py:82-89 | a path that branches off reads as before, unless a leaf made way above it |
| Patches.Parse | src/seharness/orchestrator/controlled_patches.py:133-181 | the index-driven pass returns the additions, modifications and deletions of the header pairs, or an error when there are none |
| Patches.RoundTripIff | src/seharness/orchestrator/controlled_patches.py:133-181 | parsing a rendered diff gives back exactly its changes, in order, for any paths and bodies, if and only if every path is free of tabs and trailing white space and no body contains adjacent lines that read as a header pair naming a file |
| Patches.PhantomFile | src/seharness/orchestrator/controlled_patches.py:153-171 | a deleted and an added line that read as a change to a file the diff does not touch |
| Patches.ChecksBoundEveryHeader | src/seharness/orchestrator/controlled_patches.py:183-236 | a patch that passes the purity and policy checks names, on every header pair, only declared files inside the policy |
| Patches.ChecksPassIff | src/seharness/orchestrator/controlled_patches.py:183-236 | purity and policy pass if and only if every file named on a header pair is declared, and lies in a policy that is not empty |
| Patches.PlainHeadersReadBack | src/seharness/orchestrator/controlled_patches.py:153-171 | header paths without a diff prefix are read as they stand |
| Delivery.AtMostOncePlusCrashes | src/seharness/orchestrator/delivery.py:225-258 | a file's pull requests grow by exactly the crashes between creating and recording, plus one when it becomes recorded |
| Delivery.RepliesNeverChange | src/seharness/orchestrator/delivery.py:225-233 | every call after a delivered one returns the same record and creates nothing |
| Delivery.FilesTellTheirCalls | src/seharness/orchestrator/delivery.py:225-258 | a file holds what the first call for it that got as far as its write made, or is broken by its crash |
| Delivery.RepliesTellTheirCalls | src/seharness/orchestrator/delivery.py:213-258 | the reply to any call and the pull requests it creates, told by the calls before it |
| Delivery.BrokenForever | src/seharness/delivery/idempotency.py:45-65 | after a crash inside the write, every later call for the file is unreadable and creates nothing |
| Delivery.SharesFileIff | src/seharness/delivery/idempotency.py:24-25 | a key has its file to itself if and only if its joined name can be split in one place only |
| Delivery.PlainRunIdsAreInjective | src/seharness/delivery/idempotency.py:24-25 | keys whose run ids contain no underscore never share a file |
| Delivery.DeliveryService.Deliver | src/seharness/orchestrator/delivery.py:213-258 | the stored answer, or a pull request first and its record second, with a crash at any point |
| Workspace.Repository.RevertUnauthorized | src/seharness/execution/workspace.py:236-280 | the walk gives every existing unauthorized snapshot path its bytes back, leaves authorized, deleted and unsnapshotted paths untouched, and lists exactly the changed ones, in order |
| Workspace.SecondRevertIsEmpty | src/seharness/execution/workspace.py:254-280 | a second revert lists nothing and changes nothing |
| Workspace.IsAuthorized | src/seharness/execution/paths.py:84-102 | authorized means no prohibited entry matches and some allowed entry does |
| Workspace.EntriesCover | src/seharness/execution/paths.py:93-102 | what an entry covers: a directory entry itself and what is under it, any other entry every path that begins with it |
| Workspace.ProhibitedDirectoryIsClosed | src/seharness/execution/paths.py:93-102 | what lies under a prohibited directory is refused, whatever is allowed |
| Workspace.AllowedDirectoryIsOpen | src/seharness/execution/paths.py:93-102 | what lies under an allowed directory is authorized if no prohibited entry begins it |
| Workflow.HistoriesAreChains | src/seharness/state_machine.py:135-160 | every history is a chain of allowed steps from intake to the current phase, with the matching run status |
| Workflow.TerminalIsFinal | src/seharness/state_machine.py:145-148 | a run in a terminal phase stays as it is under any further targets |
| Workflow.EnteredFrom | src/seharness/state_machine.py:42-91 | from which phases each phase can be entered |
| Workflow.CompletedHistories | src/seharness/state_machine.py:42-91 | a completed history passes discovery to validation in order after intake and ends review, delivery, ci monitoring, completed |

## Left out

- Timestamps of ledger records and lines: `started_at` and the line's timestamp come from different clock reads, so replay equality cannot include them; `runs` and `last_run_id`, which sort by them, are not modelled.
- The JSON text of log and lease lines: a line is a decoded value, a torn write is a separate kind of chunk, and it is part of the model that glued chunks never decode (keys are sorted and every line starts with a brace, so no proper concatenation is valid JSON).
- Writes that fail while the process lives on: a torn write ends the process.
- Handlers of discovery, specification, planning, implementation and review: any outcome, and any new artifacts. Their artifact fields are two maps, the ones a resume restores and the ones it does not.
- Starting an already known run id again, or resuming one run under another id: the chains begin with a start of an unknown id and continue with `resume_run`, which is the only resume the public interface offers by id.
- Lookup of a run by idempotency key in `start_run`: the durable ledger has no key index, so the lookup finds nothing there.
- Resolution of the repository path: the path is taken as already resolved.
- A cancellation concurrent with a running loop: chains are sequential.
- Traces, spans, events and artifact listings of the orchestrator.
- The default lease duration and the token generator: the duration and the fresh token are parameters; recovery returns a set, not a list.
- The routing table by role: the router starts from the chosen primary, whether the table names another provider, and the adapter registered for that one.
- Reading YAML files and environment variables, and validating the merged configuration.
- `_set_nested` is modelled on values; updating nested dictionaries in place through a cursor is not captured.
- Splitting a diff into lines, and applying it: the parser starts from the lines. The old path of a rename is not checked, as in the code.
- Construction checks of path rules (empty and overlapping entries) and `os.path.normpath`, which is a parameter.
- The git-backed delivery service and CI readiness evaluation.
