# TerAgent in Dafny

A model of the stateful core of TerAgent and proofs of what it guarantees: the long-horizon
scheduler with its tracker and checkpoint store, the two rate limiters, the cancellation token,
the retention tracker, the reference graph and the reports made from it, context compaction,
stagnation detection, the incremental code index and the agent's tool loop.

`dafny verify dfyconfig.toml` checks everything. Each file is one module and models one source
component. Objects whose methods update their fields are classes; each such method is proved
against a specification on values, and the properties of whole runs are lemmas about the
specification. The model, the clock, the file system, the parser, the hash and the network are
parameters that may answer anything. Where a proof needs a definition only by name, a `hide`
statement keeps its body out of the solver's sight.

| file | models |
|---|---|
| `DependencyGraph.dfy`, `TopologicalSort.dfy` | dependency edges, cycles, Kahn's algorithm with its fallback tail |
| `PhaseRuns.dfy`, `TaskManager.dfy`, `ProgressTracker.dfy` | the execution loop, goal statuses, the tracker, the report |
| `CheckpointStore.dfy` | saving, listing and pruning checkpoints |
| `TokenBucket.dfy`, `SlidingWindow.dfy` | the rate limiters |
| `Cancellation.dfy` | `cancel` and `wait` as interleaved critical sections |
| `RetentionTracker.dfy` | rounded averages and the downgrade latch |
| `ReferenceGraph.dfy`, `DependencyReporter.dfy` | callers, impact sets, serial form, the budgeted report |
| `AutoCompact.dfy`, `TimeDecay.dfy`, `Messages.dfy` | summarising and decaying a conversation |
| `StrategySwitch.dfy` | similarity and stagnation |
| `CodeIndexer.dfy` | the incremental index |
| `AgentLoop.dfy` | the tool loop |
| `Sequences.dfy`, `LongHorizonTypes.dfy`, `Options.dfy` | sequences without repetition, permutations; shared types |

## Main results

- The scheduler: `TaskManager.LongHorizonTaskManager.ExecuteLongTask`, with the order it follows (`TopologicalSort.TopologicalSort`, `PermutationIffSortableIdsUnique`) and the least fixpoint it reaches (`PhaseRuns.SettledRunIsLeastFixpoint`).
- Checkpoints on disk after any number of saves: `Checkpoints.SavesHold`, `NewestSurvives`.
- Rate limits over every interval of time: `TokenBucket.GrantsInInterval`, `SlidingWindow.LimitHoldsIffAppendsFindRoom`, `SerialCallsKeepLimit`.
- Cancellation in every interleaving: `Cancellation.CancelledForGood`, `NoLostWakeUp`, `QuietRunsHaveReturned`, `ResultTellsCause`.
- Rounded averages and the latch over every run: `RetentionTracker.AverageError`, `LatchTracksRecords`, `RatesStayInUnit`.
- Breadth-first search against shortest distance: `ReferenceGraph.ReferenceGraph.GetTransitiveCallers`, `SerialRoundTrip`; the all-or-nothing report: `DependencyReporter.GenerateReport`, `FullReportIsComplete`.
- Conversations: `AutoCompact.ListIsLogOrSummarised`, `TimeDecay.OlderIsNeverGentler`, `TreatedFollowsOrder`.
- Comparing neighbours only: `StrategySwitch.FiringBoundsEveryPair`.
- The incremental index: `CodeIndexer.SoundIffSafe`, `VisitsBringUpToDate`, `WorkspaceRepairsAnyRun`, `IncrementalAgreesWithFull`.
- The tool loop, specified up to uniqueness: `AgentLoop.AgentLoop.ToolLoop`, `RunIsUnique`, `RunIsBounded`, `AllRunsStayWithinLimits`; what it leaves in the conversation: `CallsAreAnsweredIff`.

## Where the code does less than its documentation

The model follows the code. Where a documented property fails, a lemma says exactly when it holds
and, where that helps, another gives an input on which it fails.

- `cleanup(keep_last=0)` deletes nothing (`Checkpoints.CleanupKeepsAtMost`, `KeepingNoneKeepsAll`).
- Of two sortable goals with one id only the later is executed (`TopologicalSort.PermutationIffSortableIdsUnique`, `DuplicateIdLosesGoal`).
- `TokenBucketRateLimiter.acquire` empties the bucket when it refuses, so the advised wait is too short unless the bucket was empty (`TokenBucket.RetryAfterAdvice`, `AdviceFallsShort`).
- A request for a negative number of tokens can overfill the bucket (`TokenBucket.RunHoldsIff`, `NegativeRequestOverfills`).
- Overlapping `wait_and_acquire` calls overrun the sliding window (`SlidingWindow.LimitHoldsIffAppendsFindRoom`, `OverlappingWaitersOverrun`).
- A limit that was lowered below what the window holds can stay exceeded for as long as waiters follow one another (`SlidingWindow.LoneWaitsAfterChange`, `LoweredLimitIsNotReached`).
- A 429 at fewer than four requests per minute leaves a limit of zero with the default safety factor: `acquire` never grants again, while `wait_and_acquire` goes on granting as long as a stamp still counts and raises once none does (`SlidingWindow.BackedOffLimiterWorksIff`, `DefaultBackOff`, `ZeroLimitServesWaitersOnly`).
- A second 429 in a row does not back off further (`SlidingWindow.BacksOffOnceIff`).
- The rounded running average ignores a late change of level that is smaller than about half the sample count, for ever (`RetentionTracker.LateLevelIsIgnoredIff`, `LevelAfterZerosIsIgnoredIff`).
- The impact set leaves out a modified symbol that only calls itself through a cycle (`ReferenceGraph.ImpactIsDocumentedIff`, `RecursiveFunctionIsMissed`).
- A light compression that cuts 20 characters keeps the length of the message, and one that cuts fewer makes it longer (`TimeDecay.CompressionShortensIff`, `SixtyCharactersGrow`).
- With `retain_count` of zero or less a compaction is used up without effect, unless the cache is cold: then two messages are retained (`AutoCompact.RetainingNothingWastesTheCall`).
- A stagnation threshold of one compares nothing (`StrategySwitch.ThresholdOneFiresOnAnyText`); with a stagnation or no-progress threshold of zero or less every input is stagnant (`ThresholdBelowOneAlwaysFires`, `SilenceIsPossibleIff`).
- A file changed between hashing and parsing and then restored stays wrongly indexed (`CodeIndexer.SoundIffSafe`, `RestoredFileStaysStale`).
- The tool calls of a reply cut off by the length limit are never answered, although a streaming call has executed them (`AgentLoop.CallsAreAnsweredIff`, `TruncatedCallIsNotAnswered`, `ToolsRunOnce`).

## Model

| member | source | states |
|---|---|---|
| `TopologicalSort.TopologicalSort` | teragent/long_horizon/task_manager.py:741-782 | The order is a sorted part, one goal for every id that leads into no dependency cycle and each after all its known dependencies, followed by exactly the goals from which a cycle can be reached, in their old order. Holds for any list of goals: cyclic, with unknown dependency ids, with repeated ids, empty. Among the sorted goals the order is that of the queue: one that is free earlier comes earlier, and of two freed by the same goal, or free from the start, the one listed first in the plan. |
| `TopologicalSort.BuildTables` | teragent/long_horizon/task_manager.py:755-762 | For every id, in_degree is the number of known dependency edges into it and dependents the list of edges out of it, counted with multiplicity. |
| `TopologicalSort.Drain` | teragent/long_horizon/task_manager.py:764-774 | Kahn's loop on any edge list ends with distinct ids (none is enqueued twice), each after all its dependencies, and every id left over waits for another id left over. The queue is first in, first out: nobody overtakes an id that was freed earlier, and ids freed together keep their order in the list that freed them. |
| `TopologicalSort.CountDownOne` | teragent/long_horizon/task_manager.py:771-774 | One decrement keeps the counters equal to the dependencies not yet taken, and enqueues an id at the very moment its last dependency has been counted, never again. |
| `TopologicalSort.AppendUnsorted` | teragent/long_horizon/task_manager.py:776-780 | The tail that is appended is the sub-list of goals whose id was not sorted. |
| `TopologicalSort.TakenIffAcyclic` | teragent/long_horizon/task_manager.py:764-780 | Whatever way the queue was worked off, an id is sorted if and only if no dependency cycle can be reached from it. |
| `DependencyGraph.OrderedIdsLeadIntoNoCycle` | teragent/long_horizon/task_manager.py:764-774 | Ids in a dependencies-first order cannot walk into a cycle along their dependencies. |
| `DependencyGraph.StuckIdsLeadIntoCycles` | teragent/long_horizon/task_manager.py:776-780 | A finite set of ids each of which waits for another of the set: from each of them a cycle can be reached. |
| `TopologicalSort.AcyclicGoalsAreFullySorted` | teragent/long_horizon/task_manager.py:741-782 | On an acyclic goal graph the tail is empty and the whole order has dependencies first. |
| `TopologicalSort.PermutationIffSortableIdsUnique` | teragent/long_horizon/task_manager.py:754-782 | The order is a permutation of the goals if and only if no sortable id is used twice. |
| `TopologicalSort.UniqueIdsGivePermutation` | teragent/long_horizon/task_manager.py:741-782 | With unique ids the order is always a permutation of the goals. |
| `TopologicalSort.FairKeepsPlanOrder` | teragent/long_horizon/task_manager.py:764-774 | What that queue order means for the plan: of two sorted goals the earlier one was free at an earlier turn, or stands first in the plan. |
| `TopologicalSort.IndependentGoalsKeepOrder` | teragent/long_horizon/task_manager.py:741-782 | Goals with unique ids and no known dependencies come out in the order of the plan. |
| `TopologicalSort.DuplicateIdLosesGoal` | teragent/long_horizon/task_manager.py:754-774 | Concrete failure: of two independent goals with one id only the later is returned. |
| `PhaseRuns.SettledRunIsLeastFixpoint` | teragent/long_horizon/task_manager.py:183-227 | After the loop has gone through the order, the set of ids that succeeded is the least set closed under "all dependencies completed and the phase succeeds". |
| `PhaseRuns.ExecutionOrderIsGated` | teragent/long_horizon/task_manager.py:184-208 | For goals with unique ids the computed order lets a goal wait for earlier goals only, except the goals from which a dependency cycle can be reached, each of which waits for another such goal; the set returned is exactly that of their ids. |
| `PhaseRuns.CyclicGoalsNeverRun` | teragent/long_horizon/task_manager.py:202-208 | With unique ids, no goal from which a dependency cycle can be reached is ever executed, in any run that respects the dependencies. |
| `PhaseRuns.ExecutingSettles` | teragent/long_horizon/task_manager.py:187-227 | Executing the next goal whose dependencies are met keeps the loop invariant: among the goals passed, exactly those with met dependencies have been executed. |
| `PhaseRuns.OrderedRunIsDependencyClosed` | teragent/long_horizon/task_manager.py:187-227 | However a run ends and whatever ids the goals have, every completed id belongs to a goal all of whose dependencies are completed. |
| `PhaseRuns.GatedRunIsSupported` | teragent/long_horizon/task_manager.py:187-227 | With unique ids, however a run ends, time-out and exception included, every completed goal succeeded with all its dependencies completed. |
| `PhaseRuns.GatedRunStaysIn` | teragent/long_horizon/task_manager.py:187-227 | At every moment the completed set lies inside every set closed under the scheduling rule. |
| `PhaseRuns.SuccessesAreDistinct` | teragent/long_horizon/task_manager.py:210-222 | No goal contributes two successful phase results. |
| `PhaseRuns.ResultsReadReplies` | teragent/long_horizon/task_manager.py:496-541 | In every run, repeated ids included: a phase succeeds if and only if the model returned a text that is neither empty nor reads as a failure; it reports the step markers of the text, at least one, and none if the call raised. The reply is the n-th for its id, n being the number of earlier results with that id. |
| `PhaseRuns.StatusReadsReply` | teragent/long_horizon/task_manager.py:210-222 | With unique ids a completed goal has such a reply, and a failed one has not. |
| `PhaseRuns.StepsAdd` | teragent/long_horizon/task_manager.py:890-914 | The reported total is the sum of the steps of the results, wherever they stand. |
| `TaskManager.LongHorizonTaskManager.ExecuteLongTask` | teragent/long_horizon/task_manager.py:145-358 | From a fresh manager, for any plan and on every way out: every phase was executed with its dependencies completed; reported steps are the sum over the phase results; success is reported exactly when nothing raised and all goals completed; unless an exception came before the first phase, the loop followed the sorted goals; it stopped at the first turn that found the time used up, after a turn that raised, or at the end; one save was tried before the loop, one after every phase and one more after an exception, and the counts of files written and of strategy switches are exactly what those and the evaluations yielded; without faults and with distinct checkpoint names the directory holds 5 + n mod 10 (or n < 10) files. With unique goal ids also: no goal runs twice; every status is what the phase results say and the tracker says the same; reported completions equal completed goals and successful results; up to the stop, whichever it was, exactly the ready goals were executed; goals that lead into a cycle stay pending; and if the loop ran to its end the completed set is the least fixpoint. A completed goal has a reply that is a text neither empty nor read as a failure, a failed one has not; each phase reports the markers of its reply, at least one, or none after an exception; and a goal the loop came past was executed if and only if all its dependencies are completed. |
| `TaskManager.LongHorizonTaskManager.TryTask` | teragent/long_horizon/task_manager.py:167-358 | The guarded body, whatever raises in saving or evaluating: goals, tracker, results, counts and files still fit together when it ends, and the loop, if it executed a phase, had followed the sorted goals and executed exactly the ready ones up to its stop. |
| `TaskManager.LongHorizonTaskManager.RunGoals` | teragent/long_horizon/task_manager.py:183-333 | Sorting and executing a registered list of goals, repeated ids included: the sorted order was followed up to the stop, also when a turn raised; with unique ids exactly the ready goals passed were executed, and a run that is not cut short completes the least fixpoint. |
| `TaskManager.LongHorizonTaskManager.ExecuteInOrder` | teragent/long_horizon/task_manager.py:187-333 | The loop over the order stops at the first turn that finds the time used up, after a turn that raised, or at the end; with unique ids exactly the goals passed whose dependencies are completed were executed. |
| `TaskManager.LongHorizonTaskManager.ExecuteReady` | teragent/long_horizon/task_manager.py:210-227 | One execution records one result, sets goal and tracker to the same status, and keeps everything in step. |
| `TaskManager.LongHorizonTaskManager.ExecuteTurn` | teragent/long_horizon/task_manager.py:210-333 | The same with the checkpoint and the evaluation that follow. |
| `TaskManager.LongHorizonTaskManager.ExecuteGoal` | teragent/long_horizon/task_manager.py:210-227 | Status, tracker table, step count and result list after one phase, in terms of the reply. |
| `TaskManager.LongHorizonTaskManager.ExecutePhase` | teragent/long_horizon/task_manager.py:451-541 | The result is the one specified, which PhaseRuns.ResultsReadReplies and the clauses of ExecuteLongTask state in terms of the reply; the steps it reports are the steps the tracker counted. |
| `TaskManager.LongHorizonTaskManager.SaveCheckpoint` | teragent/long_horizon/task_manager.py:655-663 | The directory of the task afterwards is the old one with the checkpoint added, pruned after every tenth file; unchanged if writing raises; unpruned if the cleanup raises. Other tasks keep their files, and the count grows as soon as the file is written. |
| `TaskManager.FaultlessSavesHold` | teragent/long_horizon/task_manager.py:655-661 | The directory of a task that started empty holds, after n saves of the manager without faults, as many files as the cadence of saving and pruning leaves. |
| `TaskManager.LongHorizonTaskManager.AfterPhase` | teragent/long_horizon/task_manager.py:229-333 | Exactly which faults end the task here; one more save tried, and a strategy switch counted if and only if the evaluation asked for it. |
| `TaskManager.LongHorizonTaskManager.DecomposeGoal` | teragent/long_horizon/task_manager.py:364-445 | Fresh pending goals with the planned ids and dependencies, and one default goal when nothing was planned. |
| `TaskManager.LongHorizonTaskManager.Prepare` | teragent/long_horizon/task_manager.py:167-181 | All goals are registered as pending before the first checkpoint, and stay so if that save raises. |
| `TaskManager.LongHorizonTaskManager.BuildResult` | teragent/long_horizon/task_manager.py:890-914 | The reported steps are those of the phase results; with unique ids the reported completions are those of the goals and of the results, not only those of the tracker. |
| `TaskManager.ReportAddsUp` | teragent/long_horizon/task_manager.py:890-914 | Completed entries of the tracker, successful phase results and completed goals are equally many, and the table has one entry for each goal. |
| `TaskManager.StatusesReadReplies` | teragent/long_horizon/task_manager.py:210-222 | At the end of a run with unique ids, statuses, successes and steps in terms of the replies. |
| `TaskManager.StatusesAreSettled` | teragent/long_horizon/task_manager.py:187-227 | At the end of such a run a goal the loop came past is pending if and only if some dependency of it is not completed; all later goals are pending. |
| `TaskManager.AttemptsAreCounted` | teragent/long_horizon/task_manager.py:655-658 | The reported saves are the attempts whose file was written. |
| `TaskManager.SwitchesAreCounted` | teragent/long_horizon/task_manager.py:241-333 | The reported switches are the evaluations that asked for one. |
| `ProgressTracking.ProgressTracker.CompleteSubGoal` | teragent/long_horizon/progress.py:120-141 | Only a known goal is marked; the phase becomes "completed" if and only if the table is non-empty and every goal in it is completed. |
| `ProgressTracking.ProgressTracker.FailSubGoal` | teragent/long_horizon/progress.py:143-152 | Only a known goal is marked as failed. |
| `ProgressTracking.ProgressTracker.StartSubGoal` | teragent/long_horizon/progress.py:102-118 | The goal is in progress, known or not. |
| `ProgressTracking.ProgressTracker.RegisterSubGoal` | teragent/long_horizon/progress.py:192-207 | A known goal keeps its status. |
| `ProgressTracking.ProgressTracker.RecordStrategySwitch` | teragent/long_horizon/progress.py:164-174 | One more switch, and the phase "stagnant". |
| `ProgressTracking.ProgressTracker.GetReport` | teragent/long_horizon/progress.py:209-246 | The completed count is the number of completed goals and never exceeds the total; the estimate extrapolates the time per completed goal to the rest and is zero before the first. |
| `Checkpoints.SavesHold` | teragent/long_horizon/task_manager.py:655-661 | After n saves with distinct ids the directory holds n files if n < 10 and 5 + n mod 10 otherwise, for every n. |
| `Checkpoints.NewestSurvives` | teragent/long_horizon/task_manager.py:655-661 | Under a clock that does not go back, after every save some file has the timestamp of that save and none is newer. |
| `Checkpoints.FilesComeFromSaves` | teragent/long_horizon/task_manager.py:655-661 | Every file held at any time is one of the checkpoints saved so far, unchanged. |
| `Checkpoints.CleanupKeepsNewest` | teragent/long_horizon/checkpoint.py:260-282 | A cleanup keeps the newest timestamp if and only if it does not take every file, which keep_last >= 1 always ensures. |
| `Checkpoints.LatestSurvivesIff` | teragent/long_horizon/checkpoint.py:181-282 | With any unreadable files and failing deletions: the latest checkpoint that can be loaded after a cleanup is as late as before if and only if keep_last >= 1, or the slice left some readable file, or one just as late could not be deleted. |
| `Checkpoints.CleanupKeepsAtMost` | teragent/long_horizon/checkpoint.py:248-265 | "Keeps the last N" holds of the directory a cleanup leaves if and only if keep_last >= 1, or keep_last is 0 and the directory was empty. |
| `Checkpoints.KeepingNoneKeepsAll` | teragent/long_horizon/checkpoint.py:261-265 | The failing case: with keep_last = 0 a non-empty directory is left exactly as it was. |
| `Checkpoints.CheckpointStore.Cleanup` | teragent/long_horizon/checkpoint.py:248-282 | For any mix of unreadable files and failing deletions: the files picked are readable ones, exactly as many as the slice says, and none of them newer than a readable file not picked; exactly those that can be unlinked go and are counted, and nothing else in the store changes. |
| `Checkpoints.CheckpointStore.ListCheckpoints` | teragent/long_horizon/checkpoint.py:225-246 | Every readable checkpoint of the task once, in ascending order of time, whatever order the directory is read in. |
| `Checkpoints.CheckpointStore.LoadLatest` | teragent/long_horizon/checkpoint.py:181-198 | A readable checkpoint with the greatest timestamp, and none if and only if no file is readable. |
| `Checkpoints.CheckpointStore.Save` | teragent/long_horizon/checkpoint.py:150-179 | One file written in the task's own directory, every other file of every task untouched. |
| `Checkpoints.CheckpointStore.Delete` | teragent/long_horizon/checkpoint.py:268-276 | Removes the given files one by one, except those whose deletion fails, and counts the removed ones. |
| `Checkpoints.SortByTimeSorts` | teragent/long_horizon/checkpoint.py:245-246 | The insertion-sort model of the stable sort is ascending and a permutation. |
| `TokenBucket.GrantsInInterval` | teragent/core/rate_limiter.py:92-130 | For any mixture of acquire calls and waiting attempts of any callers, negative requests included, under a clock that does not go back, the tokens granted in any closed interval [t1, t2], less those handed back, are at most max + rate * (t2 - t1). |
| `TokenBucket.IntervalBoundIsReached` | teragent/core/rate_limiter.py:92-130 | That bound is reached up to the fraction of a token, in every interval and by every bucket that can hold a token: some run grants the integer part of max + rate * (t2 - t1). |
| `TokenBucket.LevelStaysInBounds` | teragent/core/rate_limiter.py:92-130 | Over every run the level stays at 0 or above and, unless somebody asks for a negative number of tokens, at the maximum or below. |
| `TokenBucket.StepHoldsIff` | teragent/core/rate_limiter.py:92-130 | A single call keeps the level within its bounds if and only if it hands back no more than there is room for. |
| `TokenBucket.RunHoldsIff` | teragent/core/rate_limiter.py:92-130 | Over a whole run every level is within its bounds if and only if every event either asks for a number of tokens that is not negative or hands back no more than there is room for at its moment. |
| `TokenBucket.NegativeRequestOverfills` | teragent/core/rate_limiter.py:92-98 | The failing case: asking a full bucket for minus one token leaves it with one more than its maximum. |
| `TokenBucket.GrantsFromHere` | teragent/core/rate_limiter.py:92-130 | From any moment on, no more is granted than is there and flows in. |
| `TokenBucket.OneSleepIsEnough` | teragent/core/rate_limiter.py:113-123 | A lone wait_and_acquire(n) with n <= max is served at its second attempt, if the sleep lasts at least as long as asked for. |
| `TokenBucket.OversizedIsNeverServed` | teragent/core/rate_limiter.py:113-123 | Asking for more than the maximum waits for ever. |
| `TokenBucket.RetryAfterAdvice` | teragent/core/rate_limiter.py:99-103 | Calling acquire again after exactly the returned wait succeeds if and only if the bucket had been empty at the refusal and n <= max: the refusal throws away what was there. |
| `TokenBucket.AdviceFallsShort` | teragent/core/rate_limiter.py:99-103 | The failing case: three tokens, five asked for, a wait of two seconds advised, and two tokens there after it. |
| `TokenBucket.TokenBucketRateLimiter.Acquire` | teragent/core/rate_limiter.py:92-103 | The bucket is filled up by rate times the time passed, at most to its maximum. A request it then covers is taken out and waits for nothing; any other empties it and is told the time in which the missing tokens flow in; under a zero rate that raises. This is one event of the abstract bucket. |
| `TokenBucket.TokenBucketRateLimiter.WaitAndAcquire` | teragent/core/rate_limiter.py:105-123 | The loop refines the attempts of one waiter: level, service and number of sleeps for any sequence of clock readings. At each reading the level is what was left plus what flowed in, capped; every sleep is as long as the missing tokens take to flow in; the waiter is served at the first reading that finds enough, and takes them. |
| `TokenBucket.TokenBucketRateLimiter.Refill` | teragent/core/rate_limiter.py:125-130 | The level after a refill. |
| `SlidingWindow.LimitHoldsIffAppendsFindRoom` | teragent/core/rate_limiter.py:146-176 | For any history of the critical sections, in any interleaving, under a clock that does not go back: every window of the configured length, half-open at either end and wherever it lies, holds at most max_requests grants if and only if each append after a sleep still found room. |
| `SlidingWindow.EventsMakeHistory` | teragent/core/rate_limiter.py:146-176 | Every sequence of critical sections has such a history, whatever list it starts from. |
| `SlidingWindow.AcquireKeepsLimit` | teragent/core/rate_limiter.py:146-160 | acquire alone always keeps the limit. |
| `SlidingWindow.LoneWaitsKeepLimit` | teragent/core/rate_limiter.py:162-176 | wait_and_acquire keeps it as long as no two of its calls overlap. |
| `SlidingWindow.SerialCallsMakeHistory` | teragent/core/rate_limiter.py:162-176 | Any sequence of wait_and_acquire calls, one after the other and each sleeping at least as long as it was told, is a history of the critical sections whose waits do not overlap; its last list is the list the object is left with, and its grants are the moments the calls were served. |
| `SlidingWindow.SerialCallsKeepLimit` | teragent/core/rate_limiter.py:162-176 | So for any such sequence of calls on the object: no window holds more than max_requests of the moments they were served at, and the stamps the object keeps of the last window are exactly those moments. |
| `SlidingWindow.LoneWaitsAfterChange` | teragent/core/rate_limiter.py:162-176 | After the limit was changed, from whatever list the limiter held then: calls that do not overlap keep every window and the list within the new limit or the number of stamps held, whichever is more. |
| `SlidingWindow.LoweredLimitIsNotReached` | teragent/core/rate_limiter.py:162-176 | That bound is reached for good: from any list crowded into one window, with more stamps than the new limit, any number of calls one after the other can all be served with the last window as full as the list was. |
| `SlidingWindow.OverlappingWaitersOverrun` | teragent/core/rate_limiter.py:168-176 | Two overlapping waiters overrun a limit of one, for every window length and every timing of the refused calls inside it: both append when the place falls free. |
| `SlidingWindow.StampsAreRecentGrants` | teragent/core/rate_limiter.py:150-154 | Trimming never drops a stamp that still counts: at any later moment the list restricted to the window equals all grants ever made restricted to it. |
| `SlidingWindow.RefusedMustWait` | teragent/core/rate_limiter.py:157-160 | A refused caller is told a positive wait, so zero means granted. |
| `SlidingWindow.SlidingWindowRateLimiter.Acquire` | teragent/core/rate_limiter.py:146-160 | Refines one event; returns zero if and only if a grant was made; raises if and only if the limit is not positive and the list is empty. A refused caller is told the time until the oldest stamp that counts leaves the window. |
| `SlidingWindow.SlidingWindowRateLimiter.WaitAndAcquire` | teragent/core/rate_limiter.py:162-176 | A call nobody interrupts is one acquire and, if refused, one append at the time it wakes: the call of the two rows on serial calls. A call that is served leaves a list that ends in the moment it was served, now if there was room and the time of waking otherwise; it raises if and only if the limit is not positive and no stamp counts, and then the list is empty. |
| `SlidingWindow.MayGrantIff` | teragent/core/rate_limiter.py:146-176 | From a given moment on, for any limit and any stamps: acquire can grant again if and only if the limit is positive; wait_and_acquire can if and only if the limit is positive or some stamp still counts. |
| `SlidingWindow.BackedOffLimiterWorksIff` | teragent/core/rate_limiter.py:256-258 | After a 429, whatever stamps the window holds, acquire will grant something again if and only if the halved rate, at least one, times the safety factor is at least one; wait_and_acquire will if and only if that holds or some stamp still counts. |
| `SlidingWindow.DefaultBackOff` | teragent/core/rate_limiter.py:256-258 | With the default safety factor of 0.8 the new limit is never negative, and positive from a rate of four requests per minute on. |
| `SlidingWindow.ZeroLimitServesWaitersOnly` | teragent/core/rate_limiter.py:162-176 | Below four requests per minute the default back-off leaves a limit of zero: with an empty list every call raises from then on, while from one stamp that counts any number of wait_and_acquire calls, one after the other, are all served. |
| `SlidingWindow.LimitIsFullOrHalved` | teragent/core/rate_limiter.py:225-258 | Over any run of limit headers and 429s the limit is that of the learned rate or that of half of it. |
| `SlidingWindow.BacksOffOnceIff` | teragent/core/rate_limiter.py:246-258 | At any point of such a run a further 429 lowers the limit if and only if the limit is still that of the full learned rate and that of half the rate is less; a second 429 in a row changes nothing. |
| `SlidingWindow.AdaptiveRateLimiter.UpdateFrom429` | teragent/core/rate_limiter.py:256-258 | The limit becomes that of half the learned rate, rounded down and at least one; window, stamps and learned rate stay. |
| `SlidingWindow.AdaptiveRateLimiter.UpdateLimit` | teragent/core/rate_limiter.py:225-234 | A header sets the limit to that of its rate, and the learned rate too, unless the limit is the one in force already. |
| `SlidingWindow.FullLimitIs` | teragent/core/rate_limiter.py:225-234 | The limit of a rate is the product with the safety factor, truncated towards zero. |
| `Cancellation.EveryMoveKeepsSound` | teragent/orchestration/cancellation.py:48-131 | Every critical section and every wake-up, time-out and interruption keeps the protocol invariant, for any number of callers. |
| `Cancellation.CancelledForGood` | teragent/orchestration/cancellation.py:48-65 | In every interleaving, once cancelled: the token stays cancelled, the waiter list stays empty, and exactly one cancel() holds the snapshot. |
| `Cancellation.NoLostWakeUp` | teragent/orchestration/cancellation.py:55-65 | Every pending future is on the list before the cancellation and in the winner's remaining snapshot after it. |
| `Cancellation.WinnerLeavesNonePending` | teragent/orchestration/cancellation.py:63-65 | When the cancel() that won has returned, no future is pending. |
| `Cancellation.WaitTellsTheTruth` | teragent/orchestration/cancellation.py:93-131 | wait returns True only on a cancelled token, False only after a time-out it was given, and raises only if its own task was cancelled. The next rows give the converse. |
| `Cancellation.OutcomeHasCause` | teragent/orchestration/cancellation.py:106-131 | In every interleaving a wait comes to a time-out or an exception by that very event and by nothing else. |
| `Cancellation.ResultTellsCause` | teragent/orchestration/cancellation.py:93-131 | So a wait that has returned answered False if and only if its own time-out ended it, raised if and only if it was interrupted while waiting, and answered True in all other cases. |
| `Cancellation.LateWaitIsSignalled` | teragent/orchestration/cancellation.py:106-117 | A wait that is not yet registered when the token is cancelled answers True at its next step, whatever time-out it was given. |
| `Cancellation.RunsAreBounded` | teragent/orchestration/cancellation.py:48-131 | No interleaving of finitely many calls goes on for ever. |
| `Cancellation.QuietRunsHaveReturned` | teragent/orchestration/cancellation.py:93-131 | When nothing can move any more and cancel() was called, every call has returned, and a wait that could neither time out nor be interrupted returned True. |
| `Cancellation.CancellationToken.Cancel` | teragent/orchestration/cancellation.py:48-65 | Run without interruption, cancel resolves exactly the registered pending futures the first time and changes nothing afterwards. |
| `Cancellation.CancellationToken.CancelLocked` | teragent/orchestration/cancellation.py:55-61 | The section under the lock refines the protocol move: one winner takes the list and empties it. |
| `Cancellation.CancellationToken.RegisterLocked` | teragent/orchestration/cancellation.py:112-117 | The second check and the registration are one move. |
| `Cancellation.CancellationToken.LeaveLocked` | teragent/orchestration/cancellation.py:126-129 | Removes the first occurrence of the waiter, if it is there. |
| `RetentionTracker.AverageError` | teragent/context/retention_tracker.py:54-73 | After n >= 1 samples n times the stored value misses their sum by at most (n-1)(n+2)/4, so the stored mean is off by at most (n-1)(n+2)/(4n). |
| `RetentionTracker.AverageStaysBetween` | teragent/context/retention_tracker.py:54-73 | The stored value stays between the smallest and the largest sample. |
| `RetentionTracker.AverageKeepsOrder` | teragent/context/retention_tracker.py:54-73 | Pointwise ordered samples give ordered stored values, despite the rounding. |
| `RetentionTracker.UnmovedIff` | teragent/context/retention_tracker.py:63-72 | A sample leaves the stored value unchanged if and only if it is closer to it than half the sample count, ties to even. |
| `RetentionTracker.LateLevelIsIgnoredIff` | teragent/context/retention_tracker.py:63-72 | A new level is never taken over, however often it is sampled, if and only if it is closer to the stored value than half the next sample count, or exactly half with an even stored value: if the first sample does not move it, none will. |
| `RetentionTracker.LevelAfterZerosIsIgnoredIff` | teragent/context/retention_tracker.py:63-72 | The failing inputs: after n samples of zero, a level x sampled for ever leaves the average at zero if and only if 2x <= n + 1. |
| `RetentionTracker.RatesStayInUnit` | teragent/context/retention_tracker.py:47-52 | If no sample refers to more tokens than it provides, every zone rate and the overall rate stay in [0, 1] over any run of records and resets. |
| `RetentionTracker.ZoneRatesAre` | teragent/context/retention_tracker.py:47-52 | Exactly the zones with a sample have a rate: tokens referenced over tokens provided, and 1 if nothing was provided. |
| `RetentionTracker.OverallRateTimes` | teragent/context/retention_tracker.py:209-228 | The overall rate times the tokens provided is the tokens referenced; it is 1 if nothing was provided. |
| `RetentionTracker.TotalsOfSix` | teragent/context/retention_tracker.py:209-228 | Those totals are the sums over the six zones, of which those without a sample count for nothing. |
| `RetentionTracker.SensibleSamplesStaySensible` | teragent/context/retention_tracker.py:54-73 | The same hypothesis keeps referenced between zero and provided in every zone. |
| `RetentionTracker.UsageIsAverageOfSamples` | teragent/context/retention_tracker.py:153-172 | Over any run each zone holds the rounded averages of its own samples since the last full reset. |
| `RetentionTracker.LatchTracksRecords` | teragent/context/retention_tracker.py:357-418 | Over any run of records and resets: the counter is the length of the trailing run of records below 0.70 since the last reset; a record is flagged if and only if that run has reached three or its tail or recent zone is below 0.50; the latch is set if and only if some record since the last reset was flagged. |
| `RetentionTracker.CheckDowngradeIs` | teragent/context/retention_tracker.py:357-418 | The check in numbers: flagged if and only if three records in a row were below 0.70, or the tail or the recent zone is below 0.50; which of these becomes the reason, and that the first reason is kept. |
| `RetentionTracker.TrailingLowIs` | teragent/context/retention_tracker.py:371-388 | What the trailing run is, stated by positions. |
| `RetentionTracker.HistoryIsRecentLog` | teragent/context/retention_tracker.py:184-194 | The history is the last min(100, n) records since the last full reset. |
| `RetentionTracker.HistoryEndsLog` | teragent/context/retention_tracker.py:184-194 | The history is the end of the log, a hundred records or all of them. |
| `RetentionTracker.PartitionUsage.Record` | teragent/context/retention_tracker.py:54-73 | The object takes one averaging step in both columns. |
| `RetentionTracker.LongContextRetentionTracker.RecordPartition` | teragent/context/retention_tracker.py:153-194 | The tracker object takes one step of the abstract tracker; an unknown zone changes nothing. |
| `RetentionTracker.LongContextRetentionTracker.GetOverallRetentionRate` | teragent/context/retention_tracker.py:209-228 | The loop computes the ratio of the totals over the sampled zones, 1 if nothing was provided. |
| `RetentionTracker.LongContextRetentionTracker.CheckAndLatch` | teragent/context/retention_tracker.py:357-418 | Counter, latch and reason after a check, for any rates: the counter grows below 0.70 and is cleared otherwise; three in a row, or a tail or recent zone below 0.50, set the latch; the first reason is kept. |
| `RetentionTracker.LongContextRetentionTracker.ResetDowngrade` | teragent/context/retention_tracker.py:250-257 | Releases the latch and nothing else. |
| `RetentionTracker.LongContextRetentionTracker.Reset` | teragent/context/retention_tracker.py:345-353 | Back to the initial state. |
| `ReferenceGraph.ReferenceGraph.GetTransitiveCallers` | teragent/context/reference_graph.py:103-132 | On any graph, cyclic or not: without a limit exactly the symbols other than the target that reach it through calls; with limit d exactly those at distance at most d, so a limit of 1 gives the direct callers and a negative one nothing. No duplicates, each at its shortest distance, in non-decreasing distance; nothing for an unknown symbol. |
| `ReferenceGraph.TurnKeepsSearching` | teragent/context/reference_graph.py:122-131 | One turn of the search keeps its invariant: everything met is at its true distance, in order, and everything nearer than the queue has been met. |
| `ReferenceGraph.NearerIsMet` | teragent/context/reference_graph.py:122-131 | Everything nearer than the head of the queue, within the limit, has been met. |
| `ReferenceGraph.SearchIsComplete` | teragent/context/reference_graph.py:122-132 | An exhausted queue means that exactly the callers within the limit have been met. |
| `ReferenceGraph.WithinIffPath` | teragent/context/reference_graph.py:106-113 | The distance used is path length: within k if and only if there is a call path of at most k calls. |
| `ReferenceGraph.ReferenceGraph.GetImpactSet` | teragent/context/reference_graph.py:134-150 | Exactly the symbols that reach some other known modified symbol through calls. |
| `ReferenceGraph.ImpactIsMonotone` | teragent/context/reference_graph.py:134-150 | More modified symbols affect at least as much. |
| `ReferenceGraph.ImpactIsClosed` | teragent/context/reference_graph.py:134-150 | A caller of an affected symbol is affected, or is itself one of the modified symbols. |
| `ReferenceGraph.AffectedIffCallsAnother` | teragent/context/reference_graph.py:134-150 | A symbol is in the impact set if and only if it transitively calls a known modified symbol other than itself. |
| `ReferenceGraph.ImpactIsDocumentedIff` | teragent/context/reference_graph.py:137-150 | The impact set of a call is the documented one (all symbols that transitively call any modified symbol) if and only if no known modified symbol calls itself through a cycle while calling no other known modified symbol. |
| `ReferenceGraph.RecursiveFunctionIsMissed` | teragent/context/reference_graph.py:137-150 | The failing case: one modified function that calls itself, and an empty impact set. |
| `ReferenceGraph.OtherCallersStepFirst` | teragent/context/reference_graph.py:103-150 | For two different symbols, reaching one from the other is calling it through at least one call. |
| `ReferenceGraph.SerialRoundTrip` | teragent/context/reference_graph.py:156-187 | from_dict(to_dict(g)) has exactly the symbols, files and calls of g, in whatever order they were written. |
| `ReferenceGraph.ReferenceGraph.ToDict` | teragent/context/reference_graph.py:156-170 | Every node with its file and every call is written, and nothing else. |
| `ReferenceGraph.FromDict` | teragent/context/reference_graph.py:172-187 | A new well-formed graph, the result of adding the nodes and then the calls. |
| `ReferenceGraph.ReferenceGraph.AddCall` | teragent/context/reference_graph.py:36-41 | A call between known symbols is added once; one with an unknown end is dropped. |
| `ReferenceGraph.ReferenceGraph.RemoveCall` | teragent/context/reference_graph.py:55-66 | Exactly that call goes. |
| `ReferenceGraph.ReferenceGraph.RemoveSymbol` | teragent/context/reference_graph.py:43-53 | The symbol goes with exactly the calls that touch it. |
| `DependencyReporter.GenerateReport` | teragent/context/dependency_reporter.py:39-122 | All or nothing: the explosion error if and only if the snippets of all outside callers together cost more than 15000 tokens, otherwise the complete report, or the all-clear if it is empty. |
| `DependencyReporter.FullReportIsComplete` | teragent/context/dependency_reporter.py:85-103 | The complete report holds the snippet of every outside caller with a context, once for each call into the files, and no other snippet. |
| `DependencyReporter.SnippetIsReportedIff` | teragent/context/dependency_reporter.py:49-103 | The complete report shows a caller, under its own file and with its code, if and only if the graph knows its file, that file is not the reported one, the caller calls a symbol of an existing output file, and there is code to show. |
| `DependencyReporter.SectionIs` | teragent/context/dependency_reporter.py:56-103 | The section of a symbol: its name and file, the number of its callers in other files, and then snippets only, the most called caller first; no section if there are no such callers. |
| `DependencyReporter.EmptyReportIff` | teragent/context/dependency_reporter.py:118-122 | "You are safe to modify" is said if and only if no symbol of an existing output file has a caller that the graph knows in another file. |
| `DependencyReporter.CostPermutes` | teragent/context/dependency_reporter.py:95-103 | The sum charged does not depend on the order of the snippets. |
| `DependencyReporter.SnippetsPermute` | teragent/context/dependency_reporter.py:85-103 | Reordering callers reorders their snippets and nothing more. |
| `DependencyReporter.SortPermutes` | teragent/context/dependency_reporter.py:72-76 | The sort loses and doubles no caller. |
| `DependencyReporter.SortIsDescending` | teragent/context/dependency_reporter.py:72-76 | The most called callers come first. |
| `DependencyReporter.ExternalCallersAre` | teragent/context/dependency_reporter.py:61-67 | Exactly the callers the graph knows in another file, each as often as it is listed. |
| `DependencyReporter.CollectExternalCallers` | teragent/context/dependency_reporter.py:61-67 | The filtering loop yields them in order. |
| `DependencyReporter.ReportCallers` | teragent/context/dependency_reporter.py:85-103 | The innermost loop breaks if and only if the snippets it is given do not fit what is left of the budget, even when only a later one is too long. |
| `DependencyReporter.ReportSymbol` | teragent/context/dependency_reporter.py:56-106 | One symbol adds exactly its section or breaks the budget. |
| `DependencyReporter.ReportFile` | teragent/context/dependency_reporter.py:54-106 | One file adds exactly its sections or breaks the budget. |
| `AutoCompact.ListIsLogOrSummarised` | teragent/context/auto_compact.py:101-225 | Over any run of appending, compacting and resetting, for any settings, with a compaction predicate and a summariser that may do anything: the list is the full log, or one summary standing for a non-empty beginning of it followed by the non-empty rest unchanged; so never two summaries of its own making. |
| `AutoCompact.CountersStayInBounds` | teragent/context/auto_compact.py:120-168 | Between resets there are at most max_compacts compactions, and at most two consecutive failures. |
| `AutoCompact.BreakerHoldsUntilReset` | teragent/context/auto_compact.py:131-136 | After two failures in a row the counters stand still and the list only grows by what is appended, until the next reset. |
| `AutoCompact.TwoFailuresOpenBreaker` | teragent/context/auto_compact.py:142-168 | Two triggered calls whose summary raises leave the list alone and open the breaker. |
| `AutoCompact.RetainingNothingWastesTheCall` | teragent/context/auto_compact.py:190-207 | A triggered call with a working summariser replaces the list if and only if it is set to retain something (retain_count >= 1, or a cold cache); otherwise it changes nothing and still uses up one compaction. |
| `AutoCompact.CompactionShortensIff` | teragent/context/auto_compact.py:190-225 | A compaction shortens the list if and only if fewer than all but one message were to be retained; without a cache hit rate it always does. |
| `AutoCompact.AutoCompactor.MaybeCompact` | teragent/context/auto_compact.py:101-168 | Nothing changes unless compaction is asked for, fewer than max_compacts were made, fewer than two calls in a row failed, and the list is longer than retain_count + 2. Otherwise: with nothing to retain, one compaction is used up and one failure counted; if the summary raises, one more failure is counted; and else the list becomes one numbered summary followed by its last messages, and the failures are cleared. The history gains the lengths before and after exactly in that last case. |
| `AutoCompact.AutoCompactor.DoCompact` | teragent/context/auto_compact.py:170-225 | The summary followed by exactly the retained suffix, or nothing when nothing is to be retained. |
| `AutoCompact.EffectiveRetainIs` | teragent/context/auto_compact.py:190-205 | How many messages stay: retain_count, half as many again above a cache hit rate of 0.7, three quarters but at least two below 0.3, and at most all but one. |
| `AutoCompact.SummaryIsReadable` | teragent/context/auto_compact.py:217-225 | The summary message contains the summary and can be read in one way only: it tells which compaction wrote it and what the summary was. |
| `AutoCompact.AutoCompactor.ApplyTimeDecay` | teragent/context/auto_compact.py:604-750 | The time-decay pass returns the specified conversation; it counts as a compaction and enters the history if and only if the messages other than system messages exceed the recent budget. |
| `AutoCompact.AutoCompactor.Reset` | teragent/context/auto_compact.py:370-374 | All counters back to zero, and an empty history. |
| `TimeDecay.SuffixSums` | teragent/context/auto_compact.py:660-665 | The backward accumulation leaves at each position the tokens from that message to the end. |
| `TimeDecay.OlderIsFurther` | teragent/context/auto_compact.py:675-677 | Those distances order the messages: an older one starts at least the newer one's own tokens further back. |
| `TimeDecay.OlderIsNeverGentler` | teragent/context/auto_compact.py:675-722 | Among key messages, and among the others, an older message is never given a gentler retention than a newer one. |
| `TimeDecay.KeyAndRecentSurvive` | teragent/context/auto_compact.py:679-722 | Messages starting within 200,000 tokens of the end are verbatim; a message is dropped if and only if it is not key and lies past both outer limits. |
| `TimeDecay.TreatedFollowsOrder` | teragent/context/auto_compact.py:673-725 | The output lists the kept messages in their old order, each treated as its own position demands. |
| `TimeDecay.KeptPositionsAre` | teragent/context/auto_compact.py:673-725 | The kept positions are exactly those of the messages not dropped. |
| `TimeDecay.KeptPositionsIncrease` | teragent/context/auto_compact.py:673-725 | The kept positions increase strictly. |
| `TimeDecay.SystemMessagesSurvive` | teragent/context/auto_compact.py:631-638 | All system messages are kept, in order; a conversation within the recent budget is returned as it was. |
| `TimeDecay.RolesPartition` | teragent/context/auto_compact.py:631-638 | Splitting by role loses and doubles no message. |
| `TimeDecay.OfRoleIs` | teragent/context/auto_compact.py:631-638 | Each half holds exactly the messages of its role. |
| `TimeDecay.DecayPass` | teragent/context/auto_compact.py:604-728 | The pass over tokens and zones computes the specified result for any conversation, and says whether anything was to be decayed. |
| `TimeDecay.DecayedIs` | teragent/context/auto_compact.py:631-728 | The pass as a whole: up to 200,000 tokens of other messages it changes nothing; beyond, it returns the system messages followed by the kept others. |
| `TimeDecay.TreatmentsAre` | teragent/context/auto_compact.py:678-722 | Which treatment a message gets, by the tokens behind it, where its own tokens end and whether it is key: both directions for each of the seven treatments, with all limits and ratios. |
| `TimeDecay.DistanceSteps` | teragent/context/auto_compact.py:660-680 | The tokens behind a message: none for the last, and for each earlier one the tokens of the message passed over more. |
| `TimeDecay.IsKeyIff` | teragent/context/auto_compact.py:752-795 | A message is key if and only if it is the user's, a summary or a tool call, or its text has one of the words somewhere in it. |
| `TimeDecay.CutIs` | teragent/context/auto_compact.py:816-823 | What a compressed message aims at: the given share of its length, rounded down, at least 50 characters; seven tenths of that, rounded down, are the head. |
| `TimeDecay.LightCompressKeepsEnds` | teragent/context/auto_compact.py:797-841 | A message longer than the aim keeps its head and tail of the computed lengths around a marker that tells how many characters are missing, and all the modelled metadata; any other is not touched. |
| `TimeDecay.DecimalReads` | teragent/context/auto_compact.py:825-829 | The digits in a marker read as the number of characters that are missing. |
| `TimeDecay.CompressionShortensIff` | teragent/context/auto_compact.py:816-829 | Compression makes a message shorter if and only if it cuts at least 21 characters, keeps its length if and only if it cuts 20, and makes it longer if and only if it cuts 19 or fewer. |
| `TimeDecay.SixtyCharactersGrow` | teragent/context/auto_compact.py:816-829 | The failing case: sixty characters at ratio 0.8 become seventy. |
| `StrategySwitch.JaccardTriangle` | teragent/long_horizon/strategy_switch.py:411-420 | The Jaccard distance satisfies the triangle inequality on all token sets, empty ones included. |
| `StrategySwitch.JaccardInUnit` | teragent/long_horizon/strategy_switch.py:411-420 | Similarity lies in [0, 1] and is 1 if and only if the token sets are equal. |
| `StrategySwitch.SimilarityIsSymmetric` | teragent/long_horizon/strategy_switch.py:387-420 | The order of the two texts does not matter. |
| `StrategySwitch.SimilarityIs` | teragent/long_horizon/strategy_switch.py:387-420 | Similarity is shared tokens over all tokens; two empty texts are alike, an empty and another text are not, and texts without tokens are. |
| `StrategySwitch.DistanceTriangle` | teragent/long_horizon/strategy_switch.py:387-420 | The triangle inequality for texts under any tokenizer, empty texts included. |
| `StrategySwitch.NeighboursBoundAll` | teragent/long_horizon/strategy_switch.py:167-173 | Similar neighbours keep any two texts of the row within the sum of the steps between them. |
| `StrategySwitch.FiringBoundsEveryPair` | teragent/long_horizon/strategy_switch.py:160-181 | When the similarity check fires on the last N >= 2 results, all N have a text and any two of them are within (N-1)(1 - threshold), although only neighbours were compared. |
| `StrategySwitch.SimilarResultsIff` | teragent/long_horizon/strategy_switch.py:160-181 | For a threshold of at least one the first check fires if and only if all of the last N results have a text and each is at least as similar to the next as required. |
| `StrategySwitch.SimilarStepsIff` | teragent/long_horizon/strategy_switch.py:209-223 | The last check, if it is reached, fires if and only if the same holds of the last N step descriptions. |
| `StrategySwitch.NoFilesMeans` | teragent/long_horizon/strategy_switch.py:183-194 | The verdict names the length of the longest row of results at the end that touched no file; unless results are too similar it is given if and only if that row has the required length. |
| `StrategySwitch.FailuresMean` | teragent/long_horizon/strategy_switch.py:196-207 | The same for failed results, when neither of the two checks before fires. |
| `StrategySwitch.SimilarStepsBoundEveryPair` | teragent/long_horizon/strategy_switch.py:210-223 | The same bound for any two of the last N step descriptions when the fourth check fires. |
| `StrategySwitch.NeighboursDoNotMakeAllAlike` | teragent/long_horizon/strategy_switch.py:160-181 | That bound is reached: three results can fire at threshold 0.5 while the first and the last share no token. |
| `StrategySwitch.TrailingIsLongestSuffix` | teragent/long_horizon/strategy_switch.py:183-202 | The counters are the length of the longest suffix without files, or of failures. |
| `StrategySwitch.CountTrailing` | teragent/long_horizon/strategy_switch.py:183-202 | The backward loop counts that suffix. |
| `StrategySwitch.AllSimilar` | teragent/long_horizon/strategy_switch.py:168-173 | The loop with its flag decides whether all neighbours are similar. |
| `StrategySwitch.DetectStagnation` | teragent/long_horizon/strategy_switch.py:141-225 | The four checks in their order, for any settings, results and steps. |
| `StrategySwitch.ThresholdOneFiresOnAnyText` | teragent/long_horizon/strategy_switch.py:160-181 | With a threshold of one the check fires if and only if the last result has a text: nothing is compared. |
| `StrategySwitch.ThresholdBelowOneAlwaysFires` | teragent/long_horizon/strategy_switch.py:160-225 | With a stagnation or no-progress threshold of zero or less, every input is reported as stagnant. |
| `StrategySwitch.SilenceIsPossibleIff` | teragent/long_horizon/strategy_switch.py:160-225 | Some input is reported as not stagnant if and only if both thresholds are at least one. |
| `CodeIndexer.SoundIffSafe` | teragent/context/code_indexer.py:168-274 | Through any run of file edits, index_file, reindex_file and remove_file, with edits even in the middle of an indexing: whenever a file has the content its stored hash belongs to, its rows are those a fresh parse would insert, if and only if no edit of consequence fell between hashing and parsing. |
| `CodeIndexer.IndexingStaysSoundIff` | teragent/context/code_indexer.py:168-260 | The same for one call on any sound index. |
| `CodeIndexer.StepStaysSoundIff` | teragent/context/code_indexer.py:168-274 | The same for one event of a run. |
| `CodeIndexer.SoundAtEachVisitIff` | teragent/context/code_indexer.py:276-314 | During index_workspace over files that may change at any time: the index is sound after every visit if and only if no file changed, between its hash and its parse, into something that parses differently. |
| `CodeIndexer.VisitsBringUpToDate` | teragent/context/code_indexer.py:276-314 | After such a pass every file is up to date with the content it was hashed with at its last visit, whatever happened to it before and to the other files at any time. |
| `CodeIndexer.WorkspaceIsUpToDate` | teragent/context/code_indexer.py:276-314 | In particular, if nobody touches the disk meanwhile: after index_workspace, from any sound state, every readable file it listed has its present hash and its present rows. |
| `CodeIndexer.WorkspaceStaysSound` | teragent/context/code_indexer.py:276-314 | And the whole index is sound, files not listed included. |
| `CodeIndexer.IncrementalAgreesWithFull` | teragent/context/code_indexer.py:276-314 | Its rows equal those of indexing the same files into an empty database. |
| `CodeIndexer.WorkspaceRepairsAnyRun` | teragent/context/code_indexer.py:168-328 | After any run of edits, indexing and removals with safe reads, index_workspace brings every readable file it lists up to date. |
| `CodeIndexer.WorkspaceIsRun` | teragent/context/code_indexer.py:305-314 | index_workspace is the run of index_file over its files, so it can occur anywhere in such a run. |
| `CodeIndexer.TotalsGrow` | teragent/context/code_indexer.py:305-328 | One more file of a workspace pass adds one to the files and one to the skipped, or the sizes of its parse. |
| `CodeIndexer.RestoredFileStaysStale` | teragent/context/code_indexer.py:181-202 | A file edited between hashing and parsing and then restored keeps the rows of the other content, and indexing it again changes nothing. |
| `CodeIndexer.RemovingStaysSound` | teragent/context/code_indexer.py:441-454 | Removing a file removes all its rows and keeps the rest sound. |
| `CodeIndexer.ForgettingStaysSound` | teragent/context/code_indexer.py:269-273 | Dropping the stored hash alone keeps the index sound. |
| `CodeIndexer.InsertAllIsLocal` | teragent/context/code_indexer.py:209-244 | Inserting a file's rows, duplicates ignored, depends on and changes the rows of that file alone. |
| `CodeIndexer.InsertedAre` | teragent/context/code_indexer.py:209-244 | Inserting the entries of a parse stores, with all their columns, exactly the first entry of each key the file does not have yet, and drops nothing. |
| `CodeIndexer.ReplacedAre` | teragent/context/code_indexer.py:204-244 | After a file's rows have been replaced a table holds of that file exactly the first entry of each key of the parse, and of other files what it held. |
| `CodeIndexer.IndexingKeepsUnique` | teragent/context/code_indexer.py:204-244 | Indexing keeps every key of a file to one row in each table. |
| `CodeIndexer.WithoutIsLocal` | teragent/context/code_indexer.py:204-207 | Deleting a file's rows leaves every other file's rows as they were. |
| `CodeIndexer.CodeIndexer.IndexFile` | teragent/context/code_indexer.py:168-260 | Skipped, with nothing changed, if and only if the stored hash is that of the content. Otherwise each of the three tables holds of that file exactly the first entry of each key of the parse, with all its columns, and of other files what it held; the stored hash is the new one, empty if the file could not be read; and the counts are those of the parse. |
| `CodeIndexer.CodeIndexer.ReindexFile` | teragent/context/code_indexer.py:262-274 | Never skips. |
| `CodeIndexer.CodeIndexer.IndexWorkspace` | teragent/context/code_indexer.py:276-328 | Indexes the files in turn, with edits anywhere in between or in the middle of an indexing; the totals are the files listed, the sizes of what was parsed and the number skipped; if all were skipped nothing changed. |
| `CodeIndexer.CodeIndexer.RemoveFile` | teragent/context/code_indexer.py:441-454 | Deletes the file from all four tables. |
| `AgentLoop.AgentLoop.ToolLoop` | teragent/agent_loop.py:403-602 | The loop with its counters produces a run in the sense of the turns alone: each turn is read off its reply, there was reason to go on before each, and it stopped for the reason it gives. The messages it returns are exactly those the turns write down, compacted before each call, with a warning when the run was cut short. Steps, calls, streaming attempts and tool executions grow by exactly what the turns say. |
| `AgentLoop.CallsAreAnsweredIff` | teragent/agent_loop.py:520-589 | In the conversation a run leaves, if every call was answered in what it was given and nothing is compacted, every tool call is answered by a result of its own right after it, in order, if and only if no reply that was cut off asked for tools. |
| `AgentLoop.TruncatedCallIsNotAnswered` | teragent/agent_loop.py:520-546 | The failing case: a first reply cut off after it asked for a tool, then an answer. |
| `AgentLoop.TurnSaysReply` | teragent/agent_loop.py:520-589 | What a turn writes down: the text and the tool calls of its reply, and the outcome of each call in order. |
| `AgentLoop.TranscriptOnlyGrows` | teragent/agent_loop.py:403-602 | Without compaction the messages given stay in front, and what each turn writes follows what was there before it. |
| `AgentLoop.CompactionHolds` | teragent/agent_loop.py:466-481 | What a compaction returns heads the conversation, directly before what that turn writes, until a later compaction changes it. |
| `AgentLoop.ToolsRunOnce` | teragent/agent_loop.py:559-566 | The tools of a reply are executed at most once; they are executed exactly for tool batches and, with their results lost, for cut-off replies of streaming calls. |
| `AgentLoop.RunIsUnique` | teragent/agent_loop.py:403-602 | The budget, the modes and the replies determine the turns and the exit: with the row above, the run is specified completely. |
| `AgentLoop.ExitHasCause` | teragent/agent_loop.py:431-600 | Why a run ended, for each exit: the budget is used up, too many failed batches in a row, the step limit, a reply without tool calls that was not cut off, or more cut-off replies in a row than the recovery allows. |
| `AgentLoop.RunHadReasonToGoOn` | teragent/agent_loop.py:431-600 | Before every turn of a run none of that was the case. |
| `AgentLoop.FailureStreakIs` | teragent/agent_loop.py:591-597 | The failures counted are the tool batches since the last one whose tools all worked; one failed tool makes a batch fail. |
| `AgentLoop.TruncationStreakIs` | teragent/agent_loop.py:520-546 | The truncations counted are the cut-off replies since the last tool batch. |
| `AgentLoop.OutcomesAre` | teragent/agent_loop.py:548-575 | Every tool call of a reply has one outcome, in the order of the calls, which tells whether that call worked: in the stream if one succeeded, in the orchestrator otherwise. |
| `AgentLoop.RunIsBounded` | teragent/agent_loop.py:430-600 | At every point of a run: no row of failed tool batches is longer than the limit, no more than the limit plus one truncated replies come between two batches, the tool results appended are those of the reply that asked for them, and the calls fit under the step limit. |
| `AgentLoop.AllRunsStayWithinLimits` | teragent/agent_loop.py:446-502 | Over any number of runs since a reset, completed model calls are at most max(0, max_tool_steps - 1) and streaming attempts at most that many times (max_streaming_retries + 1). |
| `AgentLoop.AttemptsAreBounded` | teragent/agent_loop.py:736-788 | The streaming attempts of one call are bounded by the loop's own range and by the recovery manager's limit, whichever is smaller, and there is one at most without a recovery manager. |
| `AgentLoop.AttemptsPerCall` | teragent/agent_loop.py:736-788 | Summed over the calls of a run. |
| `AgentLoop.TurnIsCounted` | teragent/agent_loop.py:520-600 | After a call the loop goes on with counters that agree with the turns, or ends for the right reason. |
| `AgentLoop.ChecksAreVerdict` | teragent/agent_loop.py:431-456 | The checks before a call decide as the turns alone would. |
| `AgentLoop.AgentLoop.CallModelStreaming` | teragent/agent_loop.py:725-811 | The retry loop makes exactly the specified number of attempts, returns the reply of the first stream that succeeds within the retry limits and otherwise that of the batch call, and leaves the results of that reply's tools in the buffer, each executed once. |
| `AgentLoop.LastAttemptCounts` | teragent/agent_loop.py:736-788 | All attempts of a call but the last failed; what the last one brings is what the call brings, and nothing means the batch call. |
| `AgentLoop.FallsBackAfterAllAttempts` | teragent/agent_loop.py:736-788 | A call falls back to the batch path only when neither retry limit allows one more attempt. |
| `AgentLoop.AgentLoop.Reset` | teragent/agent_loop.py:1240-1245 | All counters and the result buffer are cleared. |

## Left out

- TaskManager.LongHorizonTaskManager.ExecuteLongTask: for repeated goal ids it states only its first group of clauses; which goal of an id is lost is proved in `TopologicalSort`.
- TaskManager.LongHorizonTaskManager.SaveCheckpoint: a save that raises while writing leaves no file; a file cut short is not modelled.
- TaskManager.LongHorizonTaskManager.ExecuteLongTask: says nothing about the wording of prompts, summaries and reasons, nor about which strategy is switched to; only that a switch is counted.
- TaskManager.LongHorizonTaskManager.ExecutePhase: takes from the reply only whether it is empty, how many step markers it has and whether it reads as a failure.
- CodeIndexer.CodeIndexer.IndexWorkspace: no database call raises; the paths the directory scan finds are given.
- Cancellation.CancellationToken.Cancel: "test whether the future is done, then set its result" is one step; what asyncio does when a future is resolved from another thread is not modelled.
- AutoCompact.AutoCompactor.ApplyTimeDecay: its profile argument, which the pass does not read, and runs that mix it with `maybe_compact` are not modelled.
- AutoCompact.AutoCompactor.MaybeCompact: how the summary comes about, from the model or put together when it answers nothing, and an exception from the test that asks for compaction, are not modelled.
- AgentLoop.AgentLoop.ToolLoop: compaction may make anything of the messages; events, usage figures and the circuit breaker are left out; a batch call that fails is one more reply. The tools of a reply come to one outcome each, in their order, as the orchestrator promises.
- AgentLoop.AgentLoop.CallModelStreaming: tools that a failed streaming attempt had already started are not counted among those executed; usage figures are left out.
- Floating point: rates, clocks, ratios and averages are exact reals or rationals; `round` is to the nearest integer, ties to even, and `int(x * 0.7)` is taken of the exact product.
- Checkpoint files that fail to parse are a set of unreadable ids; JSON itself is not modelled.
- Checkpoint timestamps are numbers: ISO strings in one time zone and format compare alike.
- Resuming from a checkpoint: it ends by decomposing the goal anew, which replaces what was restored.
- Self-evaluation and strategy switching beyond their effect on the switch counter and the exceptions they may raise.
- `AdaptiveRateLimiter`: of the headers only the limit is modelled; the remaining count, reset time and retry-after, and the waits they cause, are left out.
- Optimisation suggestions and token estimates of the retention tracker: text and heuristics without state.
- GLM-5 compaction, the micro-compactor and message formatting: prompt work.
- The tokenizer of the similarity measure is any function; the tree-sitter parser, the SHA-256 hash and SQLite are a deterministic function, an injective function and tables with a uniqueness rule.
- File watching, nested-class lookup and the query methods of the indexer.
- networkx's internal order of nodes: callers are listed in the order the calls were added, which after removals and a round trip may differ.
- Hooks, event histories and cost sums: plain folds that would only add easy members.
