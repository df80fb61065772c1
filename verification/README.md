# dev-bot verification model

A Dafny model of the logic that takes a GitHub issue through planning, a concurrent run queue, competing
implementation candidates and winner selection in dev-bot. `dafny verify dfyconfig.toml` checks all of it.

Store writes, shell commands, agents, GitHub, Discord, the clock and the order in which work finishes are
parameters: the theorems hold for everything they may do. Files are maps from name to content.

| files | what they model |
|---|---|
| `Orchestrator.dfy`, `OrchestratorRuns.dfy`, `OrchestratorFairness.dfy` | the run queue of `app/orchestrator.py` as a class refining a small state machine, and theorems over all interleavings and all fair infinite runs |
| `StableSorting.dfy`, `CandidatePolicy.dfy`, `CandidateResults.dfy`, `CandidateSelection.dfy`, `CandidatePreference.dfy` | eligibility, rank, winner selection, the tie-break judge, and the preference order in the fields of the candidates |
| `CandidateExecution.dfy`, `AttemptRun.dfy` | the gate sequence with its rollover, the command loops, both artifact proofs, and a whole attempt |
| `TestPlanBuilder.dfy`, `TestPlanMerge.dfy`, `MergedPlan.dfy`, `Dedupe.dfy` | the bounded-parallel test-plan builder, the merger, and what a merged plan contains |
| `RateLimiter.dfy` | the sliding-window limiter |
| `Identifiers.dfy`, `StateStore.dfy`, `ProcessRegistry.dfy`, `DispatchIdentity.dfy` | durable names, bindings, draft promotion, process records, and how bindings make the queue's answers exact |
| `IssueScheduler.dfy`, `SchedulerRuns.dfy`, `ReconcileRules.dfy`, `ThreadOwnership.dfy`, `StuckBoards.dfy` | board synchronisation, dispatch, reconciliation, and theorems over runs of ticks: requests, reconciliation, records, threads, and which stuck issues settle |
| `StuckIssues.dfy`, `RequestedRuns.dfy` | the stores the application reaches as the scheduler sees them, and the scheduler's requests as the orchestrator sees them |
| `IssueText.dfy`, `IssueSections.dfy`, `IssueRoundTrip.dfy`, `ChunkMessage.dfy` | issue bodies printed and parsed, what each section is read back as, and the round trip; message chunking |
| `Basics.dfy`, `Text.dfy`, `Decimal.dfy` | shared vocabulary, Python string functions, decimal printing |

## Assumptions

- Orchestrator: `put` on the unbounded queue does not suspend, store writes do not raise, and no enqueue
  interleaves with `drain`. These are the conditions under which the code between two `await`s is one step.
- Rate limiter: the clock is monotone, and the second reading in `allow` is not before the first.
- Candidates: the second execution of a candidate is the one entered through the rollover; outside calls may
  return anything but do not raise out of the execution.
- Scheduler: what a tick sees may differ from round to round but not within a round; a thread Discord
  has just created is not bound yet.

## What the proofs found

- The single-success shortcut (`app/pipeline.py:1561-1566`) skips eligibility: the winner is ineligible exactly when
  it is the only success and touched a protected path. Next to another success it would have been rejected.
- The tie-break artifact can name a candidate that did not win: the verdict is stored before the explanation
  is read, and the error path does not take it back (`app/pipeline.py:1771-1782`).
- With `max_concurrency` below 1 items are accepted and never started.
- The failure type `candidate_proof_incomplete` cannot occur: every path to the proof has written all the files.
- A `bind_issue` that is refused for an issue without a record, and no other operation, leaves a record naming a
  thread that is bound elsewhere. The reconcile pass then acts on the other issue, and no tick takes the new one out of
  In Progress; all other issues settle as before (`StuckIssues`).
- Binding a bound thread again copies old draft files over newer issue files.
- `_next_handoff_id` by itself compares names as texts: in a directory with 1000 handoffs it would return handoff-1000
  again. No execution gets there: a candidate of an attempt has its own directory and writes at most one bundle.
- `is_running` looks only at the last key of a thread and keeps it for ever. It misses an item still running under
  an earlier key, and it reports a thread as running when its key now serves another thread. These are the only ways.
- A requirement text with a line that starts with "## " is cut there when its issue is read back, and a section whose
  marker stands in an earlier field is read from there, whatever its own field says.
- Names of issue directories collide for exactly the owners that hold a double underscore or end in an underscore.

## Model

| member | source | states |
|---|---|---|
| Orchestrator.StepKeepsInv | app/orchestrator.py:42-146 | every step of every kind (enqueue, capacity check, wake, get, task start and end, the three drain steps) keeps the invariant: queued keys and threads pairwise distinct, running keys disjoint from queued ones, running within the cap, and a dispatcher waiting in `get` has a spare slot |
| Orchestrator.EnqueueKeepsInv | app/orchestrator.py:42-61 | accepting an item keeps the invariant |
| Orchestrator.GetKeepsInv | app/orchestrator.py:108-120 | taking the head and starting its task keeps the invariant, so the cap is never exceeded |
| Orchestrator.RunOrchestrator.constructor | app/orchestrator.py:20-35 | a new orchestrator is the empty machine |
| Orchestrator.RunOrchestrator.EnqueueItem | app/orchestrator.py:42-61 | refuses exactly when the thread is queued or the key is queued or running; otherwise does exactly the enqueue step of the simple machine; refusal changes nothing |
| Orchestrator.RunOrchestrator.CheckCapacityStep | app/orchestrator.py:102-107 | the dispatcher goes to sleep or to `get` as the cap says |
| Orchestrator.RunOrchestrator.WakeStep | app/orchestrator.py:105-107 | waking up cleans up and returns to the check |
| Orchestrator.RunOrchestrator.CleanupFinished | app/orchestrator.py:143-146 | removes exactly the finished tasks |
| Orchestrator.RunOrchestrator.ActiveCount | app/orchestrator.py:73-75 | counts the running tasks; while serving, the cleanup finds nothing to remove |
| Orchestrator.RunOrchestrator.TakeItem | app/orchestrator.py:108-113 | pops the head and keeps the dedupe sets equal to the keys and threads still queued |
| Orchestrator.RunOrchestrator.GetStep | app/orchestrator.py:108-120 | get and start in one atomic piece refine the simple machine |
| Orchestrator.RunOrchestrator.BeginTask | app/orchestrator.py:118-128 | a created task starts executing its item |
| Orchestrator.RunOrchestrator.FinishTask | app/orchestrator.py:127-141 | whether the executor returned or raised, the key is released |
| Orchestrator.RunOrchestrator.DrainCancelDispatcher | app/orchestrator.py:79-84 | first part of drain |
| Orchestrator.RunOrchestrator.DrainCancelTasks | app/orchestrator.py:86-98 | queue and dedupe sets emptied, tasks cancelled |
| Orchestrator.RunOrchestrator.CancelUnstartedTask | app/orchestrator.py:94-98 | a task cancelled before its first step never executes and is left done, to be cleared |
| Orchestrator.RunOrchestrator.DrainFinish | app/orchestrator.py:99-100 | after drain all five collections are empty |
| Orchestrator.RunOrchestrator.IsQueued | app/orchestrator.py:67-68 | holds exactly when some queued item has this thread |
| OrchestratorRuns.Safety | app/orchestrator.py:42-146 | in every reachable state of every interleaving the invariant holds, at most max(max_concurrency, 0) tasks run, and a dispatcher in `get` implies a spare slot |
| OrchestratorRuns.OneItemPerIssue | app/orchestrator.py:42-61 | in every reachable state no two items of one issue, or of one workspace when no issue is named, are queued or running together, whatever their threads and repositories |
| OrchestratorRuns.NumberedItemsMeetExactlyWhen | app/orchestrator.py:148-151 | items that name neither issue nor workspace share a key exactly when repository and issue number agree |
| OrchestratorRuns.Conservation | app/orchestrator.py:42-146 | over any run, drains included, every accepted item is exactly once dispatched, dropped by a drain or still queued, and every dispatched item is running, ended or cancelled |
| OrchestratorRuns.Order | app/orchestrator.py:42-120 | without drain the accepted sequence is the dispatched sequence followed by the queue: first in, first out, nothing lost |
| OrchestratorRuns.ExecutedExactlyOnce | app/orchestrator.py:108-141 | once queue and running are empty, each accepted item was executed and ended exactly once |
| OrchestratorRuns.DrainEmpties | app/orchestrator.py:77-100 | finishing a drain gives the initial state again, except for the thread-to-key map |
| OrchestratorRuns.ProgressIsBounded | app/orchestrator.py:102-141 | without enqueues each dispatch and each finish lowers the work measure by one and nothing else changes it, so a run has a bounded number of them |
| OrchestratorRuns.ProgressPossible | app/orchestrator.py:102-141 | with work left and a cap of at least one, some sequence of internal steps dispatches or finishes something |
| OrchestratorRuns.CanEmpty | app/orchestrator.py:102-141 | hence some schedule of internal steps empties the system |
| OrchestratorRuns.FreeSlotIsUsed | app/orchestrator.py:102-120 | from every reachable serving state with something queued and fewer tasks than the cap, the dispatcher alone takes the head: no task has to begin or end first |
| OrchestratorRuns.SlotsCanBeFilled | app/orchestrator.py:102-120 | and goes on until min(cap, running + queued) tasks run |
| OrchestratorRuns.CapacityIsReached | app/orchestrator.py:102-120 | for every cap and all items with distinct keys and threads some run has min(cap, number of items) of them running at once |
| OrchestratorFairness.FairRunEmptiesFrom | app/orchestrator.py:102-141 | in an infinite run that attempts every dispatcher step and every task step again and again, work that is left always goes down |
| OrchestratorFairness.FairRunsEmpty | app/orchestrator.py:102-141 | with a cap of at least one, every such fair run without enqueues, from every reachable serving state, comes to an empty queue and an empty running map and stays there |
| OrchestratorFairness.SlotsFillForGood | app/orchestrator.py:102-120 | in every infinite run that attempts the dispatcher steps again and again and in which no task ends, from some moment on as many tasks run as the cap allows, or nothing is left in the queue |
| OrchestratorFairness.FairRunsExecuteOnce | app/orchestrator.py:42-141 | after any run without a drain, every such fair run comes to a moment from which on each accepted item has been dispatched in order, executed once and ended once |
| OrchestratorRuns.DispatchNeedsCapacity | app/orchestrator.py:102-108 | an accepted item can ever be dispatched if and only if max_concurrency is at least 1 |
| OrchestratorRuns.IsRunningIsExact | app/orchestrator.py:63-65 | if every accepted item of a thread has one key and no key serves two threads, `is_running(t)` holds exactly when an item of t is running |
| OrchestratorRuns.RekeyedThreadIsMissed | app/orchestrator.py:54-65 | any two items of one thread with different keys: a run that accepts just these two and in which the running item is denied |
| OrchestratorRuns.SharedKeyIsMisread | app/orchestrator.py:54-65 | any two items with one key, the first with a thread, the second without it: a run in which the first thread is reported as running though only the other item is |
| OrchestratorRuns.IsRunningIsExactExactlyWhen | app/orchestrator.py:42-120 | for any set of items: `is_running` is exact for all threads in all runs that accept items of the set if and only if the cap is below one or the set follows one binding, item by item |
| OrchestratorRuns.IsRunningMissesRekeyedThread | app/orchestrator.py:54-65 | an instance: a concrete run with one thread and two issue keys |
| DispatchIdentity.BoundItemsFollowOneBinding | app/state_store.py:287-340 | items built from any prefix of a store history all follow one injective binding |
| DispatchIdentity.IsRunningIsExactForBoundItems | app/orchestrator.py:63-65 | with such items `is_running` is exact in every reachable state |
| RequestedRuns.IsRunningIsExactForTicksExactlyWhen | app/run_request.py:90-107 | for the items of all requests any number of ticks makes, from any store: `is_running` is exact for all threads in all runs if and only if the cap is below one or no thread was named for two issues |
| RequestedRuns.SharedThreadIsDisowned | app/issue_scheduler.py:234-273 | a thread is named for two issues only if the record of one of them was disowned from the start |
| RequestedRuns.ConsistentTicksGetExactAnswers | app/orchestrator.py:63-65 | so from consistent bindings `is_running` is exact for whatever the scheduler asks for |
| CandidatePolicy.RankIsFlat | app/implementation/candidate_policy.py:84-100 | the nested tuple order equals the lexicographic order of the flattened key, and exact ties are equal keys |
| CandidatePolicy.SeverityDecidesFirst | app/implementation/candidate_policy.py:57-91 | one critical finding less outweighs everything else, then one high, one medium, one low finding less |
| CandidatePolicy.BothShapesRankAlike | app/implementation/candidate_policy.py:57-73 | counts given by name and counts given by field rank alike, and a missing name counts zero |
| StableSorting.LexLessExactlyWhen | app/implementation/candidate_policy.py:107 | of two keys of one length one is below the other exactly when it is smaller at the first position where they differ |
| CandidatePolicy.SelectWinnerMeetsReference | app/implementation/candidate_policy.py:103-108 | raises exactly when nobody is eligible; otherwise names the earliest candidate that is eligible and of least rank |
| CandidatePolicy.WinnerIsUnique | app/implementation/candidate_policy.py:103-108 | that candidate is unique |
| CandidatePolicy.StableSortChoiceIsIrrelevant | app/implementation/candidate_policy.py:107 | any stable sort by the rank gives the list used here |
| StableSorting.CodesCompare | app/pipeline.py:1665 | one string is below another exactly when at the first difference it ends or has the smaller character |
| StableSorting.SortIsStable | app/implementation/candidate_policy.py:107 | the sort used is ordered, keeps equal keys in their order and keeps the members |
| StableSorting.StableSortIsUnique | app/implementation/candidate_policy.py:107 | two ordered lists with the same per-key groups are equal |
| StableSorting.HeadOfStableSort | app/implementation/candidate_policy.py:107-108 | the head of a stable sort is the earliest least element of the input |
| CandidateResults.WinnerInputOf | app/pipeline.py:1592-1629 | a result is eligible exactly when no hard check failed, the proof is complete and neither scope nor review reports a protected path |
| CandidateResults.CountSeverityCounts | app/pipeline.py:1592-1629 | a severity is counted once for every finding that has it |
| CandidateSelection.ResolveCandidateIds | app/pipeline.py:735-744 | the first two of the distinct stripped non-empty ids in their order, or "primary" when there is none |
| CandidateSelection.SelectionRaisesWhenNoneEligible | app/pipeline.py:1571-1573 | with two or more successes selection raises exactly when none is eligible |
| CandidateSelection.DeterministicWinner | app/pipeline.py:1567-1585 | with two or more successes the chosen result is eligible, of least rank, the earliest such, and the tied ids are exactly those of the top-ranked results |
| CandidateSelection.TiedIdsAscend | app/pipeline.py:1651-1665 | the tied ids are listed in ascending order of their characters |
| CandidateSelection.TieReachesJudge | app/pipeline.py:1723-1737 | a detected tie always reaches the judge: all tied ids denote successful, top-ranked results |
| CandidateSelection.FinalWinnerIsTopRanked | app/pipeline.py:1712-1802 | for every judge behaviour the final winner is eligible and of least rank, and the artifact exists exactly when a tie was detected |
| CandidatePreference.RankIsDemerits | app/implementation/candidate_policy.py:84-96 | the rank of a result, spelled out: high, medium and low findings, leaving the plan, unexpected files, missing artifacts, a failure type, changed files and duration, each counted on the fields of the result |
| CandidatePreference.TieExactlyWhen | app/implementation/candidate_policy.py:99-100 | two results tie exactly when all these counts are equal |
| CandidatePreference.FinalWinnerIsPreferred | app/pipeline.py:1559-1800 | for every reply of the judge, against every other eligible success the winner is no worse at the first of these counts in which they differ |
| CandidateSelection.JudgeChoiceStands | app/pipeline.py:1752-1782 | the judge decides exactly when it names a tied id with an explanation that can be read, and the selection basis says which of the two happened |
| CandidateSelection.TieLeavesArtifact | app/pipeline.py:1738-1802 | there is an artifact exactly when a tie was detected; it holds the tied ids, the deterministic winner and the basis of the selection, and the selection names the final winner |
| CandidateSelection.TieBreakArtifactNamesWinner | app/pipeline.py:1771-1802 | the artifact names a candidate that did not win exactly when the judge named another tied id with an explanation that cannot be iterated |
| CandidateSelection.TieBreakArtifactCanBeWrong | app/pipeline.py:1771-1802 | for every eligible success there is such a tie: the same result twice, and a judge for which the first wins and the artifact names the second |
| CandidateSelection.FinalWinnerIsSuccessful | app/pipeline.py:1542-1585 | however chosen, the final winner is a successful result and the selection names it |
| CandidateSelection.WinnerExistsExactlyWhen | app/pipeline.py:1559-1585 | a winner exists exactly when something succeeded and, with two or more successes, some success is eligible |
| CandidateExecution.StopReasonMeaning | app/pipeline.py:3261-3319 | the command loop stops with no reason exactly when no command is high-risk or blocks |
| CandidateExecution.StopReasonIsOfFirst | app/pipeline.py:3261-3319 | the first command that is high-risk or blames the environment gives the reason: a policy violation if it is high-risk, whatever it would have returned |
| CandidateExecution.HardGateExactlyWhen | app/pipeline.py:3570-3611 | the hard-check gate fails exactly when some hard check exited non-zero and was not both allowed to be inapplicable and reported so |
| CandidateExecution.FastRepairExactlyWhen | app/pipeline.py:3029-3055 | a fast repair is possible exactly when some repair check failed, all that failed are format, lint, typecheck or tests, and at most five files changed |
| CandidateExecution.RepairToolsMembers | app/pipeline.py:2839-2874 | a tool needs repair exactly when a check of its phase failed |
| CandidateExecution.NoFailureMeansAllGates | app/pipeline.py:861-1540 | the failure type of a pass is absent exactly when every gate passes |
| CandidateExecution.FailureNamesFirstBrokenGate | app/pipeline.py:861-1540 | each failure is named after the first gate that broke |
| CandidateExecution.CandidateRun.ExecuteWorkflowCommands | app/pipeline.py:3261-3319 | results are a prefix of the expected ones, only commands that are not high-risk run, and the failure type is the first reason to stop |
| CandidateExecution.CandidateRun.Preflight | app/pipeline.py:3321-3342 | clean exactly when no command is high-risk |
| CandidateExecution.CandidateRun.ExecuteFastRepairChecks | app/pipeline.py:3344-3389 | as above for the repair checks; a violation exactly when some check is high-risk |
| CandidateExecution.CandidateRun.EvaluateProof | app/pipeline.py:2423-2455 | complete exactly when every required candidate file is present |
| CandidateExecution.CandidateRun.RunCodex | app/pipeline.py:882-1062 | one codex run and its artifacts |
| CandidateExecution.CandidateRun.RecordReview | app/pipeline.py:1290-1413 | writes the review artifacts and the checkpoint before the proof is evaluated |
| CandidateExecution.CandidateRun.RunImplementation | app/pipeline.py:882-1150 | goes on exactly when codex exited 0, no command stopped the loop and no scope or configuration violation was found; otherwise fails with the failure type of the first gate |
| CandidateExecution.CandidateRun.RunUpToRepair | app/pipeline.py:861-1193 | reaches the repair decision exactly when preflight, implementation and repair checks pass |
| CandidateExecution.CandidateRun.RunReview | app/pipeline.py:1200-1540 | asks for a rollover exactly when review is reached, no handoff was used and the minor-repair conditions hold; otherwise reports the pass |
| CandidateExecution.SeverityIsMinorExactlyWhen | app/pipeline.py:2996-3003 | the largest counted severity is below high exactly when no finding is critical or high |
| CandidateExecution.MinorRepairExactlyWhen | app/pipeline.py:3005-3027 | of the passes that reach review exactly those roll over for a minor repair that were called repairable, stayed in scope, touched no protected path, drew no critical or high finding and changed at most five files |
| CandidateExecution.CandidateRun.ExecuteCandidate | app/pipeline.py:837-1540 | for all outcomes of all outside calls: success exactly when the final pass passed every gate, all of them stated in exit codes, categories, markers, statuses and violations, and then every required file is there; at most one rollover, hence at most two codex runs and one bundle; no high-risk command ever runs |
| CandidateExecution.CandidateRun.Rollover | app/pipeline.py:2005-2074 | a rollover is one more pass with a handoff and cannot roll over again |
| CandidateExecution.CandidateRun.WriteSessionHandoffBundle | app/pipeline.py:2570-2581 | the bundle is written under the next handoff id of the candidate's own directory |
| AttemptRun.WinnerIsEligibleExactlyWhen | app/pipeline.py:1561-1585 | over executed results the final winner is eligible if and only if two or more succeeded or the only success touched no protected path |
| AttemptRun.FinalWinnerWinsRightly | app/pipeline.py:1542-1800 | for executed results and every judge reply the final winner is a successful result the selection names, eligible as stated, and among two or more successes top ranked and preferred in the fields of the results |
| AttemptRun.RunIneligibleWinner | app/pipeline.py:1561-1566 | an execution that passes every gate, touches a protected path, and wins ineligibly, for every workflow without high-risk commands and every judge |
| AttemptRun.NoWinnerExactlyWhen | app/pipeline.py:346-394 | over executed results there is no winner exactly when nothing succeeded or two or more did and each touched a protected path |
| AttemptRun.Attempt.ExecuteInDirectory | app/pipeline.py:765-824 | one candidate executed in a directory of its own: successful exactly when its execution passes every gate, and then every required file is there; at most one rollover and no high-risk command |
| AttemptRun.Attempt.ExecuteCandidates | app/pipeline.py:765-824 | one executed result per id, in the order of the ids, successful exactly when its execution passes every gate |
| AttemptRun.HandoffsOfExecutionsAreFresh | app/pipeline.py:2005-2074 | in every execution the handoffs directory holds one file per handoff, at most one, and always handoff-001: no bundle is overwritten |
| AttemptRun.Attempt.Promote | app/pipeline.py:357-425 | promotion of a successful result always ends with a complete attempt proof |
| AttemptRun.Attempt.Conclude | app/pipeline.py:346-425 | promotes exactly the final winner; without one the views stay as they were |
| AttemptRun.Attempt.Run | app/pipeline.py:327-430 | end to end, whatever codex, reviews, commands and the judge do: a promoted winner has both proofs complete, is eligible exactly as stated above, and among two or more successes is top ranked and preferred in the fields of the results; every result is successful exactly when its execution passes every gate; nobody is promoted exactly when nobody is promotable |
| TestPlanBuilder.Parallelism | app/planning_agent.py:577-586 | between 1 and the number of criteria; a configured positive limit is never exceeded and is used up as far as there are criteria, a negative one means 1, none or 0 means 3 |
| TestPlanBuilder.SequentialResultIsUnique | app/planning_agent.py:1018-1033 | the sequential loop's result is determined by its calls |
| TestPlanBuilder.BuildSequential | app/planning_agent.py:1017-1033 | all chunks in index order, or the error of the first call that raises |
| TestPlanBuilder.WindowSize | app/planning_agent.py:1065-1084 | in-flight work always equals min(parallelism, unfinished) |
| TestPlanBuilder.RefillKeepsWindow | app/planning_agent.py:1072-1084 | collecting one future and submitting the next keeps the window |
| TestPlanBuilder.FillWindow | app/planning_agent.py:1065-1067 | the first submissions are exactly 1 to parallelism |
| TestPlanBuilder.ProcessBatch | app/planning_agent.py:1071-1084 | a batch of finished futures in any order keeps the window; it fails exactly when one of them raised |
| TestPlanBuilder.RunPool | app/planning_agent.py:1069-1087 | for any completion order the pool ends, fails exactly when some uncollected call raised, and never has more than parallelism calls in flight |
| TestPlanBuilder.RunFallback | app/planning_agent.py:1091-1124 | the missing indices are built one after the other; an error is the first fallback call that raises |
| TestPlanBuilder.BuildParallel | app/planning_agent.py:1034-1125 | the same chunk list as the sequential loop over the calls that counted, for any completion order, batching and first failure |
| TestPlanBuilder.BuildChunks | app/planning_agent.py:995-1125 | if a fallback call behaves like the pooled one, the result is exactly the sequential result; it raises only if a fallback call raises; every index has its chunk; the most calls ever in flight are exactly the configured parallelism |
| TestPlanMerge.DedupePreserveOrder | app/planning_agent.py:1327-1336 | keeps exactly the first item of each key, in order |
| Dedupe.DedupeKeepsKeys | app/planning_agent.py:1327-1336 | no key is lost or added |
| Dedupe.DedupeIsDistinct | app/planning_agent.py:1327-1336 | no key is left twice |
| Dedupe.DedupeIsIdempotent | app/planning_agent.py:1327-1336 | a second pass changes nothing |
| Dedupe.DedupeKeepsFirst | app/planning_agent.py:1327-1336 | the first item of each key survives |
| Dedupe.DedupeOfPrefix | app/planning_agent.py:1327-1336 | appending items only appends to the result |
| TestPlanMerge.NextId | app/planning_agent.py:1347-1354 | the maps of the loop give each case the id its target and position determine |
| TestPlanMerge.RenumberTestCases | app/planning_agent.py:1339-1356 | every object case is kept, in order, with that id |
| TestPlanMerge.CaseIdInjective | app/planning_agent.py:1354 | the printed id determines target number and case number, for any number of digits |
| TestPlanMerge.CaseIdOfDigits | app/planning_agent.py:1354 | single digits are printed with a leading zero |
| TestPlanMerge.IdsAreDistinct | app/planning_agent.py:1339-1356 | ids are pairwise distinct for any number of cases and targets |
| TestPlanMerge.TargetNumberInjective | app/planning_agent.py:1347-1351 | equal targets, and only those, share a number |
| TestPlanMerge.TargetNumberStep | app/planning_agent.py:1348-1350 | targets are numbered in first-seen order and keep their number |
| TestPlanMerge.CaseNumbersAreConsecutive | app/planning_agent.py:1352-1354 | case numbers of one target are consecutive |
| TestPlanMerge.MergeRisks | app/planning_agent.py:1310-1316 | keeps the first risk of each non-empty title |
| TestPlanMerge.MergeTestPlanChunks | app/planning_agent.py:1297-1324 | the whole merged plan: every object case of every chunk in order, with the id its target and rank determine and no id twice; targets, strategy lists, regression risks and titled risks each reduced to the first entry of each key |
| MergedPlan.NumbersMeetExactlyWhen | app/planning_agent.py:1347-1351 | two cases share a target number exactly when their targets agree up to surrounding whitespace, a blank one counting as "general" |
| MergedPlan.ObjectsAreCounted | app/planning_agent.py:1344-1346 | everything but objects is skipped, and no object is |
| MergedPlan.ChunksFollowEachOther | app/planning_agent.py:1307-1316 | cases and risks of a chunk come right after those of the chunks before it |
| MergedPlan.RiskSurvivesExactlyWhen | app/planning_agent.py:1310-1316 | every title that is not blank survives, once up to surrounding whitespace, and no risk without a title does |
| MergedPlan.RegressionRiskExactlyWhen | app/planning_agent.py:1309-1322 | a text is a regression risk of the plan exactly when some chunk has it up to surrounding whitespace |
| MergedPlan.EntrySurvives | app/planning_agent.py:1298-1319 | of the entries of a list with one text exactly one survives |
| RateLimiter.PruneTwice | app/discord_security.py:28-30 | pruning early and again later equals pruning once later |
| RateLimiter.PruneIsTheWindow | app/discord_security.py:28-30 | pruning keeps every call inside the window and no other |
| RateLimiter.ReplayRecordsExactlyWhen | app/discord_security.py:32-39 | over any history a call is recorded if and only if fewer than max_calls recorded ones lie inside the window |
| RateLimiter.AdmittedAfterWindow | app/discord_security.py:36-38 | an admitted call comes a full window after the max_calls-th last one |
| RateLimiter.AcceptKeepsSpaced | app/discord_security.py:32-39 | so accepted calls stay spaced |
| RateLimiter.SpacedBoundsEveryInterval | app/discord_security.py:32-39 | spaced calls put at most max_calls into any half-open interval of one window |
| RateLimiter.ReplayIsSpaced | app/discord_security.py:32-39 | every history of calls with a monotone clock stays spaced |
| RateLimiter.EveryWindowIsBounded | app/discord_security.py:17-39 | for any history every half-open window-long interval holds at most max_calls accepted calls |
| RateLimiter.KeysAreSeparate | app/discord_security.py:25-26 | distinct users or commands never share a key while user ids hold no colon |
| RateLimiter.CommandRateLimiter.constructor | app/discord_security.py:20-23 | starts with an empty history |
| RateLimiter.CommandRateLimiter.Cleanup | app/discord_security.py:28-30 | the kept list is the full accepted history pruned at this instant; other keys are untouched |
| RateLimiter.CommandRateLimiter.Allow | app/discord_security.py:32-39 | admits exactly when fewer than max_calls calls of the full history lie inside the window, so always when all of them are a window old and max_calls is positive; records exactly admitted calls |
| RateLimiter.CommandRateLimiter.Remaining | app/discord_security.py:41-45 | max_calls less the calls of the full history inside the window, at least 0: positive exactly when `allow` would succeed now, and max_calls when all calls are a window old |
| Identifiers.SafeKeyInjective | app/state_store.py:657-658 | two different issues of good owners (no "__" inside, no "_" at the end) have different file names |
| Identifiers.BadOwnerCollides | app/state_store.py:657-658 | every issue of any other owner shares its file name with an issue of a shorter owner, which is given |
| Identifiers.OwnerKeepsFilesExactlyWhen | app/state_store.py:657-658 | for every owner: its issues share no file name with an issue of an owner that is no longer, if and only if the owner is good |
| Identifiers.UnderscoreOwnerCollides | app/state_store.py:657-658 | two instances: "a__b" with "c" collides with "a" and "b__c", and "a_" with "b" collides with "a" and "_b" |
| Decimal.ParseOfPad | app/state_store.py:127-130 | parsing a printed padded number gives it back, for all numbers and widths |
| Identifiers.AttemptCounter.CreateAttempt | app/state_store.py:121-140 | the new id is the one `_next_attempt_id` predicts, its number is the old number plus one, and attempt_count is at least that |
| Identifiers.AttemptsAreNumberedInOrder | app/state_store.py:121-150 | the n-th attempt is number n, for all n |
| Identifiers.AttemptIdsNeverRepeat | app/pipeline.py:3063-3070 | attempt ids never repeat |
| Identifiers.HandoffOrder | app/pipeline.py:2573 | below 1000 sorted names are in numeric order |
| Identifiers.ThousandSortsFirst | app/pipeline.py:2573 | handoff-1000 sorts before handoff-999 |
| Identifiers.HandoffsSoFar | app/pipeline.py:2570-2581 | the directory after n handoffs is handoff-001 to handoff-min(n, 1000) |
| Identifiers.HandoffIsFreshExactlyBelowThousand | app/pipeline.py:2570-2581 | for `_next_handoff_id` alone: a new id is fresh if and only if fewer than 1000 were made in the directory |
| StateStore.FileStateStore.constructor | app/state_store.py:25-33 | an empty store is mirrored |
| StateStore.FileStateStore.BindThread | app/state_store.py:287-311 | refuses for exactly the two stated conflicts, each named, and then changes nothing; otherwise binding, record and draft agree |
| StateStore.FileStateStore.WriteBinding | app/state_store.py:295-311 | the writing half of `bind_thread` |
| StateStore.FileStateStore.PromoteDraftArtifacts | app/state_store.py:549-568 | copies exactly the promoted files present in the draft |
| StateStore.FileStateStore.BindIssue | app/state_store.py:313-332 | the whole new store, success exactly as stated, and the thread then resolves to the issue |
| StateStore.FirstBindingCopiesMeta | app/state_store.py:313-332 | the first successful binding of an issue gives it a record that agrees with the meta of the draft, field by field |
| StateStore.BoundDraftAgrees | app/state_store.py:295-311 | a thread bound without a draft gets one that agrees with the record, field by field; a draft that is there only gets the name of the issue |
| StateStore.FileStateStore.WriteThreadArtifact | app/state_store.py:363-367 | what is written through a thread is what is loaded through it; bindings stay mirrored |
| StateStore.MirroredIsInjective | app/state_store.py:287-311 | when every binding is mirrored by its record, no issue is bound to two threads |
| StateStore.BoundKeepsMirroredExactlyWhen | app/state_store.py:287-311 | an accepted bind keeps bindings mirrored exactly when the issue has a record |
| StateStore.RecordKeepsMirroredExactlyWhen | app/state_store.py:59-87 | replacing a record keeps them mirrored exactly when the new record names every thread bound to it |
| StateStore.BindIssueKeepsMirrored | app/state_store.py:313-332 | `bind_issue` keeps them mirrored, accepted or refused |
| StateStore.ApplyKeepsMirrored | app/state_store.py:35-87 | so does every operation used soundly |
| StateStore.BindingsStayMirrored | app/state_store.py:287-340 | from an empty store, after any sequence of successful and refused operations every binding is mirrored |
| StateStore.BindingsOnlyGrow | app/state_store.py:287-340 | a binding once made is never changed or lost |
| StateStore.RefusedBindIssueWritesRecord | app/state_store.py:316-325 | a refused `bind_issue` leaves all records unchanged exactly when the issue had one; otherwise it leaves a new record behind |
| StateStore.ApplyKeepsRecordsBoundExactlyWhen | app/state_store.py:35-332 | records name only threads that are bound to them; an operation breaks this if and only if it is a `bind_issue` refused for an issue without a record |
| StateStore.DraftsStayBound | app/state_store.py:35-57 | after any sequence of operations a draft names no issue, or the one its thread is bound to |
| StateStore.BindIssueLoadsDraft | app/state_store.py:313-332 | after a successful bind each promoted draft file loads alike through issue and thread |
| StateStore.FirstBindingPreservesArtifacts | app/state_store.py:313-332 | the first binding preserves what loads through the thread and makes the issue view equal to it |
| StateStore.BindingKeepsPlanningArtifacts | app/issue_scheduler.py:14-19 | a draft with all planning artifacts still has them after its first binding |
| StateStore.RebindingPreservesExactlyWhen | app/state_store.py:549-568 | binding an already bound thread again preserves a file exactly when the draft lacks it or holds the same content |
| ProcessRegistry.EncodingRoundTrip | app/process_registry.py:56-85 | a lone record is the file itself and several stand in a list; both forms decode to the records written, and `load` gives the last of them |
| ProcessRegistry.ToJsonInjective | app/process_registry.py:38 | writing a record loses nothing: different records have different payloads |
| ProcessRegistry.PutKeepsDistinct | app/process_registry.py:37-39 | registering keeps runner types distinct |
| ProcessRegistry.RegisteredIsLoaded | app/process_registry.py:24-40 | after registering, the file loads as the new record, and the records of the other runner types are still there |
| ProcessRegistry.UnregisterUndoesRegister | app/process_registry.py:37-54 | unregistering a type gives the records without it, and a later registration replaces an earlier one |
| ProcessRegistry.LiveOnesMember | app/process_registry.py:111-126 | a record is dropped exactly when the probe made for it said there is no such process, or it has neither pgid nor pid |
| ProcessRegistry.Registry.constructor | app/process_registry.py:20-22 | no records |
| ProcessRegistry.Registry.LoadAll | app/process_registry.py:74-85 | the records in insertion order |
| ProcessRegistry.Registry.Load | app/process_registry.py:56-72 | the last record, or an empty object |
| ProcessRegistry.Registry.WriteRecords | app/process_registry.py:141-147 | the file of the key holds exactly these records |
| ProcessRegistry.Registry.OtherPayloads | app/process_registry.py:37 | the payloads of other runner types |
| ProcessRegistry.Registry.Register | app/process_registry.py:24-40 | the old record of the type is removed and the new one appended; other files stay |
| ProcessRegistry.Registry.Unregister | app/process_registry.py:42-54 | the record of the type, or all of them, disappear; other files stay |
| ProcessRegistry.Registry.LivePayloads | app/process_registry.py:111-126 | the payloads of the live records, in order |
| ProcessRegistry.Registry.IsActive | app/process_registry.py:107-132 | true exactly when some record is not gone in that sense, and exactly those remain |
| IssueScheduler.Scheduler.SyncRow | app/issue_scheduler.py:154-190 | one board row: record created if missing, status resolved, issue file rewritten |
| IssueScheduler.Scheduler.SyncProjectBoardState | app/issue_scheduler.py:142-191 | the whole board is mirrored before any record is read back, one entry per usable row |
| IssueScheduler.Scheduler.EnsureIssueThreadBinding | app/discord_adapter.py:831-863 | an issue keeps its thread or gets the created one, bound to it |
| IssueScheduler.Scheduler.DispatchIssueIfReady | app/issue_scheduler.py:234-273 | refines the one-line form: ask for a run if and only if all dispatch conditions hold |
| IssueScheduler.Scheduler.ReconcileRuntimeState | app/discord_adapter.py:1579-1624 | acts on the record the thread is bound to, with all branches of the original |
| IssueScheduler.Scheduler.ProcessRecord | app/issue_scheduler.py:60-90 | one round of the tick |
| IssueScheduler.Scheduler.SchedulerTick | app/issue_scheduler.py:57-90 | the tick equals the specification function the theorems below are about |
| SchedulerRuns.ActAsksExactlyWhen | app/issue_scheduler.py:57-90 | a round asks for a run exactly when the status is Ready or Rework, the issue is open, its thread is planned and neither runs nor waits, it has no process, and with a project configured GitHub confirms the state and an approved plan |
| SchedulerRuns.TickAsks | app/issue_scheduler.py:60-90 | over a whole tick every request has that reason in one round, and every round with it makes its request, also for a thread created in that round |
| SchedulerRuns.NothingStartsWithoutApproval | app/issue_scheduler.py:254-257 | with a project configured nothing starts unless GitHub reports Ready or Rework and an approved plan |
| SchedulerRuns.UnreadableTicksDoNotMatter | app/issue_scheduler.py:143-151 | over any run, ticks with a failed or empty board read can be left out without changing anything |
| SchedulerRuns.ActKeepsConsistent | app/issue_scheduler.py:60-90 | with consistent bindings a round touches only the record of its issue |
| SchedulerRuns.TickTouchesTheBoardOnly | app/issue_scheduler.py:57-90 | a tick leaves every issue that is not on the board alone and keeps bindings consistent |
| ReconcileRules.ReconciledRecord | app/discord_adapter.py:1594-1624 | a record is reset exactly when it is in progress or in a live runtime state, waits for no pending approval and has no process, running or queued item; it is marked running exactly when it is in progress without a runtime state and has a process |
| ReconcileRules.RoundOfOtherIssue | app/discord_adapter.py:1579-1593 | a round of another issue changes a record only by reconciling a thread that is bound to it |
| ReconcileRules.TickReconciles | app/discord_adapter.py:1579-1624 | over a whole tick from any store: an issue in progress is reset if and only if some round that concerns it finds neither an awaited approval nor live work, and is marked running if and only if none does and some such round finds a process |
| ReconcileRules.BusyIssueKeepsItsStatus | app/discord_adapter.py:1594-1624 | an issue in progress that waits for a pending approval or has live work keeps status, thread and runtime state over any number of ticks while the board does not move it; a missing runtime state can only become running |
| ReconcileRules.SyncedStatusExactlyWhen | app/issue_scheduler.py:193-212 | the board's state is taken over unless it is missing, or says In Progress for an issue that is at Rework here and has no live work |
| ReconcileRules.SyncedExactlyWhen | app/issue_scheduler.py:154-162 | an issue takes part in a tick exactly when some row with a repository and a positive number names it; other rows have no effect |
| ReconcileRules.RowsMeetExactlyWhen | app/issue_scheduler.py:161 | two rows are of one issue exactly when repository and number agree |
| ReconcileRules.RecordFollowsBoard | app/issue_scheduler.py:154-190 | after mirroring a record has the plan state, and unless it is missing or In Progress the status, of the last row of its issue |
| ReconcileRules.NewRecordFollowsBoard | app/issue_scheduler.py:154-180 | a new record starts with the state of its row, or in the backlog |
| ReconcileRules.ClosedFollowsBoard | app/issue_scheduler.py:181-190 | an issue counts as closed exactly when its last row says so |
| ReconcileRules.ThreadIsGivenExactlyWhen | app/issue_scheduler.py:60-90 | a round gives an issue without a thread one exactly when Discord offers a new one and the issue is not finished; an issue that may start is offered one twice; a thread once there stays |
| ReconcileRules.MergingExactlyWhen | app/issue_scheduler.py:82-90 | a round of an issue at Merging takes over what the merge pass makes of it unless a process is alive for it |
| ReconcileRules.QueuedExactlyWhen | app/orchestrator.py:54-60 | a round marks an issue queued exactly when it asks for a run and the orchestrator takes it |
| ThreadOwnership.TicksKeepLinks | app/issue_scheduler.py:57-91 | for any store and any number of ticks: no record loses its thread, none is disowned or healed, and no thread of an issue becomes stray |
| ThreadOwnership.BackLinkedHasNoStrayThread | app/state_store.py:287-311 | bindings mirrored by records leave no stray thread: the only thread of an issue that another record can name is its own |
| ThreadOwnership.OwnedHasNoStrayThread | app/state_store.py:287-311 | nor do stores in which every other record owns its thread |
| ThreadOwnership.RequestsNameBoundThreadsExactlyWhen | app/issue_scheduler.py:234-273 | over any run of ticks from any store every request names the thread of its issue's record, and that thread is bound to the issue if and only if the record was not disowned at the start |
| StuckBoards.SyncOfStuck | app/issue_scheduler.py:193-212 | mirroring a stuck In Progress keeps a local Rework and takes over In Progress otherwise |
| StuckBoards.StuckIssueSettlesExactlyWhen | app/discord_adapter.py:1579-1612 | for any board and any number of ticks, whatever the other records say, as long as no thread of the issue is stray: the stuck issue is at Rework if and only if it was before or its record names no thread, or one that is bound to it |
| StuckBoards.DisownedIssueNeverSettles | app/discord_adapter.py:1579-1612 | a stuck issue whose record names a thread bound to another issue or to none is at Rework after any number of ticks only if it was before |
| StuckBoards.StuckBoardSettles | app/issue_scheduler.py:57-91 | a stuck issue that is not disowned is taken from any local state to Rework in one tick and not started; with consistent bindings an issue already at Rework keeps its runtime state |
| StuckBoards.StuckBoardStaysSettled | app/issue_scheduler.py:57-91 | and every later tick keeps Rework and starts nothing, for any number of ticks |
| StuckIssues.ViewIsConsistent | app/state_store.py:287-332 | while every record names only a thread bound to it, and the issues in play have different file names, the scheduler reads consistent bindings |
| StuckIssues.DisownedInViewExactlyWhen | app/state_store.py:334-340 | what the scheduler sees as disowned is exactly a record naming a thread that is not bound to it |
| StuckIssues.StoredIssueSettlesExactlyWhen | app/issue_scheduler.py:57-91 | the same equivalence for every store whose bindings are mirrored by records, damaged records included |
| StuckIssues.ReachedIssueSettlesExactlyWhen | app/issue_scheduler.py:57-91 | hence for every store that any sequence of operations reaches, with any number of refused bindings on the way |
| StuckIssues.RefusedBindDisowns | app/state_store.py:313-332 | a refused bind of an issue without a record disowns that issue, and no other issue is disowned, healed or changed |
| StuckIssues.RefusedBindLeavesStuckIssue | app/issue_scheduler.py:57-91 | so no tick settles that issue, however many the board stays at In Progress |
| StuckIssues.RefusedBindSparesOthers | app/issue_scheduler.py:57-91 | and every other stuck issue settles exactly as it would have without the refused call |
| StuckIssues.RefusedBindIsReachable | app/state_store.py:287-332 | three operations on an empty store lead to such a refusal |
| IssueSections.NoHolderExactlyWhen | app/discord_adapter.py:959-966 | the text a section is read from is its own exactly when no earlier text holds its marker |
| IssueSections.SectionIsItsReading | app/discord_adapter.py:959-966 | for any sections of any contents: what is read of a section is what stands after its marker in the earliest earlier text that holds it, else its own text, up to the next heading line |
| IssueRoundTrip.PrintedBodyIsReread | app/issue_draft.py:16-53 | so a printed body is read back as those eight readings, whatever the thread URL |
| IssueRoundTrip.HeldSectionIgnoresItsField | app/discord_adapter.py:959-966 | a section whose marker stands in an earlier field is read the same for every value of its own and the later fields |
| IssueRoundTrip.BackgroundSurvivesExactlyWhen | app/issue_draft.py:56-58 | the background survives exactly when it is non-empty, trimmed and without a heading line |
| IssueRoundTrip.GoalOfSection | app/discord_adapter.py:928 | a goal read from its own section survives on the same terms, or when it starts with a heading line and the title equals it |
| IssueRoundTrip.ListOfSection | app/discord_adapter.py:946-957 | whatever part of a printed list is read, it is parsed as a non-empty list, and as the printed items exactly when the list is non-empty and its items are trimmed, non-empty and single-line |
| IssueRoundTrip.ItemOfIsCanonical | app/discord_adapter.py:951-956 | every parsed item is empty or a trimmed single line |
| IssueRoundTrip.BlankFieldsReadAsPlaceholders | app/issue_draft.py:56-64 | a blank background comes back as a placeholder, and so does every other blank text or list whose marker stands in no earlier field; neither title nor goal takes its place |
| IssueRoundTrip.GoalStandsIn | app/discord_adapter.py:925-942 | for every body, printed or written by hand: a section without its marker is empty, the title stands in for a missing goal, and the goal for missing in-scope items and acceptance criteria |
| IssueRoundTrip.SummaryRoundTripExactlyWhen | app/discord_adapter.py:925-966 | for every summary, thread and title, printing and parsing is the identity if and only if each field survives: on its own terms when no earlier field holds its marker, and by being what follows that marker otherwise |
| IssueRoundTrip.PointingBackgroundDictatesGoal | app/discord_adapter.py:959-966 | a background that says "see ## 目的 G" makes G the goal read back, so of all goals exactly G survives |
| ChunkMessage.CutChunk | app/chat_inputs.py:120-125 | cuts at the last newline of the first max_length characters past the start, and at max_length exactly when there is none; only whitespace around the cut is dropped |
| ChunkMessage.ChunkMessage | app/chat_inputs.py:115-128 | every chunk fits, the content is the chunks in order with only whitespace between them, and every cut but the end follows that rule |
| ChunkMessage.WeaveConservesText | app/chat_inputs.py:115-128 | so all other characters are conserved, in order |

## Left out

- Orchestrator.RunOrchestrator.EnqueueItem: `runtime_status` and failure writes to the store are not part of the model, because they only write.
- Orchestrator.RunOrchestrator.DrainFinish: cancellation from outside `drain` is not modelled.
- StateStore.FileStateStore.PromoteDraftArtifacts: conversation and log files, legacy directories, timestamps, execution runs and `_split_issue_key` are not modelled.
- StateStore.FileStateStore.CreateIssueRecord: the form with a thread id is not modelled apart from the record `bind_issue` writes.
- StateStore.FileStateStore.CreateDraft: attempt counters are modelled in `Identifiers`, per issue, without the store around them.
- Identifiers.AttemptCounter.CreateAttempt: ids written by hand in forms `int()` also accepts (signs, spaces, underscores) are read as not a number.
- ProcessRegistry.Registry.IsActive: `terminate` and the legacy record file are not modelled; JSON text is a tree of values, and numbers given as text or as booleans are not records this registry writes.
- CandidateExecution.CandidateRun.ExecuteCandidate: chat messages, logs, session steering and the contents of artifacts are not modelled; a file is present or absent.
- CandidateExecution.CandidateRun.ExecuteCandidate: text comparisons that lower and strip a field of an agent's answer are taken as given values.
- AttemptRun.Attempt.Run: pull requests, commits, notifications after promotion, workspace preparation and an exception that leaves a candidate task are not modelled; candidates are executed one after the other although the original may overlap them.
- CandidateSelection.DeterministicWinner: `winner_reason`, judge summaries and the metrics payload are texts and not modelled.
- TestPlanBuilder.BuildChunks: progress callbacks and the overview call are not modelled; acceptance criteria are their indices.
- TestPlanMerge.MergeTestPlanChunks: entries of the lists are given with the text they are compared by; a risk that is not an object is one without a title; fields of a case other than id and target are carried along.
- RateLimiter.CommandRateLimiter.Allow: times are real numbers, not floating point.
- IssueScheduler.Scheduler.DispatchIssueIfReady: the fallback to the thread's issue.json is not modelled, because the synchronisation has just written the issue's own.
- IssueScheduler.Scheduler.SchedulerTick: `restore_pending_runs`, drafts of unbound threads, activity records, changes other than ticks between two ticks, the request to GitHub to move a card, and the inside of the merge pass are not modelled; status texts are compared as stored.
- IssueRoundTrip.SummaryRoundTripExactlyWhen: a missing field, which prints as "None", is not modelled.
- ChunkMessage.ChunkMessage: a `max_length` below 1 is not modelled; the original is called with a positive constant.
- Planning modes, prompts, schemas, configuration loading, Discord commands and views, GitHub and workspace clients and runners: interface and plumbing.
