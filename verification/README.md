# Verified model of the mission harness

The repository is an agent harness: an orchestrator model drafts a plan of milestones, a worker model
implements them one by one through tools, a validator model judges each attempt, and the harness code
around them decides what runs, what is retried, what may be written and what is remembered. The models
are not to be trusted, so everything they say is an arbitrary input here: a plan, a patch, a reply, a tool
result or a verdict is any JSON value, any string or any outcome. What is proved is what the harness
guarantees for every one of them.

The project is organised after the source.

* `json_values`, `text`, `lines`: JSON values as Python sees them, `strip`, `lower`, `splitlines`, and text-mode
  line endings.
* `plan_ops`, `plan_acceptance`, `plan_patch_effects`, `plan_patch_laws`, `plan_order`, `plan_completed`: the plan
  patch engine, which operations it accepts, what they do, what every patch keeps, dependency order, and whether
  completed milestones change.
* `plan_lint`, `plan_lint_reports`, `plan_lint_laws`: the linter, what it reports, what a clean report means,
  linting twice.
* `worker`, `worker_endings`, `worker_log`, `worker_laws`, `worker_ledger`: the tool loop of one implementer run,
  how it ends, what it executes, its budgets and failure breakers, and what the failure counters stand for.
* `milestone`, `milestone_endings`, `milestone_ledger`, `milestone_laws`: the retry loop around the worker and the
  validator, how it ends, and what it carries from one attempt to the next.
* `mission`, `mission_patches`, `mission_endings`, `mission_laws`, `mission_replans`, `mission_order`, `mission_skips`,
  `mission_reruns`, `mission_limits`: the supervisor, the patches it applies, what it reports, its termination,
  its replan breakers, its position in the plan, what it goes past for good, when it runs finished work again, and runs
  that show why the guarantees carry conditions.
* `memory_store`, `recovery`, `recovery_laws`, `recovery_limits`: the memory store, and runs, crashes and
  resumes as steps between which the process may die.
* `run_queue`, `run_queue_laws`, `run_queue_results`, `run_queue_cancel`, `run_queue_calls`, `run_registry`: the
  serial queue as interleaved single reads and writes of the API threads and the worker thread, what its records
  say in the end, its calls of cancel and shutdown, and the registry of runs.
* `event_stream`: subscribe, replay and live streaming of the event log.
* `briefs`, `brief_laws`, `brief_encoding`: budgeted brief normalisation and the encoding it is measured by.
* `token_usage`, `file_policy`, `settings`, `diff_filter`, `rank_fusion`, `bm25` and the files beside them: the
  smaller pieces.

Loops and in-place updates of the source are methods (or methods of classes with the same fields), each
proved equal to a function of its inputs or of the old state; the laws are lemmas about that function.
Protocols between threads, and runs that may crash, are state machines whose schedules are arbitrary
sequences of events.

## What the proofs found

Several natural promises do not hold of the code as it is. Each is recorded with the input that breaks it or
with the exact condition under which the promise holds, where possible with both.

* "Milestone ids stay unique" (`_PATCH_FORMAT_GUIDE`): an inserted id is checked stripped and stored raw,
  so an id with surrounding white space can be inserted twice. Ids stay unique exactly for trimmed ids.
* Linting resolves dependencies by their text (`plan_lint.py:55`), removal drops them only if they are text
  (`plan_ops.py:168-170`): `depends_on: [1]` counts as naming milestone "1", and is left dangling when that
  milestone is removed. Order survives every patch that brings no dependencies exactly when no dependency
  that is not text names a milestone that can be removed.
* A target path with the `workspace/` prefix twice is fixed only once per lint: linting is idempotent
  exactly when there is no such path.
* A milestone inserted before the one in hand is skipped, for good unless the planner brings it back. An
  operation leaves the milestone in hand in place exactly when it is not an insertion or inserts behind it;
  when all do, nothing is skipped and nothing run again.
* Finished milestones can be run again in two ways: the planner moves the one in hand up before them, or it
  removes the one in hand and inserts another before them ([A done, B done, C] becomes [A, X, B], and the loop
  continues at B). It happens exactly when a patch leaves the milestone in hand before a completed one or, once
  that is gone, any unfinished milestone before a completed one.
* "Completed milestones are immutable" (`plan_ops.py:16`): removing a milestone edits every dependency list
  that names it, those of completed milestones too. With a completed "A" that depends on "ghost", which is
  nowhere, inserting "ghost" and removing it again edits A. They are immutable exactly when whatever they
  depend on by a text that an op can name is last carried by a completed milestone.
* Replan budgets do not end a mission whose planner keeps inventing ids; the number of rounds is bounded by
  the number of distinct milestones replanned.
* Files are read with universal newlines and written as they are: text with a carriage return does not read
  back as written, a patch rewrites every CR LF of its file, and a search string copied with CR LF is never
  found. Reading back, and leaving the rest of the file alone, hold exactly without carriage returns.
* A completed milestone whose id is not text is stored under its JSON member name and never found again by
  a resume; text ids are always found.
* A pass that reached `plan.json` but not the memory store is executed again, although the plan file says
  completed.
* A run that completed can be relabelled cancelled by a `cancel` call that read its status as queued or
  running before it ended; that is the only way a finished run changes.
* The id lines of the event stream promise a resume point, but a live frame carries the id of the newest
  event: a client that reconnects misses exactly what was still on its way.
* Callbacks run outside the lock, so the live stream can leave log order: it is in order exactly when every
  callback is called for the oldest event still to be handed over.
* The restart reconciliation rewrites `session.json` without the lock: token totals stay exact if and only if
  no call was recorded between its read and its write.
* Clearing an API key does not delete it: the stored key comes back on saving.

## Model

| member | source | states |
|---|---|---|
| PlanOps.IndexIsLast | src/agents/plan_ops.py:47-53 | an id is indexed exactly when some milestone carries it, at its last occurrence |
| PlanOps.IndexById | src/agents/plan_ops.py:47-53 | the indexing loop yields that index |
| PlanOps.UpdateMilestone | src/agents/plan_ops.py:115-147 | an update changes one unfinished milestone's updatable fields, or fails with the source's error |
| PlanOps.InsertMilestoneAfter | src/agents/plan_ops.py:149-156 | an insertion puts a validated pending milestone right behind its anchor, or fails with the source's error |
| PlanOps.RemoveMilestone | src/agents/plan_ops.py:158-170 | a removal takes one unfinished milestone out and drops it from every dependency list, or fails |
| PlanOps.ApplyPlanPatch | src/agents/plan_ops.py:80-172 | the whole op loop applies the ops in order and fails with the first bad op's error |
| PlanAcceptance.InsertAcceptedIff | src/agents/plan_ops.py:55-76 | an insertion is accepted if and only if some milestone carries the anchor id and the new one is an object with a stripped id that is not empty and not carried, a title, and non-empty lists of target files and criteria |
| PlanAcceptance.UpdateAcceptedIff | src/agents/plan_ops.py:115-147 | an update is accepted if and only if the last milestone with its id is unfinished and it sets known fields only, at least one, target files to a list and criteria to a non-empty list |
| PlanAcceptance.RemoveAcceptedIff | src/agents/plan_ops.py:158-170 | a removal is accepted if and only if the last milestone with its id is unfinished |
| PlanAcceptance.InsertErrorIff | src/agents/plan_ops.py:55-76 | a rejected insertion gets the error for the first thing that is wrong with it |
| PlanAcceptance.UpdateErrorIff | src/agents/plan_ops.py:115-147 | a rejected update gets the error for the first thing that is wrong with it |
| PlanAcceptance.PatchErrorIff | src/agents/plan_ops.py:95-172 | a rejected patch gets the error of its first op that is not acceptable, with that op's position |
| PlanAcceptance.PatchKeepsCriteria | src/agents/plan_ops.py:59-147 | if every milestone has acceptance criteria, so has every milestone after an accepted patch |
| PlanPatchEffects.UpdateSetsFields | src/agents/plan_ops.py:115-147 | an accepted update sets exactly the given fields of the last milestone with its id, and touches nothing else |
| PlanPatchEffects.InsertFollowsAnchor | src/agents/plan_ops.py:149-156 | an accepted insertion puts the candidate, pending and with its own fields, right behind the last milestone with the anchor id; without it the plan is as before |
| PlanPatchEffects.RemoveLeavesNoTrace | src/agents/plan_ops.py:158-170 | an accepted removal takes out the last milestone with its id; no dependency list names the id afterwards, every other dependency stays, and with unique ids nothing carries it |
| PlanPatchEffects.InsertThenRemove | src/agents/plan_ops.py:149-170 | removing what was just inserted under a trimmed id nobody depends on gives the plan back |
| PlanPatchLaws.PatchAligns | src/agents/plan_ops.py:95-172 | every accepted patch is an order-keeping edit script: unfinished milestones may go, pending ones may come, the rest reappear in place, unchanged outside the updatable fields |
| PlanPatchLaws.PatchKeepsFinishedWork | src/agents/plan_ops.py:95-172 | completed milestones survive every accepted patch in order and unchanged outside `depends_on`, and none is completed by a patch |
| PlanPatchLaws.InsertKeepsIdsUniqueIff | src/agents/plan_ops.py:59-76 | one accepted insertion keeps ids unique exactly when the id as stored was not taken |
| PlanPatchLaws.PatchKeepsIdsUnique | src/agents/plan_ops.py:95-172 | a patch whose inserted ids are stored as they were checked keeps ids unique |
| PlanPatchLaws.PatchKeepsTrimmedIdsUnique | src/agents/plan_ops.py:59-76 | no accepted patch, whatever it inserts, makes two milestones carry the same trimmed id |
| PlanPatchLaws.UntrimmedIdIsInsertedTwice | src/agents/plan_ops.py:59-76 | for every untrimmed id there is a plan and an accepted patch that inserts it twice |
| PlanPatchLaws.IdsStayUniqueIff | src/agents/plan_ops.py:59-76 | inserting under an id keeps the ids of every plan unique if and only if the id is trimmed |
| PlanLint.CollectIds | src/agents/plan_lint.py:26-32 | the known ids, in plan order |
| PlanLint.CheckDependencies | src/agents/plan_lint.py:53-67 | unresolvable and self dependencies are dropped, forward ones reported |
| PlanLint.LintMilestone | src/agents/plan_lint.py:38-97 | the fixed packet, the fixes and the issues of one milestone |
| PlanLint.LintPlan | src/agents/plan_lint.py:18-99 | the loop over all milestones reports and fixes each against the ids of the whole plan and the names seen before |
| PlanLintLaws.LintIsCleanIff | src/agents/plan_lint.py:26-99 | no issues if and only if, after the fixes, every packet is complete, ids are unique and list order is a topological order |
| PlanLintReports.IssueReportedIff | src/agents/plan_lint.py:34-97 | an issue is reported if and only if some item of the plan gives reason for it, kind by kind |
| PlanLintReports.FixReportedIff | src/agents/plan_lint.py:53-76 | a fix is reported if and only if some milestone has a dependency that names no other milestone, or a target path with the prefix or not text |
| PlanLintLaws.FixKeeps | src/agents/plan_lint.py:53-76 | fixing adds and drops no field and touches nothing but the two lists it fixes: the resolvable dependencies stay, every target path loses the prefix |
| PlanLintLaws.LintAgain | src/agents/plan_lint.py:14-15 | linting again reports the same issues, and fixes nothing more exactly when no path was prefixed twice |
| PlanOrder.PatchKeepsOrder | src/agents/plan_ops.py:149-170 | patches that bring no dependencies, with ids stored as checked, keep unique ids and topological order, provided no dependency that is not text names a milestone that can be removed |
| PlanOrder.OrderSurvivesIff | src/agents/plan_ops.py:158-170 | a plan with unique ids in topological order stays so under every such patch if and only if no dependency that is not text names a milestone that can be removed |
| PlanOrder.NumberedDependencyDangles | src/agents/plan_ops.py:168-170 | a plan in which a dependency written as a number is left dangling by an accepted removal |
| PlanCompleted.PatchLeavesCompletedWhole | src/agents/plan_ops.py:158-170 | while whatever completed milestones depend on by a nameable text (not empty, no white space around it) is last carried by a completed one, accepted patches leave them wholly unchanged, dependency lists included, and keep it that way |
| PlanCompleted.CompletedAreImmutableIff | src/agents/plan_ops.py:95-172 | for every plan: no accepted patch changes a completed milestone if and only if that holds, or no milestone has an id an op could name |
| PlanCompleted.GhostDependencyIsEdited | src/agents/plan_ops.py:149-170 | a plan and an accepted patch that edits the dependency list of a completed milestone: insert what it depends on and remove it again |
| PlanCompleted.CompletedPrefixIsImmutable | src/agents/plan_ops.py:95-172 | in a topologically ordered plan, a completed prefix is beyond any planner's reach |
| Worker.RunBatch | src/agents/worker.py:440-637 | the batch loop: counting, rejection, discovery, breakers and the budget cut-off |
| Worker.RunWorker | src/agents/worker.py:184-724 | the whole tool loop of one implementer run |
| WorkerEndings.CompleteIff | src/agents/worker.py:327-397 | a run completes if and only if some reply it read signals completion with all targets and dependencies present, or its budget was used up with no target missing |
| WorkerEndings.BlockedIff | src/agents/worker.py:280-306 | a run is blocked, with this question or none, if and only if some reply it read signals just that, or, with none, the third reply in a row was not JSON or the budget was used up with a target missing |
| WorkerEndings.ScopeRequestedIff | src/agents/worker.py:312-335 | a run asks for scope if and only if some reply it read does |
| WorkerEndings.CancelledIff | src/agents/worker.py:252-262 | a run is cancelled if and only if it was to read one more reply than it got |
| WorkerLog.CallEffect | src/agents/worker.py:440-608 | one call: executed exactly if named, fitting, of an active tool and not behind a discovery; what that adds to the log, the active tools and the counts, and when it ends the batch |
| WorkerLog.TurnLog | src/agents/worker.py:430-655 | a turn executes fitting calls of tools active when it began, none after a discovery, and the contract is run exactly after a successful write while the cap allows one |
| WorkerLog.ActiveIffFound | src/agents/worker.py:514-550 | after a run a tool is active if and only if it was before, is the search itself, or was found by an executed search |
| WorkerLaws.BreakerTripsIff | src/agents/worker.py:486-502 | a run that starts below both failure caps ends at one of them exactly when it reports a tripped breaker |
| WorkerLaws.HeadIsHealthy | src/agents/worker.py:598-637 | at every model call both breakers are below their caps |
| WorkerLaws.ToolCallsBound | src/agents/worker.py:252-637 | a run counts at most the budget minus one plus what one batch can add, which the batch cap and the consecutive-failure cap limit, whatever their signs |
| WorkerLaws.AutorunsBound | src/agents/worker.py:650-655 | contract auto-runs stay within their cap |
| WorkerLaws.RunKeeps | src/agents/worker.py:457-550 | every executed tool was active when its turn began, the active set only grows, and every executed call is counted |
| WorkerLedger.RunBalances | src/agents/worker.py:464-608 | over a run, the call count, each failure count and the consecutive count are what a ledger of all counted calls says: its length, the occurrences of that failure, the failures at its end |
| WorkerLedger.TripsIffLedgerSays | src/agents/worker.py:489-501 | a first attempt ends with a tripped breaker exactly when one failure stands in the ledger as often as its cap, or as many failures as the other cap stand at its end |
| MilestoneLoop.ExecuteMilestone | src/main.py:2297-2584 | the retry loop over worker runs and verdicts |
| MilestoneEndings.HandoffIff | src/main.py:2330-2584 | each handoff is given if and only if the status of the last worker run, the verdict on it and the failure remembered before it are those it stands for: a question, a scope request with paths, an escalation or guidance ask for a replan, a bare block, a scope request without paths or a tripped breaker blocks, a repeated failure or a third cycle fails |
| MilestoneLedger.FailuresAreCounted | src/main.py:2319-2325 | the failure counts an attempt starts with are those of all calls counted in all attempts before it |
| MilestoneLedger.ToolsAreCarried | src/main.py:2316-2323 | the tools an attempt starts with are those given, those found in earlier attempts and, after the first, the search itself |
| MilestoneLaws.BreakersHoldAcrossRetries | src/main.py:2319-2325 | over all attempts at a milestone, at every model call each failure fingerprint and the consecutive count are below their caps |
| MilestoneLaws.TrippedBreakerIsNeverResumed | src/main.py:2330-2381 | a tripped breaker blocks the milestone; no further attempt is made |
| MilestoneLaws.PassIsValidated | src/main.py:2449-2480 | at most three implementer runs, and a pass means the last run's worker completed and the validator passed that run |
| MilestoneLaws.EarlyFailureRepeats | src/main.py:2539-2550 | giving up before three cycles means a non-empty failure repeated the remembered one |
| MilestoneLaws.RememberedFailure | src/main.py:2485-2550 | the remembered failure is that of the last FAIL, with only unguided replans since |
| Mission.RequestPlanPatch | src/agents/orchestrator.py:420-453 | the first acceptable of three planner replies is applied, otherwise the request fails |
| Mission.Replan | src/main.py:925-997 | the replan breakers, the patch, and the re-anchoring by id |
| Mission.FirstWithId | src/main.py:987-990 | the re-anchoring search finds the first milestone whose id is this one; a null id also matches a milestone without an id |
| Mission.PlayRound | src/main.py:884-1009 | one round of the milestone loop |
| Mission.RunMission | src/main.py:865-1023 | the milestone loop and the status it reports |
| MissionEndings.MissionCancelledIff | src/main.py:874-905 | a mission reports cancelled if and only if its rounds ran out before its plan or a milestone was interrupted |
| MissionEndings.MissionCompletedIff | src/main.py:1012-1023 | otherwise it reports completed if and only if as many rounds passed or skipped as its final plan has milestones and all of these read completed |
| MissionEndings.MissionFailedIff | src/main.py:1012-1023 | otherwise, with milestones left, it reports failed if and only if no round passed or skipped its milestone, and partial if and only if some did and it is not completed |
| MissionEndings.RememberedIff | src/main.py:886-917 | with memory on, what is remembered after a mission is what was before and the milestones that passed in it; with memory off nothing is added |
| MissionPatches.TakenIff | src/agents/orchestrator.py:420-453 | the operations a replan applies are those of the first acceptable reply among the first three |
| MissionLaws.MissionRoundsBound | src/main.py:874-1009 | rounds are at most (replanned milestones x budget + 1) x longest plan, and each costs at most three implementer runs, for every planner |
| MissionLaws.MissionTerminates | src/main.py:874-1009 | if the patches applied draw ids from a finite set U and the replan budget is B, every mission ends within (B x size of U + 1) x size of U rounds |
| MissionLaws.CompletedIsEarned | src/main.py:1012-1023 | reported completed implies that every final milestone passed, was remembered, or was completed at the start, and that as many passes were counted as there are milestones |
| MissionReplans.PlannerIsAskedSparingly | src/main.py:925-959 | in a whole mission the planner is asked about one milestone at most as often as the budget allows, and never twice with the same fingerprint |
| MissionOrder.AnchoredOpIff | src/main.py:985-997 | accepted updates and removals leave the milestone in hand where it is, or gone with finished work before it; an accepted insertion does if and only if it goes in behind that milestone (at its place or behind once it is gone, its own id only at its place) under an id not in use |
| MissionOrder.AnchoredPatch | src/main.py:985-997 | so does a whole patch of such operations |
| MissionOrder.HeadIsInStep | src/main.py:874-997 | if all patches that are applied are such, then at every loop head everything before the current milestone is done and counted; replies rejected or not used do not matter |
| MissionOrder.WalkedOffIffCompleted | src/main.py:985-1023 | under such patches completed is reported exactly when the loop walks off the end of its plan |
| MissionLimits.FreshIdsNeverEnd | src/main.py:926-959 | a planner that always replaces the current milestone by one with a new id keeps the loop going for any number of rounds |
| MissionSkips.InsertedIsPassedByIff | src/main.py:985-997 | with finished work before the head, inserted work is behind the loop afterwards if and only if it went in before the milestone in hand, or before its place if that is gone |
| MissionSkips.PassedByForGood | src/main.py:874-997 | what the loop has passed by is passed by at every later head, as long as the patches applied insert nothing before the head and do not bring its id back |
| MissionSkips.InsertedBeforeHeadIsSkipped | src/main.py:985-1023 | under such patches work inserted before the milestone in hand is never current again, and while it is in the plan the mission is not reported completed |
| MissionLimits.SkippingRun | src/main.py:985-1023 | an example: one run in which a milestone is inserted before the current one and the mission walks off its plan as partial |
| MissionReruns.FinishedWorkIsRerunIff | src/main.py:874-917 | from any state, rounds that pass send the implementer out for finished work at some point if and only if there is finished work from the head on that memory does not answer for when the loop gets there |
| MissionReruns.FinishedAheadIff | src/main.py:985-997 | with exactly the work before the head finished, an accepted patch makes the loop continue at or before finished work if and only if it leaves the milestone in hand before a completed one, or, once that is gone, any unfinished milestone before a completed one |
| MissionReruns.ReplanRerunsIff | src/main.py:874-997 | so after a replan, without memory, rounds that pass execute finished work again at some point if and only if the patch does that |
| MissionReruns.SomeCutRerunsIff | src/main.py:874-997 | a whole run without memory, cut off anywhere and continued with passing rounds, executes finished work again for some cut if and only if some patch it applied put finished work at or behind the head |
| MissionReruns.FinishedWorkMayRunAgain | src/main.py:985-997 | an example: one run in which moving the current milestone up makes the loop run a finished milestone again |
| MissionReruns.ReplacementRunsFinishedWork | src/main.py:985-997 | an example of the other way: the current milestone is replaced by one further up, and the loop, staying at its position, runs the finished milestone that moved there |
| MissionReruns.FinishedWorkIsNotRunAgain | src/main.py:874-997 | under patches that stay behind the current milestone, finished work is never run again |
| MemoryStore.MissionMemory.LogMilestoneState | src/memory_layer.py:159-190 | a milestone's state is stored under its plan and key; everything else stays |
| MemoryStore.MissionMemory.CheckResumePoint | src/memory_layer.py:192-210 | looks up under the plan, or in the legacy part without one |
| MemoryStore.MissionMemory.LogCompilationFailure | src/memory_layer.py:277-286 | appends a failure and keeps the last fifty |
| MemoryStore.FindsTheLastLog | src/memory_layer.py:358-378 | a look-up returns what was logged last for that milestone under that plan, whatever else was logged, and nothing if nothing was |
| MemoryStore.ErrorLogIsTheTail | src/memory_layer.py:277-316 | the error log is always the last fifty failures since it was cleared |
| RecoveryLaws.ConsistentAlways | src/main.py:884-917 | over every sequence of runs, crashes and resumes the memory store holds exactly what the log says was recorded |
| RecoveryLaws.SkippedMeansPassed | src/main.py:886-901 | a milestone is skipped only if one with its key passed earlier under the same plan id |
| RecoveryLaws.RecordedIsNotExecutedAgain | src/main.py:886-904 | a text id whose completion reached the memory store is never executed again by a resume of that plan that has memory on |
| RecoveryLaws.OnlyACrashRepeatsWork | src/main.py:2455-2458 | a passed milestone is executed again by a resume only if the run crashed before recording the pass |
| RecoveryLaws.RoundIsRefined | src/main.py:874-1009 | without a crash, the small steps of a round are one round of the mission loop, with the memory that is on disk |
| RecoveryLimits.FiledButNotRecordedRunsAgain | src/main.py:2633-2646 | a pass in the plan file but not in the memory store is repeated after a crash, for every id that can be looked up |
| RecoveryLimits.NeverRepeatedIff | src/memory_layer.py:204-209 | "never executed again once recorded" holds for an id that can be looked up if and only if it is text |
| RunQueueLaws.InvariantAlways | src/api/run_queue.py:341-551 | the queue, record, request and seriality invariants hold along every schedule |
| RunQueueCancel.ServedInOrder | src/api/run_queue.py:406-551 | runs are taken in the order put, those handed to the runtime are handed over in that order, none twice and at most one at a time; only the current run reads running, and every finished run has a final status in memory and on disk |
| RunQueueResults.RuntimeResultIsRecorded | src/api/run_queue.py:438-549 | when the worker is through with a run, its record says, in memory and on disk, how the runtime call ended, or cancelled; and exactly how it ended if no call of cancel was made for it |
| RunQueueResults.CheckDecides | src/api/run_queue.py:464-506 | the post-run check decides between cancelled and what was returned by the requests on record then, and the record says so in the end unless a call of cancel marks the run later |
| RunQueueResults.FailedStartIsRecorded | src/api/run_queue.py:520-549 | a run whose start fails ends as error, or cancelled |
| RunQueueCalls.CancelReturns | src/api/run_queue.py:341-393 | every call of cancel returns or is refused within seven steps of its own |
| RunQueueCalls.RefusedIff | src/api/run_queue.py:341-350 | a call of cancel is refused if and only if the status it looked at was final |
| RunQueueCalls.ReturnedCancelReadsCancelled | src/api/run_queue.py:352-366 | once a call of cancel returned while its run waits, the run reads cancelled |
| RunQueueCalls.ExecutingRunIsLeftAlone | src/api/run_queue.py:367-379 | cancelling a run that is being executed leaves its record alone |
| RunQueueCalls.ShutdownStopsStarts | src/api/run_queue.py:395-409 | from a call of shutdown on at most one more run starts, and none if the worker was at its loop head |
| RunQueueCancel.CancelledBeforeTakenNeverRuns | src/api/run_queue.py:426-432 | a run whose request is on record before the worker takes it never reaches the runtime and ends cancelled |
| RunQueueCancel.ReturnedCancelHolds | src/api/run_queue.py:341-393 | a cancel that returned while its run was waiting keeps the run from the runtime |
| RunQueueCancel.CancelledBeforeCheckNeverCompletes | src/api/run_queue.py:464-549 | a request on record before the post-run check makes the final status cancelled or error, now and later |
| RunQueueCancel.FinishedStatusChangesIff | src/api/run_queue.py:374-379 | a finished run can change its status if and only if it is not cancelled and some cancel call already read its status as queued or running |
| RunQueueCancel.CompletedRunCanBeRelabelled | src/api/run_queue.py:374-379 | a schedule from the start in which a completed run can still become cancelled |
| RunQueueCancel.FinishedIsOnDisk | src/api/run_queue.py:531-549 | a finished run's status in memory is the one on disk, unless a cancel call is between writing its verdict and persisting it |
| RunQueueCancel.AtMostOneMoreStart | src/api/run_queue.py:395-409 | after the shutdown flag at most one more run starts, and none if the worker was at its loop head |
| RunQueueCancel.ShutdownDrains | src/api/run_queue.py:395-416 | once every sentinel is put the worker leaves within fourteen of its own steps |
| RunRegistries.RunRegistry.Create | src/api/run_queue.py:125-154 | a new run is queued in memory, in its session's list and on disk |
| RunRegistries.RunRegistry.Get | src/api/run_queue.py:156-178 | the record in memory, else the one on disk, which is then indexed |
| RunRegistries.RunRegistry.Update | src/api/run_queue.py:189-192 | one record changes, in memory and on disk |
| RunRegistries.RunRegistry.ReconcileStaleRuns | src/api/run_queue.py:194-239 | exactly the orphaned runs are cancelled, in memory and on disk |
| EventStream.AccountedAlways | src/events.py:141-202 | each event's copies sent, to be replayed, queued and on their way add up to one for the history and one for the subscription |
| EventStream.DeliveredOnceOrTwice | src/api/sse.py:58-74 | once nothing is pending, every event from the requested index on was sent once or twice, twice exactly if written between subscribe and the history read |
| EventStream.InLogOrderIff | src/events.py:141-149 | for any number of emitters, while the client is connected: what it was handed over live is the log since its subscription, in order and without gaps, if and only if every callback was called for the oldest event still to be handed over |
| EventStream.CalledInOrderIsInOrder | src/api/sse.py:58-74 | in that case the client sees the history and then the stream, each in log order without gaps |
| EventStream.OneEmitterIsInOrder | src/api/sse.py:58-74 | a single emitter is such a case |
| EventStream.TwoEmittersCanCross | src/events.py:141-149 | an example: two emitters put the stream out of log order |
| EventStream.ReconnectMissesIff | src/api/sse.py:72-74 | of the events up to the id of its last frame, a client that reconnects behind that id misses exactly those that were still queued or on their way |
| EventStream.LeavingTheReplayMissesNothing | src/api/sse.py:58-64 | a client that leaves during the replay has been sent every requested event up to the id of its last frame |
| EventStream.DisconnectEnds | src/api/sse.py:75-77 | after a disconnect nothing more is sent and no event written later is handed over |
| EventStream.ReconnectCanMiss | src/api/sse.py:72-74 | a schedule in which the first live frame carries the second event's id |
| Briefs.CapItems | src/agents/briefs.py:46-58 | the list loop keeps the first twelve distinct non-empty capped texts |
| Briefs.EnforceBudget | src/agents/briefs.py:70-90 | the trimming loop, with its goal-shortening branch |
| BriefLaws.CapIsFinal | src/agents/briefs.py:39-43 | capped text is within its limit, and capping again, even to more, changes nothing |
| BriefLaws.SplitAtSpace | src/agents/briefs.py:39-43 | the words of a text are those before and those behind any white space in it |
| BriefLaws.CapListSettles | src/agents/briefs.py:46-58 | a capped list has at most twelve distinct capped items of its input, and capping it again changes nothing |
| BriefLaws.EnforcedFits | src/agents/briefs.py:70-90 | any brief, normalised or not, encodes to at most 4000 characters afterwards |
| BriefLaws.EnforcedTrims | src/agents/briefs.py:74-88 | lists keep prefixes, a later list is trimmed only once the earlier are empty, and a goal of at most 600 characters is never shortened |
| BriefLaws.EnforcedIsMaximal | src/agents/briefs.py:74-89 | with the item dropped last put back, the brief would not fit |
| BriefLaws.NormalizedIsSettled | src/agents/briefs.py:61-90 | every payload normalises to a fitting brief, trimmed in order and no further than needed, that normalises to itself |
| BriefLaws.NormalizedComesFrom | src/agents/briefs.py:61-67 | the goal and each list come from the payload's member of that name: the goal capped, of the list the capped texts up to twelve, fewer only for the budget |
| BriefLaws.LongGoalIsShortened | src/agents/briefs.py:81-88 | a goal is shortened only if it does not fit on its own, to half but no less than 40 characters, then to 80 |
| BriefEncoding.EncodedReadsBack | src/agents/briefs.py:73-89 | the encoding whose size is bounded reads back as the brief |
| BriefEncoding.EncodedTakes | src/agents/briefs.py:73-89 | and takes 94 characters and what JSON needs for each character of the texts |
| BriefLaws.SaveThenLoad | src/agents/briefs.py:93-109 | loading returns exactly what saving returned |
| TokenUsage.MergeTokenUsage | src/session_usage.py:25-36 | the two merge loops compute the pointwise maximum of what each part reads as |
| TokenUsage.SessionStore.RecordSessionTokens | src/session_usage.py:39-78 | one call is added to what the file says |
| TokenUsage.SessionStore.SaveMeta | src/session.py:291-326 | file and session object get the maximum of both totals, the other fields come from the object |
| TokenUsage.SessionStore.UpdateStatus | src/session.py:286-289 | the new status is persisted, and totals never go down |
| TokenUsage.SessionStore.LoadSession | src/session.py:244-257 | a fresh session object with the totals on file |
| TokenUsageLaws.MergeIgnoresOrder | src/session_usage.py:25-36 | the merge ignores the order of its parts, repetition and absent parts |
| TokenUsageLaws.LeastUpperBound | src/session_usage.py:25-36 | the merge is the least total above all its parts |
| TokenUsageLaws.TotalsAreExact | src/session.py:291-326 | under every interleaving of recordings, loads and stale saves the file holds the sum of all calls and dominates every copy |
| TokenUsageNumbers.SumIs | src/session_usage.py:39-66 | the totals of calls are the sums of their positive prompts and generations, their number, and how many were estimated |
| TokenUsageNumbers.DecimalReadsBack | src/session_usage.py:29-36 | every integer reads back from its decimal text |
| TokenUsageNumbers.NumberIff | src/session_usage.py:29-36 | text counts as a number if and only if, stripped, it is digits with single underscores between them behind at most one sign |
| TokenUsageLaws.UnlockedRewriteIsExactIff | src/api/run_queue.py:227-237 | the rewrite without the lock leaves the totals exact if and only if no call was recorded in between |
| FilePolicy.FileTools.BeginMilestone | src/tools/file_ops.py:57-80 | the targets, the new tests among them, and empty tracking sets |
| FilePolicy.FileTools.ReadFile | src/tools/file_ops.py:164-218 | the selected lines of the text with line endings translated, and the read is remembered |
| FilePolicy.FileTools.WriteFile | src/tools/file_ops.py:225-290 | refused for the first reason that applies, otherwise exactly this file is written and, if new, remembered as created |
| FilePolicy.FileTools.PatchFile | src/tools/file_ops.py:297-358 | refused, or the one match in the text with line endings translated is replaced and that text written |
| FilePolicyAnswers.WriteReplyIff | src/tools/file_ops.py:225-290 | what a write answers: the first refusal that applies, read first, a system error, or saved |
| FilePolicyAnswers.PatchReplyIs | src/tools/file_ops.py:297-358 | what a patch answers and does |
| FilePolicyAnswers.SelectedIs | src/tools/file_ops.py:203-211 | which lines a read gives for an offset and a limit, whatever their signs |
| FilePolicyAnswers.NormalizeIs | src/tools/paths.py:59-66 | a path is kept the same with or without the workspace prefix, a leading slash or "./" |
| FilePolicyLaws.PolicyHolds | src/tools/file_ops.py:57-142 | over any calls of a milestone: files outside its targets and existing tests stay byte-identical, nothing changes in a read-only session, and the created set is exactly what is new |
| FilePolicyLaws.LargeFileWasRead | src/tools/file_ops.py:256-274 | an existing file of more than sixty lines is overwritten without the flag only after a read in the same milestone |
| FileTextLaws.ReadAfterWriteIff | src/tools/file_ops.py:200-290 | the next whole read gives exactly what a write or patch stored if and only if it holds no carriage return, and otherwise gives it with line endings translated |
| FileTextLaws.PatchReplacesTheOnlyMatch | src/tools/file_ops.py:329-349 | a patch goes through exactly when the search string occurs in the text as read and does not occur again behind its first occurrence, and replaces just that |
| FileTextLaws.PatchTouchesOnlyItsMatchIff | src/tools/file_ops.py:329-349 | an accepted patch changes nothing outside its match if and only if the file holds no carriage return |
| FileTextLaws.ReturnsAreNeverFound | src/tools/file_ops.py:329-339 | a search string with a carriage return is never found, in any file |
| FileTextLaws.LineEndingsChange | src/tools/file_ops.py:200-349 | an example: text written with CR LF reads back with LF, and a patch of its first line rewrites the line ending |
| Lines.LinesAre | src/tools/file_ops.py:202-202 | the lines of a text are together the text, each one line with its break, CR LF not torn apart |
| Lines.UniversalIs | src/tools/file_ops.py:201-201 | text-mode reading turns CR LF, and a CR before anything else, into LF and leaves the rest |
| FileTextLaws.WindowsTile | src/tools/file_ops.py:203-211 | consecutive windows give the lines without gap or overlap, and reading whole gives the file with line endings translated, unchanged exactly if it holds no carriage return |
| DiffFilter.FilterSensitiveDiff | src/tools/git_ops.py:16-46 | the one-pass filter equals splitting at headers, dropping the sensitive sections and concatenating |
| DiffFilter.FilterTwice | src/tools/git_ops.py:16-46 | filtering the filtered text changes nothing, and its sections are the kept sections |
| DiffFilter.NothingSensitiveLeft | src/tools/git_ops.py:26-44 | no section of the result is sensitive, and every one is a section of the input |
| DiffFilter.HeaderSensitiveIff | src/tools/git_ops.py:30-37 | a header that names two plain paths is sensitive if and only if one of them is |
| DiffFilter.SectionStaysIff | src/tools/git_ops.py:22-44 | a section with such a header and no marker lines stays if and only if neither path is sensitive |
| DiffFilter.NoSensitiveNameStays | src/tools/git_ops.py:26-44 | no section that stays names a sensitive plain path, on either side of its header or on a marker line |
| Settings.DeepMerge | src/settings/store.py:515-527 | the recursive merge loop over the members of the patch |
| Settings.MergeIsIdentityIff | src/settings/store.py:515-527 | a patch changes nothing if and only if everything it sets is already there |
| Settings.MergeTwice | src/settings/store.py:515-527 | applying a patch twice is applying it once, for all nested values |
| Settings.MergeLeavesPathIff | src/settings/store.py:515-527 | a patch leaves what is at a path, present or not, as it was in all settings if and only if it is silent about the path, where models_by_role speaks for everything below it |
| SettingsStore.Store.InjectSecrets | src/settings/store.py:395-404 | the injection loop over the providers |
| SettingsStore.Store.ExtractSecrets | src/settings/store.py:407-414 | the extraction loop over the providers |
| SettingsStore.Store.SaveSettings | src/settings/store.py:454-475 | what both files and the returned settings are after saving |
| SettingsStore.Store.LoadSettings | src/settings/store.py:417-451 | what a load rebuilds from both files |
| SettingsStore.LoadAfterSave | src/settings/store.py:454-475 | a load rebuilds exactly the settings saving returned, and the settings file holds no key |
| SettingsStore.SaveAfterLoadIff | src/settings/store.py:417-475 | for any two files, saving what was loaded changes neither if and only if the settings file holds no key and has a path, and no stored secret is empty |
| SettingsStore.SaveAfterLoad | src/settings/store.py:454-475 | so saving again what a save returned, which is what a load rebuilds, changes neither file |
| SettingsStore.ProviderSecretIs | src/settings/store.py:407-414 | the secret extracted for an id is that of its last provider with a key |
| SettingsStore.NamesAndFlags | src/settings/store.py:395-414 | keys are stored under "qdrant" and "provider." with the id, and a key flag says whether there is a key |
| SettingsStore.ClearedKeyComesBack | src/settings/store.py:461-474 | a provider saved without a key gets the stored one back |
| RankFusion.AddRanking | src/tool_registry.py:469-473 | the score loop adds each ranking's reciprocal ranks, with the candidates in order of first appearance |
| RankFusion.Fuse | src/tool_registry.py:468-475 | both score loops into one table, the stable sort and the cut give the fused ranking |
| RankFusion.FusedIsTop | src/tool_registry.py:468-482 | the result lists distinct candidates in non-increasing score, as many as asked for, and leaves out none that beats one it lists |
| RankFusion.SortIsStable | src/tool_registry.py:475 | ties keep the order in which the candidates were met |
| RankFusion.DominanceIsKept | src/tool_registry.py:468-482 | a skill that beats another in both rankings is listed above it |
| RankFusion.BothBeatOneIff | src/tool_registry.py:468-475 | a skill that both rankings list at one rank outscores one that a single ranking lists first if and only if that rank is at most the fusion constant |
| Bm25.RebuildStats | src/tool_registry.py:506-530 | document frequencies are exact and between 1 and N, and tokens are numbered from 0 without gaps |
| Bm25Weights.IdfIsPositive | src/tool_registry.py:547-550 | the idf logarithm is taken of a number above one, larger for rarer tokens |
| Bm25Weights.IdfRatioIs | src/tool_registry.py:547-550 | that number is (N + 1) / (df + 0.5) |
| Bm25Weights.TfNormSaturates | src/tool_registry.py:551-553 | the frequency factor lies strictly between 0 and k1 + 1 |
| Bm25Weights.TfNormIs | src/tool_registry.py:551-553 | it is 2.5 tf / (tf + 0.375 + 1.125 len / avg), an average below one counting as one |

## Left out

- Model calls, prompts, JSON repair, telemetry, Cognee, Qdrant and the encoders: their replies are arbitrary inputs, and when a sequence of replies runs out the run counts as cancelled.
- Subprocesses, the sandbox, git commands, sockets, browser checks, the API routers and the user interface.
- Tool argument schemas, failure fingerprints and the normalised failure text: each call brings its own as an input.
- Floating point: JSON numbers are integers, and rank and BM25 scores are exact reals.
- `str()` of a list or an object used as an id or a text: only its brackets are kept. List and object ids make the source raise TypeError when they are looked up or used as a key; that error is not modelled, and neither is `True == 1`.
- A part of `merge_token_usage` that is neither absent nor an object makes the source raise AttributeError; parts are optional objects here.
- MilestoneNotAnObject: a plan with a list entry that is not an object makes the source raise AttributeError when it is indexed; the model returns this error in its place.
- Aliasing between the patched plan and its input: the source works on a deep copy, the model on values, so an unchanged input on rejection is not stated.
- Text is a sequence of characters; `lower()` covers ASCII letters, and number texts in token totals cover ASCII digits.
- The hotfix and review routes, plan and ask modes, and the drafting of plans: a mission starts from any plan, and linting or repair before it may have rewritten it.
- How an `auto` request becomes a new, repair or resume run: a run starts with its kind.
- Partial file writes: each write is one step, and stored JSON reads back equal.
- `RunRegistry.list_for_session`: it loads lazily only when nothing is in memory, so its completeness after a restart is not decided by the code.
- The message log of the run queue, and run result payloads: only the status of a run is modelled.
- RunQueueLaws.InvariantAlways: models the worker thread and the API threads as steps on values, one shared read or write each; exceptions other than `Exception` and a dying process end the model's schedule.
- RunRegistries.RunRegistry.Create: assumes that a fresh run id is not in use, as the source's random ids are taken to be; Update is called for a known run of the same session, and ReconcileStaleRuns at start-up, before anything is in memory.
- FilePolicyLaws.PolicyHolds: assumes that resolving a resolved path leads nowhere else, so no symbolic link appears at a target meanwhile.
- MilestoneLaws.BreakersHoldAcrossRetries: assumes a consecutive-failure cap of at least one; with a smaller one even no failure is at the cap.
- EventStream.DeliveredOnceOrTwice: models one emitter object; a second emitter object on the same file would not notify the connection.
- FileTextLaws.ReadAfterWriteIff: the line separator of the platform is LF, so writing translates nothing; characters that cannot be encoded are not modelled.
- FilePolicy.FileTools.WriteFile: directories and undecodable files appear only as file system failures, which leave everything unchanged.
- RankFusion.AddRanking: a negative `rrf_k` can make the source divide by zero; it is a natural number here.
- SettingsStore.Store.LoadSettings: the migration from `.env` and the environment overlay are not modelled; a settings file is assumed to exist.
