# Organisation layer: verified model

This project models the part of TradingOS that turns an objective into work and keeps a record of it,
and proves what that part guarantees.

- **Planning** (`vocabulary`, `graphs`, `plan_graph`, `plans`, `safety_order`, `scaffold*`, `planner`, `plan_witnesses`).
  An untrusted plan is checked for cycles by a depth-first search and for the mandated safety order by a
  transitive closure computed in place, extended by two scaffolds, checked again and stored.
- **Execution** (`task_rows`, `row_effects`, `engine_*`, `artefact_invariant`, `task_engine`, `scheduler_*`,
  `task_levels`, `run_completion`, `run_scheduler`, `crash_recovery`). The plan runs in waves with conditional claims,
  timeouts whose dispatches go on as orphans, bounded retries, hand-overs, blocking and escalation.
- **Lifecycle** (`run_manager`, `approvals`, `decision_races`, `parked_runs`). Runs are queued under a cap, parked, settled
  after a human decision and recovered after a crash.
- **Records** (`audit`, `audit_archive`, `ledger`, `events`, `lock_order`). A hash-chained audit log, its write-once
  archive and the gap-free event log, written by concurrent transactions that may abort.
- **Edges** (`circuit_breaker`, `rate_limit`). The broker circuit breaker, interleaved at every await, and
  the fixed-window rate limiter over a store with expiring keys.

## How it is built

`task_rows` says what each committed transaction does to the tables, as functions on rows. The code that
does it step by step is a method with loops over the same rows, proved equal to the function, and
`row_effects` and `scaffold_contents` say once more, field by field, what the functions do. Everything
else is proved about the functions: `engine_machine` lets any enabled transaction come next, so that its
invariants hold in every interleaving of one process, with timeouts, late reports, cancellations and
crashes; `scheduler_loop` is the loop itself, fresh or resumed after a crash, with timeouts and with a pool
that may interleave starts and ends in any order.

Assumptions: one process and one scheduler loop per run; agents are not switched on or off during a run;
every dependency row is hard, as the planner stores them; a transaction is atomic, except where its
steps interleave (`ledger`, `lock_order`, `decision_races`); advisory locks are mutexes released at its end; a crash ends every dispatch before recovery starts. The hash is an injective
function of the canonical payload and the previous hash whose values differ from the genesis value.
Handlers, clocks and brokers are parameters: any typed result, error or time is possible.

## Where the code does less than it says

Each of these is a lemma or method with a concrete run or an exact condition.

- A failure is propagated to direct dependents only. A task two steps behind stays waiting, and the run is
  parked as waiting instead of failed (`SchedulerInvariant.LeftWaitingIff`,
  `RunScheduler.ParkedDespiteFailureIff`, `CrashRecovery.FailureTwoStepsAhead`); the comments at
  `src/orchestration/task_engine.py:101-104` and `src/orchestration/task_engine.py:277-279` say otherwise.
- The error handlers ignore the status, so the late error of a dispatch that timed out or was cancelled
  reopens its task although the dependents are blocked already (`EngineRuns.EndedReopensIff`) and can
  make the windows of two tasks that must run alone overlap (`EngineWindows.RunKeepsWindowsIff`,
  `EngineWindows.LateErrorOverlapsWindows`).
- Crash recovery fails a task without blocking its dependents (`EngineRuns.FailuresPropagateIff`,
  `CrashRecovery.ResumeReapedRun`) and writes no event (`EventLog.ReaperKeepsReplayIff`).
- The loop ignores the status of its run: a run cancelled meanwhile is completed, failed or set back to
  waiting by it (`RunCompletion.CancelledRunIsClosedAgain`), and the cap can be exceeded
  (`RunManager.CapHoldsIff`, `RunManager.CancelledRunExceedsCap`). A cancellation writes no task event
  (`EventLog.CancelKeepsReplayIff`).
- A repeated safety stage is represented by its last task only
  (`SafetyOrder.AcceptanceMeansFullOrderIff`), a dependency listed twice passes validation and fails in
  storage (`Planner.Persist`), and a planned assembly task leaves added context unused
  (`ScaffoldResults.AddedContextIsUsedIff`).
- Settling after an approval looks neither at failed tasks nor at whether the run is parked
  (`ParkedRuns.SettlingARunningRunHidesFailure`). For a parked run it is right unless the run was cancelled
  while its loop was running and an orphaned dispatch reports an error after that
  (`ParkedRuns.SettlingStaysSoundIff`, `ParkedRuns.SettlingACancelledRunHidesFailure`).
- An approval reads its request without a lock, so two decisions can both be recorded
  (`DecisionRaces.DecidedTwiceIff`).
- An audited emit takes the run lock before the chain lock. An approval takes them the other way round, and so
  does the opening of a paper-trading approval (`src/api/routers/agents.py:1010-1038`); the check for stalled
  runs asks for the next run's lock while it holds the chain
  (`LockPrograms.OneIsSafeIff`, `LockPrograms.StallCheckIsSafeIff`,
  `LockOrder.EmitAndApproveDeadlock`).
- A truncated audit log passes verification and the archive check (`AuditArchive.RemovalIsReportedIff`).
- An order can reach both brokers, exactly if there is a fallback (`CircuitModel.DoublePlacementIff`,
  `CircuitModel.PlacedTwiceIff`).
- An increment that arrives after its key has expired starts a new count (`RateLimit.GrantedIsCappedIff`).
- Queued runs are promoted only when the process starts (`src/orchestration/run_manager.py:264`), so a new
  run can overtake them (`RunManager.NobodyIsOvertakenIff`), which a promotion after every end would prevent
  (`RunManager.NobodyIsOvertaken`); a promotion does not renumber those it leaves
  (`RunManager.PromoteKeepsPositionsIff`, `RunManager.PositionsCollideIff`).

## Model

| member | source | states |
|---|---|---|
| Registry.FindByCapability | src/orchestration/capability_registry.py:157-163 | lists exactly the enabled agents that declare the capability |
| Registry.ResolvedAgentIsKnown | src/orchestration/planner.py:100-114 | the agent given to a scaffold task passes validation exactly when some enabled agent declares the capability |
| Registry.ResolvesTo | src/orchestration/planner.py:100-114 | the historical agent is kept while it declares the capability, else the first enabled agent in registry order that does takes its place |
| Registry.ResolvesToFallback | src/orchestration/planner.py:111-114 | with no such agent the historical one is named all the same |
| Registry.SafeCapabilities | src/orchestration/capability_registry.py:77-90 | the capabilities whose tasks may run beside others are exactly these ten |
| Registry.KnownNamesAreRowNames | src/orchestration/planner.py:349 | an agent the validator knows is enabled |
| PlanGraph.CycleCheck.Visit | src/orchestration/planner.py:226-235 | one depth-first visit either finishes the node with the stack restored or finds a node that reaches itself |
| PlanGraph.AssertAcyclic | src/orchestration/planner.py:221-238 | terminates; accepts exactly the acyclic graphs with a topological order of all keys, and rejects with a node that reaches itself |
| PlanGraph.Widen | src/orchestration/planner.py:256-258 | one entry of the table is widened to itself and its entries' entries, and to nothing else |
| PlanGraph.Sweep | src/orchestration/planner.py:254-261 | a sweep in place stays within reachability; it connects a new pair, or finds every entry closed |
| PlanGraph.TransitiveClosure | src/orchestration/planner.py:249-261 | the fixpoint computed in place terminates, and each entry is exactly the set of tasks reachable over one or more dependencies |
| Planner.CollectStages | src/orchestration/planner.py:245-246 | each present safety stage once, in mandated order, standing for the last task that has it |
| Planner.AssertSafetyOrder | src/orchestration/planner.py:241-267 | checking neighbours only accepts exactly the plans whose stages are all ordered; a rejection names a pair that is not |
| Planner.Validate | src/orchestration/planner.py:192-218 | accepts exactly the plans that meet the rules one by one: at least one task, unique keys, agents that declare what they are given, dependencies on other tasks of the plan, no cycle, and for each of the ten pairs of stages the last task of the later one depending on the last task of the earlier one; a rejection names something that is really wrong |
| SafetyOrder.StageOrderIsMandated | src/orchestration/planner.py:41-48 | the order the validator checks is code validation, compliance check, backtesting, strategy evaluation, risk assessment |
| PlanWitnesses.EvaluationBeforeRiskIsAccepted | src/orchestration/planner.py:41-48 | a plan of one evaluation and one risk assessment that waits for it is accepted |
| PlanWitnesses.RiskBeforeEvaluationIsRejected | src/orchestration/planner.py:262-267 | the same two the other way round are rejected for the safety order |
| Planner.CheckTask | src/orchestration/planner.py:201-215 | a task is accepted exactly when its agent is known and declares its capability and its dependencies are other tasks of the plan |
| SafetyOrder.FullOrderIsAccepted | src/orchestration/planner.py:241-267 | a plan whose safety tasks are all ordered is accepted |
| SafetyOrder.AcceptedSingleStagesAreFullyOrdered | src/orchestration/planner.py:241-267 | with one task per safety stage, acceptance puts every earlier stage before every later one |
| SafetyOrder.AcceptanceMeansFullOrderIff | src/orchestration/planner.py:245-267 | acceptance guarantees that no two stages run out of order, for every choice of dependencies, exactly when no stage is repeated while another is present |
| Scaffold.AppendIsValidIff | src/orchestration/planner.py:134-144 | appending a task nobody depends on keeps a plan valid exactly when its key is new and its agent and dependencies are in order |
| ScaffoldTheorems.WithContextIsValidIff | src/orchestration/planner.py:131-144 | adding the missing context tasks keeps a valid plan valid exactly when every added key is free and every added capability is served |
| ScaffoldContents.PlannedTasksAreWired | src/orchestration/planner.py:146-149 | planned tasks stay, the strategy tasks with the provider of the assembly as one more dependency |
| ScaffoldContents.OnlyMissingContextIsAdded | src/orchestration/planner.py:131-144 | behind them stands at most one task for each of the six context capabilities, only where none was planned |
| ScaffoldContents.NewsIsAdded | src/orchestration/planner.py:85-85 | a missing news task is added field by field as the table says, with no dependencies |
| ScaffoldContents.MarketIsAdded | src/orchestration/planner.py:87-87 | and a market task |
| ScaffoldContents.PortfolioIsAdded | src/orchestration/planner.py:88-88 | and a portfolio task |
| ScaffoldContents.FreshnessIsAdded | src/orchestration/planner.py:89-89 | and a freshness task |
| ScaffoldContents.SentimentIsAdded | src/orchestration/planner.py:86-86 | a sentiment task that waits for the provider of the news, planned or added |
| ScaffoldContents.AssemblyIsAdded | src/orchestration/planner.py:90-96 | an assembly that waits for the providers of all five |
| ScaffoldTheorems.WireRedirects | src/orchestration/planner.py:146-149 | wiring adds exactly the edges from the strategy tasks to the assembly task |
| ScaffoldTheorems.WiredIsValidIff | src/orchestration/planner.py:146-149 | wiring keeps a valid plan valid exactly when the assembly does not depend on a strategy task |
| ScaffoldTheorems.AddedContextReaches | src/orchestration/planner.py:84-97 | what strategy task an added context task waits for, a planned context task before it waits for already |
| ScaffoldResults.ResearchScaffoldIsValidIff | src/orchestration/planner.py:117-149 | the research scaffold keeps a valid plan valid exactly when every missing context task can be added and no planned context task that is read waits for a strategy task |
| ScaffoldResults.AddedContextIsUsedIff | src/orchestration/planner.py:131-149 | an added context task is used by a strategy task exactly when the assembly was not planned already |
| PlanWitnesses.AddedContextIsUnused | src/orchestration/planner.py:117-149 | an accepted plan with its own assembly whose added news task nobody uses |
| ScaffoldResults.StrategyReachesProvider | src/orchestration/planner.py:117-149 | without a planned assembly every strategy task transitively depends on a provider of each of the six context capabilities, planned or added |
| ScaffoldResults.AssemblyWaitsForStrategyIff | src/orchestration/planner.py:126-149 | the assembly waits for a strategy task exactly when a planned context task does already |
| ScaffoldPasses.AdhocScaffoldIsValidIff | src/orchestration/planner.py:152-189 | the ad-hoc scaffold keeps a valid plan valid exactly when its keys are free and its capabilities served |
| ScaffoldPasses.SynthesisDependsOnEveryTask | src/orchestration/planner.py:179-189 | an added synthesis task depends on every other task |
| ScaffoldContents.AdhocPlan | src/orchestration/planner.py:152-189 | exactly which tasks an ad-hoc objective adds, field by field, and that any other objective adds none |
| ScaffoldContents.SynthesisCoversContext | src/orchestration/planner.py:399-400 | the synthesis also depends on the context tasks the research scaffold has added |
| ScaffoldPasses.SecondValidationAcceptsIff | src/orchestration/planner.py:398-401 | exactly which valid plans survive the validation after scaffolding |
| ScaffoldPasses.ResearchScaffoldIsIdempotent | src/orchestration/planner.py:120-121 | the research scaffold changes nothing the second time, on every plan |
| ScaffoldPasses.AdhocScaffoldIsIdempotent | src/orchestration/planner.py:152-189 | nor does the ad-hoc scaffold |
| ScaffoldPasses.BothScaffoldsAreIdempotent | src/orchestration/planner.py:399-400 | nor do both in sequence |
| Planner.EnsureResearchScaffold | src/orchestration/planner.py:117-149 | the in-place rewrite is the scaffold function the theorems are about |
| Planner.EnsureAdhocScaffold | src/orchestration/planner.py:152-189 | the in-place rewrite is the scaffold function the theorems are about |
| Planner.TryReply | src/orchestration/planner.py:397-407 | a proposal is kept exactly when it is valid before and after scaffolding |
| Planner.GeneratePlan | src/orchestration/planner.py:343-429 | the first reply that is not rejected decides; only three rejections exhaust the planner; a plan that comes out is valid |
| Planner.Persist | src/orchestration/planner.py:324-338 | stores one row per declared dependency; fails exactly when a dependency is listed twice |
| PlanWitnesses.RepeatedDependencyIsNotStored | src/orchestration/planner.py:324-338 | an accepted plan with a dependency listed twice that is not stored |
| DependencyResolver.ReadyTasks | src/orchestration/dependency_resolver.py:48-105 | one loop over the rows makes every candidate ready or waiting by its hard rows alone and returns exactly the ready tasks; the log still replays |
| RowEffects.RefreshEffect | src/orchestration/dependency_resolver.py:48-105 | every candidate becomes ready or waiting by its hard rows, and nothing else changes |
| DependencyResolver.EvaluateOnCompletion | src/orchestration/dependency_resolver.py:108-147 | the row-by-row loop has the effect of waking, at once, every dependent all of whose hard rows are then satisfied |
| RowEffects.EvaluateEffect | src/orchestration/dependency_resolver.py:108-147 | exactly the unsatisfied rows on the task become satisfied, and exactly the open dependents whose hard rows are then all satisfied become ready |
| DependencyResolver.MarkRowsUnsatisfiable | src/orchestration/dependency_resolver.py:150-190 | the row-by-row loop kills exactly the unsatisfied hard rows of the failed task and blocks exactly its direct open dependents |
| RowEffects.EndEffect | src/orchestration/dependency_resolver.py:150-190 | a task that ends without a result kills exactly its unsatisfied hard rows and blocks exactly the open tasks they belong to |
| AgentInvoker.ConsumeUpstream | src/orchestration/agent_invoker.py:622-625 | marks exactly the artefacts of the prerequisites, each once |
| AgentInvoker.PersistArtefact | src/orchestration/artefact_store.py:45-82 | inserts exactly one artefact, with the next version of its kind, and points the task at it |
| AgentInvoker.Dispatch | src/orchestration/agent_invoker.py:610-662 | an unavailable agent or stale data writes nothing; a finished dispatch leaves exactly the marks, the inputs and one new artefact |
| RowEffects.CompleteEffect | src/orchestration/task_engine.py:173-219 | completing a task writes one artefact of the next version, marks exactly the artefacts of its prerequisites, and serves exactly the tasks it was the last to keep waiting |
| TaskEngine.ClaimTask | src/orchestration/task_engine.py:117-147 | claims exactly when the task is ready |
| TaskEngine.RunDispatchAndComplete | src/orchestration/task_engine.py:173-236 | stale data blocks the task for good and its open dependents with it; an error is retried while retries are left and then fails it; a task whose agent is not up goes to the first able agent in registry order or is escalated; a result completes a running task with everything it wrote and is rolled back with it otherwise, events included |
| TaskEngine.FinishEffect | src/orchestration/task_engine.py:173-415 | the function the theorems are about does the same to the rows, said without it |
| TaskEngine.FinishIsAMachineStep | src/orchestration/task_engine.py:173-236 | every outcome of a dispatch is the step of the interleaving model that its kind says |
| TaskEngine.HandleTaskTimeout | src/orchestration/task_engine.py:239-271 | fails the task only if it is still running |
| TaskEngine.HandleDataStale | src/orchestration/task_engine.py:274-297 | blocks the task whatever its status, and its open dependents |
| TaskEngine.HandleAgentUnavailable | src/orchestration/task_engine.py:300-374 | hands the task to the first other enabled agent, or escalates it, whatever its status |
| TaskEngine.HandleTaskFailure | src/orchestration/task_engine.py:377-415 | retries while retries are left, else fails, whatever the status |
| TaskRows.Upstream | src/orchestration/agent_invoker.py:64-78 | exactly the artefacts owned by the prerequisites |
| TaskRows.LatestVersion | src/orchestration/artefact_store.py:60-65 | the highest version of this kind the task owns |
| EngineMachine.StepKeepsConsistency | src/orchestration/task_engine.py:116-415 | every transaction, timeouts, late errors, cancellations and crashes included, keeps: a satisfied row has a completed prerequisite; ready, running, completed or dispatched tasks have only satisfied rows; at most one dispatch per task |
| EngineMachine.StepKeepsArtefacts | src/orchestration/task_engine.py:173-222 | every transaction keeps artefacts, marks and received inputs exactly in step with the completed tasks |
| EngineMachine.StepKeepsPhase | src/orchestration/task_engine.py:106-113 | every transaction keeps a task that may not run concurrently alone in its wave |
| EngineMachine.StepKeepsCounts | src/orchestration/task_engine.py:377-400 | every transaction keeps the claim count paid for by retries, one hand-over and crashes |
| EngineMachine.FirstTakeover | src/orchestration/task_engine.py:318-320 | a task is handed to the first other enabled agent in registry order that declares its capability, and escalated exactly when there is none |
| EngineMachine.UnavailableKeepsCounts | src/orchestration/task_engine.py:317-343 | a task changes hands at most once, because it goes to an enabled agent |
| EngineRuns.StartedOnlyAfterPrerequisites | src/orchestration/task_engine.py:116-135 | in every run a task can be claimed only when all its prerequisites are completed and none of its dispatches is in flight |
| EngineRuns.UnsafeTasksRunAlone | src/orchestration/task_engine.py:106-113 | in every run two tasks run at once only if both are concurrency-safe |
| EngineRuns.CompletionIsAtomic | src/orchestration/task_engine.py:173-222 | in every run a task has an artefact exactly when it is completed, and then exactly one |
| EngineRuns.ClaimsAreBounded | src/orchestration/task_engine.py:377-400 | in every run a task is claimed at most max_retries + 2 times plus once per crash that interrupted it |
| EngineRuns.TerminalIsFinalUnlessTimedOut | src/api/routers/organization.py:529-534 | a terminal status changes only by an error reported after a timeout or a cancellation, or by the cancellation of a blocked or escalated task |
| EngineRuns.OutcomeIsForever | src/orchestration/task_engine.py:116-415 | in every run a task that has ended with no dispatch in flight stays as it is, but for the cancellation of a blocked or escalated one |
| EngineRuns.SatisfiedForever | src/orchestration/dependency_resolver.py:108-147 | in every run a satisfied row stays satisfied, with its prerequisite completed |
| EngineRuns.EndedReopensIff | src/orchestration/task_engine.py:300-401 | a step opens a task again that has ended exactly when it is an error with retries left, or a missing agent that another can stand in for, reported late |
| EngineRuns.StaysEndedIff | src/orchestration/task_engine.py:150-159 | in every run a task that has ended is never open again if and only if no such report comes |
| EngineRuns.LateErrorReopensFailedTask | src/orchestration/task_engine.py:153-159 | a run in which that happens although the dependent is blocked already |
| EngineRuns.StepPropagatesIff | src/orchestration/task_engine.py:116-415 | every step leaves no open task behind a failed one, except a crash while something open waits for a running task that is not concurrency-safe |
| EngineRuns.FailuresPropagateIff | src/orchestration/run_manager.py:242-252 | in a run no open task is ever left behind a failed one if and only if every crash happens while nothing open waits for a running task that is not concurrency-safe |
| EngineRuns.ReaperLeavesDependentsWaiting | src/orchestration/run_manager.py:246-252 | a run in which a crash does leave the dependent of a failed task waiting |
| EngineWindows.StepKeepsWindowsIff | src/orchestration/task_engine.py:116-415 | a step keeps the recorded windows in order if and only if it is not a late error that ends its task with a window of a task it may not run beside across the moved end; late errors that reopen a task do no harm |
| EngineWindows.LateEndKeepsWindowsIff | src/orchestration/task_engine.py:274-415 | a late error that ends a task, by staleness, escalation or failure, keeps the windows in order if and only if no running or finished window of a task it may not run beside lies across the moved end |
| EngineWindows.RunKeepsWindowsIff | src/orchestration/task_engine.py:116-415 | in a run the recorded windows are in order at every moment if and only if every error is harmless in that sense |
| EngineWindows.OverlappingWindowsAreIndependent | src/orchestration/task_engine.py:557-573 | in every run in which no late error moves an end past such a window, overlapping windows belong to safe tasks, neither of which depends on the other directly or indirectly |
| EngineWindows.LateErrorOverlapsWindows | src/orchestration/task_engine.py:274-415 | runs from the start, with stored tasks and registered agents, in which a late report of stale data, of an agent switched off, or of an error after all retries makes the windows of two tasks that must run alone overlap |
| Handoffs.ListHandoffs | src/orchestration/handoffs.py:30-72 | the nested loops list one hand-off per artefact and consumer |
| Handoffs.HandoffsAreTheCompletedDependencies | src/orchestration/handoffs.py:30-72 | the listed hand-offs are exactly the dependencies between completed tasks, each once |
| RunCompletion.LatestCompletion | src/orchestration/task_engine.py:574-585 | the latest end of a prerequisite, if any has ended |
| RunCompletion.RecordTimings | src/orchestration/task_engine.py:557-587 | marks a task exactly when another window overlaps its own, and records the clamped wait in whole seconds |
| RunCompletion.Finalize | src/orchestration/task_engine.py:472-554 | an open task keeps the run as it is if one is ready and else parks it; once all have ended, one that did not end well fails the run, an artefact without disposition or a pending approval parks it, and else it is completed |
| RunCompletion.CancelledRunIsClosedAgain | src/orchestration/task_engine.py:472-554 | a run cancelled while its loop is running is closed by it as completed exactly when no task had failed, everything is dispositioned and nothing is pending, as failed exactly when a task had failed, and else set back to waiting |
| SchedulerInvariant.FinishKeepsScheduler | src/orchestration/task_engine.py:173-415 | after every finish each row says exactly how its prerequisite stands |
| SchedulerInvariant.TimeOutKeepsScheduler | src/orchestration/task_engine.py:239-271 | also after every timeout |
| SchedulerInvariant.ReapKeepsScheduler | src/orchestration/run_manager.py:237-252 | also after a crash at any moment; the tasks failed silently are exactly those running and not concurrency-safe |
| SchedulerInvariant.LeftWaitingIff | src/orchestration/dependency_resolver.py:150-190 | at a standstill a task waits exactly when no prerequisite announced a failure but one waits, was blocked by propagation or was failed by crash recovery |
| SchedulerProgress.AttemptKeepsScheduler | src/orchestration/task_engine.py:150-415 | a dispatch that reports or times out costs the task one claim and no other task anything, and leaves the others that are ready or running alone |
| SchedulerLoop.RunInPool | src/orchestration/task_engine.py:109-111 | the pool holds at most its size of tasks at every moment, only tasks that may run beside others, and runs each of them once; they finish in any order |
| SchedulerLoop.ExecuteAlone | src/orchestration/task_engine.py:112-113 | starts a task that must not run beside others only when nothing is at work, and lets it end before anything else starts |
| SchedulerLoop.RunWave | src/orchestration/task_engine.py:106-113 | runs every ready task exactly once, those that may run beside others first |
| SchedulerLoop.Drive | src/orchestration/task_engine.py:92-113 | with any reports and timeouts, terminates at a standstill with exact leftovers and bounded claims and keeps what had ended; if all dispatches succeed, after as many waves as the longest chain |
| SchedulerLoop.ReadyByLevel | src/orchestration/dependency_resolver.py:48-82 | in a flawless run the ready tasks of a wave are exactly the next level of the dependency order |
| TaskLevels.HighestLevelIsLongestChain | src/orchestration/task_engine.py:92-113 | the number of levels is the length of the longest dependency chain |
| RunScheduler.RunSchedulerLoop | src/orchestration/task_engine.py:72-113 | the whole loop, fresh or resumed, timeouts included: terminates, claims no task more than max_retries + 2 times, has at every moment at most the pool size of tasks at work and an unsafe one only alone, leaves exactly the described tasks waiting, and closes the run with the right status |
| RunScheduler.AcceptedPlanIsExecutable | src/orchestration/planner.py:281-340 | the rows of every accepted plan, three retries for each task and one unsatisfied hard row for each dependency, form a run the loop can start, ranked by their dependencies |
| RunScheduler.RunAcceptedPlan | src/orchestration/task_engine.py:72-113 | an accepted plan whose handlers succeed is completed in as many waves as its longest chain, unless a dependency is listed twice |
| RunScheduler.ParkedDespiteFailureIff | src/orchestration/task_engine.py:483-494 | a run with a failure is parked as waiting exactly when a task with no prerequisite that announced a failure sits behind one blocked only by propagation or failed by crash recovery |
| CrashRecovery.FailureTwoStepsAhead | src/orchestration/task_engine.py:101-104 | a run from the start, three tasks in a row, that is parked although its first task has failed |
| CrashRecovery.ResumeReapedRun | src/orchestration/run_manager.py:267-284 | a loop resumed after a crash at any moment ends like any other; a task behind one that the crash failed is left waiting exactly when none of its prerequisites announced a failure |
| AuditChain.ReadBackIsLinkedIff | src/core/audit.py:59-83 | rows written linked verify when read back from the table exactly when every address was written as the database gives it back |
| AuditChain.VerifyChain | src/core/audit.py:190-223 | accepts exactly the linked logs and reports the least row whose link or hash fails |
| AuditChain.CanonicalAgreesIff | src/core/audit.py:59-83 | two contents hash alike exactly when every column agrees: actor, action, entity, both states, prompt, the address as text and the moment in UTC |
| AuditChain.FirstBrokenIsUnique | src/core/audit.py:193-195 | there is one such row at most |
| AuditChain.SameHeadSameLog | src/core/audit.py:3-7 | two accepted logs with the same last hash are the same row for row and column for column, length included |
| AuditChain.HashesAreDistinct | src/core/audit.py:3-7 | the hashes of a linked log are pairwise distinct |
| AuditChain.ChangedContentIsReported | src/core/audit.py:190-195 | changing any column of one row reports exactly that row |
| AuditChain.RehashedRowIsReportedIff | src/core/audit.py:190-195 | changing any column of one row and rehashing it goes unnoticed exactly for the last row |
| AuditChain.RemovedRowsAreReportedIff | src/core/audit.py:190-195 | after removing rows in one place the first row behind the gap is reported, if there is one |
| AuditChain.RemovedSubsetIsReportedIff | src/core/audit.py:190-195 | removing any set of rows goes unnoticed exactly when nothing behind a removed row is left |
| AuditChain.SwappedRowsAreReported | src/core/audit.py:193-195 | swapping two rows is reported at the first of them |
| AuditArchive.Bucket.ArchivePendingRows | src/core/audit_archive.py:158-194 | archives exactly the rows from before the cutoff that are not archived yet and whose upload succeeds, replaces nothing, and counts exactly |
| AuditArchive.NothingPending | src/core/audit_archive.py:181-184 | a second cycle has nothing to do once nothing is pending |
| AuditArchive.RunDivergenceCheck | src/core/audit_chain_monitor.py:87-133 | both id lists are exact and sorted, and the report is ok exactly when the check passes |
| AuditArchive.CheckOkIff | src/core/audit_chain_monitor.py:14-28 | the check passes exactly when the live chain is linked and every archived object agrees with itself and its live row in content, hash and previous hash |
| AuditArchive.SwappedObjectIsReported | src/core/audit_chain_monitor.py:20-28 | another row's object under an id is always reported |
| AuditArchive.RemovalIsReportedIff | src/core/audit_chain_monitor.py:123-125 | removing any set of live rows is reported exactly when a later row is left |
| Ledger.StepKeepsChain | src/core/audit.py:86-147 | every step of any transaction keeps what the chain lock holder sees linked and everybody else without uncommitted rows |
| Ledger.StepKeepsSequences | src/orchestration/events.py:33-47 | every step keeps each run's committed events numbered from one |
| Ledger.CommittedLogsAreSound | src/orchestration/events.py:50-98 | after any interleaving, commits and aborts, the committed audit log is linked in id order and each run's events are 1, 2, 3, ... |
| Ledger.AbortedIdsStayUnused | src/core/audit.py:104-113 | the committed log only grows at its end; ids of aborted writers stay unused and the chain stays linked across the gaps |
| Ledger.UnlockedWritersFork | src/core/audit.py:104-109 | without the lock two writers can produce rows that do not fit in one chain |
| Events.Sessions.NextSequence | src/orchestration/events.py:33-47 | under the run's lock the next number is one more than the events seen |
| Events.Sessions.WriteAuditEntry | src/core/audit.py:86-147 | appends one row linked to the last row the session sees |
| Events.Sessions.Emit | src/orchestration/events.py:50-98 | one numbered event and, if audited, one linked audit row whose id is returned; nothing is committed |
| Events.Sessions.Commit | src/orchestration/events.py:60-62 | makes the rows visible and releases the locks |
| LockOrder.EmitAndApproveDeadlock | src/orchestration/approvals.py:93-109 | an audited emit and an approval on the same run can wait for each other |
| LockOrder.StuckIffPairStuck | src/orchestration/events.py:38-41 | among transactions of one run each, some wait for one another exactly when one holds the lock of a run and wants the chain and one holds the chain and wants that lock |
| LockPrograms.CycleIffCanDeadlock | src/orchestration/events.py:33-98 | transactions that take the locks of any runs and the chain lock in any order can deadlock, in some interleaving with failures, exactly when some of them form a cycle of asking for a lock while holding another, with no lock held twice |
| LockPrograms.CanDeadlockIff | src/orchestration/events.py:33-98 | those of one run each exactly when two of them take a run lock and the chain lock in opposite orders |
| LockPrograms.SafeWithEmittersIff | src/orchestration/approvals.py:93-109 | such transactions never deadlock beside any audited emits exactly when none of them asks for a run lock while holding the chain lock |
| LockPrograms.OneIsSafeIff | src/orchestration/events.py:38-41 | a transaction that takes the locks of any runs never deadlocks beside any audited emits exactly when it never asks for a run lock while holding the chain lock |
| LockPrograms.StallCheckIsSafeIff | src/orchestration/task_engine.py:600-624 | the check for stalled runs never deadlocks beside audited emits exactly when it flags at most one run |
| CircuitBreaker.Breaker.PlaceOrder | src/brokers/circuit_breaker.py:89-93 | an open circuit within its cooldown never lets an order try the primary; one whose cooldown is over becomes half-open, failures and opening time kept; else the circuit stays as it is |
| CircuitBreaker.Breaker.PrimaryReplied | src/brokers/circuit_breaker.py:95-117 | a server error opens the circuit exactly on a half-open probe or at the threshold and reroutes then; other errors change nothing; a success closes it |
| CircuitBreaker.Breaker.Route | src/brokers/circuit_breaker.py:201-217 | the order goes to the fallback or into the queue, with one alert |
| CircuitBreaker.Breaker.AlertSent | src/brokers/circuit_breaker.py:205-217 | after the alert the fallback is tried or the admin alert raised |
| CircuitBreaker.Breaker.AlertsAccountForEveryReroute | src/brokers/circuit_breaker.py:201-231 | alerts are fallback attempts plus queued orders, and each queued order raised one admin alert |
| CircuitModel.PlacedTwiceIff | src/brokers/circuit_breaker.py:95-112 | in every run an order is with both brokers exactly when the primary took it but reported a server error that opened the circuit, and the fallback took it afterwards |
| CircuitModel.ClosingNeedsAcceptance | src/brokers/circuit_breaker.py:95-112 | in every run a circuit that is not closed is closed later only if the primary has accepted an order in between |
| CircuitModel.FailedProbeReopens | src/brokers/circuit_breaker.py:89-112 | in every run a placement admitted by an open circuit is a half-open probe, and a server error reopens the circuit at that moment and reroutes the order, whatever the threshold |
| CircuitModel.DoublePlacementIff | src/brokers/circuit_breaker.py:13-16 | for every threshold and cooldown some run leaves an order with both brokers if and only if there is a fallback |
| RateLimit.Consume | src/core/api_rate_limit.py:40-55 | one increment, one expiry of one window for the first request of a window, and the exact answer |
| RateLimit.KeysOutliveTheirWindow | src/core/api_rate_limit.py:43-46 | no key expires before its window ends, in any interleaving |
| RateLimit.CounterIsExact | src/core/api_rate_limit.py:40-47 | while a window lasts its stored counter is exactly the number of requests in it, in any interleaving |
| RateLimit.GrantedIsCappedIff | src/core/api_rate_limit.py:43-49 | exactly the first requests up to the limit are allowed in a window, for every limit, if and only if no increment finds its key expired; a limit of one is enough to tell |
| RateLimit.RateIsLimitedIff | src/core/api_rate_limit.py:1-6 | at most twice the limit is allowed in any interval as long as a window, in every trace with increments that arrive less than a given time after their windows, if and only if that time is zero |
| RateLimit.LateIncrementExceedsTwoWindows | src/core/api_rate_limit.py:36-47 | a trace with one late increment that re-creates nothing and exceeds that |
| RateLimit.PeekIsExact | src/core/api_rate_limit.py:58-72 | a peek reads exactly the requests so far and mispredicts the next one exactly at the limit |
| RateLimit.LateIncrementExceedsLimit | src/core/api_rate_limit.py:43-46 | an increment delayed past the expiry of its key breaks the limit |
| RunManager.Runs.CreateRun | src/orchestration/run_manager.py:59-112 | starts exactly when fewer runs than the cap are planned, running, waiting or stalled, and keeps the cap; a queued run gets the position behind those queued now |
| RunManager.ActiveCountIsNumber | src/orchestration/run_manager.py:48-56 | the runs counted against the cap are exactly those with one of these four statuses |
| RunManager.Runs.PromoteQueued | src/orchestration/run_manager.py:206-223 | terminates with the cap reached or the queue empty, promoting oldest first and changing nothing else |
| RunManager.Runs.Transition | src/orchestration/task_engine.py:76-81 | a change of status keeps the cap exactly when it makes no inactive run active while no slot is free |
| RunManager.CapHoldsIff | src/orchestration/run_manager.py:48-56 | in any sequence of calls the cap holds throughout if and only if no call does that |
| RunManager.CancelledRunExceedsCap | src/orchestration/task_engine.py:76-81 | a sequence of calls that does: the loop of a cancelled run sets it to running or waiting |
| RunManager.Runs.ReapIncompleteRuns | src/orchestration/run_manager.py:226-264 | resets the running tasks of exactly the active runs and reports exactly those runs |
| RunManager.CreateOvertakesIff | src/orchestration/run_manager.py:69-88 | a new run starts ahead of a queued one exactly when it finds a free slot and a queue |
| RunManager.NobodyIsOvertakenIff | src/orchestration/run_manager.py:4-5 | in any sequence of calls no run ever starts ahead of an older one if and only if no new run finds a free slot while another is queued |
| RunManager.NewRunOvertakesQueue | src/orchestration/run_manager.py:69-88 | a sequence of calls without that promotion in which it happens |
| RunManager.PositionsAreOneToN | src/orchestration/run_manager.py:73-88 | the invariant on positions says that the numbers held by queued runs are exactly 1 to n |
| RunManager.CreateKeepsPositions | src/orchestration/run_manager.py:73-88 | a new run keeps it |
| RunManager.PromoteKeepsPositionsIff | src/orchestration/run_manager.py:211-221 | a promotion keeps it exactly when it promotes nobody or empties the queue |
| RunManager.PositionsCollideIff | src/orchestration/run_manager.py:211-221 | the next run queued shares its position with a waiting one exactly when the promotion took somebody and no more than it left |
| RunManager.LeavingKeepsPositionsIff | src/api/routers/organization.py:528-535 | taking a run out of the queue otherwise keeps it exactly when nobody is queued behind |
| RunManager.QueuePositionsCollide | src/orchestration/run_manager.py:219-220 | a sequence of calls in which two queued runs share a position |
| Approvals.HasApprovedPaperRequest | src/orchestration/approvals.py:50-67 | only the latest request of a strategy counts |
| Approvals.Desk.Approve | src/orchestration/approvals.py:79-125 | decides exactly a pending request, moves a waiting strategy, changes nothing else, and settles its run: with a pending request left the run stays as it is, and with none, not over and all tasks ended, it is completed |
| Approvals.Desk.Reject | src/orchestration/approvals.py:128-181 | the same with a reason that is not blank |
| Approvals.Desk.DecideAgain | src/orchestration/approvals.py:70-76 | a decided request is never decided again |
| DecisionRaces.DecidedTwiceIff | src/orchestration/approvals.py:70-94 | in any interleaving of decisions on one request, with aborts, it is decided twice if and only if one of them read it before another committed and committed after that one |
| DecisionRaces.BothDecide | src/orchestration/approvals.py:70-94 | an interleaving in which that happens |
| Approvals.Desk.SettleRunAfterApproval | src/orchestration/run_manager.py:162-203 | completes the run exactly when it is not over, none of its requests is pending and all its tasks have ended, and else leaves it as it was |
| Approvals.Strip | src/orchestration/approvals.py:128-145 | what is left of the reason between the blanks at its ends |
| ParkedRuns.SettlingARunningRunHidesFailure | src/orchestration/run_manager.py:170-190 | a run from the start, not parked yet, that a settlement completes although its task has timed out |
| ParkedRuns.StepKeepsParkedIff | src/orchestration/run_manager.py:162-203 | a late report leaves a parked run one that may be settled exactly when it is not an error that ends a cancelled task while everything else has ended |
| ParkedRuns.SettlingStaysSoundIff | src/orchestration/run_manager.py:162-203 | in every run, cancellations included, once its loop has looked for the end and left it open, a settlement is right at every moment if and only if no such report comes |
| ParkedRuns.UncancelledSettlesWell | src/orchestration/run_manager.py:162-203 | so a settlement of a parked run that was never cancelled is always right |
| ParkedRuns.SettlingACancelledRunHidesFailure | src/orchestration/task_engine.py:528-535 | a run from the start that is cancelled, set back to waiting by its loop, and settled as completed with a blocked task |

## Left out

- EngineWindows.OverlappingWindowsAreIndependent: assumes that no late error that ends its task moves the end past a window of a task it may not run beside, because otherwise the claim can fail (`EngineWindows.LateErrorOverlapsWindows`) and the recorded windows do get out of order (`EngineWindows.RunKeepsWindowsIff`).
- RunScheduler.RunSchedulerLoop: the errors that orphaned dispatches report while the loop goes on, and cancellations, are steps of `EngineMachine` and not of the loop; with them the claim bound, the order of starts and the atomicity of completion still hold by the lemmas of `EngineRuns`, but a task may be left waiting for other reasons.
- RunScheduler.RunAcceptedPlan: assumes handlers that produce a result; other outcomes are covered by `RunScheduler.RunSchedulerLoop`.
- ParkedRuns.SettlingStaysSoundIff: covers decisions taken after the loop has parked the run, because settling earlier is not sound (`ParkedRuns.SettlingARunningRunHidesFailure`).
- Approvals.Desk.DecideAgain: one decision at a time; concurrent ones are covered by `DecisionRaces.DecidedTwiceIff`.
- Approvals.HasApprovedPaperRequest: among requests created at the same instant any may count as the latest, because the query does not break ties.
- Language model calls, prompt text, JSON extraction and the bodies of capability handlers: a reply is unreadable, a refusal or a plan, and a handler returns any result or raises.
- Redis publishing, operational alerts, organisational memory, logging and metrics: best-effort side effects without durable state.
- Organisational decisions and conflict resolution records: written beside the modelled changes, never read by them.
- Real SHA-256, JSON text and `default=str`: payloads are records and the hash is injective; the state columns stand for their JSON text.
- Two processes at once, agents switched on or off during a run, and soft dependency rows in whole runs: the last only in `EngineRuns.CompletionReopensRunningIff`.
- Required inputs, datasets by name, deadlines, priorities and tenants: they do not influence the modelled transitions; staleness is an outcome of a dispatch.
- The `requested_but_missing` column of hand-offs and the per-agent view: the planner stores no required inputs, and the view is a filter.
- Row locks, isolation levels and statement order inside a transaction: a transaction is one step, and only the two advisory locks are modelled.
- The conditions under which a run is flagged as stalled, the retry of an interrupted planning phase and the threads that start loops: a single guarded update and thread plumbing.
- Retention periods and object-lock calls of the archive: an archived object is simply never replaced.
- Market-data failover and pass-through calls of the circuit breaker: they do not touch its state.
- Unverified token subjects, HTTP wiring, models, migrations and the research graph: input and output around the modelled parts.
- Whitespace beyond space, tab, line feed and carriage return in rejection reasons: other Unicode spaces count as text here.
