/** What each transaction of a scheduler wave costs and achieves. */
module SchedulerProgress {
  import opened Vocabulary
  import opened Registry
  import opened TaskRows
  import opened EngineInvariant
  import opened ArtefactInvariant
  import opened AgentInvoker
  import opened TaskEngine
  import opened EngineMachine
  import opened RunCompletion
  import opened SchedulerInvariant
  import opened TaskLevels

  /** A dispatch reports in time, or the loop gives it up and it can only end as an orphan. */
  datatype Attempt = Reports(outcome: Outcome) | TimesOut

  /** What the dispatch of task `t` does when it is claimed for the `k`-th time. */
  type Script = (nat, nat) -> Attempt

  predicate Delivers(attempt: Attempt) {
    attempt.Reports? && attempt.outcome.Produces?
  }

  function Attempted(roster: seq<AgentRow>, db: Db, t: nat, attempt: Attempt, now: nat): Db
    requires t < |db.tasks|
  {
    match attempt
    case Reports(outcome) => Finish(roster, db, t, outcome, now)
    case TimesOut => TimeOut(db, t, now)
  }

  /** How many more times the task can be claimed: once, once per retry left, and once more if its
      agent is down and the task may have to change hands. */
  function Budget(roster: seq<AgentRow>, task: Task): nat {
    if IsTerminal(task.status) then 0
    else 1 + (if task.retryCount < task.maxRetries then task.maxRetries - task.retryCount else 0)
           + (if IsEnabled(roster, task.agent) then 0 else 1)
  }

  function TotalBudget(roster: seq<AgentRow>, tasks: seq<Task>): nat {
    if tasks == [] then 0 else TotalBudget(roster, tasks[..|tasks| - 1]) + Budget(roster, tasks[|tasks| - 1])
  }

  ghost predicate NoCostlier(roster: seq<AgentRow>, before: seq<Task>, after: seq<Task>) {
    |after| == |before| && forall t: nat | t < |before| :: Budget(roster, after[t]) <= Budget(roster, before[t])
  }

  lemma {:induction false} TotalBudgetDrops(roster: seq<AgentRow>, before: seq<Task>, after: seq<Task>)
    requires NoCostlier(roster, before, after)
    ensures TotalBudget(roster, after) <= TotalBudget(roster, before)
    ensures (exists t: nat | t < |before| :: Budget(roster, after[t]) < Budget(roster, before[t])) ==>
      TotalBudget(roster, after) < TotalBudget(roster, before)
  {
    if before != [] {
      TotalBudgetDrops(roster, before[..|before| - 1], after[..|after| - 1]);
    }
  }

  // --- one finish ---

  predicate Unstarted(db: Db, t: nat) {
    t < |db.tasks| && db.tasks[t].status.Ready?
  }

  lemma CompleteSpares(db: Db, live: multiset<nat>, t: nat, kind: string, now: nat)
    requires SchedulerInv(db, live) && t in live
    ensures var after := Complete(db, t, kind, now);
      && |after.tasks| == |db.tasks| && EdgesOf(after.deps) == EdgesOf(db.deps)
      && (forall x: nat | x < |db.tasks| && x != t && (db.tasks[x].status.Ready? || db.tasks[x].status.Running?) ::
        after.tasks[x].status == db.tasks[x].status)
  {
  }

  /** A finish costs the task one claim, costs no other task anything, and leaves the tasks that are
      ready or running as they are. */
  ghost predicate FinishedWell(roster: seq<AgentRow>, db: Db, after: Db, t: nat)
    requires t < |db.tasks|
  {
    && NoCostlier(roster, db.tasks, after.tasks) && EdgesOf(after.deps) == EdgesOf(db.deps)
    && Budget(roster, after.tasks[t]) < Budget(roster, db.tasks[t])
    && forall x: nat | x < |db.tasks| && x != t && (db.tasks[x].status.Ready? || db.tasks[x].status.Running?) ::
      after.tasks[x].status == db.tasks[x].status
  }

  lemma OthersCostNoMore(roster: seq<AgentRow>, db: Db, after: Db, t: nat)
    requires t < |db.tasks| && OthersKept(db, after, t) && Budget(roster, after.tasks[t]) < Budget(roster, db.tasks[t])
    ensures NoCostlier(roster, db.tasks, after.tasks)
  {
  }

  lemma EndFinishesWell(roster: seq<AgentRow>, db: Db, live: multiset<nat>, t: nat, status: TaskStatus, now: nat)
    requires SchedulerInv(db, live) && t in live && status in {Failed, Blocked, Escalated}
    ensures FinishedWell(roster, db, End(db, t, status, now), t)
  {
  }

  lemma AgentDownFinishesWell(roster: seq<AgentRow>, db: Db, live: multiset<nat>, t: nat, now: nat)
    requires SchedulerInv(db, live) && t in live && !IsEnabled(roster, db.tasks[t].agent)
    ensures FinishedWell(roster, db, AgentUnavailable(db, t, Takeovers(roster, db.tasks[t]), now), t)
  {
    EndFinishesWell(roster, db, live, t, Escalated, now);
    TakeoversAreEnabled(roster, db.tasks[t]);
  }

  lemma FinishesWell(roster: seq<AgentRow>, db: Db, live: multiset<nat>, t: nat, outcome: Outcome, now: nat)
    requires SchedulerInv(db, live) && t in live
    ensures FinishedWell(roster, db, Finish(roster, db, t, outcome, now), t)
  {
    var task := db.tasks[t];
    match Reported(roster, task, outcome)
    case Done =>
      CompleteFrame(db, t, outcome.kind, now);
      CompleteSpares(db, live, t, outcome.kind, now);
      OthersCostNoMore(roster, db, Complete(db, t, outcome.kind, now), t);
    case Stale => EndFinishesWell(roster, db, live, t, Blocked, now);
    case AgentDown => AgentDownFinishesWell(roster, db, live, t, now);
    case Error => EndFinishesWell(roster, db, live, t, Failed, now);
  }

  lemma FinishKeepsArtefacts(roster: seq<AgentRow>, db: Db, live: multiset<nat>, t: nat, outcome: Outcome, now: nat)
    requires Consistent(db, live) && ArtefactsExact(db) && t in live
    ensures ArtefactsExact(Finish(roster, db, t, outcome, now))
  {
    if Reported(roster, db.tasks[t], outcome).Done? {
      SucceedKeepsArtefacts(db, live, t, outcome.kind, now);
    } else {
      ErrorsCompleteNothing(db, live, t, Takeovers(roster, db.tasks[t]), now);
      SameCompletionsKeepArtefacts(db, Finish(roster, db, t, outcome, now));
    }
  }

  // --- progress since the loop began ---

  /** Who had ended stays as it is, up to what the other transactions of the loop write elsewhere. */
  ghost predicate EndedKept(before: Db, after: Db) {
    && |after.tasks| == |before.tasks|
    && forall t: nat | t < |before.tasks| && IsTerminal(before.tasks[t].status) ::
      && after.tasks[t].status == before.tasks[t].status
      && after.tasks[t].startedAt == before.tasks[t].startedAt && after.tasks[t].completedAt == before.tasks[t].completedAt
  }

  lemma AttemptKeepsEnded(roster: seq<AgentRow>, db: Db, live: multiset<nat>, t: nat, attempt: Attempt, now: nat)
    requires SchedulerInv(db, live) && t in live
    ensures EndedKept(db, Attempted(roster, db, t, attempt, now))
  {
  }

  lemma AttemptKeepsScheduler(roster: seq<AgentRow>, db: Db, live: multiset<nat>, t: nat, attempt: Attempt, now: nat)
    requires SchedulerInv(db, live) && t in live
    ensures SchedulerInv(Attempted(roster, db, t, attempt, now), live - multiset{t})
    ensures FinishedWell(roster, db, Attempted(roster, db, t, attempt, now), t)
  {
    match attempt
    case Reports(outcome) =>
      FinishKeepsScheduler(roster, db, live, t, outcome, now);
      FinishesWell(roster, db, live, t, outcome, now);
    case TimesOut =>
      TimeOutKeepsScheduler(db, live, t, now);
      EndFinishesWell(roster, db, live, t, Failed, now);
  }

  lemma AttemptKeepsArtefacts(roster: seq<AgentRow>, db: Db, live: multiset<nat>, t: nat, attempt: Attempt, now: nat)
    requires Consistent(db, live) && ArtefactsExact(db) && t in live
    ensures ArtefactsExact(Attempted(roster, db, t, attempt, now))
  {
    match attempt
    case Reports(outcome) => FinishKeepsArtefacts(roster, db, live, t, outcome, now);
    case TimesOut =>
      ClaimAndTimeOutCompleteNothing(db, t, now);
      SameCompletionsKeepArtefacts(db, TimeOut(db, t, now));
  }

  /** No transaction of the loop changes which tasks may run beside others. */
  predicate SameClasses(before: Db, after: Db) {
    |after.tasks| == |before.tasks| && forall t: nat | t < |before.tasks| :: after.tasks[t].safe == before.tasks[t].safe
  }

  lemma AttemptKeepsClasses(roster: seq<AgentRow>, db: Db, t: nat, attempt: Attempt, now: nat)
    requires t < |db.tasks|
    ensures SameClasses(db, Attempted(roster, db, t, attempt, now))
  {
  }

  ghost predicate Progress(roster: seq<AgentRow>, first: Db, db: Db, live: multiset<nat>, claims: seq<nat>) {
    && SchedulerInv(db, live) && ArtefactsExact(db) && EndedKept(first, db) && SameClasses(first, db)
    && |first.tasks| == |db.tasks| == |claims| && EdgesOf(db.deps) == EdgesOf(first.deps)
    && forall t: nat | t < |claims| :: claims[t] + Budget(roster, db.tasks[t]) <= Budget(roster, first.tasks[t]) + live[t]
  }

  lemma RefreshCostsNothing(roster: seq<AgentRow>, db: Db)
    ensures NoCostlier(roster, db.tasks, Refresh(db).tasks)
    ensures EndedKept(db, Refresh(db)) && Refresh(db).deps == db.deps
  {
  }

  lemma RefreshProgress(roster: seq<AgentRow>, first: Db, db: Db, claims: seq<nat>)
    requires Progress(roster, first, db, multiset{}, claims)
    ensures Progress(roster, first, Refresh(db), multiset{}, claims)
    ensures NoCostlier(roster, db.tasks, Refresh(db).tasks)
  {
    RefreshKeepsScheduler(db, multiset{});
    RefreshAndReapCompleteNothing(db);
    SameCompletionsKeepArtefacts(db, Refresh(db));
    RefreshCostsNothing(roster, db);
    KeepsProgress(roster, first, db, Refresh(db), multiset{}, claims);
  }

  /** A transaction that leaves the dispatches in flight alone. */
  lemma KeepsProgress(roster: seq<AgentRow>, first: Db, db: Db, after: Db, live: multiset<nat>, claims: seq<nat>)
    requires Progress(roster, first, db, live, claims)
    requires SchedulerInv(after, live) && ArtefactsExact(after) && EndedKept(db, after) && SameClasses(db, after)
    requires EdgesOf(after.deps) == EdgesOf(db.deps) && NoCostlier(roster, db.tasks, after.tasks)
    ensures Progress(roster, first, after, live, claims)
  {
  }

  lemma ClaimProgress(roster: seq<AgentRow>, first: Db, db: Db, live: multiset<nat>, claims: seq<nat>, t: nat, now: nat)
    requires Progress(roster, first, db, live, claims) && Claimable(db, t)
    ensures Progress(roster, first, Claim(db, t, now), live + multiset{t}, claims[t := claims[t] + 1])
    ensures NoCostlier(roster, db.tasks, Claim(db, t, now).tasks)
  {
    ClaimKeepsScheduler(db, live, t, now);
    ClaimAndTimeOutCompleteNothing(db, t, now);
    SameCompletionsKeepArtefacts(db, Claim(db, t, now));
  }

  lemma FinishProgress(roster: seq<AgentRow>, first: Db, db: Db, live: multiset<nat>, claims: seq<nat>, t: nat, attempt: Attempt, now: nat)
    requires Progress(roster, first, db, live, claims) && t in live
    ensures Progress(roster, first, Attempted(roster, db, t, attempt, now), live - multiset{t}, claims)
  {
    AttemptKeepsScheduler(roster, db, live, t, attempt, now);
    AttemptKeepsArtefacts(roster, db, live, t, attempt, now);
    AttemptKeepsEnded(roster, db, live, t, attempt, now);
    AttemptKeepsClasses(roster, db, t, attempt, now);
  }

  // --- inside one wave ---

  /** Every dispatch produces a result and every agent is up. */
  ghost predicate Flawless(roster: seq<AgentRow>, script: Script, db: Db) {
    && (forall t: nat, k: nat :: Delivers(script(t, k)))
    && (forall t: nat | t < |db.tasks| :: IsEnabled(roster, db.tasks[t].agent) && !Unsuccessful(db.tasks[t].status))
  }

  /** Of the tasks that were ready in `before`, those in neither `pending` nor `active` are done. */
  ghost predicate DoneInWave(before: Db, pending: set<nat>, active: set<nat>, t: nat) {
    Unstarted(before, t) && t !in pending && t !in active
  }

  /** Pending tasks are still ready, and every task that was ready has been claimed once unless it is
      pending and has cost a claim unless it is pending or active. */
  ghost predicate Tally(roster: seq<AgentRow>, before: Db, db: Db, claims0: seq<nat>, claims: seq<nat>, pending: set<nat>, active: set<nat>) {
    && NoCostlier(roster, before.tasks, db.tasks) && |claims0| == |claims|
    && pending !! active
    && (forall t | t in pending || t in active :: Unstarted(before, t))
    && (forall t | t in pending :: Unstarted(db, t))
    && (forall t: nat | t < |claims| :: claims[t] == claims0[t] + if Unstarted(before, t) && t !in pending then 1 else 0)
    && (forall t: nat | DoneInWave(before, pending, active, t) :: Budget(roster, db.tasks[t]) < Budget(roster, before.tasks[t]))
  }

  ghost predicate InWave(roster: seq<AgentRow>, script: Script, first: Db, before: Db, db: Db,
                         claims0: seq<nat>, claims: seq<nat>, pending: set<nat>, active: set<nat>)
  {
    && Progress(roster, first, db, multiset(active), claims)
    && Tally(roster, before, db, claims0, claims, pending, active)
    && (Flawless(roster, script, before) ==> Flawless(roster, script, db) && CompletedInWave(before, db, pending, active))
  }

  ghost predicate CompletedInWave(before: Db, db: Db, pending: set<nat>, active: set<nat>) {
    forall t: nat :: IsCompleted(db, t) <==> IsCompleted(before, t) || DoneInWave(before, pending, active, t)
  }

  lemma ClaimTally(roster: seq<AgentRow>, before: Db, db: Db, claims0: seq<nat>, claims: seq<nat>,
                   pending: set<nat>, active: set<nat>, t: nat, now: nat)
    requires Tally(roster, before, db, claims0, claims, pending, active) && t in pending && t < |claims|
    requires NoCostlier(roster, db.tasks, Claim(db, t, now).tasks)
    ensures Tally(roster, before, Claim(db, t, now), claims0, claims[t := claims[t] + 1], pending - {t}, active + {t})
  {
  }

  lemma ClaimInWave(roster: seq<AgentRow>, script: Script, first: Db, before: Db, db: Db,
                    claims0: seq<nat>, claims: seq<nat>, pending: set<nat>, active: set<nat>, t: nat, now: nat)
    requires InWave(roster, script, first, before, db, claims0, claims, pending, active) && t in pending
    ensures InWave(roster, script, first, before, Claim(db, t, now), claims0, claims[t := claims[t] + 1], pending - {t}, active + {t})
  {
    ClaimProgress(roster, first, db, multiset(active), claims, t, now);
    ClaimTally(roster, before, db, claims0, claims, pending, active, t, now);
    assert multiset(active + {t}) == multiset(active) + multiset{t};
    forall x: nat ensures DoneInWave(before, pending - {t}, active + {t}, x) <==> DoneInWave(before, pending, active, x) {}
  }

  lemma FlawlessFinish(roster: seq<AgentRow>, script: Script, db: Db, live: multiset<nat>, t: nat, k: nat, now: nat)
    requires SchedulerInv(db, live) && t in live && Flawless(roster, script, db)
    ensures var after := Attempted(roster, db, t, script(t, k), now);
      Flawless(roster, script, after) && forall x: nat :: IsCompleted(after, x) <==> IsCompleted(db, x) || x == t
  {
    CompleteFrame(db, t, script(t, k).outcome.kind, now);
    CompleteRowsExactly(db, live, t, script(t, k).outcome.kind, now);
  }

  lemma FinishTally(roster: seq<AgentRow>, before: Db, db: Db, after: Db, claims0: seq<nat>, claims: seq<nat>,
                    pending: set<nat>, active: set<nat>, t: nat)
    requires Tally(roster, before, db, claims0, claims, pending, active) && t in active && t < |db.tasks|
    requires FinishedWell(roster, db, after, t)
    ensures Tally(roster, before, after, claims0, claims, pending, active - {t})
  {
  }

  lemma FinishInWave(roster: seq<AgentRow>, script: Script, first: Db, before: Db, db: Db,
                     claims0: seq<nat>, claims: seq<nat>, pending: set<nat>, active: set<nat>, t: nat, k: nat, now: nat)
    requires InWave(roster, script, first, before, db, claims0, claims, pending, active) && t in active
    ensures InWave(roster, script, first, before, Attempted(roster, db, t, script(t, k), now), claims0, claims, pending, active - {t})
  {
    FinishProgress(roster, first, db, multiset(active), claims, t, script(t, k), now);
    AttemptKeepsScheduler(roster, db, multiset(active), t, script(t, k), now);
    FinishTally(roster, before, db, Attempted(roster, db, t, script(t, k), now), claims0, claims, pending, active, t);
    assert multiset(active - {t}) == multiset(active) - multiset{t};
    FinishCompletesInWave(roster, script, before, db, multiset(active), pending, active, t, k, now);
  }

  lemma FinishCompletesInWave(roster: seq<AgentRow>, script: Script, before: Db, db: Db, live: multiset<nat>,
                              pending: set<nat>, active: set<nat>, t: nat, k: nat, now: nat)
    requires SchedulerInv(db, live) && t in live && t in active && t !in pending && Unstarted(before, t)
    requires Flawless(roster, script, before) ==> Flawless(roster, script, db) && CompletedInWave(before, db, pending, active)
    ensures var after := Attempted(roster, db, t, script(t, k), now);
      Flawless(roster, script, before) ==> Flawless(roster, script, after) && CompletedInWave(before, after, pending, active - {t})
  {
    if Flawless(roster, script, before) {
      FlawlessFinish(roster, script, db, live, t, k, now);
    }
    forall x: nat ensures DoneInWave(before, pending, active - {t}, x) <==> DoneInWave(before, pending, active, x) || x == t {}
  }
}
