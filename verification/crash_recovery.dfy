/** Runs resumed after a crash, and a run whose failure stops short of its last task. */
module CrashRecovery {
  import opened Vocabulary
  import opened Registry
  import opened TaskRows
  import opened EventLog
  import opened EngineStore
  import opened EngineInvariant
  import opened ArtefactInvariant
  import opened EngineMachine
  import EngineRuns
  import RunManager
  import RunCompletion
  import opened SchedulerInvariant
  import opened SchedulerProgress
  import opened SchedulerLoop
  import opened RunScheduler

  /** A crash at any moment of the loop fails this task, although something may wait for it. */
  predicate FailedByCrash(db: Db, t: nat) {
    t < |db.tasks| && db.tasks[t].status.Running? && !db.tasks[t].safe
  }

  /** Resets the tasks that were running when the process died and runs the loop again. It ends like any
      other loop, however often that happened. A task behind one that the crash failed is left waiting
      exactly when none of its prerequisites announced a failure. */
  method ResumeReapedRun(store: RunStore, roster: seq<AgentRow>, script: Script, poolSize: nat, pendingApproval: bool,
                         ghost live: multiset<nat>, ghost rank: nat -> nat)
    returns (waves: nat, claims: seq<nat>)
    requires store.Clean() && poolSize > 0 && SchedulerInv(store.db, live) && ArtefactsExact(store.db)
    modifies store
    ensures store.Clean() && |store.db.tasks| == |old(store.db).tasks|
    ensures Settled(store.db) && store.status == Verdict(store.db, pendingApproval)
    ensures forall t: nat | FailedByCrash(old(store.db), t) :: Interrupted(store.db.tasks[t])
    ensures forall x: nat, t: nat | x < |store.db.tasks| && DependsOn(store.db.deps, x, t) && FailedByCrash(old(store.db), t) ::
      store.db.tasks[x].status.WaitingForDependency? <==>
        forall y: nat | y < |store.db.tasks| && DependsOn(store.db.deps, x, y) :: !Announced(store.db.tasks[y])
    ensures |claims| == |store.db.tasks|
    ensures forall t: nat | t < |claims| :: claims[t] <= Budget(roster, Reap(old(store.db)).tasks[t])
  {
    ghost var before := store.db;
    ReapKeepsScheduler(before, live);
    RefreshAndReapCompleteNothing(before);
    SameCompletionsKeepArtefacts(before, Reap(before));
    store.db := RunManager.ReapTasks(store.db);
    store.Commit();
    ghost var moves;
    waves, claims, moves := RunSchedulerLoop(store, roster, script, poolSize, pendingApproval, rank);
    CrashedStayInterrupted(before, Reap(before), store.db);
    BehindCrashedIff(before, store.db);
  }

  lemma CrashedStayInterrupted(before: Db, reaped: Db, after: Db)
    requires |before.tasks| == |reaped.tasks| && EndedKept(reaped, after)
    requires forall t: nat | FailedByCrash(before, t) :: Interrupted(reaped.tasks[t])
    ensures forall t: nat | FailedByCrash(before, t) :: t < |after.tasks| && Interrupted(after.tasks[t])
  {
  }

  lemma BehindCrashedIff(before: Db, after: Db)
    requires Settled(after) && forall t: nat | FailedByCrash(before, t) :: t < |after.tasks| && Interrupted(after.tasks[t])
    ensures forall x: nat, t: nat | x < |after.tasks| && DependsOn(after.deps, x, t) && FailedByCrash(before, t) ::
      after.tasks[x].status.WaitingForDependency? <==>
        forall y: nat | y < |after.tasks| && DependsOn(after.deps, x, y) :: !Announced(after.tasks[y])
  {
    forall x: nat, t: nat | x < |after.tasks| && DependsOn(after.deps, x, t) && FailedByCrash(before, t)
      ensures after.tasks[x].status.WaitingForDependency? <==>
        forall y: nat | y < |after.tasks| && DependsOn(after.deps, x, y) :: !Announced(after.tasks[y])
    {
      BehindInterruptedIff(after, x, t);
    }
  }

  lemma BehindInterruptedIff(db: Db, x: nat, t: nat)
    requires Settled(db) && x < |db.tasks| && t < |db.tasks| && DependsOn(db.deps, x, t) && Interrupted(db.tasks[t])
    ensures db.tasks[x].status.WaitingForDependency? <==>
      forall y: nat | y < |db.tasks| && DependsOn(db.deps, x, y) :: !Announced(db.tasks[y])
  {
    assert Stuck(db.tasks[t]);
    assert db.tasks[x].status.WaitingForDependency? <==> LeftWaiting(db, x);
  }

  // --- a failure two steps ahead ---

  const ANALYSTS: seq<AgentRow> := [AgentRow("market_analyst", [MarketAnalysis], true)]

  lemma AnalystIsEnabled()
    ensures IsEnabled(ANALYSTS, "market_analyst")
  {
    assert ANALYSTS[0].name == "market_analyst" && ANALYSTS[0].enabled;
  }

  /** Task 2 needs task 1, which needs task 0. */
  function ThreeInARow(): Db {
    var task := EngineRuns.SmallTask(true);
    Db([task, task, task], [Dependency(1, 0, true, Unsatisfied), Dependency(2, 1, true, Unsatisfied)], [])
  }

  const FAILURE: seq<Action> := [StartWave, ClaimTask(0), ReportStale(0), Return(0), EndWave, StartWave]

  lemma FirstWaveOfThree(clock: nat) returns (s0: System, s1: System, s2: System)
    ensures s0 == EngineRuns.Start(ThreeInARow(), clock)
    ensures EngineRuns.Steps(ANALYSTS, s0, StartWave, s1) && EngineRuns.Steps(ANALYSTS, s1, ClaimTask(0), s2)
    ensures s2.phase == Wave({}, {0}) && s2.live == multiset{0} && s2.clock == clock
    ensures s2.db.deps == ThreeInARow().deps && s2.db.artefacts == []
    ensures var task := EngineRuns.SmallTask(true); s2.db.tasks == [
      task.(status := Running, startedAt := Some(clock)),
      task.(status := WaitingForDependency), task.(status := WaitingForDependency)]
  {
    s0 := EngineRuns.Start(ThreeInARow(), clock);
    assert !HardSatisfied(s0.db.deps, 1) by { assert !s0.db.deps[0].state.Satisfied?; }
    assert !HardSatisfied(s0.db.deps, 2) by { assert !s0.db.deps[1].state.Satisfied?; }
    assert HardSatisfied(s0.db.deps, 0);
    s1 := Apply(ANALYSTS, s0, StartWave);
    assert s1.phase == Wave({0}, {});
    s2 := Apply(ANALYSTS, s1, ClaimTask(0));
  }

  lemma StaleOfThree(s2: System) returns (s3: System)
    requires s2.phase == Wave({}, {0}) && s2.live == multiset{0} && s2.db.deps == ThreeInARow().deps
    requires var task := EngineRuns.SmallTask(true); s2.db.tasks == [
      task.(status := Running, startedAt := Some(s2.clock)),
      task.(status := WaitingForDependency), task.(status := WaitingForDependency)]
    ensures EngineRuns.Steps(ANALYSTS, s2, ReportStale(0), s3) && s3.db.artefacts == s2.db.artefacts && s3.phase == s2.phase && s3.live == multiset{}
    ensures s3.db.deps == [Dependency(1, 0, true, Unsatisfiable), Dependency(2, 1, true, Unsatisfied)]
    ensures var task := EngineRuns.SmallTask(true); s3.db.tasks == [
      task.(status := Blocked, startedAt := Some(s2.clock), completedAt := Some(s2.clock)),
      task.(status := Blocked), task.(status := WaitingForDependency)]
  {
    AnalystIsEnabled();
    s3 := Apply(ANALYSTS, s2, ReportStale(0));
    assert Fails(s2.db.deps[0], 0) && !Fails(s2.db.deps[1], 0);
    assert Doomed(s2.db.deps, 0, 1) && !Doomed(s2.db.deps, 0, 2);
  }

  lemma SecondWaveOfThree(s3: System) returns (s4: System, s5: System, s6: System)
    requires s3.phase == Wave({}, {0}) && s3.live == multiset{} && |s3.db.tasks| == 3
    requires s3.db.deps == [Dependency(1, 0, true, Unsatisfiable), Dependency(2, 1, true, Unsatisfied)]
    requires s3.db.tasks[0].status.Blocked? && s3.db.tasks[1].status.Blocked? && s3.db.tasks[2].status.WaitingForDependency?
    ensures EngineRuns.Steps(ANALYSTS, s3, Return(0), s4) && EngineRuns.Steps(ANALYSTS, s4, EndWave, s5) && EngineRuns.Steps(ANALYSTS, s5, StartWave, s6)
    ensures s6.db == s3.db && s6.phase == Wave({}, {}) && s6.live == multiset{}
  {
    s4 := Apply(ANALYSTS, s3, Return(0));
    s5 := Apply(ANALYSTS, s4, EndWave);
    s6 := Apply(ANALYSTS, s5, StartWave);
    assert !HardSatisfied(s3.db.deps, 2) by { assert !s3.db.deps[1].state.Satisfied?; }
    assert s6.db.tasks == s3.db.tasks;
  }

  function AfterFailure(clock: nat): Db {
    var task := EngineRuns.SmallTask(true);
    Db([task.(status := Blocked, startedAt := Some(clock), completedAt := Some(clock)),
        task.(status := Blocked), task.(status := WaitingForDependency)],
       [Dependency(1, 0, true, Unsatisfiable), Dependency(2, 1, true, Unsatisfied)], [])
  }

  lemma FailureStates(clock: nat) returns (states: seq<System>)
    ensures |states| == 7 && states[0] == EngineRuns.Start(ThreeInARow(), clock) && states[6].db == AfterFailure(clock)
    ensures forall i | 0 <= i < 6 :: EngineRuns.Steps(ANALYSTS, states[i], FAILURE[i], states[i + 1])
  {
    var s0, s1, s2 := FirstWaveOfThree(clock);
    var s3 := StaleOfThree(s2);
    var s4, s5, s6 := SecondWaveOfThree(s3);
    assert s6.db.tasks == AfterFailure(clock).tasks && s6.db.deps == AfterFailure(clock).deps;
    states := [s0, s1, s2, s3, s4, s5, s6];
  }

  lemma FailureRun(clock: nat)
    ensures EngineRuns.FreshDb(ThreeInARow())
    ensures EngineRuns.Run(ANALYSTS, EngineRuns.Start(ThreeInARow(), clock), FAILURE).db == AfterFailure(clock)
  {
    var states := FailureStates(clock);
    EngineRuns.StepsRun(ANALYSTS, states, FAILURE);
  }

  lemma LastOfThreeWaits(db: Db)
    requires |db.tasks| == 3 && db.artefacts == []
    requires db.deps == [Dependency(1, 0, true, Unsatisfiable), Dependency(2, 1, true, Unsatisfied)]
    requires db.tasks[0].status.Blocked? && db.tasks[0].startedAt.Some?
    requires PropagationBlocked(db.tasks[1]) && db.tasks[2].status.WaitingForDependency?
    ensures WellFormed(db) && LeftWaiting(db, 2) && ForgottenBehind(db, 2, 1)
    ensures RunCompletion.SomeUnsuccessful(db) && !RunCompletion.AllTerminal(db) && !RunCompletion.SomeReady(db)
    ensures Verdict(db, false) == RunWaiting
  {
    assert db.deps[1].dependent == 2 && db.deps[1].prerequisite == 1;
    assert DependsOn(db.deps, 2, 1);
    forall y: nat | y < 3 && DependsOn(db.deps, 2, y) ensures y == 1 {}
    assert Stuck(db.tasks[1]);
    assert RunCompletion.Unsuccessful(db.tasks[0].status);
    assert !IsTerminal(db.tasks[2].status);
  }

  method ParkAfterFailure(db: Db) returns (store: RunStore)
    requires WellFormed(db) && !RunCompletion.AllTerminal(db) && !RunCompletion.SomeReady(db)
    ensures fresh(store) && store.db == db && store.status.RunWaiting?
  {
    store := new RunStore(db, [], RunRunning);
    var terminal := RunCompletion.Finalize(store, false);
  }

  /** The first task of three in a row turns out stale. At the next poll nothing is ready, the last task
      waits for one that was blocked only by propagation, and the failed run is parked. */
  method FailureTwoStepsAhead(clock: nat) returns (store: RunStore)
    ensures fresh(store) && EngineRuns.FreshDb(ThreeInARow())
    ensures store.db == EngineRuns.Run(ANALYSTS, EngineRuns.Start(ThreeInARow(), clock), FAILURE).db
    ensures |store.db.tasks| == 3 && Announced(store.db.tasks[0]) && PropagationBlocked(store.db.tasks[1])
    ensures store.db.tasks[2].status.WaitingForDependency? && LeftWaiting(store.db, 2) && ForgottenBehind(store.db, 2, 1)
    ensures RunCompletion.SomeUnsuccessful(store.db) && store.status == RunWaiting == Verdict(store.db, false)
  {
    FailureRun(clock);
    LastOfThreeWaits(AfterFailure(clock));
    store := ParkAfterFailure(AfterFailure(clock));
  }
}
