/** From an accepted plan to the end of its run. */
module RunScheduler {
  import opened Vocabulary
  import opened Registry
  import opened Graphs
  import opened Plans
  import opened TaskRows
  import opened EventLog
  import opened EngineStore
  import opened EngineInvariant
  import opened ArtefactInvariant
  import opened EngineRuns
  import opened RunCompletion
  import opened SchedulerInvariant
  import opened SchedulerProgress
  import opened TaskLevels
  import opened Crew
  import opened SchedulerLoop
  import Planner

  // --- the stored plan ---

  function StoredTask(task: PlannedTask): Task {
    NewTask(task.capability, task.agent)
  }

  function StoredPlan(tasks: seq<PlannedTask>, rows: seq<Planner.Pair>): Db {
    Db(seq(|tasks|, i requires 0 <= i < |tasks| => StoredTask(tasks[i])),
       seq(|rows|, j requires 0 <= j < |rows| => Dependency(rows[j].0, rows[j].1, true, Unsatisfied)),
       [])
  }

  /** The tasks that task `t` depends on, directly or through others. */
  ghost function Below(tasks: seq<PlannedTask>, t: nat): set<nat>
    requires t < |tasks|
  {
    set i: nat | i < |tasks| && Reaches(GraphOf(tasks), tasks[t].key, tasks[i].key)
  }

  lemma {:induction false} DependencyIsBelow(tasks: seq<PlannedTask>, x: nat, y: nat)
    requires UniqueKeys(tasks) && Acyclic(GraphOf(tasks)) && x < |tasks| && y < |tasks|
    requires tasks[y].key in tasks[x].dependsOn
    ensures |Below(tasks, y)| < |Below(tasks, x)|
  {
    var g := GraphOf(tasks);
    EdgesAreDeclared(tasks);
    assert Declared(tasks, tasks[x].key, tasks[y].key);
    EdgeReaches(g, tasks[x].key, tasks[y].key);
    forall i | i in Below(tasks, y) ensures i in Below(tasks, x) {
      ReachesTransitive(g, tasks[x].key, tasks[y].key, tasks[i].key);
    }
    assert !Reaches(g, tasks[y].key, tasks[y].key);
    assert y in Below(tasks, x) && y !in Below(tasks, y);
    SubsetIsSmaller(Below(tasks, y), Below(tasks, x) - {y});
  }

  lemma {:induction false} SubsetIsSmaller(a: set<nat>, b: set<nat>)
    requires a <= b
    ensures |a| <= |b|
  {
    if a != {} {
      var x :| x in a;
      SubsetIsSmaller(a - {x}, b - {x});
    }
  }

  ghost function Depth(tasks: seq<PlannedTask>, t: nat): nat {
    if t < |tasks| then |Below(tasks, t)| else 0
  }

  ghost function RankOf(tasks: seq<PlannedTask>): nat -> nat {
    t => Depth(tasks, t)
  }

  /** Every task is planned, with three retries, nothing started, and beside others only if its capability is
      one of the ten safe ones; every declared dependency is one hard row that is not satisfied. */
  ghost predicate IsStored(tasks: seq<PlannedTask>, rows: seq<Planner.Pair>, db: Db) {
    && |db.tasks| == |tasks| && |db.deps| == |rows| && db.artefacts == []
    && (forall t | 0 <= t < |tasks| ::
      && db.tasks[t].capability == tasks[t].capability && db.tasks[t].agent == tasks[t].agent
      && db.tasks[t].status == TaskStatus.Planned && db.tasks[t].retryCount == 0 && db.tasks[t].maxRetries == 3
      && db.tasks[t].startedAt == None && db.tasks[t].completedAt == None && db.tasks[t].result == None
      && (db.tasks[t].safe <==> tasks[t].capability in {
        MarketAnalysis, NewsIngestion, SentimentAnalysis, PortfolioRead, DataFreshness, ContextAssembly, AdhocSynthesis,
        OtherCapability("memory_ingestion"), OtherCapability("memory_maintenance"), OtherCapability("synthesize")}))
    && (forall j | 0 <= j < |rows| :: db.deps[j] == Dependency(rows[j].0, rows[j].1, true, Unsatisfied))
  }

  lemma StoredPlanIsStored(tasks: seq<PlannedTask>, rows: seq<Planner.Pair>)
    ensures IsStored(tasks, rows, StoredPlan(tasks, rows))
  {
    forall t | 0 <= t < |tasks| ensures StoredPlan(tasks, rows).tasks[t] == NewTask(tasks[t].capability, tasks[t].agent) {}
    forall c: Capability { SafeCapabilities(c); }
  }

  /** Every accepted plan is executable: its rows form a run the scheduler loop can start, its
      dependencies are ranked, and with handlers that succeed every dispatch succeeds. */
  lemma AcceptedPlanIsExecutable(tasks: seq<PlannedTask>, registry: seq<AgentRow>, rows: seq<Planner.Pair>, script: Script)
    requires ValidPlan(tasks, KnownAgents(registry)) && Planner.RowsFor(tasks, rows, |tasks|, 0)
    ensures FreshDb(StoredPlan(tasks, rows)) && Ranked(EdgesOf(StoredPlan(tasks, rows).deps), RankOf(tasks))
    ensures IsStored(tasks, rows, StoredPlan(tasks, rows))
    ensures (forall t: nat, k: nat :: Delivers(script(t, k))) ==> OnSchedule(registry, script, StoredPlan(tasks, rows), RankOf(tasks), 0)
  {
    StoredPlanIsStored(tasks, rows);
    var db := StoredPlan(tasks, rows);
    var edges := EdgesOf(db.deps);
    forall j | 0 <= j < |edges| ensures edges[j].0 < |tasks| && edges[j].1 < |tasks| && RankOf(tasks)(edges[j].1) < RankOf(tasks)(edges[j].0) {
      assert rows[j] == (rows[j].0, rows[j].1) && rows[j] in rows;
      DependencyIsBelow(tasks, rows[j].0, rows[j].1);
    }
    forall t: nat | t < |db.tasks| ensures IsEnabled(registry, db.tasks[t].agent) {
      KnownNamesAreRowNames(registry, tasks[t].agent);
    }
  }

  lemma FreshScheduler(db: Db)
    requires FreshDb(db)
    ensures SchedulerInv(db, multiset{}) && ArtefactsExact(db)
  {
  }

  // --- the whole loop ---

  /** How a run stands once nothing is ready. */
  function Verdict(db: Db, pendingApproval: bool): RunStatus {
    if exists t | 0 <= t < |db.tasks| :: db.tasks[t].status.WaitingForDependency? then RunWaiting
    else if SomeUnsuccessful(db) then RunFailed
    else if pendingApproval then RunWaiting
    else RunCompleted
  }

  /** Same statuses, same times, same rows. */
  ghost predicate SameStanding(db: Db, after: Db) {
    && |after.tasks| == |db.tasks| && after.deps == db.deps
    && forall t: nat | t < |db.tasks| ::
      && after.tasks[t].status == db.tasks[t].status
      && after.tasks[t].startedAt == db.tasks[t].startedAt && after.tasks[t].completedAt == db.tasks[t].completedAt
  }

  lemma SameStandingSettled(db: Db, after: Db)
    requires SameStanding(db, after) && Settled(db)
    ensures Settled(after)
  {
    forall t: nat | t < |db.tasks| ensures LeftWaiting(after, t) <==> LeftWaiting(db, t) {
      SameLeftWaiting(db, after, t);
    }
  }

  lemma SameLeftWaiting(db: Db, after: Db, t: nat)
    requires SameStanding(db, after)
    ensures LeftWaiting(after, t) <==> LeftWaiting(db, t)
  {
  }

  method StartRun(store: RunStore)
    requires store.Clean()
    modifies store
    ensures store.Clean() && store.db == old(store.db) && store.status == RunRunning
    ensures Replays(old(store.db), old(store.events)) ==> Replays(store.db, store.events)
  {
    ghost var db, events := store.db, store.events;
    store.status := RunRunning;
    store.Emit(RunEvent(RunRunning));
    ReplaysIgnoresRunEvents(db, events, store.db, store.events);
    store.Commit();
  }

  /** Closes a run in which nothing is ready any more. */
  method CloseRun(store: RunStore, pendingApproval: bool)
    requires store.Clean() && WellFormed(store.db) && Settled(store.db) && AllDispositioned(store.db)
    modifies store
    ensures store.Clean() && SameStanding(old(store.db), store.db) && Settled(store.db)
    ensures store.status == Verdict(store.db, pendingApproval)
    ensures ClosesAs(store.db, pendingApproval, old(store.status), store.status)
    ensures Replays(old(store.db), old(store.events)) ==> Replays(store.db, store.events)
  {
    ghost var settled, status := store.db, store.status;
    var terminal := Finalize(store, pendingApproval);
    SameClosing(settled, store.db, pendingApproval, status, store.status);
    FinalStanding(settled, store.db, pendingApproval);
  }

  lemma SameClosing(db: Db, after: Db, pendingApproval: bool, from: RunStatus, to: RunStatus)
    requires |after.tasks| == |db.tasks| && after.artefacts == db.artefacts
    requires forall t: nat | t < |db.tasks| :: after.tasks[t].status == db.tasks[t].status
    ensures ClosesAs(after, pendingApproval, from, to) <==> ClosesAs(db, pendingApproval, from, to)
  {
  }

  lemma StandingKeepsCompletion(first: Db, db: Db, after: Db, waves: nat)
    requires SameStanding(db, after) && AllCompletedIn(first, db, waves)
    ensures AllCompletedIn(first, after, waves)
  {
    forall t: nat | t < |after.tasks| ensures IsCompleted(after, t) {
      assert IsCompleted(db, t);
    }
  }

  /** Runs a stored run until nothing is ready, then closes it. Terminates; claims no task more than
      its budget allows; ends every task or leaves it waiting for exactly the reason given; keeps what had
      ended before; and if every dispatch succeeds, completes all tasks in as many waves as the longest dependency chain. */
  method RunSchedulerLoop(store: RunStore, roster: seq<AgentRow>, script: Script, poolSize: nat, pendingApproval: bool, ghost rank: nat -> nat)
    returns (waves: nat, claims: seq<nat>, ghost moves: seq<Move>)
    requires store.Clean() && poolSize > 0 && SchedulerInv(store.db, multiset{}) && ArtefactsExact(store.db)
    modifies store
    ensures store.Clean() && Settled(store.db)
    ensures |claims| == |store.db.tasks| == |old(store.db).tasks|
    ensures forall t: nat | t < |claims| ::
      claims[t] <= Budget(roster, old(store.db).tasks[t]) <= old(store.db).tasks[t].maxRetries + 2
    ensures EndedKept(old(store.db), store.db)
    ensures store.status == Verdict(store.db, pendingApproval)
    ensures ClosesAs(store.db, pendingApproval, RunRunning, store.status)
    ensures OnSchedule(roster, script, old(store.db), rank, 0) ==> AllCompletedIn(old(store.db), store.db, waves)
    ensures Recorded(old(store.db).tasks, poolSize, moves, {}, claims)
    ensures Replays(old(store.db), old(store.events)) ==> Replays(store.db, store.events)
  {
    ghost var first := store.db;
    forall t: nat | t < |first.tasks| ensures Budget(roster, first.tasks[t]) <= first.tasks[t].maxRetries + 2 {
      BudgetIsSmall(roster, first.tasks[t]);
    }
    StartRun(store);
    waves, claims, moves := Drive(store, roster, script, poolSize, rank);
    ghost var settled := store.db;
    CloseRun(store, pendingApproval);
    if OnSchedule(roster, script, first, rank, 0) {
      StandingKeepsCompletion(first, settled, store.db, waves);
    }
  }

  /** A run whose tasks are all completed is completed, unless it still waits for an approval. */
  lemma AllCompletedVerdict(first: Db, db: Db, waves: nat, pendingApproval: bool)
    requires AllCompletedIn(first, db, waves)
    ensures Verdict(db, pendingApproval) == if pendingApproval then RunWaiting else RunCompleted
  {
    forall t: nat | t < |db.tasks| ensures db.tasks[t].status.Completed? {
      assert IsCompleted(db, t);
    }
  }

  /** The budget of a stored task: one claim, one per retry, and one more if its agent is down. */
  lemma BudgetIsSmall(roster: seq<AgentRow>, task: Task)
    ensures Budget(roster, task) <= task.maxRetries + 2
    ensures FreshTask(task) && IsEnabled(roster, task.agent) ==> Budget(roster, task) == task.maxRetries + 1
  {
  }

  lemma FinalStanding(db: Db, after: Db, pendingApproval: bool)
    requires WellFormed(db) && Settled(db) && AllDispositioned(db)
    requires |after.tasks| == |db.tasks| && after == db.(tasks := after.tasks)
    requires after == db || forall t: nat | t < |after.tasks| :: Timed(db, t, after.tasks[t])
    ensures SameStanding(db, after) && Settled(after) && !SomeReady(db)
    ensures Verdict(after, pendingApproval) ==
      if MayComplete(db, pendingApproval) then RunCompleted
      else if AllTerminal(db) && SomeUnsuccessful(db) then RunFailed
      else RunWaiting
  {
    TimedIsSameStanding(db, after);
    SameStandingSettled(db, after);
    VerdictIsFinal(db, pendingApproval);
    SameVerdict(db, after, pendingApproval);
  }

  lemma TimedIsSameStanding(db: Db, after: Db)
    requires WellFormed(db) && |after.tasks| == |db.tasks| && after == db.(tasks := after.tasks)
    requires after == db || forall t: nat | t < |after.tasks| :: Timed(db, t, after.tasks[t])
    ensures SameStanding(db, after)
  {
  }

  lemma VerdictIsFinal(db: Db, pendingApproval: bool)
    requires AtStandstill(db) && AllDispositioned(db)
    ensures !SomeReady(db)
    ensures AllTerminal(db) <==> !exists t | 0 <= t < |db.tasks| :: db.tasks[t].status.WaitingForDependency?
    ensures Verdict(db, pendingApproval) ==
      if MayComplete(db, pendingApproval) then RunCompleted
      else if AllTerminal(db) && SomeUnsuccessful(db) then RunFailed
      else RunWaiting
  {
  }

  lemma SameVerdict(db: Db, after: Db, pendingApproval: bool)
    requires SameStanding(db, after)
    ensures Verdict(after, pendingApproval) == Verdict(db, pendingApproval)
  {
  }

  // --- parked although everything that can end has ended ---

  /** `t` sits right behind a task that was blocked only by propagation or failed by crash recovery, and
      none of its own prerequisites announced a failure. */
  ghost predicate ForgottenBehind(db: Db, t: nat, y: nat) {
    && t < |db.tasks| && y < |db.tasks| && DependsOn(db.deps, t, y)
    && (PropagationBlocked(db.tasks[y]) || Interrupted(db.tasks[y]))
    && forall z: nat | z < |db.tasks| && DependsOn(db.deps, t, z) :: !Announced(db.tasks[z])
  }

  lemma {:induction false} WaitingLeadsToForgotten(db: Db, rank: nat -> nat, t: nat) returns (x: nat, y: nat)
    requires Settled(db) && Ranked(EdgesOf(db.deps), rank) && t < |db.tasks| && db.tasks[t].status.WaitingForDependency?
    ensures ForgottenBehind(db, x, y)
    decreases rank(t)
  {
    assert LeftWaiting(db, t);
    var z: nat :| z < |db.tasks| && DependsOn(db.deps, t, z) && Stuck(db.tasks[z]);
    if PropagationBlocked(db.tasks[z]) || Interrupted(db.tasks[z]) {
      x, y := t, z;
    } else {
      var j :| 0 <= j < |db.deps| && db.deps[j].dependent == t && db.deps[j].prerequisite == z;
      assert EdgesOf(db.deps)[j] == (t, z);
      x, y := WaitingLeadsToForgotten(db, rank, z);
    }
  }

  /** A failed run is parked as waiting, against the loop's own comment, exactly when some task sits
      behind a task blocked only by propagation or failed by crash recovery, with no prerequisite of its own
      that announced a failure. */
  lemma ParkedDespiteFailureIff(db: Db, rank: nat -> nat, pendingApproval: bool)
    requires Settled(db) && Ranked(EdgesOf(db.deps), rank) && SomeUnsuccessful(db)
    ensures Verdict(db, pendingApproval) == RunWaiting <==> exists t: nat, y: nat :: ForgottenBehind(db, t, y)
    ensures Verdict(db, pendingApproval) == RunFailed <==> !exists t: nat, y: nat :: ForgottenBehind(db, t, y)
  {
    if Verdict(db, pendingApproval) == RunWaiting {
      var t :| 0 <= t < |db.tasks| && db.tasks[t].status.WaitingForDependency?;
      var x, y := WaitingLeadsToForgotten(db, rank, t);
    }
    if exists t: nat, y: nat :: ForgottenBehind(db, t, y) {
      var t: nat, y: nat :| ForgottenBehind(db, t, y);
      assert Stuck(db.tasks[y]);
      assert LeftWaiting(db, t);
      assert db.tasks[t].status.WaitingForDependency?;
    }
  }

  // --- end to end ---

  /** Stores an accepted plan and runs it. With handlers that succeed, every task is completed in as many
      waves as the longest dependency chain, the event log replays to the tables, and the run is completed
      unless an approval is pending. Only a dependency listed twice keeps an accepted plan from running. */
  method RunAcceptedPlan(tasks: seq<PlannedTask>, registry: seq<AgentRow>, script: Script, poolSize: nat, pendingApproval: bool)
    returns (store: Option<RunStore>, waves: nat)
    requires ValidPlan(tasks, KnownAgents(registry)) && poolSize > 0
    requires forall t: nat, k: nat :: Delivers(script(t, k))
    ensures store.Some? <==> forall i | 0 <= i < |tasks| :: NoDuplicates(tasks[i].dependsOn)
    ensures store.Some? ==>
      && fresh(store.value) && |store.value.db.tasks| == |tasks|
      && (forall t: nat | t < |tasks| :: IsCompleted(store.value.db, t))
      && store.value.status == (if pendingApproval then RunWaiting else RunCompleted)
      && Replays(store.value.db, store.value.events)
      && exists rows :: Planner.RowsFor(tasks, rows, |tasks|, 0) && LongestChain(rows, |tasks|, waves)
  {
    waves := 0;
    var rows := Planner.Persist(tasks);
    if rows.None? {
      return None, 0;
    }
    var db := StoredPlan(tasks, rows.value);
    AcceptedPlanIsExecutable(tasks, registry, rows.value, script);
    FreshScheduler(db);
    var run := new RunStore(db, [], RunPlanning);
    FreshReplays(db);
    var claims: seq<nat>;
    ghost var moves;
    waves, claims, moves := RunSchedulerLoop(run, registry, script, poolSize, pendingApproval, RankOf(tasks));
    AllCompletedVerdict(db, run.db, waves, pendingApproval);
    assert EdgesOf(db.deps) == rows.value;
    store := Some(run);
  }

  lemma FreshReplays(db: Db)
    requires FreshDb(db)
    ensures Replays(db, [])
  {
  }
}
