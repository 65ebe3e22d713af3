/** What holds between the transactions of one scheduler loop, timeouts and resumption after a crash
    included: each dependency row says exactly how its prerequisite stands. */
module SchedulerInvariant {
  import opened Vocabulary
  import opened Registry
  import opened TaskRows
  import opened EngineInvariant
  import opened ArtefactInvariant
  import opened AgentInvoker
  import opened TaskEngine
  import EngineMachine
  import opened RunCompletion

  predicate Started(task: Task) {
    task.startedAt.Some?
  }

  /** Ended without a result by its own dispatch. */
  predicate OwnFailed(task: Task) {
    Unsuccessful(task.status) && Started(task)
  }

  /** Crash recovery failed it and told nobody. */
  predicate Interrupted(task: Task) {
    OwnFailed(task) && task.completedAt.None?
  }

  /** Ended without a result, and its dependents have been told. */
  predicate Announced(task: Task) {
    OwnFailed(task) && task.completedAt.Some?
  }

  /** Blocked only because a prerequisite ended without a result. */
  predicate PropagationBlocked(task: Task) {
    task.status.Blocked? && !Started(task)
  }

  function RowState(prerequisite: Task): DependencyState {
    if prerequisite.status.Completed? then Satisfied
    else if Announced(prerequisite) then Unsatisfiable
    else Unsatisfied
  }

  ghost predicate RowsExact(db: Db)
    requires WellFormed(db)
  {
    forall j | 0 <= j < |db.deps| :: db.deps[j].state == RowState(db.tasks[db.deps[j].prerequisite])
  }

  predicate HasDeadRow(deps: seq<Dependency>, t: nat) {
    exists j | 0 <= j < |deps| :: deps[j].dependent == t && deps[j].state.Unsatisfiable?
  }

  ghost predicate ShapeOk(db: Db, t: nat)
    requires t < |db.tasks|
  {
    var task := db.tasks[t];
    && (Started(task) ==> HardSatisfied(db.deps, t) && (task.status.Running? || task.status.Completed? || Unsuccessful(task.status)))
    && (!Started(task) ==> task.status in {Planned, Ready, WaitingForDependency, Retrying, Blocked})
    && (task.completedAt.Some? ==> task.status.Completed? || OwnFailed(task))
    && (PropagationBlocked(task) <==> HasDeadRow(db.deps, t))
    && task.retryCount <= task.maxRetries
  }

  ghost predicate ShapesOk(db: Db) {
    forall t: nat | t < |db.tasks| :: ShapeOk(db, t)
  }

  ghost predicate SchedulerInv(db: Db, live: multiset<nat>) {
    && Consistent(db, live) && RowsExact(db) && ShapesOk(db)
    && forall t | t in live :: db.tasks[t].status.Running?
  }

  // --- every transaction keeps it ---

  lemma RefreshKeepsScheduler(db: Db, live: multiset<nat>)
    requires SchedulerInv(db, live)
    ensures SchedulerInv(Refresh(db), live)
  {
    RefreshKeeps(db, live);
    var after := Refresh(db);
    forall t: nat | t < |after.tasks| ensures ShapeOk(after, t) && RowState(after.tasks[t]) == RowState(db.tasks[t]) {
      assert ShapeOk(db, t);
    }
  }

  lemma ClaimKeepsScheduler(db: Db, live: multiset<nat>, t: nat, now: nat)
    requires SchedulerInv(db, live) && Claimable(db, t)
    ensures SchedulerInv(Claim(db, t, now), live + multiset{t})
  {
    ClaimKeeps(db, live, t, now);
    var after := Claim(db, t, now);
    assert ShapeOk(db, t);
    forall x: nat | x < |after.tasks| ensures ShapeOk(after, x) && RowState(after.tasks[x]) == RowState(db.tasks[x]) {
      assert ShapeOk(db, x);
    }
  }

  lemma EndRows(db: Db, live: multiset<nat>, t: nat, status: TaskStatus, now: nat)
    requires SchedulerInv(db, live) && t in live && status in {Failed, Blocked, Escalated}
    ensures var after := End(db, t, status, now);
      && (forall j | 0 <= j < |db.deps| ::
        after.deps[j] == if db.deps[j].prerequisite == t then db.deps[j].(state := Unsatisfiable) else db.deps[j])
      && after.tasks[t] == db.tasks[t].(status := status, completedAt := Some(now))
      && (forall x: nat | x < |db.tasks| && x != t ::
        after.tasks[x] == if DependsOn(db.deps, x, t) then db.tasks[x].(status := Blocked) else db.tasks[x])
      && (forall x: nat | x < |db.tasks| && DependsOn(db.deps, x, t) :: x != t && !Started(db.tasks[x]))
  {
    forall j | 0 <= j < |db.deps| && db.deps[j].prerequisite == t
      ensures Fails(db.deps[j], t) && !Started(db.tasks[db.deps[j].dependent]) && db.deps[j].dependent != t
    {
      assert ShapeOk(db, db.deps[j].dependent);
    }
    forall x: nat | x < |db.tasks| && x != t ensures DependsOn(db.deps, x, t) <==> Doomed(db.deps, t, x) {}
    forall x: nat | x < |db.tasks| && DependsOn(db.deps, x, t) ensures !Started(db.tasks[x]) && x != t && (IsTerminal(db.tasks[x].status) ==> db.tasks[x].status.Blocked?) {
      assert ShapeOk(db, x);
    }
  }

  lemma EndKeepsRows(db: Db, live: multiset<nat>, t: nat, status: TaskStatus, now: nat)
    requires SchedulerInv(db, live) && t in live && status in {Failed, Blocked, Escalated} && WellFormed(End(db, t, status, now))
    ensures RowsExact(End(db, t, status, now))
  {
    EndRows(db, live, t, status, now);
    assert ShapeOk(db, t);
    var after := End(db, t, status, now);
    forall x: nat | x < |db.tasks| && x != t ensures RowState(after.tasks[x]) == RowState(db.tasks[x]) {
      assert ShapeOk(db, x);
    }
  }

  lemma EndKeepsScheduler(db: Db, live: multiset<nat>, t: nat, status: TaskStatus, now: nat)
    requires SchedulerInv(db, live) && t in live && status in {Failed, Blocked, Escalated}
    ensures SchedulerInv(End(db, t, status, now), live - multiset{t})
  {
    EndKeeps(db, live, t, status, now);
    EndKeepsRows(db, live, t, status, now);
    EndRows(db, live, t, status, now);
    var after := End(db, t, status, now);
    assert ShapeOk(db, t);
    forall x: nat | x < |db.tasks| ensures ShapeOk(after, x) {
      assert ShapeOk(db, x);
      EndKeepsShape(db, after, t, x);
    }
    forall x | x in live - multiset{t} ensures after.tasks[x].status.Running? {
      assert ShapeOk(db, x);
    }
  }

  lemma EndKeepsShape(db: Db, after: Db, t: nat, x: nat)
    requires t < |db.tasks| && x < |db.tasks| == |after.tasks| && |after.deps| == |db.deps|
    requires ShapeOk(db, x) && ShapeOk(db, t) && db.tasks[t].status.Running?
    requires forall j | 0 <= j < |db.deps| ::
      after.deps[j] == if db.deps[j].prerequisite == t then db.deps[j].(state := Unsatisfiable) else db.deps[j]
    requires DependsOn(db.deps, x, t) ==> x != t && !Started(db.tasks[x])
    requires x != t ==> after.tasks[x] == if DependsOn(db.deps, x, t) then db.tasks[x].(status := Blocked) else db.tasks[x]
    requires x == t ==> Unsuccessful(after.tasks[t].status) && after.tasks[t] == db.tasks[t].(status := after.tasks[t].status, completedAt := after.tasks[t].completedAt)
    ensures ShapeOk(after, x)
  {
  }

  lemma ResetKeepsScheduler(db: Db, live: multiset<nat>, t: nat, task: Task)
    requires SchedulerInv(db, live) && t in live && Consistent(SetTask(db, t, task), live - multiset{t})
    requires !Started(task) && task.completedAt == db.tasks[t].completedAt && (task.status.Ready? || task.status.Retrying?) && task.retryCount <= task.maxRetries
    ensures SchedulerInv(SetTask(db, t, task), live - multiset{t})
  {
    var after := SetTask(db, t, task);
    assert ShapeOk(db, t);
    forall x: nat | x < |db.tasks| ensures ShapeOk(after, x) && RowState(after.tasks[x]) == RowState(db.tasks[x]) {
      assert ShapeOk(db, x);
    }
  }

  lemma CompleteRowsExactly(db: Db, live: multiset<nat>, t: nat, kind: string, now: nat)
    requires SchedulerInv(db, live) && t in live
    ensures var after := Complete(db, t, kind, now);
      && |after.tasks| == |db.tasks| && |after.deps| == |db.deps|
      && (forall j | 0 <= j < |db.deps| ::
        after.deps[j] == if db.deps[j].prerequisite == t then db.deps[j].(state := Satisfied) else db.deps[j])
      && after.tasks[t].status.Completed? && after.tasks[t].startedAt == db.tasks[t].startedAt
      && after.tasks[t].retryCount == db.tasks[t].retryCount && after.tasks[t].maxRetries == db.tasks[t].maxRetries
      && (forall x: nat | x < |db.tasks| && x != t ::
        after.tasks[x] == db.tasks[x] || (after.tasks[x] == db.tasks[x].(status := Ready) && !Started(db.tasks[x]) && !IsTerminal(db.tasks[x].status)))
  {
    forall j | 0 <= j < |db.deps| && db.deps[j].prerequisite == t
      ensures Satisfies(db.deps[j], t) && !Started(db.tasks[db.deps[j].dependent])
    {
      assert ShapeOk(db, db.deps[j].dependent);
    }
  }

  lemma CompleteKeepsShape(db: Db, after: Db, t: nat, x: nat)
    requires t < |db.tasks| && x < |db.tasks| == |after.tasks| && |after.deps| == |db.deps|
    requires ShapeOk(db, x) && db.tasks[t].status.Running? && ShapeOk(db, t)
    requires forall j | 0 <= j < |db.deps| && db.deps[j].prerequisite == t :: db.deps[j].state.Unsatisfied?
    requires forall j | 0 <= j < |db.deps| ::
      after.deps[j] == if db.deps[j].prerequisite == t then db.deps[j].(state := Satisfied) else db.deps[j]
    requires x == t ==> after.tasks[t].status.Completed? && after.tasks[t].startedAt == db.tasks[t].startedAt
    requires after.tasks[x].retryCount <= after.tasks[x].maxRetries
    requires x != t ==>
      after.tasks[x] == db.tasks[x] || (after.tasks[x] == db.tasks[x].(status := Ready) && !Started(db.tasks[x]) && !IsTerminal(db.tasks[x].status))
    ensures ShapeOk(after, x)
  {
  }

  lemma CompleteKeepsRows(db: Db, live: multiset<nat>, t: nat, kind: string, now: nat)
    requires SchedulerInv(db, live) && t in live && WellFormed(Complete(db, t, kind, now))
    ensures RowsExact(Complete(db, t, kind, now))
  {
    CompleteRowsExactly(db, live, t, kind, now);
    var after := Complete(db, t, kind, now);
    forall x: nat | x < |db.tasks| && x != t ensures RowState(after.tasks[x]) == RowState(db.tasks[x]) {
      assert ShapeOk(db, x);
    }
  }

  lemma SucceedKeepsScheduler(db: Db, live: multiset<nat>, t: nat, kind: string, now: nat)
    requires SchedulerInv(db, live) && t in live
    ensures SchedulerInv(Succeed(db, t, kind, now), live - multiset{t})
  {
    SucceedKeeps(db, live, t, kind, now);
    CompleteKeepsRows(db, live, t, kind, now);
    CompleteRowsExactly(db, live, t, kind, now);
    var after := Complete(db, t, kind, now);
    assert ShapeOk(db, t);
    forall x: nat | x < |db.tasks| ensures ShapeOk(after, x) {
      assert ShapeOk(db, x);
      CompleteKeepsShape(db, after, t, x);
    }
  }

  lemma AgentUnavailableKeepsScheduler(db: Db, live: multiset<nat>, t: nat, takeovers: seq<string>, now: nat)
    requires SchedulerInv(db, live) && t in live
    ensures SchedulerInv(AgentUnavailable(db, t, takeovers, now), live - multiset{t})
  {
    AgentUnavailableKeeps(db, live, t, takeovers, now);
    assert ShapeOk(db, t);
    if takeovers == [] {
      EndKeepsScheduler(db, live, t, Escalated, now);
    } else {
      ResetKeepsScheduler(db, live, t, db.tasks[t].(agent := takeovers[0], status := Ready, startedAt := None));
    }
  }

  lemma RetryKeepsScheduler(db: Db, live: multiset<nat>, t: nat, now: nat)
    requires SchedulerInv(db, live) && t in live && db.tasks[t].retryCount < db.tasks[t].maxRetries
    ensures SchedulerInv(TaskFailure(db, t, now), live - multiset{t})
  {
    TaskFailureKeeps(db, live, t, now);
    var task := db.tasks[t];
    ResetKeepsScheduler(db, live, t, task.(retryCount := task.retryCount + 1, status := Retrying, startedAt := None));
  }

  lemma TaskFailureKeepsScheduler(db: Db, live: multiset<nat>, t: nat, now: nat)
    requires SchedulerInv(db, live) && t in live
    ensures SchedulerInv(TaskFailure(db, t, now), live - multiset{t})
  {
    if db.tasks[t].retryCount < db.tasks[t].maxRetries {
      RetryKeepsScheduler(db, live, t, now);
    } else {
      EndKeepsScheduler(db, live, t, Failed, now);
    }
  }

  lemma FinishKeepsScheduler(roster: seq<AgentRow>, db: Db, live: multiset<nat>, t: nat, outcome: Outcome, now: nat)
    requires SchedulerInv(db, live) && t in live
    ensures SchedulerInv(Finish(roster, db, t, outcome, now), live - multiset{t})
  {
    match Reported(roster, db.tasks[t], outcome)
    case Done => SucceedKeepsScheduler(db, live, t, outcome.kind, now);
    case Stale => EndKeepsScheduler(db, live, t, Blocked, now);
    case AgentDown => AgentUnavailableKeepsScheduler(db, live, t, EngineMachine.Takeovers(roster, db.tasks[t]), now);
    case Error => TaskFailureKeepsScheduler(db, live, t, now);
  }

  lemma TimeOutKeepsScheduler(db: Db, live: multiset<nat>, t: nat, now: nat)
    requires SchedulerInv(db, live) && t in live
    ensures SchedulerInv(TimeOut(db, t, now), live - multiset{t})
  {
    EndKeepsScheduler(db, live, t, Failed, now);
  }

  /** What crash recovery makes of it is a state the loop can go on from. */
  lemma ReapKeepsScheduler(db: Db, live: multiset<nat>)
    requires SchedulerInv(db, live)
    ensures SchedulerInv(Reap(db), multiset{})
    ensures forall t: nat | t < |db.tasks| ::
      Interrupted(Reap(db).tasks[t]) <==> Interrupted(db.tasks[t]) || (db.tasks[t].status.Running? && !db.tasks[t].safe)
  {
    ReapKeeps(db, live);
    var after := Reap(db);
    forall t: nat | t < |db.tasks|
      ensures ShapeOk(after, t) && RowState(after.tasks[t]) == RowState(db.tasks[t])
      ensures Interrupted(after.tasks[t]) <==> Interrupted(db.tasks[t]) || (db.tasks[t].status.Running? && !db.tasks[t].safe)
    {
      assert ShapeOk(db, t);
    }
  }

  // --- what is left when nothing is ready ---

  predicate AtStandstill(db: Db) {
    forall t | 0 <= t < |db.tasks| :: db.tasks[t].status in {Completed, Failed, Blocked, Escalated, Cancelled, WaitingForDependency}
  }

  /** With nothing running and nothing ready after a refresh, every task has ended or waits. */
  lemma NothingReadyIsStandstill(db: Db)
    requires SchedulerInv(db, multiset{}) && !SomeReady(Refresh(db))
    ensures AtStandstill(Refresh(db))
    ensures forall t: nat | t < |db.tasks| && Refresh(db).tasks[t].status.WaitingForDependency? :: !HardSatisfied(db.deps, t)
  {
    var after := Refresh(db);
    RefreshKeepsScheduler(db, multiset{});
    forall t: nat | t < |after.tasks|
      ensures IsTerminal(after.tasks[t].status) || after.tasks[t].status.WaitingForDependency?
      ensures after.tasks[t].status.WaitingForDependency? ==> !HardSatisfied(db.deps, t)
    {
      assert ShapeOk(db, t) && ShapeOk(after, t);
      assert !after.tasks[t].status.Ready?;
    }
  }

  /** Exactly which tasks a finished loop leaves waiting: those none of whose prerequisites announced its
      failure, but one waits itself, is blocked only by propagation, or was failed by crash recovery. */
  ghost predicate LeftWaiting(db: Db, t: nat) {
    && (forall y: nat | y < |db.tasks| && DependsOn(db.deps, t, y) :: !Announced(db.tasks[y]))
    && (exists y: nat | y < |db.tasks| && DependsOn(db.deps, t, y) :: Stuck(db.tasks[y]))
  }

  predicate Stuck(task: Task) {
    task.status.WaitingForDependency? || PropagationBlocked(task) || Interrupted(task)
  }

  lemma WaitingIsLeftWaiting(db: Db, t: nat)
    requires SchedulerInv(db, multiset{}) && AtStandstill(db) && t < |db.tasks|
    requires db.tasks[t].status.WaitingForDependency? && !HardSatisfied(db.deps, t)
    ensures LeftWaiting(db, t)
  {
    assert ShapeOk(db, t);
    var j :| 0 <= j < |db.deps| && db.deps[j].dependent == t && !db.deps[j].state.Satisfied?;
    var y := db.deps[j].prerequisite;
    assert ShapeOk(db, y) && DependsOn(db.deps, t, y);
    assert !db.deps[j].state.Unsatisfiable?;
    assert Stuck(db.tasks[y]);
    forall y: nat | y < |db.tasks| && DependsOn(db.deps, t, y) ensures !Announced(db.tasks[y]) {
      var k :| 0 <= k < |db.deps| && db.deps[k].dependent == t && db.deps[k].prerequisite == y;
      assert !db.deps[k].state.Unsatisfiable?;
    }
  }

  lemma LeftWaitingIsWaiting(db: Db, t: nat)
    requires SchedulerInv(db, multiset{}) && AtStandstill(db) && t < |db.tasks| && LeftWaiting(db, t)
    ensures db.tasks[t].status.WaitingForDependency?
  {
    assert ShapeOk(db, t);
    var y: nat :| y < |db.tasks| && DependsOn(db.deps, t, y) && Stuck(db.tasks[y]);
    var j :| 0 <= j < |db.deps| && db.deps[j].dependent == t && db.deps[j].prerequisite == y;
    assert !db.deps[j].state.Satisfied?;
    assert !HasDeadRow(db.deps, t);
  }

  lemma LeftWaitingIff(db: Db, t: nat)
    requires SchedulerInv(db, multiset{}) && AtStandstill(db) && t < |db.tasks|
    requires db.tasks[t].status.WaitingForDependency? ==> !HardSatisfied(db.deps, t)
    ensures db.tasks[t].status.WaitingForDependency? <==> LeftWaiting(db, t)
  {
    if db.tasks[t].status.WaitingForDependency? {
      WaitingIsLeftWaiting(db, t);
    } else if LeftWaiting(db, t) {
      LeftWaitingIsWaiting(db, t);
    }
  }
}
