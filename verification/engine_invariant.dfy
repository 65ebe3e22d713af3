/** What every transaction of the task engine keeps, timeouts, late errors of orphaned dispatches and
    crash recovery included. `live` counts the dispatches that have not reported yet, per task. */
module EngineInvariant {
  import opened Vocabulary
  import opened TaskRows

  predicate AllHard(deps: seq<Dependency>) {
    forall j | 0 <= j < |deps| :: deps[j].hard
  }

  /** A satisfied row's prerequisite is completed; a task that is ready, running, completed or still
      being dispatched has only satisfied rows; a dispatch in flight belongs to a running task or to
      one that timed out or was cancelled; and no task is dispatched twice at once. */
  ghost predicate Consistent(db: Db, live: multiset<nat>) {
    && WellFormed(db) && AllHard(db.deps)
    && (forall j | 0 <= j < |db.deps| && db.deps[j].state.Satisfied? :: db.tasks[db.deps[j].prerequisite].status.Completed?)
    && (forall t | 0 <= t < |db.tasks| && (db.tasks[t].status in {Ready, Running, Completed} || t in live) :: HardSatisfied(db.deps, t))
    && (forall t | t in live :: live[t] == 1 && t < |db.tasks| && db.tasks[t].status in {Running, Failed, Cancelled})
    && (forall t | 0 <= t < |db.tasks| && db.tasks[t].status.Running? :: t in live)
  }

  /** Claiming is safe: every prerequisite of a claimable task is completed. */
  lemma ClaimableMeansPrerequisitesCompleted(db: Db, live: multiset<nat>, j: nat)
    requires Consistent(db, live) && j < |db.deps| && Claimable(db, db.deps[j].dependent)
    ensures db.tasks[db.deps[j].prerequisite].status.Completed?
    ensures db.deps[j].dependent !in live
  {
  }

  lemma RefreshKeeps(db: Db, live: multiset<nat>)
    requires Consistent(db, live)
    ensures Consistent(Refresh(db), live)
  {
  }

  lemma ClaimKeeps(db: Db, live: multiset<nat>, t: nat, now: nat)
    requires Consistent(db, live) && Claimable(db, t)
    ensures Consistent(Claim(db, t, now), live + multiset{t})
  {
  }

  /** A dispatch of a task that is not completed ends, and blocks what waits for the task. */
  lemma MarkUnsatisfiableKeeps(db: Db, live: multiset<nat>, t: nat)
    requires Consistent(db, live) && t < |db.tasks| && !db.tasks[t].status.Completed?
    ensures Consistent(MarkUnsatisfiable(db, t), live)
  {
  }

  lemma EndKeeps(db: Db, live: multiset<nat>, t: nat, status: TaskStatus, now: nat)
    requires Consistent(db, live) && t in live && status in {Failed, Blocked, Escalated}
    ensures Consistent(End(db, t, status, now), live - multiset{t})
  {
    var ended := SetTask(db, t, db.tasks[t].(status := status, completedAt := Some(now)));
    assert Consistent(ended, live - multiset{t});
    MarkUnsatisfiableKeeps(ended, live - multiset{t}, t);
  }

  /** A timeout fails the task but leaves its dispatch running. */
  lemma TimeOutKeeps(db: Db, live: multiset<nat>, t: nat, now: nat)
    requires Consistent(db, live) && t < |db.tasks|
    ensures Consistent(TimeOut(db, t, now), live)
  {
    if db.tasks[t].status.Running? {
      var ended := SetTask(db, t, db.tasks[t].(status := Failed, completedAt := Some(now)));
      assert Consistent(ended, live);
      MarkUnsatisfiableKeeps(ended, live, t);
    }
  }

  lemma AgentUnavailableKeeps(db: Db, live: multiset<nat>, t: nat, candidates: seq<string>, now: nat)
    requires Consistent(db, live) && t in live
    ensures Consistent(AgentUnavailable(db, t, candidates, now), live - multiset{t})
  {
    if candidates == [] {
      EndKeeps(db, live, t, Escalated, now);
    }
  }

  lemma TaskFailureKeeps(db: Db, live: multiset<nat>, t: nat, now: nat)
    requires Consistent(db, live) && t in live
    ensures Consistent(TaskFailure(db, t, now), live - multiset{t})
  {
    if db.tasks[t].retryCount >= db.tasks[t].maxRetries {
      EndKeeps(db, live, t, Failed, now);
    }
  }

  lemma EvaluateKeeps(db: Db, live: multiset<nat>, t: nat)
    requires Consistent(db, live) && t < |db.tasks| && db.tasks[t].status.Completed?
    ensures Consistent(Evaluate(db, t), live)
  {
    var after := Evaluate(db, t);
    forall x | 0 <= x < |db.tasks| && HardSatisfied(db.deps, x) ensures HardSatisfied(after.deps, x) && after.tasks[x] == db.tasks[x] {
    }
  }

  lemma DispatchKeepsOthers(db: Db, t: nat, kind: string)
    requires WellFormed(db) && t < |db.tasks|
    ensures WellFormed(Dispatch(db, t, kind)) && Dispatch(db, t, kind).deps == db.deps
    ensures forall x | 0 <= x < |db.tasks| :: Dispatch(db, t, kind).tasks[x].status == db.tasks[x].status
    ensures |Dispatch(db, t, kind).tasks| == |db.tasks|
  {
  }

  lemma SucceedKeeps(db: Db, live: multiset<nat>, t: nat, kind: string, now: nat)
    requires Consistent(db, live) && t in live
    ensures Consistent(Succeed(db, t, kind, now), live - multiset{t})
  {
    if db.tasks[t].status.Running? {
      var written := Dispatch(db, t, kind);
      DispatchKeepsOthers(db, t, kind);
      var done := SetTask(written, t, written.tasks[t].(status := Completed, completedAt := Some(now)));
      assert Consistent(done, live - multiset{t});
      EvaluateKeeps(done, live - multiset{t}, t);
    }
  }

  lemma CancelKeeps(db: Db, live: multiset<nat>)
    requires Consistent(db, live)
    ensures Consistent(Cancel(db), live)
  {
  }

  lemma ReapKeeps(db: Db, live: multiset<nat>)
    requires Consistent(db, live)
    ensures Consistent(Reap(db), multiset{})
  {
  }
}
