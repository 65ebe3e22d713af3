/** The event log of one run: every status a task takes and every state a dependency row takes. */
module EventLog {
  import opened Vocabulary
  import opened TaskRows

  datatype RunStatus =
    | RunQueued | RunPlanning | RunRunning | RunWaiting | RunStalled
    | RunCompleted | RunFailed | RunCannotPlan | RunCancelled

  datatype Event =
    | TaskEvent(task: nat, status: TaskStatus)
    | RowEvent(row: nat, state: DependencyState)
    | ResultEvent(artefact: nat)
    | RunEvent(run: RunStatus)

  /** The status the log last gave a task; the planner stores tasks as planned. */
  function StatusAfter(events: seq<Event>, t: nat): TaskStatus {
    if events == [] then Planned
    else
      var last := events[|events| - 1];
      if last.TaskEvent? && last.task == t then last.status else StatusAfter(events[..|events| - 1], t)
  }

  function StateAfter(events: seq<Event>, j: nat): DependencyState {
    if events == [] then Unsatisfied
    else
      var last := events[|events| - 1];
      if last.RowEvent? && last.row == j then last.state else StateAfter(events[..|events| - 1], j)
  }

  /** Replaying the log gives back the status of every task and the state of every dependency row. */
  ghost predicate Replays(db: Db, events: seq<Event>) {
    && (forall t | 0 <= t < |db.tasks| :: StatusAfter(events, t) == db.tasks[t].status)
    && (forall j | 0 <= j < |db.deps| :: StateAfter(events, j) == db.deps[j].state)
  }

  lemma EventReplays(db: Db, events: seq<Event>, event: Event, after: Db)
    requires Replays(db, events) && |after.tasks| == |db.tasks| && |after.deps| == |db.deps|
    requires forall t | 0 <= t < |db.tasks| ::
      after.tasks[t].status == if event.TaskEvent? && event.task == t then event.status else db.tasks[t].status
    requires forall j | 0 <= j < |db.deps| ::
      after.deps[j].state == if event.RowEvent? && event.row == j then event.state else db.deps[j].state
    ensures Replays(after, events + [event])
  {
  }

  /** Crash recovery writes no event: the log still replays to the tables exactly when no task was
      running. */
  lemma ReaperKeepsReplayIff(db: Db, events: seq<Event>)
    requires Replays(db, events)
    ensures Replays(Reap(db), events) <==> forall t | 0 <= t < |db.tasks| :: !db.tasks[t].status.Running?
  {
  }

  /** Nor does a cancellation write events: the log still replays exactly when it had nothing to cancel. */
  lemma CancelKeepsReplayIff(db: Db, events: seq<Event>)
    requires Replays(db, events)
    ensures Replays(Cancel(db), events) <==> forall t | 0 <= t < |db.tasks| :: db.tasks[t].status in {Completed, Failed, Cancelled}
  {
  }
}

/** One run's tables in one transaction at a time. */
module EngineStore {
  import opened Vocabulary
  import opened TaskRows
  import opened EventLog

  datatype Saved = Saved(db: Db, events: seq<Event>, status: RunStatus)

  class RunStore {
    var db: Db
    var events: seq<Event>
    var status: RunStatus
    var saved: Saved

    constructor (db: Db, events: seq<Event>, status: RunStatus)
      ensures this.db == db && this.events == events && this.status == status && Clean()
    {
      this.db, this.events, this.status := db, events, status;
      this.saved := Saved(db, events, status);
    }

    /** No transaction is open. */
    predicate Clean()
      reads this
    {
      saved == Saved(db, events, status)
    }

    method Commit()
      modifies `saved
      ensures Clean()
    {
      saved := Saved(db, events, status);
    }

    method Rollback()
      modifies `db, `events, `status
      ensures Clean()
    {
      db, events, status := saved.db, saved.events, saved.status;
    }

    method Emit(event: Event)
      modifies `events
      ensures events == old(events) + [event]
    {
      events := events + [event];
    }
  }
}

module DependencyResolver {
  import opened Vocabulary
  import opened TaskRows
  import opened RowEffects
  import opened EventLog
  import opened EngineStore

  /** Stores a task row and writes the event that reports its status. */
  method PutTask(store: RunStore, t: nat, task: Task)
    requires t < |store.db.tasks|
    modifies store`db, store`events
    ensures store.db == SetTask(old(store.db), t, task)
    ensures store.events == old(store.events) + [TaskEvent(t, task.status)]
    ensures Replays(old(store.db), old(store.events)) ==> Replays(store.db, store.events)
  {
    ghost var before, events := store.db, store.events;
    store.db := SetTask(store.db, t, task);
    store.Emit(TaskEvent(t, task.status));
    if Replays(before, events) {
      EventReplays(before, events, TaskEvent(t, task.status), store.db);
    }
  }

  method SetState(store: RunStore, j: nat, state: DependencyState)
    requires j < |store.db.deps|
    modifies store`db, store`events
    ensures store.db == old(store.db).(deps := old(store.db).deps[j := old(store.db).deps[j].(state := state)])
    ensures store.events == old(store.events) + [RowEvent(j, state)]
    ensures Replays(old(store.db), old(store.events)) ==> Replays(store.db, store.events)
  {
    ghost var before, events := store.db, store.events;
    store.db := store.db.(deps := store.db.deps[j := store.db.deps[j].(state := state)]);
    store.Emit(RowEvent(j, state));
    if Replays(before, events) {
      EventReplays(before, events, RowEvent(j, state), store.db);
    }
  }

  method ReadyTasks(store: RunStore) returns (ready: seq<nat>)
    modifies store`db, store`events
    ensures store.db == Refresh(old(store.db)) && Refreshes(old(store.db), store.db)
    ensures forall t: nat :: t in ready <==> t < |store.db.tasks| && store.db.tasks[t].status.Ready?
    ensures forall i, j | 0 <= i < j < |ready| :: ready[i] < ready[j]
    ensures Replays(old(store.db), old(store.events)) ==> Replays(store.db, store.events)
  {
    ready := [];
    ghost var before := store.db;
    for t := 0 to |store.db.tasks|
      invariant |store.db.tasks| == |before.tasks| && store.db == before.(tasks := store.db.tasks)
      invariant forall x | 0 <= x < |before.tasks| ::
        store.db.tasks[x] == if x < t then Refreshed(before.tasks[x], HardSatisfied(before.deps, x)) else before.tasks[x]
      invariant forall x: nat :: x in ready <==> x < t && store.db.tasks[x].status.Ready?
      invariant forall i, j | 0 <= i < j < |ready| :: ready[i] < ready[j]
      invariant Replays(before, old(store.events)) ==> Replays(store.db, store.events)
    {
      var task := store.db.tasks[t];
      if IsCandidate(task.status) {
        if HardSatisfied(store.db.deps, t) {
          if !task.status.Ready? {
            PutTask(store, t, task.(status := Ready));
          }
          assert forall i | 0 <= i < |ready| :: ready[i] in ready;
          ready := ready + [t];
        } else if !task.status.WaitingForDependency? {
          PutTask(store, t, task.(status := WaitingForDependency));
        }
      }
    }
    assert store.db.tasks == Refresh(before).tasks;
    RefreshEffect(before);
  }

  // --- on completion ---

  /** `Evaluate` cut off after the first `n` dependency rows. */
  ghost predicate EvaluatedUpTo(before: Db, after: Db, t: nat, n: nat) {
    && n <= |before.deps| == |after.deps| && |after.tasks| == |before.tasks|
    && after == before.(deps := after.deps, tasks := after.tasks)
    && (forall j | 0 <= j < |before.deps| ::
      after.deps[j] == if j < n && Satisfies(before.deps[j], t) then before.deps[j].(state := Satisfied) else before.deps[j])
    && (forall x: nat | x < |before.tasks| ::
      after.tasks[x] == WokenTask(before.tasks[x], WokenUpTo(before.deps, t, x, n) && HardSatisfied(after.deps, x)))
  }

  predicate WokenUpTo(deps: seq<Dependency>, t: nat, x: nat, n: nat)
    requires n <= |deps|
  {
    exists j | 0 <= j < n :: deps[j].dependent == x && Satisfies(deps[j], t)
  }

  lemma EvaluatedAll(before: Db, after: Db, t: nat)
    requires EvaluatedUpTo(before, after, t, |before.deps|)
    ensures after == Evaluate(before, t)
  {
    var target := Evaluate(before, t);
    assert after.deps == target.deps;
    forall x: nat | x < |before.tasks| ensures after.tasks[x] == target.tasks[x] {
      assert WokenUpTo(before.deps, t, x, |before.deps|) <==> Woken(before.deps, t, x);
    }
    assert after.tasks == target.tasks;
  }

  lemma SkippedRow(before: Db, after: Db, t: nat, n: nat)
    requires n < |before.deps| && EvaluatedUpTo(before, after, t, n) && !Satisfies(before.deps[n], t)
    ensures EvaluatedUpTo(before, after, t, n + 1)
  {
  }

  lemma SatisfiedRow(before: Db, mid: Db, after: Db, t: nat, n: nat)
    requires WellFormed(before) && n < |before.deps| && EvaluatedUpTo(before, mid, t, n) && Satisfies(before.deps[n], t)
    requires after.deps == mid.deps[n := mid.deps[n].(state := Satisfied)] && after == mid.(deps := after.deps, tasks := after.tasks)
    requires var x := before.deps[n].dependent;
      |after.tasks| == |mid.tasks| && after.tasks[x] == WokenTask(mid.tasks[x], HardSatisfied(after.deps, x))
      && forall y: nat | y < |mid.tasks| && y != x :: after.tasks[y] == mid.tasks[y]
    ensures EvaluatedUpTo(before, after, t, n + 1)
  {
  }

  method SatisfyRow(store: RunStore, t: nat, n: nat, ghost before: Db)
    requires WellFormed(before) && n < |before.deps| && EvaluatedUpTo(before, store.db, t, n) && Satisfies(before.deps[n], t)
    modifies store`db, store`events
    ensures EvaluatedUpTo(before, store.db, t, n + 1)
    ensures Replays(old(store.db), old(store.events)) ==> Replays(store.db, store.events)
  {
    ghost var mid := store.db;
    SetState(store, n, Satisfied);
    var x := store.db.deps[n].dependent;
    if !IsTerminal(store.db.tasks[x].status) && HardSatisfied(store.db.deps, x) {
      PutTask(store, x, store.db.tasks[x].(status := Ready));
    }
    SatisfiedRow(before, mid, store.db, t, n);
  }

  /** Marks the rows the completed task satisfies one by one and wakes each dependent whose hard rows
      are then all satisfied; together that is `Evaluate`. */
  method EvaluateOnCompletion(store: RunStore, t: nat)
    requires WellFormed(store.db)
    modifies store`db, store`events
    ensures store.db == Evaluate(old(store.db), t) && SatisfiesRowsOf(old(store.db), store.db, t)
    ensures Replays(old(store.db), old(store.events)) ==> Replays(store.db, store.events)
  {
    ghost var before := store.db;
    for n := 0 to |store.db.deps|
      invariant EvaluatedUpTo(before, store.db, t, n)
      invariant Replays(before, old(store.events)) ==> Replays(store.db, store.events)
    {
      if Satisfies(store.db.deps[n], t) {
        SatisfyRow(store, t, n, before);
      } else {
        SkippedRow(before, store.db, t, n);
      }
    }
    EvaluatedAll(before, store.db, t);
    EvaluateEffect(before, t);
  }

  // --- on failure ---

  predicate DoomedUpTo(deps: seq<Dependency>, t: nat, x: nat, n: nat)
    requires n <= |deps|
  {
    exists j | 0 <= j < n :: deps[j].dependent == x && Fails(deps[j], t)
  }

  ghost predicate MarkedUpTo(before: Db, after: Db, t: nat, n: nat) {
    && n <= |before.deps| == |after.deps| && |after.tasks| == |before.tasks|
    && after == before.(deps := after.deps, tasks := after.tasks)
    && (forall j | 0 <= j < |before.deps| ::
      after.deps[j] == if j < n && Fails(before.deps[j], t) then before.deps[j].(state := Unsatisfiable) else before.deps[j])
    && (forall x: nat | x < |before.tasks| :: after.tasks[x] == BlockedTask(before.tasks[x], DoomedUpTo(before.deps, t, x, n)))
  }

  lemma MarkedStep(before: Db, mid: Db, after: Db, t: nat, n: nat)
    requires WellFormed(before) && n < |before.deps| && MarkedUpTo(before, mid, t, n)
    requires after == mid.(deps := after.deps, tasks := after.tasks)
    requires after.deps == (if Fails(before.deps[n], t) then mid.deps[n := mid.deps[n].(state := Unsatisfiable)] else mid.deps)
    requires var x := before.deps[n].dependent;
      |after.tasks| == |mid.tasks| && after.tasks[x] == BlockedTask(mid.tasks[x], Fails(before.deps[n], t))
      && forall y: nat | y < |mid.tasks| && y != x :: after.tasks[y] == mid.tasks[y]
    ensures MarkedUpTo(before, after, t, n + 1)
  {
  }

  lemma MarkedAll(before: Db, after: Db, t: nat)
    requires MarkedUpTo(before, after, t, |before.deps|)
    ensures after == MarkUnsatisfiable(before, t)
  {
  }

  method FailRow(store: RunStore, t: nat, n: nat, ghost before: Db)
    requires WellFormed(before) && n < |before.deps| && MarkedUpTo(before, store.db, t, n)
    modifies store`db, store`events
    ensures MarkedUpTo(before, store.db, t, n + 1)
    ensures Replays(old(store.db), old(store.events)) ==> Replays(store.db, store.events)
  {
    ghost var mid := store.db;
    if Fails(store.db.deps[n], t) {
      SetState(store, n, Unsatisfiable);
      var x := store.db.deps[n].dependent;
      if !IsTerminal(store.db.tasks[x].status) {
        PutTask(store, x, store.db.tasks[x].(status := Blocked));
      }
    }
    MarkedStep(before, mid, store.db, t, n);
  }

  method MarkRowsUnsatisfiable(store: RunStore, t: nat)
    requires WellFormed(store.db)
    modifies store`db, store`events
    ensures store.db == MarkUnsatisfiable(old(store.db), t) && KillsRowsOf(old(store.db), store.db, t)
    ensures Replays(old(store.db), old(store.events)) ==> Replays(store.db, store.events)
  {
    ghost var before := store.db;
    for n := 0 to |store.db.deps|
      invariant MarkedUpTo(before, store.db, t, n)
      invariant Replays(before, old(store.events)) ==> Replays(store.db, store.events)
    {
      FailRow(store, t, n, before);
    }
    MarkedAll(before, store.db, t);
    MarkEffect(before, t);
  }
}
