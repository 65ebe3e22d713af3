/** Closing a run: timings, and whether the run completes, fails or waits. */
module RunCompletion {
  import opened Vocabulary
  import opened TaskRows
  import opened EventLog
  import opened EngineStore
  import opened EngineWindows
  import opened ArtefactInvariant
  import opened EngineInvariant

  /** Times are in microseconds. */
  const SECOND: nat := 1_000_000

  predicate OverlapsAnother(db: Db, t: nat)
    requires t < |db.tasks| && HasWindow(db.tasks[t])
  {
    exists x | 0 <= x < |db.tasks| :: x != t && HasWindow(db.tasks[x]) && Overlap(db.tasks[x], db.tasks[t])
  }

  predicate CompletesFor(db: Db, j: nat, t: nat)
    requires WellFormed(db) && j < |db.deps|
  {
    db.deps[j].dependent == t && db.tasks[db.deps[j].prerequisite].completedAt.Some?
  }

  /** The latest moment at which one of the first `n` rows' prerequisites of `t` ended. */
  ghost predicate IsLatest(db: Db, t: nat, n: nat, latest: Option<nat>)
    requires WellFormed(db) && n <= |db.deps|
  {
    && (forall j | 0 <= j < n && db.deps[j].dependent == t && db.tasks[db.deps[j].prerequisite].completedAt.Some? ::
      latest.Some? && db.tasks[db.deps[j].prerequisite].completedAt.value <= latest.value)
    && (latest.Some? ==>
      exists j | 0 <= j < n :: db.deps[j].dependent == t && db.tasks[db.deps[j].prerequisite].completedAt == latest)
  }

  method LatestCompletion(db: Db, t: nat) returns (latest: Option<nat>)
    requires WellFormed(db)
    ensures IsLatest(db, t, |db.deps|, latest)
  {
    latest := None;
    for j := 0 to |db.deps|
      invariant IsLatest(db, t, j, latest)
    {
      if CompletesFor(db, j, t) {
        var ended := db.tasks[db.deps[j].prerequisite].completedAt;
        if latest.None? || latest.value < ended.value {
          latest := ended;
        }
      }
    }
  }

  /** Another task that has started and ended was under way during some of the time that `t` was. */
  ghost predicate RanBeside(db: Db, t: nat)
    requires t < |db.tasks| && db.tasks[t].startedAt.Some? && db.tasks[t].completedAt.Some?
  {
    exists x | 0 <= x < |db.tasks| ::
      && x != t && db.tasks[x].startedAt.Some? && db.tasks[x].completedAt.Some?
      && db.tasks[x].startedAt.value < db.tasks[t].completedAt.value && db.tasks[t].startedAt.value < db.tasks[x].completedAt.value
  }

  /** The wait is in whole seconds, none if the prerequisite ended after the start, and left alone without one. */
  predicate WaitIs(task: Task, latest: Option<nat>, wait: nat)
    requires task.startedAt.Some?
  {
    && (latest.None? ==> wait == task.waitSeconds)
    && (latest.Some? && latest.value > task.startedAt.value ==> wait == 0)
    && (latest.Some? && latest.value <= task.startedAt.value ==>
      wait * 1_000_000 <= task.startedAt.value - latest.value < (wait + 1) * 1_000_000)
  }

  /** The timing fields of `after` are what the times of `db` say; everything else is as it was. */
  ghost predicate Timed(db: Db, t: nat, after: Task)
    requires WellFormed(db) && t < |db.tasks|
  {
    var task := db.tasks[t];
    && after == task.(ranConcurrently := after.ranConcurrently, waitSeconds := after.waitSeconds)
    && (task.startedAt.None? || task.completedAt.None? ==> after == task)
    && (task.startedAt.Some? && task.completedAt.Some? ==>
      && (after.ranConcurrently <==> RanBeside(db, t))
      && (forall latest | IsLatest(db, t, |db.deps|, latest) :: WaitIs(task, latest, after.waitSeconds)))
  }

  function Wait(task: Task, latest: Option<nat>): (wait: nat)
    requires task.startedAt.Some?
    ensures WaitIs(task, latest, wait)
  {
    if latest.None? then task.waitSeconds
    else if latest.value <= task.startedAt.value then (task.startedAt.value - latest.value) / SECOND
    else 0
  }

  method RecordTimings(store: RunStore)
    requires WellFormed(store.db)
    modifies store`db
    ensures |store.db.tasks| == |old(store.db).tasks| && store.db == old(store.db).(tasks := store.db.tasks)
    ensures forall t: nat | t < |store.db.tasks| :: Timed(old(store.db), t, store.db.tasks[t])
  {
    ghost var before := store.db;
    for t := 0 to |store.db.tasks|
      invariant |store.db.tasks| == |before.tasks| && store.db == before.(tasks := store.db.tasks)
      invariant forall x: nat | x < t :: Timed(before, x, store.db.tasks[x])
      invariant forall x: nat | t <= x < |before.tasks| :: store.db.tasks[x] == before.tasks[x]
    {
      TimeTask(store, t, before);
    }
  }

  method TimeTask(store: RunStore, t: nat, ghost before: Db)
    requires WellFormed(before) && t < |before.tasks| == |store.db.tasks| && store.db == before.(tasks := store.db.tasks)
    requires forall x: nat | x < t :: Timed(before, x, store.db.tasks[x])
    requires forall x: nat | t <= x < |before.tasks| :: store.db.tasks[x] == before.tasks[x]
    modifies store`db
    ensures |store.db.tasks| == |before.tasks| && store.db == before.(tasks := store.db.tasks)
    ensures Timed(before, t, store.db.tasks[t])
    ensures forall x: nat | x < |before.tasks| && x != t :: store.db.tasks[x] == old(store.db).tasks[x]
  {
    var task := store.db.tasks[t];
    if HasWindow(task) {
      SameWindows(before, store.db, t);
      var overlaps := OverlapsAnother(store.db, t);
      assert overlaps <==> RanBeside(before, t);
      var latest := LatestCompletion(store.db, t);
      SameLatest(before, store.db, t, latest);
      task := task.(ranConcurrently := overlaps, waitSeconds := Wait(task, latest));
      store.db := SetTask(store.db, t, task);
      assert Timed(before, t, task) by { LatestIsUnique(before, t, latest); }
    }
  }

  ghost predicate SameTimesAll(db: Db, after: Db) {
    && |after.tasks| == |db.tasks| && after.deps == db.deps
    && forall x: nat | x < |db.tasks| :: after.tasks[x].startedAt == db.tasks[x].startedAt && after.tasks[x].completedAt == db.tasks[x].completedAt
  }

  lemma SameWindows(db: Db, after: Db, t: nat)
    requires SameTimesAll(db, after) && t < |db.tasks| && HasWindow(db.tasks[t])
    ensures OverlapsAnother(after, t) <==> OverlapsAnother(db, t)
  {
  }

  lemma SameLatest(db: Db, after: Db, t: nat, latest: Option<nat>)
    requires WellFormed(db) && WellFormed(after) && SameTimesAll(db, after) && IsLatest(after, t, |after.deps|, latest)
    ensures IsLatest(db, t, |db.deps|, latest)
  {
    forall j: nat | j < |db.deps| ensures CompletesFor(after, j, t) <==> CompletesFor(db, j, t) {}
  }

  lemma LatestIsUnique(db: Db, t: nat, latest: Option<nat>)
    requires WellFormed(db) && IsLatest(db, t, |db.deps|, latest)
    ensures forall other | IsLatest(db, t, |db.deps|, other) :: other == latest
  {
  }

  /** While the windows are in order the recorded timings mean what they say: a task marked as having run
      concurrently is concurrency-safe, and the wait is exactly the time since the last prerequisite
      completed, never clamped. */
  lemma TimingsAreMeaningful(db: Db, clock: nat, t: nat, after: Task)
    requires WindowsOk(db, clock) && t < |db.tasks| && HasWindow(db.tasks[t]) && Timed(db, t, after)
    ensures after.ranConcurrently ==> after.safe
    ensures forall latest: nat | IsLatest(db, t, |db.deps|, Some(latest)) ::
      latest <= after.startedAt.value && after.waitSeconds == (after.startedAt.value - latest) / SECOND
  {
  }

  // --- the verdict ---

  predicate AllTerminal(db: Db) {
    forall t | 0 <= t < |db.tasks| :: IsTerminal(db.tasks[t].status)
  }

  predicate SomeReady(db: Db) {
    exists t | 0 <= t < |db.tasks| :: db.tasks[t].status.Ready?
  }

  predicate Unsuccessful(status: TaskStatus) {
    status.Failed? || status.Blocked? || status.Escalated?
  }

  predicate SomeUnsuccessful(db: Db) {
    exists t | 0 <= t < |db.tasks| :: Unsuccessful(db.tasks[t].status)
  }

  predicate AllDispositioned(db: Db) {
    forall a | 0 <= a < |db.artefacts| :: !db.artefacts[a].disposition.Undispositioned?
  }

  /** Nothing keeps the run from completing. */
  predicate MayComplete(db: Db, pendingApproval: bool) {
    AllTerminal(db) && !SomeUnsuccessful(db) && AllDispositioned(db) && !pendingApproval
  }

  /** The loop closes the run no further: it is neither complete nor failed. */
  predicate LeftOpen(db: Db, pendingApproval: bool) {
    !MayComplete(db, pendingApproval) && !(AllTerminal(db) && SomeUnsuccessful(db))
  }

  /** How closing leaves the run: an open task keeps it going if one is ready and else parks it; once all have
      ended an unsuccessful one fails it; then an artefact without disposition or a pending approval parks it. */
  ghost predicate ClosesAs(db: Db, pendingApproval: bool, before: RunStatus, after: RunStatus) {
    var ended := forall t | 0 <= t < |db.tasks| :: db.tasks[t].status in {Completed, Failed, Blocked, Escalated, Cancelled};
    var ready := exists t | 0 <= t < |db.tasks| :: db.tasks[t].status == Ready;
    var failed := exists t | 0 <= t < |db.tasks| :: db.tasks[t].status in {Failed, Blocked, Escalated};
    var undecided := exists a | 0 <= a < |db.artefacts| :: db.artefacts[a].disposition == Undispositioned;
    && (!ended && ready ==> after == before)
    && (!ended && !ready ==> after == RunWaiting)
    && (ended && failed ==> after == RunFailed)
    && (ended && !failed && (undecided || pendingApproval) ==> after == RunWaiting)
    && (ended && !failed && !undecided && !pendingApproval ==> after == RunCompleted)
  }

  lemma VerdictCloses(db: Db, pendingApproval: bool, before: RunStatus)
    ensures ClosesAs(db, pendingApproval, before,
      if MayComplete(db, pendingApproval) then RunCompleted
      else if !LeftOpen(db, pendingApproval) then RunFailed
      else if SomeReady(db) && !AllTerminal(db) then before else RunWaiting)
  {
    forall t | 0 <= t < |db.tasks|
      ensures IsTerminal(db.tasks[t].status) <==> db.tasks[t].status in {Completed, Failed, Blocked, Escalated, Cancelled}
      ensures Unsuccessful(db.tasks[t].status) <==> db.tasks[t].status in {Failed, Blocked, Escalated} {}
  }

  method Finalize(store: RunStore, pendingApproval: bool) returns (terminal: bool)
    requires store.Clean() && WellFormed(store.db)
    modifies store
    ensures store.Clean()
    ensures terminal <==> !LeftOpen(old(store.db), pendingApproval)
    ensures terminal ==> store.status == if MayComplete(old(store.db), pendingApproval) then RunCompleted else RunFailed
    ensures terminal ==> store.events == old(store.events) + [RunEvent(store.status)]
    ensures !terminal ==> store.events == old(store.events)
    ensures !terminal ==> store.status == if SomeReady(old(store.db)) then old(store.status) else RunWaiting
    ensures ClosesAs(old(store.db), pendingApproval, old(store.status), store.status)
    ensures |store.db.tasks| == |old(store.db).tasks| && store.db == old(store.db).(tasks := store.db.tasks)
    ensures !AllTerminal(old(store.db)) ==> store.db == old(store.db)
    ensures AllTerminal(old(store.db)) ==> forall t: nat | t < |store.db.tasks| :: Timed(old(store.db), t, store.db.tasks[t])
    ensures Replays(old(store.db), old(store.events)) ==> Replays(store.db, store.events)
  {
    ghost var before := store.db;
    VerdictCloses(before, pendingApproval, store.status);
    if !AllTerminal(store.db) {
      if SomeReady(store.db) {
        return false;
      }
      store.status := RunWaiting;
      store.Commit();
      return false;
    }
    RecordTimings(store);
    VerdictIgnoresTimings(before, store.db);
    if SomeUnsuccessful(store.db) {
      store.status := RunFailed;
      store.Emit(RunEvent(RunFailed));
    } else if !AllDispositioned(store.db) || pendingApproval {
      store.status := RunWaiting;
      store.Commit();
      return false;
    } else {
      store.status := RunCompleted;
      store.Emit(RunEvent(RunCompleted));
    }
    ReplaysIgnoresRunEvents(before, old(store.events), store.db, store.events);
    store.Commit();
    terminal := true;
  }

  /** The loop does not look at the run's status. A run that was cancelled while its loop was running is
      closed by it as completed exactly when no task had failed, all artefacts are dispositioned and no
      approval is pending, as failed exactly when a task had failed, and else set back to waiting. */
  lemma CancelledRunIsClosedAgain(db: Db, pendingApproval: bool)
    ensures AllTerminal(Cancel(db))
    ensures SomeUnsuccessful(Cancel(db)) <==> exists t | 0 <= t < |db.tasks| :: db.tasks[t].status.Failed?
    ensures MayComplete(Cancel(db), pendingApproval) <==>
      (forall t | 0 <= t < |db.tasks| :: !db.tasks[t].status.Failed?) && AllDispositioned(db) && !pendingApproval
    ensures LeftOpen(Cancel(db), pendingApproval) <==>
      (forall t | 0 <= t < |db.tasks| :: !db.tasks[t].status.Failed?) && (pendingApproval || !AllDispositioned(db))
    ensures !SomeReady(Cancel(db))
  {
    forall t | 0 <= t < |db.tasks| ensures Unsuccessful(Cancel(db).tasks[t].status) <==> db.tasks[t].status.Failed? {}
    if t :| 0 <= t < |db.tasks| && db.tasks[t].status.Failed? {
      assert Unsuccessful(Cancel(db).tasks[t].status);
    }
  }

  lemma VerdictIgnoresTimings(db: Db, after: Db)
    requires WellFormed(db) && |after.tasks| == |db.tasks| && after == db.(tasks := after.tasks)
    requires forall t: nat | t < |after.tasks| :: Timed(db, t, after.tasks[t])
    ensures forall t: nat | t < |after.tasks| :: after.tasks[t].status == db.tasks[t].status
    ensures AllTerminal(after) <==> AllTerminal(db)
    ensures SomeReady(after) <==> SomeReady(db)
    ensures SomeUnsuccessful(after) <==> SomeUnsuccessful(db)
  {
  }

  lemma ReplaysIgnoresRunEvents(db: Db, events: seq<Event>, after: Db, longer: seq<Event>)
    requires |after.tasks| == |db.tasks| && after.deps == db.deps
    requires forall t: nat | t < |after.tasks| :: after.tasks[t].status == db.tasks[t].status
    requires |longer| == |events| + 1 && longer[..|events|] == events && longer[|events|].RunEvent?
    ensures Replays(db, events) ==> Replays(after, longer)
  {
  }
}
