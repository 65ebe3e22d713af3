/** Dispatching one task: the rows it writes are committed or rolled back by the task engine. */
module AgentInvoker {
  import opened Vocabulary
  import opened Registry
  import opened TaskRows
  import opened EventLog
  import opened EngineStore

  /** What the datasets and the handler do: produce a result, turn out stale, or raise. */
  datatype Outcome = Produces(kind: string) | IsStale | Raises

  datatype Report = Done | AgentDown | Stale | Error

  function Reported(roster: seq<AgentRow>, task: Task, outcome: Outcome): Report {
    if !IsEnabled(roster, task.agent) then AgentDown
    else match outcome
      case Produces(_) => Done
      case IsStale => Stale
      case Raises => Error
  }

  /** The first `n` upstream artefacts are marked, the others are as before. */
  ghost predicate MarkedUpTo(before: seq<Artefact>, after: seq<Artefact>, upstream: seq<nat>, t: nat, n: nat)
    requires forall i | 0 <= i < |upstream| :: upstream[i] < |before|
  {
    && n <= |upstream| && |after| == |before|
    && (forall i | 0 <= i < |upstream| :: after[upstream[i]] == if i < n then ConsumedBy(before[upstream[i]], t) else before[upstream[i]])
    && (forall a: nat | a < |before| && a !in upstream :: after[a] == before[a])
  }

  lemma MarkedStep(before: seq<Artefact>, after: seq<Artefact>, upstream: seq<nat>, t: nat, n: nat)
    requires forall i | 0 <= i < |upstream| :: upstream[i] < |before|
    requires forall i, j | 0 <= i < j < |upstream| :: upstream[i] < upstream[j]
    requires n < |upstream| && MarkedUpTo(before, after, upstream, t, n)
    ensures MarkedUpTo(before, after[upstream[n] := ConsumedBy(after[upstream[n]], t)], upstream, t, n + 1)
  {
  }

  lemma AllMarked(before: Db, after: seq<Artefact>, t: nat)
    requires var upstream := Upstream(before, t, |before.artefacts|);
      (forall i | 0 <= i < |upstream| :: upstream[i] < |before.artefacts|)
      && MarkedUpTo(before.artefacts, after, upstream, t, |upstream|)
    ensures after == MarkConsumed(before, t)
  {
  }

  /** Marks every upstream artefact as consumed by the task and returns them. */
  method ConsumeUpstream(store: RunStore, t: nat) returns (upstream: seq<nat>)
    requires t < |store.db.tasks|
    modifies store`db
    ensures upstream == Upstream(old(store.db), t, |old(store.db).artefacts|)
    ensures store.db == old(store.db).(artefacts := MarkConsumed(old(store.db), t))
  {
    ghost var before := store.db;
    upstream := Upstream(store.db, t, |store.db.artefacts|);
    assert forall i | 0 <= i < |upstream| :: upstream[i] in upstream;
    for i := 0 to |upstream|
      invariant store.db == before.(artefacts := store.db.artefacts)
      invariant MarkedUpTo(before.artefacts, store.db.artefacts, upstream, t, i)
    {
      var a := upstream[i];
      MarkedStep(before.artefacts, store.db.artefacts, upstream, t, i);
      store.db := store.db.(artefacts := store.db.artefacts[a := ConsumedBy(store.db.artefacts[a], t)]);
    }
    AllMarked(before, store.db.artefacts, t);
  }

  /** Inserts one artefact, with the next version of its kind, and reports it. */
  method PersistArtefact(store: RunStore, t: nat, kind: string)
    requires t < |store.db.tasks|
    modifies store`db, store`events
    ensures var before := old(store.db);
      store.db == before.(
        artefacts := before.artefacts + [Artefact(t, kind, LatestVersion(before.artefacts, t, kind) + 1, [], Informational)],
        tasks := before.tasks[t := before.tasks[t].(result := Some(|before.artefacts|))])
    ensures Replays(old(store.db), old(store.events)) ==> Replays(store.db, store.events)
  {
    ghost var before, events := store.db, store.events;
    var version := LatestVersion(store.db.artefacts, t, kind) + 1;
    var artefact := |store.db.artefacts|;
    store.db := store.db.(artefacts := store.db.artefacts + [Artefact(t, kind, version, [], Informational)]);
    store.db := SetTask(store.db, t, store.db.tasks[t].(result := Some(artefact)));
    store.Emit(ResultEvent(artefact));
    if Replays(before, events) {
      EventReplays(before, events, ResultEvent(artefact), store.db);
    }
  }

  /** Unless it reports `Done` the rows written so far are the caller's to roll back. */
  method Dispatch(store: RunStore, roster: seq<AgentRow>, t: nat, outcome: Outcome) returns (report: Report)
    requires t < |store.db.tasks|
    modifies store`db, store`events
    ensures report == Reported(roster, old(store.db).tasks[t], outcome)
    ensures report.Done? ==> store.db == TaskRows.Dispatch(old(store.db), t, outcome.kind)
    ensures report.Done? && Replays(old(store.db), old(store.events)) ==> Replays(store.db, store.events)
  {
    ghost var before := store.db;
    if !IsEnabled(roster, store.db.tasks[t].agent) {
      return AgentDown;
    }
    if outcome.IsStale? {
      return Stale;
    }
    var upstream := ConsumeUpstream(store, t);
    store.db := SetTask(store.db, t, store.db.tasks[t].(received := upstream));
    SameReplay(before, store.db, store.events);
    if outcome.Raises? {
      return Error;
    }
    PersistArtefact(store, t, outcome.kind);
    report := Done;
  }

  lemma SameReplay(db: Db, after: Db, events: seq<Event>)
    requires |after.tasks| == |db.tasks| && after.deps == db.deps
    requires forall t | 0 <= t < |db.tasks| :: after.tasks[t].status == db.tasks[t].status
    ensures Replays(db, events) ==> Replays(after, events)
  {
  }
}

/** Claiming, finishing and finalising: one method per transaction, each proved equal to the
    transaction's effect on the tables. */
module TaskEngine {
  import opened Vocabulary
  import opened Registry
  import opened TaskRows
  import opened RowEffects
  import opened EventLog
  import opened EngineStore
  import DependencyResolver
  import opened AgentInvoker
  import EngineMachine
  import opened EngineWindows

  /** The effect of one dispatch and its completion or error handler. */
  function Finish(roster: seq<AgentRow>, db: Db, t: nat, outcome: Outcome, now: nat): Db
    requires t < |db.tasks|
  {
    match Reported(roster, db.tasks[t], outcome)
    case Done => Succeed(db, t, outcome.kind, now)
    case AgentDown => AgentUnavailable(db, t, EngineMachine.Takeovers(roster, db.tasks[t]), now)
    case Stale => DataStale(db, t, now)
    case Error => TaskFailure(db, t, now)
  }

  lemma UnavailableEffect(roster: seq<AgentRow>, db: Db, t: nat, now: nat)
    requires t < |db.tasks|
    ensures HandsOver(roster, db, AgentUnavailable(db, t, EngineMachine.Takeovers(roster, db.tasks[t]), now), t, now)
  {
    var task := db.tasks[t];
    EngineMachine.FirstTakeover(roster, task);
    forall i: nat ensures CanReplace(roster, task, i) <==> i < |roster| && EngineMachine.CanTakeOver(roster[i], task) {}
    forall i: nat | FirstToReplace(roster, task, i) ensures EngineMachine.Takeovers(roster, task) != [] && roster[i].name == EngineMachine.Takeovers(roster, task)[0] {
      assert EngineMachine.CanTakeOver(roster[i], task);
      var k: nat :| EngineMachine.IsFirst(roster, task, k) && roster[k].name == EngineMachine.Takeovers(roster, task)[0];
      assert CanReplace(roster, task, k);
    }
    EndEffect(db, t, Escalated, now);
  }

  /** What a dispatch that has ended does to the rows. Stale data blocks the task and is never retried; an error is
      retried while retries are left; an agent that is not up is replaced; a result counts only for a task that
      is still running. */
  ghost predicate Finishes(roster: seq<AgentRow>, before: Db, after: Db, t: nat, outcome: Outcome, now: nat)
    requires t < |before.tasks|
  {
    var task := before.tasks[t];
    var up := IsUp(roster, task.agent);
    && (!up ==> HandsOver(roster, before, after, t, now))
    && (up && outcome.IsStale? ==> EndsWithoutResult(before, after, t, Blocked, now))
    && (up && outcome.Raises? && task.retryCount < task.maxRetries ==>
      OnlyTask(before, after, t, task.(retryCount := task.retryCount + 1, status := Retrying, startedAt := None)))
    && (up && outcome.Raises? && task.retryCount >= task.maxRetries ==> EndsWithoutResult(before, after, t, Failed, now))
    && (up && outcome.Produces? && task.status.Running? ==> CompletesWith(before, after, t, outcome.kind, now))
    && (up && outcome.Produces? && !task.status.Running? ==> after == before)
  }

  lemma FinishEffect(roster: seq<AgentRow>, db: Db, t: nat, outcome: Outcome, now: nat)
    requires t < |db.tasks|
    ensures Finishes(roster, db, Finish(roster, db, t, outcome, now), t, outcome, now)
  {
    assert IsUp(roster, db.tasks[t].agent) <==> IsEnabled(roster, db.tasks[t].agent);
    UnavailableEffect(roster, db, t, now);
    EndEffect(db, t, Blocked, now);
    EndEffect(db, t, Failed, now);
    if outcome.Produces? {
      CompleteEffect(db, t, outcome.kind, now);
    }
  }

  method ClaimTask(store: RunStore, t: nat, now: nat) returns (claimed: bool)
    requires store.Clean() && t < |store.db.tasks|
    modifies store
    ensures store.Clean() && store.status == old(store.status)
    ensures claimed == old(store.db).tasks[t].status.Ready?
    ensures store.db == Claim(old(store.db), t, now)
    ensures claimed ==> OnlyTask(old(store.db), store.db, t, old(store.db).tasks[t].(status := Running, startedAt := Some(now)))
    ensures !claimed ==> store.db == old(store.db)
    ensures Replays(old(store.db), old(store.events)) ==> Replays(store.db, store.events)
  {
    claimed := store.db.tasks[t].status.Ready?;
    if claimed {
      DependencyResolver.PutTask(store, t, store.db.tasks[t].(status := Running, startedAt := Some(now)));
    }
    store.Commit();
  }

  method HandleTaskTimeout(store: RunStore, t: nat, now: nat)
    requires store.Clean() && WellFormed(store.db) && t < |store.db.tasks|
    modifies store
    ensures store.Clean() && store.status == old(store.status)
    ensures store.db == TimeOut(old(store.db), t, now)
    ensures old(store.db).tasks[t].status.Running? ==> EndsWithoutResult(old(store.db), store.db, t, Failed, now)
    ensures !old(store.db).tasks[t].status.Running? ==> store.db == old(store.db)
    ensures Replays(old(store.db), old(store.events)) ==> Replays(store.db, store.events)
  {
    EndEffect(store.db, t, Failed, now);
    if store.db.tasks[t].status.Running? {
      DependencyResolver.PutTask(store, t, store.db.tasks[t].(status := Failed, completedAt := Some(now)));
      DependencyResolver.MarkRowsUnsatisfiable(store, t);
    }
    store.Commit();
  }

  method HandleDataStale(store: RunStore, t: nat, now: nat)
    requires store.Clean() && WellFormed(store.db) && t < |store.db.tasks|
    modifies store
    ensures store.Clean() && store.status == old(store.status)
    ensures store.db == DataStale(old(store.db), t, now) && EndsWithoutResult(old(store.db), store.db, t, Blocked, now)
    ensures Replays(old(store.db), old(store.events)) ==> Replays(store.db, store.events)
  {
    EndEffect(store.db, t, Blocked, now);
    DependencyResolver.PutTask(store, t, store.db.tasks[t].(status := Blocked, completedAt := Some(now)));
    DependencyResolver.MarkRowsUnsatisfiable(store, t);
    store.Commit();
  }

  method HandleAgentUnavailable(store: RunStore, roster: seq<AgentRow>, t: nat, now: nat)
    requires store.Clean() && WellFormed(store.db) && t < |store.db.tasks|
    modifies store
    ensures store.Clean() && store.status == old(store.status)
    ensures store.db == AgentUnavailable(old(store.db), t, EngineMachine.Takeovers(roster, old(store.db).tasks[t]), now)
    ensures HandsOver(roster, old(store.db), store.db, t, now)
    ensures Replays(old(store.db), old(store.events)) ==> Replays(store.db, store.events)
  {
    var task := store.db.tasks[t];
    var candidates := EngineMachine.Takeovers(roster, task);
    UnavailableEffect(roster, store.db, t, now);
    if candidates != [] {
      DependencyResolver.PutTask(store, t, task.(agent := candidates[0], status := Ready, startedAt := None));
      store.Commit();
      return;
    }
    DependencyResolver.PutTask(store, t, task.(status := Escalated, completedAt := Some(now)));
    DependencyResolver.MarkRowsUnsatisfiable(store, t);
    store.Commit();
  }

  method HandleTaskFailure(store: RunStore, t: nat, now: nat)
    requires store.Clean() && WellFormed(store.db) && t < |store.db.tasks|
    modifies store
    ensures store.Clean() && store.status == old(store.status)
    ensures store.db == TaskFailure(old(store.db), t, now)
    ensures var task := old(store.db).tasks[t];
      if task.retryCount < task.maxRetries
      then OnlyTask(old(store.db), store.db, t, task.(retryCount := task.retryCount + 1, status := Retrying, startedAt := None))
      else EndsWithoutResult(old(store.db), store.db, t, Failed, now)
    ensures Replays(old(store.db), old(store.events)) ==> Replays(store.db, store.events)
  {
    var task := store.db.tasks[t];
    if task.retryCount < task.maxRetries {
      DependencyResolver.PutTask(store, t, task.(retryCount := task.retryCount + 1, status := Retrying, startedAt := None));
      store.Commit();
      return;
    }
    EndEffect(store.db, t, Failed, now);
    DependencyResolver.PutTask(store, t, task.(status := Failed, completedAt := Some(now)));
    DependencyResolver.MarkRowsUnsatisfiable(store, t);
    store.Commit();
  }

  lemma DispatchedIsWellFormed(db: Db, t: nat, kind: string)
    requires WellFormed(db) && t < |db.tasks|
    ensures WellFormed(TaskRows.Dispatch(db, t, kind)) && |TaskRows.Dispatch(db, t, kind).tasks| == |db.tasks|
    ensures TaskRows.Dispatch(db, t, kind).tasks[t].status == db.tasks[t].status
  {
  }

  /** Completes the task together with everything its dispatch wrote, if it is still running; else rolls that
      back. */
  method AcceptResult(store: RunStore, t: nat, kind: string, now: nat, ghost before: Db)
    requires WellFormed(before) && t < |before.tasks| && store.db == TaskRows.Dispatch(before, t, kind)
    requires store.saved.db == before && store.saved.status == store.status
    requires Replays(before, store.saved.events) ==> Replays(store.db, store.events)
    modifies store
    ensures store.Clean() && store.status == old(store.status)
    ensures store.db == Succeed(before, t, kind, now)
    ensures !before.tasks[t].status.Running? ==> store.events == old(store.saved.events)
    ensures Replays(before, old(store.saved.events)) ==> Replays(store.db, store.events)
  {
    DispatchedIsWellFormed(before, t, kind);
    var task := store.db.tasks[t];
    if !task.status.Running? {
      store.Rollback();
      return;
    }
    DependencyResolver.PutTask(store, t, task.(status := Completed, completedAt := Some(now)));
    DependencyResolver.EvaluateOnCompletion(store, t);
    store.Commit();
  }

  method HandleReport(store: RunStore, roster: seq<AgentRow>, t: nat, report: Report, now: nat)
    requires store.Clean() && WellFormed(store.db) && t < |store.db.tasks| && !report.Done?
    modifies store
    ensures store.Clean() && store.status == old(store.status)
    ensures report.Stale? ==> store.db == DataStale(old(store.db), t, now)
    ensures report.AgentDown? ==> store.db == AgentUnavailable(old(store.db), t, EngineMachine.Takeovers(roster, old(store.db).tasks[t]), now)
    ensures report.Error? ==> store.db == TaskFailure(old(store.db), t, now)
    ensures Replays(old(store.db), old(store.events)) ==> Replays(store.db, store.events)
  {
    match report
    case Stale => HandleDataStale(store, t, now);
    case AgentDown => HandleAgentUnavailable(store, roster, t, now);
    case Error => HandleTaskFailure(store, t, now);
  }

  /** A result is completed together with everything it wrote, or, if the task is no longer running,
      rolled back with it; an error is rolled back before its handler runs. */
  method RunDispatchAndComplete(store: RunStore, roster: seq<AgentRow>, t: nat, outcome: Outcome, now: nat)
    requires store.Clean() && WellFormed(store.db) && t < |store.db.tasks|
    modifies store
    ensures store.Clean() && store.status == old(store.status)
    ensures store.db == Finish(roster, old(store.db), t, outcome, now)
    ensures Finishes(roster, old(store.db), store.db, t, outcome, now)
    ensures IsUp(roster, old(store.db).tasks[t].agent) && outcome.Produces? && !old(store.db).tasks[t].status.Running? ==>
      store.events == old(store.events)
    ensures Replays(old(store.db), old(store.events)) ==> Replays(store.db, store.events)
  {
    ghost var before := store.db;
    var report := AgentInvoker.Dispatch(store, roster, t, outcome);
    if report.Done? {
      AcceptResult(store, t, outcome.kind, now, before);
    } else {
      store.Rollback();
      HandleReport(store, roster, t, report, now);
    }
    FinishEffect(roster, before, t, outcome, now);
  }

  /** Whatever a dispatch comes to, its finish is a step of the machine whose interleavings are studied in
      `EngineMachine`; so everything proved there holds of these methods in any order. */
  lemma FinishIsAMachineStep(roster: seq<AgentRow>, s: EngineMachine.System, t: nat, outcome: Outcome) returns (action: EngineMachine.Action)
    requires EngineMachine.InFlight(s, t)
    ensures EngineMachine.Enabled(roster, s, action)
    ensures EngineMachine.Apply(roster, s, action).db == Finish(roster, s.db, t, outcome, s.clock)
    ensures EngineMachine.Apply(roster, s, action).live == s.live - multiset{t}
    ensures action == if !IsUp(roster, s.db.tasks[t].agent) then EngineMachine.ReportUnavailable(t)
                      else if outcome.IsStale? then EngineMachine.ReportStale(t)
                      else if outcome.Raises? then EngineMachine.ReportError(t)
                      else EngineMachine.ReportResult(t, outcome.kind)
  {
    assert IsUp(roster, s.db.tasks[t].agent) <==> IsEnabled(roster, s.db.tasks[t].agent);
    match Reported(roster, s.db.tasks[t], outcome)
    case Done => action := EngineMachine.ReportResult(t, outcome.kind);
    case AgentDown => action := EngineMachine.ReportUnavailable(t);
    case Stale => action := EngineMachine.ReportStale(t);
    case Error => action := EngineMachine.ReportError(t);
  }
}
