/** When settling a parked run is sound, whatever its orphaned dispatches still do. */
module ParkedRuns {
  import opened Vocabulary
  import opened Registry
  import opened TaskRows
  import opened EventLog
  import opened EngineInvariant
  import opened ArtefactInvariant
  import opened EngineMachine
  import opened EngineRuns
  import opened RunCompletion
  import opened RunManager
  import opened Approvals

  /** What the loop guarantees when it parks a run: work is left open, or nothing went wrong. */
  ghost predicate Parked(db: Db) {
    AllDispositioned(db) && (AllTerminal(db) ==> !SomeUnsuccessful(db))
  }

  /** A run that is not closed by the loop is parked like that. */
  lemma FinalizeParks(db: Db, pendingApproval: bool)
    requires ArtefactsExact(db) && LeftOpen(db, pendingApproval)
    ensures Parked(db) && (AllTerminal(db) ==> pendingApproval)
  {
  }

  /** Settling completes a run only when nothing is pending or open; it is right to do so exactly when
      no task ended without a result and every artefact is dispositioned. */
  lemma SettlingIsSoundIff(run: Run, pendingApproval: bool)
    requires Settles(run, pendingApproval)
    ensures MayComplete(run.db, pendingApproval) <==> !SomeUnsuccessful(run.db) && AllDispositioned(run.db)
    ensures Parked(run.db) ==> MayComplete(run.db, pendingApproval)
  {
  }

  function OneTask(): Db {
    Db([SmallTask(true)], [], [])
  }

  /** A run whose loop has not closed it yet is completed by a settlement although its task has timed out. */
  lemma SettlingARunningRunHidesFailure(roster: seq<AgentRow>, clock: nat) returns (run: Run)
    ensures FreshDb(OneTask()) && run.status.RunRunning?
    ensures run.db == EngineRuns.Run(roster, Start(OneTask(), clock), [StartWave, ClaimTask(0), GiveUp(0)]).db
    ensures Settles(run, false) && SomeUnsuccessful(run.db)
    ensures Settled(run, false).status.RunCompleted? && !MayComplete(run.db, false)
  {
    var s1, s2 := OneClaimed(roster, clock);
    var s3 := Apply(roster, s2, GiveUp(0));
    assert s3.db.tasks[0].status.Failed? && Unsuccessful(s3.db.tasks[0].status);
    StepsRun(roster, [Start(OneTask(), clock), s1, s2, s3], [StartWave, ClaimTask(0), GiveUp(0)]);
    run := Run(RunRunning, None, 0, s3.db);
  }

  lemma OneClaimed(roster: seq<AgentRow>, clock: nat) returns (s1: System, s2: System)
    ensures Steps(roster, Start(OneTask(), clock), StartWave, s1) && Steps(roster, s1, ClaimTask(0), s2)
    ensures s2.phase == Wave({}, {0}) && s2.live == multiset{0} && s2.clock == clock
    ensures s2.db == Db([SmallTask(true).(status := Running, startedAt := Some(clock))], [], [])
  {
    var s0 := Start(OneTask(), clock);
    s1 := Apply(roster, s0, StartWave);
    assert s1.db.tasks == [SmallTask(true).(status := Ready)] && s1.phase.pending == {0};
    s2 := Apply(roster, s1, ClaimTask(0));
  }

  // --- orphaned dispatches and the last open task ---

  predicate SomeCancelled(db: Db) {
    exists t | 0 <= t < |db.tasks| :: db.tasks[t].status.Cancelled?
  }

  /** Whoever waits for a dead row has ended, and a task that timed out has no row left to kill. */
  ghost predicate RowsSealed(db: Db, live: multiset<nat>)
    requires WellFormed(db)
  {
    && (forall j | 0 <= j < |db.deps| && db.deps[j].state.Unsatisfiable? :: IsTerminal(db.tasks[db.deps[j].dependent].status))
    && (forall j | 0 <= j < |db.deps| && db.deps[j].prerequisite in live && db.tasks[db.deps[j].prerequisite].status.Failed? ::
      !db.deps[j].state.Unsatisfied?)
  }

  /** After a cancellation only tasks with all prerequisites completed are open. */
  ghost predicate OpenAreSatisfied(db: Db) {
    SomeCancelled(db) ==> forall x | 0 <= x < |db.tasks| && !IsTerminal(db.tasks[x].status) :: HardSatisfied(db.deps, x)
  }

  ghost predicate Sealed(db: Db, live: multiset<nat>)
    requires WellFormed(db)
  {
    RowsSealed(db, live) && OpenAreSatisfied(db)
  }

  lemma EndKeepsRows(db: Db, live: multiset<nat>, t: nat, status: TaskStatus, now: nat, after: multiset<nat>)
    requires Consistent(db, live) && RowsSealed(db, live) && t < |db.tasks| && status in {Failed, Blocked, Escalated} && !db.tasks[t].status.Completed?
    requires after <= live && WellFormed(End(db, t, status, now))
    ensures RowsSealed(End(db, t, status, now), after)
  {
  }

  lemma EndKeepsOpenSatisfied(db: Db, live: multiset<nat>, t: nat, status: TaskStatus, now: nat)
    requires Consistent(db, live) && OpenAreSatisfied(db) && t < |db.tasks| && status in {Failed, Blocked, Escalated} && !db.tasks[t].status.Completed?
    ensures OpenAreSatisfied(End(db, t, status, now))
  {
    EndCancelsNothing(db, t, status, now);
  }

  lemma EndKeepsSealed(db: Db, live: multiset<nat>, t: nat, status: TaskStatus, now: nat, after: multiset<nat>)
    requires Consistent(db, live) && Sealed(db, live) && t < |db.tasks| && status in {Failed, Blocked, Escalated} && !db.tasks[t].status.Completed?
    requires after <= live && WellFormed(End(db, t, status, now))
    ensures Sealed(End(db, t, status, now), after)
  {
    EndKeepsRows(db, live, t, status, now, after);
    EndKeepsOpenSatisfied(db, live, t, status, now);
  }

  /** A completion wakes only open tasks and only satisfies rows. */
  lemma CompleteRowsAndTasks(db: Db, t: nat, kind: string, now: nat)
    requires t < |db.tasks|
    ensures var after := Complete(db, t, kind, now);
      && |after.tasks| == |db.tasks| && |after.deps| == |db.deps| && after.tasks[t].status.Completed?
      && (forall x: nat | x < |db.tasks| && x != t ::
        after.tasks[x].status == db.tasks[x].status || (!IsTerminal(db.tasks[x].status) && after.tasks[x].status.Ready? && HardSatisfied(after.deps, x)))
      && (forall j | 0 <= j < |db.deps| :: after.deps[j] == db.deps[j] || after.deps[j] == db.deps[j].(state := Satisfied))
  {
  }

  lemma CompleteKeepsRows(db: Db, live: multiset<nat>, t: nat, kind: string, now: nat)
    requires Consistent(db, live) && RowsSealed(db, live) && t in live && WellFormed(Complete(db, t, kind, now))
    ensures RowsSealed(Complete(db, t, kind, now), live - multiset{t})
  {
    CompleteRowsAndTasks(db, t, kind, now);
  }

  lemma CompleteKeepsOpenSatisfied(db: Db, live: multiset<nat>, t: nat, kind: string, now: nat)
    requires Consistent(db, live) && OpenAreSatisfied(db) && t in live
    ensures OpenAreSatisfied(Complete(db, t, kind, now))
  {
    CompleteRowsAndTasks(db, t, kind, now);
    CompleteCancelsNothing(db, t, kind, now);
  }

  lemma CompleteKeepsSealed(db: Db, live: multiset<nat>, t: nat, kind: string, now: nat)
    requires Consistent(db, live) && Sealed(db, live) && t in live && WellFormed(Complete(db, t, kind, now))
    ensures Sealed(Complete(db, t, kind, now), live - multiset{t})
  {
    CompleteKeepsRows(db, live, t, kind, now);
    CompleteKeepsOpenSatisfied(db, live, t, kind, now);
  }

  /** An open task that loses its dispatch and starts over does not disturb the seal. */
  lemma ResetKeepsSealed(db: Db, live: multiset<nat>, t: nat, task: Task)
    requires Consistent(db, live) && Sealed(db, live) && t in live && (task.status.Ready? || task.status.Retrying?)
    ensures WellFormed(SetTask(db, t, task)) && Sealed(SetTask(db, t, task), live - multiset{t})
  {
  }

  lemma UnavailableKeepsSealed(db: Db, live: multiset<nat>, t: nat, takeovers: seq<string>, now: nat)
    requires Consistent(db, live) && Sealed(db, live) && t in live && WellFormed(AgentUnavailable(db, t, takeovers, now))
    ensures Sealed(AgentUnavailable(db, t, takeovers, now), live - multiset{t})
  {
    if takeovers == [] {
      EndKeepsSealed(db, live, t, Escalated, now, live - multiset{t});
    } else {
      ResetKeepsSealed(db, live, t, db.tasks[t].(agent := takeovers[0], status := Ready, startedAt := None));
    }
  }

  lemma ErrorKeepsSealed(db: Db, live: multiset<nat>, t: nat, now: nat)
    requires Consistent(db, live) && Sealed(db, live) && t in live && WellFormed(TaskFailure(db, t, now))
    ensures Sealed(TaskFailure(db, t, now), live - multiset{t})
  {
    var task := db.tasks[t];
    if task.retryCount < task.maxRetries {
      ResetKeepsSealed(db, live, t, task.(retryCount := task.retryCount + 1, status := Retrying, startedAt := None));
    } else {
      EndKeepsSealed(db, live, t, Failed, now, live - multiset{t});
    }
  }

  lemma ReportKeepsSealed(roster: seq<AgentRow>, s: System, action: Action)
    requires Inv(roster, s) && Enabled(roster, s, action) && Sealed(s.db, s.live)
    requires action.ReportResult? || action.ReportStale? || action.ReportUnavailable? || action.ReportError?
    requires WellFormed(Apply(roster, s, action).db)
    ensures Sealed(Apply(roster, s, action).db, Apply(roster, s, action).live)
  {
    var t := action.task;
    var task := s.db.tasks[t];
    var rest := s.live - multiset{t};
    match action
    case ReportResult(_, kind) =>
      if task.status.Running? { CompleteKeepsSealed(s.db, s.live, t, kind, s.clock); }
    case ReportStale(_) => EndKeepsSealed(s.db, s.live, t, Blocked, s.clock, rest);
    case ReportUnavailable(_) => UnavailableKeepsSealed(s.db, s.live, t, Takeovers(roster, task), s.clock);
    case ReportError(_) => ErrorKeepsSealed(s.db, s.live, t, s.clock);
  }

  lemma ClaimKeepsSealed(s: System, t: nat)
    requires Consistent(s.db, s.live) && Sealed(s.db, s.live) && Claimable(s.db, t)
    ensures Sealed(Claim(s.db, t, s.clock), s.live + multiset{t})
  {
  }

  lemma RefreshKeepsSealed(s: System)
    requires Consistent(s.db, s.live) && Sealed(s.db, s.live)
    ensures Sealed(Refresh(s.db), s.live)
  {
  }

  lemma ReapKeepsSealed(s: System)
    requires Consistent(s.db, s.live) && Sealed(s.db, s.live)
    ensures Sealed(Reap(s.db), multiset{})
  {
  }

  lemma CancelKeepsSealed(s: System)
    requires Consistent(s.db, s.live) && Sealed(s.db, s.live)
    ensures Sealed(Cancel(s.db), s.live)
  {
  }

  lemma StepKeepsSealed(roster: seq<AgentRow>, s: System, action: Action)
    requires Inv(roster, s) && Enabled(roster, s, action) && Sealed(s.db, s.live)
    requires WellFormed(Apply(roster, s, action).db)
    ensures Sealed(Apply(roster, s, action).db, Apply(roster, s, action).live)
  {
    match action
    case ClaimTask(t) => if s.db.tasks[t].status.Ready? { ClaimKeepsSealed(s, t); }
    case StartWave => RefreshKeepsSealed(s);
    case CancelRun => CancelKeepsSealed(s);
    case CrashAndReap => ReapKeepsSealed(s);
    case GiveUp(t) => if s.db.tasks[t].status.Running? { EndKeepsSealed(s.db, s.live, t, Failed, s.clock, s.live); }
    case Wait(_) =>
    case Return(_) =>
    case EndWave =>
    case _ => ReportKeepsSealed(roster, s, action);
  }

  lemma NextKeepsSealed(roster: seq<AgentRow>, s: System, action: Action)
    requires Inv(roster, s) && Sealed(s.db, s.live)
    ensures Inv(roster, Next(roster, s, action)) && Sealed(Next(roster, s, action).db, Next(roster, s, action).live)
  {
    if Enabled(roster, s, action) {
      StepKeepsInv(roster, s, action);
      StepKeepsSealed(roster, s, action);
    }
  }

  /** In every run, at every moment. */
  lemma {:induction false} RunKeepsSealed(roster: seq<AgentRow>, s: System, actions: seq<Action>)
    requires Inv(roster, s) && Sealed(s.db, s.live)
    ensures Inv(roster, EngineRuns.Run(roster, s, actions))
    ensures Sealed(EngineRuns.Run(roster, s, actions).db, EngineRuns.Run(roster, s, actions).live)
    decreases |actions|
  {
    if actions != [] {
      NextKeepsSealed(roster, s, actions[0]);
      RunKeepsSealed(roster, Next(roster, s, actions[0]), actions[1..]);
    }
  }

  // --- while the run is parked ---

  /** After the loop has parked a run only time passes and orphaned dispatches report. A cancellation at this
      stage is final, because no loop is left to set the run back. */
  predicate AfterParking(action: Action) {
    action.Wait? || action.ReportResult? || action.ReportStale? || action.ReportUnavailable? || action.ReportError?
  }

  predicate IsErrorOf(action: Action, t: nat) {
    action == ReportStale(t) || action == ReportUnavailable(t) || action == ReportError(t)
  }

  predicate OthersTerminal(db: Db, t: nat) {
    forall x | 0 <= x < |db.tasks| && x != t :: IsTerminal(db.tasks[x].status)
  }

  /** The late error of a cancelled task ends it without a result, and nothing else is open. */
  predicate ClosesCancelled(roster: seq<AgentRow>, s: System, action: Action) {
    && (action.ReportStale? || action.ReportUnavailable? || action.ReportError?) && action.task < |s.db.tasks|
    && s.db.tasks[action.task].status.Cancelled? && !Reopens(roster, s, action, action.task) && OthersTerminal(s.db, action.task)
  }

  lemma EndSparesOpen(db: Db, live: multiset<nat>, t: nat, status: TaskStatus, now: nat, x: nat)
    requires Consistent(db, live) && Sealed(db, live) && t in live && !db.tasks[t].status.Running? && status in {Failed, Blocked, Escalated}
    requires x < |db.tasks| && x != t && !IsTerminal(db.tasks[x].status)
    ensures End(db, t, status, now).tasks[x] == db.tasks[x]
  {
    if db.tasks[t].status.Cancelled? {
      assert SomeCancelled(db) && HardSatisfied(db.deps, x);
    }
  }

  lemma LateErrorSparesOpen(db: Db, live: multiset<nat>, t: nat, takeovers: seq<string>, now: nat, x: nat)
    requires Consistent(db, live) && Sealed(db, live) && t in live && !db.tasks[t].status.Running?
    requires x < |db.tasks| && x != t && !IsTerminal(db.tasks[x].status)
    ensures DataStale(db, t, now).tasks[x] == db.tasks[x]
    ensures AgentUnavailable(db, t, takeovers, now).tasks[x] == db.tasks[x]
    ensures TaskFailure(db, t, now).tasks[x] == db.tasks[x]
  {
    EndSparesOpen(db, live, t, Blocked, now, x);
    EndSparesOpen(db, live, t, Escalated, now, x);
    EndSparesOpen(db, live, t, Failed, now, x);
  }

  lemma LateReportKeepsOpen(roster: seq<AgentRow>, s: System, action: Action, x: nat)
    requires Inv(roster, s) && Enabled(roster, s, action) && Sealed(s.db, s.live) && s.phase.Idle?
    requires action.ReportStale? || action.ReportUnavailable? || action.ReportError?
    requires x < |s.db.tasks| && !IsTerminal(s.db.tasks[x].status) && x != action.task
    ensures x < |Apply(roster, s, action).db.tasks| && !IsTerminal(Apply(roster, s, action).db.tasks[x].status)
  {
    LateErrorSparesOpen(s.db, s.live, action.task, Takeovers(roster, s.db.tasks[action.task]), s.clock, x);
  }

  lemma LateErrorEnds(roster: seq<AgentRow>, s: System, action: Action, t: nat)
    requires Inv(roster, s) && Enabled(roster, s, action) && IsErrorOf(action, t) && !s.db.tasks[t].status.Running?
    requires !Reopens(roster, s, action, t) && OthersTerminal(s.db, t)
    ensures AllTerminal(Apply(roster, s, action).db) && SomeUnsuccessful(Apply(roster, s, action).db)
  {
    var after := Apply(roster, s, action).db;
    var status := if action.ReportStale? then Blocked else if action.ReportUnavailable? then Escalated else Failed;
    EndFrame(s.db, t, status, s.clock);
    assert after == End(s.db, t, status, s.clock);
    assert Unsuccessful(after.tasks[t].status);
  }

  lemma StaysDispositioned(roster: seq<AgentRow>, s: System, action: Action)
    requires Inv(roster, s) && Enabled(roster, s, action)
    ensures AllDispositioned(Apply(roster, s, action).db)
  {
    var after := Apply(roster, s, action).db;
    StepKeepsArtefacts(roster, s, action);
    forall a | 0 <= a < |after.artefacts| ensures !after.artefacts[a].disposition.Undispositioned? {
      assert MarksExact(after, after.artefacts[a]);
    }
  }

  /** A report that keeps some task open keeps the run parked as before. */
  lemma LateReportKeepsParked(roster: seq<AgentRow>, s: System, action: Action)
    requires Inv(roster, s) && Enabled(roster, s, action) && Sealed(s.db, s.live) && s.phase.Idle? && AfterParking(action)
    requires Parked(s.db) && !ClosesCancelled(roster, s, action)
    ensures Parked(Apply(roster, s, action).db)
  {
    StaysDispositioned(roster, s, action);
    if !action.Wait? && !action.ReportResult? {
      SomeTaskStaysOpen(roster, s, action);
    }
  }

  lemma SomeTaskStaysOpen(roster: seq<AgentRow>, s: System, action: Action)
    requires Inv(roster, s) && Enabled(roster, s, action) && Sealed(s.db, s.live) && s.phase.Idle?
    requires action.ReportStale? || action.ReportUnavailable? || action.ReportError?
    requires Parked(s.db) && !ClosesCancelled(roster, s, action)
    ensures !AllTerminal(Apply(roster, s, action).db)
  {
    var t := action.task;
    if OthersTerminal(s.db, t) {
      assert !Unsuccessful(s.db.tasks[t].status);
      EndedReopensIff(roster, s, action, t);
    } else {
      var x: nat :| x < |s.db.tasks| && x != t && !IsTerminal(s.db.tasks[x].status);
      LateReportKeepsOpen(roster, s, action, x);
    }
  }

  /** A late report keeps a parked run settled rightly, if at all, exactly when it is not the error that ends a
      cancelled task as the last one. */
  lemma StepKeepsParkedIff(roster: seq<AgentRow>, s: System, action: Action)
    requires Inv(roster, s) && Enabled(roster, s, action) && Sealed(s.db, s.live) && s.phase.Idle? && AfterParking(action)
    requires Parked(s.db)
    ensures Parked(Apply(roster, s, action).db) <==> !ClosesCancelled(roster, s, action)
    ensures Apply(roster, s, action).phase.Idle?
  {
    if ClosesCancelled(roster, s, action) {
      LateErrorEnds(roster, s, action, action.task);
    } else {
      LateReportKeepsParked(roster, s, action);
    }
  }

  /** Whatever run has these tables: if a decision settles it, completing it is right. */
  ghost predicate SettlesWell(db: Db) {
    forall run: Run, pendingApproval: bool | run.db == db && Settles(run, pendingApproval) :: MayComplete(db, pendingApproval)
  }

  lemma SettlesWellIff(db: Db)
    requires AllDispositioned(db)
    ensures SettlesWell(db) <==> Parked(db)
  {
    forall run: Run, pendingApproval: bool | run.db == db && Settles(run, pendingApproval)
      ensures MayComplete(db, pendingApproval) <==> !SomeUnsuccessful(db)
    {
      SettlingIsSoundIff(run, pendingApproval);
    }
    if AllTerminal(db) {
      assert Settles(Run(RunWaiting, None, 0, db), false);
    }
  }

  ghost predicate AlwaysSettlesWell(roster: seq<AgentRow>, s: System, later: seq<Action>)
    decreases |later|
  {
    SettlesWell(s.db) && (later != [] ==> AlwaysSettlesWell(roster, Next(roster, s, later[0]), later[1..]))
  }

  ghost predicate NeverClosesCancelled(roster: seq<AgentRow>, s: System, later: seq<Action>)
    decreases |later|
  {
    later != [] ==>
      && (Enabled(roster, s, later[0]) ==> !ClosesCancelled(roster, s, later[0]))
      && NeverClosesCancelled(roster, Next(roster, s, later[0]), later[1..])
  }

  lemma NextSettlesWellIff(roster: seq<AgentRow>, s: System, action: Action)
    requires Inv(roster, s) && Sealed(s.db, s.live) && s.phase.Idle? && Parked(s.db) && AfterParking(action)
    ensures Inv(roster, Next(roster, s, action)) && Sealed(Next(roster, s, action).db, Next(roster, s, action).live)
    ensures Next(roster, s, action).phase.Idle? && AllDispositioned(Next(roster, s, action).db)
    ensures Parked(Next(roster, s, action).db) <==> (Enabled(roster, s, action) ==> !ClosesCancelled(roster, s, action))
  {
    NextKeepsSealed(roster, s, action);
    if Enabled(roster, s, action) {
      StepKeepsParkedIff(roster, s, action);
      StaysDispositioned(roster, s, action);
    }
  }

  lemma {:induction false} ParkedFromHere(roster: seq<AgentRow>, s: System, later: seq<Action>)
    requires Inv(roster, s) && Sealed(s.db, s.live) && s.phase.Idle? && Parked(s.db)
    requires forall i | 0 <= i < |later| :: AfterParking(later[i])
    ensures AlwaysSettlesWell(roster, s, later) <==> NeverClosesCancelled(roster, s, later)
    decreases |later|
  {
    SettlesWellIff(s.db);
    if later != [] {
      NextSettlesWellIff(roster, s, later[0]);
      if Parked(Next(roster, s, later[0]).db) {
        ParkedFromHere(roster, Next(roster, s, later[0]), later[1..]);
      } else {
        NotSettlingWell(roster, Next(roster, s, later[0]), later[1..]);
      }
    }
  }

  lemma NotSettlingWell(roster: seq<AgentRow>, s: System, later: seq<Action>)
    requires AllDispositioned(s.db) && !Parked(s.db)
    ensures !AlwaysSettlesWell(roster, s, later)
  {
    SettlesWellIff(s.db);
  }

  /** In every run, cancellations included: once its loop has looked for the end and left it open, settling it
      is right at every moment if and only if no orphaned dispatch of a cancelled task ends it by an error
      while everything else has ended. */
  lemma SettlingStaysSoundIff(roster: seq<AgentRow>, db: Db, clock: nat, loop: seq<Action>, pendingThen: bool, later: seq<Action>)
    requires FreshDb(db)
    requires var s := EngineRuns.Run(roster, Start(db, clock), loop); s.phase.Idle? && LeftOpen(s.db, pendingThen)
    requires forall i | 0 <= i < |later| :: AfterParking(later[i])
    ensures var s := EngineRuns.Run(roster, Start(db, clock), loop);
      AlwaysSettlesWell(roster, s, later) <==> NeverClosesCancelled(roster, s, later)
  {
    FreshInv(roster, db, clock);
    RunKeepsSealed(roster, Start(db, clock), loop);
    FinalizeParks(EngineRuns.Run(roster, Start(db, clock), loop).db, pendingThen);
    ParkedFromHere(roster, EngineRuns.Run(roster, Start(db, clock), loop), later);
  }

  // --- runs that are not cancelled ---

  lemma StepCancelsNothing(roster: seq<AgentRow>, s: System, action: Action)
    requires Enabled(roster, s, action) && !action.CancelRun? && !SomeCancelled(s.db)
    ensures !SomeCancelled(Apply(roster, s, action).db)
  {
    match action
    case ReportResult(t, kind) => if s.db.tasks[t].status.Running? { CompleteCancelsNothing(s.db, t, kind, s.clock); }
    case ReportStale(t) => ErrorCancelsNothing(s.db, t, [], s.clock);
    case ReportUnavailable(t) => ErrorCancelsNothing(s.db, t, Takeovers(roster, s.db.tasks[t]), s.clock);
    case ReportError(t) => ErrorCancelsNothing(s.db, t, [], s.clock);
    case GiveUp(t) => EndCancelsNothing(s.db, t, Failed, s.clock);
    case _ =>
  }

  lemma ErrorCancelsNothing(db: Db, t: nat, takeovers: seq<string>, now: nat)
    requires t < |db.tasks| && !SomeCancelled(db)
    ensures !SomeCancelled(DataStale(db, t, now)) && !SomeCancelled(TaskFailure(db, t, now))
    ensures !SomeCancelled(AgentUnavailable(db, t, takeovers, now))
  {
    EndCancelsNothing(db, t, Blocked, now);
    EndCancelsNothing(db, t, Failed, now);
    EndCancelsNothing(db, t, Escalated, now);
  }

  lemma EndCancelsNothing(db: Db, t: nat, status: TaskStatus, now: nat)
    requires t < |db.tasks| && status in {Failed, Blocked, Escalated}
    ensures SomeCancelled(End(db, t, status, now)) ==> SomeCancelled(db)
  {
  }

  lemma CompleteCancelsNothing(db: Db, t: nat, kind: string, now: nat)
    requires t < |db.tasks|
    ensures SomeCancelled(Complete(db, t, kind, now)) ==> SomeCancelled(db)
  {
  }

  lemma {:induction false} RunCancelsNothing(roster: seq<AgentRow>, s: System, actions: seq<Action>)
    requires !SomeCancelled(s.db) && forall i | 0 <= i < |actions| :: !actions[i].CancelRun?
    ensures !SomeCancelled(EngineRuns.Run(roster, s, actions).db)
    decreases |actions|
  {
    if actions != [] {
      if Enabled(roster, s, actions[0]) {
        StepCancelsNothing(roster, s, actions[0]);
      }
      RunCancelsNothing(roster, Next(roster, s, actions[0]), actions[1..]);
    }
  }

  lemma {:induction false} UncancelledNeverCloses(roster: seq<AgentRow>, s: System, later: seq<Action>)
    requires !SomeCancelled(s.db) && forall i | 0 <= i < |later| :: AfterParking(later[i])
    ensures NeverClosesCancelled(roster, s, later)
    decreases |later|
  {
    if later != [] {
      if Enabled(roster, s, later[0]) {
        StepCancelsNothing(roster, s, later[0]);
      }
      UncancelledNeverCloses(roster, Next(roster, s, later[0]), later[1..]);
    }
  }

  /** So settling a parked run that was never cancelled is always sound. */
  lemma UncancelledSettlesWell(roster: seq<AgentRow>, db: Db, clock: nat, loop: seq<Action>, pendingThen: bool, later: seq<Action>)
    requires FreshDb(db) && forall i | 0 <= i < |loop| :: !loop[i].CancelRun?
    requires var s := EngineRuns.Run(roster, Start(db, clock), loop); s.phase.Idle? && LeftOpen(s.db, pendingThen)
    requires forall i | 0 <= i < |later| :: AfterParking(later[i])
    ensures AlwaysSettlesWell(roster, EngineRuns.Run(roster, Start(db, clock), loop), later)
  {
    RunCancelsNothing(roster, Start(db, clock), loop);
    UncancelledNeverCloses(roster, EngineRuns.Run(roster, Start(db, clock), loop), later);
    SettlingStaysSoundIff(roster, db, clock, loop, pendingThen, later);
  }

  // --- a cancelled run settled wrongly ---

  function CancelledLoop(): seq<Action> {
    [StartWave, ClaimTask(0), CancelRun, GiveUp(0), EndWave]
  }

  lemma CancelledInFlight(roster: seq<AgentRow>, clock: nat)
    ensures var s := EngineRuns.Run(roster, Start(OneTask(), clock), CancelledLoop());
      && s.phase.Idle? && s.live == multiset{0} && s.clock == clock
      && s.db == Db([SmallTask(true).(status := Cancelled, startedAt := Some(clock))], [], [])
  {
    var s1, s2 := OneClaimed(roster, clock);
    var s3 := Apply(roster, s2, CancelRun);
    assert s3.db.tasks == [SmallTask(true).(status := Cancelled, startedAt := Some(clock))];
    var s4 := Apply(roster, s3, GiveUp(0));
    var s5 := Apply(roster, s4, EndWave);
    StepsRun(roster, [Start(OneTask(), clock), s1, s2, s3, s4, s5], CancelledLoop());
  }

  /** It does happen: a run is cancelled while its task is running and an approval is pending, so its loop sets
      it back to waiting. The dispatch then reports stale data, and once the approval is decided the run is
      completed although its task is blocked. */
  lemma SettlingACancelledRunHidesFailure(roster: seq<AgentRow>, clock: nat) returns (run: Run)
    requires IsEnabled(roster, SmallTask(true).agent)
    ensures var s := EngineRuns.Run(roster, Start(OneTask(), clock), CancelledLoop());
      && FreshDb(OneTask()) && s.phase.Idle? && LeftOpen(s.db, true) && !SomeReady(s.db)
      && run == Run(RunWaiting, None, 0, EngineRuns.Run(roster, s, [ReportStale(0)]).db)
    ensures Settles(run, false) && SomeUnsuccessful(run.db)
    ensures Settled(run, false).status.RunCompleted? && !MayComplete(run.db, false)
  {
    CancelledInFlight(roster, clock);
    var s := EngineRuns.Run(roster, Start(OneTask(), clock), CancelledLoop());
    var after := Apply(roster, s, ReportStale(0));
    assert Unsuccessful(after.db.tasks[0].status);
    StepsRun(roster, [s, after], [ReportStale(0)]);
    run := Run(RunWaiting, None, 0, after.db);
  }
}
