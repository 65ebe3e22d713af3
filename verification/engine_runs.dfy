/** What holds in every run of the task engine, and the runs that show where the engine keeps less
    than its comments promise. */
module EngineRuns {
  import opened Vocabulary
  import opened Registry
  import opened TaskRows
  import opened EngineInvariant
  import opened ArtefactInvariant
  import opened EngineMachine

  /** A run as the planner stores it. */
  ghost predicate FreshDb(db: Db) {
    && WellFormed(db) && AllHard(db.deps) && db.artefacts == []
    && (forall j | 0 <= j < |db.deps| :: db.deps[j].state.Unsatisfied?)
    && (forall t | 0 <= t < |db.tasks| :: FreshTask(db.tasks[t]))
  }

  predicate FreshTask(task: Task) {
    task.status.Planned? && task.retryCount == 0 && task.startedAt.None? && task.completedAt.None?
  }

  function Start(db: Db, clock: nat): System {
    var zeros := seq(|db.tasks|, t => 0);
    System(db, multiset{}, Idle, clock, zeros, zeros, zeros)
  }

  /** A step that is not enabled when its turn comes does not happen. */
  function Next(roster: seq<AgentRow>, s: System, action: Action): System {
    if Enabled(roster, s, action) then Apply(roster, s, action) else s
  }

  /** Any sequence of steps. */
  function Run(roster: seq<AgentRow>, s: System, actions: seq<Action>): System
    decreases |actions|
  {
    if actions == [] then s
    else Run(roster, Next(roster, s, actions[0]), actions[1..])
  }

  lemma {:induction false} RunKeepsInv(roster: seq<AgentRow>, s: System, actions: seq<Action>)
    requires Inv(roster, s)
    ensures Inv(roster, Run(roster, s, actions))
    decreases |actions|
  {
    if actions != [] {
      if Enabled(roster, s, actions[0]) {
        StepKeepsInv(roster, s, actions[0]);
        RunKeepsInv(roster, Apply(roster, s, actions[0]), actions[1..]);
      } else {
        RunKeepsInv(roster, s, actions[1..]);
      }
    }
  }

  lemma FreshInv(roster: seq<AgentRow>, db: Db, clock: nat)
    requires FreshDb(db)
    ensures Inv(roster, Start(db, clock))
  {
  }

  /** In every run, at every moment: a task can be claimed only when all its prerequisites are
      completed and no dispatch of it is still in flight. */
  lemma StartedOnlyAfterPrerequisites(roster: seq<AgentRow>, db: Db, clock: nat, actions: seq<Action>, t: nat)
    requires FreshDb(db)
    ensures var s := Run(roster, Start(db, clock), actions);
      Claimable(s.db, t) ==>
        && t !in s.live
        && forall x: nat | DependsOn(s.db.deps, t, x) :: IsCompleted(s.db, x)
  {
    FreshInv(roster, db, clock);
    RunKeepsInv(roster, Start(db, clock), actions);
    var s := Run(roster, Start(db, clock), actions);
    if Claimable(s.db, t) {
      forall j | 0 <= j < |s.db.deps| && s.db.deps[j].dependent == t ensures IsCompleted(s.db, s.db.deps[j].prerequisite) {
        ClaimableMeansPrerequisitesCompleted(s.db, s.live, j);
      }
    }
  }

  /** In every run: two tasks are running at once only if both are concurrency-safe, and no task has
      two dispatches in flight. */
  lemma UnsafeTasksRunAlone(roster: seq<AgentRow>, db: Db, clock: nat, actions: seq<Action>, t: nat, x: nat)
    requires FreshDb(db)
    ensures var s := Run(roster, Start(db, clock), actions);
      && s.live[t] <= 1
      && (t < |s.db.tasks| && x < |s.db.tasks| && t != x && s.db.tasks[t].status.Running? && s.db.tasks[x].status.Running?
          ==> s.db.tasks[t].safe && s.db.tasks[x].safe)
  {
    FreshInv(roster, db, clock);
    RunKeepsInv(roster, Start(db, clock), actions);
    var s := Run(roster, Start(db, clock), actions);
    assert t in s.live ==> s.live[t] == 1;
  }

  /** In every run: a task has an artefact exactly when it is completed, then exactly one, and what it
      consumed and received are exactly its prerequisites' artefacts. */
  lemma CompletionIsAtomic(roster: seq<AgentRow>, db: Db, clock: nat, actions: seq<Action>, t: nat)
    requires FreshDb(db) && t < |db.tasks|
    ensures var after := Run(roster, Start(db, clock), actions).db;
      && ArtefactsExact(after)
      && (IsCompleted(after, t) <==> exists a | 0 <= a < |after.artefacts| :: after.artefacts[a].task == t)
      && (forall a, b | 0 <= a < |after.artefacts| && 0 <= b < |after.artefacts| && after.artefacts[a].task == after.artefacts[b].task :: a == b)
  {
    FreshInv(roster, db, clock);
    RunKeepsInv(roster, Start(db, clock), actions);
  }

  lemma {:induction false} RunKeepsTasks(roster: seq<AgentRow>, s: System, actions: seq<Action>, t: nat)
    requires Inv(roster, s) && t < |s.db.tasks|
    ensures t < |Run(roster, s, actions).db.tasks|
    ensures Run(roster, s, actions).db.tasks[t].maxRetries == s.db.tasks[t].maxRetries
    decreases |actions|
  {
    if actions != [] {
      if Enabled(roster, s, actions[0]) {
        StepKeepsInv(roster, s, actions[0]);
        StepKeepsTaskRow(roster, s, actions[0], t);
        RunKeepsTasks(roster, Apply(roster, s, actions[0]), actions[1..], t);
      } else {
        RunKeepsTasks(roster, s, actions[1..], t);
      }
    }
  }

  lemma RowsKept(db: Db, t: nat)
    requires t < |db.tasks|
    ensures |Refresh(db).tasks| == |Cancel(db).tasks| == |Reap(db).tasks| == |db.tasks|
    ensures Refresh(db).tasks[t].maxRetries == Cancel(db).tasks[t].maxRetries == Reap(db).tasks[t].maxRetries == db.tasks[t].maxRetries
  {
  }

  lemma StepKeepsTaskRow(roster: seq<AgentRow>, s: System, action: Action, t: nat)
    requires Enabled(roster, s, action) && t < |s.db.tasks|
    ensures var after := Apply(roster, s, action).db;
      t < |after.tasks| && after.tasks[t].maxRetries == s.db.tasks[t].maxRetries
  {
    match action
    case ReportResult(x, kind) => CompleteFrame(s.db, x, kind, s.clock);
    case ReportStale(x) => EndFrame(s.db, x, Blocked, s.clock);
    case ReportUnavailable(x) => EndFrame(s.db, x, Escalated, s.clock);
    case ReportError(x) => EndFrame(s.db, x, Failed, s.clock);
    case GiveUp(x) => EndFrame(s.db, x, Failed, s.clock);
    case ClaimTask(x) => ClaimFrame(s, x);
    case StartWave => RowsKept(s.db, t);
    case CancelRun => RowsKept(s.db, t);
    case CrashAndReap => RowsKept(s.db, t);
    case _ =>
  }

  /** In every run, timeouts and late errors included, a task is claimed at most twice more than it has
      retries, not counting the claims a crash threw away; it changes hands at most once. */
  lemma ClaimsAreBounded(roster: seq<AgentRow>, db: Db, clock: nat, actions: seq<Action>, t: nat)
    requires FreshDb(db) && t < |db.tasks|
    ensures var s := Run(roster, Start(db, clock), actions);
      && t < |s.claims| == |s.reassigned| == |s.resets|
      && s.claims[t] <= db.tasks[t].maxRetries + 2 + s.resets[t]
      && s.reassigned[t] <= 1
  {
    FreshInv(roster, db, clock);
    RunKeepsInv(roster, Start(db, clock), actions);
    RunKeepsTasks(roster, Start(db, clock), actions, t);
    assert Counted(roster, Run(roster, Start(db, clock), actions), t);
  }

  // --- what is final ---

  /** A task leaves a terminal status only in two ways: its dispatch was still in flight when it timed out
      or was cancelled, and now reports an error; or it was blocked or escalated and the run is cancelled. */
  lemma TerminalIsFinalUnlessTimedOut(roster: seq<AgentRow>, s: System, action: Action, t: nat)
    requires Inv(roster, s) && Enabled(roster, s, action)
    requires t < |s.db.tasks| && IsTerminal(s.db.tasks[t].status)
    ensures t < |Apply(roster, s, action).db.tasks|
    ensures Apply(roster, s, action).db.tasks[t].status != s.db.tasks[t].status ==>
      || ((s.db.tasks[t].status.Failed? || s.db.tasks[t].status.Cancelled?) && t in s.live
          && (action == ReportStale(t) || action == ReportUnavailable(t) || action == ReportError(t)))
      || (action.CancelRun? && (s.db.tasks[t].status.Blocked? || s.db.tasks[t].status.Escalated?)
          && Apply(roster, s, action).db.tasks[t] == s.db.tasks[t].(status := Cancelled))
  {
    if IsAbout(action, t) {
      OwnStepKeepsTerminal(roster, s, action, t);
    } else if IsAboutSome(action) {
      OthersStayTerminal(roster, s, action, t);
    }
  }

  predicate IsAboutSome(action: Action) {
    action.ReportResult? || action.ReportStale? || action.ReportUnavailable? || action.ReportError? || action.GiveUp?
  }

  predicate IsAbout(action: Action, t: nat) {
    IsAboutSome(action) && action.task == t
  }

  lemma OwnStepKeepsTerminal(roster: seq<AgentRow>, s: System, action: Action, t: nat)
    requires Consistent(s.db, s.live) && Enabled(roster, s, action) && IsAbout(action, t)
    requires t < |s.db.tasks| && IsTerminal(s.db.tasks[t].status)
    ensures t < |Apply(roster, s, action).db.tasks|
    ensures (action.ReportResult? || action.GiveUp?) ==> Apply(roster, s, action).db == s.db
    ensures !(action.ReportResult? || action.GiveUp?) ==> (s.db.tasks[t].status.Failed? || s.db.tasks[t].status.Cancelled?) && t in s.live
  {
  }

  lemma OthersStayTerminal(roster: seq<AgentRow>, s: System, action: Action, t: nat)
    requires Enabled(roster, s, action) && IsAboutSome(action)
    requires t < |s.db.tasks| && t != action.task && IsTerminal(s.db.tasks[t].status)
    ensures t < |Apply(roster, s, action).db.tasks| && Apply(roster, s, action).db.tasks[t] == s.db.tasks[t]
  {
  }

  predicate Final(s: System, t: nat) {
    t < |s.db.tasks| && t !in s.live && IsTerminal(s.db.tasks[t].status)
  }

  lemma StepKeepsFinal(roster: seq<AgentRow>, s: System, action: Action, t: nat)
    requires Inv(roster, s) && Enabled(roster, s, action) && Final(s, t)
    ensures Final(Apply(roster, s, action), t)
    ensures Apply(roster, s, action).db.tasks[t].status in {s.db.tasks[t].status, CancelledTask(s.db.tasks[t]).status}
  {
    TerminalIsFinalUnlessTimedOut(roster, s, action, t);
  }

  /** In every run a task that has ended, with no dispatch in flight, stays as it is, unless a cancellation
      of the run cancels a blocked or escalated task; a completed one stays completed. */
  lemma {:induction false} OutcomeIsForever(roster: seq<AgentRow>, s: System, actions: seq<Action>, t: nat)
    requires Inv(roster, s) && Final(s, t)
    ensures Final(Run(roster, s, actions), t)
    ensures Run(roster, s, actions).db.tasks[t].status in {s.db.tasks[t].status, CancelledTask(s.db.tasks[t]).status}
    decreases |actions|
  {
    if actions != [] {
      if Enabled(roster, s, actions[0]) {
        StepKeepsFinal(roster, s, actions[0], t);
        StepKeepsInv(roster, s, actions[0]);
        OutcomeIsForever(roster, Apply(roster, s, actions[0]), actions[1..], t);
      } else {
        OutcomeIsForever(roster, s, actions[1..], t);
      }
    }
  }

  /** The report of a dispatch that opens its task again: an error with retries left, or a missing agent
      when another one can take over. */
  predicate Reopens(roster: seq<AgentRow>, s: System, action: Action, t: nat)
    requires t < |s.db.tasks|
  {
    || (action == ReportError(t) && s.db.tasks[t].retryCount < s.db.tasks[t].maxRetries)
    || (action == ReportUnavailable(t) && Takeovers(roster, s.db.tasks[t]) != [])
  }

  /** A step opens a task again that has ended exactly when it is such a report, come late. */
  lemma EndedReopensIff(roster: seq<AgentRow>, s: System, action: Action, t: nat)
    requires Inv(roster, s) && Enabled(roster, s, action)
    requires t < |s.db.tasks| && IsTerminal(s.db.tasks[t].status)
    ensures t < |Apply(roster, s, action).db.tasks|
    ensures !IsTerminal(Apply(roster, s, action).db.tasks[t].status) <==> Reopens(roster, s, action, t)
  {
    if action == ReportStale(t) || action == ReportUnavailable(t) || action == ReportError(t) {
      OwnErrorReopensIff(roster, s, action, t);
    } else {
      TerminalIsFinalUnlessTimedOut(roster, s, action, t);
    }
  }

  lemma OwnErrorReopensIff(roster: seq<AgentRow>, s: System, action: Action, t: nat)
    requires Enabled(roster, s, action) && t < |s.db.tasks|
    requires action == ReportStale(t) || action == ReportUnavailable(t) || action == ReportError(t)
    ensures t < |Apply(roster, s, action).db.tasks|
    ensures !IsTerminal(Apply(roster, s, action).db.tasks[t].status) <==> Reopens(roster, s, action, t)
  {
    match action
    case ReportStale(_) => EndFrame(s.db, t, Blocked, s.clock);
    case ReportUnavailable(_) => EndFrame(s.db, t, Escalated, s.clock);
    case ReportError(_) => EndFrame(s.db, t, Failed, s.clock);
  }

  ghost predicate StaysEnded(roster: seq<AgentRow>, s: System, actions: seq<Action>, t: nat)
    decreases |actions|
  {
    && t < |s.db.tasks| && IsTerminal(s.db.tasks[t].status)
    && (actions != [] ==> StaysEnded(roster, Next(roster, s, actions[0]), actions[1..], t))
  }

  ghost predicate NeverReopened(roster: seq<AgentRow>, s: System, actions: seq<Action>, t: nat)
    decreases |actions|
  {
    actions != [] ==>
      && (t < |s.db.tasks| && Enabled(roster, s, actions[0]) ==> !Reopens(roster, s, actions[0], t))
      && NeverReopened(roster, Next(roster, s, actions[0]), actions[1..], t)
  }

  lemma NextReopensIff(roster: seq<AgentRow>, s: System, action: Action, t: nat)
    requires Inv(roster, s) && t < |s.db.tasks| && IsTerminal(s.db.tasks[t].status)
    ensures Inv(roster, Next(roster, s, action)) && t < |Next(roster, s, action).db.tasks|
    ensures !IsTerminal(Next(roster, s, action).db.tasks[t].status) <==> Enabled(roster, s, action) && Reopens(roster, s, action, t)
  {
    if Enabled(roster, s, action) {
      StepKeepsInv(roster, s, action);
      EndedReopensIff(roster, s, action, t);
    }
  }

  /** In a run a task that has ended is never open again if and only if no such report comes. */
  lemma {:induction false} StaysEndedIff(roster: seq<AgentRow>, s: System, actions: seq<Action>, t: nat)
    requires Inv(roster, s) && t < |s.db.tasks| && IsTerminal(s.db.tasks[t].status)
    ensures StaysEnded(roster, s, actions, t) <==> NeverReopened(roster, s, actions, t)
    decreases |actions|
  {
    if actions != [] {
      NextReopensIff(roster, s, actions[0], t);
      if IsTerminal(Next(roster, s, actions[0]).db.tasks[t].status) {
        StaysEndedIff(roster, Next(roster, s, actions[0]), actions[1..], t);
      }
    }
  }

  lemma StepKeepsSatisfied(roster: seq<AgentRow>, s: System, action: Action, j: nat)
    requires Enabled(roster, s, action) && j < |s.db.deps| && s.db.deps[j].state.Satisfied?
    ensures j < |Apply(roster, s, action).db.deps| && Apply(roster, s, action).db.deps[j] == s.db.deps[j]
  {
  }

  /** In every run a satisfied row stays satisfied, with its prerequisite completed. */
  lemma {:induction false} SatisfiedForever(roster: seq<AgentRow>, s: System, actions: seq<Action>, j: nat)
    requires Inv(roster, s) && j < |s.db.deps| && s.db.deps[j].state.Satisfied?
    ensures j < |Run(roster, s, actions).db.deps| && Run(roster, s, actions).db.deps[j] == s.db.deps[j]
    ensures IsCompleted(Run(roster, s, actions).db, s.db.deps[j].prerequisite)
    decreases |actions|
  {
    if actions != [] {
      if Enabled(roster, s, actions[0]) {
        StepKeepsSatisfied(roster, s, actions[0], j);
        StepKeepsInv(roster, s, actions[0]);
      }
      SatisfiedForever(roster, Next(roster, s, actions[0]), actions[1..], j);
    }
  }

  /** Crash recovery completes nothing and touches no artefact; a concurrency-safe task it interrupts can
      be claimed again at once, with all its prerequisites completed, and any other is failed. */
  lemma InterruptedTasksResume(roster: seq<AgentRow>, s: System, t: nat)
    requires Inv(roster, s) && t < |s.db.tasks| && s.db.tasks[t].status.Running?
    ensures var after := Apply(roster, s, CrashAndReap);
      && |after.db.tasks| == |s.db.tasks| && after.db.artefacts == s.db.artefacts
      && (forall x: nat :: IsCompleted(after.db, x) <==> IsCompleted(s.db, x))
      && (s.db.tasks[t].safe ==> Claimable(after.db, t) && forall x: nat | DependsOn(s.db.deps, t, x) :: IsCompleted(after.db, x))
      && (!s.db.tasks[t].safe ==> after.db.tasks[t].status.Failed?)
  {
  }

  // --- the dependents of a failed task ---

  predicate HasOpenDependent(db: Db, t: nat) {
    exists j | 0 <= j < |db.deps| ::
      db.deps[j].prerequisite == t && db.deps[j].hard && db.deps[j].dependent < |db.tasks|
      && !IsTerminal(db.tasks[db.deps[j].dependent].status)
  }

  /** No task that is still open waits for a failed one. */
  ghost predicate FailuresPropagated(db: Db) {
    forall t: nat | t < |db.tasks| && db.tasks[t].status.Failed? :: !HasOpenDependent(db, t)
  }

  /** What is running may be put back, or nothing waits for it. */
  ghost predicate MayCrash(db: Db) {
    forall t: nat | t < |db.tasks| && db.tasks[t].status.Running? :: db.tasks[t].safe || !HasOpenDependent(db, t)
  }

  lemma ReapPropagatesIff(db: Db, live: multiset<nat>)
    requires Consistent(db, live) && FailuresPropagated(db)
    ensures FailuresPropagated(Reap(db)) <==> MayCrash(db)
  {
    forall t: nat | t < |db.tasks| && db.tasks[t].status in {Running, Failed}
      ensures HasOpenDependent(Reap(db), t) <==> HasOpenDependent(db, t)
    {
      SameOpenDependents(db, live, t);
    }
    forall t: nat | t < |db.tasks| ensures Reap(db).tasks[t].status.Failed? <==>
      db.tasks[t].status.Failed? || (db.tasks[t].status.Running? && !db.tasks[t].safe) {}
  }

  lemma SameOpenDependents(db: Db, live: multiset<nat>, t: nat)
    requires Consistent(db, live) && t < |db.tasks| && !db.tasks[t].status.Completed?
    ensures HasOpenDependent(Reap(db), t) <==> HasOpenDependent(db, t)
  {
    forall j | 0 <= j < |db.deps| && db.deps[j].prerequisite == t ensures !db.tasks[db.deps[j].dependent].status.Running? {
      assert !db.deps[j].state.Satisfied?;
    }
  }

  lemma EndPropagates(db: Db, live: multiset<nat>, t: nat, status: TaskStatus, now: nat)
    requires Consistent(db, live) && FailuresPropagated(db) && t < |db.tasks| && !db.tasks[t].status.Completed?
    requires status in {Failed, Blocked, Escalated}
    ensures FailuresPropagated(End(db, t, status, now))
  {
    var after := End(db, t, status, now);
    forall x: nat | x < |db.tasks| && after.tasks[x].status.Failed? ensures !HasOpenDependent(after, x) {
      forall j | 0 <= j < |db.deps| && db.deps[j].prerequisite == x ensures IsTerminal(after.tasks[db.deps[j].dependent].status) {
        assert x != t ==> !HasOpenDependent(db, x);
        assert x == t ==> Fails(db.deps[j], t);
      }
    }
  }

  lemma CompletePropagates(db: Db, live: multiset<nat>, t: nat, kind: string, now: nat)
    requires Consistent(db, live) && FailuresPropagated(db) && t in live && db.tasks[t].status.Running?
    ensures FailuresPropagated(Complete(db, t, kind, now))
  {
    var after := Complete(db, t, kind, now);
    forall x: nat | x < |db.tasks| && after.tasks[x].status.Failed? ensures !HasOpenDependent(after, x) {
      assert !HasOpenDependent(db, x);
    }
  }

  /** A task whose prerequisites are all completed may be opened again. */
  lemma ResetPropagates(db: Db, live: multiset<nat>, t: nat, task: Task)
    requires Consistent(db, live) && FailuresPropagated(db) && t in live && (task.status.Ready? || task.status.Retrying?)
    ensures FailuresPropagated(SetTask(db, t, task))
  {
    var after := SetTask(db, t, task);
    forall x: nat | x < |db.tasks| && after.tasks[x].status.Failed? ensures !HasOpenDependent(after, x) {
      assert !HasOpenDependent(db, x);
      assert HardSatisfied(db.deps, t);
    }
  }

  lemma ReportPropagates(roster: seq<AgentRow>, s: System, action: Action)
    requires Consistent(s.db, s.live) && Enabled(roster, s, action) && FailuresPropagated(s.db)
    requires action.ReportResult? || action.ReportStale? || action.ReportUnavailable? || action.ReportError?
    ensures FailuresPropagated(Apply(roster, s, action).db)
  {
    var t := action.task;
    var task := s.db.tasks[t];
    match action
    case ReportResult(_, kind) => if task.status.Running? { CompletePropagates(s.db, s.live, t, kind, s.clock); }
    case ReportStale(_) => EndPropagates(s.db, s.live, t, Blocked, s.clock);
    case ReportUnavailable(_) =>
      var takeovers := Takeovers(roster, task);
      if takeovers == [] {
        EndPropagates(s.db, s.live, t, Escalated, s.clock);
      } else {
        ResetPropagates(s.db, s.live, t, task.(agent := takeovers[0], status := Ready, startedAt := None));
      }
    case ReportError(_) =>
      if task.retryCount < task.maxRetries {
        ResetPropagates(s.db, s.live, t, task.(retryCount := task.retryCount + 1, status := Retrying, startedAt := None));
      } else {
        EndPropagates(s.db, s.live, t, Failed, s.clock);
      }
  }

  /** A transaction that fails nothing and opens nothing. */
  lemma QuietPropagates(db: Db, after: Db)
    requires FailuresPropagated(db) && |after.tasks| == |db.tasks| && after.deps == db.deps
    requires forall x: nat | x < |db.tasks| && after.tasks[x].status.Failed? :: db.tasks[x].status.Failed?
    requires forall x: nat | x < |db.tasks| && IsTerminal(db.tasks[x].status) :: IsTerminal(after.tasks[x].status)
    ensures FailuresPropagated(after)
  {
    forall x: nat | x < |db.tasks| && after.tasks[x].status.Failed? ensures !HasOpenDependent(after, x) {
      assert !HasOpenDependent(db, x);
    }
  }

  /** Every step but a crash leaves no open task behind a failed one, late errors and cancellations
      included; a crash does exactly if nothing waits for a running task that must not run twice. */
  lemma StepPropagatesIff(roster: seq<AgentRow>, s: System, action: Action)
    requires Consistent(s.db, s.live) && Enabled(roster, s, action) && FailuresPropagated(s.db)
    ensures FailuresPropagated(Apply(roster, s, action).db) <==> (action.CrashAndReap? ==> MayCrash(s.db))
  {
    match action
    case ClaimTask(t) => if s.db.tasks[t].status.Ready? { QuietPropagates(s.db, Claim(s.db, t, s.clock)); }
    case GiveUp(t) => if s.db.tasks[t].status.Running? { EndPropagates(s.db, s.live, t, Failed, s.clock); }
    case StartWave => QuietPropagates(s.db, Refresh(s.db));
    case CancelRun => QuietPropagates(s.db, Cancel(s.db));
    case CrashAndReap => ReapPropagatesIff(s.db, s.live);
    case Wait(_) =>
    case Return(_) =>
    case EndWave =>
    case _ => ReportPropagates(roster, s, action);
  }

  lemma NextPropagatesIff(roster: seq<AgentRow>, s: System, action: Action)
    requires Inv(roster, s) && FailuresPropagated(s.db)
    ensures Inv(roster, Next(roster, s, action))
    ensures FailuresPropagated(Next(roster, s, action).db) <==> (action.CrashAndReap? ==> MayCrash(s.db))
  {
    if Enabled(roster, s, action) {
      StepKeepsInv(roster, s, action);
      StepPropagatesIff(roster, s, action);
    }
  }

  ghost predicate AlwaysPropagated(roster: seq<AgentRow>, s: System, actions: seq<Action>)
    decreases |actions|
  {
    FailuresPropagated(s.db) && (actions != [] ==> AlwaysPropagated(roster, Next(roster, s, actions[0]), actions[1..]))
  }

  /** Every crash of the run happens while nothing waits for a running task that must not run twice. */
  ghost predicate CrashesWell(roster: seq<AgentRow>, s: System, actions: seq<Action>)
    decreases |actions|
  {
    actions != [] ==>
      (actions[0].CrashAndReap? ==> MayCrash(s.db)) && CrashesWell(roster, Next(roster, s, actions[0]), actions[1..])
  }

  lemma {:induction false} PropagatedFromHere(roster: seq<AgentRow>, s: System, actions: seq<Action>)
    requires Inv(roster, s) && FailuresPropagated(s.db)
    ensures AlwaysPropagated(roster, s, actions) <==> CrashesWell(roster, s, actions)
    decreases |actions|
  {
    if actions != [] {
      NextPropagatesIff(roster, s, actions[0]);
      if FailuresPropagated(Next(roster, s, actions[0]).db) {
        PropagatedFromHere(roster, Next(roster, s, actions[0]), actions[1..]);
      }
    }
  }

  /** In a run no open task is ever left behind a failed one if and only if every crash of it happens while
      nothing waits for a running task that must not run twice. */
  lemma FailuresPropagateIff(roster: seq<AgentRow>, db: Db, clock: nat, actions: seq<Action>)
    requires FreshDb(db)
    ensures AlwaysPropagated(roster, Start(db, clock), actions) <==> CrashesWell(roster, Start(db, clock), actions)
  {
    FreshInv(roster, db, clock);
    PropagatedFromHere(roster, Start(db, clock), actions);
  }

  // --- concrete runs ---

  function SmallTask(safe: bool): Task {
    if safe then NewTask(MarketAnalysis, "market_analyst") else NewTask(StrategyResearch, "backtesting")
  }

  /** Task 1 needs task 0. */
  function Pair(safe: bool): Db {
    Db([SmallTask(safe), SmallTask(safe)], [Dependency(1, 0, true, Unsatisfied)], [])
  }

  ghost predicate Steps(roster: seq<AgentRow>, s: System, action: Action, after: System) {
    Enabled(roster, s, action) && after == Apply(roster, s, action)
  }

  lemma {:induction false} RunConcat(roster: seq<AgentRow>, s: System, a: seq<Action>, b: seq<Action>)
    ensures Run(roster, s, a + b) == Run(roster, Run(roster, s, a), b)
    decreases |a|
  {
    if a == [] {
      assert a + b == b;
    } else {
      assert (a + b)[1..] == a[1..] + b;
      RunConcat(roster, Next(roster, s, a[0]), a[1..], b);
    }
  }

  lemma RunThen(roster: seq<AgentRow>, s: System, actions: seq<Action>, action: Action)
    ensures Run(roster, s, actions + [action]) == Next(roster, Run(roster, s, actions), action)
  {
    RunConcat(roster, s, actions, [action]);
    assert [action][1..] == [];
  }

  lemma RunThenTwo(roster: seq<AgentRow>, s: System, actions: seq<Action>, s1: System, a: Action, s2: System, b: Action, s3: System)
    requires s1 == Run(roster, s, actions) && Steps(roster, s1, a, s2) && Steps(roster, s2, b, s3)
    ensures Run(roster, s, actions + [a] + [b]) == s3
  {
    RunThen(roster, s, actions, a);
    RunThen(roster, s, actions + [a], b);
  }

  lemma {:induction false} StepsRun(roster: seq<AgentRow>, states: seq<System>, actions: seq<Action>)
    requires |states| == |actions| + 1
    requires forall i | 0 <= i < |actions| :: Steps(roster, states[i], actions[i], states[i + 1])
    ensures Run(roster, states[0], actions) == states[|actions|]
    decreases |actions|
  {
    if actions != [] {
      var n := |actions| - 1;
      forall i | 0 <= i < n ensures Steps(roster, states[..n + 1][i], actions[..n][i], states[..n + 1][i + 1]) {
        assert Steps(roster, states[i], actions[i], states[i + 1]);
      }
      StepsRun(roster, states[..n + 1], actions[..n]);
      RunThen(roster, states[0], actions[..n], actions[n]);
      assert actions[..n] + [actions[n]] == actions;
      assert Steps(roster, states[n], actions[n], states[n + 1]);
    }
  }

  lemma FirstWave(roster: seq<AgentRow>, safe: bool) returns (s: System)
    ensures Steps(roster, Start(Pair(safe), 0), StartWave, s)
    ensures s.phase == Wave({0}, {}) && s.live == multiset{} && s.db.deps == Pair(safe).deps
    ensures s.db.tasks == [SmallTask(safe).(status := Ready), SmallTask(safe).(status := WaitingForDependency)]
  {
    var s0 := Start(Pair(safe), 0);
    s := Apply(roster, s0, StartWave);
    assert HardSatisfied(s0.db.deps, 0);
    assert !HardSatisfied(s0.db.deps, 1) by { assert !s0.db.deps[0].state.Satisfied?; }
  }

  lemma TimedOut(roster: seq<AgentRow>, s1: System) returns (s2: System, s3: System)
    requires s1.phase == Wave({0}, {}) && s1.live == multiset{} && s1.db.deps == Pair(true).deps
    requires s1.db.tasks == [SmallTask(true).(status := Ready), SmallTask(true).(status := WaitingForDependency)]
    ensures Steps(roster, s1, ClaimTask(0), s2) && Steps(roster, s2, GiveUp(0), s3)
    ensures s3.live == multiset{0} && |s3.db.tasks| == 2
    ensures s3.db.tasks[0] == SmallTask(true).(status := Failed, startedAt := Some(s1.clock), completedAt := Some(s1.clock))
    ensures s3.db.tasks[1].status.Blocked?
  {
    s2 := Apply(roster, s1, ClaimTask(0));
    s3 := Apply(roster, s2, GiveUp(0));
    assert Fails(s2.db.deps[0], 0);
  }

  /** Against the engine's own comment: the late error of a timed-out dispatch puts a failed task back
      to retrying, although its dependent has been blocked already. */
  lemma LateErrorReopensFailedTask(roster: seq<AgentRow>) returns (s: System)
    requires IsEnabled(roster, SmallTask(true).agent)
    ensures FreshDb(Pair(true)) && s == Run(roster, Start(Pair(true), 0), [StartWave, ClaimTask(0), GiveUp(0), ReportError(0)])
    ensures |s.db.tasks| == 2 && s.db.tasks[0].status.Retrying? && s.db.tasks[1].status.Blocked?
  {
    var s1 := FirstWave(roster, true);
    var s2, s3 := TimedOut(roster, s1);
    s := Apply(roster, s3, ReportError(0));
    StepsRun(roster, [Start(Pair(true), 0), s1, s2, s3, s], [StartWave, ClaimTask(0), GiveUp(0), ReportError(0)]);
  }

  lemma Crashed(roster: seq<AgentRow>, s1: System) returns (s2: System, s3: System)
    requires s1.phase == Wave({0}, {}) && s1.db.deps == Pair(false).deps
    requires s1.db.tasks == [SmallTask(false).(status := Ready), SmallTask(false).(status := WaitingForDependency)]
    ensures Steps(roster, s1, ClaimTask(0), s2) && Steps(roster, s2, CrashAndReap, s3)
    ensures s3.phase.Idle? && s3.db.deps == Pair(false).deps && |s3.db.tasks| == 2
    ensures s3.db.tasks[0].status.Failed? && s3.db.tasks[1].status.WaitingForDependency?
  {
    s2 := Apply(roster, s1, ClaimTask(0));
    s3 := Apply(roster, s2, CrashAndReap);
  }

  lemma AfterTheCrash(roster: seq<AgentRow>, s3: System) returns (s4: System)
    requires s3.phase.Idle? && s3.db.deps == Pair(false).deps && |s3.db.tasks| == 2
    requires s3.db.tasks[0].status.Failed? && s3.db.tasks[1].status.WaitingForDependency?
    ensures Steps(roster, s3, StartWave, s4) && s4.phase == Wave({}, {}) && s4.db.deps == s3.db.deps
    ensures |s4.db.tasks| == 2 && s4.db.tasks[0].status.Failed? && s4.db.tasks[1].status.WaitingForDependency?
  {
    assert !HardSatisfied(s3.db.deps, 1) by { assert !s3.db.deps[0].state.Satisfied?; }
    s4 := Apply(roster, s3, StartWave);
  }

  /** Crash recovery fails a task that may not run twice, but leaves its dependent waiting. */
  lemma ReaperLeavesDependentsWaiting(roster: seq<AgentRow>) returns (s: System)
    requires IsEnabled(roster, SmallTask(false).agent)
    ensures FreshDb(Pair(false)) && s == Run(roster, Start(Pair(false), 0), [StartWave, ClaimTask(0), CrashAndReap, StartWave])
    ensures |s.db.tasks| == 2 && s.db.tasks[0].status.Failed? && s.db.tasks[1].status.WaitingForDependency?
    ensures s.db.deps == Pair(false).deps && s.phase == Wave({}, {})
  {
    var s1 := FirstWave(roster, false);
    var s2, s3 := Crashed(roster, s1);
    s := AfterTheCrash(roster, s3);
    StepsRun(roster, [Start(Pair(false), 0), s1, s2, s3, s], [StartWave, ClaimTask(0), CrashAndReap, StartWave]);
  }

  // --- soft rows ---

  /** A completion puts a running task back to ready exactly when the task has a soft row on the
      completed one that was still unsatisfied; with hard rows only it never does. */
  lemma CompletionReopensRunningIff(db: Db, t: nat, x: nat)
    requires x < |db.tasks| && db.tasks[x].status.Running? && HardSatisfied(db.deps, x)
    ensures Evaluate(db, t).tasks[x].status.Ready? <==>
      exists j | 0 <= j < |db.deps| :: db.deps[j].dependent == x && !db.deps[j].hard && Satisfies(db.deps[j], t)
    ensures AllHard(db.deps) ==> Evaluate(db, t).tasks[x] == db.tasks[x]
  {
  }
}
