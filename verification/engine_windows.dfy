/** Recorded execution windows. As long as no late error moves an end past another window, two windows
    overlap only if both tasks are concurrency-safe and independent. */
module EngineWindows {
  import opened Vocabulary
  import opened Registry
  import opened TaskRows
  import opened EngineInvariant
  import opened ArtefactInvariant
  import opened EngineMachine
  import opened EngineRuns

  predicate HasWindow(task: Task) {
    task.startedAt.Some? && task.completedAt.Some?
  }

  predicate Overlap(a: Task, b: Task)
    requires HasWindow(a) && HasWindow(b)
  {
    a.startedAt.value < b.completedAt.value && b.startedAt.value < a.completedAt.value
  }

  ghost predicate TimesOk(task: Task, clock: nat) {
    && (task.startedAt.Some? ==> task.startedAt.value <= clock)
    && (task.completedAt.Some? ==> task.completedAt.value <= clock)
    && (task.status.Running? ==> task.startedAt.Some?)
    && (task.status.Completed? ==> HasWindow(task) && task.startedAt.value <= task.completedAt.value)
  }

  /** What `a` records is over before `b` starts. */
  predicate OverBefore(a: Task, b: Task) {
    a.completedAt.Some? && b.startedAt.Some? && a.completedAt.value <= b.startedAt.value
  }

  predicate BothSafe(a: Task, b: Task) {
    a.safe && b.safe
  }

  ghost predicate AllTimesOk(db: Db, clock: nat) {
    forall t | 0 <= t < |db.tasks| :: TimesOk(db.tasks[t], clock)
  }

  /** Whoever has started has started after its prerequisites completed. */
  ghost predicate DependentsLater(db: Db)
    requires WellFormed(db)
  {
    forall j | 0 <= j < |db.deps| && db.tasks[db.deps[j].dependent].startedAt.Some? ::
      IsCompleted(db, db.deps[j].prerequisite) && OverBefore(db.tasks[db.deps[j].prerequisite], db.tasks[db.deps[j].dependent])
  }

  ghost predicate WindowsApart(db: Db) {
    forall x: nat, y: nat | x < |db.tasks| && y < |db.tasks| && x != y && !BothSafe(db.tasks[x], db.tasks[y]) ::
      && (HasWindow(db.tasks[x]) && HasWindow(db.tasks[y]) ==>
        OverBefore(db.tasks[x], db.tasks[y]) || OverBefore(db.tasks[y], db.tasks[x]))
      && (db.tasks[x].status.Running? && HasWindow(db.tasks[y]) ==> OverBefore(db.tasks[y], db.tasks[x]))
  }

  ghost predicate WindowsOk(db: Db, clock: nat) {
    WellFormed(db) && AllTimesOk(db, clock) && DependentsLater(db) && WindowsApart(db)
  }

  // --- the four ways a row changes ---

  /** Nothing about when `x` ran changes. */
  ghost predicate SameTimes(old_: Task, new_: Task) {
    && new_.safe == old_.safe && new_.startedAt == old_.startedAt && new_.completedAt == old_.completedAt
    && (new_.status.Running? <==> old_.status.Running?) && (new_.status.Completed? <==> old_.status.Completed?)
    && (IsTerminal(old_.status) ==> IsTerminal(new_.status))
  }

  ghost predicate SameTimesBut(db: Db, after: Db, t: nat) {
    && |after.tasks| == |db.tasks| && |after.deps| == |db.deps| && WellFormed(after)
    && (forall j | 0 <= j < |db.deps| ::
      after.deps[j].dependent == db.deps[j].dependent && after.deps[j].prerequisite == db.deps[j].prerequisite)
    && (forall x: nat | x < |db.tasks| && x != t :: SameTimes(db.tasks[x], after.tasks[x]))
  }

  /** `t` is alone with the tasks it may run next to. */
  ghost predicate MayRunBeside(db: Db, t: nat)
    requires t < |db.tasks|
  {
    forall x: nat | x < |db.tasks| && x != t && db.tasks[x].status.Running? :: BothSafe(db.tasks[x], db.tasks[t])
  }

  lemma QuietKeepsWindows(db: Db, after: Db, clock: nat, later: nat)
    requires WindowsOk(db, clock) && SameTimesBut(db, after, |db.tasks|) && clock <= later
    ensures WindowsOk(after, later)
  {
  }

  lemma StartKeepsWindows(db: Db, after: Db, t: nat, clock: nat)
    requires WindowsOk(db, clock) && SameTimesBut(db, after, t) && t < |db.tasks| && MayRunBeside(db, t)
    requires !IsTerminal(db.tasks[t].status) && !db.tasks[t].status.Running?
    requires after.tasks[t] == db.tasks[t].(status := Running, startedAt := Some(clock))
    requires forall j | 0 <= j < |db.deps| && db.deps[j].dependent == t :: IsCompleted(db, db.deps[j].prerequisite)
    ensures WindowsOk(after, clock)
  {
  }

  lemma EndKeepsWindows(db: Db, after: Db, t: nat, clock: nat)
    requires WindowsOk(db, clock) && SameTimesBut(db, after, t) && t < |db.tasks| && MayRunBeside(db, t)
    requires db.tasks[t].status.Running? && IsTerminal(after.tasks[t].status)
    requires after.tasks[t].safe == db.tasks[t].safe && after.tasks[t].startedAt == db.tasks[t].startedAt
    requires after.tasks[t].completedAt == Some(clock)
    ensures WindowsOk(after, clock)
  {
    assert TimesOk(db.tasks[t], clock);
    assert AllTimesOk(after, clock) by {
      forall x: nat | x < |after.tasks| ensures TimesOk(after.tasks[x], clock) {
        assert TimesOk(db.tasks[x], clock);
      }
    }
    assert DependentsLater(after);
    assert WindowsApart(after);
  }

  /** A running task is put back and its start forgotten. */
  lemma ClearKeepsWindows(db: Db, after: Db, t: nat, clock: nat)
    requires WindowsOk(db, clock) && SameTimesBut(db, after, t) && t < |db.tasks| && db.tasks[t].status.Running?
    requires after.tasks[t].startedAt.None? && after.tasks[t].completedAt == db.tasks[t].completedAt
    requires after.tasks[t].safe == db.tasks[t].safe && (after.tasks[t].status.Ready? || after.tasks[t].status.Retrying?)
    ensures WindowsOk(after, clock)
  {
  }

  lemma CancelKeepsWindows(db: Db, clock: nat)
    requires WindowsOk(db, clock)
    ensures WindowsOk(Cancel(db), clock)
  {
    var after := Cancel(db);
    assert AllTimesOk(after, clock) by {
      forall x: nat | x < |after.tasks| ensures TimesOk(after.tasks[x], clock) {
        assert TimesOk(db.tasks[x], clock);
      }
    }
    assert DependentsLater(after);
    assert WindowsApart(after);
  }

  lemma ReapKeepsWindows(db: Db, clock: nat)
    requires WindowsOk(db, clock)
    ensures WindowsOk(Reap(db), clock)
  {
    var after := Reap(db);
    assert AllTimesOk(after, clock) by {
      forall x: nat | x < |after.tasks| ensures TimesOk(after.tasks[x], clock) {
        assert TimesOk(db.tasks[x], clock);
      }
    }
    assert DependentsLater(after);
    assert WindowsApart(after);
  }

  // --- every step ---

  /** The window of `x`, finished or not, lies across the end that `t` gets if it ends now. */
  predicate Crosses(db: Db, t: nat, x: nat, clock: nat)
    requires t < |db.tasks| && x < |db.tasks|
  {
    && x != t && !BothSafe(db.tasks[x], db.tasks[t])
    && db.tasks[t].startedAt.Some? && db.tasks[x].startedAt.Some? && db.tasks[x].startedAt.value < clock
    && (db.tasks[x].status.Running? || (HasWindow(db.tasks[x]) && db.tasks[x].completedAt.value > db.tasks[t].startedAt.value))
  }

  predicate NothingCrosses(db: Db, t: nat, clock: nat)
    requires t < |db.tasks|
  {
    forall x: nat | x < |db.tasks| :: !Crosses(db, t, x, clock)
  }

  /** An error that ends a task which is no longer running moves its end past no window of a task it may not
      run beside. One that reopens the task does no harm. */
  predicate Harmless(roster: seq<AgentRow>, s: System, action: Action) {
    match action
    case ReportStale(t) => t < |s.db.tasks| && (s.db.tasks[t].status.Running? || NothingCrosses(s.db, t, s.clock))
    case ReportUnavailable(t) =>
      t < |s.db.tasks| && (s.db.tasks[t].status.Running? || Takeovers(roster, s.db.tasks[t]) != [] || NothingCrosses(s.db, t, s.clock))
    case ReportError(t) =>
      t < |s.db.tasks|
      && (s.db.tasks[t].status.Running? || s.db.tasks[t].retryCount < s.db.tasks[t].maxRetries || NothingCrosses(s.db, t, s.clock))
    case _ => true
  }

  lemma EndMovesOne(db: Db, live: multiset<nat>, t: nat, status: TaskStatus, now: nat)
    requires Consistent(db, live) && t < |db.tasks| && status in {Failed, Blocked, Escalated} && !db.tasks[t].status.Completed?
    ensures SameTimesBut(db, End(db, t, status, now), t)
  {
  }

  lemma CompleteMovesOne(db: Db, live: multiset<nat>, t: nat, kind: string, now: nat)
    requires Consistent(db, live) && t in live && db.tasks[t].status.Running?
    ensures SameTimesBut(db, Complete(db, t, kind, now), t)
    ensures Complete(db, t, kind, now).tasks[t].safe == db.tasks[t].safe
  {
    SucceedKeeps(db, live, t, kind, now);
    var after := Complete(db, t, kind, now);
    forall x: nat | x < |db.tasks| && x != t ensures SameTimes(db.tasks[x], after.tasks[x]) {
      if db.tasks[x].status.Running? {
        assert HardSatisfied(db.deps, x);
      }
    }
  }

  lemma RunningBesideRunning(s: System, t: nat)
    requires PhaseOk(s) && t < |s.db.tasks| && s.db.tasks[t].status.Running?
    ensures MayRunBeside(s.db, t)
  {
  }

  lemma StartingBesideRunning(s: System, t: nat)
    requires PhaseOk(s) && MayStart(s, t)
    ensures MayRunBeside(s.db, t)
  {
  }

  lemma ClaimKeepsWindows(s: System, t: nat)
    requires Consistent(s.db, s.live) && PhaseOk(s) && WindowsOk(s.db, s.clock) && MayStart(s, t)
    ensures WindowsOk(Claim(s.db, t, s.clock), s.clock)
  {
    if s.db.tasks[t].status.Ready? {
      StartingBesideRunning(s, t);
      assert HardSatisfied(s.db.deps, t);
      StartKeepsWindows(s.db, Claim(s.db, t, s.clock), t, s.clock);
    }
  }

  lemma StopKeepsWindows(s: System, t: nat, status: TaskStatus)
    requires Consistent(s.db, s.live) && PhaseOk(s) && WindowsOk(s.db, s.clock)
    requires t < |s.db.tasks| && s.db.tasks[t].status.Running? && status in {Failed, Blocked, Escalated}
    ensures WindowsOk(End(s.db, t, status, s.clock), s.clock)
  {
    RunningBesideRunning(s, t);
    EndMovesOne(s.db, s.live, t, status, s.clock);
    EndFrame(s.db, t, status, s.clock);
    EndKeepsWindows(s.db, End(s.db, t, status, s.clock), t, s.clock);
  }

  lemma TimeOutKeepsWindows(s: System, t: nat)
    requires Consistent(s.db, s.live) && PhaseOk(s) && WindowsOk(s.db, s.clock) && t < |s.db.tasks|
    ensures WindowsOk(TimeOut(s.db, t, s.clock), s.clock)
  {
    if s.db.tasks[t].status.Running? {
      StopKeepsWindows(s, t, Failed);
    }
  }

  lemma ResultKeepsWindows(s: System, t: nat, kind: string)
    requires Consistent(s.db, s.live) && PhaseOk(s) && WindowsOk(s.db, s.clock) && InFlight(s, t)
    ensures WindowsOk(Succeed(s.db, t, kind, s.clock), s.clock)
  {
    if s.db.tasks[t].status.Running? {
      RunningBesideRunning(s, t);
      CompleteMovesOne(s.db, s.live, t, kind, s.clock);
      CompleteFrame(s.db, t, kind, s.clock);
      EndKeepsWindows(s.db, Complete(s.db, t, kind, s.clock), t, s.clock);
    }
  }

  lemma ErrorKeepsWindows(s: System, t: nat, takeovers: seq<string>)
    requires Consistent(s.db, s.live) && PhaseOk(s) && WindowsOk(s.db, s.clock) && InFlight(s, t) && s.db.tasks[t].status.Running?
    ensures WindowsOk(AgentUnavailable(s.db, t, takeovers, s.clock), s.clock)
    ensures WindowsOk(TaskFailure(s.db, t, s.clock), s.clock)
  {
    StopKeepsWindows(s, t, Escalated);
    StopKeepsWindows(s, t, Failed);
    if takeovers != [] {
      ClearKeepsWindows(s.db, AgentUnavailable(s.db, t, takeovers, s.clock), t, s.clock);
    }
    if s.db.tasks[t].retryCount < s.db.tasks[t].maxRetries {
      ClearKeepsWindows(s.db, TaskFailure(s.db, t, s.clock), t, s.clock);
    }
  }

  /** An error ends a task that is not running any more: the recorded windows stay in order exactly if no
      window of a task it may not run beside lies across the moved end. */
  lemma LateEndKeepsWindowsIff(s: System, t: nat, status: TaskStatus)
    requires Consistent(s.db, s.live) && WindowsOk(s.db, s.clock) && InFlight(s, t)
    requires !s.db.tasks[t].status.Running? && status in {Failed, Blocked, Escalated}
    ensures WindowsOk(End(s.db, t, status, s.clock), s.clock) <==> NothingCrosses(s.db, t, s.clock)
  {
    var after := End(s.db, t, status, s.clock);
    EndMovesOne(s.db, s.live, t, status, s.clock);
    EndFrame(s.db, t, status, s.clock);
    assert TimesOk(s.db.tasks[t], s.clock);
    if NothingCrosses(s.db, t, s.clock) {
      MovedEndInOrder(s.db, after, t, s.clock);
    } else {
      var x: nat :| x < |s.db.tasks| && Crosses(s.db, t, x, s.clock);
      assert SameTimes(s.db.tasks[x], after.tasks[x]);
      assert !OverBefore(after.tasks[t], after.tasks[x]);
      assert !after.tasks[x].status.Running? ==> !OverBefore(after.tasks[x], after.tasks[t]);
    }
  }

  lemma MovedEndInOrder(db: Db, after: Db, t: nat, clock: nat)
    requires WindowsOk(db, clock) && SameTimesBut(db, after, t) && t < |db.tasks| && NothingCrosses(db, t, clock)
    requires !db.tasks[t].status.Running? && !db.tasks[t].status.Completed? && IsTerminal(after.tasks[t].status)
    requires after.tasks[t] == db.tasks[t].(status := after.tasks[t].status, completedAt := Some(clock))
    requires !after.tasks[t].status.Completed?
    ensures WindowsOk(after, clock)
  {
    assert AllTimesOk(after, clock) by {
      forall x: nat | x < |after.tasks| ensures TimesOk(after.tasks[x], clock) {
        assert TimesOk(db.tasks[x], clock);
      }
    }
    assert DependentsLater(after);
    forall x: nat | x < |db.tasks| && x != t && !BothSafe(db.tasks[x], db.tasks[t])
      ensures HasWindow(db.tasks[x]) && HasWindow(after.tasks[t]) ==>
        OverBefore(after.tasks[x], after.tasks[t]) || OverBefore(after.tasks[t], after.tasks[x])
      ensures db.tasks[x].status.Running? && HasWindow(after.tasks[t]) ==> OverBefore(after.tasks[t], after.tasks[x])
    {
      assert TimesOk(db.tasks[x], clock) && !Crosses(db, t, x, clock);
    }
    assert WindowsApart(after);
  }

  lemma LateReopenKeepsWindows(s: System, t: nat, task: Task)
    requires Consistent(s.db, s.live) && WindowsOk(s.db, s.clock) && InFlight(s, t) && !s.db.tasks[t].status.Running?
    requires task.safe == s.db.tasks[t].safe && task.startedAt.None? && task.completedAt == s.db.tasks[t].completedAt
    requires task.status.Ready? || task.status.Retrying?
    ensures WindowsOk(SetTask(s.db, t, task), s.clock)
  {
    var after := SetTask(s.db, t, task);
    assert TimesOk(s.db.tasks[t], s.clock);
    assert AllTimesOk(after, s.clock);
    assert DependentsLater(after);
    assert WindowsApart(after);
  }

  lemma UnavailableKeepsWindowsIff(roster: seq<AgentRow>, s: System, t: nat)
    requires Consistent(s.db, s.live) && PhaseOk(s) && WindowsOk(s.db, s.clock) && InFlight(s, t)
    ensures WindowsOk(AgentUnavailable(s.db, t, Takeovers(roster, s.db.tasks[t]), s.clock), s.clock) <==> Harmless(roster, s, ReportUnavailable(t))
  {
    var task, takeovers := s.db.tasks[t], Takeovers(roster, s.db.tasks[t]);
    if task.status.Running? {
      ErrorKeepsWindows(s, t, takeovers);
    } else if takeovers == [] {
      LateEndKeepsWindowsIff(s, t, Escalated);
    } else {
      LateReopenKeepsWindows(s, t, task.(agent := takeovers[0], status := Ready, startedAt := None));
    }
  }

  lemma FailureKeepsWindowsIff(roster: seq<AgentRow>, s: System, t: nat)
    requires Consistent(s.db, s.live) && PhaseOk(s) && WindowsOk(s.db, s.clock) && InFlight(s, t)
    ensures WindowsOk(TaskFailure(s.db, t, s.clock), s.clock) <==> Harmless(roster, s, ReportError(t))
  {
    var task := s.db.tasks[t];
    if task.status.Running? {
      ErrorKeepsWindows(s, t, []);
    } else if task.retryCount >= task.maxRetries {
      LateEndKeepsWindowsIff(s, t, Failed);
    } else {
      LateReopenKeepsWindows(s, t, task.(retryCount := task.retryCount + 1, status := Retrying, startedAt := None));
    }
  }

  lemma StaleKeepsWindowsIff(roster: seq<AgentRow>, s: System, t: nat)
    requires Consistent(s.db, s.live) && PhaseOk(s) && WindowsOk(s.db, s.clock) && InFlight(s, t)
    ensures WindowsOk(DataStale(s.db, t, s.clock), s.clock) <==> Harmless(roster, s, ReportStale(t))
  {
    if s.db.tasks[t].status.Running? {
      StopKeepsWindows(s, t, Blocked);
    } else {
      LateEndKeepsWindowsIff(s, t, Blocked);
    }
  }

  lemma RefreshKeepsWindows(db: Db, clock: nat)
    requires WindowsOk(db, clock)
    ensures WindowsOk(Refresh(db), clock)
  {
    QuietKeepsWindows(db, Refresh(db), clock, clock);
  }

  lemma ReportKeepsWindowsIff(roster: seq<AgentRow>, s: System, action: Action)
    requires Consistent(s.db, s.live) && PhaseOk(s) && Enabled(roster, s, action) && WindowsOk(s.db, s.clock)
    requires action.ReportResult? || action.ReportStale? || action.ReportUnavailable? || action.ReportError?
    ensures WindowsOk(Apply(roster, s, action).db, s.clock) <==> Harmless(roster, s, action)
  {
    match action
    case ReportResult(t, kind) => ResultKeepsWindows(s, t, kind);
    case ReportStale(t) => StaleKeepsWindowsIff(roster, s, t);
    case ReportUnavailable(t) => UnavailableKeepsWindowsIff(roster, s, t);
    case ReportError(t) => FailureKeepsWindowsIff(roster, s, t);
  }

  lemma LoopStepKeepsWindows(roster: seq<AgentRow>, s: System, action: Action)
    requires Consistent(s.db, s.live) && PhaseOk(s) && Enabled(roster, s, action) && WindowsOk(s.db, s.clock)
    requires !action.ReportResult? && !action.ReportStale? && !action.ReportUnavailable? && !action.ReportError?
    ensures WindowsOk(Apply(roster, s, action).db, Apply(roster, s, action).clock)
  {
    match action
    case Wait(ticks) => QuietKeepsWindows(s.db, s.db, s.clock, s.clock + ticks);
    case StartWave => RefreshKeepsWindows(s.db, s.clock);
    case ClaimTask(t) => ClaimKeepsWindows(s, t);
    case GiveUp(t) => TimeOutKeepsWindows(s, t);
    case CancelRun => CancelKeepsWindows(s.db, s.clock);
    case CrashAndReap => ReapKeepsWindows(s.db, s.clock);
    case Return(_) =>
    case EndWave =>
  }

  /** Every step but a late error keeps the recorded windows in order; a late error does exactly if it is
      harmless. */
  lemma StepKeepsWindowsIff(roster: seq<AgentRow>, s: System, action: Action)
    requires Consistent(s.db, s.live) && PhaseOk(s) && Enabled(roster, s, action) && WindowsOk(s.db, s.clock)
    ensures WindowsOk(Apply(roster, s, action).db, Apply(roster, s, action).clock) <==> Harmless(roster, s, action)
  {
    if action.ReportResult? || action.ReportStale? || action.ReportUnavailable? || action.ReportError? {
      ReportKeepsWindowsIff(roster, s, action);
    } else {
      LoopStepKeepsWindows(roster, s, action);
    }
  }

  // --- every run ---

  /** Every error that arrives is harmless. */
  ghost predicate HarmlessRun(roster: seq<AgentRow>, s: System, actions: seq<Action>)
    decreases |actions|
  {
    actions != [] ==>
      && (Enabled(roster, s, actions[0]) ==> Harmless(roster, s, actions[0]))
      && HarmlessRun(roster, Next(roster, s, actions[0]), actions[1..])
  }

  ghost predicate AlwaysWindowsOk(roster: seq<AgentRow>, s: System, actions: seq<Action>)
    decreases |actions|
  {
    WindowsOk(s.db, s.clock) && (actions != [] ==> AlwaysWindowsOk(roster, Next(roster, s, actions[0]), actions[1..]))
  }

  lemma NextKeepsWindowsIff(roster: seq<AgentRow>, s: System, action: Action)
    requires Inv(roster, s) && WindowsOk(s.db, s.clock)
    ensures Inv(roster, Next(roster, s, action))
    ensures WindowsOk(Next(roster, s, action).db, Next(roster, s, action).clock) <==>
      (Enabled(roster, s, action) ==> Harmless(roster, s, action))
  {
    if Enabled(roster, s, action) {
      StepKeepsInv(roster, s, action);
      StepKeepsWindowsIff(roster, s, action);
    }
  }

  lemma {:induction false} WindowsFromHere(roster: seq<AgentRow>, s: System, actions: seq<Action>)
    requires Inv(roster, s) && WindowsOk(s.db, s.clock)
    ensures AlwaysWindowsOk(roster, s, actions) <==> HarmlessRun(roster, s, actions)
    decreases |actions|
  {
    if actions != [] {
      NextKeepsWindowsIff(roster, s, actions[0]);
      if WindowsOk(Next(roster, s, actions[0]).db, Next(roster, s, actions[0]).clock) {
        WindowsFromHere(roster, Next(roster, s, actions[0]), actions[1..]);
      }
    }
  }

  /** In a run the recorded windows are in order at every moment if and only if every error is harmless. */
  lemma RunKeepsWindowsIff(roster: seq<AgentRow>, db: Db, clock: nat, actions: seq<Action>)
    requires FreshDb(db)
    ensures AlwaysWindowsOk(roster, Start(db, clock), actions) <==> HarmlessRun(roster, Start(db, clock), actions)
  {
    FreshInv(roster, db, clock);
    FreshWindows(db, clock);
    WindowsFromHere(roster, Start(db, clock), actions);
  }

  lemma {:induction false} WindowsOkAtTheEnd(roster: seq<AgentRow>, s: System, actions: seq<Action>)
    requires AlwaysWindowsOk(roster, s, actions)
    ensures WindowsOk(Run(roster, s, actions).db, Run(roster, s, actions).clock)
    decreases |actions|
  {
    if actions != [] {
      WindowsOkAtTheEnd(roster, Next(roster, s, actions[0]), actions[1..]);
    }
  }

  /** Each task of the chain depends on the next. */
  ghost predicate Chain(deps: seq<Dependency>, p: seq<nat>) {
    |p| >= 2 && forall i | 0 <= i < |p| - 1 :: DependsOn(deps, p[i], p[i + 1])
  }

  lemma {:induction false} ChainRunsBackwards(db: Db, clock: nat, p: seq<nat>)
    requires WindowsOk(db, clock) && Chain(db.deps, p) && p[0] < |db.tasks| && db.tasks[p[0]].startedAt.Some?
    ensures IsCompleted(db, p[|p| - 1]) && OverBefore(db.tasks[p[|p| - 1]], db.tasks[p[0]])
    decreases |p|
  {
    assert DependsOn(db.deps, p[0], p[0 + 1]);
    var j :| 0 <= j < |db.deps| && db.deps[j].dependent == p[0] && db.deps[j].prerequisite == p[1];
    assert OverBefore(db.tasks[p[1]], db.tasks[p[0]]);
    if |p| > 2 {
      var q := p[1..];
      forall i | 0 <= i < |q| - 1 ensures DependsOn(db.deps, q[i], q[i + 1]) {
        assert q[i] == p[i + 1] && q[i + 1] == p[i + 2];
      }
      assert TimesOk(db.tasks[p[1]], clock);
      ChainRunsBackwards(db, clock, q);
    }
  }

  lemma FreshWindows(db: Db, clock: nat)
    requires FreshDb(db)
    ensures WindowsOk(db, clock)
  {
  }

  /** In every run without a harmful error: two windows overlap only if both tasks are concurrency-safe
      and neither depends on the other, directly or through others. */
  lemma OverlappingWindowsAreIndependent(roster: seq<AgentRow>, db: Db, clock: nat, actions: seq<Action>, x: nat, y: nat)
    requires FreshDb(db) && HarmlessRun(roster, Start(db, clock), actions)
    requires var after := Run(roster, Start(db, clock), actions).db;
      && x < |after.tasks| && y < |after.tasks| && x != y
      && HasWindow(after.tasks[x]) && HasWindow(after.tasks[y]) && Overlap(after.tasks[x], after.tasks[y])
    ensures var after := Run(roster, Start(db, clock), actions).db;
      && BothSafe(after.tasks[x], after.tasks[y])
      && forall p | Chain(after.deps, p) && p[0] == x :: p[|p| - 1] != y
  {
    var s := Run(roster, Start(db, clock), actions);
    RunKeepsWindowsIff(roster, db, clock, actions);
    WindowsOkAtTheEnd(roster, Start(db, clock), actions);
    forall p | Chain(s.db.deps, p) && p[0] == x ensures p[|p| - 1] != y {
      ChainRunsBackwards(s.db, s.clock, p);
    }
  }

  // --- a harmful error ---

  /** The agents of the two tasks below; the first one may have been switched off after the planning. */
  function Desk(first: bool): seq<AgentRow> {
    [AgentRow("backtesting", [Backtesting, StrategyResearch], first), AgentRow("python_code_generator", [CodeGeneration], true)]
  }

  function Research(retries: nat): Task {
    NewTask(StrategyResearch, "backtesting").(retryCount := retries)
  }

  function Coding(retries: nat): Task {
    NewTask(CodeGeneration, "python_code_generator").(retryCount := retries)
  }

  /** Two tasks that must run alone. */
  function TwoAlone(): Db {
    Db([Research(0), Coding(0)], [], [])
  }

  lemma DeskIsEnabled(first: bool)
    ensures IsEnabled(Desk(first), "backtesting") <==> first
    ensures IsEnabled(Desk(first), "python_code_generator")
    ensures !first ==> Takeovers(Desk(first), Research(0)) == []
  {
    assert Desk(first)[0].name == "backtesting" && Desk(first)[1].name == "python_code_generator";
    FirstTakeover(Desk(first), Research(0));
  }

  /** Between two waves, with both tasks retried this often. */
  predicate Rested(s: System, retries: nat) {
    && s.phase.Idle? && s.live == multiset{} && s.db.deps == [] && s.db.artefacts == [] && |s.db.tasks| == 2
    && (s.db.tasks[0].status.Planned? || s.db.tasks[0].status.Retrying?)
    && s.db.tasks[0] == Research(retries).(status := s.db.tasks[0].status)
    && s.db.tasks[1] == Coding(retries).(status := s.db.tasks[0].status)
  }

  function FirstFails(): seq<Action> {
    [StartWave, ClaimTask(0), ReportError(0), Return(0)]
  }

  function SecondFails(): seq<Action> {
    [ClaimTask(1), ReportError(1), Return(1), EndWave]
  }

  predicate SecondIsNext(s: System, retries: nat) {
    && s.phase == Wave({1}, {}) && s.live == multiset{}
    && s.db == Db([Research(retries + 1).(status := Retrying), Coding(retries).(status := Ready)], [], [])
  }

  lemma FirstClaimed(roster: seq<AgentRow>, s: System, k: nat) returns (s1: System, s2: System)
    requires Rested(s, k)
    ensures Steps(roster, s, StartWave, s1) && Steps(roster, s1, ClaimTask(0), s2)
    ensures s2.clock == s.clock && s2.live == multiset{0} && s2.phase == Wave({1}, {0})
    ensures s2.db == Db([Research(k).(status := Running, startedAt := Some(s.clock)), Coding(k).(status := Ready)], [], [])
  {
    s1 := Apply(roster, s, StartWave);
    assert s1.db.tasks == [Research(k).(status := Ready), Coding(k).(status := Ready)] && s1.phase.pending == {0, 1};
    s2 := Apply(roster, s1, ClaimTask(0));
  }

  lemma FirstFailing(roster: seq<AgentRow>, s: System, k: nat) returns (states: seq<System>)
    requires Rested(s, k) && k < MAX_RETRIES
    ensures |states| == 5 && states[0] == s
    ensures forall i | 0 <= i < 4 :: Steps(roster, states[i], FirstFails()[i], states[i + 1])
    ensures SecondIsNext(states[4], k) && states[4].clock == s.clock
  {
    var s1, s2 := FirstClaimed(roster, s, k);
    var s3 := Apply(roster, s2, ReportError(0));
    states := [s, s1, s2, s3, Apply(roster, s3, Return(0))];
  }

  lemma SecondFailing(roster: seq<AgentRow>, s: System, k: nat) returns (states: seq<System>)
    requires k < MAX_RETRIES && SecondIsNext(s, k)
    ensures |states| == 5 && states[0] == s && Rested(states[4], k + 1) && states[4].clock == s.clock
    ensures forall i | 0 <= i < 4 :: Steps(roster, states[i], SecondFails()[i], states[i + 1])
  {
    assert !IsSafe(s.db, 1);
    var s1 := Apply(roster, s, ClaimTask(1));
    var s2 := Apply(roster, s1, ReportError(1));
    var s3 := Apply(roster, s2, Return(1));
    states := [s, s1, s2, s3, Apply(roster, s3, EndWave)];
  }

  lemma FailingWave(roster: seq<AgentRow>, s: System, k: nat)
    requires Rested(s, k) && k < MAX_RETRIES
    ensures var t := Run(roster, s, FirstFails() + SecondFails()); Rested(t, k + 1) && t.clock == s.clock
  {
    var first := FirstFailing(roster, s, k);
    StepsRun(roster, first, FirstFails());
    var second := SecondFailing(roster, first[4], k);
    StepsRun(roster, second, SecondFails());
    RunConcat(roster, s, FirstFails(), SecondFails());
  }

  /** This many waves in which both tasks fail. */
  function FailingWaves(k: nat): seq<Action> {
    if k == 0 then [] else FailingWaves(k - 1) + (FirstFails() + SecondFails())
  }

  lemma {:induction false} FailingWavesRun(roster: seq<AgentRow>, clock: nat, k: nat)
    requires k <= MAX_RETRIES
    ensures var s := Run(roster, Start(TwoAlone(), clock), FailingWaves(k)); Rested(s, k) && s.clock == clock
  {
    if k > 0 {
      FailingWavesRun(roster, clock, k - 1);
      FailingWave(roster, Run(roster, Start(TwoAlone(), clock), FailingWaves(k - 1)), k - 1);
      RunConcat(roster, Start(TwoAlone(), clock), FailingWaves(k - 1), FirstFails() + SecondFails());
    }
  }

  /** Task 0 times out after a tick, and task 1 has been running for another. */
  function Prelude(): seq<Action> {
    [StartWave, ClaimTask(0), Action.Wait(1), GiveUp(0), ClaimTask(1), Action.Wait(1)]
  }

  lemma FirstRuns(roster: seq<AgentRow>, s0: System, k: nat) returns (states: seq<System>)
    requires Rested(s0, k)
    ensures |states| == 4 && states[0] == s0
    ensures forall i | 0 <= i < 3 :: Steps(roster, states[i], Prelude()[i], states[i + 1])
    ensures states[3].clock == s0.clock + 1 && states[3].live == multiset{0} && states[3].phase == Wave({1}, {0})
    ensures states[3].db == Db([Research(k).(status := Running, startedAt := Some(s0.clock)), Coding(k).(status := Ready)], [], [])
  {
    var s1, s2 := FirstClaimed(roster, s0, k);
    states := [s0, s1, s2, Apply(roster, s2, Action.Wait(1))];
  }

  predicate SecondBesideTimedOut(s: System, clock: nat, k: nat) {
    && s.clock == clock + 2 && s.live == multiset{0, 1} && s.db.deps == []
    && s.db.tasks == [
      Research(k).(status := Failed, startedAt := Some(clock), completedAt := Some(clock + 1)),
      Coding(k).(status := Running, startedAt := Some(clock + 1))]
  }

  lemma SecondRuns(roster: seq<AgentRow>, s3: System, clock: nat, k: nat) returns (states: seq<System>)
    requires s3.clock == clock + 1 && s3.live == multiset{0} && s3.phase == Wave({1}, {0})
    requires s3.db == Db([Research(k).(status := Running, startedAt := Some(clock)), Coding(k).(status := Ready)], [], [])
    ensures |states| == 4 && states[0] == s3 && SecondBesideTimedOut(states[3], clock, k)
    ensures forall i | 0 <= i < 3 :: Steps(roster, states[i], Prelude()[3..][i], states[i + 1])
  {
    var s4 := Apply(roster, s3, GiveUp(0));
    assert s4.phase == Wave({1}, {}) && s4.db.tasks[1] == Coding(k).(status := Ready);
    var s5 := Apply(roster, s4, ClaimTask(1));
    states := [s3, s4, s5, Apply(roster, s5, Action.Wait(1))];
  }

  lemma PreludeRuns(roster: seq<AgentRow>, s0: System, k: nat)
    requires Rested(s0, k)
    ensures SecondBesideTimedOut(Run(roster, s0, Prelude()), s0.clock, k)
  {
    var first := FirstRuns(roster, s0, k);
    StepsRun(roster, first, Prelude()[..3]);
    var second := SecondRuns(roster, first[3], s0.clock, k);
    StepsRun(roster, second, Prelude()[3..]);
    RunConcat(roster, s0, Prelude()[..3], Prelude()[3..]);
    assert Prelude()[..3] + Prelude()[3..] == Prelude();
  }

  /** The three errors that end a task: stale data, no agent left, and an error with the retries used up. */
  predicate EndsFirst(action: Action) {
    action == ReportStale(0) || action == ReportUnavailable(0) || action == ReportError(0)
  }

  function RetriesBefore(late: Action): nat {
    if late.ReportError? then MAX_RETRIES else 0
  }

  predicate LateBesideSecond(s: System, clock: nat, k: nat) {
    && s.clock == clock + 2 && s.live == multiset{1} && s.db.deps == [] && |s.db.tasks| == 2
    && s.db.tasks[0].startedAt == Some(clock) && s.db.tasks[0].completedAt == Some(clock + 2)
    && IsTerminal(s.db.tasks[0].status) && !s.db.tasks[0].safe
    && s.db.tasks[1] == Coding(k).(status := Running, startedAt := Some(clock + 1))
  }

  lemma LateEndBesideSecond(clock: nat, s6: System, k: nat, status: TaskStatus)
    requires SecondBesideTimedOut(s6, clock, k) && status in {Failed, Blocked, Escalated}
    ensures LateBesideSecond(s6.(db := End(s6.db, 0, status, s6.clock), live := multiset{1}), clock, k)
  {
  }

  lemma LateErrorMovesEnd(clock: nat, s6: System, late: Action) returns (s7: System)
    requires EndsFirst(late) && SecondBesideTimedOut(s6, clock, RetriesBefore(late))
    ensures Steps(Desk(!late.ReportUnavailable?), s6, late, s7) && LateBesideSecond(s7, clock, RetriesBefore(late))
  {
    var roster := Desk(!late.ReportUnavailable?);
    DeskIsEnabled(!late.ReportUnavailable?);
    assert s6.live - multiset{0} == multiset{1};
    var status := if late.ReportStale? then Blocked else if late.ReportError? then Failed else Escalated;
    LateEndBesideSecond(clock, s6, RetriesBefore(late), status);
    if late.ReportUnavailable? {
      assert Takeovers(roster, s6.db.tasks[0]) == Takeovers(roster, Research(0));
    }
    s7 := Apply(roster, s6, late);
  }

  lemma SecondReports(first: bool, clock: nat, k: nat, s7: System) returns (s8: System)
    requires LateBesideSecond(s7, clock, k)
    ensures Steps(Desk(first), s7, ReportResult(1, "result"), s8) && |s8.db.tasks| == 2
    ensures HasWindow(s8.db.tasks[0]) && HasWindow(s8.db.tasks[1])
    ensures Overlap(s8.db.tasks[0], s8.db.tasks[1]) && !BothSafe(s8.db.tasks[0], s8.db.tasks[1])
  {
    DeskIsEnabled(first);
    CompleteFrame(s7.db, 1, "result", s7.clock);
    s8 := Apply(Desk(first), s7, ReportResult(1, "result"));
    assert s8.db.tasks[0] == s7.db.tasks[0];
  }

  lemma TwoAloneIsFresh()
    ensures FreshDb(TwoAlone())
  {
  }

  /** It does happen: two tasks that must run alone end up with overlapping windows when the first one times
      out and, while the second is running, its dispatch reports stale data, an agent that was switched off,
      or an error after all retries. */
  lemma LateErrorOverlapsWindows(clock: nat, late: Action) returns (s: System)
    requires EndsFirst(late)
    ensures FreshDb(TwoAlone())
    ensures s == Run(Desk(!late.ReportUnavailable?), Start(TwoAlone(), clock),
                     FailingWaves(RetriesBefore(late)) + Prelude() + [late] + [ReportResult(1, "result")])
    ensures |s.db.tasks| == 2 && HasWindow(s.db.tasks[0]) && HasWindow(s.db.tasks[1])
    ensures Overlap(s.db.tasks[0], s.db.tasks[1]) && !BothSafe(s.db.tasks[0], s.db.tasks[1])
  {
    TwoAloneIsFresh();
    var roster, waves := Desk(!late.ReportUnavailable?), FailingWaves(RetriesBefore(late));
    FailingWavesRun(roster, clock, RetriesBefore(late));
    var s0 := Run(roster, Start(TwoAlone(), clock), waves);
    PreludeRuns(roster, s0, RetriesBefore(late));
    RunConcat(roster, Start(TwoAlone(), clock), waves, Prelude());
    var s6 := Run(roster, s0, Prelude());
    var s7 := LateErrorMovesEnd(clock, s6, late);
    s := SecondReports(!late.ReportUnavailable?, clock, RetriesBefore(late), s7);
    RunThenTwo(roster, Start(TwoAlone(), clock), waves + Prelude(), s6, late, s7, ReportResult(1, "result"), s);
  }
}
