/** The task engine of one process as a state machine. A step is one committed transaction of the
    scheduler loop, of a pool worker, of a dispatch thread (orphaned ones included), of a cancellation
    or of crash recovery; any enabled step may come next. */
module EngineMachine {
  import opened Vocabulary
  import opened Registry
  import opened TaskRows
  import opened EngineInvariant
  import opened ArtefactInvariant

  /** Between waves, or inside one: the ready tasks not started yet and the calls waiting for a dispatch. */
  datatype Phase = Idle | Wave(pending: set<nat>, active: set<nat>)

  /** `claims`, `reassigned` and `resets` count, per task, how often it was claimed, handed to another
      agent, and put back by crash recovery. */
  datatype System = System(
    db: Db, live: multiset<nat>, phase: Phase, clock: nat,
    claims: seq<nat>, reassigned: seq<nat>, resets: seq<nat>)

  datatype Action =
    | Wait(ticks: nat)
    | StartWave
    | ClaimTask(task: nat)
    | ReportResult(task: nat, kind: string)
    | ReportStale(task: nat)
    | ReportUnavailable(task: nat)
    | ReportError(task: nat)
    | GiveUp(task: nat)
    | Return(task: nat)
    | EndWave
    | CancelRun
    | CrashAndReap

  function Others(names: seq<string>, agent: string): (others: seq<string>)
    ensures forall n :: n in others <==> n in names && n != agent
  {
    if names == [] then []
    else
      var rest := Others(names[..|names| - 1], agent);
      if names[|names| - 1] == agent then rest else rest + [names[|names| - 1]]
  }

  /** The other enabled agents that declare the task's capability. */
  function Takeovers(roster: seq<AgentRow>, task: Task): seq<string> {
    Others(FindByCapability(roster, task.capability), task.agent)
  }

  predicate CanTakeOver(row: AgentRow, task: Task) {
    Declares(row, task.capability) && row.name != task.agent
  }

  predicate IsFirst(roster: seq<AgentRow>, task: Task, i: nat) {
    i < |roster| && CanTakeOver(roster[i], task) && forall j | 0 <= j < i :: !CanTakeOver(roster[j], task)
  }

  lemma TakeoversStep(roster: seq<AgentRow>, task: Task)
    requires roster != []
    ensures var init, last := roster[..|roster| - 1], roster[|roster| - 1];
      Takeovers(roster, task) == Takeovers(init, task) + if CanTakeOver(last, task) then [last.name] else []
  {
    var init, last := roster[..|roster| - 1], roster[|roster| - 1];
    if Declares(last, task.capability) {
      var names := FindByCapability(init, task.capability);
      assert (names + [last.name])[..|names|] == names;
    }
  }

  /** Of the agents able to take over, the first in registry order comes first. */
  lemma {:induction false} FirstTakeover(roster: seq<AgentRow>, task: Task)
    ensures Takeovers(roster, task) == [] <==> forall i | 0 <= i < |roster| :: !CanTakeOver(roster[i], task)
    ensures Takeovers(roster, task) != [] ==>
      exists i: nat :: IsFirst(roster, task, i) && roster[i].name == Takeovers(roster, task)[0]
  {
    if roster != [] {
      var m := |roster| - 1;
      FirstTakeover(roster[..m], task);
      TakeoversStep(roster, task);
      if Takeovers(roster[..m], task) != [] {
        var i: nat :| IsFirst(roster[..m], task, i) && roster[..m][i].name == Takeovers(roster[..m], task)[0];
        assert IsFirst(roster, task, i);
      } else if CanTakeOver(roster[m], task) {
        assert IsFirst(roster, task, m);
      }
    }
  }

  function ReadyTasks(db: Db): set<nat> {
    set t | 0 <= t < |db.tasks| && db.tasks[t].status.Ready?
  }

  predicate IsSafe(db: Db, t: nat) {
    t < |db.tasks| && db.tasks[t].safe
  }

  /** Concurrency-safe tasks of a wave start at any time; the others afterwards, one by one. */
  predicate MayStart(s: System, t: nat) {
    && s.phase.Wave? && t in s.phase.pending && t < |s.db.tasks|
    && (s.db.tasks[t].safe || (s.phase.active == {} && forall p | p in s.phase.pending :: !IsSafe(s.db, p)))
  }

  predicate InFlight(s: System, t: nat) {
    t in s.live && t < |s.db.tasks|
  }

  /** A dispatch finds out first whether its agent is enabled; an error can strike even before that. */
  predicate Enabled(roster: seq<AgentRow>, s: System, action: Action) {
    match action
    case Wait(_) => true
    case StartWave => s.phase.Idle?
    case ClaimTask(t) => MayStart(s, t)
    case ReportResult(t, _) => InFlight(s, t) && IsEnabled(roster, s.db.tasks[t].agent)
    case ReportStale(t) => InFlight(s, t) && IsEnabled(roster, s.db.tasks[t].agent)
    case ReportUnavailable(t) => InFlight(s, t) && !IsEnabled(roster, s.db.tasks[t].agent)
    case ReportError(t) => InFlight(s, t)
    case GiveUp(t) => s.phase.Wave? && t in s.phase.active && t < |s.db.tasks|
    case Return(t) => s.phase.Wave? && t in s.phase.active && t !in s.live
    case EndWave => s.phase.Wave? && s.phase.pending == {} && s.phase.active == {}
    case CancelRun => true
    case CrashAndReap => true
  }

  function Bump(counts: seq<nat>, t: nat): seq<nat> {
    if t < |counts| then counts[t := counts[t] + 1] else counts
  }

  function Apply(roster: seq<AgentRow>, s: System, action: Action): System
    requires Enabled(roster, s, action)
  {
    match action
    case Wait(ticks) => s.(clock := s.clock + ticks)
    case StartWave => s.(db := Refresh(s.db), phase := Wave(ReadyTasks(Refresh(s.db)), {}))
    case ClaimTask(t) =>
      if s.db.tasks[t].status.Ready?
      then s.(db := Claim(s.db, t, s.clock), live := s.live + multiset{t}, claims := Bump(s.claims, t),
              phase := Wave(s.phase.pending - {t}, s.phase.active + {t}))
      else s.(phase := Wave(s.phase.pending - {t}, s.phase.active))
    case ReportResult(t, kind) => s.(db := Succeed(s.db, t, kind, s.clock), live := s.live - multiset{t})
    case ReportStale(t) => s.(db := DataStale(s.db, t, s.clock), live := s.live - multiset{t})
    case ReportUnavailable(t) =>
      var takeovers := Takeovers(roster, s.db.tasks[t]);
      s.(db := AgentUnavailable(s.db, t, takeovers, s.clock), live := s.live - multiset{t},
         reassigned := if takeovers != [] then Bump(s.reassigned, t) else s.reassigned)
    case ReportError(t) => s.(db := TaskFailure(s.db, t, s.clock), live := s.live - multiset{t})
    case GiveUp(t) => s.(db := TimeOut(s.db, t, s.clock), phase := s.phase.(active := s.phase.active - {t}))
    case Return(t) => s.(phase := s.phase.(active := s.phase.active - {t}))
    case EndWave => s.(phase := Idle)
    case CancelRun => s.(db := Cancel(s.db))
    case CrashAndReap =>
      s.(db := Reap(s.db), live := multiset{}, phase := Idle,
         resets := seq(|s.resets|, t requires 0 <= t < |s.resets| =>
           if t < |s.db.tasks| && s.db.tasks[t].status.Running? then s.resets[t] + 1 else s.resets[t]))
  }

  // --- the invariants ---

  /** Only a waited-for call has a running task, and a task that may not run concurrently is waited
      for alone, after the concurrency-safe part of its wave. */
  ghost predicate PhaseOk(s: System) {
    match s.phase
    case Idle => forall t | 0 <= t < |s.db.tasks| :: !s.db.tasks[t].status.Running?
    case Wave(pending, active) =>
      && (forall t | 0 <= t < |s.db.tasks| && s.db.tasks[t].status.Running? :: t in active)
      && (forall t | t in pending || t in active :: t < |s.db.tasks|)
      && (forall t | t in active && !IsSafe(s.db, t) :: active == {t} && forall p | p in pending :: !IsSafe(s.db, p))
  }

  /** The task's current claim, if any, has been paid for by no retry, hand-over or reset yet. */
  predicate Unsettled(s: System, t: nat)
    requires t < |s.db.tasks|
  {
    t in s.live || IsTerminal(s.db.tasks[t].status)
  }

  ghost predicate Counted(roster: seq<AgentRow>, s: System, t: nat)
    requires t < |s.db.tasks| == |s.claims| == |s.reassigned| == |s.resets|
  {
    && s.db.tasks[t].retryCount <= s.db.tasks[t].maxRetries
    && s.claims[t] <= s.db.tasks[t].retryCount + s.reassigned[t] + s.resets[t] + (if Unsettled(s, t) then 1 else 0)
    && s.reassigned[t] <= 1
    && (s.reassigned[t] == 1 ==> IsEnabled(roster, s.db.tasks[t].agent))
  }

  ghost predicate CountsOk(roster: seq<AgentRow>, s: System) {
    && |s.claims| == |s.reassigned| == |s.resets| == |s.db.tasks|
    && forall t | 0 <= t < |s.db.tasks| :: Counted(roster, s, t)
  }

  ghost predicate Inv(roster: seq<AgentRow>, s: System) {
    Consistent(s.db, s.live) && ArtefactsExact(s.db) && PhaseOk(s) && CountsOk(roster, s)
  }

  /** What a transaction about task `t` leaves alone. */
  ghost predicate OthersKept(db: Db, after: Db, t: nat) {
    && |after.tasks| == |db.tasks|
    && (forall x | 0 <= x < |db.tasks| :: after.tasks[x].safe == db.tasks[x].safe && after.tasks[x].maxRetries == db.tasks[x].maxRetries)
    && (forall x | 0 <= x < |db.tasks| && x != t ::
      && after.tasks[x].retryCount == db.tasks[x].retryCount && after.tasks[x].agent == db.tasks[x].agent
      && (IsTerminal(db.tasks[x].status) ==> IsTerminal(after.tasks[x].status))
      && (after.tasks[x].status.Running? ==> db.tasks[x].status.Running?))
  }

  lemma EndFrame(db: Db, t: nat, status: TaskStatus, now: nat)
    requires t < |db.tasks| && status in {Failed, Blocked, Escalated}
    ensures OthersKept(db, End(db, t, status, now), t)
    ensures End(db, t, status, now).tasks[t] == db.tasks[t].(status := status, completedAt := Some(now))
  {
  }

  lemma CompleteFrame(db: Db, t: nat, kind: string, now: nat)
    requires t < |db.tasks|
    ensures OthersKept(db, Complete(db, t, kind, now), t)
    ensures Complete(db, t, kind, now).tasks[t].status == Completed
    ensures Complete(db, t, kind, now).tasks[t].retryCount == db.tasks[t].retryCount
    ensures Complete(db, t, kind, now).tasks[t].agent == db.tasks[t].agent
    ensures Complete(db, t, kind, now).tasks[t].startedAt == db.tasks[t].startedAt
    ensures Complete(db, t, kind, now).tasks[t].completedAt == Some(now)
  {
  }

  // --- every step keeps them ---

  lemma StepKeepsConsistency(roster: seq<AgentRow>, s: System, action: Action)
    requires Inv(roster, s) && Enabled(roster, s, action)
    ensures Consistent(Apply(roster, s, action).db, Apply(roster, s, action).live)
  {
    match action
    case Wait(_) =>
    case StartWave => RefreshKeeps(s.db, s.live);
    case ClaimTask(t) => if s.db.tasks[t].status.Ready? { ClaimKeeps(s.db, s.live, t, s.clock); }
    case ReportResult(t, kind) => SucceedKeeps(s.db, s.live, t, kind, s.clock);
    case ReportStale(t) => EndKeeps(s.db, s.live, t, Blocked, s.clock);
    case ReportUnavailable(t) => AgentUnavailableKeeps(s.db, s.live, t, Takeovers(roster, s.db.tasks[t]), s.clock);
    case ReportError(t) => TaskFailureKeeps(s.db, s.live, t, s.clock);
    case GiveUp(t) => TimeOutKeeps(s.db, s.live, t, s.clock);
    case Return(_) =>
    case EndWave =>
    case CancelRun => CancelKeeps(s.db, s.live);
    case CrashAndReap => ReapKeeps(s.db, s.live);
  }

  /** Every step but an accepted result leaves completions and artefacts as they are. */
  lemma StepCompletesNothing(roster: seq<AgentRow>, s: System, action: Action)
    requires Consistent(s.db, s.live) && Enabled(roster, s, action) && !action.ReportResult?
    ensures SameCompletions(s.db, Apply(roster, s, action).db)
  {
    match action
    case StartWave => RefreshAndReapCompleteNothing(s.db);
    case CancelRun => RefreshAndReapCompleteNothing(s.db);
    case CrashAndReap => RefreshAndReapCompleteNothing(s.db);
    case ClaimTask(t) => ClaimAndTimeOutCompleteNothing(s.db, t, s.clock);
    case GiveUp(t) => ClaimAndTimeOutCompleteNothing(s.db, t, s.clock);
    case ReportStale(t) => ErrorsCompleteNothing(s.db, s.live, t, [], s.clock);
    case ReportUnavailable(t) => ErrorsCompleteNothing(s.db, s.live, t, Takeovers(roster, s.db.tasks[t]), s.clock);
    case ReportError(t) => ErrorsCompleteNothing(s.db, s.live, t, [], s.clock);
    case _ =>
  }

  lemma StepKeepsArtefacts(roster: seq<AgentRow>, s: System, action: Action)
    requires Inv(roster, s) && Enabled(roster, s, action)
    ensures ArtefactsExact(Apply(roster, s, action).db)
  {
    if action.ReportResult? {
      SucceedKeepsArtefacts(s.db, s.live, action.task, action.kind, s.clock);
    } else {
      StepCompletesNothing(roster, s, action);
      SameCompletionsKeepArtefacts(s.db, Apply(roster, s, action).db);
    }
  }

  // --- the shape of a wave ---

  /** A transaction that starts no task and keeps every task's concurrency class. */
  ghost predicate StartsNothing(db: Db, after: Db) {
    && |after.tasks| == |db.tasks|
    && forall x | 0 <= x < |db.tasks| ::
      after.tasks[x].safe == db.tasks[x].safe && (after.tasks[x].status.Running? ==> db.tasks[x].status.Running?)
  }

  lemma StartsNothingKeepsPhase(s: System, after: Db)
    requires PhaseOk(s) && StartsNothing(s.db, after)
    ensures PhaseOk(s.(db := after))
  {
  }

  lemma EndStartsNothing(db: Db, t: nat, status: TaskStatus, now: nat)
    requires t < |db.tasks| && status in {Failed, Blocked, Escalated}
    ensures StartsNothing(db, End(db, t, status, now))
  {
  }

  lemma ReportStartsNothing(roster: seq<AgentRow>, s: System, action: Action)
    requires Enabled(roster, s, action) && (action.ReportResult? || action.ReportStale? || action.ReportUnavailable? || action.ReportError?)
    ensures StartsNothing(s.db, Apply(roster, s, action).db)
  {
    match action
    case ReportResult(t, kind) => if s.db.tasks[t].status.Running? { CompleteFrame(s.db, t, kind, s.clock); }
    case ReportStale(t) => EndStartsNothing(s.db, t, Blocked, s.clock);
    case ReportUnavailable(t) => EndStartsNothing(s.db, t, Escalated, s.clock);
    case ReportError(t) => EndStartsNothing(s.db, t, Failed, s.clock);
  }

  lemma ReportKeepsPhase(roster: seq<AgentRow>, s: System, action: Action)
    requires PhaseOk(s) && Enabled(roster, s, action)
    requires action.ReportResult? || action.ReportStale? || action.ReportUnavailable? || action.ReportError?
    ensures PhaseOk(Apply(roster, s, action))
  {
    ReportStartsNothing(roster, s, action);
    StartsNothingKeepsPhase(s, Apply(roster, s, action).db);
  }

  lemma StartWaveKeepsPhase(s: System)
    requires PhaseOk(s) && s.phase.Idle?
    ensures PhaseOk(s.(db := Refresh(s.db), phase := Wave(ReadyTasks(Refresh(s.db)), {})))
  {
  }

  lemma ClaimKeepsPhase(roster: seq<AgentRow>, s: System, t: nat)
    requires PhaseOk(s) && MayStart(s, t)
    ensures PhaseOk(Apply(roster, s, ClaimTask(t)))
  {
  }

  lemma GiveUpKeepsPhase(roster: seq<AgentRow>, s: System, t: nat)
    requires PhaseOk(s) && s.phase.Wave? && t in s.phase.active && t < |s.db.tasks|
    ensures PhaseOk(Apply(roster, s, GiveUp(t)))
  {
  }

  lemma StepKeepsPhase(roster: seq<AgentRow>, s: System, action: Action)
    requires Inv(roster, s) && Enabled(roster, s, action)
    ensures PhaseOk(Apply(roster, s, action))
  {
    match action
    case Wait(_) =>
    case StartWave => StartWaveKeepsPhase(s);
    case ClaimTask(t) => ClaimKeepsPhase(roster, s, t);
    case GiveUp(t) => GiveUpKeepsPhase(roster, s, t);
    case Return(t) =>
      assert t < |s.db.tasks| && !s.db.tasks[t].status.Running?;
      assert Apply(roster, s, action).phase == Wave(s.phase.pending, s.phase.active - {t});
    case EndWave =>
    case CancelRun => StartsNothingKeepsPhase(s, Cancel(s.db));
    case CrashAndReap =>
    case _ => ReportKeepsPhase(roster, s, action);
  }

  // --- how often a task is claimed ---

  lemma OthersKeepCounts(roster: seq<AgentRow>, s: System, after: System, t: nat)
    requires CountsOk(roster, s) && OthersKept(s.db, after.db, t)
    requires |s.db.tasks| == |after.claims| == |after.reassigned| == |after.resets|
    requires forall x: nat | x < |s.db.tasks| && x != t ::
      && after.claims[x] == s.claims[x] && after.reassigned[x] == s.reassigned[x] && after.resets[x] == s.resets[x]
      && after.live[x] == s.live[x]
    requires t < |s.db.tasks| ==> Counted(roster, after, t)
    ensures CountsOk(roster, after)
  {
    forall x | 0 <= x < |after.db.tasks| ensures Counted(roster, after, x) {
      assert Counted(roster, s, x);
    }
  }

  lemma TakeoversAreEnabled(roster: seq<AgentRow>, task: Task)
    ensures forall n | n in Takeovers(roster, task) :: IsEnabled(roster, n)
  {
  }

  lemma ResultKeepsCounts(roster: seq<AgentRow>, s: System, t: nat, kind: string)
    requires Inv(roster, s) && Enabled(roster, s, ReportResult(t, kind))
    ensures CountsOk(roster, Apply(roster, s, ReportResult(t, kind)))
  {
    assert Counted(roster, s, t);
    CompleteFrame(s.db, t, kind, s.clock);
    OthersKeepCounts(roster, s, Apply(roster, s, ReportResult(t, kind)), t);
  }

  lemma StaleKeepsCounts(roster: seq<AgentRow>, s: System, t: nat)
    requires Inv(roster, s) && Enabled(roster, s, ReportStale(t))
    ensures CountsOk(roster, Apply(roster, s, ReportStale(t)))
  {
    assert Counted(roster, s, t);
    EndFrame(s.db, t, Blocked, s.clock);
    OthersKeepCounts(roster, s, Apply(roster, s, ReportStale(t)), t);
  }

  lemma UnavailableCounted(roster: seq<AgentRow>, s: System, t: nat)
    requires Inv(roster, s) && Enabled(roster, s, ReportUnavailable(t))
    ensures var after := Apply(roster, s, ReportUnavailable(t));
      t < |after.db.tasks| == |after.claims| == |after.reassigned| == |after.resets| && Counted(roster, after, t)
  {
    assert Counted(roster, s, t);
    EndFrame(s.db, t, Escalated, s.clock);
    TakeoversAreEnabled(roster, s.db.tasks[t]);
  }

  /** A task is handed over at most once, because the agent it goes to is enabled. */
  lemma UnavailableKeepsCounts(roster: seq<AgentRow>, s: System, t: nat)
    requires Inv(roster, s) && Enabled(roster, s, ReportUnavailable(t))
    ensures CountsOk(roster, Apply(roster, s, ReportUnavailable(t)))
  {
    assert Counted(roster, s, t);
    EndFrame(s.db, t, Escalated, s.clock);
    UnavailableCounted(roster, s, t);
    OthersKeepCounts(roster, s, Apply(roster, s, ReportUnavailable(t)), t);
  }

  lemma ErrorKeepsCounts(roster: seq<AgentRow>, s: System, t: nat)
    requires Inv(roster, s) && InFlight(s, t)
    ensures CountsOk(roster, Apply(roster, s, ReportError(t)))
  {
    assert Counted(roster, s, t);
    EndFrame(s.db, t, Failed, s.clock);
    OthersKeepCounts(roster, s, Apply(roster, s, ReportError(t)), t);
  }

  lemma ClaimFrame(s: System, t: nat)
    requires t < |s.db.tasks|
    ensures OthersKept(s.db, Claim(s.db, t, s.clock), t)
    ensures Claim(s.db, t, s.clock).tasks[t].retryCount == s.db.tasks[t].retryCount
    ensures Claim(s.db, t, s.clock).tasks[t].agent == s.db.tasks[t].agent
  {
  }

  lemma ClaimKeepsCounts(roster: seq<AgentRow>, s: System, t: nat)
    requires Inv(roster, s) && MayStart(s, t)
    ensures CountsOk(roster, Apply(roster, s, ClaimTask(t)))
  {
    assert Counted(roster, s, t);
    ClaimFrame(s, t);
    var after := Apply(roster, s, ClaimTask(t));
    assert Counted(roster, after, t);
    OthersKeepCounts(roster, s, after, t);
  }

  lemma GiveUpKeepsCounts(roster: seq<AgentRow>, s: System, t: nat)
    requires Inv(roster, s) && Enabled(roster, s, GiveUp(t))
    ensures CountsOk(roster, Apply(roster, s, GiveUp(t)))
  {
    assert Counted(roster, s, t);
    EndFrame(s.db, t, Failed, s.clock);
    OthersKeepCounts(roster, s, Apply(roster, s, GiveUp(t)), t);
  }

  lemma RefreshKeepsCounts(roster: seq<AgentRow>, s: System)
    requires Inv(roster, s) && s.phase.Idle?
    ensures CountsOk(roster, Apply(roster, s, StartWave))
  {
    var after := Apply(roster, s, StartWave);
    forall x | 0 <= x < |after.db.tasks| ensures Counted(roster, after, x) {
      assert Counted(roster, s, x);
    }
  }

  lemma CancelKeepsCounts(roster: seq<AgentRow>, s: System)
    requires Inv(roster, s)
    ensures CountsOk(roster, Apply(roster, s, CancelRun))
  {
    var after := Apply(roster, s, CancelRun);
    forall x | 0 <= x < |after.db.tasks| ensures Counted(roster, after, x) {
      assert Counted(roster, s, x);
    }
  }

  /** A crash pays for every claim whose dispatch it kills. */
  lemma CrashKeepsCounts(roster: seq<AgentRow>, s: System)
    requires Inv(roster, s)
    ensures CountsOk(roster, Apply(roster, s, CrashAndReap))
  {
    var after := Apply(roster, s, CrashAndReap);
    forall x | 0 <= x < |after.db.tasks| ensures Counted(roster, after, x) {
      assert Counted(roster, s, x);
    }
  }

  lemma QuietKeepsCounts(roster: seq<AgentRow>, s: System, after: System)
    requires CountsOk(roster, s) && after == s.(clock := after.clock, phase := after.phase)
    ensures CountsOk(roster, after)
  {
    forall x | 0 <= x < |after.db.tasks| ensures Counted(roster, after, x) {
      assert Counted(roster, s, x);
    }
  }

  lemma StepKeepsCounts(roster: seq<AgentRow>, s: System, action: Action)
    requires Inv(roster, s) && Enabled(roster, s, action)
    ensures CountsOk(roster, Apply(roster, s, action))
  {
    match action
    case ClaimTask(t) => ClaimKeepsCounts(roster, s, t);
    case GiveUp(t) => GiveUpKeepsCounts(roster, s, t);
    case StartWave => RefreshKeepsCounts(roster, s);
    case CancelRun => CancelKeepsCounts(roster, s);
    case CrashAndReap => CrashKeepsCounts(roster, s);
    case Wait(_) => QuietKeepsCounts(roster, s, Apply(roster, s, action));
    case Return(_) => QuietKeepsCounts(roster, s, Apply(roster, s, action));
    case EndWave => QuietKeepsCounts(roster, s, Apply(roster, s, action));
    case ReportResult(t, kind) => ResultKeepsCounts(roster, s, t, kind);
    case ReportStale(t) => StaleKeepsCounts(roster, s, t);
    case ReportUnavailable(t) => UnavailableKeepsCounts(roster, s, t);
    case ReportError(t) => ErrorKeepsCounts(roster, s, t);
  }

  lemma StepKeepsInv(roster: seq<AgentRow>, s: System, action: Action)
    requires Inv(roster, s) && Enabled(roster, s, action)
    ensures Inv(roster, Apply(roster, s, action))
  {
    StepKeepsConsistency(roster, s, action);
    StepKeepsArtefacts(roster, s, action);
    StepKeepsPhase(roster, s, action);
    StepKeepsCounts(roster, s, action);
  }
}
