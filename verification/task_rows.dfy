/** One run's rows in the task, dependency and artefact tables, and what each committed
    transaction of the task engine does to them. */
module TaskRows {
  import opened Vocabulary
  import opened Registry

  datatype TaskStatus =
    | Created | Planned | Queued | Ready | Running | WaitingForDependency
    | Blocked | Completed | Failed | Retrying | Escalated | Cancelled

  datatype DependencyState = Unsatisfied | Satisfied | Unsatisfiable

  datatype Disposition = Undispositioned | Informational | Consumed

  datatype Task = Task(
    capability: Capability, agent: string, safe: bool, status: TaskStatus,
    retryCount: nat, maxRetries: nat, startedAt: Option<nat>, completedAt: Option<nat>,
    received: seq<nat>, result: Option<nat>, ranConcurrently: bool, waitSeconds: nat)

  /** `dependent` needs an artefact of `prerequisite`; both are task indices. */
  datatype Dependency = Dependency(dependent: nat, prerequisite: nat, hard: bool, state: DependencyState)

  datatype Artefact = Artefact(task: nat, kind: string, version: nat, consumedBy: seq<nat>, disposition: Disposition)

  /** Rows are never deleted, so a row's identity is its index. */
  datatype Db = Db(tasks: seq<Task>, deps: seq<Dependency>, artefacts: seq<Artefact>)

  const MAX_RETRIES: nat := 3

  /** A task as the planner stores it. */
  function NewTask(capability: Capability, agent: string): Task {
    Task(capability, agent, IsConcurrencySafe(capability), Planned, 0, MAX_RETRIES, None, None, [], None, false, 0)
  }

  predicate WellFormed(db: Db) {
    && (forall j | 0 <= j < |db.deps| :: db.deps[j].dependent < |db.tasks| && db.deps[j].prerequisite < |db.tasks|)
    && (forall a | 0 <= a < |db.artefacts| :: db.artefacts[a].task < |db.tasks|)
  }

  predicate IsTerminal(status: TaskStatus) {
    status in {Completed, Failed, Blocked, Escalated, Cancelled}
  }

  /** Statuses the readiness query looks at. */
  predicate IsCandidate(status: TaskStatus) {
    status in {Planned, Queued, Ready, WaitingForDependency, Retrying}
  }

  predicate HardSatisfied(deps: seq<Dependency>, t: nat) {
    forall j | 0 <= j < |deps| && deps[j].dependent == t && deps[j].hard :: deps[j].state.Satisfied?
  }

  // --- readiness ---

  function Refreshed(task: Task, satisfied: bool): Task {
    if !IsCandidate(task.status) then task
    else task.(status := if satisfied then Ready else WaitingForDependency)
  }

  function Refresh(db: Db): Db {
    db.(tasks := seq(|db.tasks|, t requires 0 <= t < |db.tasks| => Refreshed(db.tasks[t], HardSatisfied(db.deps, t))))
  }

  predicate Claimable(db: Db, t: nat) {
    t < |db.tasks| && db.tasks[t].status.Ready?
  }

  // --- claiming and finishing ---

  function SetTask(db: Db, t: nat, task: Task): Db
    requires t < |db.tasks|
  {
    db.(tasks := db.tasks[t := task])
  }

  function Claim(db: Db, t: nat, now: nat): Db
    requires t < |db.tasks|
  {
    if db.tasks[t].status.Ready? then SetTask(db, t, db.tasks[t].(status := Running, startedAt := Some(now))) else db
  }

  predicate Satisfies(dep: Dependency, t: nat) {
    dep.prerequisite == t && dep.state.Unsatisfied?
  }

  function SatisfiedDeps(deps: seq<Dependency>, t: nat): seq<Dependency> {
    seq(|deps|, j requires 0 <= j < |deps| => if Satisfies(deps[j], t) then deps[j].(state := Satisfied) else deps[j])
  }

  predicate Woken(deps: seq<Dependency>, t: nat, x: nat) {
    exists j | 0 <= j < |deps| :: deps[j].dependent == x && Satisfies(deps[j], t)
  }

  function WokenTask(task: Task, wake: bool): Task {
    if wake && !IsTerminal(task.status) then task.(status := Ready) else task
  }

  /** The completed task's dependency rows become satisfied; a dependent left without an
      unsatisfied hard row becomes ready. */
  function Evaluate(db: Db, t: nat): Db {
    var deps := SatisfiedDeps(db.deps, t);
    db.(deps := deps,
        tasks := seq(|db.tasks|, x requires 0 <= x < |db.tasks| =>
          WokenTask(db.tasks[x], Woken(db.deps, t, x) && HardSatisfied(deps, x))))
  }

  predicate Fails(dep: Dependency, t: nat) {
    dep.prerequisite == t && dep.hard && !dep.state.Satisfied?
  }

  function FailedDeps(deps: seq<Dependency>, t: nat): seq<Dependency> {
    seq(|deps|, j requires 0 <= j < |deps| => if Fails(deps[j], t) then deps[j].(state := Unsatisfiable) else deps[j])
  }

  predicate Doomed(deps: seq<Dependency>, t: nat, x: nat) {
    exists j | 0 <= j < |deps| :: deps[j].dependent == x && Fails(deps[j], t)
  }

  function BlockedTask(task: Task, block: bool): Task {
    if block && !IsTerminal(task.status) then task.(status := Blocked) else task
  }

  /** The failed task's hard rows become unsatisfiable and its direct dependents blocked. */
  function MarkUnsatisfiable(db: Db, t: nat): Db {
    db.(deps := FailedDeps(db.deps, t),
        tasks := seq(|db.tasks|, x requires 0 <= x < |db.tasks| => BlockedTask(db.tasks[x], Doomed(db.deps, t, x))))
  }

  // --- dispatching ---

  predicate DependsOn(deps: seq<Dependency>, x: nat, t: nat) {
    exists j | 0 <= j < |deps| :: deps[j].dependent == x && deps[j].prerequisite == t
  }

  /** Indices of the artefacts owned by `t`'s prerequisites, among the first `n`. */
  function Upstream(db: Db, t: nat, n: nat): (up: seq<nat>)
    requires n <= |db.artefacts|
    ensures forall a: nat :: a in up <==> a < n && DependsOn(db.deps, t, db.artefacts[a].task)
    ensures forall i, j | 0 <= i < j < |up| :: up[i] < up[j]
  {
    if n == 0 then []
    else
      var rest := Upstream(db, t, n - 1);
      assert forall i | 0 <= i < |rest| :: rest[i] in rest;
      if DependsOn(db.deps, t, db.artefacts[n - 1].task) then rest + [n - 1] else rest
  }

  function ConsumedBy(artefact: Artefact, t: nat): Artefact {
    artefact.(consumedBy := if t in artefact.consumedBy then artefact.consumedBy else artefact.consumedBy + [t],
              disposition := Consumed)
  }

  function MarkConsumed(db: Db, t: nat): seq<Artefact> {
    seq(|db.artefacts|, a requires 0 <= a < |db.artefacts| =>
      if DependsOn(db.deps, t, db.artefacts[a].task) then ConsumedBy(db.artefacts[a], t) else db.artefacts[a])
  }

  /** The highest version of this kind the task already owns, or zero. */
  function LatestVersion(artefacts: seq<Artefact>, t: nat, kind: string): (version: nat)
    ensures forall a | 0 <= a < |artefacts| && artefacts[a].task == t && artefacts[a].kind == kind :: artefacts[a].version <= version
    ensures version == 0 || exists a | 0 <= a < |artefacts| :: artefacts[a].task == t && artefacts[a].kind == kind && artefacts[a].version == version
  {
    if artefacts == [] then 0
    else
      var last := artefacts[|artefacts| - 1];
      var rest := LatestVersion(artefacts[..|artefacts| - 1], t, kind);
      if last.task == t && last.kind == kind && last.version > rest then last.version else rest
  }

  /** The rows a dispatch writes: consumption marks, the received inputs and the new artefact. */
  function Dispatch(db: Db, t: nat, kind: string): Db
    requires t < |db.tasks|
  {
    var marked := MarkConsumed(db, t);
    db.(artefacts := marked + [Artefact(t, kind, LatestVersion(marked, t, kind) + 1, [], Informational)],
        tasks := db.tasks[t := db.tasks[t].(received := Upstream(db, t, |db.artefacts|), result := Some(|db.artefacts|))])
  }

  function Complete(db: Db, t: nat, kind: string, now: nat): Db
    requires t < |db.tasks|
  {
    var written := Dispatch(db, t, kind);
    Evaluate(SetTask(written, t, written.tasks[t].(status := Completed, completedAt := Some(now))), t)
  }

  // --- the outcomes of one dispatch ---

  /** A result: kept only if the task is still running, else rolled back as a whole. */
  function Succeed(db: Db, t: nat, kind: string, now: nat): Db
    requires t < |db.tasks|
  {
    if db.tasks[t].status.Running? then Complete(db, t, kind, now) else db
  }

  function End(db: Db, t: nat, status: TaskStatus, now: nat): Db
    requires t < |db.tasks|
  {
    MarkUnsatisfiable(SetTask(db, t, db.tasks[t].(status := status, completedAt := Some(now))), t)
  }

  function TimeOut(db: Db, t: nat, now: nat): Db
    requires t < |db.tasks|
  {
    if db.tasks[t].status.Running? then End(db, t, Failed, now) else db
  }

  /** Not conditional on the task's status. */
  function DataStale(db: Db, t: nat, now: nat): Db
    requires t < |db.tasks|
  {
    End(db, t, Blocked, now)
  }

  /** Not conditional on the task's status. `candidates` are the other agents able to take over. */
  function AgentUnavailable(db: Db, t: nat, candidates: seq<string>, now: nat): Db
    requires t < |db.tasks|
  {
    if candidates != [] then SetTask(db, t, db.tasks[t].(agent := candidates[0], status := Ready, startedAt := None))
    else End(db, t, Escalated, now)
  }

  /** Not conditional on the task's status. */
  function TaskFailure(db: Db, t: nat, now: nat): Db
    requires t < |db.tasks|
  {
    var task := db.tasks[t];
    if task.retryCount < task.maxRetries
    then SetTask(db, t, task.(retryCount := task.retryCount + 1, status := Retrying, startedAt := None))
    else End(db, t, Failed, now)
  }

  function CancelledTask(task: Task): Task {
    if task.status in {Completed, Failed, Cancelled} then task else task.(status := Cancelled)
  }

  /** A human cancels the run: every task not completed or failed is cancelled, blocked and escalated ones
      included; dispatches in flight go on. */
  function Cancel(db: Db): Db {
    db.(tasks := seq(|db.tasks|, t requires 0 <= t < |db.tasks| => CancelledTask(db.tasks[t])))
  }

  function ReapedTask(task: Task): Task {
    if !task.status.Running? then task
    else if task.safe then task.(status := Ready, startedAt := None)
    else task.(status := Failed)
  }

  /** After a restart: a running task is made ready again if it may run concurrently, else failed. */
  function Reap(db: Db): Db {
    db.(tasks := seq(|db.tasks|, t requires 0 <= t < |db.tasks| => ReapedTask(db.tasks[t])))
  }
}
