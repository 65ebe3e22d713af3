/** What the transactions of the task engine do to the rows, said in terms of the rows alone. */
module RowEffects {
  import opened Vocabulary
  import opened Registry
  import opened TaskRows

  /** Not ended yet. */
  predicate Open(status: TaskStatus) {
    status in {Created, Planned, Queued, Ready, Running, WaitingForDependency, Retrying}
  }

  lemma OpenIsNotTerminal(status: TaskStatus)
    ensures Open(status) <==> !IsTerminal(status)
  {
  }

  ghost predicate SameShape(before: Db, after: Db) {
    |after.tasks| == |before.tasks| && |after.deps| == |before.deps|
  }

  /** `t` is an open hard prerequisite of `x`. */
  ghost predicate WaitsFor(db: Db, x: nat, t: nat) {
    exists j | 0 <= j < |db.deps| ::
      db.deps[j].dependent == x && db.deps[j].prerequisite == t && db.deps[j].hard && !db.deps[j].state.Satisfied?
  }

  /** `t` ends without a result: its status and end are set, its unsatisfied hard rows are dead, every open task
      that waits for it is blocked, and nothing else changes. */
  ghost predicate EndsWithoutResult(before: Db, after: Db, t: nat, status: TaskStatus, now: nat)
    requires t < |before.tasks|
  {
    && SameShape(before, after) && after.artefacts == before.artefacts
    && after.tasks[t] == before.tasks[t].(status := status, completedAt := Some(now))
    && (forall x: nat | x < |before.tasks| && x != t ::
      after.tasks[x] == if Open(before.tasks[x].status) && WaitsFor(before, x, t) then before.tasks[x].(status := Blocked) else before.tasks[x])
    && (forall j | 0 <= j < |before.deps| ::
      after.deps[j] == if before.deps[j].prerequisite == t && before.deps[j].hard && !before.deps[j].state.Satisfied?
        then before.deps[j].(state := Unsatisfiable) else before.deps[j])
  }

  /** The unsatisfied hard rows on `t` are dead and every open task they belong to is blocked. */
  ghost predicate KillsRowsOf(before: Db, after: Db, t: nat) {
    && SameShape(before, after) && after.artefacts == before.artefacts
    && (forall x: nat | x < |before.tasks| ::
      after.tasks[x] == if Open(before.tasks[x].status) && WaitsFor(before, x, t) then before.tasks[x].(status := Blocked) else before.tasks[x])
    && (forall j | 0 <= j < |before.deps| ::
      after.deps[j] == if before.deps[j].prerequisite == t && before.deps[j].hard && !before.deps[j].state.Satisfied?
        then before.deps[j].(state := Unsatisfiable) else before.deps[j])
  }

  lemma MarkEffect(db: Db, t: nat)
    ensures KillsRowsOf(db, MarkUnsatisfiable(db, t), t)
  {
    forall x: nat | x < |db.tasks|
      ensures WaitsFor(db, x, t) <==> Doomed(db.deps, t, x)
      ensures Open(db.tasks[x].status) <==> !IsTerminal(db.tasks[x].status)
    {
      OpenIsNotTerminal(db.tasks[x].status);
    }
  }

  /** Only the row of `t` changes. */
  ghost predicate OnlyTask(before: Db, after: Db, t: nat, task: Task)
    requires t < |before.tasks|
  {
    after == before.(tasks := before.tasks[t := task])
  }

  lemma EndEffect(db: Db, t: nat, status: TaskStatus, now: nat)
    requires t < |db.tasks| && status in {Failed, Blocked, Escalated}
    ensures EndsWithoutResult(db, End(db, t, status, now), t, status, now)
  {
    forall x: nat | x < |db.tasks|
      ensures WaitsFor(db, x, t) <==> Doomed(db.deps, t, x)
      ensures Open(db.tasks[x].status) <==> !IsTerminal(db.tasks[x].status)
    {
      OpenIsNotTerminal(db.tasks[x].status);
    }
  }

  // --- completing ---

  ghost predicate HasPrerequisite(db: Db, t: nat, y: nat) {
    exists j | 0 <= j < |db.deps| :: db.deps[j].dependent == t && db.deps[j].prerequisite == y
  }

  /** `x` had an unsatisfied row on `t` and now has no hard row that is not satisfied. */
  ghost predicate IsServed(before: Db, after: Db, t: nat, x: nat) {
    && (exists j | 0 <= j < |before.deps| ::
      before.deps[j].dependent == x && before.deps[j].prerequisite == t && before.deps[j].state.Unsatisfied?)
    && (forall j | 0 <= j < |after.deps| && after.deps[j].dependent == x && after.deps[j].hard :: after.deps[j].state.Satisfied?)
  }

  /** The new artefact is the next version of its kind; every artefact of a prerequisite is marked as consumed. */
  ghost predicate ArtefactsOf(before: Db, after: Db, t: nat, kind: string) {
    && |after.artefacts| == |before.artefacts| + 1
    && (forall a | 0 <= a < |before.artefacts| ::
      after.artefacts[a] == if HasPrerequisite(before, t, before.artefacts[a].task)
        then before.artefacts[a].(
          consumedBy := if t in before.artefacts[a].consumedBy then before.artefacts[a].consumedBy else before.artefacts[a].consumedBy + [t],
          disposition := Consumed)
        else before.artefacts[a])
    && var added := after.artefacts[|before.artefacts|];
      added.task == t && added.kind == kind && added.consumedBy == [] && added.disposition.Informational? && IsNextVersion(before, t, kind, added.version)
  }

  ghost predicate IsNextVersion(before: Db, t: nat, kind: string, version: nat) {
    && (forall a | 0 <= a < |before.artefacts| && before.artefacts[a].task == t && before.artefacts[a].kind == kind ::
      before.artefacts[a].version < version)
    && (version == 1 || exists a | 0 <= a < |before.artefacts| ::
      before.artefacts[a].task == t && before.artefacts[a].kind == kind && before.artefacts[a].version == version - 1)
  }

  /** `t` completes with one new artefact, having received its prerequisites' artefacts; its rows become satisfied
      and every open task it was the last to keep waiting becomes ready. */
  ghost predicate CompletesWith(before: Db, after: Db, t: nat, kind: string, now: nat)
    requires t < |before.tasks|
  {
    && SameShape(before, after) && ArtefactsOf(before, after, t, kind)
    && after.tasks[t] == before.tasks[t].(
      status := Completed, completedAt := Some(now), result := Some(|before.artefacts|), received := after.tasks[t].received)
    && (forall a: nat :: a in after.tasks[t].received <==> a < |before.artefacts| && HasPrerequisite(before, t, before.artefacts[a].task))
    && (forall j | 0 <= j < |before.deps| ::
      after.deps[j] == if before.deps[j].prerequisite == t && before.deps[j].state.Unsatisfied?
        then before.deps[j].(state := Satisfied) else before.deps[j])
    && (forall x: nat | x < |before.tasks| && x != t ::
      after.tasks[x] == if Open(before.tasks[x].status) && IsServed(before, after, t, x) then before.tasks[x].(status := Ready) else before.tasks[x])
  }

  lemma NextVersion(db: Db, t: nat, kind: string)
    requires t < |db.tasks|
    ensures IsNextVersion(db, t, kind, LatestVersion(MarkConsumed(db, t), t, kind) + 1)
  {
    var marked := MarkConsumed(db, t);
    forall a | 0 <= a < |marked| ensures marked[a].task == db.artefacts[a].task && marked[a].kind == db.artefacts[a].kind && marked[a].version == db.artefacts[a].version {}
  }

  lemma DispatchArtefacts(db: Db, t: nat, kind: string)
    requires t < |db.tasks|
    ensures ArtefactsOf(db, Dispatch(db, t, kind), t, kind)
    ensures forall a: nat :: a in Dispatch(db, t, kind).tasks[t].received <==> a < |db.artefacts| && HasPrerequisite(db, t, db.artefacts[a].task)
  {
    NextVersion(db, t, kind);
    forall y: nat ensures DependsOn(db.deps, t, y) <==> HasPrerequisite(db, t, y) {}
  }

  /** The unsatisfied rows on `t` become satisfied, and every open task it was the last to keep waiting ready. */
  ghost predicate SatisfiesRowsOf(before: Db, after: Db, t: nat) {
    && SameShape(before, after) && after.artefacts == before.artefacts
    && (forall j | 0 <= j < |before.deps| ::
      after.deps[j] == if before.deps[j].prerequisite == t && before.deps[j].state.Unsatisfied?
        then before.deps[j].(state := Satisfied) else before.deps[j])
    && (forall x: nat | x < |before.tasks| ::
      after.tasks[x] == if Open(before.tasks[x].status) && IsServed(before, after, t, x) then before.tasks[x].(status := Ready) else before.tasks[x])
  }

  lemma EvaluateEffect(db: Db, t: nat)
    ensures SatisfiesRowsOf(db, Evaluate(db, t), t)
  {
    var after := Evaluate(db, t);
    forall x: nat | x < |db.tasks|
      ensures IsServed(db, after, t, x) <==> Woken(db.deps, t, x) && HardSatisfied(after.deps, x)
      ensures Open(db.tasks[x].status) <==> !IsTerminal(db.tasks[x].status)
    {
      OpenIsNotTerminal(db.tasks[x].status);
    }
  }

  lemma CompleteEffect(db: Db, t: nat, kind: string, now: nat)
    requires t < |db.tasks|
    ensures CompletesWith(db, Complete(db, t, kind, now), t, kind, now)
  {
    var written := Dispatch(db, t, kind);
    var done := SetTask(written, t, written.tasks[t].(status := Completed, completedAt := Some(now)));
    DispatchArtefacts(db, t, kind);
    EvaluateEffect(done, t);
    forall x: nat ensures IsServed(done, Evaluate(done, t), t, x) <==> IsServed(db, Evaluate(done, t), t, x) {}
  }

  // --- handing over ---

  predicate IsUp(roster: seq<AgentRow>, agent: string) {
    exists i | 0 <= i < |roster| :: roster[i].name == agent && roster[i].enabled
  }

  /** The agent is another one, enabled, and declares the task's capability. */
  predicate CanReplace(roster: seq<AgentRow>, task: Task, i: nat) {
    i < |roster| && roster[i].enabled && task.capability in roster[i].capabilities && roster[i].name != task.agent
  }

  predicate FirstToReplace(roster: seq<AgentRow>, task: Task, i: nat) {
    CanReplace(roster, task, i) && forall k: nat | k < i :: !CanReplace(roster, task, k)
  }

  /** The task goes to the first agent in registry order that can replace its own; without one it is escalated. */
  ghost predicate HandsOver(roster: seq<AgentRow>, before: Db, after: Db, t: nat, now: nat)
    requires t < |before.tasks|
  {
    var task := before.tasks[t];
    && (forall i: nat | FirstToReplace(roster, task, i) ::
      OnlyTask(before, after, t, task.(agent := roster[i].name, status := Ready, startedAt := None)))
    && ((forall i: nat :: !CanReplace(roster, task, i)) ==> EndsWithoutResult(before, after, t, Escalated, now))
  }

  // --- the other transactions ---

  /** Every task the readiness query looks at is ready if all its hard rows are satisfied, else it waits. */
  ghost predicate Refreshes(before: Db, after: Db) {
    && SameShape(before, after) && after.deps == before.deps && after.artefacts == before.artefacts
    && forall x: nat | x < |before.tasks| ::
      after.tasks[x] ==
        if before.tasks[x].status !in {Planned, Queued, Ready, WaitingForDependency, Retrying} then before.tasks[x]
        else if exists j | 0 <= j < |before.deps| :: before.deps[j].dependent == x && before.deps[j].hard && !before.deps[j].state.Satisfied?
        then before.tasks[x].(status := WaitingForDependency)
        else before.tasks[x].(status := Ready)
  }

  lemma RefreshEffect(db: Db)
    ensures Refreshes(db, Refresh(db))
  {
  }

  /** Crash recovery puts a running task back to ready if its capability may run beside others, else fails it. */
  ghost predicate ResetsRunning(before: Db, after: Db) {
    && SameShape(before, after) && after.deps == before.deps && after.artefacts == before.artefacts
    && forall x: nat | x < |before.tasks| ::
      after.tasks[x] ==
        if before.tasks[x].status != Running then before.tasks[x]
        else if before.tasks[x].safe then before.tasks[x].(status := Ready, startedAt := None)
        else before.tasks[x].(status := Failed)
  }

  lemma ReapEffect(db: Db)
    ensures ResetsRunning(db, Reap(db))
  {
  }

  /** A cancellation cancels every task not completed or failed, and touches nothing else. */
  ghost predicate Cancels(before: Db, after: Db) {
    && SameShape(before, after) && after.deps == before.deps && after.artefacts == before.artefacts
    && forall x: nat | x < |before.tasks| ::
      after.tasks[x] ==
        if before.tasks[x].status in {Completed, Failed, Cancelled} then before.tasks[x] else before.tasks[x].(status := Cancelled)
  }

  lemma CancelEffect(db: Db)
    ensures Cancels(db, Cancel(db))
  {
  }
}
