/** Completion is atomic: artefacts, consumption marks and received inputs match the completed tasks
    exactly, after every transaction. */
module ArtefactInvariant {
  import opened Vocabulary
  import opened TaskRows
  import opened EngineInvariant

  predicate IsCompleted(db: Db, t: nat) {
    t < |db.tasks| && db.tasks[t].status.Completed?
  }

  predicate NoRepeats(s: seq<nat>) {
    forall i, j | 0 <= i < j < |s| :: s[i] != s[j]
  }

  /** One artefact, of version one, per completed task and none besides; an artefact is consumed by
      exactly the completed dependents of its owner, and is `consumed` as soon as there is one; a
      completed task received exactly its prerequisites' artefacts. */
  ghost predicate ArtefactsExact(db: Db) {
    && OwnersExact(db)
    && (forall a | 0 <= a < |db.artefacts| :: MarksExact(db, db.artefacts[a]))
    && ReceiptsExact(db)
  }

  ghost predicate OwnersExact(db: Db) {
    && (forall t | 0 <= t < |db.tasks| && IsCompleted(db, t) ::
      db.tasks[t].result.Some? && db.tasks[t].result.value < |db.artefacts| && db.artefacts[db.tasks[t].result.value].task == t)
    && (forall a | 0 <= a < |db.artefacts| ::
      IsCompleted(db, db.artefacts[a].task) && db.tasks[db.artefacts[a].task].result == Some(a))
  }

  ghost predicate ReceiptsExact(db: Db) {
    forall t | 0 <= t < |db.tasks| && IsCompleted(db, t) :: ReceiptExact(db, t)
  }

  ghost predicate ReceiptExact(db: Db, t: nat)
    requires t < |db.tasks|
  {
    forall a: nat :: a in db.tasks[t].received <==> a < |db.artefacts| && DependsOn(db.deps, t, db.artefacts[a].task)
  }

  ghost predicate MarksExact(db: Db, artefact: Artefact) {
    && artefact.version == 1
    && NoRepeats(artefact.consumedBy)
    && (forall x: nat :: x in artefact.consumedBy <==> IsCompleted(db, x) && DependsOn(db.deps, x, artefact.task))
    && artefact.disposition == (if artefact.consumedBy == [] then Informational else Consumed)
  }

  // --- transactions that complete nothing ---

  /** No task is completed or reopened, and nothing an artefact depends on is touched. */
  ghost predicate SameCompletions(db: Db, after: Db) {
    && |after.tasks| == |db.tasks| && |after.deps| == |db.deps| && after.artefacts == db.artefacts
    && (forall j | 0 <= j < |db.deps| ::
      after.deps[j].dependent == db.deps[j].dependent && after.deps[j].prerequisite == db.deps[j].prerequisite)
    && (forall t | 0 <= t < |db.tasks| :: IsCompleted(after, t) <==> IsCompleted(db, t))
    && (forall t | 0 <= t < |db.tasks| && IsCompleted(db, t) ::
      after.tasks[t].result == db.tasks[t].result && after.tasks[t].received == db.tasks[t].received)
  }

  lemma SameEdges(deps: seq<Dependency>, after: seq<Dependency>, x: nat, t: nat)
    requires |after| == |deps|
    requires forall j | 0 <= j < |deps| :: after[j].dependent == deps[j].dependent && after[j].prerequisite == deps[j].prerequisite
    ensures DependsOn(after, x, t) <==> DependsOn(deps, x, t)
  {
  }

  lemma SameCompletionsKeepArtefacts(db: Db, after: Db)
    requires ArtefactsExact(db) && SameCompletions(db, after)
    ensures ArtefactsExact(after)
  {
  }

  lemma EndCompletesNothing(db: Db, t: nat, status: TaskStatus, now: nat)
    requires t < |db.tasks| && !IsCompleted(db, t) && status in {Failed, Blocked, Escalated}
    ensures SameCompletions(db, End(db, t, status, now))
  {
  }

  lemma RefreshAndReapCompleteNothing(db: Db)
    ensures SameCompletions(db, Refresh(db)) && SameCompletions(db, Reap(db)) && SameCompletions(db, Cancel(db))
  {
  }

  lemma ClaimAndTimeOutCompleteNothing(db: Db, t: nat, now: nat)
    requires t < |db.tasks|
    ensures SameCompletions(db, Claim(db, t, now)) && SameCompletions(db, TimeOut(db, t, now))
  {
  }

  lemma ErrorsCompleteNothing(db: Db, live: multiset<nat>, t: nat, candidates: seq<string>, now: nat)
    requires Consistent(db, live) && t in live
    ensures SameCompletions(db, DataStale(db, t, now))
    ensures SameCompletions(db, AgentUnavailable(db, t, candidates, now))
    ensures SameCompletions(db, TaskFailure(db, t, now))
  {
    EndCompletesNothing(db, t, Blocked, now);
    EndCompletesNothing(db, t, Escalated, now);
    EndCompletesNothing(db, t, Failed, now);
  }

  // --- completion ---

  lemma RunningOwnsNothing(db: Db, live: multiset<nat>, t: nat, kind: string)
    requires Consistent(db, live) && ArtefactsExact(db) && t < |db.tasks| && db.tasks[t].status.Running?
    ensures forall a | 0 <= a < |db.artefacts| :: db.artefacts[a].task != t
    ensures forall x | 0 <= x < |db.tasks| && (IsCompleted(db, x) || x == t) :: !DependsOn(db.deps, x, t)
    ensures LatestVersion(MarkConsumed(db, t), t, kind) == 0
  {
  }

  lemma ConsumedMarksExact(db: Db, after: Db, t: nat, artefact: Artefact)
    requires MarksExact(db, artefact) && !IsCompleted(db, t)
    requires forall x: nat :: IsCompleted(after, x) <==> IsCompleted(db, x) || x == t
    requires forall x: nat, y: nat :: DependsOn(after.deps, x, y) <==> DependsOn(db.deps, x, y)
    ensures MarksExact(after, if DependsOn(db.deps, t, artefact.task) then ConsumedBy(artefact, t) else artefact)
  {
  }

  /** What completion leaves in the tables, field by field. */
  lemma CompleteRows(db: Db, t: nat, kind: string, now: nat)
    requires t < |db.tasks|
    ensures var after := Complete(db, t, kind, now);
      && |after.tasks| == |db.tasks| && |after.deps| == |db.deps| && |after.artefacts| == |db.artefacts| + 1
      && (forall j | 0 <= j < |db.deps| ::
        after.deps[j].dependent == db.deps[j].dependent && after.deps[j].prerequisite == db.deps[j].prerequisite)
      && (forall x: nat :: IsCompleted(after, x) <==> IsCompleted(db, x) || x == t)
      && (forall x | 0 <= x < |db.tasks| && x != t ::
        after.tasks[x].result == db.tasks[x].result && after.tasks[x].received == db.tasks[x].received)
      && after.tasks[t].result == Some(|db.artefacts|)
      && after.tasks[t].received == Upstream(db, t, |db.artefacts|)
      && (forall a | 0 <= a < |db.artefacts| ::
        after.artefacts[a] == if DependsOn(db.deps, t, db.artefacts[a].task) then ConsumedBy(db.artefacts[a], t) else db.artefacts[a])
      && after.artefacts[|db.artefacts|] == Artefact(t, kind, LatestVersion(MarkConsumed(db, t), t, kind) + 1, [], Informational)
  {
  }

  lemma CompleteKeepsMarks(db: Db, live: multiset<nat>, t: nat, kind: string, now: nat)
    requires Consistent(db, live) && ArtefactsExact(db) && t < |db.tasks| && db.tasks[t].status.Running?
    ensures forall a | 0 <= a < |Complete(db, t, kind, now).artefacts| ::
      MarksExact(Complete(db, t, kind, now), Complete(db, t, kind, now).artefacts[a])
  {
    var after := Complete(db, t, kind, now);
    CompleteRows(db, t, kind, now);
    RunningOwnsNothing(db, live, t, kind);
    forall x: nat, y: nat ensures DependsOn(after.deps, x, y) <==> DependsOn(db.deps, x, y) {
      SameEdges(db.deps, after.deps, x, y);
    }
    forall a | 0 <= a < |after.artefacts| ensures MarksExact(after, after.artefacts[a]) {
      if a < |db.artefacts| {
        ConsumedMarksExact(db, after, t, db.artefacts[a]);
      }
    }
  }

  lemma CompleteKeepsReceipt(db: Db, after: Db, t: nat, x: nat)
    requires t < |db.tasks| && x < |db.tasks| == |after.tasks| && |after.deps| == |db.deps|
    requires forall j | 0 <= j < |db.deps| ::
      after.deps[j].dependent == db.deps[j].dependent && after.deps[j].prerequisite == db.deps[j].prerequisite
    requires |after.artefacts| == |db.artefacts| + 1 && after.artefacts[|db.artefacts|].task == t
    requires forall a | 0 <= a < |db.artefacts| :: after.artefacts[a].task == db.artefacts[a].task
    requires !DependsOn(db.deps, x, t)
    requires after.tasks[x].received == (if x == t then Upstream(db, t, |db.artefacts|) else db.tasks[x].received)
    requires x != t ==> ReceiptExact(db, x)
    ensures ReceiptExact(after, x)
  {
  }

  lemma CompleteKeepsReceipts(db: Db, live: multiset<nat>, t: nat, kind: string, now: nat)
    requires Consistent(db, live) && ArtefactsExact(db) && t < |db.tasks| && db.tasks[t].status.Running?
    ensures ReceiptsExact(Complete(db, t, kind, now))
  {
    var after := Complete(db, t, kind, now);
    CompleteRows(db, t, kind, now);
    RunningOwnsNothing(db, live, t, kind);
    forall x | 0 <= x < |after.tasks| && IsCompleted(after, x) ensures ReceiptExact(after, x) {
      CompleteKeepsReceipt(db, after, t, x);
    }
  }

  lemma NewOwner(db: Db, after: Db, t: nat)
    requires OwnersExact(db) && t < |db.tasks| == |after.tasks| && !IsCompleted(db, t)
    requires forall x: nat :: IsCompleted(after, x) <==> IsCompleted(db, x) || x == t
    requires forall x | 0 <= x < |db.tasks| && x != t :: after.tasks[x].result == db.tasks[x].result
    requires after.tasks[t].result == Some(|db.artefacts|)
    requires |after.artefacts| == |db.artefacts| + 1 && after.artefacts[|db.artefacts|].task == t
    requires forall a | 0 <= a < |db.artefacts| :: after.artefacts[a].task == db.artefacts[a].task
    ensures OwnersExact(after)
  {
  }

  lemma CompleteKeepsOwners(db: Db, live: multiset<nat>, t: nat, kind: string, now: nat)
    requires Consistent(db, live) && ArtefactsExact(db) && t < |db.tasks| && db.tasks[t].status.Running?
    ensures OwnersExact(Complete(db, t, kind, now))
  {
    CompleteRows(db, t, kind, now);
    NewOwner(db, Complete(db, t, kind, now), t);
  }

  lemma CompleteKeepsArtefacts(db: Db, live: multiset<nat>, t: nat, kind: string, now: nat)
    requires Consistent(db, live) && ArtefactsExact(db) && t < |db.tasks| && db.tasks[t].status.Running?
    ensures ArtefactsExact(Complete(db, t, kind, now))
  {
    CompleteKeepsOwners(db, live, t, kind, now);
    CompleteKeepsMarks(db, live, t, kind, now);
    CompleteKeepsReceipts(db, live, t, kind, now);
  }

  /** A result that arrives after a timeout changes nothing; one in time completes the task atomically. */
  lemma SucceedKeepsArtefacts(db: Db, live: multiset<nat>, t: nat, kind: string, now: nat)
    requires Consistent(db, live) && ArtefactsExact(db) && t in live
    ensures ArtefactsExact(Succeed(db, t, kind, now))
    ensures !db.tasks[t].status.Running? ==> Succeed(db, t, kind, now) == db
    ensures db.tasks[t].status.Running? ==>
      |Succeed(db, t, kind, now).artefacts| == |db.artefacts| + 1 && IsCompleted(Succeed(db, t, kind, now), t)
  {
    if db.tasks[t].status.Running? {
      CompleteKeepsArtefacts(db, live, t, kind, now);
      CompleteRows(db, t, kind, now);
    }
  }
}

/** The derived hand-off view. */
module Handoffs {
  import opened Vocabulary
  import opened TaskRows
  import opened EngineInvariant
  import opened ArtefactInvariant

  datatype Handoff = Handoff(fromTask: nat, toTask: nat, artefact: nat)

  /** The rows the view lists for the first `n` artefacts, in order. */
  function HandoffsOf(artefacts: seq<Artefact>, n: nat): seq<Handoff>
    requires n <= |artefacts|
  {
    if n == 0 then []
    else HandoffsOf(artefacts, n - 1) + Deliveries(artefacts[n - 1], n - 1, |artefacts[n - 1].consumedBy|)
  }

  function Deliveries(artefact: Artefact, a: nat, n: nat): seq<Handoff>
    requires n <= |artefact.consumedBy|
  {
    seq(n, i requires 0 <= i < n => Handoff(artefact.task, artefact.consumedBy[i], a))
  }

  method ListHandoffs(db: Db) returns (handoffs: seq<Handoff>)
    ensures handoffs == HandoffsOf(db.artefacts, |db.artefacts|)
  {
    handoffs := [];
    for a := 0 to |db.artefacts|
      invariant handoffs == HandoffsOf(db.artefacts, a)
    {
      var artefact := db.artefacts[a];
      for i := 0 to |artefact.consumedBy|
        invariant handoffs == HandoffsOf(db.artefacts, a) + Deliveries(artefact, a, i)
      {
        handoffs := handoffs + [Handoff(artefact.task, artefact.consumedBy[i], a)];
      }
    }
  }

  lemma DeliveriesExact(db: Db, a: nat)
    requires ArtefactsExact(db) && a < |db.artefacts|
    ensures var last := Deliveries(db.artefacts[a], a, |db.artefacts[a].consumedBy|);
      && (forall h | h in last :: h.artefact == a && h.fromTask == db.artefacts[a].task)
      && (forall x: nat :: Handoff(db.artefacts[a].task, x, a) in last <==> IsCompleted(db, x) && DependsOn(db.deps, x, db.artefacts[a].task))
      && (forall i, j | 0 <= i < j < |last| :: last[i] != last[j])
  {
    var artefact := db.artefacts[a];
    assert MarksExact(db, artefact);
    var last := Deliveries(artefact, a, |artefact.consumedBy|);
    forall x: nat ensures Handoff(artefact.task, x, a) in last <==> x in artefact.consumedBy {
      if x in artefact.consumedBy {
        var i :| 0 <= i < |artefact.consumedBy| && artefact.consumedBy[i] == x;
        assert last[i] == Handoff(artefact.task, x, a);
      }
    }
  }

  /** `h` is a dependency of a completed task, delivered as artefact `h.artefact`. */
  ghost predicate Delivered(db: Db, h: Handoff) {
    && h.artefact < |db.artefacts| && h.fromTask == db.artefacts[h.artefact].task
    && IsCompleted(db, h.toTask) && DependsOn(db.deps, h.toTask, h.fromTask)
  }

  lemma {:induction false} HandoffsUpTo(db: Db, n: nat)
    requires ArtefactsExact(db) && n <= |db.artefacts|
    ensures forall h :: h in HandoffsOf(db.artefacts, n) <==> h.artefact < n && Delivered(db, h)
    ensures forall i, j | 0 <= i < j < |HandoffsOf(db.artefacts, n)| :: HandoffsOf(db.artefacts, n)[i] != HandoffsOf(db.artefacts, n)[j]
  {
    if n > 0 {
      HandoffsUpTo(db, n - 1);
      DeliveriesExact(db, n - 1);
      var rest, last := HandoffsOf(db.artefacts, n - 1), Deliveries(db.artefacts[n - 1], n - 1, |db.artefacts[n - 1].consumedBy|);
      forall h ensures h in last <==> h.artefact == n - 1 && Delivered(db, h) {
        if h.artefact == n - 1 && Delivered(db, h) {
          assert h == Handoff(db.artefacts[n - 1].task, h.toTask, n - 1);
        }
        if h in last {
          assert h == Handoff(db.artefacts[n - 1].task, h.toTask, n - 1);
        }
      }
      assert forall i | 0 <= i < |rest| :: rest[i] in rest;
      assert forall i | 0 <= i < |last| :: last[i] in last;
    }
  }

  /** Every reported hand-off is a declared dependency of a completed task on a completed task, every
      such dependency is reported, and none twice. */
  lemma HandoffsAreTheCompletedDependencies(db: Db, live: multiset<nat>)
    requires Consistent(db, live) && ArtefactsExact(db)
    ensures var handoffs := HandoffsOf(db.artefacts, |db.artefacts|);
      && (forall f: nat, x: nat :: (exists a: nat :: Handoff(f, x, a) in handoffs)
            <==> IsCompleted(db, x) && IsCompleted(db, f) && DependsOn(db.deps, x, f))
      && (forall f: nat, x: nat :: IsCompleted(db, x) && DependsOn(db.deps, x, f) ==> IsCompleted(db, f))
      && (forall i, j | 0 <= i < j < |handoffs| :: handoffs[i].fromTask != handoffs[j].fromTask || handoffs[i].toTask != handoffs[j].toTask)
  {
    var handoffs := HandoffsOf(db.artefacts, |db.artefacts|);
    HandoffsUpTo(db, |db.artefacts|);
    forall f: nat, x: nat | IsCompleted(db, x) && DependsOn(db.deps, x, f)
      ensures IsCompleted(db, f) && Handoff(f, x, db.tasks[f].result.value) in handoffs
    {
      assert HardSatisfied(db.deps, x);
      assert Delivered(db, Handoff(f, x, db.tasks[f].result.value));
    }
    forall h | h in handoffs ensures IsCompleted(db, h.fromTask) && db.tasks[h.fromTask].result == Some(h.artefact) {
      assert Delivered(db, h);
    }
    assert forall i | 0 <= i < |handoffs| :: handoffs[i] in handoffs;
  }
}
