/** Run lifecycle: the concurrency cap, the queue, settling after an approval, and crash recovery. */
module RunManager {
  import opened Vocabulary
  import opened TaskRows
  import opened EventLog
  import opened RunCompletion
  import RowEffects

  /** One run with its tables. */
  datatype Run = Run(status: RunStatus, queuePosition: Option<nat>, createdAt: nat, db: Db)

  predicate IsActive(status: RunStatus) {
    status.RunPlanning? || status.RunRunning? || status.RunWaiting? || status.RunStalled?
  }

  predicate IsTerminalRun(status: RunStatus) {
    status.RunCompleted? || status.RunFailed? || status.RunCannotPlan? || status.RunCancelled?
  }

  function ActiveCount(runs: seq<Run>): nat {
    if runs == [] then 0 else ActiveCount(runs[..|runs| - 1]) + if IsActive(runs[|runs| - 1].status) then 1 else 0
  }

  function QueuedCount(runs: seq<Run>): nat {
    if runs == [] then 0 else QueuedCount(runs[..|runs| - 1]) + if runs[|runs| - 1].status.RunQueued? then 1 else 0
  }

  lemma {:induction false} CountsAfterUpdate(runs: seq<Run>, r: nat, run: Run)
    requires r < |runs|
    ensures ActiveCount(runs[r := run]) ==
      ActiveCount(runs) - (if IsActive(runs[r].status) then 1 else 0) + if IsActive(run.status) then 1 else 0
    ensures QueuedCount(runs[r := run]) ==
      QueuedCount(runs) - (if runs[r].status.RunQueued? then 1 else 0) + if run.status.RunQueued? then 1 else 0
  {
    var m := |runs| - 1;
    if r < m {
      assert runs[r := run][..m] == runs[..m][r := run];
      CountsAfterUpdate(runs[..m], r, run);
    } else {
      assert runs[r := run][..m] == runs[..m];
    }
  }

  lemma CountsAfterAppend(runs: seq<Run>, run: Run)
    ensures ActiveCount(runs + [run]) == ActiveCount(runs) + if IsActive(run.status) then 1 else 0
    ensures QueuedCount(runs + [run]) == QueuedCount(runs) + if run.status.RunQueued? then 1 else 0
  {
    assert (runs + [run])[..|runs|] == runs;
  }

  function WithStatus(runs: seq<Run>, statuses: set<RunStatus>): set<int> {
    set i | 0 <= i < |runs| && runs[i].status in statuses
  }

  lemma WithStatusStep(runs: seq<Run>, statuses: set<RunStatus>)
    requires runs != []
    ensures var n := |runs| - 1;
      |WithStatus(runs, statuses)| == |WithStatus(runs[..n], statuses)| + if runs[n].status in statuses then 1 else 0
  {
    var n := |runs| - 1;
    assert WithStatus(runs, statuses) == WithStatus(runs[..n], statuses) + if runs[n].status in statuses then {n} else {};
  }

  /** The active runs are those planned, running, waiting or stalled. */
  lemma {:induction false} ActiveCountIsNumber(runs: seq<Run>)
    ensures ActiveCount(runs) == |set i | 0 <= i < |runs| && runs[i].status in {RunPlanning, RunRunning, RunWaiting, RunStalled}|
  {
    var statuses := {RunPlanning, RunRunning, RunWaiting, RunStalled};
    assert WithStatus(runs, statuses) == set i | 0 <= i < |runs| && runs[i].status in {RunPlanning, RunRunning, RunWaiting, RunStalled};
    ActiveCountIs(runs, statuses);
  }

  lemma {:induction false} ActiveCountIs(runs: seq<Run>, statuses: set<RunStatus>)
    requires forall s :: s in statuses <==> IsActive(s)
    ensures ActiveCount(runs) == |WithStatus(runs, statuses)|
  {
    if runs != [] {
      ActiveCountIs(runs[..|runs| - 1], statuses);
      WithStatusStep(runs, statuses);
    }
  }

  lemma {:induction false} QueuedCountIsNumber(runs: seq<Run>)
    ensures QueuedCount(runs) == |set i | 0 <= i < |runs| && runs[i].status == RunQueued|
  {
    assert WithStatus(runs, {RunQueued}) == set i | 0 <= i < |runs| && runs[i].status == RunQueued;
    QueuedCountIs(runs);
  }

  lemma {:induction false} QueuedCountIs(runs: seq<Run>)
    ensures QueuedCount(runs) == |WithStatus(runs, {RunQueued})|
  {
    if runs != [] {
      QueuedCountIs(runs[..|runs| - 1]);
      WithStatusStep(runs, {RunQueued});
    }
  }

  /** The oldest queued run, if any. */
  ghost predicate IsOldestQueued(runs: seq<Run>, oldest: Option<nat>) {
    match oldest
    case None => forall r | 0 <= r < |runs| :: !runs[r].status.RunQueued?
    case Some(o) =>
      && o < |runs| && runs[o].status.RunQueued?
      && forall r | 0 <= r < |runs| && runs[r].status.RunQueued? :: runs[o].createdAt <= runs[r].createdAt
  }

  method OldestQueued(runs: seq<Run>) returns (oldest: Option<nat>)
    ensures IsOldestQueued(runs, oldest)
  {
    oldest := None;
    for r := 0 to |runs|
      invariant IsOldestQueued(runs[..r], oldest)
    {
      assert runs[..r + 1][..r] == runs[..r];
      if runs[r].status.RunQueued? && (oldest.None? || runs[r].createdAt < runs[oldest.value].createdAt) {
        oldest := Some(r);
      }
    }
    assert runs[..|runs|] == runs;
  }

  /** A run that was queued in `before` and has been promoted in `after`. */
  predicate Promoted(before: seq<Run>, after: seq<Run>, r: nat) {
    r < |before| == |after| && before[r].status.RunQueued? && after[r].status.RunPlanning?
  }

  /** Some queued runs are promoted, oldest first; nothing else changes. */
  ghost predicate PromotedInOrder(before: seq<Run>, after: seq<Run>) {
    && |after| == |before|
    && (forall r: nat | r < |before| && !Promoted(before, after, r) :: after[r] == before[r])
    && (forall r: nat | Promoted(before, after, r) :: after[r] == before[r].(status := RunPlanning, queuePosition := None))
    && (forall p: nat, q: nat | Promoted(before, after, p) && q < |after| && after[q].status.RunQueued? ::
      before[p].createdAt <= before[q].createdAt)
  }

  /** One call on the table of runs. `Change` is any change of a run's status but the promotion of a queued
      run; the loop may make it without looking at the old status. */
  datatype Call = Create(now: nat, db: Db) | Promote | Change(r: nat, status: RunStatus)

  /** What one call does under the cap. */
  ghost predicate Follows(before: seq<Run>, call: Call, after: seq<Run>, cap: nat) {
    match call
    case Create(now, db) =>
      after == before + [if ActiveCount(before) < cap then Run(RunPlanning, None, now, db)
                         else Run(RunQueued, Some(QueuedCount(before) + 1), now, db)]
    case Promote =>
      && PromotedInOrder(before, after) && (ActiveCount(after) >= cap || QueuedCount(after) == 0)
      && (if ActiveCount(before) < cap then ActiveCount(after) <= cap else after == before)
    case Change(r, status) =>
      r < |before| && !(before[r].status.RunQueued? && IsActive(status)) && after == before[r := before[r].(status := status)]
  }

  class Runs {
    const cap: nat
    var runs: seq<Run>

    constructor (cap: nat)
      ensures this.cap == cap && runs == [] && WithinCap()
    {
      this.cap := cap;
      runs := [];
    }

    predicate WithinCap()
      reads this
    {
      ActiveCount(runs) <= cap
    }

    /** Starts a run if a slot is free, else queues it behind the runs queued now. */
    method CreateRun(now: nat, db: Db) returns (r: nat)
      modifies this
      ensures old(WithinCap()) ==> WithinCap()
      ensures r == |old(runs)| && Follows(old(runs), Create(now, db), runs, cap)
      ensures |runs| == r + 1 && runs[..r] == old(runs)
      ensures ActiveCount(runs) == ActiveCount(old(runs)) + (if ActiveCount(old(runs)) < cap then 1 else 0)
      ensures QueuedCount(runs) == QueuedCount(old(runs)) + (if ActiveCount(old(runs)) < cap then 0 else 1)
      ensures runs == old(runs) +
        [if |set i | 0 <= i < |old(runs)| && old(runs)[i].status in {RunPlanning, RunRunning, RunWaiting, RunStalled}| < cap
         then Run(RunPlanning, None, now, db)
         else Run(RunQueued, Some(|set i | 0 <= i < |old(runs)| && old(runs)[i].status == RunQueued| + 1), now, db)]
    {
      ActiveCountIsNumber(runs);
      QueuedCountIsNumber(runs);
      var atCapacity := ActiveCount(runs) >= cap;
      var position := if atCapacity then Some(QueuedCount(runs) + 1) else None;
      var run := Run(if atCapacity then RunQueued else RunPlanning, position, now, db);
      r := |runs|;
      CountsAfterAppend(runs, run);
      runs := runs + [run];
    }

    /** Fills the free slots from the queue, oldest first, until the cap is reached or the queue is empty. */
    method PromoteQueued()
      modifies this
      ensures old(WithinCap()) ==> WithinCap()
      ensures Follows(old(runs), Promote, runs, cap)
      ensures ActiveCount(runs) + QueuedCount(runs) == ActiveCount(old(runs)) + QueuedCount(old(runs))
    {
      ghost var before := runs;
      while ActiveCount(runs) < cap
        invariant PromotedInOrder(before, runs)
        invariant if ActiveCount(before) < cap then ActiveCount(runs) <= cap else runs == before
        invariant ActiveCount(runs) + QueuedCount(runs) == ActiveCount(before) + QueuedCount(before)
        decreases cap - ActiveCount(runs)
      {
        var oldest := OldestQueued(runs);
        if oldest.None? {
          NothingQueued(runs);
          return;
        }
        var promoted := runs[oldest.value].(status := RunPlanning, queuePosition := None);
        CountsAfterUpdate(runs, oldest.value, promoted);
        runs := runs[oldest.value := promoted];
      }
    }

    /** Sets the status of a run. That keeps within the cap unless it makes an inactive run active while no
        slot is free; in particular every terminal transition does. */
    method Transition(r: nat, status: RunStatus)
      requires r < |runs| && !(runs[r].status.RunQueued? && IsActive(status))
      modifies this
      ensures Follows(old(runs), Change(r, status), runs, cap)
      ensures old(WithinCap()) ==> (WithinCap() <==> IsActive(old(runs)[r].status) || !IsActive(status) || ActiveCount(old(runs)) < cap)
      ensures ActiveCount(runs) == ActiveCount(old(runs)) - (if IsActive(old(runs)[r].status) then 1 else 0) + if IsActive(status) then 1 else 0
      ensures QueuedCount(runs) == QueuedCount(old(runs)) - (if old(runs)[r].status.RunQueued? then 1 else 0) + if status.RunQueued? then 1 else 0
    {
      CountsAfterUpdate(runs, r, runs[r].(status := status));
      runs := runs[r := runs[r].(status := status)];
    }

    // --- crash recovery ---

    /** Resets the running tasks of every active run, reports which runs to re-enter, and fills the
        free slots. */
    method ReapIncompleteRuns() returns (resumable: seq<nat>)
      modifies this
      ensures old(WithinCap()) ==> WithinCap()
      ensures |runs| == |old(runs)|
      ensures forall r: nat :: r in resumable <==> r < |old(runs)| && IsActive(old(runs)[r].status)
      ensures forall r: nat | r < |runs| :: runs[r].db == if IsActive(old(runs)[r].status) then Reap(old(runs)[r].db) else old(runs)[r].db
      ensures forall r: nat | r < |runs| && old(runs)[r].status in {RunPlanning, RunRunning, RunWaiting, RunStalled} ::
        RowEffects.ResetsRunning(old(runs)[r].db, runs[r].db)
      ensures forall r: nat | r < |runs| && !old(runs)[r].status.RunQueued? :: runs[r].status == old(runs)[r].status
      ensures ActiveCount(runs) >= cap || QueuedCount(runs) == 0
    {
      resumable := [];
      ghost var before := runs;
      for r := 0 to |runs|
        invariant |runs| == |before| && ActiveCount(runs) == ActiveCount(before) && QueuedCount(runs) == QueuedCount(before)
        invariant forall x: nat :: x in resumable <==> x < r && IsActive(before[x].status)
        invariant forall x: nat | x < |runs| :: runs[x] == if x < r && IsActive(before[x].status) then before[x].(db := Reap(before[x].db)) else before[x]
        invariant forall x: nat | x < r && IsActive(before[x].status) :: RowEffects.ResetsRunning(before[x].db, Reap(before[x].db))
      {
        if IsActive(runs[r].status) {
          var db := ReapTasks(runs[r].db);
          CountsAfterUpdate(runs, r, runs[r].(db := db));
          runs := runs[r := runs[r].(db := db)];
          resumable := resumable + [r];
        }
      }
      PromoteQueued();
    }
  }

  method ReapTasks(db: Db) returns (after: Db)
    ensures after == Reap(db) && RowEffects.ResetsRunning(db, after)
  {
    var tasks := db.tasks;
    for t := 0 to |db.tasks|
      invariant |tasks| == |db.tasks|
      invariant forall x: nat | x < |tasks| :: tasks[x] == if x < t then ReapedTask(db.tasks[x]) else db.tasks[x]
    {
      if tasks[t].status.Running? {
        tasks := tasks[t := if tasks[t].safe then tasks[t].(status := Ready, startedAt := None) else tasks[t].(status := Failed)];
      }
    }
    after := db.(tasks := tasks);
    assert after.tasks == Reap(db).tasks;
    RowEffects.ReapEffect(db);
  }

  lemma {:induction false} NothingQueued(runs: seq<Run>)
    ensures QueuedCount(runs) == 0 <==> forall r | 0 <= r < |runs| :: !runs[r].status.RunQueued?
  {
    if runs != [] {
      NothingQueued(runs[..|runs| - 1]);
    }
  }

  // --- the cap ---

  /** The states a sequence of calls goes through, from the empty table. */
  ghost predicate IsHistory(states: seq<seq<Run>>, calls: seq<Call>, cap: nat) {
    && |states| == |calls| + 1 && states[0] == []
    && forall i | 0 <= i < |calls| :: Follows(states[i], calls[i], states[i + 1], cap)
  }

  /** The call makes an inactive run active although no slot is free. */
  predicate Oversteps(before: seq<Run>, call: Call, cap: nat) {
    && call.Change? && call.r < |before| && ActiveCount(before) >= cap
    && IsActive(call.status) && !IsActive(before[call.r].status)
  }

  lemma StepKeepsCapIff(before: seq<Run>, call: Call, after: seq<Run>, cap: nat)
    requires Follows(before, call, after, cap) && ActiveCount(before) <= cap
    ensures ActiveCount(after) <= cap <==> !Oversteps(before, call, cap)
  {
    match call
    case Create(_, _) => assert after[..|after| - 1] == before;
    case Change(r, status) => CountsAfterUpdate(before, r, after[r]);
    case Promote =>
  }

  lemma {:induction false} CapFromTheStart(states: seq<seq<Run>>, calls: seq<Call>, cap: nat, n: nat)
    requires IsHistory(states, calls, cap) && n <= |calls|
    ensures (forall i | 0 <= i <= n :: ActiveCount(states[i]) <= cap) <==> forall i | 0 <= i < n :: !Oversteps(states[i], calls[i], cap)
  {
    if n > 0 {
      CapFromTheStart(states, calls, cap, n - 1);
      if ActiveCount(states[n - 1]) <= cap {
        StepKeepsCapIff(states[n - 1], calls[n - 1], states[n], cap);
      }
    }
  }

  /** In any sequence of calls the cap holds throughout if and only if no call makes an inactive run active
      while no slot is free. */
  lemma CapHoldsIff(states: seq<seq<Run>>, calls: seq<Call>, cap: nat)
    requires IsHistory(states, calls, cap)
    ensures (forall i | 0 <= i < |states| :: ActiveCount(states[i]) <= cap)
      <==> forall i | 0 <= i < |calls| :: !Oversteps(states[i], calls[i], cap)
  {
    CapFromTheStart(states, calls, cap, |calls|);
  }

  // --- who starts first ---

  predicate Starts(before: seq<Run>, after: seq<Run>, r: nat) {
    r < |after| && after[r].status.RunPlanning? && (r < |before| ==> before[r].status.RunQueued?)
  }

  /** The step starts a run while an older one stays queued. */
  predicate Overtakes(before: seq<Run>, after: seq<Run>, r: nat, q: nat) {
    Starts(before, after, r) && q < |after| && after[q].status.RunQueued? && after[q].createdAt < after[r].createdAt
  }

  /** A new run overtakes a queued one exactly when it finds a free slot and a queue. */
  lemma CreateOvertakesIff(before: seq<Run>, now: nat, db: Db, after: seq<Run>, cap: nat)
    requires Follows(before, Create(now, db), after, cap)
    requires forall r | 0 <= r < |before| :: before[r].createdAt < now
    ensures (exists q: nat :: Overtakes(before, after, |before|, q)) <==> ActiveCount(before) < cap && QueuedCount(before) > 0
  {
    NothingQueued(before);
    if ActiveCount(before) < cap && QueuedCount(before) > 0 {
      var q: nat :| q < |before| && before[q].status.RunQueued?;
      assert Overtakes(before, after, |before|, q);
    }
  }

  /** No slot is free while a run is queued. */
  predicate NoIdleSlot(runs: seq<Run>, cap: nat) {
    ActiveCount(runs) >= cap || QueuedCount(runs) == 0
  }

  /** The call takes a run out of an active status, or back into the queue. */
  predicate Disturbs(before: seq<Run>, call: Call) {
    call.Change? && call.r < |before| && (call.status.RunQueued? || (IsActive(before[call.r].status) && !IsActive(call.status)))
  }

  ghost predicate PromotesPromptly(states: seq<seq<Run>>, calls: seq<Call>)
    requires |states| == |calls| + 1
  {
    forall i | 0 <= i < |calls| - 1 && Disturbs(states[i], calls[i]) :: calls[i + 1].Promote?
  }

  lemma StepKeepsNoIdleSlot(before: seq<Run>, call: Call, after: seq<Run>, cap: nat)
    requires Follows(before, call, after, cap) && (call.Promote? || NoIdleSlot(before, cap)) && !Disturbs(before, call)
    ensures NoIdleSlot(after, cap)
  {
    match call
    case Create(_, _) => assert after[..|after| - 1] == before;
    case Change(r, status) => CountsAfterUpdate(before, r, after[r]);
    case Promote =>
  }

  lemma {:induction false} NoIdleSlotInHistory(states: seq<seq<Run>>, calls: seq<Call>, cap: nat, i: nat)
    requires IsHistory(states, calls, cap) && PromotesPromptly(states, calls) && i <= |calls|
    ensures NoIdleSlot(states[i], cap) || (i > 0 && Disturbs(states[i - 1], calls[i - 1]))
  {
    if i > 0 {
      NoIdleSlotInHistory(states, calls, cap, i - 1);
      if !Disturbs(states[i - 1], calls[i - 1]) {
        StepKeepsNoIdleSlot(states[i - 1], calls[i - 1], states[i], cap);
      }
    }
  }

  /** If every end of a run is followed by a promotion, no call ever starts a run ahead of an older one. */
  lemma NobodyIsOvertaken(states: seq<seq<Run>>, calls: seq<Call>, cap: nat, i: nat, r: nat, q: nat)
    requires IsHistory(states, calls, cap) && PromotesPromptly(states, calls) && i < |calls|
    ensures !Overtakes(states[i], states[i + 1], r, q)
  {
    NoIdleSlotInHistory(states, calls, cap, i);
    assert Follows(states[i], calls[i], states[i + 1], cap);
    if calls[i].Create? {
      NothingQueued(states[i]);
    } else if calls[i].Promote? && Starts(states[i], states[i + 1], r) {
      assert Promoted(states[i], states[i + 1], r);
    }
  }

  /** Every run is created later than those that are there. */
  ghost predicate ClockAdvances(states: seq<seq<Run>>, calls: seq<Call>)
    requires |states| == |calls| + 1
  {
    forall i, x | 0 <= i < |calls| && calls[i].Create? && 0 <= x < |states[i]| :: states[i][x].createdAt < calls[i].now
  }

  predicate NeverOvertakes(before: seq<Run>, after: seq<Run>) {
    forall r, q | 0 <= r < |after| && 0 <= q < |after| :: !Overtakes(before, after, r, q)
  }

  lemma StepOvertakesIff(before: seq<Run>, call: Call, after: seq<Run>, cap: nat)
    requires Follows(before, call, after, cap)
    requires call.Create? ==> forall x | 0 <= x < |before| :: before[x].createdAt < call.now
    ensures NeverOvertakes(before, after) <==> (call.Create? ==> NoIdleSlot(before, cap))
  {
    if call.Create? {
      CreateOvertakesIff(before, call.now, call.db, after, cap);
      if q: nat :| Overtakes(before, after, |before|, q) {
        assert 0 <= |before| < |after|;
      }
    } else {
      forall r, q | 0 <= r < |after| && 0 <= q < |after| ensures !Overtakes(before, after, r, q) {
        if call.Promote? && Starts(before, after, r) {
          assert Promoted(before, after, r);
        }
      }
    }
  }

  predicate Orderly(states: seq<seq<Run>>, i: nat) {
    i + 1 < |states| && NeverOvertakes(states[i], states[i + 1])
  }

  /** A new run finds no free slot while another is queued. */
  predicate CreatedOrderly(states: seq<seq<Run>>, calls: seq<Call>, cap: nat, i: nat) {
    i < |calls| && i < |states| && (calls[i].Create? ==> NoIdleSlot(states[i], cap))
  }

  /** In any sequence of calls no run ever starts ahead of an older one if and only if no new run finds a free
      slot while another is queued. */
  lemma NobodyIsOvertakenIff(states: seq<seq<Run>>, calls: seq<Call>, cap: nat)
    requires IsHistory(states, calls, cap) && ClockAdvances(states, calls)
    ensures (forall i | 0 <= i < |calls| :: Orderly(states, i)) <==> forall i | 0 <= i < |calls| :: CreatedOrderly(states, calls, cap, i)
  {
    forall i | 0 <= i < |calls| ensures Orderly(states, i) <==> CreatedOrderly(states, calls, cap, i) {
      StepOvertakesIff(states[i], calls[i], states[i + 1], cap);
    }
  }

  // --- queue positions ---

  /** The run's position is `lag` more than its place among the queued runs. */
  predicate HasPlace(runs: seq<Run>, r: nat, lag: nat) {
    r < |runs| && HasPosition(runs, r, QueuedCount(runs[..r]) + 1 + lag)
  }

  /** The queued runs hold the positions `lag` + 1, `lag` + 2 and so on, in the order of their creation. */
  predicate Lagging(runs: seq<Run>, lag: nat) {
    forall r {:trigger HasPlace(runs, r, lag)} | 0 <= r < |runs| && runs[r].status.RunQueued? :: HasPlace(runs, r, lag)
  }

  /** The queued runs hold the positions 1 to n. */
  predicate PositionsOk(runs: seq<Run>) {
    Lagging(runs, 0)
  }

  predicate HasPosition(runs: seq<Run>, r: nat, position: nat)
    requires r < |runs|
  {
    runs[r].queuePosition == Some(position)
  }

  predicate Clocked(runs: seq<Run>) {
    forall p, q | 0 <= p < q < |runs| :: runs[p].createdAt < runs[q].createdAt
  }

  /** There is a queued run with any given number of queued runs ahead of it. */
  lemma {:induction false} QueuedWithAhead(runs: seq<Run>, ahead: nat) returns (r: nat)
    requires ahead < QueuedCount(runs)
    ensures r < |runs| && runs[r].status.RunQueued? && QueuedCount(runs[..r]) == ahead
  {
    var m := |runs| - 1;
    if ahead < QueuedCount(runs[..m]) {
      r := QueuedWithAhead(runs[..m], ahead);
      assert runs[..m][..r] == runs[..r];
    } else {
      r := m;
    }
  }

  lemma {:induction false} QueuedAhead(runs: seq<Run>, r: nat)
    requires r < |runs| && runs[r].status.RunQueued?
    ensures QueuedCount(runs[..r]) < QueuedCount(runs)
  {
    var m := |runs| - 1;
    if r < m {
      QueuedAhead(runs[..m], r);
      assert runs[..m][..r] == runs[..r];
    }
  }

  /** That is, every number from 1 to n is held, and no other. */
  lemma PositionsAreOneToN(runs: seq<Run>, position: nat)
    requires PositionsOk(runs)
    ensures (exists r: nat :: r < |runs| && runs[r].status.RunQueued? && HasPosition(runs, r, position))
      <==> 1 <= position <= QueuedCount(runs)
  {
    if 1 <= position <= QueuedCount(runs) {
      var r := QueuedWithAhead(runs, position - 1);
      assert HasPlace(runs, r, 0);
    } else if r: nat :| r < |runs| && runs[r].status.RunQueued? && HasPosition(runs, r, position) {
      assert HasPlace(runs, r, 0);
      QueuedAhead(runs, r);
    }
  }

  lemma CreateKeepsPositions(before: seq<Run>, now: nat, db: Db, after: seq<Run>, cap: nat)
    requires Follows(before, Create(now, db), after, cap) && PositionsOk(before)
    ensures PositionsOk(after)
  {
    forall r | 0 <= r < |after| && after[r].status.RunQueued? ensures HasPlace(after, r, 0) {
      assert after[..r] == before[..r];
      if r < |before| {
        assert HasPlace(before, r, 0);
      } else {
        assert before[..|before|] == before;
      }
    }
  }

  /** How many runs the promotion took out of the queue. */
  function Taken(before: seq<Run>, after: seq<Run>): int {
    QueuedCount(before) - QueuedCount(after)
  }

  lemma {:induction false} CountsPastPromotions(before: seq<Run>, after: seq<Run>, q: nat, n: nat)
    requires |before| == |after| && q <= n <= |before| && forall x | q <= x < n :: after[x] == before[x]
    ensures Taken(before[..n], after[..n]) == Taken(before[..q], after[..q])
  {
    if q < n {
      CountsPastPromotions(before, after, q, n - 1);
      assert before[..n][..n - 1] == before[..n - 1] && after[..n][..n - 1] == after[..n - 1];
    }
  }

  lemma {:induction false} PromotionTakes(before: seq<Run>, after: seq<Run>)
    requires |before| == |after|
    requires forall x: nat | x < |after| && after[x].status.RunQueued? :: before[x].status.RunQueued?
    ensures Taken(before, after) >= 0
  {
    if before != [] {
      PromotionTakes(before[..|before| - 1], after[..|after| - 1]);
    }
  }

  lemma WaitingRunLags(before: seq<Run>, after: seq<Run>, cap: nat, q: nat)
    requires Follows(before, Promote, after, cap) && PositionsOk(before) && Clocked(before)
    requires q < |after| && after[q].status.RunQueued? && Taken(before, after) >= 0
    ensures HasPlace(after, q, Taken(before, after))
  {
    assert !Promoted(before, after, q);
    forall x | q <= x < |before| ensures after[x] == before[x] {
      assert !Promoted(before, after, x);
    }
    CountsPastPromotions(before, after, q, |before|);
    assert before[..|before|] == before && after[..|after|] == after;
    assert HasPlace(before, q, 0);
  }

  /** After a promotion every waiting run is as many places too far back as runs were promoted. */
  lemma PositionsLag(before: seq<Run>, after: seq<Run>, cap: nat)
    requires Follows(before, Promote, after, cap) && PositionsOk(before) && Clocked(before)
    ensures Taken(before, after) >= 0 && Lagging(after, Taken(before, after))
  {
    PromotionTakes(before, after);
    forall q | 0 <= q < |after| && after[q].status.RunQueued? ensures HasPlace(after, q, Taken(before, after)) {
      WaitingRunLags(before, after, cap, q);
    }
  }

  lemma LagIsZeroIff(runs: seq<Run>, lag: nat)
    requires Lagging(runs, lag)
    ensures PositionsOk(runs) <==> lag == 0 || QueuedCount(runs) == 0
  {
    if lag == 0 {
    } else if QueuedCount(runs) == 0 {
      NothingQueued(runs);
    } else {
      FirstInLineLags(runs, lag);
    }
  }

  lemma FirstInLineLags(runs: seq<Run>, lag: nat)
    requires Lagging(runs, lag) && lag > 0 && QueuedCount(runs) > 0
    ensures !PositionsOk(runs)
  {
    var q := QueuedWithAhead(runs, 0);
    assert HasPlace(runs, q, lag) && !HasPlace(runs, q, 0);
  }

  lemma NextPositionTakenIff(runs: seq<Run>, lag: nat)
    requires Lagging(runs, lag)
    ensures NextPositionTaken(runs) <==> 0 < lag <= QueuedCount(runs)
  {
    if 0 < lag <= QueuedCount(runs) {
      var q := QueuedWithAhead(runs, QueuedCount(runs) - lag);
      assert HasPlace(runs, q, lag);
    } else if NextPositionTaken(runs) {
      var q: nat :| q < |runs| && runs[q].status.RunQueued? && HasPosition(runs, q, QueuedCount(runs) + 1);
      assert HasPlace(runs, q, lag);
      QueuedAhead(runs, q);
    }
  }

  /** A queued run holds the position that the next run to be queued will get. */
  predicate NextPositionTaken(runs: seq<Run>) {
    exists q: nat :: q < |runs| && runs[q].status.RunQueued? && HasPosition(runs, q, QueuedCount(runs) + 1)
  }

  /** A promotion keeps the positions exactly when it promotes nobody or empties the queue. */
  lemma PromoteKeepsPositionsIff(before: seq<Run>, after: seq<Run>, cap: nat)
    requires Follows(before, Promote, after, cap) && PositionsOk(before) && Clocked(before)
    ensures PositionsOk(after) <==> QueuedCount(after) == QueuedCount(before) || QueuedCount(after) == 0
  {
    PositionsLag(before, after, cap);
    LagIsZeroIff(after, Taken(before, after));
  }

  /** The next run queued shares its position with a waiting one exactly when the promotion took
      somebody, and no more than it left. */
  lemma PositionsCollideIff(before: seq<Run>, after: seq<Run>, cap: nat)
    requires Follows(before, Promote, after, cap) && PositionsOk(before) && Clocked(before)
    ensures NextPositionTaken(after) <==> 0 < Taken(before, after) <= QueuedCount(after)
  {
    PositionsLag(before, after, cap);
    NextPositionTakenIff(after, Taken(before, after));
  }

  /** Taking a run out of the queue otherwise keeps the positions exactly when nobody is queued behind it. */
  lemma LeavingKeepsPositionsIff(before: seq<Run>, r: nat, status: RunStatus, after: seq<Run>, cap: nat)
    requires Follows(before, Change(r, status), after, cap) && PositionsOk(before)
    requires before[r].status.RunQueued? && !status.RunQueued?
    ensures PositionsOk(after) <==> forall q | r < q < |before| :: !before[q].status.RunQueued?
  {
    forall q: nat | q < |before| && q != r && before[q].status.RunQueued?
      ensures HasPlace(after, q, 0) <==> q < r
    {
      assert HasPlace(before, q, 0);
      if r < q {
        assert after[..q] == before[..q][r := after[r]];
        CountsAfterUpdate(before[..q], r, after[r]);
      } else {
        assert after[..q] == before[..q];
      }
    }
    if q :| r < q < |before| && before[q].status.RunQueued? {
      assert !HasPlace(after, q, 0);
    }
  }

  // --- where the queue is not one ---

  /** A cap of one, with one run active and another queued behind it. */
  method OneQueued(db: Db) returns (store: Runs)
    ensures fresh(store) && store.cap == 1 && |store.runs| == 2
    ensures QueuedCount(store.runs) == 1 && ActiveCount(store.runs) == 1
    ensures store.runs[0].status.RunPlanning? && store.runs[1].status.RunQueued? && store.runs[1].createdAt == 1
  {
    store := new Runs(1);
    var a := store.CreateRun(0, db);
    ghost var first := store.runs[0];
    var b := store.CreateRun(1, db);
    assert store.runs[..1][0] == first;
  }

  method TwoQueued(db: Db) returns (store: Runs)
    ensures fresh(store) && store.cap == 1 && |store.runs| == 3
    ensures QueuedCount(store.runs) == 2 && ActiveCount(store.runs) == 1
    ensures store.runs[0].status.RunPlanning? && store.runs[1].status.RunQueued? && store.runs[2].status.RunQueued?
    ensures store.runs[1].createdAt == 1 && store.runs[2].createdAt == 2 && store.runs[2].queuePosition == Some(2)
  {
    store := OneQueued(db);
    ghost var first, second := store.runs[0], store.runs[1];
    var c := store.CreateRun(2, db);
    assert store.runs[..2][0] == first && store.runs[..2][1] == second;
  }

  /** The cap is exceeded when a run is cancelled, its slot taken by another, and its loop, which does not
      look at the status, sets it to running or waiting. */
  method CancelledRunExceedsCap(db: Db, status: RunStatus) returns (store: Runs)
    requires status.RunRunning? || status.RunWaiting?
    ensures fresh(store) && !store.WithinCap()
  {
    store := new Runs(1);
    var a := store.CreateRun(0, db);
    store.Transition(a, RunCancelled);
    ghost var cancelled := store.runs[a];
    var b := store.CreateRun(1, db);
    assert store.runs[..1][a] == cancelled;
    store.Transition(a, status);
  }

  /** A new run overtakes a queued one when it arrives between the end of a run and the next promotion. */
  method NewRunOvertakesQueue(db: Db) returns (store: Runs)
    ensures fresh(store) && |store.runs| == 3
    ensures store.runs[1].status.RunQueued? && store.runs[2].status.RunPlanning?
    ensures store.runs[1].createdAt < store.runs[2].createdAt
  {
    store := OneQueued(db);
    ghost var queued := store.runs[1];
    store.Transition(0, RunCompleted);
    var c := store.CreateRun(2, db);
    assert store.runs[..2][1] == queued;
  }

  /** Queue positions are handed out twice: after a promotion the next run queued gets the position a
      waiting run still has. */
  method QueuePositionsCollide(db: Db) returns (store: Runs)
    ensures fresh(store) && |store.runs| == 4
    ensures store.runs[2].status.RunQueued? && store.runs[3].status.RunQueued?
    ensures store.runs[2].queuePosition == Some(2) && store.runs[3].queuePosition == Some(2)
  {
    store := TwoQueued(db);
    store.Transition(0, RunCompleted);
    ghost var before := store.runs;
    store.PromoteQueued();
    OnePromoted(before, store.runs);
    ghost var waiting := store.runs[2];
    var d := store.CreateRun(3, db);
    assert store.runs[..3][2] == waiting;
  }

  lemma OnePromoted(before: seq<Run>, after: seq<Run>)
    requires |before| == 3 && PromotedInOrder(before, after) && QueuedCount(after) == 1
    requires !before[0].status.RunQueued? && before[1].status.RunQueued? && before[2].status.RunQueued?
    requires before[1].createdAt < before[2].createdAt && QueuedCount(before) == 2
    ensures after[2] == before[2]
  {
    NothingQueued(after);
    assert !Promoted(before, after, 0);
    var q :| 0 <= q < 3 && after[q].status.RunQueued?;
    assert !Promoted(before, after, 2);
  }
}
