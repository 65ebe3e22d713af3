/** Which tasks the scheduler loop has at work, from the record of what it starts and sees end. */
module Crew {
  import opened TaskRows

  datatype Move = Starts(task: nat) | Ends(task: nat)

  /** The tasks that have started and not ended. */
  function AtWork(moves: seq<Move>): set<nat> {
    if moves == [] then {}
    else
      var rest := AtWork(moves[..|moves| - 1]);
      match moves[|moves| - 1]
      case Starts(t) => rest + {t}
      case Ends(t) => rest - {t}
  }

  /** At most `poolSize` tasks are at work, and one that must not run beside others is alone. */
  predicate CrewOk(tasks: seq<Task>, poolSize: nat, crew: set<nat>) {
    |crew| <= poolSize && forall t | t in crew && t < |tasks| && !tasks[t].safe :: crew == {t}
  }

  /** The crew was in order at every moment. */
  ghost predicate Orderly(tasks: seq<Task>, poolSize: nat, moves: seq<Move>) {
    forall n | 0 <= n <= |moves| :: CrewOk(tasks, poolSize, AtWork(moves[..n]))
  }

  lemma MoveIsOrderly(tasks: seq<Task>, poolSize: nat, moves: seq<Move>, move: Move)
    requires Orderly(tasks, poolSize, moves) && CrewOk(tasks, poolSize, AtWork(moves + [move]))
    ensures Orderly(tasks, poolSize, moves + [move])
  {
    forall n | 0 <= n <= |moves| + 1 ensures CrewOk(tasks, poolSize, AtWork((moves + [move])[..n])) {
      if n <= |moves| {
        assert (moves + [move])[..n] == moves[..n];
      } else {
        assert (moves + [move])[..n] == moves + [move];
      }
    }
  }

  lemma AtWorkAfter(moves: seq<Move>, move: Move)
    ensures AtWork(moves + [move]) == if move.Starts? then AtWork(moves) + {move.task} else AtWork(moves) - {move.task}
  {
    assert (moves + [move])[..|moves|] == moves;
  }

  /** The record agrees with who is at work and with how often each task has been claimed. */
  ghost predicate Recorded(tasks: seq<Task>, poolSize: nat, moves: seq<Move>, active: set<nat>, claims: seq<nat>) {
    && Orderly(tasks, poolSize, moves) && AtWork(moves) == active
    && forall t: nat | t < |claims| :: multiset(moves)[Starts(t)] == claims[t]
  }

  /** The task may start now: there is room, and either it and those at work may run beside others or nobody is. */
  predicate HasRoom(tasks: seq<Task>, poolSize: nat, active: set<nat>, t: nat) {
    && t < |tasks| && |active| < poolSize
    && (active == {} || (tasks[t].safe && forall x | x in active :: x < |tasks| && tasks[x].safe))
  }

  lemma StartIsRecorded(tasks: seq<Task>, poolSize: nat, moves: seq<Move>, active: set<nat>, claims: seq<nat>, t: nat)
    requires Recorded(tasks, poolSize, moves, active, claims) && t < |claims| && HasRoom(tasks, poolSize, active, t)
    ensures Recorded(tasks, poolSize, moves + [Starts(t)], active + {t}, claims[t := claims[t] + 1])
  {
    AtWorkAfter(moves, Starts(t));
    MoveIsOrderly(tasks, poolSize, moves, Starts(t));
  }

  lemma EndIsRecorded(tasks: seq<Task>, poolSize: nat, moves: seq<Move>, active: set<nat>, claims: seq<nat>, t: nat)
    requires Recorded(tasks, poolSize, moves, active, claims) && t in active
    ensures Recorded(tasks, poolSize, moves + [Ends(t)], active - {t}, claims)
  {
    AtWorkAfter(moves, Ends(t));
    assert |active - {t}| == |active| - 1;
    assert CrewOk(tasks, poolSize, AtWork(moves)) by { assert moves[..|moves|] == moves; }
    MoveIsOrderly(tasks, poolSize, moves, Ends(t));
  }

  /** The record goes on with moves of tasks that may run beside others, or of tasks that may not. */
  ghost predicate GoesOn(tasks: seq<Task>, moves: seq<Move>, longer: seq<Move>, safe: bool) {
    && |moves| <= |longer| && longer[..|moves|] == moves
    && forall i | |moves| <= i < |longer| :: longer[i].task < |tasks| && tasks[longer[i].task].safe == safe
  }

  lemma GoesOnByOne(tasks: seq<Task>, moves: seq<Move>, longer: seq<Move>, safe: bool, move: Move)
    requires GoesOn(tasks, moves, longer, safe) && move.task < |tasks| && tasks[move.task].safe == safe
    ensures GoesOn(tasks, moves, longer + [move], safe)
  {
  }

  /** Tasks that may run beside others first, and then the others. */
  ghost predicate SafeFirst(tasks: seq<Task>, moves: seq<Move>, longer: seq<Move>) {
    exists pooled :: GoesOn(tasks, moves, pooled, true) && GoesOn(tasks, pooled, longer, false)
  }
}

/** The scheduler loop of one run: waves of ready tasks, the concurrency-safe ones interleaved in a
    bounded pool and the others one at a time, until nothing is ready. */
module SchedulerLoop {
  import opened Vocabulary
  import opened Registry
  import opened TaskRows
  import opened EventLog
  import opened EngineStore
  import opened EngineInvariant
  import opened ArtefactInvariant
  import DependencyResolver
  import opened AgentInvoker
  import TaskEngine
  import opened RunCompletion
  import opened SchedulerInvariant
  import opened SchedulerProgress
  import opened TaskLevels
  import opened Crew

  // --- one wave ---

  function Queue(tasks: seq<nat>, k: nat): set<nat> {
    set i | k <= i < |tasks| :: tasks[i]
  }

  predicate Distinct(tasks: seq<nat>) {
    forall i, j | 0 <= i < j < |tasks| :: tasks[i] != tasks[j]
  }

  lemma QueueStep(tasks: seq<nat>, k: nat)
    requires Distinct(tasks) && k < |tasks|
    ensures tasks[k] in Queue(tasks, k) && tasks[k] !in Queue(tasks, k + 1)
    ensures Queue(tasks, k + 1) == Queue(tasks, k) - {tasks[k]}
  {
  }

  /** Those queued for the pool and those at work in it may run beside others. */
  predicate AllMayPool(tasks: seq<Task>, queue: seq<nat>, active: set<nat>) {
    && (forall i | 0 <= i < |queue| :: queue[i] < |tasks| && tasks[queue[i]].safe)
    && (forall t | t in active :: t < |tasks| && tasks[t].safe)
  }

  lemma PendingIsNotActive(roster: seq<AgentRow>, script: Script, first: Db, before: Db, db: Db, claimsBefore: seq<nat>, claims: seq<nat>,
                           pending: set<nat>, active: set<nat>, t: nat)
    requires InWave(roster, script, first, before, db, claimsBefore, claims, pending, active) && t in pending
    ensures t !in active && |active + {t}| == |active| + 1
  {
  }

  lemma QueueSplits(queue: seq<nat>, k: nat, rest: set<nat>)
    requires Distinct(queue) && k < |queue| && Queue(queue, k) !! rest
    ensures queue[k] in queue && queue[k] in Queue(queue, k) + rest
    ensures Queue(queue, k + 1) !! rest && Queue(queue, k) + rest - {queue[k]} == Queue(queue, k + 1) + rest
  {
    QueueStep(queue, k);
  }

  lemma JoinsPool(tasks: seq<Task>, poolSize: nat, queue: seq<nat>, active: set<nat>, t: nat)
    requires AllMayPool(tasks, queue, active) && |active| < poolSize && t in queue
    ensures HasRoom(tasks, poolSize, active, t) && AllMayPool(tasks, queue, active + {t})
  {
  }

  /** Claims a pending task. The ghost arguments say where in the loop and the wave the call is. */
  method StartTask(store: RunStore, roster: seq<AgentRow>, script: Script, poolSize: nat, t: nat, now: nat, claims0: seq<nat>,
                   ghost first: Db, ghost before: Db, ghost claimsBefore: seq<nat>, ghost pending: set<nat>, ghost active: set<nat>, ghost moves0: seq<Move>)
    returns (claims: seq<nat>, ghost moves: seq<Move>)
    requires store.Clean() && t in pending
    requires InWave(roster, script, first, before, store.db, claimsBefore, claims0, pending, active)
    requires Recorded(first.tasks, poolSize, moves0, active, claims0) && HasRoom(first.tasks, poolSize, active, t)
    modifies store
    ensures store.Clean() && store.status == old(store.status)
    ensures InWave(roster, script, first, before, store.db, claimsBefore, claims, pending - {t}, active + {t})
    ensures Recorded(first.tasks, poolSize, moves, active + {t}, claims) && moves == moves0 + [Starts(t)]
    ensures Replays(old(store.db), old(store.events)) ==> Replays(store.db, store.events)
  {
    ClaimInWave(roster, script, first, before, store.db, claimsBefore, claims0, pending, active, t, now);
    StartIsRecorded(first.tasks, poolSize, moves0, active, claims0, t);
    var claimed := TaskEngine.ClaimTask(store, t, now);
    claims := claims0[t := claims0[t] + 1];
    moves := moves0 + [Starts(t)];
  }

  /** Lets the dispatch of an active task report, or gives it up. */
  method FinishTask(store: RunStore, roster: seq<AgentRow>, script: Script, poolSize: nat, t: nat, now: nat, claims: seq<nat>,
                    ghost first: Db, ghost before: Db, ghost claimsBefore: seq<nat>, ghost pending: set<nat>, ghost active: set<nat>, ghost moves0: seq<Move>)
    returns (ghost moves: seq<Move>)
    requires store.Clean() && t in active
    requires InWave(roster, script, first, before, store.db, claimsBefore, claims, pending, active)
    requires Recorded(first.tasks, poolSize, moves0, active, claims)
    modifies store
    ensures store.Clean() && store.status == old(store.status)
    ensures InWave(roster, script, first, before, store.db, claimsBefore, claims, pending, active - {t})
    ensures Recorded(first.tasks, poolSize, moves, active - {t}, claims) && moves == moves0 + [Ends(t)]
    ensures Replays(old(store.db), old(store.events)) ==> Replays(store.db, store.events)
  {
    FinishInWave(roster, script, first, before, store.db, claimsBefore, claims, pending, active, t, claims[t], now);
    EndIsRecorded(first.tasks, poolSize, moves0, active, claims, t);
    moves := moves0 + [Ends(t)];
    match script(t, claims[t])
    case Reports(outcome) => TaskEngine.RunDispatchAndComplete(store, roster, t, outcome, now);
    case TimesOut => TaskEngine.HandleTaskTimeout(store, t, now);
  }

  method StartNext(store: RunStore, roster: seq<AgentRow>, script: Script, poolSize: nat, queue: seq<nat>, next: nat, active0: set<nat>, claims0: seq<nat>,
                   ghost first: Db, ghost before: Db, ghost claimsBefore: seq<nat>, ghost rest: set<nat>, ghost moves0: seq<Move>, ghost start: seq<Move>)
    returns (claims: seq<nat>, after: nat, active: set<nat>, ghost moves: seq<Move>)
    requires store.Clean() && Distinct(queue) && next < |queue| && Queue(queue, next) !! rest
    requires InWave(roster, script, first, before, store.db, claimsBefore, claims0, Queue(queue, next) + rest, active0)
    requires |active0| < poolSize && AllMayPool(first.tasks, queue, active0) && Recorded(first.tasks, poolSize, moves0, active0, claims0)
    requires GoesOn(first.tasks, start, moves0, true)
    modifies store
    ensures store.Clean() && store.status == old(store.status)
    ensures after == next + 1 && Queue(queue, after) !! rest
    ensures InWave(roster, script, first, before, store.db, claimsBefore, claims, Queue(queue, after) + rest, active)
    ensures |active| == |active0| + 1
    ensures Recorded(first.tasks, poolSize, moves, active, claims) && AllMayPool(first.tasks, queue, active) && GoesOn(first.tasks, start, moves, true)
    ensures Replays(old(store.db), old(store.events)) ==> Replays(store.db, store.events)
  {
    var now: nat := *;
    var t := queue[next];
    ghost var pending := Queue(queue, next) + rest;
    QueueSplits(queue, next, rest);
    PendingIsNotActive(roster, script, first, before, store.db, claimsBefore, claims0, pending, active0, t);
    JoinsPool(first.tasks, poolSize, queue, active0, t);
    GoesOnByOne(first.tasks, start, moves0, true, Starts(t));
    claims, moves := StartTask(store, roster, script, poolSize, t, now, claims0, first, before, claimsBefore, pending, active0, moves0);
    active, after := active0 + {t}, next + 1;
  }

  method FinishAny(store: RunStore, roster: seq<AgentRow>, script: Script, poolSize: nat, queue: seq<nat>, active0: set<nat>, claims: seq<nat>,
                   ghost first: Db, ghost before: Db, ghost claimsBefore: seq<nat>, ghost pending: set<nat>, ghost moves0: seq<Move>, ghost start: seq<Move>)
    returns (active: set<nat>, ghost moves: seq<Move>)
    requires store.Clean() && active0 != {}
    requires InWave(roster, script, first, before, store.db, claimsBefore, claims, pending, active0)
    requires AllMayPool(first.tasks, queue, active0) && Recorded(first.tasks, poolSize, moves0, active0, claims)
    requires GoesOn(first.tasks, start, moves0, true)
    modifies store
    ensures store.Clean() && store.status == old(store.status)
    ensures InWave(roster, script, first, before, store.db, claimsBefore, claims, pending, active)
    ensures |active| < |active0|
    ensures Recorded(first.tasks, poolSize, moves, active, claims) && AllMayPool(first.tasks, queue, active) && GoesOn(first.tasks, start, moves, true)
    ensures Replays(old(store.db), old(store.events)) ==> Replays(store.db, store.events)
  {
    var now: nat := *;
    var t :| t in active0;
    moves := FinishTask(store, roster, script, poolSize, t, now, claims, first, before, claimsBefore, pending, active0, moves0);
    GoesOnByOne(first.tasks, start, moves0, true, Ends(t));
    active := active0 - {t};
  }

  /** The pool either starts the next queued task or lets one of its tasks finish. */
  method PoolStep(store: RunStore, roster: seq<AgentRow>, script: Script, queue: seq<nat>, poolSize: nat, claims0: seq<nat>,
                  next0: nat, active0: set<nat>,
                  ghost first: Db, ghost before: Db, ghost claimsBefore: seq<nat>, ghost rest: set<nat>, ghost moves0: seq<Move>, ghost start: seq<Move>)
    returns (claims: seq<nat>, next: nat, active: set<nat>, ghost moves: seq<Move>)
    requires store.Clean() && poolSize > 0 && Distinct(queue) && next0 <= |queue| && Queue(queue, next0) !! rest
    requires next0 < |queue| || active0 != {}
    requires InWave(roster, script, first, before, store.db, claimsBefore, claims0, Queue(queue, next0) + rest, active0)
    requires AllMayPool(first.tasks, queue, active0) && Recorded(first.tasks, poolSize, moves0, active0, claims0)
    requires GoesOn(first.tasks, start, moves0, true)
    modifies store
    ensures store.Clean() && store.status == old(store.status)
    ensures next <= |queue| && Queue(queue, next) !! rest
    ensures InWave(roster, script, first, before, store.db, claimsBefore, claims, Queue(queue, next) + rest, active)
    ensures (next == next0 + 1 && |active| == |active0| + 1) || (next == next0 && |active| < |active0|)
    ensures Recorded(first.tasks, poolSize, moves, active, claims) && AllMayPool(first.tasks, queue, active) && GoesOn(first.tasks, start, moves, true)
    ensures Replays(old(store.db), old(store.events)) ==> Replays(store.db, store.events)
  {
    var startsNext := *;
    if next0 < |queue| && |active0| < poolSize && (startsNext || active0 == {}) {
      claims, next, active, moves := StartNext(store, roster, script, poolSize, queue, next0, active0, claims0, first, before, claimsBefore, rest, moves0, start);
    } else {
      claims, next := claims0, next0;
      active, moves := FinishAny(store, roster, script, poolSize, queue, active0, claims0, first, before, claimsBefore, Queue(queue, next0) + rest, moves0, start);
    }
  }

  /** Runs the concurrency-safe tasks of a wave: they start in order, at most `poolSize` at a time, and
      finish in any order. */
  method RunInPool(store: RunStore, roster: seq<AgentRow>, script: Script, queue: seq<nat>, poolSize: nat, claims0: seq<nat>,
                   ghost first: Db, ghost before: Db, ghost claimsBefore: seq<nat>, ghost rest: set<nat>, ghost moves0: seq<Move>)
    returns (claims: seq<nat>, ghost moves: seq<Move>)
    requires store.Clean() && poolSize > 0 && Distinct(queue) && Queue(queue, 0) !! rest
    requires InWave(roster, script, first, before, store.db, claimsBefore, claims0, Queue(queue, 0) + rest, {})
    requires AllMayPool(first.tasks, queue, {}) && Recorded(first.tasks, poolSize, moves0, {}, claims0)
    modifies store
    ensures store.Clean() && store.status == old(store.status)
    ensures InWave(roster, script, first, before, store.db, claimsBefore, claims, rest, {})
    ensures Recorded(first.tasks, poolSize, moves, {}, claims) && GoesOn(first.tasks, moves0, moves, true)
    ensures Replays(old(store.db), old(store.events)) ==> Replays(store.db, store.events)
  {
    var next: nat := 0;
    var active: set<nat> := {};
    claims, moves := claims0, moves0;
    while next < |queue| || active != {}
      invariant next <= |queue| && store.Clean() && store.status == old(store.status)
      invariant Queue(queue, next) !! rest
      invariant InWave(roster, script, first, before, store.db, claimsBefore, claims, Queue(queue, next) + rest, active)
      invariant Recorded(first.tasks, poolSize, moves, active, claims) && AllMayPool(first.tasks, queue, active)
      invariant GoesOn(first.tasks, moves0, moves, true)
      invariant Replays(old(store.db), old(store.events)) ==> Replays(store.db, store.events)
      decreases 2 * (|queue| - next) + |active|
    {
      claims, next, active, moves := PoolStep(store, roster, script, queue, poolSize, claims, next, active, first, before, claimsBefore, rest, moves, moves0);
    }
    assert Queue(queue, next) + rest == rest;
  }

  /** Runs one task that must not run beside another. */
  method ExecuteAlone(store: RunStore, roster: seq<AgentRow>, script: Script, poolSize: nat, t: nat, claims0: seq<nat>,
                      ghost first: Db, ghost before: Db, ghost claimsBefore: seq<nat>, ghost pending: set<nat>, ghost moves0: seq<Move>, ghost start: seq<Move>)
    returns (claims: seq<nat>, ghost moves: seq<Move>)
    requires store.Clean() && poolSize > 0 && t in pending
    requires InWave(roster, script, first, before, store.db, claimsBefore, claims0, pending, {})
    requires Recorded(first.tasks, poolSize, moves0, {}, claims0) && GoesOn(first.tasks, start, moves0, false)
    requires t < |first.tasks| && !first.tasks[t].safe
    modifies store
    ensures store.Clean() && store.status == old(store.status)
    ensures InWave(roster, script, first, before, store.db, claimsBefore, claims, pending - {t}, {})
    ensures Recorded(first.tasks, poolSize, moves, {}, claims) && GoesOn(first.tasks, start, moves, false)
    ensures Replays(old(store.db), old(store.events)) ==> Replays(store.db, store.events)
  {
    var started: nat, ended: nat := *, *;
    claims, moves := StartTask(store, roster, script, poolSize, t, started, claims0, first, before, claimsBefore, pending, {}, moves0);
    GoesOnByOne(first.tasks, start, moves0, false, Starts(t));
    GoesOnByOne(first.tasks, start, moves, false, Ends(t));
    moves := FinishTask(store, roster, script, poolSize, t, ended, claims, first, before, claimsBefore, pending - {t}, {} + {t}, moves);
    assert {} + {t} - {t} == {};
  }

  lemma PartsAreTheWhole(tasks: seq<Task>, ready: seq<nat>, safe: seq<nat>, others: seq<nat>)
    requires forall t :: t in ready <==> t in safe || t in others
    requires forall i | 0 <= i < |safe| :: safe[i] < |tasks| && tasks[safe[i]].safe
    requires forall i | 0 <= i < |others| :: others[i] < |tasks| && !tasks[others[i]].safe
    ensures Queue(safe, 0) !! Queue(others, 0) && Queue(safe, 0) + Queue(others, 0) == Queue(ready, 0)
  {
    forall t ensures t in Queue(ready, 0) <==> t in ready {}
    forall t ensures t in Queue(safe, 0) <==> t in safe {}
    forall t ensures t in Queue(others, 0) <==> t in others {}
  }

  method Partition(tasks: seq<Task>, ready: seq<nat>) returns (safe: seq<nat>, others: seq<nat>)
    requires Distinct(ready) && forall i | 0 <= i < |ready| :: ready[i] < |tasks|
    ensures Distinct(safe) && Distinct(others)
    ensures Queue(safe, 0) !! Queue(others, 0) && Queue(safe, 0) + Queue(others, 0) == Queue(ready, 0)
    ensures forall i | 0 <= i < |safe| :: safe[i] < |tasks| && tasks[safe[i]].safe
    ensures forall i | 0 <= i < |others| :: others[i] < |tasks| && !tasks[others[i]].safe
  {
    safe, others := [], [];
    for k := 0 to |ready|
      invariant Distinct(safe) && Distinct(others)
      invariant forall t :: t in ready[..k] <==> t in safe || t in others
      invariant forall i | 0 <= i < |safe| :: safe[i] < |tasks| && tasks[safe[i]].safe
      invariant forall i | 0 <= i < |others| :: others[i] < |tasks| && !tasks[others[i]].safe
    {
      var t := ready[k];
      assert ready[..k + 1] == ready[..k] + [t];
      NotYet(ready, k);
      if tasks[t].safe { safe := Put(safe, t); } else { others := Put(others, t); }
    }
    assert ready[..|ready|] == ready;
    PartsAreTheWhole(tasks, ready, safe, others);
  }

  lemma NotYet(ready: seq<nat>, k: nat)
    requires Distinct(ready) && k < |ready|
    ensures ready[k] !in ready[..k]
  {
  }

  function Put(queue: seq<nat>, t: nat): (longer: seq<nat>)
    requires Distinct(queue) && t !in queue
    ensures Distinct(longer) && forall x :: x in longer <==> x in queue || x == t
  {
    queue + [t]
  }

  lemma WaveBegins(roster: seq<AgentRow>, script: Script, first: Db, before: Db, claims: seq<nat>, pending: set<nat>)
    requires Progress(roster, first, before, multiset{}, claims) && forall t: nat :: t in pending <==> Unstarted(before, t)
    ensures InWave(roster, script, first, before, before, claims, claims, pending, {})
  {
    ghost var none: set<nat> := {};
    assert multiset(none) == multiset{};
  }

  /** Runs the other tasks of a wave, one after the other. */
  method RunOthers(store: RunStore, roster: seq<AgentRow>, script: Script, others: seq<nat>, poolSize: nat, claims0: seq<nat>,
                   ghost first: Db, ghost before: Db, ghost claimsBefore: seq<nat>, ghost pooled: seq<Move>)
    returns (claims: seq<nat>, ghost moves: seq<Move>)
    requires store.Clean() && poolSize > 0 && Distinct(others)
    requires forall i | 0 <= i < |others| :: others[i] < |first.tasks| && !first.tasks[others[i]].safe
    requires InWave(roster, script, first, before, store.db, claimsBefore, claims0, Queue(others, 0), {})
    requires Recorded(first.tasks, poolSize, pooled, {}, claims0)
    modifies store
    ensures store.Clean() && store.status == old(store.status)
    ensures InWave(roster, script, first, before, store.db, claimsBefore, claims, {}, {})
    ensures Recorded(first.tasks, poolSize, moves, {}, claims) && GoesOn(first.tasks, pooled, moves, false)
    ensures Replays(old(store.db), old(store.events)) ==> Replays(store.db, store.events)
  {
    claims, moves := claims0, pooled;
    for k := 0 to |others|
      invariant store.Clean() && store.status == old(store.status)
      invariant InWave(roster, script, first, before, store.db, claimsBefore, claims, Queue(others, k), {})
      invariant Recorded(first.tasks, poolSize, moves, {}, claims) && GoesOn(first.tasks, pooled, moves, false)
      invariant Replays(old(store.db), old(store.events)) ==> Replays(store.db, store.events)
    {
      QueueStep(others, k);
      claims, moves := ExecuteAlone(store, roster, script, poolSize, others[k], claims, first, before, claimsBefore, Queue(others, k), moves, pooled);
    }
    assert Queue(others, |others|) == {};
  }

  /** Runs every ready task once. */
  method RunWave(store: RunStore, roster: seq<AgentRow>, script: Script, ready: seq<nat>, poolSize: nat, claims0: seq<nat>, ghost first: Db, ghost moves0: seq<Move>)
    returns (claims: seq<nat>, ghost moves: seq<Move>)
    requires store.Clean() && poolSize > 0 && Progress(roster, first, store.db, multiset{}, claims0)
    requires Distinct(ready) && forall t: nat :: t in ready <==> Unstarted(store.db, t)
    requires Recorded(first.tasks, poolSize, moves0, {}, claims0)
    modifies store
    ensures store.Clean() && store.status == old(store.status)
    ensures InWave(roster, script, first, old(store.db), store.db, claims0, claims, {}, {})
    ensures Recorded(first.tasks, poolSize, moves, {}, claims)
    ensures SafeFirst(first.tasks, moves0, moves)
    ensures Replays(old(store.db), old(store.events)) ==> Replays(store.db, store.events)
  {
    ghost var before := store.db;
    assert forall i | 0 <= i < |ready| :: ready[i] in ready;
    var safe, others := Partition(store.db.tasks, ready);
    assert forall t: nat :: t in Queue(ready, 0) <==> Unstarted(before, t);
    WaveBegins(roster, script, first, before, claims0, Queue(safe, 0) + Queue(others, 0));
    claims, moves := RunInPool(store, roster, script, safe, poolSize, claims0, first, before, claims0, Queue(others, 0), moves0);
    claims, moves := RunOthers(store, roster, script, others, poolSize, claims, first, before, claims0, moves);
  }

  // --- the loop ---

  /** After `waves` flawless waves exactly the tasks of a lower level are completed. */
  ghost predicate LevelsDone(db: Db, rank: nat -> nat, waves: nat)
    requires Ranked(EdgesOf(db.deps), rank)
  {
    && (forall t: nat | t < |db.tasks| :: IsCompleted(db, t) <==> Level(EdgesOf(db.deps), rank, t) < waves)
    && (waves > 0 ==> exists t: nat | t < |db.tasks| :: Level(EdgesOf(db.deps), rank, t) + 1 == waves)
  }

  lemma NeedsIsDependsOn(deps: seq<Dependency>, x: nat, y: nat)
    ensures Needs(EdgesOf(deps), x, y) <==> DependsOn(deps, x, y)
  {
    if DependsOn(deps, x, y) {
      var j :| 0 <= j < |deps| && deps[j].dependent == x && deps[j].prerequisite == y;
      assert EdgesOf(deps)[j] == (x, y);
    }
    if Needs(EdgesOf(deps), x, y) {
      var j :| 0 <= j < |EdgesOf(deps)| && EdgesOf(deps)[j] == (x, y);
      assert deps[j].dependent == x && deps[j].prerequisite == y;
    }
  }

  /** All prerequisites of a task are completed exactly when it lies at most `waves` deep. */
  lemma SatisfiedByLevel(db: Db, rank: nat -> nat, waves: nat, t: nat)
    requires SchedulerInv(db, multiset{}) && Ranked(EdgesOf(db.deps), rank) && LevelsDone(db, rank, waves) && t < |db.tasks|
    ensures HardSatisfied(db.deps, t) <==> Level(EdgesOf(db.deps), rank, t) <= waves
  {
    var edges := EdgesOf(db.deps);
    if HardSatisfied(db.deps, t) && Level(edges, rank, t) > 0 {
      var y := LevelComesFromPrerequisite(edges, rank, t);
      NeedsIsDependsOn(db.deps, t, y);
      var j :| 0 <= j < |db.deps| && db.deps[j].dependent == t && db.deps[j].prerequisite == y;
      assert IsCompleted(db, y);
    }
    if Level(edges, rank, t) <= waves {
      forall j | 0 <= j < |db.deps| && db.deps[j].dependent == t ensures db.deps[j].state.Satisfied? {
        assert edges[j] == (t, db.deps[j].prerequisite);
        LevelAbovePrerequisites(edges, rank, t, db.deps[j].prerequisite);
        assert IsCompleted(db, db.deps[j].prerequisite);
      }
    }
  }

  /** In a flawless run the ready tasks of a wave are exactly those of the next level. */
  lemma ReadyByLevel(roster: seq<AgentRow>, script: Script, db: Db, rank: nat -> nat, waves: nat)
    requires SchedulerInv(db, multiset{}) && Ranked(EdgesOf(db.deps), rank) && LevelsDone(db, rank, waves)
    requires Flawless(roster, script, db)
    ensures Flawless(roster, script, Refresh(db)) && LevelsDone(Refresh(db), rank, waves)
    ensures forall t: nat | t < |db.tasks| :: Unstarted(Refresh(db), t) <==> Level(EdgesOf(db.deps), rank, t) == waves
  {
    forall t: nat | t < |db.tasks| ensures Unstarted(Refresh(db), t) <==> Level(EdgesOf(db.deps), rank, t) == waves {
      SatisfiedByLevel(db, rank, waves, t);
      assert ShapeOk(db, t);
      assert IsCompleted(db, t) || IsCandidate(db.tasks[t].status);
    }
    forall t: nat | t < |db.tasks| ensures IsCompleted(Refresh(db), t) <==> IsCompleted(db, t) {}
  }

  lemma WaveDoesLevel(before: Db, after: Db, rank: nat -> nat, waves: nat)
    requires Ranked(EdgesOf(before.deps), rank) && LevelsDone(before, rank, waves) && EdgesOf(after.deps) == EdgesOf(before.deps)
    requires |after.tasks| == |before.tasks| && CompletedInWave(before, after, {}, {})
    requires forall t: nat | t < |before.tasks| :: Unstarted(before, t) <==> Level(EdgesOf(before.deps), rank, t) == waves
    requires exists t: nat | t < |before.tasks| :: Unstarted(before, t)
    ensures LevelsDone(after, rank, waves + 1)
  {
  }

  /** When no level is left, every task is completed and the waves were as many as the longest chain. */
  lemma LastLevel(db: Db, rank: nat -> nat, waves: nat)
    requires WellFormed(db) && Ranked(EdgesOf(db.deps), rank) && LevelsDone(db, rank, waves)
    requires forall t: nat | t < |db.tasks| :: Level(EdgesOf(db.deps), rank, t) != waves
    ensures forall t: nat | t < |db.tasks| :: IsCompleted(db, t)
    ensures LongestChain(EdgesOf(db.deps), |db.tasks|, waves)
  {
    var edges := EdgesOf(db.deps);
    forall t: nat | t < |db.tasks| ensures Level(edges, rank, t) < waves {
      if Level(edges, rank, t) >= waves {
        var y := LowerLevelsExist(edges, rank, t, waves, |db.tasks|);
      }
    }
    HighestLevelIsLongestChain(edges, rank, |db.tasks|, waves);
  }

  /** What one wave leaves behind, as the loop needs it. */
  lemma WaveEnds(roster: seq<AgentRow>, script: Script, first: Db, before: Db, db: Db, claims0: seq<nat>, claims: seq<nat>, t: nat)
    requires InWave(roster, script, first, before, db, claims0, claims, {}, {}) && Unstarted(before, t)
    ensures Progress(roster, first, db, multiset{}, claims)
    ensures TotalBudget(roster, db.tasks) < TotalBudget(roster, before.tasks)
    ensures Flawless(roster, script, before) ==> Flawless(roster, script, db) && CompletedInWave(before, db, {}, {})
  {
    ghost var none: set<nat> := {};
    assert multiset(none) == multiset{};
    assert DoneInWave(before, {}, {}, t);
    TotalBudgetDrops(roster, before.tasks, db.tasks);
  }

  /** The run so far was flawless, so its completed tasks are those of the first `waves` levels. */
  ghost predicate OnSchedule(roster: seq<AgentRow>, script: Script, db: Db, rank: nat -> nat, waves: nat) {
    && WellFormed(db) && Ranked(EdgesOf(db.deps), rank)
    && Flawless(roster, script, db) && LevelsDone(db, rank, waves)
  }

  /** Nothing is ready, and exactly the tasks described by `LeftWaiting` wait. */
  ghost predicate Settled(db: Db) {
    && AtStandstill(db)
    && forall t: nat | t < |db.tasks| :: db.tasks[t].status.WaitingForDependency? <==> LeftWaiting(db, t)
  }

  lemma StandstillIsSettled(before: Db)
    requires SchedulerInv(before, multiset{}) && !SomeReady(Refresh(before))
    ensures Settled(Refresh(before))
  {
    var db := Refresh(before);
    NothingReadyIsStandstill(before);
    RefreshKeepsScheduler(before, multiset{});
    forall t: nat | t < |db.tasks| ensures db.tasks[t].status.WaitingForDependency? <==> LeftWaiting(db, t) {
      LeftWaitingIff(db, t);
    }
  }

  ghost predicate NoLevelLeft(db: Db, rank: nat -> nat, waves: nat)
    requires Ranked(EdgesOf(db.deps), rank)
  {
    forall t: nat | t < |db.tasks| :: Level(EdgesOf(db.deps), rank, t) != waves
  }

  /** The loop's state after `waves` turns that found work and, unless `working`, one that found none. */
  ghost predicate LoopState(roster: seq<AgentRow>, script: Script, first: Db, db: Db, claims: seq<nat>, rank: nat -> nat, waves: nat, working: bool) {
    && Progress(roster, first, db, multiset{}, claims)
    && (!working ==> Settled(db))
    && (OnSchedule(roster, script, first, rank, 0) ==>
      OnSchedule(roster, script, db, rank, waves) && (!working ==> NoLevelLeft(db, rank, waves)))
  }

  lemma RefreshOnSchedule(roster: seq<AgentRow>, script: Script, before: Db, rank: nat -> nat, waves: nat)
    requires SchedulerInv(before, multiset{}) && OnSchedule(roster, script, before, rank, waves)
    ensures OnSchedule(roster, script, Refresh(before), rank, waves)
    ensures forall t: nat | t < |before.tasks| :: Unstarted(Refresh(before), t) <==> Level(EdgesOf(before.deps), rank, t) == waves
  {
    ReadyByLevel(roster, script, before, rank, waves);
  }

  /** What looking for ready tasks keeps, and how the loop stands if it finds none. */
  lemma RefreshKeepsLoop(roster: seq<AgentRow>, script: Script, first: Db, before: Db, claims: seq<nat>, rank: nat -> nat, waves: nat, working: bool)
    requires LoopState(roster, script, first, before, claims, rank, waves, true) && (working <==> SomeReady(Refresh(before)))
    ensures LoopState(roster, script, first, Refresh(before), claims, rank, waves, working)
    ensures OnSchedule(roster, script, first, rank, 0) ==>
      forall t: nat | t < |before.tasks| :: Unstarted(Refresh(before), t) <==> Level(EdgesOf(before.deps), rank, t) == waves
    ensures TotalBudget(roster, Refresh(before).tasks) <= TotalBudget(roster, before.tasks)
  {
    RefreshProgress(roster, first, before, claims);
    TotalBudgetDrops(roster, before.tasks, Refresh(before).tasks);
    if !working {
      StandstillIsSettled(before);
    }
    if OnSchedule(roster, script, first, rank, 0) {
      RefreshOnSchedule(roster, script, before, rank, waves);
    }
  }

  /** Looks for ready tasks. */
  method Poll(store: RunStore, roster: seq<AgentRow>, script: Script, ghost claims: seq<nat>,
              ghost first: Db, ghost rank: nat -> nat, ghost waves: nat)
    returns (ready: seq<nat>)
    requires store.Clean() && LoopState(roster, script, first, store.db, claims, rank, waves, true)
    modifies store
    ensures store.Clean() && store.status == old(store.status)
    ensures Distinct(ready) && forall t: nat :: t in ready <==> Unstarted(store.db, t)
    ensures LoopState(roster, script, first, store.db, claims, rank, waves, ready != [])
    ensures OnSchedule(roster, script, first, rank, 0) ==>
      forall t: nat | t < |store.db.tasks| :: Unstarted(store.db, t) <==> Level(EdgesOf(store.db.deps), rank, t) == waves
    ensures TotalBudget(roster, store.db.tasks) <= TotalBudget(roster, old(store.db).tasks)
    ensures Replays(old(store.db), old(store.events)) ==> Replays(store.db, store.events)
  {
    ghost var before := store.db;
    ready := DependencyResolver.ReadyTasks(store);
    store.Commit();
    assert ready != [] ==> Unstarted(store.db, ready[0]) by { assert ready != [] ==> ready[0] in ready; }
    RefreshKeepsLoop(roster, script, first, before, claims, rank, waves, ready != []);
  }

  /** One turn of the loop: looks for ready tasks and runs them. */
  method Turn(store: RunStore, roster: seq<AgentRow>, script: Script, poolSize: nat, claims0: seq<nat>, waves0: nat,
              ghost first: Db, ghost rank: nat -> nat, ghost moves0: seq<Move>)
    returns (working: bool, claims: seq<nat>, waves: nat, ghost moves: seq<Move>)
    requires store.Clean() && poolSize > 0 && LoopState(roster, script, first, store.db, claims0, rank, waves0, true)
    requires Recorded(first.tasks, poolSize, moves0, {}, claims0)
    modifies store
    ensures store.Clean() && store.status == old(store.status)
    ensures LoopState(roster, script, first, store.db, claims, rank, waves, working)
    ensures TotalBudget(roster, store.db.tasks) <= TotalBudget(roster, old(store.db).tasks)
    ensures working ==> TotalBudget(roster, store.db.tasks) < TotalBudget(roster, old(store.db).tasks)
    ensures Recorded(first.tasks, poolSize, moves, {}, claims)
    ensures Replays(old(store.db), old(store.events)) ==> Replays(store.db, store.events)
  {
    claims, waves, moves := claims0, waves0, moves0;
    var ready := Poll(store, roster, script, claims, first, rank, waves);
    working := ready != [];
    if working {
      ghost var refreshed := store.db;
      assert ready[0] in ready;
      claims, moves := RunWave(store, roster, script, ready, poolSize, claims0, first, moves0);
      waves := waves + 1;
      WaveEnds(roster, script, first, refreshed, store.db, claims0, claims, ready[0]);
      if OnSchedule(roster, script, first, rank, 0) {
        WaveDoesLevel(refreshed, store.db, rank, waves0);
      }
    }
  }

  lemma LoopEnds(roster: seq<AgentRow>, script: Script, first: Db, db: Db, claims: seq<nat>, rank: nat -> nat, waves: nat)
    requires LoopState(roster, script, first, db, claims, rank, waves, false)
    ensures WellFormed(db) && Settled(db) && AllDispositioned(db)
    ensures |claims| == |db.tasks| == |first.tasks|
    ensures forall t: nat | t < |claims| :: claims[t] <= Budget(roster, first.tasks[t])
    ensures EndedKept(first, db)
    ensures OnSchedule(roster, script, first, rank, 0) ==> AllCompletedIn(first, db, waves)
  {
    forall a | 0 <= a < |db.artefacts| ensures !db.artefacts[a].disposition.Undispositioned? {
      assert MarksExact(db, db.artefacts[a]);
    }
    if OnSchedule(roster, script, first, rank, 0) {
      LastLevel(db, rank, waves);
    }
  }

  /** All tasks are completed, after as many waves as the longest dependency chain has tasks. */
  ghost predicate AllCompletedIn(first: Db, db: Db, waves: nat) {
    && (forall t: nat | t < |db.tasks| :: IsCompleted(db, t))
    && LongestChain(EdgesOf(first.deps), |first.tasks|, waves)
  }

  /** Turns until nothing is ready. */
  method Drive(store: RunStore, roster: seq<AgentRow>, script: Script, poolSize: nat, ghost rank: nat -> nat)
    returns (waves: nat, claims: seq<nat>, ghost moves: seq<Move>)
    requires store.Clean() && poolSize > 0 && SchedulerInv(store.db, multiset{}) && ArtefactsExact(store.db)
    modifies store
    ensures store.Clean() && store.status == old(store.status)
    ensures WellFormed(store.db) && Settled(store.db) && AllDispositioned(store.db)
    ensures |claims| == |store.db.tasks| == |old(store.db).tasks|
    ensures forall t: nat | t < |claims| :: claims[t] <= Budget(roster, old(store.db).tasks[t])
    ensures EndedKept(old(store.db), store.db)
    ensures OnSchedule(roster, script, old(store.db), rank, 0) ==> AllCompletedIn(old(store.db), store.db, waves)
    ensures Recorded(old(store.db).tasks, poolSize, moves, {}, claims)
    ensures Replays(old(store.db), old(store.events)) ==> Replays(store.db, store.events)
  {
    ghost var first := store.db;
    waves, claims := 0, seq(|store.db.tasks|, t => 0);
    moves := [];
    var working := true;
    while working
      invariant store.Clean() && store.status == old(store.status)
      invariant LoopState(roster, script, first, store.db, claims, rank, waves, working)
      invariant Recorded(first.tasks, poolSize, moves, {}, claims)
      invariant Replays(first, old(store.events)) ==> Replays(store.db, store.events)
      decreases TotalBudget(roster, store.db.tasks), working
    {
      working, claims, waves, moves := Turn(store, roster, script, poolSize, claims, waves, first, rank, moves);
    }
    LoopEnds(roster, script, first, store.db, claims, rank, waves);
  }
}
