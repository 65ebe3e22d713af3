/** The order in which transactions take the run lock and the chain lock. */
module LockOrder {
  import opened Vocabulary
  import opened AuditChain
  import opened Ledger

  /** `a` holds the run's lock and wants the chain; `b` holds the chain and wants the run's lock. */
  predicate Deadlocked(l: Ledger, a: nat, b: nat, run: nat) {
    && a != b && a in l.open && b in l.open
    && run in l.runOwner && l.runOwner[run] == a && l.chainOwner == Some(b)
  }

  /** Neither can go on until one of the two is ended. */
  lemma DeadlockPersists(l: Ledger, a: nat, b: nat, run: nat, step: Step)
    requires Deadlocked(l, a, b, run) && Enabled(l, step)
    ensures !Enabled(l, LockChain(a)) && !Enabled(l, LockRun(b, run))
    ensures step !in {Commit(a), Abort(a), Commit(b), Abort(b)} ==> Deadlocked(Apply(l, step), a, b, run)
  {
  }

  /** An audited emit takes the run lock first; an approval decision writes its audit row first. Started
      together on one run they end up waiting for each other. */
  lemma EmitAndApproveDeadlock(run: nat)
    ensures Deadlocked(Interleave(EMPTY, [Begin(0), Begin(1), LockRun(0, run), LockChain(1), LockChain(0), LockRun(1, run)]), 0, 1, run)
  {
    var steps := [Begin(0), Begin(1), LockRun(0, run), LockChain(1), LockChain(0), LockRun(1, run)];
    var l2 := Apply(Apply(EMPTY, Begin(0)), Begin(1));
    var l4 := Apply(Apply(l2, LockRun(0, run)), LockChain(1));
    assert Deadlocked(l4, 0, 1, run);
    assert steps[1..][1..] == steps[2..] && steps[2..][1..] == steps[3..] && steps[3..][1..] == steps[4..];
    assert steps[4..][1..] == steps[5..] && steps[5..][1..] == [];
    assert Interleave(EMPTY, steps) == Interleave(l2, steps[2..]);
    assert Interleave(l2, steps[2..]) == Interleave(l4, steps[4..]);
    assert !Enabled(l4, LockChain(0)) && !Enabled(l4, LockRun(1, run));
    assert Interleave(l4, steps[5..]) == l4;
    assert Interleave(l4, steps[4..]) == l4;
  }

  // --- transactions that wait for each other ---

  datatype Lock = Chain | RunLock(run: nat)

  function Request(tx: nat, lock: Lock): Step {
    match lock
    case Chain => LockChain(tx)
    case RunLock(run) => LockRun(tx, run)
  }

  function Owner(l: Ledger, lock: Lock): Option<nat> {
    match lock
    case Chain => l.chainOwner
    case RunLock(run) => if run in l.runOwner then Some(l.runOwner[run]) else None
  }

  /** The transaction asks for a lock that a member of `waiting` holds. */
  predicate WaitsIn(l: Ledger, wants: map<nat, Lock>, waiting: set<nat>, tx: nat) {
    && tx in l.open && tx in wants && !Enabled(l, Request(tx, wants[tx]))
    && Owner(l, wants[tx]).Some? && Owner(l, wants[tx]).value in waiting
  }

  /** Every one of these transactions waits for another of them. */
  predicate AllStuck(l: Ledger, wants: map<nat, Lock>, waiting: set<nat>) {
    waiting != {} && forall tx | tx in waiting :: WaitsIn(l, wants, waiting, tx)
  }

  /** `a` holds the run's lock and asks for the chain, `b` holds the chain and asks for the run's lock. */
  predicate PairStuck(l: Ledger, wants: map<nat, Lock>, a: nat, b: nat, run: nat) {
    Deadlocked(l, a, b, run) && a in wants && wants[a] == Chain && b in wants && wants[b] == RunLock(run)
  }

  /** No transaction holds or wants the lock of a run but its own. */
  predicate OneRunEach(l: Ledger, wants: map<nat, Lock>, own: map<nat, nat>) {
    && (forall run | run in l.runOwner :: l.runOwner[run] in own && own[l.runOwner[run]] == run)
    && (forall tx | tx in wants && wants[tx].RunLock? :: tx in own && own[tx] == wants[tx].run)
  }

  /** Among transactions of one run each, some wait for each other exactly when two of them do, one with
      the lock of a run and one with the chain. */
  lemma StuckIffPairStuck(l: Ledger, wants: map<nat, Lock>, own: map<nat, nat>)
    requires OneRunEach(l, wants, own)
    ensures (exists waiting: set<nat> :: AllStuck(l, wants, waiting)) <==> exists a, b, run :: PairStuck(l, wants, a, b, run)
  {
    if waiting: set<nat> :| AllStuck(l, wants, waiting) {
      var a, b, run := StuckPair(l, wants, own, waiting);
    }
    if a, b, run :| PairStuck(l, wants, a, b, run) {
      assert AllStuck(l, wants, {a, b});
    }
  }

  lemma StuckPair(l: Ledger, wants: map<nat, Lock>, own: map<nat, nat>, waiting: set<nat>) returns (a: nat, b: nat, run: nat)
    requires OneRunEach(l, wants, own) && AllStuck(l, wants, waiting)
    ensures PairStuck(l, wants, a, b, run)
  {
    a :| a in waiting;
    if wants[a].RunLock? {
      a := l.runOwner[wants[a].run];
    }
    assert WaitsIn(l, wants, waiting, a);
    if wants[a].RunLock? {
      assert false;
    }
    b := l.chainOwner.value;
    assert WaitsIn(l, wants, waiting, b);
    run := wants[b].run;
    a := l.runOwner[run];
    assert WaitsIn(l, wants, waiting, a);
  }
}

/** Transactions as the sequences of locks they ask for, in any interleaving. */
module LockPrograms {
  import opened Vocabulary
  import opened Ledger
  import opened LockOrder

  /** The locks each transaction asks for, in its order, before it ends. */
  type Programs = map<nat, seq<Lock>>

  /** A transaction takes its next step, or fails and is rolled back. */
  datatype Turn = Goes(tx: nat) | Fails(tx: nat)

  /** `taken` counts the locks each transaction has been granted. */
  datatype Progress = Progress(ledger: Ledger, taken: map<nat, nat>)

  ghost predicate ProgressOk(programs: Programs, s: Progress) {
    && s.taken.Keys == programs.Keys && s.ledger.open.Keys <= programs.Keys
    && (forall tx | tx in programs :: s.taken[tx] <= |programs[tx]|)
    && forall tx, lock :: Owner(s.ledger, lock) == Some(tx) <==> tx in s.ledger.open && Has(programs[tx], s.taken[tx], lock)
  }

  /** The lock is among the first `n` of the program. */
  predicate Has(p: seq<Lock>, n: nat, lock: Lock) {
    n <= |p| && lock in p[..n]
  }

  function Started(programs: Programs): Progress {
    Progress(EMPTY.(open := map tx | tx in programs :: Pending([], [])), map tx | tx in programs :: 0)
  }

  predicate Unfinished(programs: Programs, s: Progress, tx: nat) {
    tx in programs && tx in s.taken && s.taken[tx] < |programs[tx]|
  }

  /** A transaction whose next lock is held by another one stays where it is; at its end it commits. */
  function After(programs: Programs, s: Progress, turn: Turn): Progress {
    if turn.tx !in s.ledger.open then s
    else if turn.Fails? then s.(ledger := Apply(s.ledger, Abort(turn.tx)))
    else if !Unfinished(programs, s, turn.tx) then s.(ledger := Apply(s.ledger, Commit(turn.tx)))
    else
      var step := Request(turn.tx, programs[turn.tx][s.taken[turn.tx]]);
      if Enabled(s.ledger, step) then Progress(Apply(s.ledger, step), s.taken[turn.tx := s.taken[turn.tx] + 1]) else s
  }

  lemma GrantKeepsProgress(programs: Programs, s: Progress, tx: nat)
    requires ProgressOk(programs, s) && tx in s.ledger.open && s.taken[tx] < |programs[tx]|
    requires Enabled(s.ledger, Request(tx, programs[tx][s.taken[tx]]))
    ensures ProgressOk(programs, After(programs, s, Goes(tx)))
    ensures After(programs, s, Goes(tx)).taken == s.taken[tx := s.taken[tx] + 1]
    ensures After(programs, s, Goes(tx)).ledger.open == s.ledger.open
  {
    var after := After(programs, s, Goes(tx));
    var p, n := programs[tx], s.taken[tx];
    assert p[..n + 1] == p[..n] + [p[n]];
    forall t, lock
      ensures Owner(after.ledger, lock) == Some(t) <==> t in after.ledger.open && Has(programs[t], after.taken[t], lock)
    {
      assert Owner(after.ledger, lock) == if lock == p[n] then Some(tx) else Owner(s.ledger, lock);
      assert Owner(s.ledger, lock) == Some(t) <==> t in s.ledger.open && Has(programs[t], s.taken[t], lock);
    }
  }

  lemma EndKeepsProgress(programs: Programs, s: Progress, tx: nat, step: Step)
    requires ProgressOk(programs, s) && tx in s.ledger.open && step in {Commit(tx), Abort(tx)}
    ensures ProgressOk(programs, s.(ledger := Apply(s.ledger, step)))
  {
    var after := Apply(s.ledger, step);
    forall t, lock
      ensures Owner(after, lock) == Some(t) <==> t in after.open && Has(programs[t], s.taken[t], lock)
    {
      assert Owner(after, lock) == if Owner(s.ledger, lock) == Some(tx) then None else Owner(s.ledger, lock);
      assert Owner(s.ledger, lock) == Some(t) <==> t in s.ledger.open && Has(programs[t], s.taken[t], lock);
    }
  }

  lemma TurnKeepsProgress(programs: Programs, s: Progress, turn: Turn)
    requires ProgressOk(programs, s)
    ensures ProgressOk(programs, After(programs, s, turn))
  {
    var tx := turn.tx;
    if tx in s.ledger.open {
      if turn.Fails? {
        EndKeepsProgress(programs, s, tx, Abort(tx));
      } else if !Unfinished(programs, s, tx) {
        EndKeepsProgress(programs, s, tx, Commit(tx));
      } else if Enabled(s.ledger, Request(tx, programs[tx][s.taken[tx]])) {
        GrantKeepsProgress(programs, s, tx);
      }
    }
  }

  function Played(programs: Programs, turns: seq<Turn>): Progress {
    if turns == [] then Started(programs)
    else After(programs, Played(programs, turns[..|turns| - 1]), turns[|turns| - 1])
  }

  lemma {:induction false} PlayedOk(programs: Programs, turns: seq<Turn>)
    ensures ProgressOk(programs, Played(programs, turns))
  {
    if turns != [] {
      PlayedOk(programs, turns[..|turns| - 1]);
      TurnKeepsProgress(programs, Played(programs, turns[..|turns| - 1]), turns[|turns| - 1]);
    }
  }

  /** The lock each transaction asks for next. */
  function Wants(programs: Programs, s: Progress): map<nat, Lock> {
    map tx | tx in programs && tx in s.ledger.open && Unfinished(programs, s, tx) :: programs[tx][s.taken[tx]]
  }

  ghost predicate CanDeadlock(programs: Programs) {
    exists turns, waiting :: DeadlocksAt(programs, turns, waiting)
  }

  ghost predicate DeadlocksAt(programs: Programs, turns: seq<Turn>, waiting: set<nat>) {
    var s := Played(programs, turns);
    AllStuck(s.ledger, Wants(programs, s), waiting)
  }

  predicate AsksHolding(p: seq<Lock>, i: nat, wanted: Lock, held: Lock) {
    i < |p| && p[i] == wanted && wanted !in p[..i] && held in p[..i]
  }

  /** The program asks for the first lock while it holds the second. */
  ghost predicate Asks(p: seq<Lock>, wanted: Lock, held: Lock) {
    exists i: nat :: AsksHolding(p, i, wanted, held)
  }

  /** One program asks for the chain holding a run's lock, the other for that run's lock holding the chain. */
  ghost predicate Conflict(p: seq<Lock>, q: seq<Lock>, run: nat) {
    Asks(p, Chain, RunLock(run)) && Asks(q, RunLock(run), Chain)
  }

  predicate OneRunPrograms(programs: Programs, own: map<nat, nat>) {
    forall tx, lock | tx in programs && lock in programs[tx] && lock.RunLock? :: tx in own && own[tx] == lock.run
  }

  // --- programs of one run each ---

  lemma OneRunEachWhilePlayed(programs: Programs, own: map<nat, nat>, s: Progress)
    requires OneRunPrograms(programs, own) && ProgressOk(programs, s)
    ensures OneRunEach(s.ledger, Wants(programs, s), own)
  {
    forall run | run in s.ledger.runOwner ensures s.ledger.runOwner[run] in own && own[s.ledger.runOwner[run]] == run {
      var tx := s.ledger.runOwner[run];
      assert Owner(s.ledger, RunLock(run)) == Some(tx);
      assert Has(programs[tx], s.taken[tx], RunLock(run));
      assert RunLock(run) in programs[tx];
    }
  }

  lemma DeadlockNeedsConflict(programs: Programs, own: map<nat, nat>, turns: seq<Turn>, waiting: set<nat>)
    returns (a: nat, b: nat, run: nat)
    requires OneRunPrograms(programs, own) && DeadlocksAt(programs, turns, waiting)
    ensures a != b && a in programs && b in programs && Conflict(programs[a], programs[b], run)
  {
    var s := Played(programs, turns);
    PlayedOk(programs, turns);
    OneRunEachWhilePlayed(programs, own, s);
    a, b, run := StuckPair(s.ledger, Wants(programs, s), own, waiting);
    assert Owner(s.ledger, RunLock(run)) == Some(a) && Owner(s.ledger, Chain) == Some(b);
    assert AsksHolding(programs[a], s.taken[a], Chain, RunLock(run));
    assert AsksHolding(programs[b], s.taken[b], RunLock(run), Chain);
  }

  predicate FreeFor(l: Ledger, lock: Lock, tx: nat) {
    Owner(l, lock).Some? ==> Owner(l, lock).value == tx
  }

  predicate AllFree(programs: Programs, s: Progress, tx: nat, n: nat)
    requires tx in programs && n <= |programs[tx]|
  {
    forall i | 0 <= i < n :: FreeFor(s.ledger, programs[tx][i], tx)
  }

  /** A transaction can be granted its next locks one after the other if no other holds one of them. */
  lemma {:induction false} CanTake(programs: Programs, turns: seq<Turn>, s: Progress, tx: nat, n: nat)
    returns (more: seq<Turn>, t: Progress)
    requires ProgressOk(programs, s) && s == Played(programs, turns) && tx in s.ledger.open && s.taken[tx] <= n <= |programs[tx]|
    requires AllFree(programs, s, tx, n)
    ensures ProgressOk(programs, t) && t == Played(programs, more) && t.taken == s.taken[tx := n] && t.ledger.open.Keys == s.ledger.open.Keys
  {
    if s.taken[tx] == n {
      more, t := turns, s;
      return;
    }
    var init, before := CanTake(programs, turns, s, tx, n - 1);
    TakeOneMore(programs, s, before, tx, n);
    more := init + [Goes(tx)];
    assert more[..|more| - 1] == init;
    t := After(programs, before, Goes(tx));
  }

  lemma TakeOneMore(programs: Programs, s: Progress, before: Progress, tx: nat, n: nat)
    requires ProgressOk(programs, s) && ProgressOk(programs, before) && tx in s.ledger.open && s.taken[tx] < n <= |programs[tx]|
    requires before.taken == s.taken[tx := n - 1] && before.ledger.open.Keys == s.ledger.open.Keys
    requires FreeFor(s.ledger, programs[tx][n - 1], tx)
    ensures ProgressOk(programs, After(programs, before, Goes(tx)))
    ensures After(programs, before, Goes(tx)).taken == s.taken[tx := n]
    ensures After(programs, before, Goes(tx)).ledger.open.Keys == s.ledger.open.Keys
  {
    SameOwner(programs, s, before, tx, programs[tx][n - 1]);
    GrantKeepsProgress(programs, before, tx);
  }

  lemma SameOwner(programs: Programs, s: Progress, t: Progress, tx: nat, lock: Lock)
    requires ProgressOk(programs, s) && ProgressOk(programs, t) && tx in s.ledger.open && t.ledger.open.Keys == s.ledger.open.Keys
    requires tx in t.taken && t.taken == s.taken[tx := t.taken[tx]] && FreeFor(s.ledger, lock, tx)
    ensures FreeFor(t.ledger, lock, tx)
  {
  }

  /** Two programs deadlock if one can hold a run's lock asking for the chain, the other the chain asking
      for that lock, and what they hold by then does not overlap. */
  lemma ConflictDeadlocks(programs: Programs, a: nat, i: nat, b: nat, j: nat, run: nat)
    requires a != b && a in programs && b in programs
    requires AsksHolding(programs[a], i, Chain, RunLock(run)) && AsksHolding(programs[b], j, RunLock(run), Chain)
    requires forall lock | lock in programs[a][..i] :: lock !in programs[b][..j]
    ensures CanDeadlock(programs)
  {
    PlayedOk(programs, []);
    var first, s := CanTake(programs, [], Started(programs), a, i);
    forall k | 0 <= k < j ensures FreeFor(s.ledger, programs[b][k], b) {
      TakenByOne(programs, s, a, programs[b][k]);
      assert programs[b][k] in programs[b][..j];
    }
    var turns, t := CanTake(programs, first, s, b, j);
    BothWait(programs, t, a, b, run);
    assert DeadlocksAt(programs, turns, {a, b});
  }

  lemma TakenByOne(programs: Programs, s: Progress, a: nat, lock: Lock)
    requires ProgressOk(programs, s) && a in programs && s.taken == Started(programs).taken[a := s.taken[a]]
    requires lock !in programs[a][..s.taken[a]]
    ensures Owner(s.ledger, lock).None?
  {
  }

  lemma BothWait(programs: Programs, s: Progress, a: nat, b: nat, run: nat)
    requires ProgressOk(programs, s) && a != b && a in s.ledger.open && b in s.ledger.open
    requires AsksHolding(programs[a], s.taken[a], Chain, RunLock(run)) && AsksHolding(programs[b], s.taken[b], RunLock(run), Chain)
    ensures AllStuck(s.ledger, Wants(programs, s), {a, b})
  {
    assert Has(programs[a], s.taken[a], RunLock(run)) && Has(programs[b], s.taken[b], Chain);
    assert Owner(s.ledger, RunLock(run)) == Some(a) && Owner(s.ledger, Chain) == Some(b);
  }

  lemma OneRunConflictDeadlocks(programs: Programs, own: map<nat, nat>, a: nat, b: nat, run: nat)
    requires OneRunPrograms(programs, own) && a != b && a in programs && b in programs
    requires Conflict(programs[a], programs[b], run)
    ensures CanDeadlock(programs)
  {
    var i: nat :| AsksHolding(programs[a], i, Chain, RunLock(run));
    var j: nat :| AsksHolding(programs[b], j, RunLock(run), Chain);
    assert RunLock(run) in programs[a] && RunLock(run) in programs[b];
    forall lock | lock in programs[a][..i] ensures lock !in programs[b][..j] {
      assert lock in programs[a];
      assert lock == RunLock(run);
    }
    ConflictDeadlocks(programs, a, i, b, j, run);
  }

  /** Transactions of one run each can deadlock exactly when two of them take the run's lock and the chain
      lock in opposite orders. */
  lemma CanDeadlockIff(programs: Programs, own: map<nat, nat>)
    requires OneRunPrograms(programs, own)
    ensures CanDeadlock(programs) <==>
      exists a, b, run :: a != b && a in programs && b in programs && Conflict(programs[a], programs[b], run)
  {
    if CanDeadlock(programs) {
      var turns, waiting :| DeadlocksAt(programs, turns, waiting);
      var a, b, run := DeadlockNeedsConflict(programs, own, turns, waiting);
    }
    if a, b, run :| a != b && a in programs && b in programs && Conflict(programs[a], programs[b], run) {
      OneRunConflictDeadlocks(programs, own, a, b, run);
    }
  }

  // --- any programs ---

  /** `cut` says how many locks some of the transactions hold, no lock twice; each asks next for a lock that
      another of them holds. */
  ghost predicate IsCycle(programs: Programs, cut: map<nat, nat>) {
    && cut.Keys != {} && cut.Keys <= programs.Keys
    && (forall x {:trigger AsksAnother(programs, cut, x)} | x in cut :: AsksAnother(programs, cut, x))
    && forall x, y {:trigger Disjoint(programs, cut, x, y)} | x in cut && y in cut && x != y :: Disjoint(programs, cut, x, y)
  }

  /** The two hold no lock in common. */
  ghost predicate Disjoint(programs: Programs, cut: map<nat, nat>, x: nat, y: nat)
    requires x in cut && y in cut && cut.Keys <= programs.Keys
  {
    forall lock | Has(programs[x], cut[x], lock) :: !Has(programs[y], cut[y], lock)
  }

  lemma OwnerHas(programs: Programs, s: Progress, tx: nat, lock: Lock)
    requires ProgressOk(programs, s)
    ensures Owner(s.ledger, lock) == Some(tx) <==> tx in s.ledger.open && Has(programs[tx], s.taken[tx], lock)
  {
  }

  ghost predicate AsksAnother(programs: Programs, cut: map<nat, nat>, x: nat)
    requires x in cut && cut.Keys <= programs.Keys
  {
    && cut[x] < |programs[x]|
    && exists y :: y in cut && y != x && Has(programs[y], cut[y], programs[x][cut[x]])
  }

  lemma WaiterAsksAnother(programs: Programs, s: Progress, cut: map<nat, nat>, x: nat)
    requires ProgressOk(programs, s) && WaitsIn(s.ledger, Wants(programs, s), cut.Keys, x)
    requires cut.Keys <= programs.Keys && x in cut && forall y | y in cut :: cut[y] == s.taken[y]
    ensures AsksAnother(programs, cut, x)
  {
    var lock := programs[x][s.taken[x]];
    var y := Owner(s.ledger, lock).value;
    OwnerHas(programs, s, y, lock);
    assert y in cut && y != x && Has(programs[y], cut[y], programs[x][cut[x]]);
  }

  lemma StuckIsCycle(programs: Programs, s: Progress, waiting: set<nat>) returns (cut: map<nat, nat>)
    requires ProgressOk(programs, s) && AllStuck(s.ledger, Wants(programs, s), waiting)
    ensures IsCycle(programs, cut)
  {
    assert waiting <= s.ledger.open.Keys;
    cut := map x | x in waiting :: s.taken[x];
    CutIsCycle(programs, s, cut);
  }

  lemma CutIsCycle(programs: Programs, s: Progress, cut: map<nat, nat>)
    requires ProgressOk(programs, s) && AllStuck(s.ledger, Wants(programs, s), cut.Keys) && cut.Keys <= s.ledger.open.Keys
    requires forall x | x in cut :: cut[x] == s.taken[x]
    ensures IsCycle(programs, cut)
  {
    forall x | x in cut ensures AsksAnother(programs, cut, x) {
      assert WaitsIn(s.ledger, Wants(programs, s), cut.Keys, x);
      WaiterAsksAnother(programs, s, cut, x);
    }
    forall x, y | x in cut && y in cut && x != y ensures Disjoint(programs, cut, x, y) {
      OpenAreDisjoint(programs, s, cut, x, y);
    }
  }

  lemma OpenAreDisjoint(programs: Programs, s: Progress, cut: map<nat, nat>, x: nat, y: nat)
    requires ProgressOk(programs, s) && x in s.ledger.open && y in s.ledger.open && x != y
    requires x in cut && y in cut && cut.Keys <= programs.Keys && cut[x] == s.taken[x] && cut[y] == s.taken[y]
    ensures Disjoint(programs, cut, x, y)
  {
    forall lock | Has(programs[x], cut[x], lock) ensures !Has(programs[y], cut[y], lock) {
      OwnerHas(programs, s, x, lock);
      OwnerHas(programs, s, y, lock);
    }
  }

  predicate HoldsCut(programs: Programs, cut: map<nat, nat>, s: Progress, done: set<nat>) {
    && s.ledger.open.Keys == s.taken.Keys == programs.Keys
    && forall x | x in s.taken :: s.taken[x] == if x in done && x in cut then cut[x] else 0
  }

  lemma {:induction false} TakeCut(programs: Programs, cut: map<nat, nat>, done: set<nat>) returns (turns: seq<Turn>, s: Progress)
    requires IsCycle(programs, cut) && done <= cut.Keys
    ensures s == Played(programs, turns) && ProgressOk(programs, s) && HoldsCut(programs, cut, s, done)
    decreases |done|
  {
    if done == {} {
      turns, s := [], Started(programs);
      PlayedOk(programs, []);
      return;
    }
    var x :| x in done;
    turns, s := TakeCut(programs, cut, done - {x});
    CutIsFree(programs, cut, s, done - {x}, x);
    turns, s := CanTake(programs, turns, s, x, cut[x]);
  }

  lemma CutIsFree(programs: Programs, cut: map<nat, nat>, s: Progress, done: set<nat>, x: nat)
    requires IsCycle(programs, cut) && ProgressOk(programs, s) && HoldsCut(programs, cut, s, done)
    requires x in cut && x !in done && done <= cut.Keys
    ensures cut[x] < |programs[x]| && AllFree(programs, s, x, cut[x])
  {
    assert AsksAnother(programs, cut, x);
    forall i | 0 <= i < cut[x] ensures FreeFor(s.ledger, programs[x][i], x) {
      if Owner(s.ledger, programs[x][i]).Some? {
        NotHeldByOther(programs, cut, s, done, x, i, Owner(s.ledger, programs[x][i]).value);
      }
    }
  }

  lemma NotHeldByOther(programs: Programs, cut: map<nat, nat>, s: Progress, done: set<nat>, x: nat, i: nat, y: nat)
    requires IsCycle(programs, cut) && ProgressOk(programs, s) && HoldsCut(programs, cut, s, done)
    requires x in cut && done <= cut.Keys && i < cut[x] <= |programs[x]|
    ensures Owner(s.ledger, programs[x][i]) == Some(y) ==> y == x
  {
    var lock := programs[x][i];
    OwnerHas(programs, s, y, lock);
    assert Has(programs[x], cut[x], lock) by { assert programs[x][..cut[x]][i] == lock; }
    if y in done && y != x {
      assert Disjoint(programs, cut, x, y);
    }
  }

  lemma WaitsInCycle(programs: Programs, cut: map<nat, nat>, s: Progress, x: nat)
    requires IsCycle(programs, cut) && ProgressOk(programs, s) && HoldsCut(programs, cut, s, cut.Keys) && x in cut
    ensures WaitsIn(s.ledger, Wants(programs, s), cut.Keys, x)
  {
    assert AsksAnother(programs, cut, x);
    var y :| y in cut && y != x && Has(programs[y], cut[y], programs[x][cut[x]]);
    OwnerHas(programs, s, y, programs[x][cut[x]]);
  }

  lemma CycleDeadlocks(programs: Programs, cut: map<nat, nat>)
    requires IsCycle(programs, cut)
    ensures CanDeadlock(programs)
  {
    var turns, s := TakeCut(programs, cut, cut.Keys);
    forall x | x in cut.Keys ensures WaitsIn(s.ledger, Wants(programs, s), cut.Keys, x) {
      WaitsInCycle(programs, cut, s, x);
    }
    assert DeadlocksAt(programs, turns, cut.Keys);
  }

  /** Any programs can deadlock if and only if some of them form a cycle of asking while holding. */
  lemma CycleIffCanDeadlock(programs: Programs)
    ensures CanDeadlock(programs) <==> exists cut :: IsCycle(programs, cut)
  {
    if CanDeadlock(programs) {
      var turns, waiting :| DeadlocksAt(programs, turns, waiting);
      PlayedOk(programs, turns);
      var cut := StuckIsCycle(programs, Played(programs, turns), waiting);
    }
    if cut :| IsCycle(programs, cut) {
      CycleDeadlocks(programs, cut);
    }
  }

  // --- beside audited emits ---

  function Emitter(run: nat): seq<Lock> {
    [RunLock(run), Chain]
  }

  predicate AreEmitters(programs: Programs) {
    forall tx | tx in programs :: |programs[tx]| == 2 && programs[tx][0].RunLock? && programs[tx][1] == Chain
  }

  /** Whatever audited emits of whatever runs go on beside them, these transactions never deadlock. */
  ghost predicate SafeWithEmitters(programs: Programs) {
    forall emitters | AreEmitters(emitters) && emitters.Keys !! programs.Keys :: !CanDeadlock(programs + emitters)
  }

  /** The program asks for a run's lock while it holds the chain lock. */
  ghost predicate AsksRunHoldingChain(p: seq<Lock>) {
    exists run :: Asks(p, RunLock(run), Chain)
  }

  lemma Fresh(programs: Programs) returns (tx: nat)
    ensures tx !in programs
  {
    var keys := programs.Keys;
    tx := 0;
    while keys != {}
      invariant forall k | k in programs :: k in keys || k < tx
      decreases keys
    {
      var k :| k in keys;
      keys := keys - {k};
      tx := if k >= tx then k + 1 else tx;
    }
  }

  lemma AskingDeadlocksWithEmitter(programs: Programs, b: nat, run: nat)
    requires b in programs && Asks(programs[b], RunLock(run), Chain)
    ensures !SafeWithEmitters(programs)
  {
    var a := Fresh(programs);
    var emitters := map[a := Emitter(run)];
    var both := programs + emitters;
    assert both[a] == Emitter(run) && both[b] == programs[b];
    EmitterDeadlocks(both, a, b, run);
    assert AreEmitters(emitters) && emitters.Keys !! programs.Keys;
  }

  lemma EmitterDeadlocks(programs: Programs, a: nat, b: nat, run: nat)
    requires a != b && a in programs && b in programs && programs[a] == Emitter(run) && Asks(programs[b], RunLock(run), Chain)
    ensures CanDeadlock(programs)
  {
    var j: nat :| AsksHolding(programs[b], j, RunLock(run), Chain);
    assert programs[a][..1] == [RunLock(run)];
    ConflictDeadlocks(programs, a, 1, b, j, run);
  }

  /** Transactions of one run each never deadlock beside audited emits exactly when none of them asks for a
      run's lock while it holds the chain lock. */
  lemma SafeWithEmittersIff(programs: Programs, own: map<nat, nat>)
    requires OneRunPrograms(programs, own)
    ensures SafeWithEmitters(programs) <==> forall tx | tx in programs :: !AsksRunHoldingChain(programs[tx])
  {
    if b :| b in programs && AsksRunHoldingChain(programs[b]) {
      var run :| Asks(programs[b], RunLock(run), Chain);
      AskingDeadlocksWithEmitter(programs, b, run);
    } else {
      forall emitters | AreEmitters(emitters) && emitters.Keys !! programs.Keys ensures !CanDeadlock(programs + emitters) {
        EmittersAddNoDeadlock(programs, own, emitters);
      }
    }
  }

  lemma EmittersAddNoDeadlock(programs: Programs, own: map<nat, nat>, emitters: Programs)
    requires OneRunPrograms(programs, own) && AreEmitters(emitters) && emitters.Keys !! programs.Keys
    requires forall tx | tx in programs :: !AsksRunHoldingChain(programs[tx])
    ensures !CanDeadlock(programs + emitters)
  {
    var both := programs + emitters;
    var owns := own + map tx | tx in emitters :: emitters[tx][0].run;
    assert OneRunPrograms(both, owns);
    CanDeadlockIff(both, owns);
    forall a, b, run | a in both && b in both ensures !Conflict(both[a], both[b], run) {
      if b in emitters {
        assert emitters[b][..1] == [RunLock(emitters[b][0].run)];
      } else {
        assert both[b] == programs[b];
      }
    }
  }

  // --- a transaction that takes the locks of several runs ---

  lemma HoldingEmitterWantsChain(programs: Programs, s: Progress, e: nat, lock: Lock)
    requires ProgressOk(programs, s) && Owner(s.ledger, lock) == Some(e) && e in Wants(programs, s)
    requires |programs[e]| == 2 && programs[e][0].RunLock? && programs[e][1] == Chain
    ensures lock.RunLock? && Wants(programs, s)[e] == Chain
  {
    assert Has(programs[e], s.taken[e], lock);
    assert s.taken[e] == 1 && programs[e][..1] == [programs[e][0]];
  }

  /** If one transaction and audited emits wait for one another, one of them waits for the chain. */
  lemma SomeWaitForChain(programs: Programs, s: Progress, tx: nat, waiting: set<nat>) returns (c: nat)
    requires ProgressOk(programs, s) && AllStuck(s.ledger, Wants(programs, s), waiting)
    requires forall e | e in programs && e != tx :: |programs[e]| == 2 && programs[e][0].RunLock? && programs[e][1] == Chain
    ensures c in waiting && Wants(programs, s)[c] == Chain
  {
    var wants := Wants(programs, s);
    c :| c in waiting;
    if wants[c].RunLock? && c == tx {
      var e := Owner(s.ledger, wants[c]).value;
      assert WaitsIn(s.ledger, wants, waiting, c) && WaitsIn(s.ledger, wants, waiting, e);
      HoldingEmitterWantsChain(programs, s, e, wants[c]);
      c := e;
    } else if wants[c].RunLock? {
      var e := Owner(s.ledger, wants[c]).value;
      assert WaitsIn(s.ledger, wants, waiting, c) && WaitsIn(s.ledger, wants, waiting, e);
      if e != tx {
        HoldingEmitterWantsChain(programs, s, e, wants[c]);
        c := e;
      } else if wants[e].Chain? {
        c := e;
      } else {
        var f := Owner(s.ledger, wants[e]).value;
        assert WaitsIn(s.ledger, wants, waiting, f);
        HoldingEmitterWantsChain(programs, s, f, wants[e]);
        c := f;
      }
    }
  }

  lemma StuckMeansAsking(programs: Programs, s: Progress, tx: nat, waiting: set<nat>)
    requires ProgressOk(programs, s) && AllStuck(s.ledger, Wants(programs, s), waiting)
    requires forall e | e in programs && e != tx :: |programs[e]| == 2 && programs[e][0].RunLock? && programs[e][1] == Chain
    ensures tx in programs && AsksRunHoldingChain(programs[tx])
  {
    var wants := Wants(programs, s);
    var c := SomeWaitForChain(programs, s, tx, waiting);
    assert WaitsIn(s.ledger, wants, waiting, c);
    var d := s.ledger.chainOwner.value;
    assert WaitsIn(s.ledger, wants, waiting, d) && Owner(s.ledger, Chain) == Some(d);
    if d != tx {
      HoldingEmitterWantsChain(programs, s, d, Chain);
    }
    var p, n := programs[tx], s.taken[tx];
    assert Has(p, n, Chain) && Owner(s.ledger, p[n]) != Some(tx);
    assert AsksHolding(p, n, p[n], Chain);
    assert Asks(p, RunLock(p[n].run), Chain);
  }

  /** Whatever runs' locks a transaction takes: it never deadlocks beside audited emits exactly when it never
      asks for a run's lock while it holds the chain lock. */
  lemma OneIsSafeIff(tx: nat, p: seq<Lock>)
    ensures SafeWithEmitters(map[tx := p]) <==> !AsksRunHoldingChain(p)
  {
    var programs: Programs := map[tx := p];
    if AsksRunHoldingChain(p) {
      var run :| Asks(p, RunLock(run), Chain);
      AskingDeadlocksWithEmitter(programs, tx, run);
    } else {
      forall emitters: Programs | AreEmitters(emitters) && emitters.Keys !! programs.Keys ensures !CanDeadlock(programs + emitters) {
        OneAmongEmitters(programs + emitters, tx);
      }
    }
  }

  lemma OneAmongEmitters(programs: Programs, tx: nat)
    requires tx in programs && !AsksRunHoldingChain(programs[tx])
    requires forall e | e in programs && e != tx :: |programs[e]| == 2 && programs[e][0].RunLock? && programs[e][1] == Chain
    ensures !CanDeadlock(programs)
  {
    if turns, waiting :| DeadlocksAt(programs, turns, waiting) {
      PlayedOk(programs, turns);
      StuckMeansAsking(programs, Played(programs, turns), tx, waiting);
    }
  }

  // --- the check for stalled runs ---

  /** It emits one audited event for each run it flags, all in one transaction. */
  function StallCheck(runs: seq<nat>): seq<Lock> {
    if runs == [] then [] else StallCheck(runs[..|runs| - 1]) + Emitter(runs[|runs| - 1])
  }

  lemma {:induction false} StallCheckLocks(runs: seq<nat>, lock: Lock)
    ensures |StallCheck(runs)| == 2 * |runs|
    ensures lock in StallCheck(runs) <==> runs != [] && (lock.RunLock? ==> lock.run in runs)
  {
    if runs != [] {
      StallCheckLocks(runs[..|runs| - 1], lock);
    }
  }

  lemma StallCheckAsksHolding(runs: seq<nat>)
    requires |runs| >= 2 && forall i, j | 0 <= i < j < |runs| :: runs[i] != runs[j]
    ensures AsksRunHoldingChain(StallCheck(runs))
  {
    var p, m := StallCheck(runs), |runs| - 1;
    StallCheckLocks(runs[..m], Chain);
    StallCheckLocks(runs[..m], RunLock(runs[m]));
    assert p[..2 * m] == StallCheck(runs[..m]);
    assert AsksHolding(p, 2 * m, RunLock(runs[m]), Chain);
    assert Asks(p, RunLock(runs[m]), Chain);
  }

  lemma OneEmitDoesNot(runs: seq<nat>)
    requires |runs| <= 1
    ensures !AsksRunHoldingChain(StallCheck(runs))
  {
    if |runs| == 1 {
      assert runs[..0] == [] && StallCheck([]) == [];
      assert StallCheck(runs) == Emitter(runs[0]) && StallCheck(runs)[..0] == [];
    }
  }

  /** It never deadlocks beside audited emits exactly when it flags at most one run. */
  lemma StallCheckIsSafeIff(tx: nat, runs: seq<nat>)
    requires forall i, j | 0 <= i < j < |runs| :: runs[i] != runs[j]
    ensures SafeWithEmitters(map[tx := StallCheck(runs)]) <==> |runs| <= 1
  {
    OneIsSafeIff(tx, StallCheck(runs));
    if |runs| >= 2 {
      StallCheckAsksHolding(runs);
    } else {
      OneEmitDoesNot(runs);
    }
  }
}
