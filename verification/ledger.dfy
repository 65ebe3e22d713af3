/** Concurrent transactions that emit events and write audit rows under transaction-scoped locks, in
    any interleaving, with commits and aborts. */
module Ledger {
  import opened Vocabulary
  import opened AuditChain
  import opened AuditArchive

  datatype EventRow = EventRow(run: nat, sequence: nat)

  /** What a transaction has written and not committed yet. */
  datatype Pending = Pending(audit: seq<Row>, events: seq<EventRow>)

  /** `nextId` is the audit table's id counter; it never goes back. */
  datatype Ledger = Ledger(
    audit: seq<Row>, events: seq<EventRow>, nextId: nat,
    chainOwner: Option<nat>, runOwner: map<nat, nat>, open: map<nat, Pending>)

  datatype Step =
    | Begin(tx: nat)
    | LockRun(tx: nat, run: nat)
    | LockChain(tx: nat)
    | InsertEvent(tx: nat, run: nat)
    | WriteAudit(tx: nat, content: Content)
    | Commit(tx: nat)
    | Abort(tx: nat)

  const EMPTY: Ledger := Ledger([], [], 0, None, map[], map[])

  // --- what a query sees ---

  function VisibleAudit(l: Ledger, tx: nat): seq<Row>
    requires tx in l.open
  {
    l.audit + l.open[tx].audit
  }

  function VisibleEvents(l: Ledger, tx: nat): seq<EventRow>
    requires tx in l.open
  {
    l.events + l.open[tx].events
  }

  /** The row with the highest id. */
  function LatestById(rows: seq<Row>): (latest: Option<Row>)
    ensures latest.None? <==> rows == []
  {
    if rows == [] then None
    else
      var last := rows[|rows| - 1];
      var rest := LatestById(rows[..|rows| - 1]);
      if rest.Some? && rest.value.id > last.id then rest else Some(last)
  }

  function PreviousHash(rows: seq<Row>): Hash {
    match LatestById(rows)
    case None => Genesis
    case Some(row) => row.entryHash
  }

  function MaxSequence(events: seq<EventRow>, run: nat): nat {
    if events == [] then 0
    else
      var last := events[|events| - 1];
      var rest := MaxSequence(events[..|events| - 1], run);
      if last.run == run && last.sequence > rest then last.sequence else rest
  }

  // --- steps ---

  predicate Enabled(l: Ledger, step: Step) {
    match step
    case Begin(tx) => tx !in l.open
    case LockRun(tx, run) => tx in l.open && (run in l.runOwner ==> l.runOwner[run] == tx)
    case LockChain(tx) => tx in l.open && (l.chainOwner.Some? ==> l.chainOwner == Some(tx))
    case InsertEvent(tx, run) => tx in l.open && run in l.runOwner && l.runOwner[run] == tx
    case WriteAudit(tx, _) => tx in l.open && l.chainOwner == Some(tx)
    case Commit(tx) => tx in l.open
    case Abort(tx) => tx in l.open
  }

  /** Commit and abort release every lock of the transaction. */
  function Released(l: Ledger, tx: nat): Ledger {
    l.(chainOwner := if l.chainOwner == Some(tx) then None else l.chainOwner,
       runOwner := map run | run in l.runOwner && l.runOwner[run] != tx :: l.runOwner[run],
       open := l.open - {tx})
  }

  function NewRow(l: Ledger, tx: nat, content: Content): Row
    requires tx in l.open
  {
    var prev := PreviousHash(VisibleAudit(l, tx));
    Row(l.nextId, content, RecomputeEntryHash(content, prev), prev)
  }

  function Apply(l: Ledger, step: Step): Ledger
    requires Enabled(l, step)
  {
    match step
    case Begin(tx) => l.(open := l.open[tx := Pending([], [])])
    case LockRun(tx, run) => l.(runOwner := l.runOwner[run := tx])
    case LockChain(tx) => l.(chainOwner := Some(tx))
    case InsertEvent(tx, run) =>
      var row := EventRow(run, MaxSequence(VisibleEvents(l, tx), run) + 1);
      l.(open := l.open[tx := l.open[tx].(events := l.open[tx].events + [row])])
    case WriteAudit(tx, content) =>
      l.(open := l.open[tx := l.open[tx].(audit := l.open[tx].audit + [NewRow(l, tx, content)])], nextId := l.nextId + 1)
    case Commit(tx) => Released(l.(audit := VisibleAudit(l, tx), events := VisibleEvents(l, tx)), tx)
    case Abort(tx) => Released(l, tx)
  }

  // --- the audit chain ---

  predicate IdsBelow(rows: seq<Row>, bound: nat) {
    forall i | 0 <= i < |rows| :: rows[i].id < bound
  }

  lemma {:induction false} LatestIsLast(rows: seq<Row>)
    requires UniqueIds(rows)
    ensures PreviousHash(rows) == Head(rows)
    ensures rows != [] ==> LatestById(rows) == Some(rows[|rows| - 1])
  {
    if |rows| > 1 {
      LatestIsLast(rows[..|rows| - 1]);
    }
  }

  /** What is visible under the chain lock is a linked log with increasing ids; nobody else has
      uncommitted audit rows. */
  ghost predicate ChainOk(l: Ledger) {
    && Linked(l.audit) && UniqueIds(l.audit) && IdsBelow(l.audit, l.nextId)
    && (l.chainOwner.Some? ==> l.chainOwner.value in l.open)
    && (forall tx | tx in l.open && l.open[tx].audit != [] :: l.chainOwner == Some(tx))
    && (forall tx | tx in l.open && l.chainOwner == Some(tx) :: VisibleChainOk(l, tx))
  }

  ghost predicate VisibleChainOk(l: Ledger, tx: nat)
    requires tx in l.open
  {
    Linked(VisibleAudit(l, tx)) && UniqueIds(VisibleAudit(l, tx)) && IdsBelow(VisibleAudit(l, tx), l.nextId)
  }

  /** The writer sees its new row linked to the rows it saw before. */
  lemma WriteExtendsView(l: Ledger, tx: nat, content: Content)
    requires ChainOk(l) && Enabled(l, WriteAudit(tx, content))
    ensures VisibleChainOk(Apply(l, WriteAudit(tx, content)), tx)
  {
    var after := Apply(l, WriteAudit(tx, content));
    var rows := VisibleAudit(l, tx);
    assert VisibleChainOk(l, tx);
    LatestIsLast(rows);
    LinkedAppend(rows, NewRow(l, tx, content));
    assert VisibleAudit(after, tx) == rows + [NewRow(l, tx, content)];
  }

  lemma WriteKeepsChain(l: Ledger, tx: nat, content: Content)
    requires ChainOk(l) && Enabled(l, WriteAudit(tx, content))
    ensures ChainOk(Apply(l, WriteAudit(tx, content)))
  {
    WriteExtendsView(l, tx, content);
  }

  lemma LockKeepsChain(l: Ledger, tx: nat)
    requires ChainOk(l) && Enabled(l, LockChain(tx))
    ensures ChainOk(Apply(l, LockChain(tx)))
  {
  }

  lemma StepKeepsChain(l: Ledger, step: Step)
    requires ChainOk(l) && Enabled(l, step)
    ensures ChainOk(Apply(l, step))
  {
    match step
    case WriteAudit(tx, content) => WriteKeepsChain(l, tx, content);
    case LockChain(tx) => LockKeepsChain(l, tx);
    case Commit(tx) => CommitKeepsChain(l, tx);
    case Abort(tx) =>
      var after := Apply(l, step);
      forall t | t in after.open && after.chainOwner == Some(t) ensures VisibleChainOk(after, t) {
        assert VisibleChainOk(l, t) && VisibleAudit(after, t) == VisibleAudit(l, t);
      }
    case _ =>
      var after := Apply(l, step);
      forall t | t in after.open && after.chainOwner == Some(t) ensures VisibleChainOk(after, t) {
        assert VisibleChainOk(l, t) && VisibleAudit(after, t) == VisibleAudit(l, t);
      }
  }

  lemma CommitKeepsChain(l: Ledger, tx: nat)
    requires ChainOk(l) && tx in l.open
    ensures ChainOk(Apply(l, Commit(tx)))
  {
    var after := Apply(l, Commit(tx));
    if l.chainOwner == Some(tx) {
      assert VisibleChainOk(l, tx);
    } else {
      assert after.audit == l.audit;
      forall t | t in after.open && after.chainOwner == Some(t) ensures VisibleChainOk(after, t) {
        assert VisibleChainOk(l, t) && VisibleAudit(after, t) == VisibleAudit(l, t);
      }
    }
  }

  // --- the event sequences ---

  /** The sequence numbers of one run's events, in the order of the rows. */
  function SequencesOf(events: seq<EventRow>, run: nat): seq<nat> {
    if events == [] then []
    else
      var last := events[|events| - 1];
      SequencesOf(events[..|events| - 1], run) + if last.run == run then [last.sequence] else []
  }

  /** 1, 2, 3 and so on, without a gap or a repetition. */
  predicate Gapless(s: seq<nat>) {
    forall i | 0 <= i < |s| :: s[i] == i + 1
  }

  lemma {:induction false} SequencesOfConcat(a: seq<EventRow>, b: seq<EventRow>, run: nat)
    ensures SequencesOf(a + b, run) == SequencesOf(a, run) + SequencesOf(b, run)
    decreases |b|
  {
    if b == [] {
      assert a + b == a;
    } else {
      var m := |b| - 1;
      assert (a + b)[..|a + b| - 1] == a + b[..m];
      SequencesOfConcat(a, b[..m], run);
    }
  }

  lemma {:induction false} MaxOfGapless(events: seq<EventRow>, run: nat)
    requires Gapless(SequencesOf(events, run))
    ensures MaxSequence(events, run) == |SequencesOf(events, run)|
  {
    if events != [] {
      var init := events[..|events| - 1];
      var s := SequencesOf(events, run);
      assert SequencesOf(init, run) <= s;
      assert Gapless(SequencesOf(init, run)) by {
        forall i | 0 <= i < |SequencesOf(init, run)| ensures SequencesOf(init, run)[i] == i + 1 {
          assert s[i] == i + 1;
        }
      }
      MaxOfGapless(init, run);
      if events[|events| - 1].run == run {
        assert s[|s| - 1] == |s|;
      }
    }
  }

  /** Every run's committed events are numbered from one; a transaction's own uncommitted ones go on
      from there, and only the holder of the run's lock has any. */
  ghost predicate SequencesOk(l: Ledger) {
    && (forall run | run in l.runOwner :: l.runOwner[run] in l.open)
    && (forall run :: Gapless(SequencesOf(l.events, run)))
    && (forall tx, run | tx in l.open :: PendingOk(l, tx, run))
  }

  ghost predicate PendingOk(l: Ledger, tx: nat, run: nat)
    requires tx in l.open
  {
    && Gapless(SequencesOf(VisibleEvents(l, tx), run))
    && (SequencesOf(l.open[tx].events, run) != [] ==> run in l.runOwner && l.runOwner[run] == tx)
  }

  lemma InsertKeepsSequences(l: Ledger, tx: nat, run: nat)
    requires SequencesOk(l) && Enabled(l, InsertEvent(tx, run))
    ensures SequencesOk(Apply(l, InsertEvent(tx, run)))
    ensures var next := |SequencesOf(VisibleEvents(l, tx), run)| + 1;
      VisibleEvents(Apply(l, InsertEvent(tx, run)), tx) == VisibleEvents(l, tx) + [EventRow(run, next)]
  {
    var after := Apply(l, InsertEvent(tx, run));
    assert PendingOk(l, tx, run);
    MaxOfGapless(VisibleEvents(l, tx), run);
    var row := EventRow(run, MaxSequence(VisibleEvents(l, tx), run) + 1);
    assert VisibleEvents(after, tx) == VisibleEvents(l, tx) + [row];
    forall t, r | t in after.open ensures PendingOk(after, t, r) {
      assert PendingOk(l, t, r);
      if t == tx {
        SequencesOfConcat(VisibleEvents(l, tx), [row], r);
        SequencesOfConcat(l.open[tx].events, [row], r);
        OneEvent(row, r);
      }
    }
  }

  lemma OneEvent(row: EventRow, run: nat)
    ensures SequencesOf([row], run) == if row.run == run then [row.sequence] else []
  {
  }

  lemma OneIsEmpty(a: seq<nat>, b: seq<nat>, c: seq<nat>)
    requires Gapless(a + b) && Gapless(a + c) && (b == [] || c == [])
    ensures Gapless(a + b + c)
  {
    if b == [] { assert a + b + c == a + c; } else { assert a + b + c == a + b; }
  }

  lemma CommitKeepsSequences(l: Ledger, tx: nat)
    requires SequencesOk(l) && tx in l.open
    ensures SequencesOk(Apply(l, Commit(tx)))
  {
    var after := Apply(l, Commit(tx));
    forall run ensures Gapless(SequencesOf(after.events, run)) {
      assert PendingOk(l, tx, run);
    }
    forall t, run | t in after.open ensures PendingOk(after, t, run) {
      assert PendingOk(l, t, run) && PendingOk(l, tx, run);
      SequencesOfConcat(l.events, l.open[tx].events, run);
      SequencesOfConcat(after.events, l.open[t].events, run);
      SequencesOfConcat(l.events, l.open[t].events, run);
      OneIsEmpty(SequencesOf(l.events, run), SequencesOf(l.open[tx].events, run), SequencesOf(l.open[t].events, run));
    }
  }

  lemma AbortKeepsSequences(l: Ledger, tx: nat)
    requires SequencesOk(l) && tx in l.open
    ensures SequencesOk(Apply(l, Abort(tx)))
  {
    var after := Apply(l, Abort(tx));
    forall t, run | t in after.open ensures PendingOk(after, t, run) {
      assert PendingOk(l, t, run);
    }
  }

  lemma StepKeepsSequences(l: Ledger, step: Step)
    requires SequencesOk(l) && Enabled(l, step)
    ensures SequencesOk(Apply(l, step))
  {
    match step
    case InsertEvent(tx, run) => InsertKeepsSequences(l, tx, run);
    case Commit(tx) => CommitKeepsSequences(l, tx);
    case Abort(tx) => AbortKeepsSequences(l, tx);
    case Begin(tx) => BeginKeepsSequences(l, tx);
    case _ =>
      var after := Apply(l, step);
      forall t, run | t in after.open ensures PendingOk(after, t, run) {
        assert PendingOk(l, t, run);
      }
  }

  lemma BeginKeepsSequences(l: Ledger, tx: nat)
    requires SequencesOk(l) && tx !in l.open
    ensures SequencesOk(Apply(l, Begin(tx)))
  {
    var after := Apply(l, Begin(tx));
    assert VisibleEvents(after, tx) == l.events;
    forall t, run | t in l.open ensures PendingOk(after, t, run) {
      assert PendingOk(l, t, run);
    }
  }

  // --- every interleaving ---

  ghost predicate LedgerOk(l: Ledger) {
    ChainOk(l) && SequencesOk(l)
  }

  /** Any interleaving; a step that must wait for a lock does not happen. */
  function Interleave(l: Ledger, steps: seq<Step>): Ledger
    decreases |steps|
  {
    if steps == [] then l
    else Interleave(if Enabled(l, steps[0]) then Apply(l, steps[0]) else l, steps[1..])
  }

  lemma {:induction false} InterleaveKeepsOk(l: Ledger, steps: seq<Step>)
    requires LedgerOk(l)
    ensures LedgerOk(Interleave(l, steps))
    decreases |steps|
  {
    if steps != [] {
      if Enabled(l, steps[0]) {
        StepKeepsChain(l, steps[0]);
        StepKeepsSequences(l, steps[0]);
        InterleaveKeepsOk(Apply(l, steps[0]), steps[1..]);
      } else {
        InterleaveKeepsOk(l, steps[1..]);
      }
    }
  }

  /** After any interleaving of writers, commits and aborts the committed audit log is one linked chain
      in id order, and every run's committed events are numbered 1, 2, 3, ... in commit order. */
  lemma CommittedLogsAreSound(steps: seq<Step>, run: nat)
    ensures var l := Interleave(EMPTY, steps);
      Linked(l.audit) && UniqueIds(l.audit) && Gapless(SequencesOf(l.events, run))
  {
    InterleaveKeepsOk(EMPTY, steps);
  }

  /** The committed audit log starts with `base`, and everything after it, committed or not, has an id
      of at least `bound`. */
  ghost predicate Extends(l: Ledger, base: seq<Row>, bound: nat) {
    && base <= l.audit && bound <= l.nextId
    && (forall i | |base| <= i < |l.audit| :: bound <= l.audit[i].id)
    && (forall tx, i | tx in l.open && 0 <= i < |l.open[tx].audit| :: bound <= l.open[tx].audit[i].id)
  }

  lemma {:induction false} InterleaveExtends(l: Ledger, steps: seq<Step>, base: seq<Row>, bound: nat)
    requires Extends(l, base, bound)
    ensures Extends(Interleave(l, steps), base, bound)
    decreases |steps|
  {
    if steps != [] {
      InterleaveExtends(if Enabled(l, steps[0]) then Apply(l, steps[0]) else l, steps[1..], base, bound);
    }
  }

  /** The committed audit log only ever grows at its end. The ids an aborted writer has taken are left
      out for good: the log keeps id gaps, and stays linked across them. */
  lemma AbortedIdsStayUnused(l: Ledger, tx: nat, steps: seq<Step>, i: nat)
    requires LedgerOk(l) && tx in l.open && i < |l.open[tx].audit|
    ensures var after := Interleave(Apply(l, Abort(tx)), steps);
      l.audit <= after.audit && Linked(after.audit) && !HasRow(after.audit, l.open[tx].audit[i].id)
  {
    var aborted := Apply(l, Abort(tx));
    StepKeepsChain(l, Abort(tx));
    StepKeepsSequences(l, Abort(tx));
    InterleaveKeepsOk(aborted, steps);
    assert Extends(aborted, l.audit, l.nextId);
    InterleaveExtends(aborted, steps, l.audit, l.nextId);
    assert VisibleChainOk(l, tx);
    assert VisibleAudit(l, tx)[|l.audit| + i] == l.open[tx].audit[i];
    assert forall k | 0 <= k < |l.audit| :: VisibleAudit(l, tx)[k] == l.audit[k];
  }

  /** The lock is needed: two rows written against the same last row cannot both be in the chain. */
  lemma UnlockedWritersFork(rows: seq<Row>, a: Row, b: Row)
    requires Linked(rows) && RowOk(a, Head(rows)) && RowOk(b, Head(rows))
    ensures Linked(rows + [a]) && !Linked(rows + [a] + [b])
  {
    LinkedAppend(rows, a);
    LinkedAppend(rows + [a], b);
    HeadDepth(rows);
    HeadDepth(rows + [a]);
  }
}
