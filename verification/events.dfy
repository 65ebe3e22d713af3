/** Emitting an event: one numbered row under the run's lock, then, if audited, one chained audit row
    under the chain lock, all in the caller's transaction. */
module Events {
  import opened Vocabulary
  import opened AuditChain
  import opened Ledger

  /** The session now sees one more audit row, with a new id and linked to the last row it saw before. */
  predicate WroteRow(before: Ledger, after: Ledger, tx: nat, row: Row) {
    && tx in before.open && tx in after.open
    && VisibleAudit(after, tx) == VisibleAudit(before, tx) + [row]
    && row.id == before.nextId && RowOk(row, Head(VisibleAudit(before, tx)))
  }

  /** Besides, nothing is committed and no other session is touched. */
  predicate Wrote(before: Ledger, after: Ledger, tx: nat, row: Row) {
    && WroteRow(before, after, tx, row)
    && after.audit == before.audit && after.events == before.events && after.runOwner == before.runOwner
    && after.open == before.open[tx := after.open[tx]] && after.open[tx].events == before.open[tx].events
  }

  lemma WriteEffect(l: Ledger, tx: nat, content: Content)
    requires LedgerOk(l) && Enabled(l, LockChain(tx))
    ensures var locked := Apply(l, LockChain(tx));
      && Enabled(locked, WriteAudit(tx, content))
      && LedgerOk(Apply(locked, WriteAudit(tx, content)))
      && Wrote(l, Apply(locked, WriteAudit(tx, content)), tx, NewRow(locked, tx, content))
  {
    var locked := Apply(l, LockChain(tx));
    StepKeepsChain(l, LockChain(tx));
    StepKeepsSequences(l, LockChain(tx));
    StepKeepsChain(locked, WriteAudit(tx, content));
    StepKeepsSequences(locked, WriteAudit(tx, content));
    RowIsWritten(locked, tx, content);
  }

  lemma RowIsWritten(locked: Ledger, tx: nat, content: Content)
    requires ChainOk(locked) && Enabled(locked, WriteAudit(tx, content))
    ensures Wrote(locked, Apply(locked, WriteAudit(tx, content)), tx, NewRow(locked, tx, content))
  {
    assert VisibleChainOk(locked, tx);
    LatestIsLast(VisibleAudit(locked, tx));
  }

  /** The database as its sessions use it; a method runs once the locks it takes are granted. */
  class Sessions {
    var ledger: Ledger

    constructor ()
      ensures ledger == EMPTY && LedgerOk(ledger)
    {
      ledger := EMPTY;
    }

    /** Takes the run's lock and returns the number of its next event. */
    method NextSequence(tx: nat, run: nat) returns (sequence: nat)
      requires LedgerOk(ledger) && Enabled(ledger, LockRun(tx, run))
      modifies this
      ensures LedgerOk(ledger) && ledger == old(ledger).(runOwner := old(ledger).runOwner[run := tx])
      ensures sequence == |SequencesOf(VisibleEvents(ledger, tx), run)| + 1
    {
      StepKeepsChain(ledger, LockRun(tx, run));
      StepKeepsSequences(ledger, LockRun(tx, run));
      ledger := Apply(ledger, LockRun(tx, run));
      assert PendingOk(ledger, tx, run);
      MaxOfGapless(VisibleEvents(ledger, tx), run);
      sequence := MaxSequence(VisibleEvents(ledger, tx), run) + 1;
    }

    /** Appends a row linked to the last row the session sees. */
    method WriteAuditEntry(tx: nat, content: Content) returns (row: Row)
      requires LedgerOk(ledger) && Enabled(ledger, LockChain(tx))
      modifies this
      ensures LedgerOk(ledger) && Wrote(old(ledger), ledger, tx, row) && row.content == content
    {
      WriteEffect(ledger, tx, content);
      ledger := Apply(ledger, LockChain(tx));
      row := NewRow(ledger, tx, content);
      ledger := Apply(ledger, WriteAudit(tx, content));
    }

    /** Numbers the event, inserts it, and for an audited event returns the id of its audit row. */
    method Emit(tx: nat, run: nat, audited: bool, content: Content) returns (sequence: nat, auditId: Option<nat>)
      requires LedgerOk(ledger) && Enabled(ledger, LockRun(tx, run)) && (audited ==> Enabled(ledger, LockChain(tx)))
      modifies this
      ensures LedgerOk(ledger) && tx in ledger.open && tx in old(ledger).open
      ensures ledger.audit == old(ledger).audit && ledger.events == old(ledger).events
      ensures sequence == |SequencesOf(VisibleEvents(old(ledger), tx), run)| + 1
      ensures VisibleEvents(ledger, tx) == VisibleEvents(old(ledger), tx) + [EventRow(run, sequence)]
      ensures auditId == if audited then Some(old(ledger).nextId) else None
      ensures !audited ==> VisibleAudit(ledger, tx) == VisibleAudit(old(ledger), tx)
      ensures audited ==> exists row :: WroteRow(old(ledger), ledger, tx, row) && row.content == content
    {
      sequence := NextSequence(tx, run);
      InsertKeepsSequences(ledger, tx, run);
      StepKeepsChain(ledger, InsertEvent(tx, run));
      ledger := Apply(ledger, InsertEvent(tx, run));
      auditId := None;
      if audited {
        var row := WriteAuditEntry(tx, content);
        auditId := Some(row.id);
      }
    }

    /** Makes the session's rows visible to all and releases its locks. */
    method Commit(tx: nat)
      requires LedgerOk(ledger) && tx in ledger.open
      modifies this
      ensures LedgerOk(ledger) && tx !in ledger.open
      ensures ledger.audit == VisibleAudit(old(ledger), tx) && ledger.events == VisibleEvents(old(ledger), tx)
      ensures ledger.chainOwner != Some(tx) && forall run | run in ledger.runOwner :: ledger.runOwner[run] != tx
    {
      StepKeepsChain(ledger, Step.Commit(tx));
      StepKeepsSequences(ledger, Step.Commit(tx));
      ledger := Apply(ledger, Step.Commit(tx));
    }

    method Rollback(tx: nat)
      requires LedgerOk(ledger) && tx in ledger.open
      modifies this
      ensures LedgerOk(ledger) && tx !in ledger.open
      ensures ledger.audit == old(ledger).audit && ledger.events == old(ledger).events
      ensures ledger.chainOwner != Some(tx) && forall run | run in ledger.runOwner :: ledger.runOwner[run] != tx
    {
      StepKeepsChain(ledger, Step.Abort(tx));
      StepKeepsSequences(ledger, Step.Abort(tx));
      ledger := Apply(ledger, Step.Abort(tx));
    }
  }
}
