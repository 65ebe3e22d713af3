/** The write-once archive of the audit log and the check that compares it with the live table. */
module AuditArchive {
  import opened Vocabulary
  import opened AuditChain

  /** One archived object: the row as JSON, addresses as text. */
  datatype Object = Object(id: nat, content: Content, entryHash: Hash, prevHash: Hash)

  function Serialize(row: Row): Object {
    Object(row.id, row.content.(ip := match row.content.ip case None => None case Some(a) => Some(Text(a.text))), row.entryHash, row.prevHash)
  }

  function RecomputeArchived(o: Object): Hash {
    RecomputeEntryHash(o.content, o.prevHash)
  }

  predicate SelfConsistent(o: Object) {
    RecomputeArchived(o) == o.entryHash
  }

  predicate UniqueIds(rows: seq<Row>) {
    forall i, j | 0 <= i < j < |rows| :: rows[i].id < rows[j].id
  }

  // --- the nightly archive cycle ---

  predicate IsPending(row: Row, archived: map<nat, Object>, cutoff: int) {
    UtcOf(row.content.createdAt) < cutoff && row.id !in archived
  }

  /** Written before the cutoff, whatever its time zone. */
  predicate OlderThan(t: Timestamp, cutoff: int) {
    match t
    case Aware(wall, offset) => wall - offset < cutoff
    case Naive(utc) => utc < cutoff
  }

  function CountPending(rows: seq<Row>, archived: map<nat, Object>, cutoff: int): nat {
    if rows == [] then 0
    else CountPending(rows[..|rows| - 1], archived, cutoff) + if IsPending(rows[|rows| - 1], archived, cutoff) then 1 else 0
  }

  class Bucket {
    var objects: map<nat, Object>

    constructor ()
      ensures objects == map[]
    {
      objects := map[];
    }

    /** Archives every old row that is not archived yet. A row whose upload fails does not stop the
        others; no archived object is ever replaced. */
    method ArchivePendingRows(rows: seq<Row>, cutoff: int, failing: set<nat>) returns (archived: nat, failed: nat)
      requires UniqueIds(rows)
      modifies this
      ensures forall id | id in old(objects) :: id in objects && objects[id] == old(objects)[id]
      ensures forall i | 0 <= i < |rows| && IsPending(rows[i], old(objects), cutoff) && rows[i].id !in failing ::
        rows[i].id in objects && objects[rows[i].id] == Serialize(rows[i])
      ensures forall id | id in objects && id !in old(objects) ::
        exists i | 0 <= i < |rows| :: rows[i].id == id && IsPending(rows[i], old(objects), cutoff) && id !in failing
      ensures forall i | 0 <= i < |rows| :: rows[i].id in objects <==>
        rows[i].id in old(objects) || (OlderThan(rows[i].content.createdAt, cutoff) && rows[i].id !in failing)
      ensures archived + failed == CountPending(rows, old(objects), cutoff)
      ensures |objects| == |old(objects)| + archived
    {
      ghost var before := objects;
      var already := objects;
      archived, failed := 0, 0;
      for i := 0 to |rows|
        invariant forall id | id in before :: id in objects && objects[id] == before[id]
        invariant forall k | 0 <= k < i && IsPending(rows[k], before, cutoff) && rows[k].id !in failing ::
          rows[k].id in objects && objects[rows[k].id] == Serialize(rows[k])
        invariant forall id | id in objects && id !in before ::
          exists k | 0 <= k < i :: rows[k].id == id && IsPending(rows[k], before, cutoff) && id !in failing
        invariant archived + failed == CountPending(rows[..i], before, cutoff)
        invariant |objects| == |before| + archived
      {
        assert rows[..i + 1][..i] == rows[..i];
        if IsPending(rows[i], already, cutoff) {
          if rows[i].id in failing {
            failed := failed + 1;
          } else {
            objects := objects[rows[i].id := Serialize(rows[i])];
            archived := archived + 1;
          }
        }
      }
      assert rows[..|rows|] == rows;
      forall i | 0 <= i < |rows| ensures IsPending(rows[i], before, cutoff) <==>
        OlderThan(rows[i].content.createdAt, cutoff) && rows[i].id !in before {}
      assert forall i, k | 0 <= i < |rows| && 0 <= k < |rows| && rows[i].id == rows[k].id :: i == k;
    }
  }

  /** Once nothing is pending, archiving again does nothing. */
  lemma {:induction false} NothingPending(rows: seq<Row>, archived: map<nat, Object>, cutoff: int)
    ensures CountPending(rows, archived, cutoff) == 0 <==> forall i | 0 <= i < |rows| :: !IsPending(rows[i], archived, cutoff)
  {
    if rows != [] {
      NothingPending(rows[..|rows| - 1], archived, cutoff);
    }
  }

  // --- the divergence check ---

  predicate HasRow(rows: seq<Row>, id: nat) {
    exists i | 0 <= i < |rows| :: rows[i].id == id
  }

  function LiveRow(rows: seq<Row>, id: nat): (row: Option<Row>)
    ensures row.Some? <==> HasRow(rows, id)
    ensures row.Some? ==> row.value in rows && row.value.id == id
  {
    if rows == [] then None
    else if rows[|rows| - 1].id == id then Some(rows[|rows| - 1])
    else LiveRow(rows[..|rows| - 1], id)
  }

  lemma {:induction false} LiveRowAt(rows: seq<Row>, i: nat)
    requires UniqueIds(rows) && i < |rows|
    ensures LiveRow(rows, rows[i].id) == Some(rows[i])
  {
  }

  predicate ArchiveBroken(archive: map<nat, Object>, id: nat) {
    id in archive && !SelfConsistent(archive[id])
  }

  predicate Diverged(rows: seq<Row>, archive: map<nat, Object>, id: nat) {
    && id in archive && SelfConsistent(archive[id])
    && LiveRow(rows, id).Some? && LiveRow(rows, id).value.entryHash != archive[id].entryHash
  }

  datatype Report = Report(live: Verification, archiveValid: bool, brokenIds: seq<nat>, checked: nat, divergedIds: seq<nat>)

  predicate Ok(report: Report) {
    report.live.valid && report.archiveValid && report.divergedIds == []
  }

  predicate Increasing(ids: seq<nat>) {
    forall i, j | 0 <= i < j < |ids| :: ids[i] < ids[j]
  }

  method Least(ids: set<nat>) returns (least: nat)
    requires ids != {}
    ensures least in ids && forall id | id in ids :: least <= id
  {
    least :| least in ids;
    var rest := ids - {least};
    while rest != {}
      invariant least in ids && rest <= ids
      invariant forall id | id in ids && id !in rest :: least <= id
      decreases rest
    {
      var id :| id in rest;
      if id < least { least := id; }
      rest := rest - {id};
    }
  }

  method Sorted(ids: set<nat>) returns (sorted: seq<nat>)
    ensures Increasing(sorted) && |sorted| == |ids| && forall id :: id in sorted <==> id in ids
  {
    sorted := [];
    var rest := ids;
    while rest != {}
      invariant rest <= ids && Increasing(sorted)
      invariant forall id :: id in sorted <==> id in ids && id !in rest
      invariant forall i, id | 0 <= i < |sorted| && id in rest :: sorted[i] < id
      invariant |sorted| + |rest| == |ids|
      decreases rest
    {
      var least := Least(rest);
      sorted := sorted + [least];
      rest := rest - {least};
    }
  }

  // --- what the check detects ---

  /** The archived copy has the payload and the hashes of the row. */
  predicate CopyOf(o: Object, row: Row) {
    SameColumns(o.content, row.content) && o.entryHash == row.entryHash && o.prevHash == row.prevHash
  }

  /** Every archived object agrees with itself and, if its row is still live, with that row. */
  ghost predicate Agrees(rows: seq<Row>, archive: map<nat, Object>) {
    forall id | id in archive :: SelfConsistent(archive[id])
      && forall i | 0 <= i < |rows| && rows[i].id == id :: CopyOf(archive[id], rows[i])
  }

  ghost predicate CheckOk(rows: seq<Row>, archive: map<nat, Object>) {
    Linked(rows) && forall id :: !ArchiveBroken(archive, id) && !Diverged(rows, archive, id)
  }

  lemma ReportIsOkIff(rows: seq<Row>, archive: map<nat, Object>, report: Report)
    requires report.live.valid <==> Linked(rows)
    requires forall id :: id in report.brokenIds <==> ArchiveBroken(archive, id)
    requires report.archiveValid <==> report.brokenIds == []
    requires forall id :: id in report.divergedIds <==> Diverged(rows, archive, id)
    ensures Ok(report) <==> CheckOk(rows, archive)
  {
    if report.divergedIds != [] {
      assert report.divergedIds[0] in report.divergedIds;
    }
    if report.brokenIds != [] {
      assert report.brokenIds[0] in report.brokenIds;
    }
  }

  /** `found` lists, in order, exactly the ids among the first `n` for which `holds` says so. */
  ghost predicate Lists(found: seq<nat>, ids: seq<nat>, n: nat, holds: nat -> bool) {
    && n <= |ids| && Increasing(found)
    && (forall id :: id in found <==> id in ids[..n] && holds(id))
  }

  lemma ListsStep(found: seq<nat>, ids: seq<nat>, n: nat, holds: nat -> bool)
    requires Increasing(ids) && n < |ids| && Lists(found, ids, n, holds)
    ensures Lists(if holds(ids[n]) then found + [ids[n]] else found, ids, n + 1, holds)
  {
    assert forall i | 0 <= i < |found| :: found[i] in found;
    assert forall x :: x in ids[..n + 1] <==> x in ids[..n] || x == ids[n];
  }

  /** `archive` is what the check can fetch. Both lists are exact and in increasing order. */
  method RunDivergenceCheck(rows: seq<Row>, archive: map<nat, Object>) returns (report: Report)
    ensures report.live.valid <==> Linked(rows)
    ensures report.checked == |archive|
    ensures Increasing(report.brokenIds) && forall id :: id in report.brokenIds <==> ArchiveBroken(archive, id)
    ensures report.archiveValid <==> report.brokenIds == []
    ensures Increasing(report.divergedIds) && forall id :: id in report.divergedIds <==> Diverged(rows, archive, id)
    ensures Ok(report) <==> CheckOk(rows, archive)
  {
    var live := VerifyChain(rows);
    var ids := Sorted(archive.Keys);
    var valid, broken, diverged := true, [], [];
    ghost var isBroken := (id: nat) => ArchiveBroken(archive, id);
    ghost var isDiverged := (id: nat) => Diverged(rows, archive, id);
    assert forall i | 0 <= i < |ids| :: ids[i] in ids;
    for i := 0 to |ids|
      invariant valid <==> broken == []
      invariant Lists(broken, ids, i, isBroken) && Lists(diverged, ids, i, isDiverged)
    {
      var id := ids[i];
      ListsStep(broken, ids, i, isBroken);
      ListsStep(diverged, ids, i, isDiverged);
      if !SelfConsistent(archive[id]) {
        valid := false;
        broken := broken + [id];
      } else {
        var row := LiveRow(rows, id);
        if row.Some? && row.value.entryHash != archive[id].entryHash {
          diverged := diverged + [id];
        }
      }
    }
    assert ids[..|ids|] == ids;
    report := Report(live, valid, broken, |ids|, diverged);
    ReportIsOkIff(rows, archive, report);
  }

  lemma LinkedRowHash(rows: seq<Row>, i: nat)
    requires Linked(rows) && i < |rows|
    ensures rows[i].entryHash == RecomputeEntryHash(rows[i].content, rows[i].prevHash)
  {
  }

  lemma {:induction false} CopyIff(rows: seq<Row>, archive: map<nat, Object>, i: nat)
    requires UniqueIds(rows) && Linked(rows) && i < |rows|
    requires rows[i].id in archive && SelfConsistent(archive[rows[i].id])
    ensures Diverged(rows, archive, rows[i].id) <==> !CopyOf(archive[rows[i].id], rows[i])
  {
    LiveRowAt(rows, i);
    LinkedRowHash(rows, i);
    CanonicalAgreesIff(archive[rows[i].id].content, rows[i].content);
  }

  lemma {:induction false} AgreesIff(rows: seq<Row>, archive: map<nat, Object>, id: nat)
    requires UniqueIds(rows) && Linked(rows) && id in archive && SelfConsistent(archive[id])
    ensures !Diverged(rows, archive, id) <==> forall i | 0 <= i < |rows| && rows[i].id == id :: CopyOf(archive[id], rows[i])
  {
    if HasRow(rows, id) {
      var i :| 0 <= i < |rows| && rows[i].id == id;
      CopyIff(rows, archive, i);
      assert forall k | 0 <= k < |rows| && rows[k].id == id :: k == i;
    }
  }

  /** The check passes exactly when the live chain is linked and every archived object agrees with
      itself and with its live row in content, hash and previous hash. */
  lemma {:induction false} CheckOkIff(rows: seq<Row>, archive: map<nat, Object>)
    requires UniqueIds(rows)
    ensures CheckOk(rows, archive) <==> Linked(rows) && Agrees(rows, archive)
  {
    if Linked(rows) {
      forall id | id in archive
        ensures !ArchiveBroken(archive, id) <==> SelfConsistent(archive[id])
        ensures !ArchiveBroken(archive, id) ==>
          (!Diverged(rows, archive, id) <==> forall i | 0 <= i < |rows| && rows[i].id == id :: CopyOf(archive[id], rows[i]))
      {
        if SelfConsistent(archive[id]) {
          AgreesIff(rows, archive, id);
        }
      }
    }
  }

  /** Each object is the archived copy of the live row with its id. */
  ghost predicate Faithful(rows: seq<Row>, archive: map<nat, Object>) {
    forall id | id in archive :: exists i | 0 <= i < |rows| :: rows[i].id == id && archive[id] == Serialize(rows[i])
  }

  /** No false alarm: a linked log and faithful copies of it always pass. */
  lemma FaithfulArchivePasses(rows: seq<Row>, archive: map<nat, Object>)
    requires UniqueIds(rows) && Linked(rows) && Faithful(rows, archive)
    ensures CheckOk(rows, archive)
  {
  }

  /** Another row's archived object placed under a live row's id is always reported as diverged. */
  lemma SwappedObjectIsReported(rows: seq<Row>, archive: map<nat, Object>, i: nat, k: nat)
    requires UniqueIds(rows) && Linked(rows) && i < |rows| && k < |rows| && i != k
    requires rows[i].id in archive && archive[rows[i].id] == Serialize(rows[k])
    ensures Diverged(rows, archive, rows[i].id)
  {
    LiveRowAt(rows, i);
    LinkedRowHash(rows, k);
    if i < k { HashesAreDistinct(rows, i, k); } else { HashesAreDistinct(rows, k, i); }
  }

  /** Removing any live rows from a faithfully archived log is reported exactly when a live row behind a
      removed one is left: archived ids without a live row are skipped, so a cut-off tail goes unseen. */
  lemma RemovalIsReportedIff(rows: seq<Row>, archive: map<nat, Object>, removed: set<nat>)
    requires UniqueIds(rows) && Linked(rows) && Faithful(rows, archive)
    ensures CheckOk(Remaining(rows, removed), archive) <==> IsTail(removed, |rows|)
  {
    var left := Remaining(rows, removed);
    RemovedSubsetIsReportedIff(rows, removed);
    if IsTail(removed, |rows|) {
      RemainingTail(rows, removed);
      FaithfulArchivePasses(rows, archive);
      CheckOkIff(rows, archive);
      CheckOkIff(left, archive);
    }
  }
}
