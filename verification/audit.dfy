/** The hash-chained audit log: canonical payloads, chain verification, and what verification can and
    cannot detect. The hash is modelled as an injective function of the canonical payload and the
    previous hash whose values differ from the genesis value. */
module AuditChain {
  import opened Vocabulary

  /** A timestamp as written (with an offset from UTC) or as read back (naive, in UTC). */
  datatype Timestamp = Aware(wall: int, offset: int) | Naive(utc: int)

  /** An address as passed in or as the driver deserialises it. */
  datatype Address = Text(text: string) | Parsed(text: string)

  /** A row's content columns; the state columns stand for their JSON text. */
  datatype Content = Content(
    actorType: string, actorId: string, action: string, entityType: string, entityId: Option<string>,
    beforeState: Option<string>, afterState: Option<string>, prompt: Option<string>,
    ip: Option<Address>, createdAt: Timestamp)

  datatype Payload = Payload(
    actorType: string, actorId: string, action: string, entityType: string, entityId: Option<string>,
    beforeState: Option<string>, afterState: Option<string>, prompt: Option<string>,
    ip: Option<string>, createdAt: int)

  function UtcOf(t: Timestamp): int {
    match t
    case Aware(wall, offset) => wall - offset
    case Naive(utc) => utc
  }

  function AddressText(ip: Option<Address>): Option<string> {
    match ip
    case None => None
    case Some(address) => Some(address.text)
  }

  function Canonical(c: Content): Payload {
    Payload(c.actorType, c.actorId, c.action, c.entityType, c.entityId, c.beforeState, c.afterState, c.prompt,
            AddressText(c.ip), UtcOf(c.createdAt))
  }

  /** The same moment, however it is written. */
  predicate SameInstant(a: Timestamp, b: Timestamp) {
    match (a, b)
    case (Aware(wall, offset), Aware(other, shift)) => wall - offset == other - shift
    case (Aware(wall, offset), Naive(utc)) => wall - offset == utc
    case (Naive(utc), Aware(wall, offset)) => utc == wall - offset
    case (Naive(utc), Naive(other)) => utc == other
  }

  predicate SameAddress(a: Option<Address>, b: Option<Address>) {
    match (a, b)
    case (Some(x), Some(y)) => x.text == y.text
    case _ => a == b
  }

  /** Every column agrees, the time as a moment and the address as text. */
  predicate SameColumns(a: Content, b: Content) {
    && a.actorType == b.actorType && a.actorId == b.actorId && a.action == b.action
    && a.entityType == b.entityType && a.entityId == b.entityId
    && a.beforeState == b.beforeState && a.afterState == b.afterState && a.prompt == b.prompt
    && SameAddress(a.ip, b.ip) && SameInstant(a.createdAt, b.createdAt)
  }

  /** Every column is hashed: two rows have the same payload exactly when all their columns agree. */
  lemma CanonicalAgreesIff(a: Content, b: Content)
    ensures Canonical(a) == Canonical(b) <==> SameColumns(a, b)
  {
  }

  /** What a SELECT returns for a row that was inserted with this content; `normal` is the text the
      database gives back for an address. */
  function ReadBack(c: Content, normal: string -> string): Content {
    c.(createdAt := Naive(UtcOf(c.createdAt)),
       ip := match c.ip case None => None case Some(address) => Some(Parsed(normal(address.text))))
  }

  /** The address, if there is one, is written in the form the database gives back. */
  predicate WrittenNormally(c: Content, normal: string -> string) {
    c.ip.Some? ==> normal(c.ip.value.text) == c.ip.value.text
  }

  /** A row hashes the same after a round trip through the table exactly then. Its time zone does not matter. */
  lemma ReadBackKeepsPayloadIff(c: Content, normal: string -> string)
    ensures Canonical(ReadBack(c, normal)) == Canonical(c) <==> WrittenNormally(c, normal)
  {
  }

  datatype Hash = Genesis | Digest(payload: Payload, prev: Hash) | Foreign(text: string)

  datatype Row = Row(id: nat, content: Content, entryHash: Hash, prevHash: Hash)

  function RecomputeEntryHash(content: Content, prev: Hash): Hash {
    Digest(Canonical(content), prev)
  }

  // --- the chain ---

  /** The hash of the last row, or the genesis value. */
  function Head(rows: seq<Row>): Hash {
    if rows == [] then Genesis else rows[|rows| - 1].entryHash
  }

  predicate RowOk(row: Row, prev: Hash) {
    row.prevHash == prev && row.entryHash == RecomputeEntryHash(row.content, prev)
  }

  /** Every row links to the row before it, the first one to the genesis value. */
  ghost predicate Linked(rows: seq<Row>) {
    forall i | 0 <= i < |rows| :: RowOk(rows[i], Head(rows[..i]))
  }

  ghost predicate FirstBroken(rows: seq<Row>, i: nat) {
    i < |rows| && Linked(rows[..i]) && !RowOk(rows[i], Head(rows[..i]))
  }

  datatype Verification = Verification(valid: bool, firstBrokenId: Option<nat>, rowsChecked: nat)

  lemma LinkedPrefix(rows: seq<Row>, n: nat)
    requires n <= |rows| && Linked(rows)
    ensures Linked(rows[..n])
  {
  }

  lemma LinkedAppend(rows: seq<Row>, row: Row)
    requires Linked(rows)
    ensures Linked(rows + [row]) <==> RowOk(row, Head(rows))
  {
    var longer := rows + [row];
    assert longer[..|rows|] == rows && longer[|rows|] == row;
    forall i | 0 <= i < |rows| ensures RowOk(longer[i], Head(longer[..i])) {
      assert longer[..i] == rows[..i] && RowOk(rows[i], Head(rows[..i]));
    }
  }

  lemma LinkedRowOk(rows: seq<Row>, n: nat, i: nat)
    requires i < n <= |rows| && Linked(rows[..n])
    ensures RowOk(rows[i], Head(rows[..i]))
  {
  }

  /** There is at most one first broken row. */
  lemma FirstBrokenIsUnique(rows: seq<Row>, i: nat, j: nat)
    requires FirstBroken(rows, i) && FirstBroken(rows, j)
    ensures i == j
  {
    if i < j {
      LinkedRowOk(rows, j, i);
    } else if j < i {
      LinkedRowOk(rows, i, j);
    }
  }

  /** Accepts exactly the linked logs; otherwise reports the least row whose link or hash fails. */
  method VerifyChain(rows: seq<Row>) returns (result: Verification)
    ensures result.valid <==> Linked(rows)
    ensures result.valid <==> result.firstBrokenId.None?
    ensures !result.valid ==> exists i: nat :: FirstBroken(rows, i) && result.firstBrokenId == Some(rows[i].id)
    ensures result.rowsChecked == |rows|
  {
    var expectedPrev := Genesis;
    for i := 0 to |rows|
      invariant Linked(rows[..i]) && expectedPrev == Head(rows[..i])
    {
      var row := rows[i];
      if row.prevHash != expectedPrev || RecomputeEntryHash(row.content, expectedPrev) != row.entryHash {
        assert FirstBroken(rows, i);
        return Verification(false, Some(row.id), |rows|);
      }
      LinkedAppend(rows[..i], row);
      assert rows[..i + 1] == rows[..i] + [row];
      expectedPrev := row.entryHash;
    }
    assert rows[..|rows|] == rows;
    result := Verification(true, None, |rows|);
  }

  // --- verifying what the table gives back ---

  function ReadBackRows(rows: seq<Row>, normal: string -> string): seq<Row> {
    seq(|rows|, i requires 0 <= i < |rows| => rows[i].(content := ReadBack(rows[i].content, normal)))
  }

  /** Verification reads rows back from the table: it accepts what was written linked exactly when every
      address was written in the form the database gives back. */
  lemma ReadBackIsLinkedIff(rows: seq<Row>, normal: string -> string)
    requires Linked(rows)
    ensures Linked(ReadBackRows(rows, normal)) <==> forall i | 0 <= i < |rows| :: WrittenNormally(rows[i].content, normal)
  {
    var back := ReadBackRows(rows, normal);
    forall i | 0 <= i < |rows| ensures RowOk(back[i], Head(back[..i])) <==> WrittenNormally(rows[i].content, normal) {
      assert RowOk(rows[i], Head(rows[..i])) && Head(back[..i]) == Head(rows[..i]);
      ReadBackKeepsPayloadIff(rows[i].content, normal);
    }
  }

  // --- what verification detects ---

  /** How many hashes precede this one. */
  function HashDepth(h: Hash): nat {
    match h
    case Digest(_, prev) => HashDepth(prev) + 1
    case _ => 0
  }

  lemma {:induction false} HeadDepth(rows: seq<Row>)
    requires Linked(rows)
    ensures HashDepth(Head(rows)) == |rows|
  {
    if rows != [] {
      var init := rows[..|rows| - 1];
      LinkedPrefix(rows, |rows| - 1);
      HeadDepth(init);
      assert RowOk(rows[|rows| - 1], Head(init));
    }
  }

  lemma {:induction false} DepthAt(rows: seq<Row>, i: nat)
    requires Linked(rows) && i < |rows|
    ensures HashDepth(rows[i].entryHash) == i + 1
  {
    LinkedPrefix(rows, i + 1);
    HeadDepth(rows[..i + 1]);
  }

  /** The hashes of a linked log are pairwise distinct. */
  lemma {:induction false} HashesAreDistinct(rows: seq<Row>, i: nat, j: nat)
    requires Linked(rows) && i < j < |rows|
    ensures rows[i].entryHash != rows[j].entryHash && rows[i].entryHash != Genesis
  {
    DepthAt(rows, i);
    DepthAt(rows, j);
  }

  predicate SamePayload(a: Row, b: Row) {
    SameColumns(a.content, b.content) && a.entryHash == b.entryHash && a.prevHash == b.prevHash
  }

  ghost predicate SamePayloads(a: seq<Row>, b: seq<Row>) {
    |a| == |b| && forall i | 0 <= i < |a| :: SamePayload(a[i], b[i])
  }

  lemma LastRowsAgree(a: seq<Row>, b: seq<Row>)
    requires Linked(a) && Linked(b) && Head(a) == Head(b) && a != [] && b != []
    ensures SamePayload(a[|a| - 1], b[|b| - 1]) && Head(a[..|a| - 1]) == Head(b[..|b| - 1])
  {
    CanonicalAgreesIff(a[|a| - 1].content, b[|b| - 1].content);
  }

  lemma SamePayloadsExtend(a: seq<Row>, b: seq<Row>)
    requires |a| == |b| > 0 && SamePayloads(a[..|a| - 1], b[..|b| - 1]) && SamePayload(a[|a| - 1], b[|b| - 1])
    ensures SamePayloads(a, b)
  {
  }

  /** Tamper evidence: two accepted logs with the same last hash are the same, row for row. */
  lemma {:induction false} SameHeadSameLog(a: seq<Row>, b: seq<Row>)
    requires Linked(a) && Linked(b) && Head(a) == Head(b)
    ensures SamePayloads(a, b)
    decreases |a|
  {
    HeadDepth(a);
    HeadDepth(b);
    if a != [] {
      LastRowsAgree(a, b);
      LinkedPrefix(a, |a| - 1);
      LinkedPrefix(b, |b| - 1);
      SameHeadSameLog(a[..|a| - 1], b[..|b| - 1]);
      SamePayloadsExtend(a, b);
    }
  }

  /** Changing any column of one row breaks exactly that row. */
  lemma ChangedContentIsReported(rows: seq<Row>, i: nat, content: Content)
    requires Linked(rows) && i < |rows| && !SameColumns(content, rows[i].content)
    ensures FirstBroken(rows[i := rows[i].(content := content)], i)
  {
    CanonicalAgreesIff(content, rows[i].content);
  }

  /** Changing one row and recomputing its hash goes unnoticed exactly for the last row; for any other
      row the one after it is reported. */
  lemma RehashedRowIsReportedIff(rows: seq<Row>, i: nat, content: Content)
    requires Linked(rows) && i < |rows| && !SameColumns(content, rows[i].content)
    ensures var tampered := rows[i := rows[i].(content := content, entryHash := RecomputeEntryHash(content, rows[i].prevHash))];
      && (Linked(tampered) <==> i == |rows| - 1)
      && (i < |rows| - 1 ==> FirstBroken(tampered, i + 1))
  {
    var tampered := rows[i := rows[i].(content := content, entryHash := RecomputeEntryHash(content, rows[i].prevHash))];
    CanonicalAgreesIff(content, rows[i].content);
    assert tampered[..i] == rows[..i] && RowOk(rows[i], Head(rows[..i])) && RowOk(tampered[i], Head(tampered[..i]));
    LinkedPrefix(rows, i);
    assert tampered[..i + 1] == tampered[..i] + [tampered[i]];
    LinkedAppend(tampered[..i], tampered[i]);
    if i < |rows| - 1 {
      assert RowOk(rows[i + 1], Head(rows[..i + 1]));
    } else {
      assert tampered[..i + 1] == tampered;
    }
  }

  /** Removing rows goes unnoticed exactly when they are the last ones; otherwise the first row after
      the gap is reported. */
  lemma RemovedRowsAreReportedIff(rows: seq<Row>, i: nat, j: nat)
    requires Linked(rows) && i < j <= |rows|
    ensures Linked(rows[..i] + rows[j..]) <==> j == |rows|
    ensures j < |rows| ==> FirstBroken(rows[..i] + rows[j..], i)
  {
    var left := rows[..i] + rows[j..];
    LinkedPrefix(rows, i);
    if j < |rows| {
      assert left[..i] == rows[..i] && left[i] == rows[j];
      assert RowOk(rows[j], Head(rows[..j]));
      LinkedPrefix(rows, j);
      HeadDepth(rows[..i]);
      HeadDepth(rows[..j]);
    } else {
      assert left == rows[..i];
    }
  }

  /** What is left when the rows at these positions are removed. */
  function Remaining(rows: seq<Row>, removed: set<nat>): seq<Row> {
    if rows == [] then []
    else
      var m := |rows| - 1;
      Remaining(rows[..m], removed) + if m in removed then [] else [rows[m]]
  }

  /** Every position after a removed one is removed too. */
  predicate IsTail(removed: set<nat>, n: nat) {
    forall i, j | 0 <= i < j < n && i in removed :: j in removed
  }

  lemma {:induction false} RemainingTail(rows: seq<Row>, removed: set<nat>)
    requires IsTail(removed, |rows|)
    ensures |Remaining(rows, removed)| <= |rows| && Remaining(rows, removed) == rows[..|Remaining(rows, removed)|]
    ensures (forall i | 0 <= i < |rows| :: i !in removed) ==> Remaining(rows, removed) == rows
  {
    if rows != [] {
      var m := |rows| - 1;
      RemainingTail(rows[..m], removed);
      if m in removed {
        assert Remaining(rows, removed) == Remaining(rows[..m], removed);
      } else {
        assert Remaining(rows[..m], removed) == rows[..m];
        assert Remaining(rows, removed) == rows[..m] + [rows[m]] == rows;
      }
    }
  }

  lemma {:induction false} RemainingCount(rows: seq<Row>, removed: set<nat>)
    ensures |Remaining(rows, removed)| <= |rows|
    ensures |Remaining(rows, removed)| == |rows| <==> forall i | 0 <= i < |rows| :: i !in removed
  {
    if rows != [] {
      RemainingCount(rows[..|rows| - 1], removed);
    }
  }

  lemma {:induction false} LinkedRemainingIsTail(rows: seq<Row>, removed: set<nat>)
    requires Linked(rows) && Linked(Remaining(rows, removed))
    ensures IsTail(removed, |rows|)
  {
    if rows != [] {
      var m := |rows| - 1;
      var left := Remaining(rows, removed);
      LinkedPrefix(rows, m);
      if m in removed {
        assert left == Remaining(rows[..m], removed);
        LinkedRemainingIsTail(rows[..m], removed);
      } else {
        HeadDepth(rows);
        HeadDepth(left);
        RemainingCount(rows, removed);
      }
    }
  }

  /** Removing any rows goes unnoticed exactly when nothing behind a removed row is left. */
  lemma RemovedSubsetIsReportedIff(rows: seq<Row>, removed: set<nat>)
    requires Linked(rows)
    ensures Linked(Remaining(rows, removed)) <==> IsTail(removed, |rows|)
  {
    if Linked(Remaining(rows, removed)) {
      LinkedRemainingIsTail(rows, removed);
    } else if IsTail(removed, |rows|) {
      RemainingTail(rows, removed);
      LinkedPrefix(rows, |Remaining(rows, removed)|);
    }
  }

  /** Swapping two rows is always noticed, at the first of them. */
  lemma SwappedRowsAreReported(rows: seq<Row>, i: nat, j: nat)
    requires Linked(rows) && i < j < |rows|
    ensures FirstBroken(rows[i := rows[j]][j := rows[i]], i)
  {
    var swapped := rows[i := rows[j]][j := rows[i]];
    LinkedPrefix(rows, i);
    LinkedPrefix(rows, j);
    assert swapped[..i] == rows[..i];
    assert RowOk(rows[j], Head(rows[..j]));
    HeadDepth(rows[..i]);
    HeadDepth(rows[..j]);
  }
}
