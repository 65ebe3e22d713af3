/** Several decisions on one approval request. A decision reads the request without a lock, then writes its
    audit row under the chain lock, and nothing is visible to the others before it commits. */
module DecisionRaces {
  import opened Vocabulary

  datatype Step = Load(tx: nat) | Write(tx: nat) | Commit(tx: nat) | Abort(tx: nat)

  /** `decided` is the committed request no longer pending, `passed` holds the open decisions that read it as
      pending, `writer` the holder of the chain lock and `audit` the committed decisions. */
  datatype Race = Race(decided: bool, passed: set<nat>, writer: Option<nat>, audit: seq<nat>, ended: set<nat>)

  const UNDECIDED: Race := Race(false, {}, None, [], {})

  predicate Enabled(r: Race, step: Step) {
    match step
    case Load(tx) => tx !in r.passed && tx !in r.ended
    case Write(tx) => tx in r.passed && r.writer.None?
    case Commit(tx) => r.writer == Some(tx)
    case Abort(tx) => tx in r.passed
  }

  function Apply(r: Race, step: Step): Race
    requires Enabled(r, step)
  {
    match step
    case Load(tx) => if r.decided then r.(ended := r.ended + {tx}) else r.(passed := r.passed + {tx})
    case Write(tx) => r.(writer := Some(tx))
    case Commit(tx) => Race(true, r.passed - {tx}, None, r.audit + [tx], r.ended + {tx})
    case Abort(tx) =>
      r.(passed := r.passed - {tx}, writer := if r.writer == Some(tx) then None else r.writer, ended := r.ended + {tx})
  }

  /** Any sequence of steps; one that is not enabled when its turn comes does not happen. */
  function Run(steps: seq<Step>): Race {
    if steps == [] then UNDECIDED
    else
      var r := Run(steps[..|steps| - 1]);
      if Enabled(r, steps[|steps| - 1]) then Apply(r, steps[|steps| - 1]) else r
  }

  predicate Taken(steps: seq<Step>, i: nat, step: Step) {
    i < |steps| && steps[i] == step && Enabled(Run(steps[..i]), step)
  }

  lemma RunStep(steps: seq<Step>, i: nat)
    requires i < |steps|
    ensures var r := Run(steps[..i]); Run(steps[..i + 1]) == if Enabled(r, steps[i]) then Apply(r, steps[i]) else r
  {
    assert steps[..i + 1][..i] == steps[..i];
  }

  /** The request is decided once somebody has committed, the writer has passed, and nobody is both open and
      ended. */
  ghost predicate RaceOk(r: Race) {
    && (r.decided <==> r.audit != [])
    && (r.writer.Some? ==> r.writer.value in r.passed)
    && r.passed !! r.ended
    && forall tx | tx in r.audit :: tx in r.ended
  }

  lemma {:induction false} RunOk(steps: seq<Step>)
    ensures RaceOk(Run(steps))
  {
    if steps != [] {
      RunOk(steps[..|steps| - 1]);
    }
  }

  lemma {:induction false} AuditGrows(steps: seq<Step>, i: nat, j: nat)
    requires i <= j <= |steps|
    ensures Run(steps[..i]).audit <= Run(steps[..j]).audit
  {
    if i < j {
      AuditGrows(steps, i, j - 1);
      RunStep(steps, j - 1);
    }
  }

  /** Where a decision that is open has read the request. */
  lemma {:induction false} PassedHasLoaded(steps: seq<Step>, n: nat, tx: nat) returns (i: nat)
    requires n <= |steps| && tx in Run(steps[..n]).passed
    ensures i < n && Taken(steps, i, Load(tx)) && !Run(steps[..i]).decided
  {
    RunStep(steps, n - 1);
    if tx in Run(steps[..n - 1]).passed {
      i := PassedHasLoaded(steps, n - 1, tx);
    } else {
      i := n - 1;
    }
  }

  /** Where the committed decision number `k` was committed. */
  lemma {:induction false} AuditHasCommit(steps: seq<Step>, n: nat, k: nat) returns (j: nat)
    requires n <= |steps| && k < |Run(steps[..n]).audit|
    ensures j < n && |Run(steps[..j]).audit| == k && Taken(steps, j, Commit(Run(steps[..n]).audit[k]))
  {
    RunStep(steps, n - 1);
    if k < |Run(steps[..n - 1]).audit| {
      j := AuditHasCommit(steps, n - 1, k);
    } else {
      j := n - 1;
    }
  }

  /** `b` reads the request before `a` commits and commits after it. */
  predicate Overlaps(steps: seq<Step>, a: nat, b: nat, i: nat, j: nat, k: nat) {
    a != b && i < j < k && Taken(steps, i, Load(b)) && Taken(steps, j, Commit(a)) && Taken(steps, k, Commit(b))
  }

  lemma TwoDecisionsOverlap(steps: seq<Step>) returns (a: nat, b: nat, i: nat, j: nat, k: nat)
    requires |Run(steps).audit| >= 2
    ensures Overlaps(steps, a, b, i, j, k)
  {
    assert steps[..|steps|] == steps;
    j := AuditHasCommit(steps, |steps|, 0);
    k := AuditHasCommit(steps, |steps|, 1);
    a, b := Run(steps).audit[0], Run(steps).audit[1];
    RunOk(steps[..k]);
    i := PassedHasLoaded(steps, k, b);
    OrderedByAudit(steps, j, k);
    RunOk(steps[..i]);
    if j < i {
      RunStep(steps, j);
      AuditGrows(steps, j + 1, i);
    }
    FirstIsNotSecond(steps, a, b, j, k);
  }

  lemma OrderedByAudit(steps: seq<Step>, j: nat, k: nat)
    requires j < |steps| && k < |steps| && |Run(steps[..j]).audit| < |Run(steps[..k]).audit|
    ensures j < k
  {
    if k <= j {
      AuditGrows(steps, k, j);
    }
  }

  lemma FirstIsNotSecond(steps: seq<Step>, a: nat, b: nat, j: nat, k: nat)
    requires j < k && Taken(steps, j, Commit(a)) && Taken(steps, k, Commit(b))
    ensures a != b
  {
    RunStep(steps, j);
    AuditGrows(steps, j + 1, k);
    RunOk(steps[..k]);
    assert Run(steps[..j + 1]).audit[|Run(steps[..j]).audit|] == a;
    assert a in Run(steps[..k]).audit;
  }

  lemma OverlapDecidesTwice(steps: seq<Step>, a: nat, b: nat, i: nat, j: nat, k: nat)
    requires Overlaps(steps, a, b, i, j, k)
    ensures |Run(steps).audit| >= 2
  {
    assert steps[..|steps|] == steps;
    RunStep(steps, j);
    RunStep(steps, k);
    AuditGrows(steps, j + 1, k);
    AuditGrows(steps, k + 1, |steps|);
  }

  /** One request is decided twice if and only if a decision read it before another committed and committed
      after that one. */
  lemma DecidedTwiceIff(steps: seq<Step>)
    ensures |Run(steps).audit| >= 2 <==>
      exists a: nat, b: nat, i: nat, j: nat, k: nat :: Overlaps(steps, a, b, i, j, k)
  {
    if |Run(steps).audit| >= 2 {
      var a, b, i, j, k := TwoDecisionsOverlap(steps);
    }
    if a: nat, b: nat, i: nat, j: nat, k: nat :| Overlaps(steps, a, b, i, j, k) {
      OverlapDecidesTwice(steps, a, b, i, j, k);
    }
  }

  /** It does happen: both read, then both commit. */
  lemma BothDecide(a: nat, b: nat)
    requires a != b
    ensures Run([Load(a), Load(b), Write(a), Commit(a), Write(b), Commit(b)]).audit == [a, b]
  {
    var steps := [Load(a), Load(b), Write(a), Commit(a), Write(b), Commit(b)];
    assert steps[..0] == [] && steps[..6] == steps;
    RunStep(steps, 0);
    RunStep(steps, 1);
    RunStep(steps, 2);
    RunStep(steps, 3);
    RunStep(steps, 4);
    RunStep(steps, 5);
  }
}
