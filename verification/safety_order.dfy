/** What the accepted safety order guarantees, and exactly for which plans. */
module SafetyOrder {
  import opened Vocabulary
  import opened Graphs
  import opened Plans

  /** A full order of the safety tasks always passes the check on their representatives. */
  lemma FullOrderIsAccepted(tasks: seq<PlannedTask>)
    requires FullyOrdered(tasks)
    ensures StageOrdered(tasks)
  {
    forall i, j | 0 <= i < j < |SAFETY_ORDER|
                  && HasCapability(tasks, SAFETY_ORDER[i]) && HasCapability(tasks, SAFETY_ORDER[j])
      ensures Reaches(GraphOf(tasks), LastKeyFor(tasks, SAFETY_ORDER[j]).value, LastKeyFor(tasks, SAFETY_ORDER[i]).value)
    {
      var a := LastKeyIsLast(tasks, SAFETY_ORDER[i]);
      var b := LastKeyIsLast(tasks, SAFETY_ORDER[j]);
    }
  }

  lemma {:induction false} SameStageSameTask(tasks: seq<PlannedTask>, a: nat, b: nat, c: nat)
    requires StagesAreSingle(tasks) && a < |tasks| && b < |tasks| && c < |tasks|
    requires tasks[a].capability == tasks[b].capability != tasks[c].capability
    requires IsStage(tasks[a].capability) && IsStage(tasks[c].capability)
    ensures a == b
  {
  }

  lemma {:induction false} OnlyTaskOfStage(tasks: seq<PlannedTask>, a: nat, b: nat)
    requires StagesAreSingle(tasks) && a < |tasks| && b < |tasks|
    requires IsStage(tasks[a].capability) && IsStage(tasks[b].capability) && tasks[a].capability != tasks[b].capability
    ensures LastKeyFor(tasks, tasks[a].capability) == Some(tasks[a].key)
  {
    assert HasCapability(tasks, tasks[a].capability);
    var l := LastKeyIsLast(tasks, tasks[a].capability);
    SameStageSameTask(tasks, a, l, b);
  }

  lemma AcceptedSingleStagesAreFullyOrdered(tasks: seq<PlannedTask>)
    requires UniqueKeys(tasks) && StagesAreSingle(tasks) && StageOrdered(tasks)
    ensures FullyOrdered(tasks)
  {
    forall a, b, i, j | 0 <= a < |tasks| && 0 <= b < |tasks| && 0 <= i < j < |SAFETY_ORDER|
                        && tasks[a].capability == SAFETY_ORDER[i] && tasks[b].capability == SAFETY_ORDER[j]
      ensures Reaches(GraphOf(tasks), tasks[b].key, tasks[a].key)
    {
      StageTasksAreOrdered(tasks, a, b, i, j);
    }
  }

  lemma {:induction false} StageTasksAreOrdered(tasks: seq<PlannedTask>, a: nat, b: nat, i: nat, j: nat)
    requires UniqueKeys(tasks) && StagesAreSingle(tasks) && StageOrdered(tasks)
    requires a < |tasks| && b < |tasks| && i < j < |SAFETY_ORDER|
    requires tasks[a].capability == SAFETY_ORDER[i] && tasks[b].capability == SAFETY_ORDER[j]
    ensures Reaches(GraphOf(tasks), tasks[b].key, tasks[a].key)
  {
    assert StageIndex(SAFETY_ORDER[i]) == i && StageIndex(SAFETY_ORDER[j]) == j;
    OnlyTaskOfStage(tasks, a, b);
    OnlyTaskOfStage(tasks, b, a);
  }

  /** Same tasks, agents and capabilities; only the dependencies may differ. */
  predicate SameShape(tasks: seq<PlannedTask>, other: seq<PlannedTask>) {
    && |tasks| == |other|
    && forall i | 0 <= i < |tasks| ::
      other[i].key == tasks[i].key && other[i].capability == tasks[i].capability && other[i].agent == tasks[i].agent
  }

  lemma SameShapeSameKeys(tasks: seq<PlannedTask>, other: seq<PlannedTask>)
    requires SameShape(tasks, other)
    ensures Keys(tasks) == Keys(other)
    ensures forall c :: HasCapability(tasks, c) <==> HasCapability(other, c)
  {
  }

  lemma SameShapeSameLastKey(tasks: seq<PlannedTask>, other: seq<PlannedTask>, capability: Capability)
    requires SameShape(tasks, other)
    ensures LastKeyFor(tasks, capability) == LastKeyFor(other, capability)
  {
    if tasks != [] {
      SameShapeSameLastKey(tasks[..|tasks| - 1], other[..|other| - 1], capability);
    }
  }

  lemma SameShapeSameStages(tasks: seq<PlannedTask>, other: seq<PlannedTask>)
    requires SameShape(tasks, other) && StagesAreSingle(tasks)
    ensures StagesAreSingle(other)
  {
  }

  lemma RepeatedStage(tasks: seq<PlannedTask>) returns (a: nat, b: nat, c: nat)
    requires !StagesAreSingle(tasks)
    ensures a < b < |tasks| && c < |tasks|
    ensures tasks[a].capability == tasks[b].capability != tasks[c].capability
    ensures IsStage(tasks[a].capability) && IsStage(tasks[c].capability)
  {
    a, b, c :| 0 <= a < b < |tasks| && 0 <= c < |tasks|
      && tasks[a].capability == tasks[b].capability != tasks[c].capability
      && IsStage(tasks[a].capability) && IsStage(tasks[c].capability);
  }

  /** The keys standing for the first `n` stages that are present. */
  function StageKeys(tasks: seq<PlannedTask>, n: nat): (keys: seq<Key>)
    requires n <= |SAFETY_ORDER|
    ensures forall k :: k in keys <==> exists i | 0 <= i < n :: LastKeyFor(tasks, SAFETY_ORDER[i]) == Some(k)
  {
    if n == 0 then []
    else
      var rest := StageKeys(tasks, n - 1);
      var last := LastKeyFor(tasks, SAFETY_ORDER[n - 1]);
      if last.Some? then rest + [last.value] else rest
  }

  predicate StandsForStage(tasks: seq<PlannedTask>, task: PlannedTask) {
    StageIndex(task.capability) < |SAFETY_ORDER| && LastKeyFor(tasks, task.capability) == Some(task.key)
  }

  /** The least dependencies the check asks for: each stage's last task waits for the last tasks of
      the earlier stages, and nothing else depends on anything. */
  function Minimal(tasks: seq<PlannedTask>): (minimal: seq<PlannedTask>)
    ensures SameShape(tasks, minimal)
  {
    seq(|tasks|, i requires 0 <= i < |tasks| =>
      tasks[i].(dependsOn := if StandsForStage(tasks, tasks[i]) then StageKeys(tasks, StageIndex(tasks[i].capability)) else []))
  }

  lemma MinimalEdge(tasks: seq<PlannedTask>, k: Key, d: Key) returns (i: nat, j: nat)
    requires UniqueKeys(tasks) && Edge(GraphOf(Minimal(tasks)), k, d)
    ensures i < |tasks| && tasks[i].key == k && StandsForStage(tasks, tasks[i])
    ensures j < |tasks| && tasks[j].key == d && StandsForStage(tasks, tasks[j])
    ensures StageIndex(tasks[j].capability) < StageIndex(tasks[i].capability)
  {
    var minimal := Minimal(tasks);
    EdgesAreDeclared(minimal);
    i :| 0 <= i < |minimal| && minimal[i].key == k && d in minimal[i].dependsOn;
    var s :| 0 <= s < StageIndex(tasks[i].capability) && LastKeyFor(tasks, SAFETY_ORDER[s]) == Some(d);
    j := LastKeyIsLast(tasks, SAFETY_ORDER[s]);
  }

  function StageOfKey(tasks: seq<PlannedTask>, key: Key): nat {
    if tasks == [] then 0
    else if tasks[|tasks| - 1].key == key then StageIndex(tasks[|tasks| - 1].capability)
    else StageOfKey(tasks[..|tasks| - 1], key)
  }

  lemma StageOfTaskKey(tasks: seq<PlannedTask>, i: nat)
    requires UniqueKeys(tasks) && i < |tasks|
    ensures StageOfKey(tasks, tasks[i].key) == StageIndex(tasks[i].capability)
  {
    if i < |tasks| - 1 {
      StageOfTaskKey(tasks[..|tasks| - 1], i);
    }
  }

  lemma MinimalIsAcyclic(tasks: seq<PlannedTask>)
    requires UniqueKeys(tasks)
    ensures Acyclic(GraphOf(Minimal(tasks)))
  {
    var rank := (k: Key) => StageOfKey(tasks, k);
    forall a, b | Edge(GraphOf(Minimal(tasks)), a, b) ensures rank(b) < rank(a) {
      var i, j := MinimalEdge(tasks, a, b);
      StageOfTaskKey(tasks, i);
      StageOfTaskKey(tasks, j);
    }
    RankedIsAcyclic(GraphOf(Minimal(tasks)), rank);
  }

  lemma MinimalIsAccepted(tasks: seq<PlannedTask>)
    requires UniqueKeys(tasks)
    ensures StageOrdered(Minimal(tasks))
  {
    var minimal := Minimal(tasks);
    SameShapeSameKeys(tasks, minimal);
    forall i, j | 0 <= i < j < |SAFETY_ORDER|
                  && HasCapability(minimal, SAFETY_ORDER[i]) && HasCapability(minimal, SAFETY_ORDER[j])
      ensures Reaches(GraphOf(minimal), LastKeyFor(minimal, SAFETY_ORDER[j]).value, LastKeyFor(minimal, SAFETY_ORDER[i]).value)
    {
      SameShapeSameLastKey(tasks, minimal, SAFETY_ORDER[i]);
      SameShapeSameLastKey(tasks, minimal, SAFETY_ORDER[j]);
      var b := LastKeyIsLast(tasks, SAFETY_ORDER[j]);
      var a := LastKeyIsLast(tasks, SAFETY_ORDER[i]);
      GraphOfUnique(minimal, b);
      assert tasks[a].key in minimal[b].dependsOn;
      EdgeReaches(GraphOf(minimal), tasks[b].key, tasks[a].key);
    }
  }

  /** A task that stands for no stage has no edges at all. */
  lemma BystanderIsUnordered(tasks: seq<PlannedTask>, a: nat, k: Key)
    requires UniqueKeys(tasks) && a < |tasks| && !StandsForStage(tasks, tasks[a])
    ensures !Reaches(GraphOf(Minimal(tasks)), tasks[a].key, k)
    ensures !Reaches(GraphOf(Minimal(tasks)), k, tasks[a].key)
  {
    var g := GraphOf(Minimal(tasks));
    if Reaches(g, tasks[a].key, k) {
      var m := ReachesFirstEdge(g, tasks[a].key, k);
      var x, y := MinimalEdge(tasks, tasks[a].key, m);
    }
    if Reaches(g, k, tasks[a].key) {
      var m := ReachesLastEdge(g, k, tasks[a].key);
      var x, y := MinimalEdge(tasks, m, tasks[a].key);
    }
  }

  lemma UnorderedPair(tasks: seq<PlannedTask>, a: nat, b: nat)
    requires a < |tasks| && b < |tasks|
    requires StageIndex(tasks[a].capability) < StageIndex(tasks[b].capability) < |SAFETY_ORDER|
    requires !Reaches(GraphOf(tasks), tasks[b].key, tasks[a].key)
    ensures !FullyOrdered(tasks)
  {
  }

  /** `a` and a later task share a stage, `c` belongs to another one. */
  lemma RepeatedStageIsUnordered(tasks: seq<PlannedTask>, a: nat, b: nat, c: nat)
    requires UniqueKeys(tasks) && a < b < |tasks| && c < |tasks|
    requires tasks[a].capability == tasks[b].capability != tasks[c].capability
    requires IsStage(tasks[a].capability) && IsStage(tasks[c].capability)
    ensures !FullyOrdered(Minimal(tasks))
  {
    var minimal := Minimal(tasks);
    var l := LastKeyIsLast(tasks, tasks[a].capability);
    assert l >= b && tasks[l].key != tasks[a].key;
    BystanderIsUnordered(tasks, a, tasks[c].key);
    if StageIndex(tasks[a].capability) < StageIndex(tasks[c].capability) {
      UnorderedPair(minimal, a, c);
    } else {
      UnorderedPair(minimal, c, a);
    }
  }

  /** The check fixes the order of all safety tasks exactly for the plan shapes in which no stage
      is repeated beside another stage; for every other shape it accepts some acyclic plan whose
      repeated stage is unordered. */
  lemma AcceptanceMeansFullOrderIff(tasks: seq<PlannedTask>)
    requires UniqueKeys(tasks)
    ensures StagesAreSingle(tasks) <==>
      forall other | SameShape(tasks, other) && Acyclic(GraphOf(other)) && StageOrdered(other) :: FullyOrdered(other)
  {
    if StagesAreSingle(tasks) {
      forall other | SameShape(tasks, other) && Acyclic(GraphOf(other)) && StageOrdered(other) ensures FullyOrdered(other) {
        SameShapeSameStages(tasks, other);
        AcceptedSingleStagesAreFullyOrdered(other);
      }
    } else {
      MinimalIsAcyclic(tasks);
      MinimalIsAccepted(tasks);
      var a, b, c := RepeatedStage(tasks);
      RepeatedStageIsUnordered(tasks, a, b, c);
    }
  }

  // --- the mandated order, stage by stage ---

  /** The last task of the plan with this capability. */
  predicate IsLastOf(tasks: seq<PlannedTask>, i: nat, capability: Capability) {
    i < |tasks| && tasks[i].capability == capability && forall j | i < j < |tasks| :: tasks[j].capability != capability
  }

  /** If both are present, the last task of the later stage depends on the last task of the earlier one. */
  ghost predicate ComesBefore(tasks: seq<PlannedTask>, earlier: Capability, later: Capability) {
    forall a: nat, b: nat | IsLastOf(tasks, a, earlier) && IsLastOf(tasks, b, later) :: Reaches(GraphOf(tasks), tasks[b].key, tasks[a].key)
  }

  ghost predicate InMandatedOrder(tasks: seq<PlannedTask>) {
    && ComesBefore(tasks, CodeValidation, ComplianceCheck)
    && ComesBefore(tasks, CodeValidation, Backtesting)
    && ComesBefore(tasks, CodeValidation, StrategyEvaluation)
    && ComesBefore(tasks, CodeValidation, RiskAssessment)
    && ComesBefore(tasks, ComplianceCheck, Backtesting)
    && ComesBefore(tasks, ComplianceCheck, StrategyEvaluation)
    && ComesBefore(tasks, ComplianceCheck, RiskAssessment)
    && ComesBefore(tasks, Backtesting, StrategyEvaluation)
    && ComesBefore(tasks, Backtesting, RiskAssessment)
    && ComesBefore(tasks, StrategyEvaluation, RiskAssessment)
  }

  lemma {:induction false} LastOfIff(tasks: seq<PlannedTask>, capability: Capability, a: nat)
    requires IsLastOf(tasks, a, capability)
    ensures HasCapability(tasks, capability) && LastKeyFor(tasks, capability) == Some(tasks[a].key)
  {
    var l := LastKeyIsLast(tasks, capability);
  }

  lemma {:induction false} ComesBeforeIff(tasks: seq<PlannedTask>, i: nat, j: nat)
    requires i < j < |SAFETY_ORDER|
    ensures ComesBefore(tasks, SAFETY_ORDER[i], SAFETY_ORDER[j]) <==>
      (HasCapability(tasks, SAFETY_ORDER[i]) && HasCapability(tasks, SAFETY_ORDER[j]) ==>
        Reaches(GraphOf(tasks), LastKeyFor(tasks, SAFETY_ORDER[j]).value, LastKeyFor(tasks, SAFETY_ORDER[i]).value))
  {
    forall a: nat, b: nat | IsLastOf(tasks, a, SAFETY_ORDER[i]) && IsLastOf(tasks, b, SAFETY_ORDER[j])
      ensures HasCapability(tasks, SAFETY_ORDER[i]) && LastKeyFor(tasks, SAFETY_ORDER[i]) == Some(tasks[a].key)
      ensures HasCapability(tasks, SAFETY_ORDER[j]) && LastKeyFor(tasks, SAFETY_ORDER[j]) == Some(tasks[b].key)
    {
      LastOfIff(tasks, SAFETY_ORDER[i], a);
      LastOfIff(tasks, SAFETY_ORDER[j], b);
    }
    if HasCapability(tasks, SAFETY_ORDER[i]) && HasCapability(tasks, SAFETY_ORDER[j]) {
      var a := LastKeyIsLast(tasks, SAFETY_ORDER[i]);
      var b := LastKeyIsLast(tasks, SAFETY_ORDER[j]);
      assert IsLastOf(tasks, a, SAFETY_ORDER[i]) && IsLastOf(tasks, b, SAFETY_ORDER[j]);
    }
  }

  ghost predicate AllInOrder(tasks: seq<PlannedTask>, order: seq<Capability>) {
    forall i: nat, j: nat {:trigger ComesBefore(tasks, order[i], order[j])} | i < j < |order| :: ComesBefore(tasks, order[i], order[j])
  }

  lemma {:induction false} StageOrderIsPairwise(tasks: seq<PlannedTask>)
    ensures StageOrdered(tasks) <==> AllInOrder(tasks, SAFETY_ORDER)
  {
    forall i: nat, j: nat | i < j < |SAFETY_ORDER|
      ensures ComesBefore(tasks, SAFETY_ORDER[i], SAFETY_ORDER[j]) <==>
        (HasCapability(tasks, SAFETY_ORDER[i]) && HasCapability(tasks, SAFETY_ORDER[j]) ==>
          Reaches(GraphOf(tasks), LastKeyFor(tasks, SAFETY_ORDER[j]).value, LastKeyFor(tasks, SAFETY_ORDER[i]).value))
    {
      ComesBeforeIff(tasks, i, j);
    }
  }

  predicate AreTheStages(order: seq<Capability>) {
    && |order| == 5 && order[0] == CodeValidation && order[1] == ComplianceCheck && order[2] == Backtesting
    && order[3] == StrategyEvaluation && order[4] == RiskAssessment
  }

  /** The ten pairs of five stages. */
  lemma TenPairs(order: seq<Capability>, before: (Capability, Capability) -> bool)
    requires AreTheStages(order)
    ensures (forall i: nat, j: nat | i < j < |order| :: before(order[i], order[j])) <==>
      && before(CodeValidation, ComplianceCheck) && before(CodeValidation, Backtesting)
      && before(CodeValidation, StrategyEvaluation) && before(CodeValidation, RiskAssessment)
      && before(ComplianceCheck, Backtesting) && before(ComplianceCheck, StrategyEvaluation)
      && before(ComplianceCheck, RiskAssessment) && before(Backtesting, StrategyEvaluation)
      && before(Backtesting, RiskAssessment) && before(StrategyEvaluation, RiskAssessment)
  {
    if forall i: nat, j: nat | i < j < |order| :: before(order[i], order[j]) {
      assert before(order[0], order[1]) && before(order[0], order[2]) && before(order[0], order[3]) && before(order[0], order[4]);
      assert before(order[1], order[2]) && before(order[1], order[3]) && before(order[1], order[4]);
      assert before(order[2], order[3]) && before(order[2], order[4]) && before(order[3], order[4]);
    }
  }

  lemma {:induction false} PairwiseIsMandated(tasks: seq<PlannedTask>, order: seq<Capability>)
    requires AreTheStages(order)
    ensures AllInOrder(tasks, order) <==> InMandatedOrder(tasks)
  {
    ghost var before := (a: Capability, b: Capability) => ComesBefore(tasks, a, b);
    assert AllInOrder(tasks, order) <==> forall i: nat, j: nat | i < j < |order| :: before(order[i], order[j]);
    TenPairs(order, before);
  }

  /** The validator's condition on the stages is the mandated order of code validation, compliance check,
      backtesting, strategy evaluation and risk assessment. */
  lemma {:induction false} StageOrderIsMandated(tasks: seq<PlannedTask>)
    ensures StageOrdered(tasks) <==> InMandatedOrder(tasks)
  {
    StageOrderIsPairwise(tasks);
    assert AreTheStages(SAFETY_ORDER);
    PairwiseIsMandated(tasks, SAFETY_ORDER);
  }
}
