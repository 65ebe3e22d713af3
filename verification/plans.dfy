/** Plans as values: what the validator checks and what the graph of a plan is. */
module Plans {
  import opened Vocabulary
  import opened Graphs

  datatype PlannedTask = PlannedTask(
    key: Key, objective: string, capability: Capability, agent: string,
    priority: int, expectedOutput: string, dependsOn: seq<Key>)

  /** The stages of the safety chain, in their mandated order. */
  const SAFETY_ORDER: seq<Capability> :=
    [CodeValidation, ComplianceCheck, Backtesting, StrategyEvaluation, RiskAssessment]

  function StageIndex(capability: Capability): (stage: nat)
    ensures stage < |SAFETY_ORDER| ==> SAFETY_ORDER[stage] == capability
    ensures forall i | 0 <= i < |SAFETY_ORDER| && SAFETY_ORDER[i] == capability :: i == stage
  {
    match capability
    case CodeValidation => 0
    case ComplianceCheck => 1
    case Backtesting => 2
    case StrategyEvaluation => 3
    case RiskAssessment => 4
    case _ => 5
  }

  predicate IsStage(capability: Capability) {
    StageIndex(capability) < |SAFETY_ORDER|
  }

  function Elements<T>(s: seq<T>): set<T> {
    set x | x in s
  }

  function Keys(tasks: seq<PlannedTask>): set<Key> {
    set i | 0 <= i < |tasks| :: tasks[i].key
  }

  predicate UniqueKeys(tasks: seq<PlannedTask>) {
    forall i, j | 0 <= i < j < |tasks| :: tasks[i].key != tasks[j].key
  }

  predicate HasCapability(tasks: seq<PlannedTask>, capability: Capability) {
    exists i | 0 <= i < |tasks| :: tasks[i].capability == capability
  }

  /** Key to dependency set; as in any dictionary, a later task with the same key wins. */
  function GraphOf(tasks: seq<PlannedTask>): (g: Graph)
    ensures g.Keys == Keys(tasks)
  {
    if tasks == [] then map[]
    else
      var last := tasks[|tasks| - 1];
      var init := tasks[..|tasks| - 1];
      assert Keys(tasks) == Keys(init) + {last.key} by { KeysOfAppend(init, last); assert tasks == init + [last]; }
      GraphOf(init)[last.key := Elements(last.dependsOn)]
  }

  lemma KeysOfAppend(tasks: seq<PlannedTask>, task: PlannedTask)
    ensures Keys(tasks + [task]) == Keys(tasks) + {task.key}
  {
    var longer := tasks + [task];
    assert longer[|tasks|] == task;
    forall k | k in Keys(tasks) ensures k in Keys(longer) {
      var i :| 0 <= i < |tasks| && tasks[i].key == k;
      assert longer[i].key == k;
    }
  }

  /** With unique keys, the edges of the graph are the declared dependencies and nothing else. */
  lemma GraphOfUnique(tasks: seq<PlannedTask>, i: nat)
    requires UniqueKeys(tasks) && i < |tasks|
    ensures tasks[i].key in GraphOf(tasks)
    ensures GraphOf(tasks)[tasks[i].key] == Elements(tasks[i].dependsOn)
  {
    var init := tasks[..|tasks| - 1];
    if i < |tasks| - 1 {
      GraphOfUnique(init, i);
      assert init[i] == tasks[i];
    }
  }

  /** `k` is declared to depend on `d` by some task of the plan. */
  predicate Declared(tasks: seq<PlannedTask>, k: Key, d: Key) {
    exists i | 0 <= i < |tasks| :: tasks[i].key == k && d in tasks[i].dependsOn
  }

  lemma EdgesAreDeclared(tasks: seq<PlannedTask>)
    requires UniqueKeys(tasks)
    ensures forall k, d :: Edge(GraphOf(tasks), k, d) <==> Declared(tasks, k, d)
  {
    forall k, d ensures Edge(GraphOf(tasks), k, d) <==> Declared(tasks, k, d) {
      if k in Keys(tasks) {
        var i :| 0 <= i < |tasks| && tasks[i].key == k;
        GraphOfUnique(tasks, i);
      }
    }
  }

  /** The task that stands for each capability: the last one declared with it. */
  function LastKeyFor(tasks: seq<PlannedTask>, capability: Capability): (key: Option<Key>)
    ensures key.Some? <==> HasCapability(tasks, capability)
  {
    if tasks == [] then None
    else if tasks[|tasks| - 1].capability == capability then Some(tasks[|tasks| - 1].key)
    else
      assert forall i | 0 <= i < |tasks| - 1 :: tasks[..|tasks| - 1][i] == tasks[i];
      LastKeyFor(tasks[..|tasks| - 1], capability)
  }

  lemma LastKeyIsLast(tasks: seq<PlannedTask>, capability: Capability) returns (i: nat)
    requires HasCapability(tasks, capability)
    ensures i < |tasks| && tasks[i].capability == capability && LastKeyFor(tasks, capability) == Some(tasks[i].key)
    ensures forall j | i < j < |tasks| :: tasks[j].capability != capability
  {
    i := |tasks| - 1;
    if tasks[i].capability != capability {
      var init := tasks[..|tasks| - 1];
      assert forall j | 0 <= j < |init| :: init[j] == tasks[j];
      i := LastKeyIsLast(init, capability);
    }
  }

  // --- the safety order ---

  /** Every later safety stage of the plan transitively depends on every earlier one, where a
      stage is represented by the last task that has its capability. */
  ghost predicate StageOrdered(tasks: seq<PlannedTask>) {
    forall i, j | 0 <= i < j < |SAFETY_ORDER|
                  && HasCapability(tasks, SAFETY_ORDER[i]) && HasCapability(tasks, SAFETY_ORDER[j]) ::
      Reaches(GraphOf(tasks), LastKeyFor(tasks, SAFETY_ORDER[j]).value, LastKeyFor(tasks, SAFETY_ORDER[i]).value)
  }

  /** What the safety order is for: no two tasks of different stages may run out of order. */
  ghost predicate FullyOrdered(tasks: seq<PlannedTask>) {
    forall a, b, i, j | 0 <= a < |tasks| && 0 <= b < |tasks| && 0 <= i < j < |SAFETY_ORDER|
                        && tasks[a].capability == SAFETY_ORDER[i] && tasks[b].capability == SAFETY_ORDER[j] ::
      Reaches(GraphOf(tasks), tasks[b].key, tasks[a].key)
  }

  /** No safety stage is repeated while another stage is present. */
  predicate StagesAreSingle(tasks: seq<PlannedTask>) {
    forall a, b, c | 0 <= a < b < |tasks| && 0 <= c < |tasks|
                     && tasks[a].capability == tasks[b].capability
                     && IsStage(tasks[a].capability) && IsStage(tasks[c].capability) ::
      tasks[c].capability == tasks[a].capability
  }

  // --- validity ---

  type Known = map<string, seq<Capability>>

  predicate AgentOk(task: PlannedTask, known: Known) {
    task.agent in known && task.capability in known[task.agent]
  }

  predicate DependenciesOk(tasks: seq<PlannedTask>, task: PlannedTask) {
    forall d | d in task.dependsOn :: d in Keys(tasks) && d != task.key
  }

  ghost predicate ValidPlan(tasks: seq<PlannedTask>, known: Known) {
    && tasks != []
    && UniqueKeys(tasks)
    && (forall i | 0 <= i < |tasks| :: AgentOk(tasks[i], known) && DependenciesOk(tasks, tasks[i]))
    && Acyclic(GraphOf(tasks))
    && StageOrdered(tasks)
  }
}
