/** The planner: deterministic validation of an untrusted plan, in-place scaffolding, the bounded
    retry loop and the rows a plan is stored as. */
module Planner {
  import opened Vocabulary
  import opened Registry
  import opened Graphs
  import opened Plans
  import opened Scaffold
  import PlanGraph
  import SafetyOrder
  import ScaffoldTheorems
  import ScaffoldPasses

  datatype PlanError =
    | NoTasks
    | DuplicateKeys
    | UnknownAgent(key: Key)
    | UndeclaredCapability(key: Key)
    | UnknownDependency(key: Key, dependency: Key)
    | SelfDependency(key: Key)
    | DependencyCycle(key: Key)
    | SafetyOrderViolated(earlier: Capability, later: Capability)

  datatype Check = Valid | Invalid(error: PlanError)

  /** The error names something that is really wrong with the plan. */
  ghost predicate ErrorIsReal(tasks: seq<PlannedTask>, known: Known, error: PlanError) {
    match error
    case NoTasks => tasks == []
    case DuplicateKeys => !UniqueKeys(tasks)
    case UnknownAgent(key) => exists i | 0 <= i < |tasks| :: tasks[i].key == key && tasks[i].agent !in known
    case UndeclaredCapability(key) => exists i | 0 <= i < |tasks| ::
      tasks[i].key == key && tasks[i].agent in known && tasks[i].capability !in known[tasks[i].agent]
    case UnknownDependency(key, d) => Declared(tasks, key, d) && d !in Keys(tasks)
    case SelfDependency(key) => Declared(tasks, key, key)
    case DependencyCycle(key) => Reaches(GraphOf(tasks), key, key)
    case SafetyOrderViolated(earlier, later) =>
      && HasCapability(tasks, earlier) && HasCapability(tasks, later)
      && StageIndex(earlier) < StageIndex(later) < |SAFETY_ORDER|
      && !Reaches(GraphOf(tasks), LastKeyFor(tasks, later).value, LastKeyFor(tasks, earlier).value)
  }

  method CheckTask(tasks: seq<PlannedTask>, known: Known, keys: set<Key>, i: nat) returns (check: Check)
    requires i < |tasks| && keys == Keys(tasks)
    ensures check.Valid? <==> AgentOk(tasks[i], known) && DependenciesOk(tasks, tasks[i])
    ensures check.Invalid? ==> ErrorIsReal(tasks, known, check.error)
  {
    var task := tasks[i];
    if task.agent !in known {
      return Invalid(UnknownAgent(task.key));
    }
    if task.capability !in known[task.agent] {
      return Invalid(UndeclaredCapability(task.key));
    }
    for j := 0 to |task.dependsOn|
      invariant forall k | 0 <= k < j :: task.dependsOn[k] in Keys(tasks) && task.dependsOn[k] != task.key
    {
      var dependency := task.dependsOn[j];
      if dependency !in keys {
        assert Declared(tasks, task.key, dependency);
        return Invalid(UnknownDependency(task.key, dependency));
      }
      if dependency == task.key {
        assert Declared(tasks, task.key, dependency);
        return Invalid(SelfDependency(task.key));
      }
    }
    check := Valid;
  }

  /** The present stages in mandated order, and the key standing for each. */
  ghost predicate PresentStages(tasks: seq<PlannedTask>, n: nat, present: seq<(Capability, Key)>) {
    && n <= |SAFETY_ORDER|
    && (forall p | 0 <= p < |present| ::
      StageIndex(present[p].0) < n && LastKeyFor(tasks, present[p].0) == Some(present[p].1))
    && (forall p, q | 0 <= p < q < |present| :: StageIndex(present[p].0) < StageIndex(present[q].0))
    && (forall i | 0 <= i < n && HasCapability(tasks, SAFETY_ORDER[i]) :: exists p | 0 <= p < |present| :: present[p].0 == SAFETY_ORDER[i])
  }

  method CollectStages(tasks: seq<PlannedTask>) returns (present: seq<(Capability, Key)>)
    ensures PresentStages(tasks, |SAFETY_ORDER|, present)
  {
    present := [];
    for n := 0 to |SAFETY_ORDER|
      invariant PresentStages(tasks, n, present)
    {
      assert StageIndex(SAFETY_ORDER[n]) == n;
      var key := LastKeyFor(tasks, SAFETY_ORDER[n]);
      if key.Some? {
        ghost var before := present;
        present := present + [(SAFETY_ORDER[n], key.value)];
        forall i | 0 <= i < n + 1 && HasCapability(tasks, SAFETY_ORDER[i])
          ensures exists p | 0 <= p < |present| :: present[p].0 == SAFETY_ORDER[i]
        {
          if i < n {
            var p :| 0 <= p < |before| && before[p].0 == SAFETY_ORDER[i];
            assert present[p].0 == SAFETY_ORDER[i];
          } else {
            assert present[|before|].0 == SAFETY_ORDER[i];
          }
        }
      }
    }
  }

  /** Neighbouring stages in order means all stages in order. */
  lemma {:induction false} NeighboursOrderAll(g: Graph, present: seq<(Capability, Key)>, p: nat, q: nat)
    requires p < q < |present|
    requires forall r | 0 <= r < |present| - 1 :: Reaches(g, present[r + 1].1, present[r].1)
    ensures Reaches(g, present[q].1, present[p].1)
  {
    assert Reaches(g, present[q - 1 + 1].1, present[q - 1].1);
    if p < q - 1 {
      NeighboursOrderAll(g, present, p, q - 1);
      ReachesTransitive(g, present[q].1, present[q - 1].1, present[p].1);
    }
  }

  lemma OrderedStagesAreAccepted(tasks: seq<PlannedTask>, present: seq<(Capability, Key)>)
    requires PresentStages(tasks, |SAFETY_ORDER|, present)
    requires forall r | 0 <= r < |present| - 1 :: Reaches(GraphOf(tasks), present[r + 1].1, present[r].1)
    ensures StageOrdered(tasks)
  {
    forall i, j | 0 <= i < j < |SAFETY_ORDER|
                  && HasCapability(tasks, SAFETY_ORDER[i]) && HasCapability(tasks, SAFETY_ORDER[j])
      ensures Reaches(GraphOf(tasks), LastKeyFor(tasks, SAFETY_ORDER[j]).value, LastKeyFor(tasks, SAFETY_ORDER[i]).value)
    {
      StagesAreOrdered(tasks, present, i, j);
    }
  }

  lemma StagesAreOrdered(tasks: seq<PlannedTask>, present: seq<(Capability, Key)>, i: nat, j: nat)
    requires PresentStages(tasks, |SAFETY_ORDER|, present)
    requires forall r | 0 <= r < |present| - 1 :: Reaches(GraphOf(tasks), present[r + 1].1, present[r].1)
    requires i < j < |SAFETY_ORDER| && HasCapability(tasks, SAFETY_ORDER[i]) && HasCapability(tasks, SAFETY_ORDER[j])
    ensures Reaches(GraphOf(tasks), LastKeyFor(tasks, SAFETY_ORDER[j]).value, LastKeyFor(tasks, SAFETY_ORDER[i]).value)
  {
    var p :| 0 <= p < |present| && present[p].0 == SAFETY_ORDER[i];
    var q :| 0 <= q < |present| && present[q].0 == SAFETY_ORDER[j];
    assert StageIndex(SAFETY_ORDER[i]) == i && StageIndex(SAFETY_ORDER[j]) == j;
    assert p < q;
    NeighboursOrderAll(GraphOf(tasks), present, p, q);
  }

  lemma ViolationIsReal(tasks: seq<PlannedTask>, earlier: Capability, later: Capability)
    requires HasCapability(tasks, earlier) && HasCapability(tasks, later)
    requires StageIndex(earlier) < StageIndex(later) < |SAFETY_ORDER|
    requires !Reaches(GraphOf(tasks), LastKeyFor(tasks, later).value, LastKeyFor(tasks, earlier).value)
    ensures !StageOrdered(tasks)
  {
  }

  lemma NeighbourViolation(tasks: seq<PlannedTask>, present: seq<(Capability, Key)>, r: nat)
    requires PresentStages(tasks, |SAFETY_ORDER|, present) && r + 1 < |present|
    requires !Reaches(GraphOf(tasks), present[r + 1].1, present[r].1)
    ensures !StageOrdered(tasks)
    ensures ErrorIsReal(tasks, map[], SafetyOrderViolated(present[r].0, present[r + 1].0))
  {
    var e := LastKeyIsLast(tasks, present[r].0);
    var l := LastKeyIsLast(tasks, present[r + 1].0);
    ViolationIsReal(tasks, present[r].0, present[r + 1].0);
  }

  /** Checks neighbouring stages only, against the closure computed in place. */
  method AssertSafetyOrder(tasks: seq<PlannedTask>) returns (check: Check)
    ensures check.Valid? <==> StageOrdered(tasks)
    ensures check.Invalid? ==> check.error.SafetyOrderViolated? && ErrorIsReal(tasks, map[], check.error)
  {
    var present := CollectStages(tasks);
    if |present| < 2 {
      OrderedStagesAreAccepted(tasks, present);
      return Valid;
    }
    var graph := GraphOf(tasks);
    TaskKeysCover(tasks);
    var reach := PlanGraph.TransitiveClosure(TaskKeys(tasks), graph);
    for r := 0 to |present| - 1
      invariant forall k | 0 <= k < r :: Reaches(graph, present[k + 1].1, present[k].1)
    {
      var earlier, later := present[r], present[r + 1];
      var l := LastKeyIsLast(tasks, later.0);
      if earlier.1 !in reach[later.1] {
        NeighbourViolation(tasks, present, r);
        return Invalid(SafetyOrderViolated(earlier.0, later.0));
      }
    }
    OrderedStagesAreAccepted(tasks, present);
    check := Valid;
  }

  lemma TaskKeysCover(tasks: seq<PlannedTask>)
    ensures forall k :: k in GraphOf(tasks) <==> k in TaskKeys(tasks)
  {
    ScaffoldPasses.TaskKeysAreKeys(tasks);
    assert forall k :: k in TaskKeys(tasks) <==> k in Elements(TaskKeys(tasks));
  }

  method HasUniqueKeys(tasks: seq<PlannedTask>) returns (unique: bool)
    ensures unique <==> UniqueKeys(tasks)
  {
    var seen: set<Key> := {};
    for i := 0 to |tasks|
      invariant UniqueKeys(tasks[..i])
      invariant forall k :: k in seen <==> exists j | 0 <= j < i :: tasks[j].key == k
    {
      if tasks[i].key in seen {
        return false;
      }
      seen := seen + {tasks[i].key};
    }
    assert tasks[..|tasks|] == tasks;
    unique := true;
  }

  /** The rules a plan has to meet, one by one. */
  ghost predicate MeetsTheRules(tasks: seq<PlannedTask>, known: Known) {
    && tasks != []
    && (forall i, j | 0 <= i < j < |tasks| :: tasks[i].key != tasks[j].key)
    && (forall i | 0 <= i < |tasks| :: tasks[i].agent in known && tasks[i].capability in known[tasks[i].agent])
    && (forall i, d | 0 <= i < |tasks| && d in tasks[i].dependsOn :: d != tasks[i].key && exists j | 0 <= j < |tasks| :: tasks[j].key == d)
    && (forall k :: !Reaches(GraphOf(tasks), k, k))
    && SafetyOrder.InMandatedOrder(tasks)
  }

  lemma {:induction false} ValidPlanMeetsTheRules(tasks: seq<PlannedTask>, known: Known)
    ensures ValidPlan(tasks, known) <==> MeetsTheRules(tasks, known)
  {
    SafetyOrder.StageOrderIsMandated(tasks);
    forall i | 0 <= i < |tasks|
      ensures DependenciesOk(tasks, tasks[i]) <==>
        forall d | d in tasks[i].dependsOn :: d != tasks[i].key && exists j | 0 <= j < |tasks| :: tasks[j].key == d {}
  }

  /** Accepts exactly the valid plans; a rejection names something that is really wrong. */
  method Validate(tasks: seq<PlannedTask>, known: Known) returns (check: Check)
    ensures check.Valid? <==> MeetsTheRules(tasks, known)
    ensures check.Valid? <==> ValidPlan(tasks, known)
    ensures check.Invalid? ==> ErrorIsReal(tasks, known, check.error)
  {
    ValidPlanMeetsTheRules(tasks, known);
    if tasks == [] {
      return Invalid(NoTasks);
    }
    var unique := HasUniqueKeys(tasks);
    if !unique {
      return Invalid(DuplicateKeys);
    }
    var keys := Keys(tasks);
    for i := 0 to |tasks|
      invariant forall j | 0 <= j < i :: AgentOk(tasks[j], known) && DependenciesOk(tasks, tasks[j])
    {
      check := CheckTask(tasks, known, keys, i);
      if check.Invalid? {
        return;
      }
    }
    var verdict, order := PlanGraph.AssertAcyclic(GraphOf(tasks));
    if verdict.CycleThrough? {
      return Invalid(DependencyCycle(verdict.node));
    }
    check := AssertSafetyOrder(tasks);
  }

  // --- the scaffolds, in place ---

  class GeneratedPlan {
    var tasks: seq<PlannedTask>
    const objective: Objective

    constructor (tasks: seq<PlannedTask>, objective: Objective)
      ensures this.tasks == tasks && this.objective == objective
    {
      this.tasks, this.objective := tasks, objective;
    }
  }

  /** Adds the context task of the slot unless the plan has one. */
  method AddContextTask(plan: GeneratedPlan, registry: seq<AgentRow>, planned: seq<PlannedTask>, i: nat)
    requires i < |CONTEXT_SCAFFOLD| && plan.tasks == WithContext(planned, registry, i)
    modifies plan
    ensures plan.tasks == WithContext(planned, registry, i + 1)
  {
    ScaffoldTheorems.ContextProviders(planned, registry, i, i);
    if !HasCapability(plan.tasks, CONTEXT_SCAFFOLD[i].capability) {
      plan.tasks := plan.tasks + [ContextTask(planned, registry, i)];
    }
  }

  /** Makes every strategy task wait for the assembly. */
  method WireStrategies(plan: GeneratedPlan, assembly: Key)
    modifies plan
    ensures plan.tasks == WireAll(old(plan.tasks), assembly)
  {
    ghost var full := plan.tasks;
    for i := 0 to |plan.tasks|
      invariant |plan.tasks| == |full|
      invariant forall j | 0 <= j < |full| :: plan.tasks[j] == if j < i then Wire(full[j], assembly) else full[j]
    {
      var task := plan.tasks[i];
      if IsStrategy(task.capability) && assembly !in task.dependsOn {
        plan.tasks := plan.tasks[i := task.(dependsOn := task.dependsOn + [assembly])];
      }
    }
  }

  method EnsureResearchScaffold(plan: GeneratedPlan, registry: seq<AgentRow>)
    modifies plan
    ensures plan.tasks == ResearchScaffold(old(plan.tasks), registry)
  {
    if !HasStrategy(plan.tasks) {
      return;
    }
    var planned := plan.tasks;
    for i := 0 to |CONTEXT_SCAFFOLD|
      invariant plan.tasks == WithContext(planned, registry, i)
    {
      AddContextTask(plan, registry, planned, i);
    }
    WireStrategies(plan, KeyForSlot(planned, ASSEMBLY));
  }

  method EnsureAdhocScaffold(plan: GeneratedPlan, registry: seq<AgentRow>)
    modifies plan
    ensures plan.tasks == AdhocScaffold(old(plan.tasks), plan.objective, registry)
  {
    if !IsAdhoc(plan.objective) {
      return;
    }
    if !HasCapability(plan.tasks, PortfolioRead) {
      plan.tasks := plan.tasks + [PortfolioTask(registry)];
    }
    if HasCapability(plan.tasks, AdhocSynthesis) {
      return;
    }
    plan.tasks := plan.tasks + [SynthesisTask(plan.tasks, registry)];
  }

  // --- the retry loop ---

  const MAX_PLAN_ATTEMPTS: nat := 3

  /** One reply of the language model. */
  datatype Reply = Unreadable | Refused(reason: string) | Proposed(tasks: seq<PlannedTask>, objective: Objective)

  datatype Planning = Planned(tasks: seq<PlannedTask>) | CannotPlan(exhausted: bool)

  /** A proposal that passes validation before and after scaffolding. */
  ghost predicate Acceptable(reply: Reply, registry: seq<AgentRow>) {
    && reply.Proposed?
    && ValidPlan(reply.tasks, KnownAgents(registry))
    && ValidPlan(ScaffoldPasses.BothScaffolds(reply.tasks, reply.objective, registry), KnownAgents(registry))
  }

  /** Replies that use up an attempt. */
  ghost predicate Rejected(reply: Reply, registry: seq<AgentRow>) {
    !reply.Refused? && !Acceptable(reply, registry)
  }

  ghost predicate FirstDecisive(replies: seq<Reply>, registry: seq<AgentRow>, a: nat) {
    && a < |replies|
    && !Rejected(replies[a], registry)
    && forall b | 0 <= b < a :: Rejected(replies[b], registry)
  }

  method TryReply(reply: Reply, registry: seq<AgentRow>) returns (plan: Option<seq<PlannedTask>>)
    requires reply.Proposed?
    ensures plan.Some? <==> Acceptable(reply, registry)
    ensures plan.Some? ==> plan.value == ScaffoldPasses.BothScaffolds(reply.tasks, reply.objective, registry)
  {
    var known := KnownAgents(registry);
    var generated := new GeneratedPlan(reply.tasks, reply.objective);
    var check := Validate(generated.tasks, known);
    if check.Invalid? {
      return None;
    }
    EnsureResearchScaffold(generated, registry);
    EnsureAdhocScaffold(generated, registry);
    check := Validate(generated.tasks, known);
    if check.Invalid? {
      return None;
    }
    plan := Some(generated.tasks);
  }

  /** The first reply that is not rejected decides: an acceptable one is scaffolded and kept, a
      refusal ends planning. Only three rejections exhaust the planner. */
  method GeneratePlan(registry: seq<AgentRow>, replies: seq<Reply>) returns (result: Planning)
    requires |replies| == 3
    ensures forall a: nat | FirstDecisive(replies, registry, a) ::
      result == if replies[a].Refused? then CannotPlan(false)
                else Planned(ScaffoldPasses.BothScaffolds(replies[a].tasks, replies[a].objective, registry))
    ensures result == CannotPlan(true) <==> forall a | 0 <= a < |replies| :: Rejected(replies[a], registry)
    ensures result.Planned? ==> ValidPlan(result.tasks, KnownAgents(registry))
  {
    for attempt := 0 to MAX_PLAN_ATTEMPTS
      invariant forall a | 0 <= a < attempt :: Rejected(replies[a], registry)
    {
      var reply := replies[attempt];
      if reply.Refused? {
        assert FirstDecisive(replies, registry, attempt);
        return CannotPlan(false);
      }
      if reply.Proposed? {
        var plan := TryReply(reply, registry);
        if plan.Some? {
          assert FirstDecisive(replies, registry, attempt);
          return Planned(plan.value);
        }
      }
    }
    result := CannotPlan(true);
  }

  // --- the stored rows ---

  function KeyIndex(tasks: seq<PlannedTask>, key: Key): (i: nat)
    requires key in Keys(tasks)
    ensures i < |tasks| && tasks[i].key == key
  {
    if tasks[|tasks| - 1].key == key then |tasks| - 1
    else
      var init := tasks[..|tasks| - 1];
      assert key in Keys(init) by { var j :| 0 <= j < |tasks| && tasks[j].key == key; assert init[j].key == key; }
      KeyIndex(init, key)
  }

  /** Dependency rows as (dependent, prerequisite) task indices; the pair is unique in the table. */
  type Pair = (nat, nat)

  ghost predicate RowsFor(tasks: seq<PlannedTask>, rows: seq<Pair>, i: nat, j: nat) {
    && i <= |tasks| && (i < |tasks| ==> j <= |tasks[i].dependsOn|)
    && NoDuplicates(rows)
    && (forall x: nat, y: nat :: (x, y) in rows <==>
      && x < |tasks| && y < |tasks|
      && ((x < i && tasks[y].key in tasks[x].dependsOn) || (x == i && tasks[y].key in tasks[x].dependsOn[..j])))
  }

  /** Stores one row per declared dependency. The unique constraint rejects the plan exactly when
      some task lists a dependency twice, which validation lets through. */
  method Persist(tasks: seq<PlannedTask>) returns (rows: Option<seq<Pair>>)
    requires UniqueKeys(tasks) && DependenciesClosed(tasks)
    ensures rows.Some? <==> forall i | 0 <= i < |tasks| :: NoDuplicates(tasks[i].dependsOn)
    ensures rows.Some? ==> RowsFor(tasks, rows.value, |tasks|, 0)
  {
    var stored: seq<Pair> := [];
    for i := 0 to |tasks|
      invariant RowsFor(tasks, stored, i, 0)
      invariant forall k | 0 <= k < i :: NoDuplicates(tasks[k].dependsOn)
    {
      var dependencies := tasks[i].dependsOn;
      for j := 0 to |dependencies|
        invariant RowsFor(tasks, stored, i, j)
        invariant NoDuplicates(dependencies[..j])
      {
        var prerequisite := KeyIndex(tasks, dependencies[j]);
        assert dependencies[..j + 1] == dependencies[..j] + [dependencies[j]];
        if (i, prerequisite) in stored {
          var k :| 0 <= k < j && dependencies[k] == dependencies[j];
          return None;
        }
        stored := stored + [(i, prerequisite)];
      }
      assert dependencies[..|dependencies|] == dependencies;
    }
    rows := Some(stored);
  }
}
