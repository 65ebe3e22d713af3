/** The planner's promises about a scaffolded plan, for every plan and registry. */
module ScaffoldResults {
  import opened Vocabulary
  import opened Registry
  import opened Graphs
  import opened Plans
  import opened Scaffold
  import opened ScaffoldTheorems
  import SafetyOrder

  function FullContext(tasks: seq<PlannedTask>, registry: seq<AgentRow>): seq<PlannedTask> {
    WithContext(tasks, registry, |CONTEXT_SCAFFOLD|)
  }

  function Assembly(tasks: seq<PlannedTask>): Key {
    KeyForSlot(tasks, ASSEMBLY)
  }

  lemma StrategyKeysOfAppend(tasks: seq<PlannedTask>, task: PlannedTask)
    requires !IsStrategy(task.capability)
    ensures StrategyKeys(tasks + [task]) == StrategyKeys(tasks)
  {
    var longer := tasks + [task];
    assert longer[|tasks|] == task;
    forall i | 0 <= i < |tasks| ensures longer[i] == tasks[i] {}
    forall k | k in StrategyKeys(tasks) ensures k in StrategyKeys(longer) {
      var i :| 0 <= i < |tasks| && IsStrategy(tasks[i].capability) && tasks[i].key == k;
      assert IsStrategy(longer[i].capability) && longer[i].key == k;
    }
  }

  lemma ContextAddsNoStrategy(tasks: seq<PlannedTask>, registry: seq<AgentRow>, n: nat)
    requires n <= |CONTEXT_SCAFFOLD|
    ensures StrategyKeys(WithContext(tasks, registry, n)) == StrategyKeys(tasks)
  {
    if n > 0 {
      ContextAddsNoStrategy(tasks, registry, n - 1);
      SlotIsNeither(n - 1);
      StrategyKeysOfAppend(WithContext(tasks, registry, n - 1), ContextTask(tasks, registry, n - 1));
    }
  }

  // --- when the research scaffold keeps a plan valid ---

  lemma PlannedProviderFeedsBack(tasks: seq<PlannedTask>, registry: seq<AgentRow>, i: nat, s: Key)
    requires ValidPlan(tasks, KnownAgents(registry)) && UniqueKeys(FullContext(tasks, registry))
    requires i < |CONTEXT_SCAFFOLD| && !SlotIsMissing(tasks, i) && (i == ASSEMBLY || SlotIsMissing(tasks, ASSEMBLY))
    requires Reaches(GraphOf(tasks), KeyForSlot(tasks, i), s)
    ensures Reaches(GraphOf(FullContext(tasks, registry)), Assembly(tasks), s)
  {
    ValidIsClosed(tasks, KnownAgents(registry));
    var l := LastKeyIsLast(tasks, CONTEXT_SCAFFOLD[i].capability);
    ContextKeepsReachability(tasks, registry, |CONTEXT_SCAFFOLD|, KeyForSlot(tasks, i), s);
    if i != ASSEMBLY {
      AssemblyReadsSlot(tasks, registry, i);
      EdgeReaches(GraphOf(FullContext(tasks, registry)), Assembly(tasks), KeyForSlot(tasks, i));
      ReachesTransitive(GraphOf(FullContext(tasks, registry)), Assembly(tasks), KeyForSlot(tasks, i), s);
    }
  }

  lemma AssemblyInput(tasks: seq<PlannedTask>, registry: seq<AgentRow>, i: nat)
    requires i < ASSEMBLY
    ensures KeyForSlot(tasks, i) in ContextTask(tasks, registry, ASSEMBLY).dependsOn
  {
    assert CONTEXT_SCAFFOLD[ASSEMBLY].inputs[i] == i;
    assert ContextTask(tasks, registry, ASSEMBLY).dependsOn[i] == KeyForSlot(tasks, i);
  }

  /** An added assembly task depends on the provider of each other context capability. */
  lemma AssemblyReadsSlot(tasks: seq<PlannedTask>, registry: seq<AgentRow>, i: nat)
    requires UniqueKeys(FullContext(tasks, registry)) && i < ASSEMBLY && SlotIsMissing(tasks, ASSEMBLY)
    ensures Edge(GraphOf(FullContext(tasks, registry)), Assembly(tasks), KeyForSlot(tasks, i))
  {
    AddedContextEdge(tasks, registry, ASSEMBLY, KeyForSlot(tasks, i));
    AssemblyInput(tasks, registry, i);
  }

  /** The assembly waits for a strategy task exactly when a planned provider already does. */
  lemma AssemblyWaitsForStrategyIff(tasks: seq<PlannedTask>, registry: seq<AgentRow>)
    requires ValidPlan(tasks, KnownAgents(registry)) && FreshSlots(tasks) && UniqueKeys(FullContext(tasks, registry))
    ensures (exists s | s in StrategyKeys(tasks) :: Reaches(GraphOf(FullContext(tasks, registry)), Assembly(tasks), s))
       <==> Feedback(tasks)
  {
    ValidIsClosed(tasks, KnownAgents(registry));
    var full := GraphOf(FullContext(tasks, registry));
    if Feedback(tasks) {
      var i, s :| 0 <= i < |CONTEXT_SCAFFOLD| && !SlotIsMissing(tasks, i) && s in StrategyKeys(tasks)
        && (i == ASSEMBLY || SlotIsMissing(tasks, ASSEMBLY)) && Reaches(GraphOf(tasks), KeyForSlot(tasks, i), s);
      PlannedProviderFeedsBack(tasks, registry, i, s);
    }
    if s :| s in StrategyKeys(tasks) && Reaches(full, Assembly(tasks), s) {
      if SlotIsMissing(tasks, ASSEMBLY) {
        var j := AddedContextReaches(tasks, registry, ASSEMBLY, s);
        assert Reaches(GraphOf(tasks), KeyForSlot(tasks, j), s);
      } else {
        var l := LastKeyIsLast(tasks, ContextAssembly);
        ContextKeepsReachability(tasks, registry, |CONTEXT_SCAFFOLD|, Assembly(tasks), s);
        assert Reaches(GraphOf(tasks), KeyForSlot(tasks, ASSEMBLY), s);
      }
    }
  }

  lemma ServableMeansUnique(tasks: seq<PlannedTask>, registry: seq<AgentRow>, j: nat)
    requires j < |CONTEXT_SCAFFOLD| && SlotIsMissing(tasks, j) && UniqueKeys(FullContext(tasks, registry))
    ensures CONTEXT_SCAFFOLD[j].key !in Keys(tasks)
  {
    var full := FullContext(tasks, registry);
    ContextExtends(tasks, registry, |CONTEXT_SCAFFOLD|);
    var k := ContextTaskIndex(tasks, registry, |CONTEXT_SCAFFOLD|, j);
    forall i | 0 <= i < |tasks| ensures tasks[i].key != CONTEXT_SCAFFOLD[j].key {
      assert full[i].key != full[k].key;
    }
  }

  /** Scaffolding cannot repair what makes a slot unservable. */
  lemma WiredValidMeansServable(tasks: seq<PlannedTask>, registry: seq<AgentRow>, j: nat)
    requires UniqueNames(registry) && j < |CONTEXT_SCAFFOLD|
    requires ValidPlan(WireAll(FullContext(tasks, registry), Assembly(tasks)), KnownAgents(registry))
    ensures SlotServable(tasks, registry, j)
  {
    var full := FullContext(tasks, registry);
    WireKeepsShape(full, Assembly(tasks));
    if SlotIsMissing(tasks, j) {
      ServableMeansUnique(tasks, registry, j);
      var k := ContextTaskIndex(tasks, registry, |CONTEXT_SCAFFOLD|, j);
      assert AgentOk(WireAll(full, Assembly(tasks))[k], KnownAgents(registry));
      ResolvedAgentIsKnown(registry, CONTEXT_SCAFFOLD[j].capability, CONTEXT_SCAFFOLD[j].agent);
    }
  }

  lemma FullContextHasAssembly(tasks: seq<PlannedTask>, registry: seq<AgentRow>)
    ensures LastKeyFor(FullContext(tasks, registry), ContextAssembly) == Some(Assembly(tasks))
  {
    ContextProviders(tasks, registry, |CONTEXT_SCAFFOLD|, ASSEMBLY);
  }

  predicate AllServable(tasks: seq<PlannedTask>, registry: seq<AgentRow>) {
    forall j | 0 <= j < |CONTEXT_SCAFFOLD| :: SlotServable(tasks, registry, j)
  }

  lemma ServableIsValidIff(tasks: seq<PlannedTask>, registry: seq<AgentRow>)
    requires UniqueNames(registry) && ValidPlan(tasks, KnownAgents(registry)) && AllServable(tasks, registry)
    ensures ValidPlan(WireAll(FullContext(tasks, registry), Assembly(tasks)), KnownAgents(registry)) <==> !Feedback(tasks)
  {
    var full := FullContext(tasks, registry);
    WithContextIsValidIff(tasks, registry, |CONTEXT_SCAFFOLD|);
    FullContextHasAssembly(tasks, registry);
    WiredIsValidIff(full, KnownAgents(registry), Assembly(tasks));
    ContextAddsNoStrategy(tasks, registry, |CONTEXT_SCAFFOLD|);
    assert FreshSlots(tasks) by {
      forall k | 0 <= k < |CONTEXT_SCAFFOLD| && SlotIsMissing(tasks, k) ensures CONTEXT_SCAFFOLD[k].key !in Keys(tasks) {
        assert SlotServable(tasks, registry, k);
      }
    }
    AssemblyWaitsForStrategyIff(tasks, registry);
  }

  /** A valid strategy plan stays valid under the research scaffold exactly when every missing context
      task can be added and no planned context task waits for a strategy task. */
  lemma ResearchScaffoldIsValidIff(tasks: seq<PlannedTask>, registry: seq<AgentRow>)
    requires UniqueNames(registry) && ValidPlan(tasks, KnownAgents(registry)) && HasStrategy(tasks)
    ensures ValidPlan(ResearchScaffold(tasks, registry), KnownAgents(registry))
      <==> AllServable(tasks, registry) && !Feedback(tasks)
  {
    if AllServable(tasks, registry) {
      ServableIsValidIff(tasks, registry);
    } else if ValidPlan(WireAll(FullContext(tasks, registry), Assembly(tasks)), KnownAgents(registry)) {
      forall j | 0 <= j < |CONTEXT_SCAFFOLD| ensures SlotServable(tasks, registry, j) {
        WiredValidMeansServable(tasks, registry, j);
      }
    }
  }

  // --- what the strategy tasks end up waiting for ---

  lemma StrategyIsWired(tasks: seq<PlannedTask>, registry: seq<AgentRow>, s: Key)
    requires UniqueKeys(FullContext(tasks, registry)) && s in StrategyKeys(tasks)
    ensures HasStrategy(tasks) && UniqueKeys(ResearchScaffold(tasks, registry))
    ensures SubGraph(GraphOf(FullContext(tasks, registry)), GraphOf(ResearchScaffold(tasks, registry)))
    ensures Reaches(GraphOf(ResearchScaffold(tasks, registry)), s, Assembly(tasks))
  {
    var full := FullContext(tasks, registry);
    WireKeepsShape(full, Assembly(tasks));
    WireRedirects(full, Assembly(tasks));
    ContextAddsNoStrategy(tasks, registry, |CONTEXT_SCAFFOLD|);
    EdgeReaches(GraphOf(ResearchScaffold(tasks, registry)), s, Assembly(tasks));
  }

  lemma PlannedEdgeStaysInside(tasks: seq<PlannedTask>, registry: seq<AgentRow>, x: Key, y: Key)
    requires ValidPlan(tasks, KnownAgents(registry)) && UniqueKeys(FullContext(tasks, registry))
    requires !SlotIsMissing(tasks, ASSEMBLY) && HasStrategy(tasks)
    requires Edge(GraphOf(ResearchScaffold(tasks, registry)), x, y) && x in Keys(tasks)
    ensures y in Keys(tasks)
  {
    var full := FullContext(tasks, registry);
    WireRedirects(full, Assembly(tasks));
    if y == Assembly(tasks) {
      var l := LastKeyIsLast(tasks, ContextAssembly);
    } else {
      ValidIsClosed(tasks, KnownAgents(registry));
      EdgeReaches(GraphOf(full), x, y);
      ContextKeepsReachability(tasks, registry, |CONTEXT_SCAFFOLD|, x, y);
      var m := ReachesLastEdge(GraphOf(tasks), x, y);
      EdgesAreDeclared(tasks);
    }
  }

  /** No planned task can come to depend on a task added under a new key, unless it is the assembly. */
  lemma PlannedTasksStayInside(tasks: seq<PlannedTask>, registry: seq<AgentRow>, p: seq<Key>)
    requires ValidPlan(tasks, KnownAgents(registry)) && UniqueKeys(FullContext(tasks, registry))
    requires !SlotIsMissing(tasks, ASSEMBLY) && HasStrategy(tasks)
    requires IsPath(GraphOf(ResearchScaffold(tasks, registry)), p) && p[0] in Keys(tasks)
    ensures p[|p| - 1] in Keys(tasks)
    decreases |p|
  {
    if |p| >= 2 {
      var wired := ResearchScaffold(tasks, registry);
      assert Edge(GraphOf(wired), p[0], p[0 + 1]);
      PlannedEdgeStaysInside(tasks, registry, p[0], p[1]);
      var q := p[1..];
      forall i | 0 <= i < |q| - 1 ensures Edge(GraphOf(wired), q[i], q[i + 1]) {
        assert q[i] == p[i + 1] && q[i + 1] == p[i + 2];
      }
      PlannedTasksStayInside(tasks, registry, q);
    }
  }

  /** Every strategy task waits for every context task that the scaffold adds exactly when the plan
      did not bring its own context assembly. */
  lemma AddedContextIsUsedIff(tasks: seq<PlannedTask>, registry: seq<AgentRow>, s: Key, i: nat)
    requires UniqueNames(registry) && ValidPlan(tasks, KnownAgents(registry))
    requires ValidPlan(ResearchScaffold(tasks, registry), KnownAgents(registry))
    requires s in StrategyKeys(tasks) && i < |CONTEXT_SCAFFOLD| && SlotIsMissing(tasks, i)
    ensures Reaches(GraphOf(ResearchScaffold(tasks, registry)), s, CONTEXT_SCAFFOLD[i].key)
      <==> SlotIsMissing(tasks, ASSEMBLY)
  {
    var full, wired := FullContext(tasks, registry), ResearchScaffold(tasks, registry);
    WireKeepsShape(full, Assembly(tasks));
    StrategyIsWired(tasks, registry, s);
    ServableMeansUnique(tasks, registry, i);
    if SlotIsMissing(tasks, ASSEMBLY) {
      StrategyReachesProvider(tasks, registry, s, i);
    } else if Reaches(GraphOf(wired), s, CONTEXT_SCAFFOLD[i].key) {
      var p :| PathFromTo(GraphOf(wired), p, s, CONTEXT_SCAFFOLD[i].key);
      PlannedTasksStayInside(tasks, registry, p);
    }
  }

  /** Without a planned assembly, every strategy task transitively depends on a provider of each of
      the six context capabilities, whether that provider was planned or added. */
  lemma StrategyReachesProvider(tasks: seq<PlannedTask>, registry: seq<AgentRow>, s: Key, i: nat)
    requires UniqueKeys(FullContext(tasks, registry)) && SlotIsMissing(tasks, ASSEMBLY)
    requires s in StrategyKeys(tasks) && i < |CONTEXT_SCAFFOLD|
    ensures Reaches(GraphOf(ResearchScaffold(tasks, registry)), s, KeyForSlot(tasks, i))
    ensures LastKeyFor(ResearchScaffold(tasks, registry), CONTEXT_SCAFFOLD[i].capability) == Some(KeyForSlot(tasks, i))
  {
    var full, wired := FullContext(tasks, registry), ResearchScaffold(tasks, registry);
    StrategyIsWired(tasks, registry, s);
    WireKeepsShape(full, Assembly(tasks));
    SafetyOrder.SameShapeSameLastKey(full, wired, CONTEXT_SCAFFOLD[i].capability);
    ContextProviders(tasks, registry, |CONTEXT_SCAFFOLD|, i);
    if i != ASSEMBLY {
      AssemblyReadsSlot(tasks, registry, i);
      EdgeReaches(GraphOf(wired), Assembly(tasks), KeyForSlot(tasks, i));
      ReachesTransitive(GraphOf(wired), s, Assembly(tasks), KeyForSlot(tasks, i));
    }
  }
}
