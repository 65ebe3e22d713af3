/** What scaffolding does to a valid plan: exactly when it stays valid, what the strategy tasks end
    up depending on, and that a second pass changes nothing. */
module ScaffoldTheorems {
  import opened Vocabulary
  import opened Registry
  import opened Graphs
  import opened Plans
  import opened Scaffold
  import SafetyOrder

  predicate SlotIsMissing(tasks: seq<PlannedTask>, i: nat)
    requires i < |CONTEXT_SCAFFOLD|
  {
    !HasCapability(tasks, CONTEXT_SCAFFOLD[i].capability)
  }

  /** A missing context task can be added: its key is free and some enabled agent can do it. */
  predicate SlotServable(tasks: seq<PlannedTask>, registry: seq<AgentRow>, i: nat)
    requires i < |CONTEXT_SCAFFOLD|
  {
    SlotIsMissing(tasks, i) ==>
      && CONTEXT_SCAFFOLD[i].key !in Keys(tasks)
      && FindByCapability(registry, CONTEXT_SCAFFOLD[i].capability) != []
  }

  // --- the appended context tasks ---

  lemma {:induction false} ContextExtends(tasks: seq<PlannedTask>, registry: seq<AgentRow>, n: nat)
    requires n <= |CONTEXT_SCAFFOLD|
    ensures tasks <= WithContext(tasks, registry, n)
  {
    if n > 0 {
      ContextExtends(tasks, registry, n - 1);
    }
  }

  lemma ContextTaskIndex(tasks: seq<PlannedTask>, registry: seq<AgentRow>, n: nat, j: nat) returns (k: nat)
    requires j < n <= |CONTEXT_SCAFFOLD| && SlotIsMissing(tasks, j)
    ensures |tasks| <= k < |WithContext(tasks, registry, n)|
    ensures WithContext(tasks, registry, n)[k] == ContextTask(tasks, registry, j)
  {
    ContextExtends(tasks, registry, n - 1);
    if j == n - 1 {
      k := |WithContext(tasks, registry, n - 1)|;
    } else {
      k := ContextTaskIndex(tasks, registry, n - 1, j);
    }
  }

  lemma ContextKeys(tasks: seq<PlannedTask>, registry: seq<AgentRow>, n: nat, key: Key)
    requires n <= |CONTEXT_SCAFFOLD|
    ensures key in Keys(WithContext(tasks, registry, n)) <==>
      key in Keys(tasks) || exists j | 0 <= j < n :: SlotIsMissing(tasks, j) && CONTEXT_SCAFFOLD[j].key == key
  {
    if n > 0 {
      ContextKeys(tasks, registry, n - 1, key);
      if SlotIsMissing(tasks, n - 1) {
        KeysOfAppend(WithContext(tasks, registry, n - 1), ContextTask(tasks, registry, n - 1));
      }
    }
  }

  lemma ProviderIsPresent(tasks: seq<PlannedTask>, registry: seq<AgentRow>, n: nat, j: nat)
    requires j < n <= |CONTEXT_SCAFFOLD|
    ensures KeyForSlot(tasks, j) in Keys(WithContext(tasks, registry, n))
  {
    ContextKeys(tasks, registry, n, KeyForSlot(tasks, j));
    if !SlotIsMissing(tasks, j) {
      var i := LastKeyIsLast(tasks, CONTEXT_SCAFFOLD[j].capability);
    }
  }

  lemma InputsComeFirst(j: nat)
    requires j < |CONTEXT_SCAFFOLD|
    ensures forall k | k in CONTEXT_SCAFFOLD[j].inputs :: k < j
  {
  }

  lemma SlotInputsArePresent(tasks: seq<PlannedTask>, registry: seq<AgentRow>, n: nat)
    requires n < |CONTEXT_SCAFFOLD|
    ensures forall d | d in ContextTask(tasks, registry, n).dependsOn :: d in Keys(WithContext(tasks, registry, n))
  {
    forall d | d in ContextTask(tasks, registry, n).dependsOn ensures d in Keys(WithContext(tasks, registry, n)) {
      var slot := CONTEXT_SCAFFOLD[n];
      var j :| 0 <= j < |slot.inputs| && KeyForSlot(tasks, slot.inputs[j]) == d;
      InputsComeFirst(n);
      ProviderIsPresent(tasks, registry, n, slot.inputs[j]);
    }
  }

  lemma ClosedAfterAppend(tasks: seq<PlannedTask>, task: PlannedTask)
    requires DependenciesClosed(tasks) && forall d | d in task.dependsOn :: d in Keys(tasks)
    ensures DependenciesClosed(tasks + [task])
  {
    KeysOfAppend(tasks, task);
  }

  lemma ContextIsClosed(tasks: seq<PlannedTask>, registry: seq<AgentRow>, n: nat)
    requires n <= |CONTEXT_SCAFFOLD| && DependenciesClosed(tasks)
    ensures DependenciesClosed(WithContext(tasks, registry, n))
    ensures n < |CONTEXT_SCAFFOLD| ==>
      forall d | d in ContextTask(tasks, registry, n).dependsOn :: d in Keys(WithContext(tasks, registry, n))
  {
    if n > 0 {
      ContextIsClosed(tasks, registry, n - 1);
      if SlotIsMissing(tasks, n - 1) {
        ClosedAfterAppend(WithContext(tasks, registry, n - 1), ContextTask(tasks, registry, n - 1));
      }
    }
    if n < |CONTEXT_SCAFFOLD| {
      SlotInputsArePresent(tasks, registry, n);
    }
  }

  lemma ContextCapabilities(tasks: seq<PlannedTask>, registry: seq<AgentRow>, n: nat, c: Capability)
    requires n <= |CONTEXT_SCAFFOLD|
    requires forall j | 0 <= j < |CONTEXT_SCAFFOLD| :: CONTEXT_SCAFFOLD[j].capability != c
    ensures HasCapability(WithContext(tasks, registry, n), c) <==> HasCapability(tasks, c)
    ensures LastKeyFor(WithContext(tasks, registry, n), c) == LastKeyFor(tasks, c)
  {
    if n > 0 {
      ContextCapabilities(tasks, registry, n - 1, c);
      CapabilitiesOfAppend(WithContext(tasks, registry, n - 1), ContextTask(tasks, registry, n - 1), c);
    }
  }

  lemma SlotIsNeither(i: nat)
    requires i < |CONTEXT_SCAFFOLD|
    ensures !IsStage(CONTEXT_SCAFFOLD[i].capability) && !IsStrategy(CONTEXT_SCAFFOLD[i].capability)
  {
  }

  lemma SlotCapabilitiesDiffer(i: nat, j: nat)
    requires i < j < |CONTEXT_SCAFFOLD|
    ensures CONTEXT_SCAFFOLD[i].capability != CONTEXT_SCAFFOLD[j].capability
    ensures CONTEXT_SCAFFOLD[i].key != CONTEXT_SCAFFOLD[j].key
  {
  }

  /** Every context capability is present afterwards, provided by the key the scaffold chose. */
  lemma ContextProviders(tasks: seq<PlannedTask>, registry: seq<AgentRow>, n: nat, j: nat)
    requires j < |CONTEXT_SCAFFOLD| && n <= |CONTEXT_SCAFFOLD|
    ensures LastKeyFor(WithContext(tasks, registry, n), CONTEXT_SCAFFOLD[j].capability)
         == if j < n then Some(KeyForSlot(tasks, j)) else LastKeyFor(tasks, CONTEXT_SCAFFOLD[j].capability)
  {
    if n > 0 {
      ContextProviders(tasks, registry, n - 1, j);
      var rest, task := WithContext(tasks, registry, n - 1), ContextTask(tasks, registry, n - 1);
      CapabilitiesOfAppend(rest, task, CONTEXT_SCAFFOLD[j].capability);
      if j < n - 1 {
        SlotCapabilitiesDiffer(j, n - 1);
      } else if n - 1 < j {
        SlotCapabilitiesDiffer(n - 1, j);
      }
    }
  }

  lemma AppendedSlotIsValidIff(tasks: seq<PlannedTask>, registry: seq<AgentRow>, i: nat)
    requires i < |CONTEXT_SCAFFOLD| && SlotIsMissing(tasks, i)
    requires UniqueNames(registry) && tasks != [] && DependenciesClosed(tasks)
    ensures ValidPlan(WithContext(tasks, registry, i + 1), KnownAgents(registry))
      <==> ValidPlan(WithContext(tasks, registry, i), KnownAgents(registry)) && SlotServable(tasks, registry, i)
  {
    var rest, task := WithContext(tasks, registry, i), ContextTask(tasks, registry, i);
    ContextIsClosed(tasks, registry, i);
    ContextExtends(tasks, registry, i);
    SlotIsNeither(i);
    AppendIsValidIff(rest, KnownAgents(registry), task);
    ResolvedAgentIsKnown(registry, task.capability, CONTEXT_SCAFFOLD[i].agent);
    ContextKeys(tasks, registry, i, task.key);
    forall j | 0 <= j < i ensures CONTEXT_SCAFFOLD[j].key != task.key {
      SlotCapabilitiesDiffer(j, i);
    }
  }

  lemma SlotIsValidIff(tasks: seq<PlannedTask>, registry: seq<AgentRow>, i: nat)
    requires i < |CONTEXT_SCAFFOLD| && UniqueNames(registry) && ValidPlan(tasks, KnownAgents(registry))
    ensures ValidPlan(WithContext(tasks, registry, i + 1), KnownAgents(registry))
      <==> ValidPlan(WithContext(tasks, registry, i), KnownAgents(registry)) && SlotServable(tasks, registry, i)
  {
    ValidIsClosed(tasks, KnownAgents(registry));
    if SlotIsMissing(tasks, i) {
      AppendedSlotIsValidIff(tasks, registry, i);
    }
  }

  lemma {:induction false} HoldsAllAlong(holds: nat -> bool, step: nat -> bool, n: nat)
    requires holds(0) && forall i: nat | i < n :: holds(i + 1) <==> holds(i) && step(i)
    ensures holds(n) <==> forall i: nat | i < n :: step(i)
  {
    if n > 0 {
      HoldsAllAlong(holds, step, n - 1);
    }
  }

  lemma WithContextIsValidIff(tasks: seq<PlannedTask>, registry: seq<AgentRow>, n: nat)
    requires n <= |CONTEXT_SCAFFOLD| && UniqueNames(registry) && ValidPlan(tasks, KnownAgents(registry))
    ensures ValidPlan(WithContext(tasks, registry, n), KnownAgents(registry))
      <==> forall j | 0 <= j < n :: SlotServable(tasks, registry, j)
  {
    ghost var valid := (i: nat) => i <= |CONTEXT_SCAFFOLD| && ValidPlan(WithContext(tasks, registry, i), KnownAgents(registry));
    ghost var servable := (i: nat) => i < |CONTEXT_SCAFFOLD| && SlotServable(tasks, registry, i);
    forall i: nat | i < n ensures valid(i + 1) <==> valid(i) && servable(i) {
      SlotIsValidIff(tasks, registry, i);
    }
    HoldsAllAlong(valid, servable, n);
    assert forall i: nat | i < n :: servable(i) <==> SlotServable(tasks, registry, i);
  }

  lemma ValidIsClosed(tasks: seq<PlannedTask>, known: Known)
    requires ValidPlan(tasks, known)
    ensures DependenciesClosed(tasks)
  {
  }

  // --- wiring the strategy tasks to the assembly ---

  function StrategyKeys(tasks: seq<PlannedTask>): set<Key> {
    set i | 0 <= i < |tasks| && IsStrategy(tasks[i].capability) :: tasks[i].key
  }

  lemma WireKeepsShape(tasks: seq<PlannedTask>, assembly: Key)
    ensures SafetyOrder.SameShape(tasks, WireAll(tasks, assembly))
    ensures Keys(WireAll(tasks, assembly)) == Keys(tasks)
    ensures UniqueKeys(WireAll(tasks, assembly)) <==> UniqueKeys(tasks)
    ensures forall c :: HasCapability(WireAll(tasks, assembly), c) <==> HasCapability(tasks, c)
  {
  }

  lemma WiredTask(task: PlannedTask, assembly: Key, y: Key)
    ensures y in Wire(task, assembly).dependsOn <==> y in task.dependsOn || (IsStrategy(task.capability) && y == assembly)
  {
  }

  lemma WiredDeclares(tasks: seq<PlannedTask>, assembly: Key, x: Key, y: Key)
    ensures Declared(WireAll(tasks, assembly), x, y) <==> Declared(tasks, x, y) || (x in StrategyKeys(tasks) && y == assembly)
  {
    var wired := WireAll(tasks, assembly);
    forall i | 0 <= i < |tasks|
      ensures wired[i].key == tasks[i].key
      ensures y in wired[i].dependsOn <==> y in tasks[i].dependsOn || (IsStrategy(tasks[i].capability) && y == assembly)
    {
      WiredTask(tasks[i], assembly, y);
    }
  }

  lemma WireRedirects(tasks: seq<PlannedTask>, assembly: Key)
    requires UniqueKeys(tasks)
    ensures Redirected(GraphOf(tasks), GraphOf(WireAll(tasks, assembly)), StrategyKeys(tasks), assembly)
  {
    WireKeepsShape(tasks, assembly);
    EdgesAreDeclared(tasks);
    EdgesAreDeclared(WireAll(tasks, assembly));
    forall x, y ensures Edge(GraphOf(WireAll(tasks, assembly)), x, y)
                 <==> Edge(GraphOf(tasks), x, y) || (x in StrategyKeys(tasks) && y == assembly) {
      WiredDeclares(tasks, assembly, x, y);
    }
  }

  lemma WireKeepsStageOrder(tasks: seq<PlannedTask>, assembly: Key)
    requires UniqueKeys(tasks) && StageOrdered(tasks)
    ensures StageOrdered(WireAll(tasks, assembly))
  {
    var wired := WireAll(tasks, assembly);
    WireKeepsShape(tasks, assembly);
    WireRedirects(tasks, assembly);
    forall i, j | 0 <= i < j < |SAFETY_ORDER|
                  && HasCapability(wired, SAFETY_ORDER[i]) && HasCapability(wired, SAFETY_ORDER[j])
      ensures Reaches(GraphOf(wired), LastKeyFor(wired, SAFETY_ORDER[j]).value, LastKeyFor(wired, SAFETY_ORDER[i]).value)
    {
      SafetyOrder.SameShapeSameLastKey(tasks, wired, SAFETY_ORDER[i]);
      SafetyOrder.SameShapeSameLastKey(tasks, wired, SAFETY_ORDER[j]);
      ReachesMonotone(GraphOf(tasks), GraphOf(wired), LastKeyFor(tasks, SAFETY_ORDER[j]).value, LastKeyFor(tasks, SAFETY_ORDER[i]).value);
    }
  }

  lemma WiredTaskOk(tasks: seq<PlannedTask>, known: Known, assembly: Key, i: nat)
    requires i < |tasks| && AgentOk(tasks[i], known) && DependenciesOk(tasks, tasks[i])
    requires assembly in Keys(tasks) && assembly !in StrategyKeys(tasks)
    ensures AgentOk(WireAll(tasks, assembly)[i], known)
    ensures DependenciesOk(WireAll(tasks, assembly), WireAll(tasks, assembly)[i])
  {
    WireKeepsShape(tasks, assembly);
  }

  lemma WiredTasksOk(tasks: seq<PlannedTask>, known: Known, assembly: Key)
    requires ValidPlan(tasks, known) && assembly in Keys(tasks) && assembly !in StrategyKeys(tasks)
    ensures forall i | 0 <= i < |tasks| ::
      AgentOk(WireAll(tasks, assembly)[i], known) && DependenciesOk(WireAll(tasks, assembly), WireAll(tasks, assembly)[i])
  {
    forall i | 0 <= i < |tasks|
      ensures AgentOk(WireAll(tasks, assembly)[i], known) && DependenciesOk(WireAll(tasks, assembly), WireAll(tasks, assembly)[i])
    {
      WiredTaskOk(tasks, known, assembly, i);
    }
  }

  lemma AssemblyIsNoStrategy(tasks: seq<PlannedTask>, assembly: Key)
    requires UniqueKeys(tasks) && LastKeyFor(tasks, ContextAssembly) == Some(assembly)
    ensures assembly in Keys(tasks) && assembly !in StrategyKeys(tasks)
  {
    var a := LastKeyIsLast(tasks, ContextAssembly);
  }

  /** All but the cycles of a plan are in order. */
  ghost predicate ValidButForCycles(tasks: seq<PlannedTask>, known: Known) {
    && tasks != [] && UniqueKeys(tasks) && StageOrdered(tasks)
    && forall i | 0 <= i < |tasks| :: AgentOk(tasks[i], known) && DependenciesOk(tasks, tasks[i])
  }

  lemma WiredIsValidButForCycles(tasks: seq<PlannedTask>, known: Known, assembly: Key)
    requires ValidPlan(tasks, known) && assembly in Keys(tasks) && assembly !in StrategyKeys(tasks)
    ensures ValidButForCycles(WireAll(tasks, assembly), known)
  {
    WiredTasksOk(tasks, known, assembly);
    WireKeepsStageOrder(tasks, assembly);
    WireKeepsShape(tasks, assembly);
  }

  /** Wiring keeps a valid plan valid exactly when the assembly does not itself wait for a strategy task. */
  lemma WiredIsValidIff(tasks: seq<PlannedTask>, known: Known, assembly: Key)
    requires ValidPlan(tasks, known) && LastKeyFor(tasks, ContextAssembly) == Some(assembly)
    ensures ValidPlan(WireAll(tasks, assembly), known)
      <==> forall s | s in StrategyKeys(tasks) :: !Reaches(GraphOf(tasks), assembly, s)
  {
    AssemblyIsNoStrategy(tasks, assembly);
    WiredIsValidButForCycles(tasks, known, assembly);
    WireRedirects(tasks, assembly);
    RedirectedIsAcyclicIff(GraphOf(tasks), GraphOf(WireAll(tasks, assembly)), StrategyKeys(tasks), assembly);
  }

  // --- the research scaffold ---

  /** Some planned context task the assembly will read waits for a strategy task. */
  ghost predicate Feedback(tasks: seq<PlannedTask>) {
    exists i, s | 0 <= i < |CONTEXT_SCAFFOLD| && !SlotIsMissing(tasks, i) && s in StrategyKeys(tasks)
                  && (i == ASSEMBLY || SlotIsMissing(tasks, ASSEMBLY)) ::
      Reaches(GraphOf(tasks), KeyForSlot(tasks, i), s)
  }

  lemma SlotKeepsReachability(tasks: seq<PlannedTask>, registry: seq<AgentRow>, i: nat, x: Key, y: Key)
    requires i < |CONTEXT_SCAFFOLD| && DependenciesClosed(tasks) && x in Keys(tasks) && SlotIsMissing(tasks, i)
    requires UniqueKeys(WithContext(tasks, registry, i + 1))
    ensures UniqueKeys(WithContext(tasks, registry, i))
    ensures Reaches(GraphOf(WithContext(tasks, registry, i + 1)), x, y) <==> Reaches(GraphOf(WithContext(tasks, registry, i)), x, y)
  {
    var rest, task := WithContext(tasks, registry, i), ContextTask(tasks, registry, i);
    UniqueKeysOfAppend(rest, task);
    ContextIsClosed(tasks, registry, i);
    ContextKeys(tasks, registry, i, x);
    GraphOfAppend(rest, task);
    NobodyDependsOnNewKey(rest, task.key);
    NewKeyKeepsReachability(GraphOf(rest), task.key, Elements(task.dependsOn), x, y);
  }

  lemma {:induction false} ContextKeepsReachability(tasks: seq<PlannedTask>, registry: seq<AgentRow>, n: nat, x: Key, y: Key)
    requires n <= |CONTEXT_SCAFFOLD| && DependenciesClosed(tasks) && x in Keys(tasks)
    requires UniqueKeys(WithContext(tasks, registry, n))
    ensures Reaches(GraphOf(WithContext(tasks, registry, n)), x, y) <==> Reaches(GraphOf(tasks), x, y)
  {
    if n > 0 {
      if SlotIsMissing(tasks, n - 1) {
        SlotKeepsReachability(tasks, registry, n - 1, x, y);
      }
      ContextKeepsReachability(tasks, registry, n - 1, x, y);
    }
  }

  lemma StrategyIsNoProvider(tasks: seq<PlannedTask>, i: nat, s: Key)
    requires UniqueKeys(tasks) && i < |CONTEXT_SCAFFOLD| && s in StrategyKeys(tasks)
    requires SlotIsMissing(tasks, i) ==> CONTEXT_SCAFFOLD[i].key !in Keys(tasks)
    ensures KeyForSlot(tasks, i) != s
  {
    if !SlotIsMissing(tasks, i) {
      var k := LastKeyIsLast(tasks, CONTEXT_SCAFFOLD[i].capability);
    }
  }

  lemma SlotDependsOnInputs(tasks: seq<PlannedTask>, registry: seq<AgentRow>, i: nat, m: Key) returns (j: nat)
    requires i < |CONTEXT_SCAFFOLD| && m in ContextTask(tasks, registry, i).dependsOn
    ensures j < i && j in CONTEXT_SCAFFOLD[i].inputs && m == KeyForSlot(tasks, j)
  {
    var slot := CONTEXT_SCAFFOLD[i];
    var q :| 0 <= q < |slot.inputs| && KeyForSlot(tasks, slot.inputs[q]) == m;
    InputsComeFirst(i);
    j := slot.inputs[q];
  }

  lemma AddedContextEdge(tasks: seq<PlannedTask>, registry: seq<AgentRow>, i: nat, m: Key)
    requires i < |CONTEXT_SCAFFOLD| && SlotIsMissing(tasks, i)
    requires UniqueKeys(WithContext(tasks, registry, |CONTEXT_SCAFFOLD|))
    ensures Edge(GraphOf(WithContext(tasks, registry, |CONTEXT_SCAFFOLD|)), CONTEXT_SCAFFOLD[i].key, m)
      <==> m in ContextTask(tasks, registry, i).dependsOn
  {
    var full := WithContext(tasks, registry, |CONTEXT_SCAFFOLD|);
    var k := ContextTaskIndex(tasks, registry, |CONTEXT_SCAFFOLD|, i);
    GraphOfUnique(full, k);
  }

  predicate FreshSlots(tasks: seq<PlannedTask>) {
    forall k | 0 <= k < |CONTEXT_SCAFFOLD| && SlotIsMissing(tasks, k) :: CONTEXT_SCAFFOLD[k].key !in Keys(tasks)
  }

  /** What an added context task waits for comes from the planned tasks it reads. */
  lemma AddedContextReaches(tasks: seq<PlannedTask>, registry: seq<AgentRow>, i: nat, s: Key) returns (j: nat)
    requires i < |CONTEXT_SCAFFOLD| && SlotIsMissing(tasks, i) && DependenciesClosed(tasks) && UniqueKeys(tasks)
    requires FreshSlots(tasks) && UniqueKeys(WithContext(tasks, registry, |CONTEXT_SCAFFOLD|))
    requires s in StrategyKeys(tasks)
    requires Reaches(GraphOf(WithContext(tasks, registry, |CONTEXT_SCAFFOLD|)), CONTEXT_SCAFFOLD[i].key, s)
    ensures j < i && !SlotIsMissing(tasks, j) && Reaches(GraphOf(tasks), KeyForSlot(tasks, j), s)
    decreases i
  {
    var full := WithContext(tasks, registry, |CONTEXT_SCAFFOLD|);
    var m := ReachesFirstEdge(GraphOf(full), CONTEXT_SCAFFOLD[i].key, s);
    AddedContextEdge(tasks, registry, i, m);
    j := SlotDependsOnInputs(tasks, registry, i, m);
    StrategyIsNoProvider(tasks, j, s);
    if SlotIsMissing(tasks, j) {
      j := AddedContextReaches(tasks, registry, j, s);
    } else {
      var l := LastKeyIsLast(tasks, CONTEXT_SCAFFOLD[j].capability);
      ContextKeepsReachability(tasks, registry, |CONTEXT_SCAFFOLD|, m, s);
    }
  }
}
