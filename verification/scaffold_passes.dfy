/** The ad-hoc scaffold, both scaffolds in sequence, and a second pass over either. */
module ScaffoldPasses {
  import opened Vocabulary
  import opened Registry
  import opened Graphs
  import opened Plans
  import opened Scaffold
  import opened ScaffoldTheorems
  import opened ScaffoldResults
  import SafetyOrder

  function BothScaffolds(tasks: seq<PlannedTask>, objective: Objective, registry: seq<AgentRow>): seq<PlannedTask> {
    AdhocScaffold(ResearchScaffold(tasks, registry), objective, registry)
  }

  // --- the ad-hoc scaffold ---

  predicate Servable(tasks: seq<PlannedTask>, registry: seq<AgentRow>, key: Key, capability: Capability) {
    !HasCapability(tasks, capability) ==> key !in Keys(tasks) && FindByCapability(registry, capability) != []
  }

  predicate AdhocServable(tasks: seq<PlannedTask>, objective: Objective, registry: seq<AgentRow>) {
    IsAdhoc(objective) ==>
      && Servable(tasks, registry, AdhocPortfolio, PortfolioRead)
      && Servable(tasks, registry, AdhocSynthesisKey, AdhocSynthesis)
  }

  lemma TaskKeysAreKeys(tasks: seq<PlannedTask>)
    ensures Elements(TaskKeys(tasks)) == Keys(tasks)
  {
    forall k | k in Keys(tasks) ensures k in TaskKeys(tasks) {
      var i :| 0 <= i < |tasks| && tasks[i].key == k;
      assert TaskKeys(tasks)[i] == k;
    }
  }

  lemma WithPortfolioIsValidIff(tasks: seq<PlannedTask>, registry: seq<AgentRow>)
    requires UniqueNames(registry) && tasks != [] && DependenciesClosed(tasks)
    ensures DependenciesClosed(WithPortfolio(tasks, registry))
    ensures ValidPlan(WithPortfolio(tasks, registry), KnownAgents(registry))
      <==> ValidPlan(tasks, KnownAgents(registry)) && Servable(tasks, registry, AdhocPortfolio, PortfolioRead)
    ensures HasCapability(WithPortfolio(tasks, registry), AdhocSynthesis) <==> HasCapability(tasks, AdhocSynthesis)
    ensures AdhocSynthesisKey in Keys(WithPortfolio(tasks, registry)) <==> AdhocSynthesisKey in Keys(tasks)
  {
    if !HasCapability(tasks, PortfolioRead) {
      var task := PortfolioTask(registry);
      ClosedAfterAppend(tasks, task);
      AppendIsValidIff(tasks, KnownAgents(registry), task);
      ResolvedAgentIsKnown(registry, PortfolioRead, "portfolio_manager_agent");
      CapabilitiesOfAppend(tasks, task, AdhocSynthesis);
      KeysOfAppend(tasks, task);
    }
  }

  /** The ad-hoc scaffold keeps exactly the valid plans to which its missing tasks can be added. */
  lemma AdhocScaffoldIsValidIff(tasks: seq<PlannedTask>, objective: Objective, registry: seq<AgentRow>)
    requires UniqueNames(registry) && tasks != [] && DependenciesClosed(tasks)
    ensures ValidPlan(AdhocScaffold(tasks, objective, registry), KnownAgents(registry))
      <==> ValidPlan(tasks, KnownAgents(registry)) && AdhocServable(tasks, objective, registry)
  {
    if IsAdhoc(objective) {
      WithPortfolioIsValidIff(tasks, registry);
      var fed := WithPortfolio(tasks, registry);
      if !HasCapability(fed, AdhocSynthesis) {
        TaskKeysAreKeys(fed);
        AppendIsValidIff(fed, KnownAgents(registry), SynthesisTask(fed, registry));
        ResolvedAgentIsKnown(registry, AdhocSynthesis, "ceo_agent");
      }
    }
  }

  /** An added synthesis task depends directly on every other task of the final plan. */
  lemma SynthesisDependsOnEveryTask(tasks: seq<PlannedTask>, objective: Objective, registry: seq<AgentRow>, i: nat)
    requires IsAdhoc(objective) && !HasCapability(tasks, AdhocSynthesis)
    requires UniqueKeys(AdhocScaffold(tasks, objective, registry))
    requires i < |AdhocScaffold(tasks, objective, registry)| - 1
    ensures Edge(GraphOf(AdhocScaffold(tasks, objective, registry)), AdhocSynthesisKey, AdhocScaffold(tasks, objective, registry)[i].key)
  {
    var fed, final := WithPortfolio(tasks, registry), AdhocScaffold(tasks, objective, registry);
    if !HasCapability(tasks, PortfolioRead) {
      CapabilitiesOfAppend(tasks, PortfolioTask(registry), AdhocSynthesis);
    }
    TaskKeysAreKeys(fed);
    assert final[i].key in Keys(fed);
    GraphOfUnique(final, |fed|);
  }

  // --- both in sequence, from a plan that passed validation once ---

  lemma ResearchScaffoldIsClosed(tasks: seq<PlannedTask>, registry: seq<AgentRow>)
    requires DependenciesClosed(tasks)
    ensures DependenciesClosed(ResearchScaffold(tasks, registry))
    ensures tasks != [] ==> ResearchScaffold(tasks, registry) != []
  {
    if HasStrategy(tasks) {
      var full := FullContext(tasks, registry);
      ContextIsClosed(tasks, registry, |CONTEXT_SCAFFOLD|);
      ContextExtends(tasks, registry, |CONTEXT_SCAFFOLD|);
      WireKeepsShape(full, Assembly(tasks));
      ProviderIsPresent(tasks, registry, |CONTEXT_SCAFFOLD|, ASSEMBLY);
      forall i, d | 0 <= i < |full| && d in Wire(full[i], Assembly(tasks)).dependsOn ensures d in Keys(full) {
        WiredTask(full[i], Assembly(tasks), d);
      }
    }
  }

  /** The second validation accepts a plan that passed the first exactly under these conditions. */
  lemma SecondValidationAcceptsIff(tasks: seq<PlannedTask>, objective: Objective, registry: seq<AgentRow>)
    requires UniqueNames(registry) && ValidPlan(tasks, KnownAgents(registry))
    ensures ValidPlan(BothScaffolds(tasks, objective, registry), KnownAgents(registry))
      <==> && (HasStrategy(tasks) ==> AllServable(tasks, registry) && !Feedback(tasks))
           && AdhocServable(ResearchScaffold(tasks, registry), objective, registry)
  {
    ValidIsClosed(tasks, KnownAgents(registry));
    ResearchScaffoldIsClosed(tasks, registry);
    AdhocScaffoldIsValidIff(ResearchScaffold(tasks, registry), objective, registry);
    if HasStrategy(tasks) {
      ResearchScaffoldIsValidIff(tasks, registry);
    }
  }

  // --- a second pass changes nothing, on any plan ---

  lemma PresentContextAddsNothing(tasks: seq<PlannedTask>, registry: seq<AgentRow>, n: nat)
    requires n <= |CONTEXT_SCAFFOLD| && forall j | 0 <= j < |CONTEXT_SCAFFOLD| :: !SlotIsMissing(tasks, j)
    ensures WithContext(tasks, registry, n) == tasks
  {
    if n > 0 {
      PresentContextAddsNothing(tasks, registry, n - 1);
      assert !SlotIsMissing(tasks, n - 1);
    }
  }

  predicate IsWired(tasks: seq<PlannedTask>, assembly: Key) {
    forall i | 0 <= i < |tasks| && IsStrategy(tasks[i].capability) :: assembly in tasks[i].dependsOn
  }

  /** A plan with all six context capabilities, wired to its own assembly, is a fixed point. */
  lemma ScaffoldedIsFixed(tasks: seq<PlannedTask>, registry: seq<AgentRow>)
    requires forall j | 0 <= j < |CONTEXT_SCAFFOLD| :: !SlotIsMissing(tasks, j)
    requires IsWired(tasks, Assembly(tasks))
    ensures ResearchScaffold(tasks, registry) == tasks
  {
    PresentContextAddsNothing(tasks, registry, |CONTEXT_SCAFFOLD|);
    assert WireAll(tasks, Assembly(tasks)) == tasks;
  }

  lemma ResearchScaffoldIsComplete(tasks: seq<PlannedTask>, registry: seq<AgentRow>)
    requires HasStrategy(tasks)
    ensures forall j | 0 <= j < |CONTEXT_SCAFFOLD| :: !SlotIsMissing(ResearchScaffold(tasks, registry), j)
    ensures Assembly(ResearchScaffold(tasks, registry)) == Assembly(tasks)
    ensures IsWired(ResearchScaffold(tasks, registry), Assembly(tasks))
  {
    var full, wired := FullContext(tasks, registry), ResearchScaffold(tasks, registry);
    WireKeepsShape(full, Assembly(tasks));
    forall j | 0 <= j < |CONTEXT_SCAFFOLD|
      ensures LastKeyFor(wired, CONTEXT_SCAFFOLD[j].capability) == Some(KeyForSlot(tasks, j))
    {
      ContextProviders(tasks, registry, |CONTEXT_SCAFFOLD|, j);
      SafetyOrder.SameShapeSameLastKey(full, wired, CONTEXT_SCAFFOLD[j].capability);
    }
    assert LastKeyFor(wired, CONTEXT_SCAFFOLD[ASSEMBLY].capability) == Some(KeyForSlot(tasks, ASSEMBLY));
  }

  lemma ResearchScaffoldIsIdempotent(tasks: seq<PlannedTask>, registry: seq<AgentRow>)
    ensures ResearchScaffold(ResearchScaffold(tasks, registry), registry) == ResearchScaffold(tasks, registry)
  {
    if HasStrategy(tasks) {
      ResearchScaffoldIsComplete(tasks, registry);
      ScaffoldedIsFixed(ResearchScaffold(tasks, registry), registry);
    }
  }

  lemma AdhocScaffoldIsIdempotent(tasks: seq<PlannedTask>, objective: Objective, registry: seq<AgentRow>)
    ensures AdhocScaffold(AdhocScaffold(tasks, objective, registry), objective, registry) == AdhocScaffold(tasks, objective, registry)
  {
    var fed := WithPortfolio(tasks, registry);
    if IsAdhoc(objective) {
      CapabilitiesOfAppend(tasks, PortfolioTask(registry), PortfolioRead);
      CapabilitiesOfAppend(fed, SynthesisTask(fed, registry), PortfolioRead);
      CapabilitiesOfAppend(fed, SynthesisTask(fed, registry), AdhocSynthesis);
    }
  }

  /** Appending a task that is neither a strategy nor a context assembly keeps a fixed point fixed. */
  lemma FixedAfterAppend(tasks: seq<PlannedTask>, registry: seq<AgentRow>, task: PlannedTask)
    requires !IsStrategy(task.capability) && task.capability != ContextAssembly
    requires ResearchScaffold(tasks, registry) == tasks
    ensures ResearchScaffold(tasks + [task], registry) == tasks + [task]
  {
    var longer := tasks + [task];
    assert longer[|tasks|] == task && forall i | 0 <= i < |tasks| :: longer[i] == tasks[i];
    if HasStrategy(tasks) {
      ResearchScaffoldIsComplete(tasks, registry);
      forall j | 0 <= j < |CONTEXT_SCAFFOLD| ensures !SlotIsMissing(longer, j) {
        assert !SlotIsMissing(ResearchScaffold(tasks, registry), j);
        CapabilitiesOfAppend(tasks, task, CONTEXT_SCAFFOLD[j].capability);
      }
      CapabilitiesOfAppend(tasks, task, ContextAssembly);
      assert Assembly(longer) == Assembly(tasks);
      ScaffoldedIsFixed(longer, registry);
    }
  }

  /** Running both scaffolds on their own result changes nothing, whatever the plan. */
  lemma BothScaffoldsAreIdempotent(tasks: seq<PlannedTask>, objective: Objective, registry: seq<AgentRow>)
    ensures BothScaffolds(BothScaffolds(tasks, objective, registry), objective, registry) == BothScaffolds(tasks, objective, registry)
  {
    var researched := ResearchScaffold(tasks, registry);
    var fed := WithPortfolio(researched, registry);
    ResearchScaffoldIsIdempotent(tasks, registry);
    FixedAfterAppend(researched, registry, PortfolioTask(registry));
    FixedAfterAppend(fed, registry, SynthesisTask(fed, registry));
    AdhocScaffoldIsIdempotent(researched, objective, registry);
  }
}
