/** The fixed names the organisation layer compares against. A constructor stands for the literal
    of the same name; every other string is carried by the open-ended last constructor. */
module Vocabulary {

  datatype Option<+T> = None | Some(value: T)

  /** Task keys of a plan: the keys the planner reserves for itself, and any other key. */
  datatype Key =
    | CtxNews | CtxSentiment | CtxMarket | CtxPortfolio | CtxFreshness | CtxAssembly
    | AdhocPortfolio | AdhocSynthesisKey
    | Named(name: string)

  datatype Capability =
    | CodeValidation | ComplianceCheck | Backtesting | StrategyEvaluation | RiskAssessment
    | StrategyGeneration | StrategyResearch | CodeGeneration
    | NewsIngestion | SentimentAnalysis | MarketAnalysis | PortfolioRead | DataFreshness | ContextAssembly
    | AdhocSynthesis
    | OtherCapability(name: string)

  datatype Objective =
    | PortfolioAnalysis | RiskRanking | DrawdownExplanation | StrategyFailureExplanation | RerunDecision
    | OtherObjective(name: string)
}

/** The capability registry's snapshot: one row per known agent. */
module Registry {
  import opened Vocabulary

  datatype AgentRow = AgentRow(name: string, capabilities: seq<Capability>, enabled: bool)

  predicate Declares(row: AgentRow, capability: Capability) {
    row.enabled && capability in row.capabilities
  }

  /** Names of the enabled agents that declare `capability`, in registry order. */
  function FindByCapability(registry: seq<AgentRow>, capability: Capability): (names: seq<string>)
    ensures forall n :: n in names <==>
      exists i | 0 <= i < |registry| :: registry[i].name == n && registry[i].enabled && capability in registry[i].capabilities
  {
    if registry == [] then []
    else
      var last := registry[|registry| - 1];
      var rest := FindByCapability(registry[..|registry| - 1], capability);
      if Declares(last, capability) then rest + [last.name] else rest
  }

  predicate IsEnabled(registry: seq<AgentRow>, agent: string) {
    exists i | 0 <= i < |registry| :: registry[i].name == agent && registry[i].enabled
  }

  /** Capabilities whose tasks may run beside others. */
  predicate IsConcurrencySafe(capability: Capability) {
    match capability
    case MarketAnalysis | NewsIngestion | SentimentAnalysis | PortfolioRead => true
    case DataFreshness | ContextAssembly | AdhocSynthesis => true
    case OtherCapability(name) => name in {"memory_ingestion", "memory_maintenance", "synthesize"}
    case _ => false
  }

  predicate UniqueNames(registry: seq<AgentRow>) {
    forall i, j | 0 <= i < j < |registry| :: registry[i].name != registry[j].name
  }

  /** Agent name to declared capabilities, for the enabled agents; a later row wins. */
  function KnownAgents(registry: seq<AgentRow>): map<string, seq<Capability>> {
    if registry == [] then map[]
    else
      var last := registry[|registry| - 1];
      var rest := KnownAgents(registry[..|registry| - 1]);
      if last.enabled then rest[last.name := last.capabilities] else rest
  }

  lemma KnownAgentsAreEnabledRows(registry: seq<AgentRow>, agent: string, capability: Capability)
    requires UniqueNames(registry)
    ensures agent in KnownAgents(registry) && capability in KnownAgents(registry)[agent]
        <==> agent in FindByCapability(registry, capability)
  {
    if registry != [] {
      var init := registry[..|registry| - 1];
      KnownAgentsAreEnabledRows(init, agent, capability);
      if agent in KnownAgents(init) {
        KnownNamesAreRowNames(init, agent);
      }
    }
  }

  lemma {:induction false} KnownNamesAreRowNames(registry: seq<AgentRow>, agent: string)
    requires agent in KnownAgents(registry)
    ensures IsEnabled(registry, agent)
  {
    var init := registry[..|registry| - 1];
    if agent in KnownAgents(init) {
      KnownNamesAreRowNames(init, agent);
    } else {
      assert registry[|registry| - 1].name == agent;
    }
  }

  /** The agent a scaffold task is given: the historical one while it declares the capability,
      else the first that does, else the historical one regardless. */
  function ResolveScaffoldAgent(registry: seq<AgentRow>, capability: Capability, fallback: string): string {
    var candidates := FindByCapability(registry, capability);
    if fallback in candidates then fallback
    else if candidates != [] then candidates[0]
    else fallback
  }

  predicate IsAble(registry: seq<AgentRow>, capability: Capability, i: nat) {
    i < |registry| && registry[i].enabled && capability in registry[i].capabilities
  }

  /** The historical agent is kept while it is enabled and declares the capability; else the first agent in
      registry order that does takes its place; without one the historical agent is named all the same. */
  lemma {:induction false} ResolvesTo(registry: seq<AgentRow>, capability: Capability, fallback: string, i: nat)
    requires IsAble(registry, capability, i) && forall k: nat | k < i :: !IsAble(registry, capability, k)
    ensures ResolveScaffoldAgent(registry, capability, fallback) ==
      if exists k: nat :: IsAble(registry, capability, k) && registry[k].name == fallback then fallback else registry[i].name
  {
    forall k: nat | k < i ensures !(registry[k].enabled && capability in registry[k].capabilities) {
      assert !IsAble(registry, capability, k);
    }
    FirstFound(registry, capability, i);
    if fallback in FindByCapability(registry, capability) {
      var k: nat :| k < |registry| && registry[k].name == fallback && registry[k].enabled && capability in registry[k].capabilities;
      assert IsAble(registry, capability, k);
    }
  }

  lemma {:induction false} ResolvesToFallback(registry: seq<AgentRow>, capability: Capability, fallback: string)
    requires forall k: nat :: !IsAble(registry, capability, k)
    ensures ResolveScaffoldAgent(registry, capability, fallback) == fallback
  {
    forall k | 0 <= k < |registry| ensures !(registry[k].enabled && capability in registry[k].capabilities) {
      assert !IsAble(registry, capability, k);
    }
    NoneFound(registry, capability);
  }

  lemma {:induction false} FirstFound(registry: seq<AgentRow>, capability: Capability, i: nat)
    requires i < |registry| && registry[i].enabled && capability in registry[i].capabilities
    requires forall k | 0 <= k < i :: !(registry[k].enabled && capability in registry[k].capabilities)
    ensures FindByCapability(registry, capability) != [] && FindByCapability(registry, capability)[0] == registry[i].name
  {
    var init := registry[..|registry| - 1];
    if i < |init| {
      FirstFound(init, capability, i);
    } else {
      NoneFound(init, capability);
    }
  }

  lemma {:induction false} NoneFound(registry: seq<AgentRow>, capability: Capability)
    requires forall k | 0 <= k < |registry| :: !(registry[k].enabled && capability in registry[k].capabilities)
    ensures FindByCapability(registry, capability) == []
  {
    if registry != [] {
      NoneFound(registry[..|registry| - 1], capability);
    }
  }

  /** The capabilities whose tasks may run beside others are these ten. */
  lemma SafeCapabilities(capability: Capability)
    ensures IsConcurrencySafe(capability) <==> capability in {
      MarketAnalysis, NewsIngestion, SentimentAnalysis, PortfolioRead, DataFreshness, ContextAssembly, AdhocSynthesis,
      OtherCapability("memory_ingestion"), OtherCapability("memory_maintenance"), OtherCapability("synthesize")}
  {
  }

  /** The resolved agent passes validation exactly when some enabled agent declares the capability. */
  lemma ResolvedAgentIsKnown(registry: seq<AgentRow>, capability: Capability, fallback: string)
    requires UniqueNames(registry)
    ensures var agent := ResolveScaffoldAgent(registry, capability, fallback);
      (agent in KnownAgents(registry) && capability in KnownAgents(registry)[agent])
        <==> FindByCapability(registry, capability) != []
  {
    var agent := ResolveScaffoldAgent(registry, capability, fallback);
    KnownAgentsAreEnabledRows(registry, agent, capability);
  }
}
