/** Accepted plans that meet the conditions under which planning does less than it says. */
module PlanWitnesses {
  import opened Vocabulary
  import opened Registry
  import opened Graphs
  import opened Plans
  import opened Scaffold
  import opened ScaffoldTheorems
  import opened ScaffoldResults
  import SafetyOrder
  import Planner

  const AGENTS: seq<AgentRow> := [
    AgentRow("ceo_agent", [ContextAssembly, AdhocSynthesis], true),
    AgentRow("market_analyst", [MarketAnalysis], true),
    AgentRow("news_agent", [NewsIngestion], true),
    AgentRow("sentiment_agent", [SentimentAnalysis], true),
    AgentRow("strategy_generator", [StrategyGeneration], true),
    AgentRow("portfolio_manager_agent", [PortfolioRead], true),
    AgentRow("data_ingestion_agent", [DataFreshness], true),
    AgentRow("evaluator", [StrategyEvaluation], true),
    AgentRow("risk_manager", [RiskAssessment], true)]

  function Planned(name: string, capability: Capability, agent: string, dependsOn: seq<Key>): PlannedTask {
    PlannedTask(Named(name), "", capability, agent, 3, "", dependsOn)
  }

  lemma AgentDeclaresTo(i: nat, capability: Capability, known: Known)
    requires i < |AGENTS| && capability in AGENTS[i].capabilities && known == KnownAgents(AGENTS)
    ensures AGENTS[i].name in known && capability in known[AGENTS[i].name]
  {
    AgentDeclares(i, capability);
  }

  lemma AgentDeclares(i: nat, capability: Capability)
    requires i < |AGENTS| && capability in AGENTS[i].capabilities
    ensures FindByCapability(AGENTS, capability) != []
    ensures AGENTS[i].name in KnownAgents(AGENTS) && capability in KnownAgents(AGENTS)[AGENTS[i].name]
  {
    assert UniqueNames(AGENTS);
    assert AGENTS[i].enabled;
    assert AGENTS[i].name in FindByCapability(AGENTS, capability);
    KnownAgentsAreEnabledRows(AGENTS, AGENTS[i].name, capability);
  }

  /** Two tasks, the second of which may depend on the first. */
  ghost predicate IsPair(a: PlannedTask, b: PlannedTask, known: Known) {
    && a.key != b.key && AgentOk(a, known) && AgentOk(b, known)
    && a.dependsOn == [] && forall d | d in b.dependsOn :: d == a.key
  }

  lemma {:induction false} PairEdge(a: PlannedTask, b: PlannedTask, x: Key, y: Key)
    requires a.key != b.key && a.dependsOn == [] && forall d | d in b.dependsOn :: d == a.key
    ensures Edge(GraphOf([a, b]), x, y) <==> x == b.key && y in b.dependsOn
  {
    var tasks := [a, b];
    assert tasks[0] == a && tasks[1] == b;
    EdgesAreDeclared(tasks);
  }

  lemma {:induction false} PairReaches(a: PlannedTask, b: PlannedTask, known: Known, x: Key, y: Key)
    requires IsPair(a, b, known)
    ensures Reaches(GraphOf([a, b]), x, y) <==> x == b.key && y in b.dependsOn
  {
    var g := GraphOf([a, b]);
    PairEdge(a, b, x, y);
    if Reaches(g, x, y) {
      var m := ReachesFirstEdge(g, x, y);
      PairEdge(a, b, x, m);
      if m != y {
        var next := ReachesFirstEdge(g, m, y);
        PairEdge(a, b, m, next);
      }
    } else if Edge(g, x, y) {
      EdgeReaches(g, x, y);
    }
  }

  /** Apart from the safety order nothing is wrong with a pair. */
  lemma {:induction false} PairIsSound(a: PlannedTask, b: PlannedTask, known: Known)
    requires IsPair(a, b, known)
    ensures ValidPlan([a, b], known) <==> StageOrdered([a, b])
    ensures UniqueKeys([a, b]) && Acyclic(GraphOf([a, b]))
    ensures forall i | 0 <= i < 2 :: AgentOk([a, b][i], known) && DependenciesOk([a, b], [a, b][i])
  {
    var tasks := [a, b];
    assert tasks[0] == a && tasks[1] == b;
    assert a.key in Keys(tasks) && b.key in Keys(tasks);
    forall k ensures !Reaches(GraphOf(tasks), k, k) {
      PairReaches(a, b, known, k, k);
    }
  }

  lemma {:induction false} PairIsValid(a: PlannedTask, b: PlannedTask, known: Known)
    requires IsPair(a, b, known) && !IsStage(a.capability) && !IsStage(b.capability)
    ensures ValidPlan([a, b], known)
  {
    var tasks := [a, b];
    PairIsSound(a, b, known);
    forall c | HasCapability(tasks, c) ensures !IsStage(c) {}
    assert forall i | 0 <= i < |SAFETY_ORDER| :: IsStage(SAFETY_ORDER[i]) by {
      forall i | 0 <= i < |SAFETY_ORDER| ensures IsStage(SAFETY_ORDER[i]) {
        assert StageIndex(SAFETY_ORDER[i]) == i;
      }
    }
  }

  // --- the safety order on two stages ---

  function EvaluationFirst(): seq<PlannedTask> {
    [Planned("evaluate", StrategyEvaluation, "evaluator", []), Planned("risk", RiskAssessment, "risk_manager", [Named("evaluate")])]
  }

  function RiskFirst(): seq<PlannedTask> {
    [Planned("risk", RiskAssessment, "risk_manager", []), Planned("evaluate", StrategyEvaluation, "evaluator", [Named("risk")])]
  }

  lemma {:induction false} OrderedPairIsMandated(a: PlannedTask, b: PlannedTask, known: Known)
    requires IsPair(a, b, known) && a.capability == StrategyEvaluation && b.capability == RiskAssessment && b.dependsOn == [a.key]
    ensures SafetyOrder.InMandatedOrder([a, b])
  {
    assert a.key == b.dependsOn[0];
    PairReaches(a, b, known, b.key, a.key);
  }

  lemma {:induction false} OrderedPairIsValid(a: PlannedTask, b: PlannedTask, known: Known)
    requires IsPair(a, b, known) && a.capability == StrategyEvaluation && b.capability == RiskAssessment && b.dependsOn == [a.key]
    ensures ValidPlan([a, b], known)
  {
    OrderedPairIsMandated(a, b, known);
    PairIsSound(a, b, known);
    SafetyOrder.StageOrderIsMandated([a, b]);
  }

  lemma {:induction false} ReversedPairIsForbidden(a: PlannedTask, b: PlannedTask, known: Known)
    requires IsPair(a, b, known) && a.capability == RiskAssessment && b.capability == StrategyEvaluation
    ensures !SafetyOrder.ComesBefore([a, b], StrategyEvaluation, RiskAssessment)
  {
    PairReaches(a, b, known, a.key, b.key);
    assert SafetyOrder.IsLastOf([a, b], 1, StrategyEvaluation) && SafetyOrder.IsLastOf([a, b], 0, RiskAssessment);
  }

  lemma AgentsAreKnown(known: Known)
    requires known == KnownAgents(AGENTS)
    ensures IsPair(EvaluationFirst()[0], EvaluationFirst()[1], known) && IsPair(RiskFirst()[0], RiskFirst()[1], known)
  {
    AgentDeclaresTo(7, StrategyEvaluation, known);
    AgentDeclaresTo(8, RiskAssessment, known);
  }

  /** The only thing wrong with assessing the risk first is the safety order. */
  lemma {:induction false} RiskFirstError(known: Known, error: Planner.PlanError)
    requires IsPair(RiskFirst()[0], RiskFirst()[1], known) && Planner.ErrorIsReal(RiskFirst(), known, error)
    ensures error == Planner.SafetyOrderViolated(StrategyEvaluation, RiskAssessment)
  {
    PairIsSound(RiskFirst()[0], RiskFirst()[1], known);
    EdgesAreDeclared(RiskFirst());
    forall k, d | Declared(RiskFirst(), k, d) ensures d in Keys(RiskFirst()) && d != k {}
  }

  method EvaluationBeforeRiskIsAccepted() returns (check: Planner.Check)
    ensures check.Valid?
  {
    var known := KnownAgents(AGENTS);
    AgentsAreKnown(known);
    OrderedPairIsValid(EvaluationFirst()[0], EvaluationFirst()[1], known);
    check := Planner.Validate(EvaluationFirst(), known);
  }

  /** With the same agents, the other order of the two stages is rejected for the safety order. */
  method RiskBeforeEvaluationIsRejected() returns (check: Planner.Check)
    ensures check == Planner.Invalid(Planner.SafetyOrderViolated(StrategyEvaluation, RiskAssessment))
  {
    var known := KnownAgents(AGENTS);
    AgentsAreKnown(known);
    ReversedPairIsForbidden(RiskFirst()[0], RiskFirst()[1], known);
    check := Planner.Validate(RiskFirst(), known);
    RiskFirstError(known, check.error);
  }

  function Repeated(): seq<PlannedTask> {
    [Planned("a", MarketAnalysis, "market_analyst", []), Planned("b", NewsIngestion, "news_agent", [Named("a"), Named("a")])]
  }

  lemma RepeatedIsValid(known: Known)
    requires known == KnownAgents(AGENTS)
    ensures ValidPlan(Repeated(), known)
  {
    AgentDeclaresTo(1, MarketAnalysis, known);
    AgentDeclaresTo(2, NewsIngestion, known);
    PairIsValid(Repeated()[0], Repeated()[1], known);
  }

  /** A plan that lists a dependency twice is accepted and then not stored. */
  method RepeatedDependencyIsNotStored() returns (rows: Option<seq<Planner.Pair>>)
    ensures ValidPlan(Repeated(), KnownAgents(AGENTS)) && rows.None?
  {
    RepeatedIsValid(KnownAgents(AGENTS));
    ValidIsClosed(Repeated(), KnownAgents(AGENTS));
    assert Repeated()[1].dependsOn[0] == Repeated()[1].dependsOn[1];
    rows := Planner.Persist(Repeated());
  }

  lemma {:induction false} NoEdgesNoPaths(a: PlannedTask, b: PlannedTask, x: Key, y: Key)
    requires a.key != b.key && a.dependsOn == [] && b.dependsOn == []
    ensures !Reaches(GraphOf([a, b]), x, y)
  {
    if Reaches(GraphOf([a, b]), x, y) {
      EdgesAreDeclared([a, b]);
      var m := ReachesFirstEdge(GraphOf([a, b]), x, y);
    }
  }

  lemma SlotHasAgent(j: nat)
    requires j < |CONTEXT_SCAFFOLD|
    ensures FindByCapability(AGENTS, CONTEXT_SCAFFOLD[j].capability) != []
  {
    match j
    case 0 => AgentDeclares(2, NewsIngestion);
    case 1 => AgentDeclares(3, SentimentAnalysis);
    case 2 => AgentDeclares(1, MarketAnalysis);
    case 3 => AgentDeclares(5, PortfolioRead);
    case 4 => AgentDeclares(6, DataFreshness);
    case _ => AgentDeclares(0, ContextAssembly);
  }

  function OwnAssembly(): seq<PlannedTask> {
    [Planned("assembly", ContextAssembly, "ceo_agent", []), Planned("strategy", StrategyGeneration, "strategy_generator", [])]
  }

  lemma OwnAssemblyIsValid(known: Known)
    requires known == KnownAgents(AGENTS)
    ensures ValidPlan(OwnAssembly(), known)
  {
    AgentDeclaresTo(0, ContextAssembly, known);
    AgentDeclaresTo(4, StrategyGeneration, known);
    PairIsValid(OwnAssembly()[0], OwnAssembly()[1], known);
  }

  lemma OwnAssemblyIsServable()
    ensures AllServable(OwnAssembly(), AGENTS) && !Feedback(OwnAssembly())
  {
    forall j | 0 <= j < |CONTEXT_SCAFFOLD| ensures SlotServable(OwnAssembly(), AGENTS, j) {
      SlotHasAgent(j);
    }
    forall x, y ensures !Reaches(GraphOf(OwnAssembly()), x, y) {
      NoEdgesNoPaths(OwnAssembly()[0], OwnAssembly()[1], x, y);
    }
  }

  lemma OwnAssemblyShape()
    ensures HasStrategy(OwnAssembly()) && Named("strategy") in StrategyKeys(OwnAssembly())
    ensures SlotIsMissing(OwnAssembly(), 0) && !SlotIsMissing(OwnAssembly(), ASSEMBLY)
    ensures UniqueNames(AGENTS)
  {
    assert OwnAssembly()[0].capability == ContextAssembly && IsStrategy(OwnAssembly()[1].capability);
  }

  /** A plan with its own context assembly is accepted before and after scaffolding, and the news task that the
      scaffold adds is used by nobody. */
  lemma AddedContextIsUnused()
    ensures ValidPlan(OwnAssembly(), KnownAgents(AGENTS)) && SlotIsMissing(OwnAssembly(), 0)
    ensures ValidPlan(ResearchScaffold(OwnAssembly(), AGENTS), KnownAgents(AGENTS))
    ensures Named("strategy") in StrategyKeys(OwnAssembly())
    ensures !Reaches(GraphOf(ResearchScaffold(OwnAssembly(), AGENTS)), Named("strategy"), CtxNews)
  {
    OwnAssemblyShape();
    OwnAssemblyIsValid(KnownAgents(AGENTS));
    OwnAssemblyIsServable();
    ResearchScaffoldIsValidIff(OwnAssembly(), AGENTS);
    AddedContextIsUsedIff(OwnAssembly(), AGENTS, Named("strategy"), 0);
  }
}
