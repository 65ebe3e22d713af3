/** The two scaffolds the planner wraps around a plan, as functions of the plan's tasks. */
module Scaffold {
  import opened Vocabulary
  import opened Registry
  import opened Graphs
  import opened Plans

  /** One row of the research scaffold; `words` spell its capability and `inputs` are the rows it depends on. */
  datatype ContextSlot = ContextSlot(
    key: Key, capability: Capability, words: string, agent: string, expectedOutput: string, inputs: seq<nat>)

  const CONTEXT_SCAFFOLD: seq<ContextSlot> := [
    ContextSlot(CtxNews, NewsIngestion, "news ingestion", "news_agent", "NewsDigest", []),
    ContextSlot(CtxSentiment, SentimentAnalysis, "sentiment analysis", "sentiment_agent", "SentimentReport", [0]),
    ContextSlot(CtxMarket, MarketAnalysis, "market analysis", "market_analyst", "MarketContext", []),
    ContextSlot(CtxPortfolio, PortfolioRead, "portfolio read", "portfolio_manager_agent", "PortfolioRiskReport", []),
    ContextSlot(CtxFreshness, DataFreshness, "data freshness", "data_ingestion_agent", "AdHocAnalysis", []),
    ContextSlot(CtxAssembly, ContextAssembly, "context assembly", "ceo_agent", "ResearchContext", [0, 1, 2, 3, 4])]

  const ASSEMBLY: nat := 5
  const PORTFOLIO_OBJECTIVE := "Read current portfolio state for this analysis."
  const DEFAULT_OBJECTIVE := "Answer the objective."

  predicate IsStrategy(capability: Capability) {
    capability.StrategyGeneration? || capability.StrategyResearch? || capability.CodeGeneration?
  }

  predicate HasStrategy(tasks: seq<PlannedTask>) {
    exists i | 0 <= i < |tasks| :: IsStrategy(tasks[i].capability)
  }

  /** The key that provides a context capability: a planned task's if there is one. */
  function KeyForSlot(tasks: seq<PlannedTask>, i: nat): Key
    requires i < |CONTEXT_SCAFFOLD|
  {
    match LastKeyFor(tasks, CONTEXT_SCAFFOLD[i].capability)
    case Some(key) => key
    case None => CONTEXT_SCAFFOLD[i].key
  }

  function ContextTask(tasks: seq<PlannedTask>, registry: seq<AgentRow>, i: nat): PlannedTask
    requires i < |CONTEXT_SCAFFOLD|
  {
    var slot := CONTEXT_SCAFFOLD[i];
    PlannedTask(slot.key, "Provide " + slot.words + " for this research objective.", slot.capability,
                ResolveScaffoldAgent(registry, slot.capability, slot.agent), 3, slot.expectedOutput,
                seq(|slot.inputs|, j requires 0 <= j < |slot.inputs| => KeyForSlot(tasks, slot.inputs[j])))
  }

  /** The plan with the missing ones of the first `n` context tasks appended. */
  function WithContext(tasks: seq<PlannedTask>, registry: seq<AgentRow>, n: nat): seq<PlannedTask>
    requires n <= |CONTEXT_SCAFFOLD|
  {
    if n == 0 then tasks
    else
      var rest := WithContext(tasks, registry, n - 1);
      if HasCapability(tasks, CONTEXT_SCAFFOLD[n - 1].capability) then rest
      else rest + [ContextTask(tasks, registry, n - 1)]
  }

  function Wire(task: PlannedTask, assembly: Key): PlannedTask {
    if IsStrategy(task.capability) && assembly !in task.dependsOn
    then task.(dependsOn := task.dependsOn + [assembly])
    else task
  }

  function WireAll(tasks: seq<PlannedTask>, assembly: Key): seq<PlannedTask> {
    seq(|tasks|, i requires 0 <= i < |tasks| => Wire(tasks[i], assembly))
  }

  function ResearchScaffold(tasks: seq<PlannedTask>, registry: seq<AgentRow>): seq<PlannedTask> {
    if HasStrategy(tasks)
    then WireAll(WithContext(tasks, registry, |CONTEXT_SCAFFOLD|), KeyForSlot(tasks, ASSEMBLY))
    else tasks
  }

  predicate IsAdhoc(objective: Objective) {
    !objective.OtherObjective?
  }

  function TaskKeys(tasks: seq<PlannedTask>): seq<Key> {
    seq(|tasks|, i requires 0 <= i < |tasks| => tasks[i].key)
  }

  function PortfolioTask(registry: seq<AgentRow>): PlannedTask {
    PlannedTask(AdhocPortfolio, PORTFOLIO_OBJECTIVE, PortfolioRead,
                ResolveScaffoldAgent(registry, PortfolioRead, "portfolio_manager_agent"), 3, "PortfolioRiskReport", [])
  }

  function SynthesisTask(tasks: seq<PlannedTask>, registry: seq<AgentRow>): PlannedTask {
    PlannedTask(AdhocSynthesisKey, if tasks == [] then DEFAULT_OBJECTIVE else tasks[0].objective, AdhocSynthesis,
                ResolveScaffoldAgent(registry, AdhocSynthesis, "ceo_agent"), 1, "AdHocAnalysis", TaskKeys(tasks))
  }

  function WithPortfolio(tasks: seq<PlannedTask>, registry: seq<AgentRow>): seq<PlannedTask> {
    if HasCapability(tasks, PortfolioRead) then tasks else tasks + [PortfolioTask(registry)]
  }

  function AdhocScaffold(tasks: seq<PlannedTask>, objective: Objective, registry: seq<AgentRow>): seq<PlannedTask> {
    if !IsAdhoc(objective) then tasks
    else
      var fed := WithPortfolio(tasks, registry);
      if HasCapability(fed, AdhocSynthesis) then fed else fed + [SynthesisTask(fed, registry)]
  }

  // --- appending and wiring, for any plan ---

  predicate DependenciesClosed(tasks: seq<PlannedTask>) {
    forall i, d | 0 <= i < |tasks| && d in tasks[i].dependsOn :: d in Keys(tasks)
  }

  lemma GraphOfAppend(tasks: seq<PlannedTask>, task: PlannedTask)
    ensures GraphOf(tasks + [task]) == GraphOf(tasks)[task.key := Elements(task.dependsOn)]
  {
  }

  lemma NobodyDependsOnNewKey(tasks: seq<PlannedTask>, k: Key)
    requires UniqueKeys(tasks) && DependenciesClosed(tasks) && k !in Keys(tasks)
    ensures forall x :: !Edge(GraphOf(tasks), x, k)
  {
    EdgesAreDeclared(tasks);
  }

  lemma CapabilitiesOfAppend(tasks: seq<PlannedTask>, task: PlannedTask, c: Capability)
    ensures HasCapability(tasks + [task], c) <==> HasCapability(tasks, c) || task.capability == c
    ensures task.capability != c ==> LastKeyFor(tasks + [task], c) == LastKeyFor(tasks, c)
    ensures task.capability == c ==> LastKeyFor(tasks + [task], c) == Some(task.key)
  {
    var longer := tasks + [task];
    assert longer[..|longer| - 1] == tasks;
    assert longer[|tasks|] == task;
    if i :| 0 <= i < |tasks| && tasks[i].capability == c {
      assert longer[i].capability == c;
    }
  }

  lemma UniqueKeysOfAppend(tasks: seq<PlannedTask>, task: PlannedTask)
    ensures UniqueKeys(tasks + [task]) <==> UniqueKeys(tasks) && task.key !in Keys(tasks)
  {
    var longer := tasks + [task];
    assert longer[|tasks|] == task;
    if UniqueKeys(longer) {
      forall i | 0 <= i < |tasks| ensures tasks[i].key != task.key {
        assert longer[i].key != longer[|tasks|].key;
      }
      forall i, j | 0 <= i < j < |tasks| ensures tasks[i].key != tasks[j].key {
        assert longer[i].key != longer[j].key;
      }
    }
  }

  lemma StageOrderOfAppend(tasks: seq<PlannedTask>, task: PlannedTask)
    requires UniqueKeys(tasks) && DependenciesClosed(tasks) && task.key !in Keys(tasks) && !IsStage(task.capability)
    ensures StageOrdered(tasks + [task]) <==> StageOrdered(tasks)
  {
    var g := GraphOf(tasks);
    GraphOfAppend(tasks, task);
    NobodyDependsOnNewKey(tasks, task.key);
    forall i, j | 0 <= i < j < |SAFETY_ORDER|
      ensures HasCapability(tasks + [task], SAFETY_ORDER[i]) == HasCapability(tasks, SAFETY_ORDER[i])
      ensures HasCapability(tasks + [task], SAFETY_ORDER[j]) == HasCapability(tasks, SAFETY_ORDER[j])
      ensures LastKeyFor(tasks + [task], SAFETY_ORDER[i]) == LastKeyFor(tasks, SAFETY_ORDER[i])
      ensures LastKeyFor(tasks + [task], SAFETY_ORDER[j]) == LastKeyFor(tasks, SAFETY_ORDER[j])
      ensures HasCapability(tasks, SAFETY_ORDER[i]) && HasCapability(tasks, SAFETY_ORDER[j]) ==>
        (Reaches(GraphOf(tasks + [task]), LastKeyFor(tasks, SAFETY_ORDER[j]).value, LastKeyFor(tasks, SAFETY_ORDER[i]).value)
         <==> Reaches(g, LastKeyFor(tasks, SAFETY_ORDER[j]).value, LastKeyFor(tasks, SAFETY_ORDER[i]).value))
    {
      CapabilitiesOfAppend(tasks, task, SAFETY_ORDER[i]);
      CapabilitiesOfAppend(tasks, task, SAFETY_ORDER[j]);
      if HasCapability(tasks, SAFETY_ORDER[i]) && HasCapability(tasks, SAFETY_ORDER[j]) {
        var b := LastKeyIsLast(tasks, SAFETY_ORDER[j]);
        NewKeyKeepsReachability(g, task.key, Elements(task.dependsOn), tasks[b].key, LastKeyFor(tasks, SAFETY_ORDER[i]).value);
      }
    }
  }

  lemma TasksOkOfAppend(tasks: seq<PlannedTask>, known: Known, task: PlannedTask)
    requires DependenciesClosed(tasks) && (forall d | d in task.dependsOn :: d in Keys(tasks)) && task.key !in Keys(tasks)
    ensures (forall i | 0 <= i < |tasks + [task]| :: AgentOk((tasks + [task])[i], known) && DependenciesOk(tasks + [task], (tasks + [task])[i]))
      <==> AgentOk(task, known) && (forall i | 0 <= i < |tasks| :: AgentOk(tasks[i], known) && DependenciesOk(tasks, tasks[i]))
  {
    var longer := tasks + [task];
    KeysOfAppend(tasks, task);
    assert longer[|tasks|] == task;
    assert forall i | 0 <= i < |tasks| :: longer[i] == tasks[i];
    assert DependenciesOk(longer, task);
    forall i | 0 <= i < |tasks| ensures DependenciesOk(longer, tasks[i]) <==> DependenciesOk(tasks, tasks[i]) {
    }
  }

  /** Appending a task that depends on planned tasks only, and is no safety stage, gives a valid plan
      exactly when the plan was valid, the key is new and the agent declares the capability. */
  lemma AppendIsValidIff(tasks: seq<PlannedTask>, known: Known, task: PlannedTask)
    requires tasks != [] && DependenciesClosed(tasks) && !IsStage(task.capability)
    requires forall d | d in task.dependsOn :: d in Keys(tasks)
    ensures ValidPlan(tasks + [task], known) <==> ValidPlan(tasks, known) && task.key !in Keys(tasks) && AgentOk(task, known)
  {
    UniqueKeysOfAppend(tasks, task);
    if UniqueKeys(tasks) && task.key !in Keys(tasks) {
      TasksOkOfAppend(tasks, known, task);
      StageOrderOfAppend(tasks, task);
      GraphOfAppend(tasks, task);
      NobodyDependsOnNewKey(tasks, task.key);
      NewKeyKeepsAcyclicity(GraphOf(tasks), task.key, Elements(task.dependsOn));
    }
  }
}
