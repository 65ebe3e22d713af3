/** Which tasks the scaffolds add, field by field. */
module ScaffoldContents {
  import opened Vocabulary
  import opened Registry
  import opened Plans
  import opened Scaffold
  import opened ScaffoldTheorems
  import ScaffoldPasses

  predicate IsMissing(tasks: seq<PlannedTask>, capability: Capability) {
    forall i | 0 <= i < |tasks| :: tasks[i].capability != capability
  }

  /** The key under which the capability is provided: that of the last planned task that has it, else the
      scaffold's own. */
  predicate IsProvider(tasks: seq<PlannedTask>, capability: Capability, own: Key, key: Key) {
    && (IsMissing(tasks, capability) ==> key == own)
    && (forall i | 0 <= i < |tasks| && tasks[i].capability == capability && IsMissing(tasks[i + 1..], capability) :: tasks[i].key == key)
  }

  /** The task has been added behind the planned ones. */
  predicate IsAdded(tasks: seq<PlannedTask>, after: seq<PlannedTask>, task: PlannedTask) {
    exists k | |tasks| <= k < |after| :: after[k] == task
  }

  // --- the research scaffold ---

  lemma {:induction false} MissingFrom(tasks: seq<PlannedTask>, i: nat, capability: Capability)
    requires i < |tasks| && IsMissing(tasks[i + 1..], capability)
    ensures forall j | i < j < |tasks| :: tasks[j].capability != capability
  {
    forall j | i < j < |tasks| ensures tasks[j].capability != capability {
      assert tasks[j] == tasks[i + 1..][j - (i + 1)];
    }
  }

  lemma {:induction false} SlotProvider(tasks: seq<PlannedTask>, j: nat)
    requires j < |CONTEXT_SCAFFOLD|
    ensures IsMissing(tasks, CONTEXT_SCAFFOLD[j].capability) <==> SlotIsMissing(tasks, j)
    ensures IsProvider(tasks, CONTEXT_SCAFFOLD[j].capability, CONTEXT_SCAFFOLD[j].key, KeyForSlot(tasks, j))
  {
    var c := CONTEXT_SCAFFOLD[j].capability;
    forall i | 0 <= i < |tasks| && tasks[i].capability == c && IsMissing(tasks[i + 1..], c) ensures tasks[i].key == KeyForSlot(tasks, j) {
      assert HasCapability(tasks, c);
      var l := LastKeyIsLast(tasks, c);
      MissingFrom(tasks, i, c);
    }
  }

  lemma {:induction false} UniqueProvider(tasks: seq<PlannedTask>, capability: Capability, own: Key, key: Key, other: Key)
    requires IsProvider(tasks, capability, own, key) && IsProvider(tasks, capability, own, other)
    ensures key == other
  {
    if !IsMissing(tasks, capability) {
      assert HasCapability(tasks, capability);
      var l := LastKeyIsLast(tasks, capability);
      assert IsMissing(tasks[l + 1..], capability);
    }
  }

  lemma {:induction false} SlotKeyIs(tasks: seq<PlannedTask>, j: nat, capability: Capability, own: Key, key: Key)
    requires j < |CONTEXT_SCAFFOLD| && CONTEXT_SCAFFOLD[j].capability == capability && CONTEXT_SCAFFOLD[j].key == own
    requires IsProvider(tasks, capability, own, key)
    ensures KeyForSlot(tasks, j) == key
  {
    SlotProvider(tasks, j);
    UniqueProvider(tasks, capability, own, key, KeyForSlot(tasks, j));
  }

  /** What stands behind the planned tasks comes from the slots, one task for each that was missing. */
  lemma {:induction false} AddedComesFromSlot(tasks: seq<PlannedTask>, registry: seq<AgentRow>, n: nat, k: nat) returns (j: nat)
    requires n <= |CONTEXT_SCAFFOLD| && |tasks| <= k < |WithContext(tasks, registry, n)|
    ensures j < n && SlotIsMissing(tasks, j) && WithContext(tasks, registry, n)[k] == ContextTask(tasks, registry, j)
  {
    if k < |WithContext(tasks, registry, n - 1)| {
      j := AddedComesFromSlot(tasks, registry, n - 1, k);
    } else {
      j := n - 1;
    }
  }

  lemma {:induction false} AddedCapabilitiesDiffer(tasks: seq<PlannedTask>, registry: seq<AgentRow>, n: nat, k: nat, l: nat)
    requires n <= |CONTEXT_SCAFFOLD| && |tasks| <= k < l < |WithContext(tasks, registry, n)|
    ensures WithContext(tasks, registry, n)[k].capability != WithContext(tasks, registry, n)[l].capability
  {
    var rest, all := WithContext(tasks, registry, n - 1), WithContext(tasks, registry, n);
    if l < |rest| {
      assert all[k] == rest[k] && all[l] == rest[l];
      AddedCapabilitiesDiffer(tasks, registry, n - 1, k, l);
    } else {
      assert all == rest + [ContextTask(tasks, registry, n - 1)];
      var i := AddedComesFromSlot(tasks, registry, n - 1, k);
      SlotCapabilitiesDiffer(i, n - 1);
    }
  }

  /** The context task with this place in the scaffold is there afterwards if it was missing. */
  lemma {:induction false} SlotIsAdded(tasks: seq<PlannedTask>, registry: seq<AgentRow>, j: nat)
    requires j < |CONTEXT_SCAFFOLD| && HasStrategy(tasks) && SlotIsMissing(tasks, j)
    ensures IsAdded(tasks, ResearchScaffold(tasks, registry), ContextTask(tasks, registry, j))
  {
    var k := ContextTaskIndex(tasks, registry, |CONTEXT_SCAFFOLD|, j);
    SlotIsNeither(j);
    assert ResearchScaffold(tasks, registry)[k] == ContextTask(tasks, registry, j);
  }

  predicate IsContextCapability(capability: Capability) {
    capability in {NewsIngestion, SentimentAnalysis, MarketAnalysis, PortfolioRead, DataFreshness, ContextAssembly}
  }

  predicate NeedsContext(tasks: seq<PlannedTask>) {
    exists i | 0 <= i < |tasks| :: tasks[i].capability in {StrategyGeneration, StrategyResearch, CodeGeneration}
  }

  lemma {:induction false} NeedsContextIff(tasks: seq<PlannedTask>)
    ensures NeedsContext(tasks) <==> HasStrategy(tasks)
  {
  }

  lemma {:induction false} ScaffoldIsWired(tasks: seq<PlannedTask>, registry: seq<AgentRow>, assembly: Key)
    requires NeedsContext(tasks) && IsProvider(tasks, ContextAssembly, CtxAssembly, assembly)
    ensures ResearchScaffold(tasks, registry) == WireAll(WithContext(tasks, registry, |CONTEXT_SCAFFOLD|), assembly)
  {
    NeedsContextIff(tasks);
    SlotProvider(tasks, ASSEMBLY);
    UniqueProvider(tasks, ContextAssembly, CtxAssembly, assembly, KeyForSlot(tasks, ASSEMBLY));
  }

  /** Planned tasks stay, the strategy tasks with the assembly as one more dependency. */
  lemma {:induction false} PlannedTasksAreWired(tasks: seq<PlannedTask>, registry: seq<AgentRow>, assembly: Key)
    requires NeedsContext(tasks) && IsProvider(tasks, ContextAssembly, CtxAssembly, assembly)
    ensures var after := ResearchScaffold(tasks, registry);
      && |tasks| <= |after|
      && forall i | 0 <= i < |tasks| ::
        after[i] == if tasks[i].capability in {StrategyGeneration, StrategyResearch, CodeGeneration} && assembly !in tasks[i].dependsOn
                    then tasks[i].(dependsOn := tasks[i].dependsOn + [assembly]) else tasks[i]
  {
    ScaffoldIsWired(tasks, registry, assembly);
    ContextExtends(tasks, registry, |CONTEXT_SCAFFOLD|);
  }

  /** Behind them stands at most one task for each context capability, and only for those that were missing. */
  lemma {:induction false} OnlyMissingContextIsAdded(tasks: seq<PlannedTask>, registry: seq<AgentRow>, k: nat)
    requires |tasks| <= k < |ResearchScaffold(tasks, registry)|
    ensures var after := ResearchScaffold(tasks, registry);
      && IsContextCapability(after[k].capability) && IsMissing(tasks, after[k].capability)
      && forall l: nat | |tasks| <= l < k :: after[l].capability != after[k].capability
  {
    var after := ResearchScaffold(tasks, registry);
    var j := AddedComesFromSlot(tasks, registry, |CONTEXT_SCAFFOLD|, k);
    SlotProvider(tasks, j);
    SlotIsContext(j);
    forall l: nat | |tasks| <= l < k ensures after[l].capability != after[k].capability {
      AddedCapabilitiesDiffer(tasks, registry, |CONTEXT_SCAFFOLD|, l, k);
    }
  }

  lemma SlotIsContext(j: nat)
    requires j < |CONTEXT_SCAFFOLD|
    ensures IsContextCapability(CONTEXT_SCAFFOLD[j].capability)
  {
  }

  lemma {:induction false} NothingIsAddedElsewhere(tasks: seq<PlannedTask>, registry: seq<AgentRow>)
    requires !NeedsContext(tasks)
    ensures ResearchScaffold(tasks, registry) == tasks
  {
    NeedsContextIff(tasks);
  }

  /** A context task without inputs. */
  function Source(registry: seq<AgentRow>, key: Key, words: string, capability: Capability, agent: string, output: string): PlannedTask {
    PlannedTask(key, "Provide " + words + " for this research objective.", capability,
                ResolveScaffoldAgent(registry, capability, agent), 3, output, [])
  }

  // News, market, portfolio and freshness wait for nothing.

  lemma {:induction false} NewsIsAdded(tasks: seq<PlannedTask>, registry: seq<AgentRow>)
    requires NeedsContext(tasks) && IsMissing(tasks, NewsIngestion)
    ensures IsAdded(tasks, ResearchScaffold(tasks, registry),
      Source(registry, CtxNews, "news ingestion", NewsIngestion, "news_agent", "NewsDigest"))
  {
    NeedsContextIff(tasks);
    SlotProvider(tasks, 0);
    SlotIsAdded(tasks, registry, 0);
  }

  lemma {:induction false} MarketIsAdded(tasks: seq<PlannedTask>, registry: seq<AgentRow>)
    requires NeedsContext(tasks) && IsMissing(tasks, MarketAnalysis)
    ensures IsAdded(tasks, ResearchScaffold(tasks, registry),
      Source(registry, CtxMarket, "market analysis", MarketAnalysis, "market_analyst", "MarketContext"))
  {
    NeedsContextIff(tasks);
    SlotProvider(tasks, 2);
    SlotIsAdded(tasks, registry, 2);
  }

  lemma {:induction false} PortfolioIsAdded(tasks: seq<PlannedTask>, registry: seq<AgentRow>)
    requires NeedsContext(tasks) && IsMissing(tasks, PortfolioRead)
    ensures IsAdded(tasks, ResearchScaffold(tasks, registry),
      Source(registry, CtxPortfolio, "portfolio read", PortfolioRead, "portfolio_manager_agent", "PortfolioRiskReport"))
  {
    NeedsContextIff(tasks);
    SlotProvider(tasks, 3);
    SlotIsAdded(tasks, registry, 3);
  }

  lemma {:induction false} FreshnessIsAdded(tasks: seq<PlannedTask>, registry: seq<AgentRow>)
    requires NeedsContext(tasks) && IsMissing(tasks, DataFreshness)
    ensures IsAdded(tasks, ResearchScaffold(tasks, registry),
      Source(registry, CtxFreshness, "data freshness", DataFreshness, "data_ingestion_agent", "AdHocAnalysis"))
  {
    NeedsContextIff(tasks);
    SlotProvider(tasks, 4);
    SlotIsAdded(tasks, registry, 4);
  }

  lemma {:induction false} SentimentInputs(tasks: seq<PlannedTask>, registry: seq<AgentRow>, s: nat, news: Key)
    requires s == 1 && IsProvider(tasks, NewsIngestion, CtxNews, news)
    ensures ContextTask(tasks, registry, s).dependsOn == [news]
  {
    assert CONTEXT_SCAFFOLD[s].inputs == [0];
    InputKeys(tasks, registry, s);
    SlotKeyIs(tasks, 0, NewsIngestion, CtxNews, news);
  }

  /** The sentiment task waits for the news, whoever provides them. */
  lemma {:induction false} SentimentIsAdded(tasks: seq<PlannedTask>, registry: seq<AgentRow>, news: Key)
    requires NeedsContext(tasks) && IsMissing(tasks, SentimentAnalysis) && IsProvider(tasks, NewsIngestion, CtxNews, news)
    ensures IsAdded(tasks, ResearchScaffold(tasks, registry),
      Source(registry, CtxSentiment, "sentiment analysis", SentimentAnalysis, "sentiment_agent", "SentimentReport").(dependsOn := [news]))
  {
    NeedsContextIff(tasks);
    SlotProvider(tasks, 1);
    SentimentInputs(tasks, registry, 1, news);
    SlotIsAdded(tasks, registry, 1);
  }

  /** Whoever provides the five others. */
  ghost predicate ProvideAll(tasks: seq<PlannedTask>, news: Key, sentiment: Key, market: Key, portfolio: Key, freshness: Key) {
    && IsProvider(tasks, NewsIngestion, CtxNews, news) && IsProvider(tasks, SentimentAnalysis, CtxSentiment, sentiment)
    && IsProvider(tasks, MarketAnalysis, CtxMarket, market) && IsProvider(tasks, PortfolioRead, CtxPortfolio, portfolio)
    && IsProvider(tasks, DataFreshness, CtxFreshness, freshness)
  }

  lemma {:induction false} ProviderKey(tasks: seq<PlannedTask>, j: nat, news: Key, sentiment: Key, market: Key, portfolio: Key, freshness: Key)
    requires j < 5 && ProvideAll(tasks, news, sentiment, market, portfolio, freshness)
    ensures KeyForSlot(tasks, j) == [news, sentiment, market, portfolio, freshness][j]
  {
    match j
    case 0 => SlotKeyIs(tasks, j, NewsIngestion, CtxNews, news);
    case 1 => SlotKeyIs(tasks, j, SentimentAnalysis, CtxSentiment, sentiment);
    case 2 => SlotKeyIs(tasks, j, MarketAnalysis, CtxMarket, market);
    case 3 => SlotKeyIs(tasks, j, PortfolioRead, CtxPortfolio, portfolio);
    case _ => SlotKeyIs(tasks, j, DataFreshness, CtxFreshness, freshness);
  }

  lemma {:induction false} InputKeys(tasks: seq<PlannedTask>, registry: seq<AgentRow>, j: nat)
    requires j < |CONTEXT_SCAFFOLD|
    ensures var inputs, keys := CONTEXT_SCAFFOLD[j].inputs, ContextTask(tasks, registry, j).dependsOn;
      |keys| == |inputs| && forall i | 0 <= i < |inputs| :: keys[i] == KeyForSlot(tasks, inputs[i])
  {
  }

  lemma AssemblyReadsTheFirstFive(a: nat)
    requires a == ASSEMBLY
    ensures |CONTEXT_SCAFFOLD[a].inputs| == 5 && forall i | 0 <= i < 5 :: CONTEXT_SCAFFOLD[a].inputs[i] == i
  {
    assert CONTEXT_SCAFFOLD[a].inputs == [0, 1, 2, 3, 4];
  }

  lemma {:induction false} AssemblyInputs(
      tasks: seq<PlannedTask>, registry: seq<AgentRow>, a: nat, news: Key, sentiment: Key, market: Key, portfolio: Key, freshness: Key)
    requires a == ASSEMBLY && ProvideAll(tasks, news, sentiment, market, portfolio, freshness)
    ensures ContextTask(tasks, registry, a).dependsOn == [news, sentiment, market, portfolio, freshness]
  {
    var inputs, keys := CONTEXT_SCAFFOLD[a].inputs, ContextTask(tasks, registry, a).dependsOn;
    AssemblyReadsTheFirstFive(a);
    InputKeys(tasks, registry, a);
    forall i | 0 <= i < 5 ensures keys[i] == [news, sentiment, market, portfolio, freshness][i] {
      ProviderKey(tasks, i, news, sentiment, market, portfolio, freshness);
    }
  }

  /** The assembly waits for all five. */
  lemma {:induction false} AssemblyIsAdded(tasks: seq<PlannedTask>, registry: seq<AgentRow>, news: Key, sentiment: Key, market: Key, portfolio: Key, freshness: Key)
    requires NeedsContext(tasks) && IsMissing(tasks, ContextAssembly) && ProvideAll(tasks, news, sentiment, market, portfolio, freshness)
    ensures IsAdded(tasks, ResearchScaffold(tasks, registry),
      Source(registry, CtxAssembly, "context assembly", ContextAssembly, "ceo_agent", "ResearchContext")
        .(dependsOn := [news, sentiment, market, portfolio, freshness]))
  {
    NeedsContextIff(tasks);
    SlotProvider(tasks, ASSEMBLY);
    AssemblyInputs(tasks, registry, ASSEMBLY, news, sentiment, market, portfolio, freshness);
    SlotIsAdded(tasks, registry, ASSEMBLY);
  }

  // --- the ad-hoc scaffold ---

  /** An ad-hoc objective gets a portfolio task unless one is planned and, last, a synthesis of every other task
      unless one is planned; any other objective gets nothing. */
  lemma {:induction false} AdhocPlan(tasks: seq<PlannedTask>, objective: Objective, registry: seq<AgentRow>)
    ensures var after := AdhocScaffold(tasks, objective, registry);
      var adhoc := objective in {PortfolioAnalysis, RiskRanking, DrawdownExplanation, StrategyFailureExplanation, RerunDecision};
      var needsReading := adhoc && IsMissing(tasks, PortfolioRead);
      var needsSynthesis := adhoc && IsMissing(tasks, AdhocSynthesis);
      && |after| == |tasks| + (if needsReading then 1 else 0) + (if needsSynthesis then 1 else 0) && after[..|tasks|] == tasks
      && (needsReading ==> after[|tasks|] == PlannedTask(AdhocPortfolio, "Read current portfolio state for this analysis.", PortfolioRead,
            ResolveScaffoldAgent(registry, PortfolioRead, "portfolio_manager_agent"), 3, "PortfolioRiskReport", []))
      && (needsSynthesis ==> after[|after| - 1] == PlannedTask(AdhocSynthesisKey, if |after| == 1 then "Answer the objective." else after[0].objective,
            AdhocSynthesis, ResolveScaffoldAgent(registry, AdhocSynthesis, "ceo_agent"), 1, "AdHocAnalysis", after[|after| - 1].dependsOn))
      && (needsSynthesis ==> |after[|after| - 1].dependsOn| == |after| - 1 && forall i | 0 <= i < |after| - 1 :: after[|after| - 1].dependsOn[i] == after[i].key)
  {
    assert IsMissing(tasks, PortfolioRead) <==> !HasCapability(tasks, PortfolioRead);
    assert IsMissing(tasks, AdhocSynthesis) <==> !HasCapability(tasks, AdhocSynthesis);
    CapabilitiesOfAppend(tasks, PortfolioTask(registry), AdhocSynthesis);
  }

  lemma {:induction false} NoSynthesisIsAdded(tasks: seq<PlannedTask>, registry: seq<AgentRow>)
    requires IsMissing(tasks, AdhocSynthesis)
    ensures IsMissing(ResearchScaffold(tasks, registry), AdhocSynthesis)
  {
    var full := ResearchScaffold(tasks, registry);
    assert !HasCapability(tasks, AdhocSynthesis);
    ContextCapabilities(tasks, registry, |CONTEXT_SCAFFOLD|, AdhocSynthesis);
    if HasStrategy(tasks) {
      WireKeepsShape(WithContext(tasks, registry, |CONTEXT_SCAFFOLD|), KeyForSlot(tasks, ASSEMBLY));
    }
    assert !HasCapability(full, AdhocSynthesis);
  }

  /** The research scaffold comes first, so the synthesis also waits for the context tasks it adds. */
  lemma {:induction false} SynthesisCoversContext(tasks: seq<PlannedTask>, objective: Objective, registry: seq<AgentRow>)
    requires objective in {PortfolioAnalysis, RiskRanking, DrawdownExplanation, StrategyFailureExplanation, RerunDecision}
    requires IsMissing(tasks, AdhocSynthesis)
    ensures var full, after := ResearchScaffold(tasks, registry), ScaffoldPasses.BothScaffolds(tasks, objective, registry);
      && |after| > |full| && after[..|full|] == full
      && after[|after| - 1].capability == AdhocSynthesis && |after[|after| - 1].dependsOn| == |after| - 1
      && forall i | 0 <= i < |after| - 1 :: after[|after| - 1].dependsOn[i] == after[i].key
  {
    NoSynthesisIsAdded(tasks, registry);
    SynthesisIsLast(ResearchScaffold(tasks, registry), objective, registry);
  }

  lemma {:induction false} SynthesisIsLast(tasks: seq<PlannedTask>, objective: Objective, registry: seq<AgentRow>)
    requires objective in {PortfolioAnalysis, RiskRanking, DrawdownExplanation, StrategyFailureExplanation, RerunDecision}
    requires IsMissing(tasks, AdhocSynthesis)
    ensures var after := AdhocScaffold(tasks, objective, registry);
      && |after| > |tasks| && after[..|tasks|] == tasks
      && after[|after| - 1].capability == AdhocSynthesis && |after[|after| - 1].dependsOn| == |after| - 1
      && forall i | 0 <= i < |after| - 1 :: after[|after| - 1].dependsOn[i] == after[i].key
  {
    AdhocPlan(tasks, objective, registry);
  }
}
