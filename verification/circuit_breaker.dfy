/** The broker circuit breaker. A placement is a coroutine; a turn is the part of it between two awaits,
    and the turns of different placements may be interleaved in any order. */
module CircuitModel {
  import opened Vocabulary

  datatype CircuitState = Closed | Open | HalfOpen

  /** What a broker call comes to. `placed` says whether the order went through all the same, which an
      error reply does not tell. */
  datatype Reply = Accepted | ServerError(placed: bool) | Refused | OtherFailure

  /** Where a placement stands. */
  datatype Stage =
    | AtPrimary          // awaiting the primary broker
    | AlertingFallback   // awaiting the alert, then the fallback broker
    | AtFallback         // awaiting the fallback broker
    | AlertingQueued     // awaiting the alert, then raising
    | Returned | Raised | RaisedAdminAlert

  /** A placement and what it has met so far; `tripped` says that the primary's reply opened the circuit. */
  datatype Call = Call(
    order: nat, stage: Stage, primaryTries: nat, primaryReply: Option<Reply>, tripped: bool,
    fallbackTries: nat, fallbackReply: Option<Reply>)

  predicate RoutedToFallback(call: Call) {
    call.stage.AlertingFallback? || call.fallbackTries > 0
  }

  predicate Queued(call: Call) {
    call.stage.AlertingQueued? || call.stage.RaisedAdminAlert?
  }

  /** The broker that gave this reply holds the order. */
  predicate Took(reply: Option<Reply>) {
    reply == Some(Accepted) || reply == Some(ServerError(true))
  }

  predicate PlacedTwice(call: Call) {
    Took(call.primaryReply) && Took(call.fallbackReply)
  }

  /** The primary was skipped, or its error opened the circuit. */
  predicate Bypassed(call: Call) {
    call.primaryTries == 0 || call.tripped
  }

  /** Each broker is tried at most once, and the fallback only if the primary was bypassed. */
  ghost predicate CallOk(call: Call, hasFallback: bool) {
    && call.primaryTries <= 1 && call.fallbackTries <= 1
    && (call.primaryReply.Some? ==> call.primaryTries == 1)
    && (call.tripped ==> call.primaryReply.Some? && call.primaryReply.value.ServerError?)
    && (call.fallbackReply.Some? ==> call.fallbackTries == 1)
    && (RoutedToFallback(call) ==> Bypassed(call) && hasFallback)
    && StageOk(call, hasFallback)
  }

  ghost predicate StageOk(call: Call, hasFallback: bool) {
    match call.stage
    case AtPrimary => call.primaryTries == 1 && call.primaryReply.None? && call.fallbackTries == 0
    case AlertingFallback => call.fallbackTries == 0
    case AtFallback => call.fallbackTries == 1 && call.fallbackReply.None?
    case AlertingQueued => Bypassed(call) && !hasFallback
    case RaisedAdminAlert => Bypassed(call) && !hasFallback
    case Returned => (if call.fallbackTries == 1 then call.fallbackReply else call.primaryReply) == Some(Accepted)
    case Raised =>
      var last := if call.fallbackTries == 1 then call.fallbackReply else call.primaryReply;
      last.Some? && last != Some(Accepted)
  }

  // --- turns ---

  datatype Config = Config(hasFallback: bool, threshold: int, cooldown: nat)

  datatype Circuit = Circuit(state: CircuitState, failures: nat, openedAt: Option<nat>, calls: map<nat, Call>)

  const FRESH: Circuit := Circuit(Closed, 0, None, map[])

  datatype Turn =
    | Places(c: nat, order: nat, now: nat)
    | PrimaryReplies(c: nat, reply: Reply, now: nat)
    | AlertIsSent(c: nat)
    | FallbackReplies(c: nat, reply: Reply)

  /** The breaker lets a placement try the primary broker. */
  predicate Admits(config: Config, m: Circuit, now: nat) {
    m.state.Open? ==> m.openedAt.Some? && now >= m.openedAt.value + config.cooldown
  }

  /** A server error now opens the circuit: a half-open probe failed, or the failures reach the threshold. */
  predicate Trips(config: Config, m: Circuit) {
    m.state.HalfOpen? || m.failures + 1 >= config.threshold
  }

  predicate CanTurn(m: Circuit, turn: Turn) {
    match turn
    case Places(c, _, _) => c !in m.calls
    case PrimaryReplies(c, _, _) => c in m.calls && m.calls[c].stage.AtPrimary?
    case AlertIsSent(c) => c in m.calls && (m.calls[c].stage.AlertingFallback? || m.calls[c].stage.AlertingQueued?)
    case FallbackReplies(c, _) => c in m.calls && m.calls[c].stage.AtFallback?
  }

  function Rerouted(config: Config, call: Call): Call {
    call.(stage := if config.hasFallback then AlertingFallback else AlertingQueued)
  }

  function After(config: Config, m: Circuit, turn: Turn): Circuit
    requires CanTurn(m, turn)
  {
    match turn
    case Places(c, order, now) =>
      if Admits(config, m, now)
      then m.(state := if m.state.Open? then HalfOpen else m.state, calls := m.calls[c := Call(order, AtPrimary, 1, None, false, 0, None)])
      else m.(calls := m.calls[c := Rerouted(config, Call(order, AtPrimary, 0, None, false, 0, None))])
    case PrimaryReplies(c, reply, now) =>
      var call := m.calls[c].(primaryReply := Some(reply));
      if reply.Accepted? then m.(state := Closed, failures := 0, calls := m.calls[c := call.(stage := Returned)])
      else if !reply.ServerError? then m.(calls := m.calls[c := call.(stage := Raised)])
      else if Trips(config, m) then
        Circuit(Open, if m.state.HalfOpen? then m.failures else m.failures + 1, Some(now), m.calls[c := Rerouted(config, call.(tripped := true))])
      else m.(failures := m.failures + 1, calls := m.calls[c := call.(stage := Raised)])
    case AlertIsSent(c) =>
      var call := m.calls[c];
      m.(calls := m.calls[c := if call.stage.AlertingFallback? then call.(stage := AtFallback, fallbackTries := 1)
                               else call.(stage := RaisedAdminAlert)])
    case FallbackReplies(c, reply) =>
      m.(calls := m.calls[c := m.calls[c].(stage := if reply.Accepted? then Returned else Raised, fallbackReply := Some(reply))])
  }

  /** Any sequence of turns of a fresh breaker; a turn that cannot be taken does not happen. */
  function Run(config: Config, turns: seq<Turn>): Circuit {
    if turns == [] then FRESH
    else
      var m := Run(config, turns[..|turns| - 1]);
      if CanTurn(m, turns[|turns| - 1]) then After(config, m, turns[|turns| - 1]) else m
  }

  lemma RunThen(config: Config, turns: seq<Turn>, turn: Turn)
    ensures var m := Run(config, turns); Run(config, turns + [turn]) == if CanTurn(m, turn) then After(config, m, turn) else m
  {
    assert (turns + [turn])[..|turns|] == turns;
  }

  ghost predicate CallsOk(config: Config, m: Circuit) {
    forall c | c in m.calls :: CallOk(m.calls[c], config.hasFallback)
  }

  lemma TurnKeepsCalls(config: Config, m: Circuit, turn: Turn)
    requires CallsOk(config, m) && CanTurn(m, turn)
    ensures CallsOk(config, After(config, m, turn))
  {
  }

  lemma {:induction false} RunKeepsCalls(config: Config, turns: seq<Turn>)
    ensures CallsOk(config, Run(config, turns))
  {
    if turns != [] {
      RunKeepsCalls(config, turns[..|turns| - 1]);
      var m := Run(config, turns[..|turns| - 1]);
      if CanTurn(m, turns[|turns| - 1]) {
        TurnKeepsCalls(config, m, turns[|turns| - 1]);
      }
    }
  }

  // --- how the circuit moves ---

  /** Only an accepted reply of the primary closes a circuit that is not closed. */
  lemma OnlyAcceptanceCloses(config: Config, m: Circuit, turn: Turn)
    requires CanTurn(m, turn) && !m.state.Closed? && After(config, m, turn).state.Closed?
    ensures turn.PrimaryReplies? && turn.reply.Accepted?
  {
  }

  predicate AcceptsAt(turns: seq<Turn>, i: nat) {
    i < |turns| && turns[i].PrimaryReplies? && turns[i].reply.Accepted?
  }

  /** In every run: between a moment at which the circuit is not closed and a later one at which it is, the
      primary has accepted an order. */
  lemma {:induction false} ClosingNeedsAcceptance(config: Config, turns: seq<Turn>, from: nat) returns (i: nat)
    requires from <= |turns| && !Run(config, turns[..from]).state.Closed? && Run(config, turns).state.Closed?
    ensures from <= i && AcceptsAt(turns, i) && CanTurn(Run(config, turns[..i]), turns[i])
  {
    assert turns[..|turns|] == turns;
    var n := |turns| - 1;
    var init := turns[..n];
    if Run(config, init).state.Closed? {
      assert init[..from] == turns[..from];
      i := ClosingNeedsAcceptance(config, init, from);
      assert init[..i] == turns[..i];
    } else {
      OnlyAcceptanceCloses(config, Run(config, init), turns[n]);
      i := n;
    }
  }

  /** In every run: a placement admitted by an open circuit is a probe, and if it comes to a server error first
      the circuit is open again from that moment and the order is rerouted, whatever the threshold. */
  lemma FailedProbeReopens(config: Config, turns: seq<Turn>, c: nat, order: nat, now: nat, placed: bool, later: nat)
    requires var m := Run(config, turns);
      m.state.Open? && m.openedAt.Some? && m.openedAt.value + config.cooldown <= now && c !in m.calls
    ensures var probing := Run(config, turns + [Places(c, order, now)]);
      probing.state.HalfOpen? && probing.failures == Run(config, turns).failures && probing.openedAt == Run(config, turns).openedAt
    ensures var failed := Run(config, turns + [Places(c, order, now)] + [PrimaryReplies(c, ServerError(placed), later)]);
      && failed.state.Open? && failed.openedAt == Some(later) && c in failed.calls
      && failed.calls[c].stage == if config.hasFallback then AlertingFallback else AlertingQueued
  {
    RunThen(config, turns, Places(c, order, now));
    RunThen(config, turns + [Places(c, order, now)], PrimaryReplies(c, ServerError(placed), later));
  }

  // --- what a placement has met ---

  /** The turn at this position was taken. */
  predicate Taken(config: Config, turns: seq<Turn>, i: nat) {
    i < |turns| && CanTurn(Run(config, turns[..i]), turns[i])
  }

  predicate PrimaryRepliedAt(config: Config, turns: seq<Turn>, i: nat, c: nat, reply: Reply, tripped: bool) {
    && Taken(config, turns, i) && turns[i].PrimaryReplies? && turns[i].c == c && turns[i].reply == reply
    && (tripped <==> reply.ServerError? && Trips(config, Run(config, turns[..i])))
  }

  predicate FallbackRepliedAt(config: Config, turns: seq<Turn>, i: nat, c: nat, reply: Reply) {
    Taken(config, turns, i) && turns[i].FallbackReplies? && turns[i].c == c && turns[i].reply == reply
  }

  predicate HasPrimaryReply(m: Circuit, c: nat, reply: Reply, tripped: bool) {
    c in m.calls && m.calls[c].primaryReply == Some(reply) && m.calls[c].tripped == tripped
  }

  predicate HasFallbackReply(m: Circuit, c: nat, reply: Reply) {
    c in m.calls && m.calls[c].fallbackReply == Some(reply)
  }

  lemma TurnRecords(config: Config, m: Circuit, turn: Turn, c: nat, reply: Reply, tripped: bool)
    requires CallsOk(config, m) && CanTurn(m, turn)
    ensures HasPrimaryReply(After(config, m, turn), c, reply, tripped) <==>
      HasPrimaryReply(m, c, reply, tripped)
      || (turn.PrimaryReplies? && turn.c == c && turn.reply == reply && (tripped <==> reply.ServerError? && Trips(config, m)))
    ensures HasFallbackReply(After(config, m, turn), c, reply) <==>
      HasFallbackReply(m, c, reply) || (turn.FallbackReplies? && turn.c == c && turn.reply == reply)
  {
  }

  lemma {:induction false} PrimaryRecords(config: Config, turns: seq<Turn>, c: nat, reply: Reply, tripped: bool)
    ensures HasPrimaryReply(Run(config, turns), c, reply, tripped) <==>
      exists i: nat :: PrimaryRepliedAt(config, turns, i, c, reply, tripped)
  {
    if turns != [] {
      var n := |turns| - 1;
      var init := turns[..n];
      PrimaryRecords(config, init, c, reply, tripped);
      RunKeepsCalls(config, init);
      forall i: nat | i < n
        ensures PrimaryRepliedAt(config, init, i, c, reply, tripped) <==> PrimaryRepliedAt(config, turns, i, c, reply, tripped)
      {
        assert init[..i] == turns[..i];
      }
      if CanTurn(Run(config, init), turns[n]) {
        TurnRecords(config, Run(config, init), turns[n], c, reply, tripped);
      }
      assert PrimaryRepliedAt(config, turns, n, c, reply, tripped) ==> HasPrimaryReply(Run(config, turns), c, reply, tripped);
    }
  }

  lemma {:induction false} FallbackRecords(config: Config, turns: seq<Turn>, c: nat, reply: Reply)
    ensures HasFallbackReply(Run(config, turns), c, reply) <==> exists i: nat :: FallbackRepliedAt(config, turns, i, c, reply)
  {
    if turns != [] {
      var n := |turns| - 1;
      var init := turns[..n];
      FallbackRecords(config, init, c, reply);
      RunKeepsCalls(config, init);
      forall i: nat | i < n
        ensures FallbackRepliedAt(config, init, i, c, reply) <==> FallbackRepliedAt(config, turns, i, c, reply)
      {
        assert init[..i] == turns[..i];
      }
      if CanTurn(Run(config, init), turns[n]) {
        TurnRecords(config, Run(config, init), turns[n], c, reply, true);
      }
      assert FallbackRepliedAt(config, turns, n, c, reply) ==> HasFallbackReply(Run(config, turns), c, reply);
    }
  }

  /** A placement gets the primary's reply, if any, before the fallback's. */
  lemma PrimaryFirst(config: Config, turns: seq<Turn>, i: nat, j: nat, c: nat, first: Reply, tripped: bool, second: Reply)
    requires PrimaryRepliedAt(config, turns, i, c, first, tripped) && FallbackRepliedAt(config, turns, j, c, second)
    ensures i < j
  {
    if j < i {
      var init := turns[..i];
      assert init[..j] == turns[..j];
      assert FallbackRepliedAt(config, init, j, c, second);
      FallbackRecords(config, init, c, second);
      RunKeepsCalls(config, init);
    }
  }

  // --- the same order at two brokers ---

  predicate BothTookAt(config: Config, turns: seq<Turn>, i: nat, j: nat, c: nat, reply: Reply) {
    && i < j && Took(Some(reply))
    && PrimaryRepliedAt(config, turns, i, c, ServerError(true), true) && FallbackRepliedAt(config, turns, j, c, reply)
  }

  /** In every run an order is with both brokers exactly when the primary took it but reported a server
      error that opened the circuit, and the fallback took it afterwards. */
  lemma PlacedTwiceIff(config: Config, turns: seq<Turn>, c: nat)
    ensures (c in Run(config, turns).calls && PlacedTwice(Run(config, turns).calls[c])) <==>
      exists i: nat, j: nat, reply :: BothTookAt(config, turns, i, j, c, reply)
  {
    var m := Run(config, turns);
    RunKeepsCalls(config, turns);
    PrimaryRecords(config, turns, c, ServerError(true), true);
    if c in m.calls && PlacedTwice(m.calls[c]) {
      var reply := m.calls[c].fallbackReply.value;
      FallbackRecords(config, turns, c, reply);
      assert CallOk(m.calls[c], config.hasFallback);
      assert HasPrimaryReply(m, c, ServerError(true), true) && HasFallbackReply(m, c, reply);
      var i: nat :| PrimaryRepliedAt(config, turns, i, c, ServerError(true), true);
      var j: nat :| FallbackRepliedAt(config, turns, j, c, reply);
      PrimaryFirst(config, turns, i, j, c, ServerError(true), true, reply);
      assert BothTookAt(config, turns, i, j, c, reply);
    }
    if i: nat, j: nat, reply :| BothTookAt(config, turns, i, j, c, reply) {
      FallbackRecords(config, turns, c, reply);
    }
  }

  /** As many server errors as the circuit takes without opening. */
  lemma {:induction false} Failing(config: Config, k: nat) returns (turns: seq<Turn>)
    requires k == 0 || k < config.threshold
    ensures var m := Run(config, turns); m.state.Closed? && m.failures == k && forall c | c in m.calls :: c < k
  {
    turns := [];
    if k > 0 {
      var init := Failing(config, k - 1);
      RunThen(config, init, Places(k - 1, 7, 0));
      RunThen(config, init + [Places(k - 1, 7, 0)], PrimaryReplies(k - 1, ServerError(false), 0));
      turns := init + [Places(k - 1, 7, 0)] + [PrimaryReplies(k - 1, ServerError(false), 0)];
    }
  }

  /** The next server error opens the circuit, although the primary takes the order. */
  lemma FailsAndIsRerouted(config: Config, turns: seq<Turn>, c: nat) returns (more: seq<Turn>)
    requires config.hasFallback && c !in Run(config, turns).calls
    requires Run(config, turns).state.Closed? && Run(config, turns).failures + 1 >= config.threshold
    ensures c in Run(config, more).calls && Run(config, more).calls[c].stage.AlertingFallback?
    ensures Run(config, more).calls[c].primaryReply == Some(ServerError(true))
  {
    RunThen(config, turns, Places(c, 7, 0));
    var placed := turns + [Places(c, 7, 0)];
    RunThen(config, placed, PrimaryReplies(c, ServerError(true), 0));
    more := placed + [PrimaryReplies(c, ServerError(true), 0)];
  }

  lemma FallbackTakes(config: Config, turns: seq<Turn>, c: nat) returns (more: seq<Turn>)
    requires c in Run(config, turns).calls && Run(config, turns).calls[c].stage.AlertingFallback?
    requires Run(config, turns).calls[c].primaryReply == Some(ServerError(true))
    ensures c in Run(config, more).calls && PlacedTwice(Run(config, more).calls[c])
  {
    RunThen(config, turns, AlertIsSent(c));
    var alerted := turns + [AlertIsSent(c)];
    RunThen(config, alerted, FallbackReplies(c, Accepted));
    more := alerted + [FallbackReplies(c, Accepted)];
  }

  lemma PlacesTwice(config: Config) returns (turns: seq<Turn>, c: nat)
    requires config.hasFallback
    ensures c in Run(config, turns).calls && PlacedTwice(Run(config, turns).calls[c])
  {
    c := if config.threshold < 1 then 0 else config.threshold - 1;
    turns := Failing(config, c);
    turns := FailsAndIsRerouted(config, turns, c);
    turns := FallbackTakes(config, turns, c);
  }

  /** Whatever the threshold and the cooldown: some run leaves an order with both brokers if and only if
      there is a fallback. */
  lemma DoublePlacementIff(config: Config)
    ensures (exists turns, c :: c in Run(config, turns).calls && PlacedTwice(Run(config, turns).calls[c])) <==> config.hasFallback
  {
    if config.hasFallback {
      var turns, c := PlacesTwice(config);
    }
    if turns, c :| c in Run(config, turns).calls && PlacedTwice(Run(config, turns).calls[c]) {
      RunKeepsCalls(config, turns);
      assert CallOk(Run(config, turns).calls[c], config.hasFallback);
    }
  }
}

/** The breaker itself; a method is one turn. */
module CircuitBreaker {
  import opened Vocabulary
  import opened CircuitModel

  class Breaker {
    const hasFallback: bool
    const threshold: int
    const cooldown: nat

    var state: CircuitState
    var failures: nat
    var openedAt: Option<nat>
    var queuedOrders: seq<nat>
    var alerts: nat

    var calls: map<nat, Call>
    ghost var routed: set<nat>
    ghost var queued: set<nat>

    function Settings(): Config {
      Config(hasFallback, threshold, cooldown)
    }

    /** Where the circuit and every placement stand. */
    function View(): Circuit
      reads this
    {
      Circuit(state, failures, openedAt, calls)
    }

    function Limit(): nat {
      if threshold < 1 then 1 else threshold
    }

    /** The circuit is closed exactly while the failures are below the limit. */
    predicate CircuitOk()
      reads this
    {
      (state.Closed? <==> failures < Limit()) && (!state.Closed? ==> openedAt.Some?)
    }

    /** Alerts and queue match what the placements have been through. */
    ghost predicate BooksOk()
      reads this
    {
      && (forall c | c in calls :: CallOk(calls[c], hasFallback))
      && (forall c :: c in routed <==> c in calls && RoutedToFallback(calls[c]))
      && (forall c :: c in queued <==> c in calls && Queued(calls[c]))
      && |queuedOrders| == |queued| && alerts == |routed| + |queued|
      && (hasFallback ==> queued == {}) && (!hasFallback ==> routed == {})
    }

    ghost predicate Valid()
      reads this
    {
      CircuitOk() && BooksOk()
    }

    constructor (hasFallback: bool, threshold: int, cooldown: nat)
      ensures Valid() && View() == FRESH
      ensures this.hasFallback == hasFallback && this.threshold == threshold && this.cooldown == cooldown
    {
      this.hasFallback, this.threshold, this.cooldown := hasFallback, threshold, cooldown;
      state, failures, openedAt, queuedOrders, alerts := Closed, 0, None, [], 0;
      calls, routed, queued := map[], {}, {};
    }

    /** The cooldown of an open circuit is over. */
    predicate CooledDown(now: nat)
      reads this
    {
      openedAt.Some? && openedAt.value + cooldown <= now
    }

    /** From the call of `place_order` to its first await. */
    method PlaceOrder(c: nat, order: nat, now: nat)
      requires Valid() && c !in calls
      modifies this
      ensures Valid() && View() == After(Settings(), old(View()), Places(c, order, now))
      ensures calls.Keys == old(calls).Keys + {c} && calls[c].order == order && forall d | d in old(calls) :: calls[d] == old(calls)[d]
      ensures failures == old(failures) && openedAt == old(openedAt)
      ensures state == if old(state).Open? && old(CooledDown(now)) then HalfOpen else old(state)
      ensures old(state).Open? && !old(CooledDown(now)) ==>
        && calls[c].primaryTries == 0 && calls[c].stage == (if hasFallback then AlertingFallback else AlertingQueued)
        && queuedOrders == if hasFallback then old(queuedOrders) else old(queuedOrders) + [order]
      ensures !old(state).Open? || old(CooledDown(now)) ==>
        calls[c].primaryTries == 1 && calls[c].stage.AtPrimary? && queuedOrders == old(queuedOrders)
    {
      if state.Open? && openedAt.Some? && now >= openedAt.value + cooldown {
        state := HalfOpen;
      }
      if state.Open? {
        Route(c, Call(order, AtPrimary, 0, None, false, 0, None));
        return;
      }
      Note(c, Call(order, AtPrimary, 1, None, false, 0, None));
    }

    /** Notes where a placement stands that has not been rerouted. */
    method Note(c: nat, call: Call)
      requires BooksOk() && c !in routed && c !in queued && CallOk(call, hasFallback) && !RoutedToFallback(call) && !Queued(call)
      modifies this`calls
      ensures BooksOk() && calls == old(calls)[c := call]
    {
      calls := calls[c := call];
    }

    predicate MayReroute(call: Call) {
      && call.fallbackTries == 0 && call.fallbackReply.None? && call.primaryTries <= 1
      && (if call.primaryTries == 0 then call.primaryReply.None? && !call.tripped
          else call.tripped && call.primaryReply.Some? && call.primaryReply.value.ServerError?)
    }

    method RouteToFallback(c: nat, call: Call)
      requires BooksOk() && c !in routed && c !in queued && MayReroute(call) && hasFallback
      modifies this`calls, this`alerts, this`routed
      ensures BooksOk() && calls == old(calls)[c := call.(stage := AlertingFallback)]
    {
      alerts := alerts + 1;
      calls := calls[c := call.(stage := AlertingFallback)];
      routed := routed + {c};
    }

    method Enqueue(c: nat, call: Call)
      requires BooksOk() && c !in routed && c !in queued && MayReroute(call) && !hasFallback
      modifies this`calls, this`alerts, this`queued, this`queuedOrders
      ensures BooksOk() && calls == old(calls)[c := call.(stage := AlertingQueued)]
      ensures queuedOrders == old(queuedOrders) + [call.order]
    {
      queuedOrders := queuedOrders + [call.order];
      alerts := alerts + 1;
      calls := calls[c := call.(stage := AlertingQueued)];
      queued := queued + {c};
    }

    /** Routes a placement whose primary was skipped or has failed: up to the await of the alert. */
    method Route(c: nat, call: Call)
      requires BooksOk() && c !in routed && c !in queued && MayReroute(call)
      modifies this`calls, this`alerts, this`queued, this`queuedOrders, this`routed
      ensures BooksOk() && calls == old(calls)[c := call.(stage := if hasFallback then AlertingFallback else AlertingQueued)]
      ensures queuedOrders == if hasFallback then old(queuedOrders) else old(queuedOrders) + [call.order]
    {
      if hasFallback {
        RouteToFallback(c, call);
      } else {
        Enqueue(c, call);
      }
    }

    method ServerFailed(c: nat, placed: bool, now: nat)
      requires Valid() && c in calls && calls[c].stage.AtPrimary?
      modifies this
      ensures Valid() && View() == After(Settings(), old(View()), PrimaryReplies(c, ServerError(placed), now))
      ensures queuedOrders == if old(Trips(Settings(), View())) && !hasFallback then old(queuedOrders) + [old(calls)[c].order] else old(queuedOrders)
    {
      var failed := calls[c].(primaryReply := Some(ServerError(placed)));
      if state.HalfOpen? {
        OpenCircuit(now);
        Route(c, failed.(tripped := true));
        return;
      }
      failures := failures + 1;
      if failures >= threshold {
        OpenCircuit(now);
        Route(c, failed.(tripped := true));
        return;
      }
      Note(c, failed.(stage := Raised));
    }

    /** Any reply but a server error; only an accepted order touches the circuit. */
    method Answered(c: nat, reply: Reply, now: nat)
      requires Valid() && c in calls && calls[c].stage.AtPrimary? && !reply.ServerError?
      modifies this`calls, this`state, this`failures
      ensures Valid() && View() == After(Settings(), old(View()), PrimaryReplies(c, reply, now))
      ensures calls == old(calls)[c := old(calls)[c].(stage := if reply.Accepted? then Returned else Raised, primaryReply := Some(reply))]
      ensures state == (if reply.Accepted? then Closed else old(state)) && failures == if reply.Accepted? then 0 else old(failures)
    {
      if reply.Accepted? {
        failures := 0;
        state := Closed;
        Note(c, calls[c].(stage := Returned, primaryReply := Some(reply)));
      } else {
        Note(c, calls[c].(stage := Raised, primaryReply := Some(reply)));
      }
    }

    /** The primary broker's reply. */
    method PrimaryReplied(c: nat, reply: Reply, now: nat)
      requires Valid() && c in calls && calls[c].stage.AtPrimary?
      modifies this
      ensures Valid() && View() == After(Settings(), old(View()), PrimaryReplies(c, reply, now))
      ensures calls.Keys == old(calls).Keys && calls[c].order == old(calls)[c].order && calls[c].primaryReply == Some(reply)
      ensures forall d | d in old(calls) && d != c :: calls[d] == old(calls)[d]
      ensures reply.Accepted? ==>
        calls[c].stage.Returned? && state.Closed? && failures == 0 && openedAt == old(openedAt) && queuedOrders == old(queuedOrders)
      ensures reply.Refused? || reply.OtherFailure? ==>
        calls[c].stage.Raised? && state == old(state) && failures == old(failures) && openedAt == old(openedAt) && queuedOrders == old(queuedOrders)
      ensures reply.ServerError? && (old(state).HalfOpen? || old(failures) + 1 >= threshold) ==>
        && state.Open? && openedAt == Some(now) && calls[c].stage == (if hasFallback then AlertingFallback else AlertingQueued)
        && queuedOrders == if hasFallback then old(queuedOrders) else old(queuedOrders) + [old(calls)[c].order]
      ensures reply.ServerError? && !old(state).HalfOpen? && old(failures) + 1 < threshold ==>
        && calls[c].stage.Raised? && state == old(state) && failures == old(failures) + 1 && openedAt == old(openedAt)
        && queuedOrders == old(queuedOrders)
    {
      if reply.ServerError? {
        ServerFailed(c, reply.placed, now);
      } else {
        Answered(c, reply, now);
      }
    }

    method OpenCircuit(now: nat)
      modifies this`state, this`openedAt
      ensures state.Open? && openedAt == Some(now)
    {
      state, openedAt := Open, Some(now);
    }

    /** The alert has been sent: the fallback is tried, or the caller gets the admin alert. */
    method AlertSent(c: nat)
      requires Valid() && c in calls && (calls[c].stage.AlertingFallback? || calls[c].stage.AlertingQueued?)
      modifies this`calls
      ensures Valid() && View() == After(Settings(), old(View()), AlertIsSent(c))
      ensures state == old(state) && failures == old(failures) && openedAt == old(openedAt)
      ensures old(calls)[c].stage.AlertingFallback? ==> calls[c].stage.AtFallback? && calls[c].fallbackTries == 1
      ensures old(calls)[c].stage.AlertingQueued? ==> calls[c].stage.RaisedAdminAlert?
    {
      var call := calls[c];
      if call.stage.AlertingFallback? {
        calls := calls[c := call.(stage := AtFallback, fallbackTries := 1)];
      } else {
        calls := calls[c := call.(stage := RaisedAdminAlert)];
      }
    }

    /** The fallback broker's reply; it never changes the circuit. */
    method FallbackReplied(c: nat, reply: Reply)
      requires Valid() && c in calls && calls[c].stage.AtFallback?
      modifies this`calls
      ensures Valid() && View() == After(Settings(), old(View()), FallbackReplies(c, reply))
      ensures state == old(state) && failures == old(failures) && openedAt == old(openedAt)
      ensures calls[c].fallbackReply == Some(reply) && (calls[c].stage.Returned? <==> reply.Accepted?) && !calls[c].stage.AtFallback?
    {
      calls := calls[c := calls[c].(stage := if reply.Accepted? then Returned else Raised, fallbackReply := Some(reply))];
    }

    /** Once no alert is under way, the alerts are the fallback attempts plus the queued orders, and
        every queued order has raised one admin alert. */
    lemma AlertsAccountForEveryReroute(tried: set<nat>, raised: set<nat>)
      requires Valid()
      requires forall c | c in calls :: !calls[c].stage.AlertingFallback? && !calls[c].stage.AlertingQueued?
      requires forall c :: c in tried <==> c in calls && calls[c].fallbackTries == 1
      requires forall c :: c in raised <==> c in calls && calls[c].stage.RaisedAdminAlert?
      ensures alerts == |tried| + |queuedOrders| && |queuedOrders| == |raised|
      ensures hasFallback ==> raised == {}
      ensures !hasFallback ==> tried == {}
    {
      assert forall c | c in calls :: CallOk(calls[c], hasFallback);
      assert routed == tried && queued == raised;
    }
  }
}
