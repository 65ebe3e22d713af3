/** The fixed-window rate limiter over a store whose keys expire. Times are in milliseconds. */
module RateLimit {
  import opened Vocabulary

  const SECOND: nat := 1000

  /** A caller and a window number. */
  type Key = (string, nat)

  datatype Entry = Entry(count: nat, expiresAt: Option<nat>)

  type Store = map<Key, Entry>

  // --- windows ---

  /** The window, counted in whole `window` seconds, that a moment lies in. */
  function WindowBucket(now: nat, window: nat): nat
    requires window > 0
  {
    (now / SECOND) / window
  }

  function WindowEnd(bucket: nat, window: nat): nat {
    (bucket + 1) * window * SECOND
  }

  lemma InsideItsWindow(now: nat, window: nat)
    requires window > 0
    ensures now < WindowEnd(WindowBucket(now, window), window) <= now + window * SECOND
    ensures WindowBucket(now, window) * window * SECOND <= now
  {
  }

  lemma SameWindowIff(asked: nat, now: nat, window: nat)
    requires window > 0 && asked <= now
    ensures WindowBucket(asked, window) == WindowBucket(now, window) <==> now < WindowEnd(WindowBucket(asked, window), window)
    ensures WindowBucket(asked, window) <= WindowBucket(now, window)
  {
    InsideItsWindow(now, window);
    BucketsGrow(asked / SECOND, now / SECOND, window);
    var a, b := WindowBucket(asked, window), WindowBucket(now, window);
    if a < b {
      EndsGrow(a + 1, b, window);
      assert (a + 1) * window * SECOND <= b * window * SECOND;
    }
  }

  lemma BucketsGrow(a: nat, b: nat, window: nat)
    requires window > 0 && a <= b
    ensures a / window <= b / window
  {
    if a / window > b / window {
      EndsGrow(b / window + 1, a / window, window);
    }
  }

  lemma EndsGrow(a: nat, b: nat, window: nat)
    requires a <= b
    ensures a * window <= b * window
  {
  }

  // --- the store ---

  predicate Live(store: Store, key: Key, now: nat) {
    key in store && (store[key].expiresAt.Some? ==> now < store[key].expiresAt.value)
  }

  function Count(store: Store, key: Key, now: nat): nat {
    if Live(store, key, now) then store[key].count else 0
  }

  function Incremented(store: Store, key: Key, now: nat): Store {
    if Live(store, key, now) then store[key := store[key].(count := store[key].count + 1)]
    else store[key := Entry(1, None)]
  }

  /** Sets an expiry unless the key has one. */
  function Expiring(store: Store, key: Key, seconds: nat, now: nat): Store {
    if Live(store, key, now) && store[key].expiresAt.None?
    then store[key := store[key].(expiresAt := Some(now + seconds * SECOND))]
    else store
  }

  // --- requests ---

  datatype Result = Result(allowed: bool, limit: nat, remaining: nat, resetAt: nat)

  class Redis {
    var entries: Store

    constructor ()
      ensures entries == map[]
    {
      entries := map[];
    }

    method Incr(key: Key, now: nat) returns (count: nat)
      modifies this
      ensures entries == Incremented(old(entries), key, now) && count == Count(old(entries), key, now) + 1
      ensures count == Count(entries, key, now)
    {
      entries := Incremented(entries, key, now);
      count := entries[key].count;
    }

    method ExpireNx(key: Key, seconds: nat, now: nat)
      modifies this
      ensures entries == Expiring(old(entries), key, seconds, now)
    {
      entries := Expiring(entries, key, seconds, now);
    }
  }

  /** The moments at which one request computes its key, increments, sets the expiry and computes the
      reset time. */
  predicate InOrder(asked: nat, incremented: nat, expired: nat, answered: nat) {
    asked <= incremented <= expired <= answered
  }

  /** A key that has not expired counts one more; else it counts one. It keeps an expiry it has, and its first
      request gives it one. */
  ghost predicate Counts(before: Store, after: Store, key: Key, now: nat, expiry: nat) {
    var live := key in before && (before[key].expiresAt.Some? ==> now < before[key].expiresAt.value);
    && (live && before[key].count > 0 ==> after == before[key := before[key].(count := before[key].count + 1)])
    && (live && before[key].count == 0 ==>
      after == before[key := Entry(1, if before[key].expiresAt.Some? then before[key].expiresAt else Some(expiry))])
    && (!live ==> after == before[key := Entry(1, Some(expiry))])
  }

  method Consume(redis: Redis, caller: string, limit: nat, window: nat, asked: nat, incremented: nat, expired: nat, answered: nat)
    returns (result: Result)
    requires window > 0 && InOrder(asked, incremented, expired, answered)
    modifies redis
    ensures var key := (caller, WindowBucket(asked, window)); var count := Count(old(redis.entries), key, incremented) + 1;
      && (result.allowed <==> count <= limit) && result.remaining == (if count < limit then limit - count else 0)
      && var counted := Execute(old(redis.entries), Increment(caller, asked, incremented), window);
      && redis.entries == if count == 1 then Execute(counted, SetExpiry(caller, asked, expired), window) else counted
    ensures Counts(old(redis.entries), redis.entries, (caller, asked / 1000 / window), incremented, expired + window * 1000)
    ensures redis.entries[(caller, asked / 1000 / window)].count <= limit <==> result.allowed
    ensures result.resetAt == (answered / 1000 / window + 1) * window * 1000
    ensures result.resetAt >= WindowEnd(WindowBucket(asked, window), window)
    ensures result.resetAt == WindowEnd(WindowBucket(asked, window), window) <==> answered < WindowEnd(WindowBucket(asked, window), window)
  {
    var key := (caller, WindowBucket(asked, window));
    var count := redis.Incr(key, incremented);
    if count == 1 {
      redis.ExpireNx(key, window, expired);
    }
    SameWindowIff(asked, answered, window);
    EndsGrow(WindowBucket(asked, window) + 1, WindowBucket(answered, window) + 1, window);
    InsideItsWindow(answered, window);
    result := Result(count <= limit, limit, if count < limit then limit - count else 0, WindowEnd(WindowBucket(answered, window), window));
  }

  method Peek(redis: Redis, caller: string, limit: nat, window: nat, now: nat) returns (result: Result)
    requires window > 0
    ensures var count := Count(redis.entries, (caller, WindowBucket(now, window)), now);
      && (result.allowed <==> count <= limit) && result.remaining == (if count < limit then limit - count else 0)
    ensures result.resetAt == WindowEnd(WindowBucket(now, window), window)
  {
    var count := Count(redis.entries, (caller, WindowBucket(now, window)), now);
    result := Result(count <= limit, limit, if count < limit then limit - count else 0, WindowEnd(WindowBucket(now, window), window));
  }

  // --- traces ---

  /** One command of one request as the store executes it; `asked` is when the request computed its key. */
  datatype Command = Increment(caller: string, asked: nat, at: nat) | SetExpiry(caller: string, asked: nat, at: nat)

  function KeyOf(command: Command, window: nat): Key
    requires window > 0
  {
    (command.caller, WindowBucket(command.asked, window))
  }

  function Execute(store: Store, command: Command, window: nat): Store
    requires window > 0
  {
    match command
    case Increment(_, _, at) => Incremented(store, KeyOf(command, window), at)
    case SetExpiry(_, _, at) => Expiring(store, KeyOf(command, window), window, at)
  }

  function StoreAfter(trace: seq<Command>, window: nat): Store
    requires window > 0
  {
    if trace == [] then map[]
    else Execute(StoreAfter(trace[..|trace| - 1], window), trace[|trace| - 1], window)
  }

  /** Commands of any number of requests, interleaved in any way, in order of time. */
  predicate Timely(trace: seq<Command>) {
    && (forall i | 0 <= i < |trace| :: trace[i].asked <= trace[i].at)
    && (forall i, j | 0 <= i < j < |trace| :: trace[i].at <= trace[j].at)
  }

  predicate Hits(command: Command, key: Key, window: nat)
    requires window > 0
  {
    command.Increment? && KeyOf(command, window) == key
  }

  /** How many requests asked for this key. */
  function Requests(trace: seq<Command>, key: Key, window: nat): nat
    requires window > 0
  {
    if trace == [] then 0
    else Requests(trace[..|trace| - 1], key, window) + if Hits(trace[|trace| - 1], key, window) then 1 else 0
  }

  predicate IsGranted(store: Store, command: Command, limit: nat, window: nat)
    requires window > 0
  {
    command.Increment? && Count(store, KeyOf(command, window), command.at) + 1 <= limit
  }

  /** How many of them were allowed. */
  function Granted(trace: seq<Command>, key: Key, limit: nat, window: nat): nat
    requires window > 0
  {
    if trace == [] then 0
    else
      var init, last := trace[..|trace| - 1], trace[|trace| - 1];
      Granted(init, key, limit, window)
      + if Hits(last, key, window) && IsGranted(StoreAfter(init, window), last, limit, window) then 1 else 0
  }

  predicate NoEarlyExpiry(store: Store, window: nat) {
    forall key | key in store && store[key].expiresAt.Some? :: WindowEnd(key.1, window) <= store[key].expiresAt.value
  }

  /** A key never expires before its window ends. */
  lemma {:induction false} KeysOutliveTheirWindow(trace: seq<Command>, window: nat)
    requires window > 0 && Timely(trace)
    ensures NoEarlyExpiry(StoreAfter(trace, window), window)
  {
    if trace != [] {
      KeysOutliveTheirWindow(trace[..|trace| - 1], window);
      InsideItsWindow(trace[|trace| - 1].asked, window);
    }
  }

  // --- the cap of one window ---

  function Min(a: nat, b: nat): nat {
    if a < b then a else b
  }

  /** The command starts a new count for the key although its requests have been counted before: the
      key had expired. */
  predicate Recreates(store: Store, command: Command, key: Key, window: nat)
    requires window > 0
  {
    Hits(command, key, window) && key in store && !Live(store, key, command.at)
  }

  /** No increment for the key finds it expired. */
  predicate NeverRecreated(trace: seq<Command>, key: Key, window: nat)
    requires window > 0
  {
    trace == []
    || (var init, last := trace[..|trace| - 1], trace[|trace| - 1];
      NeverRecreated(init, key, window) && !Recreates(StoreAfter(init, window), last, key, window))
  }

  /** As long as that holds the stored count is the number of requests. */
  lemma {:induction false} StoredCount(trace: seq<Command>, key: Key, window: nat)
    requires window > 0
    ensures key in StoreAfter(trace, window) <==> Requests(trace, key, window) > 0
    ensures NeverRecreated(trace, key, window) && key in StoreAfter(trace, window) ==>
      StoreAfter(trace, window)[key].count == Requests(trace, key, window)
  {
    if trace != [] {
      StoredCount(trace[..|trace| - 1], key, window);
    }
  }

  lemma {:induction false} CappedIfNeverRecreated(trace: seq<Command>, key: Key, limit: nat, window: nat)
    requires window > 0 && NeverRecreated(trace, key, window)
    ensures Granted(trace, key, limit, window) == Min(limit, Requests(trace, key, window))
  {
    if trace != [] {
      var init := trace[..|trace| - 1];
      CappedIfNeverRecreated(init, key, limit, window);
      StoredCount(init, key, window);
    }
  }

  lemma {:induction false} OneGrantedIfCapIsOne(trace: seq<Command>, key: Key, window: nat)
    requires window > 0
    ensures key in StoreAfter(trace, window) ==> Granted(trace, key, 1, window) >= 1
    ensures !NeverRecreated(trace, key, window) ==> Granted(trace, key, 1, window) >= 2
  {
    if trace != [] {
      OneGrantedIfCapIsOne(trace[..|trace| - 1], key, window);
    }
  }

  /** Exactly the first `limit` requests of a window are allowed, for every limit, if and only if no
      increment finds its key expired. One excess under a limit of one is enough to tell. */
  lemma GrantedIsCappedIff(trace: seq<Command>, key: Key, window: nat)
    requires window > 0
    ensures NeverRecreated(trace, key, window) <==>
      forall limit: nat :: Granted(trace, key, limit, window) == Min(limit, Requests(trace, key, window))
    ensures NeverRecreated(trace, key, window) <==> Granted(trace, key, 1, window) <= 1
  {
    OneGrantedIfCapIsOne(trace, key, window);
    if NeverRecreated(trace, key, window) {
      forall limit: nat ensures Granted(trace, key, limit, window) == Min(limit, Requests(trace, key, window)) {
        CappedIfNeverRecreated(trace, key, limit, window);
      }
    }
  }

  /** A window's key is not re-created before the window is over, whatever happens to other keys. */
  lemma {:induction false} NeverRecreatedInItsWindow(trace: seq<Command>, key: Key, window: nat)
    requires window > 0 && Timely(trace)
    requires forall i | 0 <= i < |trace| && Hits(trace[i], key, window) :: trace[i].at < WindowEnd(key.1, window)
    ensures NeverRecreated(trace, key, window)
  {
    if trace != [] {
      NeverRecreatedInItsWindow(trace[..|trace| - 1], key, window);
      KeysOutliveTheirWindow(trace[..|trace| - 1], window);
    }
  }

  /** The stored counter is exactly the number of requests in the window, as long as the window lasts. */
  lemma CounterIsExact(trace: seq<Command>, window: nat, key: Key, now: nat)
    requires window > 0 && Timely(trace)
    requires forall i | 0 <= i < |trace| :: trace[i].at <= now
    requires now < WindowEnd(key.1, window)
    ensures Count(StoreAfter(trace, window), key, now) == Requests(trace, key, window)
  {
    NeverRecreatedInItsWindow(trace, key, window);
    StoredCount(trace, key, window);
    KeysOutliveTheirWindow(trace, window);
  }

  // --- the cap of an interval ---

  /** Every increment reaches the store less than `late` after the end of the window it counts in. */
  predicate ArrivesBy(trace: seq<Command>, window: nat, late: nat)
    requires window > 0
  {
    forall i | 0 <= i < |trace| && trace[i].Increment? :: trace[i].at < WindowEnd(WindowBucket(trace[i].asked, window), window) + late
  }

  /** No increment reaches the store after the window it counts in is over. */
  predicate Prompt(trace: seq<Command>, window: nat)
    requires window > 0
  {
    ArrivesBy(trace, window, 0)
  }

  /** How many of a caller's requests executed in the interval were allowed. */
  function GrantedBetween(trace: seq<Command>, caller: string, from: nat, to: nat, limit: nat, window: nat): nat
    requires window > 0
  {
    if trace == [] then 0
    else
      var init, last := trace[..|trace| - 1], trace[|trace| - 1];
      GrantedBetween(init, caller, from, to, limit, window)
      + if last.caller == caller && from <= last.at < to && IsGranted(StoreAfter(init, window), last, limit, window) then 1 else 0
  }

  lemma {:induction false} IntervalTouchesTwoWindows(trace: seq<Command>, caller: string, from: nat, to: nat, limit: nat, window: nat)
    requires window > 0 && Timely(trace) && Prompt(trace, window) && to <= from + window * SECOND
    ensures var b := WindowBucket(from, window);
      GrantedBetween(trace, caller, from, to, limit, window)
        <= Granted(trace, (caller, b), limit, window) + Granted(trace, (caller, b + 1), limit, window)
  {
    if trace != [] {
      var init, last := trace[..|trace| - 1], trace[|trace| - 1];
      IntervalTouchesTwoWindows(init, caller, from, to, limit, window);
      if last.Increment? && from <= last.at < to {
        TwoWindows(from, last.asked, last.at, to, window);
      }
    }
  }

  lemma TwoWindows(from: nat, asked: nat, at: nat, to: nat, window: nat)
    requires window > 0 && asked <= at && from <= at < to <= from + window * SECOND
    requires at < WindowEnd(WindowBucket(asked, window), window)
    ensures WindowBucket(from, window) <= WindowBucket(asked, window) <= WindowBucket(from, window) + 1
  {
    SameWindowIff(asked, at, window);
    SameWindowIff(from, at, window);
    SameWindowIff(from, from + window * SECOND, window);
    var f := from / SECOND;
    assert (from + window * SECOND) / SECOND == f + window;
    NextWindow(f, window);
    BucketsGrow(at / SECOND, f + window, window);
  }

  lemma NextWindow(seconds: nat, window: nat)
    requires window > 0
    ensures (seconds + window) / window == seconds / window + 1
  {
    var q := seconds / window;
    assert q * window <= seconds < (q + 1) * window;
    QuotientIs(seconds + window, window, q + 1);
  }

  lemma QuotientIs(x: nat, window: nat, q: nat)
    requires window > 0 && q * window <= x < (q + 1) * window
    ensures x / window == q
  {
    var p := x / window;
    assert p * window <= x < (p + 1) * window;
    if p < q {
      EndsGrow(p + 1, q, window);
    } else if q < p {
      EndsGrow(q + 1, p, window);
    }
  }

  /** If every increment arrives within its window, a caller gets at most twice the limit in any interval
      as long as a window. */
  lemma RateIsLimited(trace: seq<Command>, caller: string, from: nat, to: nat, limit: nat, window: nat)
    requires window > 0 && Timely(trace) && Prompt(trace, window) && to <= from + window * SECOND
    ensures GrantedBetween(trace, caller, from, to, limit, window) <= 2 * limit
  {
    IntervalTouchesTwoWindows(trace, caller, from, to, limit, window);
    var b := WindowBucket(from, window);
    NeverRecreatedInItsWindow(trace, (caller, b), window);
    NeverRecreatedInItsWindow(trace, (caller, b + 1), window);
    CappedIfNeverRecreated(trace, (caller, b), limit, window);
    CappedIfNeverRecreated(trace, (caller, b + 1), limit, window);
  }

  lemma OneMore(trace: seq<Command>, command: Command, caller: string, from: nat, to: nat, limit: nat, window: nat)
    requires window > 0
    ensures StoreAfter(trace + [command], window) == Execute(StoreAfter(trace, window), command, window)
    ensures GrantedBetween(trace + [command], caller, from, to, limit, window) == GrantedBetween(trace, caller, from, to, limit, window)
      + if command.caller == caller && from <= command.at < to && IsGranted(StoreAfter(trace, window), command, limit, window) then 1 else 0
  {
    assert (trace + [command])[..|trace|] == trace;
  }

  /** Two requests of the first window, the second one a millisecond later, and two more that arrive when
      the window has just ended and their key expired. */
  function FirstWindow(caller: string, window: nat): seq<Command> {
    [] + [Increment(caller, 0, 0)] + [SetExpiry(caller, 0, 0)] + [Increment(caller, 0, 1)]
      + [Increment(caller, 0, window * SECOND)] + [Increment(caller, 0, window * SECOND)]
  }

  lemma FirstWindowGrants(caller: string, window: nat)
    requires window > 0
    ensures StoreAfter(FirstWindow(caller, window), window) == map[(caller, 0) := Entry(2, None)]
    ensures GrantedBetween(FirstWindow(caller, window), caller, 1, window * SECOND + 1, 2, window) == 3
  {
    var end := window * SECOND;
    var t0: seq<Command> := [];
    var t1, t2 := t0 + [Increment(caller, 0, 0)], t0 + [Increment(caller, 0, 0)] + [SetExpiry(caller, 0, 0)];
    var t3 := t2 + [Increment(caller, 0, 1)];
    OneMore(t0, Increment(caller, 0, 0), caller, 1, end + 1, 2, window);
    assert StoreAfter(t1, window) == map[(caller, 0) := Entry(1, None)];
    OneMore(t1, SetExpiry(caller, 0, 0), caller, 1, end + 1, 2, window);
    assert StoreAfter(t2, window) == map[(caller, 0) := Entry(1, Some(end))];
    OneMore(t2, Increment(caller, 0, 1), caller, 1, end + 1, 2, window);
    assert StoreAfter(t3, window) == map[(caller, 0) := Entry(2, Some(end))];
    OneMore(t3, Increment(caller, 0, end), caller, 1, end + 1, 2, window);
    assert StoreAfter(t3 + [Increment(caller, 0, end)], window) == map[(caller, 0) := Entry(1, None)];
    OneMore(t3 + [Increment(caller, 0, end)], Increment(caller, 0, end), caller, 1, end + 1, 2, window);
  }

  /** Followed by two requests of the second window. */
  function TwoFullWindows(caller: string, window: nat): seq<Command> {
    FirstWindow(caller, window) + [Increment(caller, window * SECOND, window * SECOND)] + [Increment(caller, window * SECOND, window * SECOND)]
  }

  lemma SecondWindowStarts(window: nat)
    requires window > 0
    ensures WindowBucket(window * SECOND, window) == 1
  {
    assert window * SECOND / SECOND == window;
    QuotientIs(window, window, 1);
  }

  lemma TwoFullWindowsGrant(caller: string, window: nat)
    requires window > 0
    ensures GrantedBetween(TwoFullWindows(caller, window), caller, 1, window * SECOND + 1, 2, window) == 5
  {
    var end := window * SECOND;
    var first := FirstWindow(caller, window);
    FirstWindowGrants(caller, window);
    SecondWindowStarts(window);
    OneMore(first, Increment(caller, end, end), caller, 1, end + 1, 2, window);
    assert StoreAfter(first + [Increment(caller, end, end)], window) == map[(caller, 0) := Entry(2, None), (caller, 1) := Entry(1, None)];
    OneMore(first + [Increment(caller, end, end)], Increment(caller, end, end), caller, 1, end + 1, 2, window);
  }

  lemma TwoFullWindowsArrive(caller: string, window: nat, late: nat)
    requires window > 0 && late > 0
    ensures Timely(TwoFullWindows(caller, window)) && ArrivesBy(TwoFullWindows(caller, window), window, late)
  {
    SecondWindowStarts(window);
    assert WindowBucket(0, window) == 0 && WindowEnd(0, window) == window * SECOND;
    InsideItsWindow(window * SECOND, window);
  }

  /** The interval bound holds in every trace whose increments arrive less than `late` after their windows
      if and only if `late` is zero. */
  lemma RateIsLimitedIff(caller: string, window: nat, late: nat)
    requires window > 0
    ensures late == 0 <==>
      forall trace, from: nat, to: nat, limit: nat | Timely(trace) && ArrivesBy(trace, window, late) && to <= from + window * SECOND ::
        GrantedBetween(trace, caller, from, to, limit, window) <= 2 * limit
  {
    if late == 0 {
      forall trace, from: nat, to: nat, limit: nat | Timely(trace) && ArrivesBy(trace, window, late) && to <= from + window * SECOND
        ensures GrantedBetween(trace, caller, from, to, limit, window) <= 2 * limit
      {
        RateIsLimited(trace, caller, from, to, limit, window);
      }
    } else {
      TwoFullWindowsArrive(caller, window, late);
      TwoFullWindowsGrant(caller, window);
    }
  }

  /** A peek reads exactly the number of requests so far; it says `allowed` wrongly about the next
      request exactly when the limit has just been used up. */
  lemma PeekIsExact(trace: seq<Command>, caller: string, now: nat, limit: nat, window: nat)
    requires window > 0 && Timely(trace) && forall i | 0 <= i < |trace| :: trace[i].at <= now
    ensures var key := (caller, WindowBucket(now, window)); var count := Count(StoreAfter(trace, window), key, now);
      && count == Requests(trace, key, window)
      && ((count <= limit <==> IsGranted(StoreAfter(trace, window), Increment(caller, now, now), limit, window)) <==> count != limit)
  {
    InsideItsWindow(now, window);
    CounterIsExact(trace, window, (caller, WindowBucket(now, window)), now);
  }

  /** It does happen: an increment delayed until its key has expired starts a new count, and the window
      gets more than its limit. */
  lemma LateIncrementExceedsLimit(caller: string)
    ensures var trace := [Increment(caller, 0, 0), SetExpiry(caller, 0, 0), Increment(caller, 0, 1000)];
      Timely(trace) && !NeverRecreated(trace, (caller, 0), 1) && Granted(trace, (caller, 0), 1, 1) == 2
  {
    var trace := [Increment(caller, 0, 0), SetExpiry(caller, 0, 0), Increment(caller, 0, 1000)];
    assert trace[..2] == [trace[0], trace[1]] && trace[..2][..1] == [trace[0]] && [trace[0]][..0] == [];
    var s0 := StoreAfter([], 1);
    assert s0 == map[] && Granted([], (caller, 0), 1, 1) == 0;
    var s1 := StoreAfter([trace[0]], 1);
    assert s1 == Execute(s0, trace[0], 1);
    assert s1 == map[(caller, 0) := Entry(1, None)];
    var s2 := StoreAfter(trace[..2], 1);
    assert s2 == map[(caller, 0) := Entry(1, Some(1000))];
    assert Granted([trace[0]], (caller, 0), 1, 1) == 1;
    assert Granted(trace[..2], (caller, 0), 1, 1) == 1;
    assert Recreates(s2, trace[2], (caller, 0), 1);
  }

  /** Arriving within the window matters for the interval: one late increment that re-creates nothing is
      enough for an interval to take from three windows. */
  lemma LateIncrementExceedsTwoWindows(caller: string)
    ensures var trace := [Increment(caller, 500, 1600), Increment(caller, 1600, 1600), Increment(caller, 2000, 2000)];
      Timely(trace) && (forall key :: NeverRecreated(trace, key, 1)) && GrantedBetween(trace, caller, 1500, 2500, 1, 1) == 3
  {
    var trace := [Increment(caller, 500, 1600), Increment(caller, 1600, 1600), Increment(caller, 2000, 2000)];
    assert trace[..2] == [trace[0], trace[1]] && trace[..2][..1] == [trace[0]] && [trace[0]][..0] == [];
    assert StoreAfter([trace[0]], 1) == map[(caller, 0) := Entry(1, None)];
    assert StoreAfter(trace[..2], 1) == map[(caller, 0) := Entry(1, None), (caller, 1) := Entry(1, None)];
    assert GrantedBetween([trace[0]], caller, 1500, 2500, 1, 1) == 1;
    assert GrantedBetween(trace[..2], caller, 1500, 2500, 1, 1) == 2;
    forall key ensures NeverRecreated(trace, key, 1) {
      assert StoreAfter([], 1) == map[] && NeverRecreated([], key, 1);
      assert NeverRecreated([trace[0]], key, 1) && NeverRecreated(trace[..2], key, 1);
    }
  }
}
