/**
 The in-memory sliding-window rate limiter of common/rate-limit.go: bounded queues of
 admission times, one per key, and a background pass that drops idle keys.
 */
module RateLimit {

  type Store = map<string, seq<int>>

  /** The limit that is really enforced: a limit of 0 lets one request through, and with a negative one
      the first request of a key panics before it is counted. */
  function Effective(maxRequestNum: int): nat {
    if maxRequestNum < 0 then 0 else if maxRequestNum == 0 then 1 else maxRequestNum
  }

  // ---------------------------------------------------------------- one call

  predicate Stored(store: Store) { forall k :: k in store ==> store[k] != [] }

  predicate Admits(store: Store, key: string, maxRequestNum: int, duration: int, now: int)
    requires Stored(store)
  {
    && !Panics(store, key, maxRequestNum)
    && (key in store && |store[key]| >= maxRequestNum ==> now - store[key][0] >= duration)
  }

  /** Allocating a queue of negative capacity. */
  predicate Panics(store: Store, key: string, maxRequestNum: int) { key !in store && maxRequestNum < 0 }

  function AfterRequest(store: Store, key: string, maxRequestNum: int, duration: int, now: int): (r: Store)
    requires Stored(store)
    ensures Stored(r)
  {
    if !Admits(store, key, maxRequestNum, duration, now) then store
    else if key !in store then store[key := [now]]
    else if |store[key]| < maxRequestNum then store[key := store[key] + [now]]
    else store[key := store[key][1..] + [now]]
  }

  /** One pass of clearExpiredItems; `expiration` is in seconds. */
  function AfterCleanup(store: Store, now: int, expiration: int): (r: Store)
    requires Stored(store)
    ensures Stored(r)
  {
    map k | k in store && now - store[k][|store[k]|-1] <= expiration :: store[k]
  }

  const SECOND := 1000000000

  class InMemoryRateLimiter {
    var store: Store
    const expirationDuration: int   // in nanoseconds

    constructor (expirationDuration: int)
      ensures store == map[] && this.expirationDuration == expirationDuration
    {
      store := map[];
      this.expirationDuration := expirationDuration;
    }

    method Request(key: string, maxRequestNum: int, duration: int, now: int) returns (admitted: bool, panicked: bool)
      requires Stored(store)
      modifies this
      ensures admitted == Admits(old(store), key, maxRequestNum, duration, now)
      ensures panicked == Panics(old(store), key, maxRequestNum)
      ensures store == AfterRequest(old(store), key, maxRequestNum, duration, now)
    {
      if key in store {
        var queue := store[key];
        if |queue| < maxRequestNum {
          store := store[key := queue + [now]];
          return true, false;
        } else if now - queue[0] >= duration {
          queue := queue[1..];
          store := store[key := queue + [now]];
          return true, false;
        } else {
          return false, false;
        }
      }
      if maxRequestNum < 0 {
        return false, true;
      }
      store := store[key := [now]];
      return true, false;
    }

    /** One round of the cleaner, which is there for a positive duration only. */
    method ClearExpiredItems(now: int)
      requires Stored(store) && expirationDuration > 0
      modifies this
      ensures store == AfterCleanup(old(store), now, expirationDuration / SECOND)
    {
      var expiration := expirationDuration / SECOND;
      var keys := store.Keys;
      while keys != {}
        invariant Stored(store) && keys <= old(store).Keys
        invariant forall k :: k in store <==> k in old(store) && (k in keys || now - old(store)[k][|old(store)[k]|-1] <= expiration)
        invariant forall k :: k in store ==> store[k] == old(store)[k]
        decreases keys
      {
        var key :| key in keys;
        if now - store[key][|store[key]|-1] > expiration {
          store := store - {key};
        }
        keys := keys - {key};
      }
    }
  }

  // ---------------------------------------------------------------- runs

  datatype Event = Ask(key: string, now: int) | Clean(now: int)

  /** How a limiter is used: every key has one limit and one window; the duration, in nanoseconds, is the limiter's. */
  datatype Config = Config(limits: string -> int, windows: string -> int, expirationDuration: int)

  predicate HasCleaner(c: Config) { c.expirationDuration > 0 }

  function Expiration(c: Config): int { c.expirationDuration / SECOND }

  /** Clean-up passes happen only where there is a cleaner. */
  predicate Possible(events: seq<Event>, c: Config) {
    HasCleaner(c) || forall i :: 0 <= i < |events| ==> events[i].Ask?
  }

  /** The cleaner, if any, forgets nothing of this key that still counts. */
  predicate Covered(c: Config, key: string) {
    !HasCleaner(c) || c.limits(key) < 0 || c.windows(key) <= Expiration(c) + 1
  }

  function StoreAfter(events: seq<Event>, c: Config): (r: Store)
    ensures Stored(r)
  {
    if events == [] then map[]
    else
      var before := StoreAfter(events[..|events|-1], c);
      match events[|events|-1]
      case Ask(key, now) => AfterRequest(before, key, c.limits(key), c.windows(key), now)
      case Clean(now) => AfterCleanup(before, now, Expiration(c))
  }

  /** The full history the bounded queue abbreviates: all admission times of `key`. */
  function Log(events: seq<Event>, c: Config, key: string): seq<int> {
    if events == [] then []
    else
      var init, e := events[..|events|-1], events[|events|-1];
      if e.Ask? && e.key == key && Admits(StoreAfter(init, c), key, c.limits(key), c.windows(key), e.now)
      then Log(init, c, key) + [e.now] else Log(init, c, key)
  }

  /** Clock readings never decrease. */
  predicate Timely(events: seq<Event>) {
    forall i, j :: 0 <= i < j < |events| ==> events[i].now <= events[j].now
  }

  /** How many of the times lie less than `window` before `now`. */
  function Recent(times: seq<int>, now: int, window: int): (n: nat)
    ensures n <= |times|
  {
    if times == [] then 0
    else Recent(times[..|times|-1], now, window) + (if now - times[|times|-1] < window then 1 else 0)
  }

  lemma {:induction false} RecentConcat(a: seq<int>, b: seq<int>, now: int, window: int)
    ensures Recent(a + b, now, window) == Recent(a, now, window) + Recent(b, now, window)
  {
    if b == [] {
      assert a + b == a;
    } else {
      assert (a + b)[..|a + b|-1] == a + b[..|b|-1];
      RecentConcat(a, b[..|b|-1], now, window);
    }
  }

  lemma {:induction false} RecentNone(times: seq<int>, now: int, window: int)
    requires forall i :: 0 <= i < |times| ==> now - times[i] >= window
    ensures Recent(times, now, window) == 0
  {
    if times != [] { RecentNone(times[..|times|-1], now, window); }
  }

  lemma {:induction false} RecentAll(times: seq<int>, now: int, window: int)
    requires forall i :: 0 <= i < |times| ==> now - times[i] < window
    ensures Recent(times, now, window) == |times|
  {
    if times != [] { RecentAll(times[..|times|-1], now, window); }
  }

  // ---------------------------------------------------------------- refinement

  predicate Sorted(times: seq<int>) { forall i, j :: 0 <= i < j < |times| ==> times[i] <= times[j] }

  function Queue(store: Store, key: string): seq<int> { if key in store then store[key] else [] }

  /** The queue is the tail of the log; what it has forgotten is either beyond the limit or
      outside the window. */
  predicate Abbreviates(queue: seq<int>, log: seq<int>, limit: int, window: int, clock: int) {
    && |queue| <= |log| && queue == log[|log| - |queue|..]
    && |queue| <= Effective(limit)
    && Sorted(log) && (forall i :: 0 <= i < |log| ==> log[i] <= clock)
    && (|queue| == Effective(limit) || forall i :: 0 <= i < |log| - |queue| ==> clock - log[i] >= window)
  }

  lemma ShortQueue(log: seq<int>, queue: seq<int>, limit: int, window: int, clock: int, now: int)
    requires Abbreviates(queue, log, limit, window, clock) && clock <= now && |queue| < Effective(limit)
    ensures Recent(log, now, window) < Effective(limit)
  {
    var forgotten := log[..|log| - |queue|];
    assert log == forgotten + queue;
    RecentConcat(forgotten, queue, now, window);
    RecentNone(forgotten, now, window);
  }

  lemma ExpiredHead(log: seq<int>, queue: seq<int>, limit: int, window: int, clock: int, now: int)
    requires Abbreviates(queue, log, limit, window, clock) && |queue| == Effective(limit) > 0 && now - queue[0] >= window
    ensures Recent(log, now, window) < Effective(limit)
  {
    var k := |log| - |queue| + 1;
    assert log[k-1] == queue[0];
    assert log == log[..k] + log[k..];
    RecentConcat(log[..k], log[k..], now, window);
    RecentNone(log[..k], now, window);
  }

  lemma FreshHead(log: seq<int>, queue: seq<int>, limit: int, window: int, clock: int, now: int)
    requires Abbreviates(queue, log, limit, window, clock) && |queue| == Effective(limit) > 0 && now - queue[0] < window
    ensures Recent(log, now, window) >= Effective(limit)
  {
    var k := |log| - |queue|;
    assert log == log[..k] + queue;
    RecentConcat(log[..k], queue, now, window);
    forall i | 0 <= i < |queue| ensures now - queue[i] < window { assert queue[i] == log[k + i] && queue[0] == log[k]; }
    RecentAll(queue, now, window);
  }

  /** A queue that abbreviates the log makes the decision the log would make. */
  lemma DecisionFromQueue(store: Store, key: string, log: seq<int>, limit: int, window: int, clock: int, now: int)
    requires Stored(store) && Abbreviates(Queue(store, key), log, limit, window, clock) && clock <= now
    ensures Admits(store, key, limit, window, now) <==> Recent(log, now, window) < Effective(limit)
  {
    var queue := Queue(store, key);
    if |queue| < Effective(limit) {
      ShortQueue(log, queue, limit, window, clock, now);
    } else if Effective(limit) == 0 {
      assert queue == [] && key !in store;
    } else if now - queue[0] >= window {
      ExpiredHead(log, queue, limit, window, clock, now);
    } else {
      FreshHead(log, queue, limit, window, clock, now);
    }
  }

  function Clock(events: seq<Event>): int
    requires events != []
  {
    events[|events|-1].now
  }

  lemma SortedSnoc(log: seq<int>, now: int)
    requires Sorted(log) && forall i :: 0 <= i < |log| ==> log[i] <= now
    ensures Sorted(log + [now]) && forall i :: 0 <= i < |log + [now]| ==> (log + [now])[i] <= now
  {}

  /** Nothing admitted. */
  lemma WaitKeeps(queue: seq<int>, log: seq<int>, limit: int, window: int, clock: int, now: int)
    requires Abbreviates(queue, log, limit, window, clock) && clock <= now
    ensures Abbreviates(queue, log, limit, window, now)
  {}

  /** One more time at the end of a queue with room. */
  lemma GrowKeeps(queue: seq<int>, log: seq<int>, limit: int, window: int, clock: int, now: int)
    requires Abbreviates(queue, log, limit, window, clock) && clock <= now && |queue| < Effective(limit)
    ensures Abbreviates(queue + [now], log + [now], limit, window, now)
  {
    SortedSnoc(log, now);
    var k := |log| - |queue|;
    assert (log + [now])[k..] == log[k..] + [now];
    forall i | 0 <= i < k ensures now - (log + [now])[i] >= window { assert clock - log[i] >= window; }
  }

  /** A full queue drops its oldest time. */
  lemma ShiftKeeps(queue: seq<int>, log: seq<int>, limit: int, window: int, clock: int, now: int)
    requires Abbreviates(queue, log, limit, window, clock) && clock <= now && |queue| == Effective(limit) > 0
    ensures Abbreviates(queue[1..] + [now], log + [now], limit, window, now)
  {
    SortedSnoc(log, now);
    var k := |log| - |queue|;
    assert (log + [now])[k + 1..] == log[k..][1..] + [now];
  }

  lemma QueueAfter(store: Store, key: string, limit: int, window: int, now: int)
    requires Stored(store) && |Queue(store, key)| <= Effective(limit)
    ensures var queue := Queue(store, key);
            Queue(AfterRequest(store, key, limit, window, now), key) ==
            if !Admits(store, key, limit, window, now) then queue
            else if |queue| < Effective(limit) then queue + [now] else queue[1..] + [now]
    ensures Admits(store, key, limit, window, now) ==> Effective(limit) > 0
  {
    assert key !in store ==> [] + [now] == [now];
  }

  lemma AskKeeps(store: Store, key: string, log: seq<int>, limit: int, window: int, clock: int, now: int)
    requires Stored(store) && Abbreviates(Queue(store, key), log, limit, window, clock) && clock <= now
    ensures Abbreviates(Queue(AfterRequest(store, key, limit, window, now), key),
                        if Admits(store, key, limit, window, now) then log + [now] else log, limit, window, now)
  {
    var queue := Queue(store, key);
    QueueAfter(store, key, limit, window, now);
    if !Admits(store, key, limit, window, now) {
      WaitKeeps(queue, log, limit, window, clock, now);
    } else if |queue| < Effective(limit) {
      GrowKeeps(queue, log, limit, window, clock, now);
    } else {
      ShiftKeeps(queue, log, limit, window, clock, now);
    }
  }

  /** Forgetting a queue whose last time is outside the window. */
  lemma ForgetKeeps(queue: seq<int>, log: seq<int>, limit: int, window: int, clock: int, now: int)
    requires Abbreviates(queue, log, limit, window, clock) && clock <= now && queue != [] && now - queue[|queue|-1] >= window
    ensures Abbreviates([], log, limit, window, now)
  {
    assert queue[|queue|-1] == log[|log|-1];
    forall i | 0 <= i < |log| ensures now - log[i] >= window { assert i < |log| - 1 ==> log[i] <= log[|log|-1]; }
  }

  lemma CleanKeeps(store: Store, key: string, log: seq<int>, limit: int, window: int, clock: int, now: int, expiration: int)
    requires Stored(store) && Abbreviates(Queue(store, key), log, limit, window, clock) && clock <= now
    requires limit < 0 || window <= expiration + 1
    ensures Abbreviates(Queue(AfterCleanup(store, now, expiration), key), log, limit, window, now)
  {
    var queue := Queue(store, key);
    if key in AfterCleanup(store, now, expiration) || key !in store {
      WaitKeeps(queue, log, limit, window, clock, now);
    } else {
      ForgetKeeps(queue, log, limit, window, clock, now);
    }
  }

  lemma StepAbbreviates(init: seq<Event>, e: Event, c: Config, key: string, clock: int)
    requires Covered(c, key) && (e.Clean? ==> HasCleaner(c)) && clock <= e.now
    requires Abbreviates(Queue(StoreAfter(init, c), key), Log(init, c, key), c.limits(key), c.windows(key), clock)
    ensures Abbreviates(Queue(StoreAfter(init + [e], c), key), Log(init + [e], c, key), c.limits(key), c.windows(key), e.now)
  {
    var store, log := StoreAfter(init, c), Log(init, c, key);
    assert (init + [e])[..|init|] == init;
    if e.Clean? {
      CleanKeeps(store, key, log, c.limits(key), c.windows(key), clock, e.now, Expiration(c));
    } else if e.key == key {
      AskKeeps(store, key, log, c.limits(key), c.windows(key), clock, e.now);
    } else {
      WaitKeeps(Queue(store, key), log, c.limits(key), c.windows(key), clock, e.now);
    }
  }

  lemma {:induction false} RunAbbreviates(events: seq<Event>, c: Config, key: string)
    requires Timely(events) && Possible(events, c) && Covered(c, key) && events != []
    ensures Abbreviates(Queue(StoreAfter(events, c), key), Log(events, c, key), c.limits(key), c.windows(key), Clock(events))
  {
    var init, e := events[..|events|-1], events[|events|-1];
    assert events == init + [e];
    if init != [] { RunAbbreviates(init, c, key); }
    StepAbbreviates(init, e, c, key, if init == [] then e.now else Clock(init));
  }

  /** Request admits iff fewer than the limit of earlier admissions lie within the window, whatever
      requests on other keys and cleanup passes came between. */
  predicate ExactAt(events: seq<Event>, c: Config, key: string, now: int) {
    Admits(StoreAfter(events, c), key, c.limits(key), c.windows(key), now) <==>
      Recent(Log(events, c, key), now, c.windows(key)) < Effective(c.limits(key))
  }

  lemma AdmitsExactly(events: seq<Event>, c: Config, key: string, now: int)
    requires Timely(events + [Ask(key, now)]) && Possible(events, c) && Covered(c, key)
    ensures ExactAt(events, c, key, now)
  {
    var whole := events + [Ask(key, now)];
    if events == [] {
      DecisionFromQueue(map[], key, [], c.limits(key), c.windows(key), now, now);
    } else {
      assert forall i :: 0 <= i < |events| ==> events[i] == whole[i];
      assert whole[|events|-1].now <= whole[|events|].now;
      RunAbbreviates(events, c, key);
      DecisionFromQueue(StoreAfter(events, c), key, Log(events, c, key), c.limits(key), c.windows(key), Clock(events), now);
    }
  }

  // ---------------------------------------------------------------- when cleanup is harmless

  function Burst(key: string, n: nat): seq<Event> { seq(n, i => Ask(key, 0)) }

  lemma {:induction false} BurstFills(c: Config, key: string, n: nat)
    requires n <= Effective(c.limits(key)) && c.windows(key) > 0
    ensures |Log(Burst(key, n), c, key)| == n && forall i :: 0 <= i < n ==> Log(Burst(key, n), c, key)[i] == 0
    ensures Queue(StoreAfter(Burst(key, n), c), key) == Log(Burst(key, n), c, key)
  {
    if n > 0 {
      BurstFills(c, key, n - 1);
      assert Burst(key, n) == Burst(key, n - 1) + [Ask(key, 0)];
      assert (Burst(key, n - 1) + [Ask(key, 0)])[..n-1] == Burst(key, n - 1);
      QueueAfter(StoreAfter(Burst(key, n - 1), c), key, c.limits(key), c.windows(key), 0);
    }
  }

  lemma BurstForgotten(c: Config, key: string, n: nat, now: int)
    requires 0 < n <= Effective(c.limits(key)) && c.windows(key) > 0 && now > Expiration(c)
    ensures var events := Burst(key, n) + [Clean(now)];
            key !in StoreAfter(events, c) && Log(events, c, key) == Log(Burst(key, n), c, key)
  {
    var burst := Burst(key, n);
    BurstFills(c, key, n);
    assert (burst + [Clean(now)])[..|burst|] == burst;
    assert Queue(StoreAfter(burst, c), key) != [];
  }

  /** With a window longer than the expiration allows, a cleanup pass forgets admissions that
      still count: the limit is overrun. */
  lemma CleanupForgets(c: Config, key: string)
    requires !Covered(c, key)
    ensures var events := Burst(key, Effective(c.limits(key))) + [Clean(Expiration(c) + 1)];
            && Timely(events + [Ask(key, Expiration(c) + 1)]) && Possible(events, c)
            && !ExactAt(events, c, key, Expiration(c) + 1)
  {
    var n, now := Effective(c.limits(key)), Expiration(c) + 1;
    BurstFills(c, key, n);
    BurstForgotten(c, key, n, now);
    RecentAll(Log(Burst(key, n), c, key), now, c.windows(key));
  }

  /** The limiter is exact in every run exactly when there is no cleaner, because the duration is not
      positive, or no key with a window that exceeds the expiration, in whole seconds, by more than one
      second, but for keys whose requests panic anyway. */
  lemma ExactIff(c: Config)
    ensures (forall key :: c.expirationDuration <= 0 || c.limits(key) < 0 || c.windows(key) - 1 <= c.expirationDuration / 1000000000) <==>
      forall events, key, now :: Timely(events + [Ask(key, now)]) && Possible(events, c) ==> ExactAt(events, c, key, now)
  {
    forall key ensures Covered(c, key) <==> c.expirationDuration <= 0 || c.limits(key) < 0 || c.windows(key) - 1 <= c.expirationDuration / 1000000000 {}
    if forall key :: Covered(c, key) {
      forall events, key, now | Timely(events + [Ask(key, now)]) && Possible(events, c) ensures ExactAt(events, c, key, now) {
        AdmitsExactly(events, c, key, now);
      }
    } else {
      var key :| !Covered(c, key);
      CleanupForgets(c, key);
    }
  }

  /** The same run without its cleanup passes. */
  function Asks(events: seq<Event>): seq<Event> {
    if events == [] then []
    else Asks(events[..|events|-1]) + (if events[|events|-1].Ask? then [events[|events|-1]] else [])
  }

  lemma {:induction false} AsksPossible(events: seq<Event>, c: Config)
    ensures Possible(Asks(events), c)
  {
    if events != [] { AsksPossible(events[..|events|-1], c); }
  }

  lemma {:induction false} AsksTimely(events: seq<Event>, now: int)
    requires Timely(events) && forall i :: 0 <= i < |events| ==> events[i].now <= now
    ensures Timely(Asks(events)) && forall i :: 0 <= i < |Asks(events)| ==> Asks(events)[i].now <= now
  {
    if events != [] { AsksTimely(events[..|events|-1], events[|events|-1].now); }
  }

  lemma LogSnoc(init: seq<Event>, e: Event, c: Config, key: string)
    ensures Log(init + [e], c, key) ==
            if e.Ask? && e.key == key && Admits(StoreAfter(init, c), key, c.limits(key), c.windows(key), e.now)
            then Log(init, c, key) + [e.now] else Log(init, c, key)
  {
    assert (init + [e])[..|init|] == init;
  }

  /** A request at the end of either run gets the same answer. */
  lemma SameAnswer(init: seq<Event>, c: Config, key: string, now: int)
    requires Timely(init + [Ask(key, now)]) && Possible(init, c) && Covered(c, key)
    requires Log(init, c, key) == Log(Asks(init), c, key)
    ensures Log(init + [Ask(key, now)], c, key) == Log(Asks(init) + [Ask(key, now)], c, key)
  {
    var whole := init + [Ask(key, now)];
    assert forall i :: 0 <= i < |init| ==> init[i] == whole[i] && whole[i].now <= whole[|init|].now;
    AsksTimely(init, now);
    AsksPossible(init, c);
    AdmitsExactly(init, c, key, now);
    AdmitsExactly(Asks(init), c, key, now);
    LogSnoc(init, Ask(key, now), c, key);
    LogSnoc(Asks(init), Ask(key, now), c, key);
  }

  /** Cleanup passes are transparent: taking them all out of a run changes no admission. */
  lemma {:induction false} CleanupTransparent(events: seq<Event>, c: Config, key: string)
    requires Timely(events) && Possible(events, c) && Covered(c, key)
    ensures Log(events, c, key) == Log(Asks(events), c, key)
  {
    if events != [] {
      var init, e := events[..|events|-1], events[|events|-1];
      assert events == init + [e];
      CleanupTransparent(init, c, key);
      LogSnoc(init, e, c, key);
      if e.Ask? {
        LogSnoc(Asks(init), e, c, key);
        if e.key == key { SameAnswer(init, c, key, e.now); }
      } else {
        assert Asks(init) + [] == Asks(init);
      }
    }
  }

  // ---------------------------------------------------------------- the window bound

  function InWindow(times: seq<int>, from: int, window: int): nat {
    if times == [] then 0
    else InWindow(times[..|times|-1], from, window) + (if from <= times[|times|-1] < from + window then 1 else 0)
  }

  lemma {:induction false} InWindowIsRecent(times: seq<int>, from: int, window: int, now: int)
    requires now < from + window
    ensures InWindow(times, from, window) <= Recent(times, now, window)
  {
    if times != [] { InWindowIsRecent(times[..|times|-1], from, window, now); }
  }

  lemma InWindowSnoc(times: seq<int>, t: int, from: int, window: int)
    ensures InWindow(times + [t], from, window) == InWindow(times, from, window) + if from <= t < from + window then 1 else 0
  {
    assert (times + [t])[..|times|] == times;
  }

  /** One more admission still fits. */
  lemma OneMoreFits(init: seq<Event>, c: Config, key: string, now: int, from: int)
    requires Timely(init + [Ask(key, now)]) && Possible(init, c) && Covered(c, key)
    requires Admits(StoreAfter(init, c), key, c.limits(key), c.windows(key), now)
    requires InWindow(Log(init, c, key), from, c.windows(key)) <= Effective(c.limits(key))
    ensures InWindow(Log(init, c, key) + [now], from, c.windows(key)) <= Effective(c.limits(key))
  {
    var log := Log(init, c, key);
    InWindowSnoc(log, now, from, c.windows(key));
    if now < from + c.windows(key) {
      AdmitsExactly(init, c, key, now);
      InWindowIsRecent(log, from, c.windows(key), now);
    }
  }

  /** No run admits more than the limit within any window of the configured length. */
  lemma {:induction false} NeverOverruns(events: seq<Event>, c: Config, key: string, from: int)
    requires Timely(events) && Possible(events, c) && Covered(c, key)
    ensures InWindow(Log(events, c, key), from, c.windows(key)) <= Effective(c.limits(key))
  {
    if events != [] {
      var init, e := events[..|events|-1], events[|events|-1];
      assert events == init + [e];
      NeverOverruns(init, c, key, from);
      LogSnoc(init, e, c, key);
      if e.Ask? && e.key == key && Admits(StoreAfter(init, c), key, c.limits(key), c.windows(key), e.now) {
        OneMoreFits(init, c, key, e.now, from);
      }
    }
  }
}
