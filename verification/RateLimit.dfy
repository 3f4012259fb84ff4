/**
 The fixed-window rate limiter with its background sweep.
 */
module RateLimit {

  type Key = string

  datatype Entry = Entry(count: nat, resetAt: int)

  type Store = map<Key, Entry>

  /** The entry a request at `now` is counted in: a live one, or a new window. */
  function EntryFor(store: Store, key: Key, now: int, windowMs: nat): Entry {
    if key in store && store[key].resetAt > now then store[key] else Entry(0, now + windowMs)
  }

  function AfterHit(store: Store, key: Key, now: int, windowMs: nat): Store {
    var e := EntryFor(store, key, now, windowMs);
    store[key := e.(count := e.count + 1)]
  }

  predicate Admits(store: Store, key: Key, now: int, windowMs: nat, max: nat) {
    EntryFor(store, key, now, windowMs).count + 1 <= max
  }

  function Swept(store: Store, now: int): Store {
    map key | key in store && store[key].resetAt > now :: store[key]
  }

  class RateLimiter {
    var store: Store

    constructor ()
      ensures store == map[]
    {
      store := map[];
    }

    /** One request: true when it is let through, false for a 429. */
    method Hit(key: Key, now: int, windowMs: nat, max: nat) returns (admitted: bool)
      modifies this
      ensures admitted == Admits(old(store), key, now, windowMs, max)
      ensures store == AfterHit(old(store), key, now, windowMs)
    {
      var entry := if key in store then store[key] else Entry(0, now);
      if key !in store || entry.resetAt <= now {
        entry := Entry(0, now + windowMs);
        store := store[key := entry];
      }
      entry := entry.(count := entry.count + 1);
      store := store[key := entry];
      admitted := entry.count <= max;
    }

    /** The sweep's loop over the store, in any order, deleting dead entries. */
    method Sweep(now: int)
      modifies this
      ensures store == Swept(old(store), now)
    {
      var left := store.Keys;
      while left != {}
        invariant left <= store.Keys
        invariant store.Keys <= old(store).Keys
        invariant forall k :: k in store ==> store[k] == old(store)[k]
        invariant forall k :: k in old(store) && k !in left ==> (k in store <==> old(store)[k].resetAt > now)
        decreases |left|
      {
        var key :| key in left;
        left := left - {key};
        if store[key].resetAt <= now {
          store := store - {key};
        }
      }
    }
  }

  // ---- Runs ----

  datatype Event = Request(key: Key, now: int) | SweepAt(now: int)

  function Time(e: Event): int {
    e.now
  }

  predicate Monotone(events: seq<Event>) {
    forall i, j :: 0 <= i < j < |events| ==> Time(events[i]) <= Time(events[j])
  }

  /** What became of each request: its time, whether it was admitted, and the window
      it was counted in, named by its reset time. */
  datatype Decision = Decision(key: Key, now: int, admitted: bool, resetAt: int)

  function Decide(store: Store, key: Key, now: int, windowMs: nat, max: nat): Decision {
    Decision(key, now, Admits(store, key, now, windowMs, max), EntryFor(store, key, now, windowMs).resetAt)
  }

  function Run(store: Store, events: seq<Event>, windowMs: nat, max: nat): seq<Decision>
    decreases events
  {
    if events == [] then []
    else
      match events[0]
      case Request(key, now) =>
        [Decide(store, key, now, windowMs, max)] + Run(AfterHit(store, key, now, windowMs), events[1..], windowMs, max)
      case SweepAt(now) => Run(Swept(store, now), events[1..], windowMs, max)
  }

  function Requests(events: seq<Event>): seq<Event> {
    if events == [] then []
    else (if events[0].Request? then [events[0]] else []) + Requests(events[1..])
  }

  // ---- The sweep is invisible ----

  /** Two stores no request at `now` or later can tell apart. */
  ghost predicate Alike(a: Store, b: Store, now: int) {
    forall key :: Live(a, key, now) == Live(b, key, now) && (Live(a, key, now) ==> a[key] == b[key])
  }

  predicate Live(store: Store, key: Key, now: int) {
    key in store && store[key].resetAt > now
  }

  predicate From(events: seq<Event>, now: int) {
    events != [] ==> now <= Time(events[0])
  }

  /** Running the sweep at any moments changes no decision. */
  lemma {:induction false} SweepsAreInvisible(a: Store, b: Store, events: seq<Event>, now: int, windowMs: nat, max: nat)
    requires Alike(a, b, now) && Monotone(events) && From(events, now)
    ensures Run(a, events, windowMs, max) == Run(b, Requests(events), windowMs, max)
    decreases events
  {
    if events != [] {
      var e, rest := events[0], events[1..];
      assert Alike(a, b, Time(e));
      match e
      case Request(key, t) =>
        assert EntryFor(a, key, t, windowMs) == EntryFor(b, key, t, windowMs) by {
          assert Live(a, key, t) == Live(b, key, t);
        }
        var a', b' := AfterHit(a, key, t, windowMs), AfterHit(b, key, t, windowMs);
        assert Alike(a', b', t) by {
          forall k
            ensures Live(a', k, t) == Live(b', k, t) && (Live(a', k, t) ==> a'[k] == b'[k])
          {
            assert Live(a, k, t) == Live(b, k, t);
          }
        }
        SweepsAreInvisible(a', b', rest, t, windowMs, max);
        assert Requests(events) == [e] + Requests(rest);
        assert Requests(events)[1..] == Requests(rest);
      case SweepAt(t) =>
        var a' := Swept(a, t);
        assert Alike(a', b, t) by {
          forall k
            ensures Live(a', k, t) == Live(b, k, t) && (Live(a', k, t) ==> a'[k] == b[k])
          {
            assert Live(a, k, t) == Live(b, k, t);
          }
        }
        SweepsAreInvisible(a', b, rest, t, windowMs, max);
        assert Requests(events) == Requests(rest);
    }
  }

  // ---- How many requests get through ----

  /** How many admitted decisions for `key` were counted in the window ending at `resetAt`. */
  function InWindow(decisions: seq<Decision>, key: Key, resetAt: int): nat {
    if decisions == [] then 0
    else
      (if decisions[0].key == key && decisions[0].admitted && decisions[0].resetAt == resetAt then 1 else 0)
      + InWindow(decisions[1..], key, resetAt)
  }

  function Left(used: nat, max: nat): nat {
    if used < max then max - used else 0
  }

  /** What the window ending at `resetAt` can still admit from `now` on: the rest of
      its maximum while it is the key's window, all of it while it may yet open. */
  function Quota(store: Store, key: Key, resetAt: int, now: int, windowMs: nat, max: nat): nat {
    if key in store && store[key].resetAt == resetAt then Left(store[key].count, max)
    else if resetAt - windowMs < now then 0
    else max
  }

  /** With a clock that never goes back, no window admits more than the maximum. */
  lemma {:induction false} WindowAdmitsAtMostMax(store: Store, events: seq<Event>, now: int, windowMs: nat, max: nat,
                                                 key: Key, resetAt: int)
    requires Monotone(events) && From(events, now) && windowMs > 0
    ensures InWindow(Run(store, events, windowMs, max), key, resetAt) <= Quota(store, key, resetAt, now, windowMs, max)
    decreases events
  {
    if events != [] {
      var e, rest := events[0], events[1..];
      match e
      case Request(k, t) =>
        WindowAdmitsAtMostMax(AfterHit(store, k, t, windowMs), rest, t, windowMs, max, key, resetAt);
        assert Run(store, events, windowMs, max)[1..] == Run(AfterHit(store, k, t, windowMs), rest, windowMs, max);
      case SweepAt(t) =>
        WindowAdmitsAtMostMax(Swept(store, t), rest, t, windowMs, max, key, resetAt);
    }
  }

  lemma EveryWindowAdmitsAtMostMax(events: seq<Event>, windowMs: nat, max: nat, key: Key, resetAt: int)
    requires Monotone(events) && windowMs > 0
    ensures InWindow(Run(map[], events, windowMs, max), key, resetAt) <= max
  {
    var now := if events == [] then 0 else Time(events[0]);
    WindowAdmitsAtMostMax(map[], events, now, windowMs, max, key, resetAt);
  }

  /** How many admitted decisions for `key` fall into [from, to). */
  function AdmittedIn(decisions: seq<Decision>, key: Key, from: int, to: int): nat {
    if decisions == [] then 0
    else
      (if decisions[0].key == key && decisions[0].admitted && from <= decisions[0].now < to then 1 else 0)
      + AdmittedIn(decisions[1..], key, from, to)
  }

  /** What the interval [from, from + windowMs) can still admit from `now` on: the
      rest of a window that reaches into it and one window after that, or, with no
      such window, one that opens inside, behind one that opened just before. */
  function Allowance(store: Store, key: Key, now: int, from: int, windowMs: nat, max: nat): int {
    var to := from + windowMs;
    if now >= to then 0
    else if Live(store, key, now) && store[key].resetAt > from then
      Left(store[key].count, max) + if store[key].resetAt < to then max else 0
    else if now >= from || max == 0 then max
    else 2 * max - 1
  }

  predicate Counted(store: Store) {
    forall key :: key in store ==> store[key].count >= 1
  }

  lemma HitAllowance(store: Store, k: Key, t: int, key: Key, now: int, from: int, windowMs: nat, max: nat)
    requires Counted(store) && now <= t && windowMs > 0
    ensures var after := AfterHit(store, k, t, windowMs);
      && Counted(after)
      && Allowance(after, key, t, from, windowMs, max)
         + (if k == key && Admits(store, k, t, windowMs, max) && from <= t < from + windowMs then 1 else 0)
         <= Allowance(store, key, now, from, windowMs, max)
  {
  }

  lemma SweepAllowance(store: Store, t: int, key: Key, now: int, from: int, windowMs: nat, max: nat)
    requires Counted(store) && now <= t && windowMs > 0
    ensures Counted(Swept(store, t))
    ensures Allowance(Swept(store, t), key, t, from, windowMs, max) <= Allowance(store, key, now, from, windowMs, max)
  {
  }

  lemma {:induction false} IntervalAdmits(store: Store, events: seq<Event>, now: int, windowMs: nat, max: nat,
                                          key: Key, from: int)
    requires Monotone(events) && From(events, now) && windowMs > 0 && Counted(store)
    ensures AdmittedIn(Run(store, events, windowMs, max), key, from, from + windowMs) <=
            Allowance(store, key, now, from, windowMs, max)
    decreases events
  {
    if events != [] {
      var e, rest := events[0], events[1..];
      match e
      case Request(k, t) =>
        var after := AfterHit(store, k, t, windowMs);
        HitAllowance(store, k, t, key, now, from, windowMs, max);
        IntervalAdmits(after, rest, t, windowMs, max, key, from);
        assert Run(store, events, windowMs, max)[1..] == Run(after, rest, windowMs, max);
      case SweepAt(t) =>
        SweepAllowance(store, t, key, now, from, windowMs, max);
        IntervalAdmits(Swept(store, t), rest, t, windowMs, max, key, from);
    }
  }

  /** Any interval as long as a window admits fewer than twice the maximum: of two
      windows that meet in it, the request that opened the first lies before it. */
  lemma AnyIntervalAdmitsLessThanTwice(events: seq<Event>, windowMs: nat, max: nat, key: Key, from: int)
    requires Monotone(events) && windowMs > 0 && max > 0
    ensures AdmittedIn(Run(map[], events, windowMs, max), key, from, from + windowMs) <= 2 * max - 1
  {
    var now := if events == [] then from else Time(events[0]);
    IntervalAdmits(map[], events, now, windowMs, max, key, from);
  }

  /** `n` requests at the same time, then `rest`. */
  function Repeated(key: Key, t: int, n: nat, rest: seq<Event>): seq<Event> {
    if n == 0 then rest else [Request(key, t)] + Repeated(key, t, n - 1, rest)
  }

  /** The run that gets the most through: one request opens a window, as many as it still
      admits come just before its end, and a whole maximum right at it. */
  function Burst(key: Key, windowMs: int, max: nat): seq<Event>
    requires max >= 1
  {
    [Request(key, 0)] + Repeated(key, windowMs - 1, max - 1, Repeated(key, windowMs, max, []))
  }

  lemma {:induction false} RepeatedInOrder(key: Key, t: int, n: nat, rest: seq<Event>)
    requires Monotone(rest) && From(rest, t)
    ensures Monotone(Repeated(key, t, n, rest)) && From(Repeated(key, t, n, rest), t)
  {
    if n > 0 {
      RepeatedInOrder(key, t, n - 1, rest);
      InOrder(Request(key, t), Repeated(key, t, n - 1, rest));
    }
  }

  lemma InOrder(e: Event, rest: seq<Event>)
    requires Monotone(rest) && From(rest, Time(e))
    ensures Monotone([e] + rest)
  {
    forall j | 0 <= j < |rest|
      ensures Time(e) <= Time(rest[j])
    {
      assert Time(rest[0]) <= Time(rest[j]);
    }
  }

  /** What one more admitted request inside an interval adds to the count. */
  lemma OneAdmitted(store: Store, key: Key, t: int, rest: seq<Event>, windowMs: nat, max: nat, from: int, to: int)
    requires EntryFor(store, key, t, windowMs).count < max && from <= t < to
    ensures AdmittedIn(Run(store, [Request(key, t)] + rest, windowMs, max), key, from, to) ==
            1 + AdmittedIn(Run(AfterHit(store, key, t, windowMs), rest, windowMs, max), key, from, to)
  {
    var events := [Request(key, t)] + rest;
    assert events[1..] == rest;
    var run := Run(store, events, windowMs, max);
    assert run[1..] == Run(AfterHit(store, key, t, windowMs), rest, windowMs, max);
  }

  lemma FirstAdmitted(key: Key, entry: Entry, next: Entry, t: int, n: nat, rest: seq<Event>,
                      windowMs: nat, max: nat, from: int, to: int)
    requires n > 0 && entry.resetAt > t && entry.count < max && from <= t < to
    requires next == entry.(count := entry.count + 1)
    ensures AdmittedIn(Run(map[key := entry], Repeated(key, t, n, rest), windowMs, max), key, from, to) ==
            1 + AdmittedIn(Run(map[key := next], Repeated(key, t, n - 1, rest), windowMs, max), key, from, to)
  {
    OneAdmitted(map[key := entry], key, t, Repeated(key, t, n - 1, rest), windowMs, max, from, to);
    assert AfterHit(map[key := entry], key, t, windowMs) == map[key := next];
  }

  /** Requests that a live window still has room for are all let through. */
  lemma {:induction false} AllAdmitted(key: Key, entry: Entry, last: Entry, t: int, n: nat, rest: seq<Event>,
                                       windowMs: nat, max: nat, from: int, to: int)
    requires entry.resetAt > t && entry.count + n <= max && from <= t < to
    requires last == entry.(count := entry.count + n)
    ensures AdmittedIn(Run(map[key := entry], Repeated(key, t, n, rest), windowMs, max), key, from, to) ==
            n + AdmittedIn(Run(map[key := last], rest, windowMs, max), key, from, to)
    decreases n
  {
    if n > 0 {
      var next := entry.(count := entry.count + 1);
      FirstAdmitted(key, entry, next, t, n, rest, windowMs, max, from, to);
      AllAdmitted(key, next, last, t, n - 1, rest, windowMs, max, from, to);
    }
  }

  /** A request at the end of a window opens the next one, which admits its maximum. */
  lemma NextWindow(key: Key, entry: Entry, windowMs: nat, max: nat)
    requires entry.resetAt == windowMs && windowMs >= 2 && max >= 1
    ensures var run := Run(map[key := entry], Repeated(key, windowMs, max, []), windowMs, max);
      AdmittedIn(run, key, 1, 1 + windowMs) == max
  {
    var second := Entry(1, 2 * windowMs);
    OneAdmitted(map[key := entry], key, windowMs, Repeated(key, windowMs, max - 1, []), windowMs, max, 1, 1 + windowMs);
    assert AfterHit(map[key := entry], key, windowMs, windowMs) == map[key := second];
    AllAdmitted(key, second, second.(count := max), windowMs, max - 1, [], windowMs, max, 1, 1 + windowMs);
  }

  lemma BurstInOrder(key: Key, windowMs: nat, max: nat)
    requires max >= 1 && windowMs >= 2
    ensures Monotone(Burst(key, windowMs, max))
  {
    RepeatedInOrder(key, windowMs, max, []);
    var last := Repeated(key, windowMs, max, []);
    RepeatedInOrder(key, windowMs - 1, max - 1, last);
    InOrder(Request(key, 0), Repeated(key, windowMs - 1, max - 1, last));
  }

  /** For every maximum, and every window of at least two milliseconds, the bound is
      reached in the interval that starts just after the first request. */
  lemma TwiceLessOneIsReached(key: Key, windowMs: nat, max: nat)
    requires max >= 1 && windowMs >= 2
    ensures Monotone(Burst(key, windowMs, max))
    ensures AdmittedIn(Run(map[], Burst(key, windowMs, max), windowMs, max), key, 1, 1 + windowMs) == 2 * max - 1
  {
    BurstInOrder(key, windowMs, max);
    var first := Entry(1, windowMs);
    var last := Repeated(key, windowMs, max, []);
    var rest := Repeated(key, windowMs - 1, max - 1, last);
    assert AfterHit(map[], key, 0, windowMs) == map[key := first];
    RunRequest(map[], key, 0, rest, windowMs, max);
    AllAdmitted(key, first, first.(count := max), windowMs - 1, max - 1, last, windowMs, max, 1, 1 + windowMs);
    NextWindow(key, first.(count := max), windowMs, max);
    assert Run(map[], Burst(key, windowMs, max), windowMs, max)[1..] == Run(map[key := first], rest, windowMs, max);
  }

  lemma RunRequest(store: Store, key: Key, now: int, rest: seq<Event>, windowMs: nat, max: nat)
    ensures Run(store, [Request(key, now)] + rest, windowMs, max) ==
      [Decide(store, key, now, windowMs, max)] + Run(AfterHit(store, key, now, windowMs), rest, windowMs, max)
  {
    assert ([Request(key, now)] + rest)[1..] == rest;
  }

  /** With a window of one millisecond no interval as long as it holds two request times:
      the bound is then the maximum itself. */
  lemma {:induction false} OneMillisecondAdmitsMax(store: Store, events: seq<Event>, now: int, max: nat, key: Key,
                                                   from: int)
    requires Monotone(events) && From(events, now)
    requires key in store ==> store[key].resetAt <= now + 1
    ensures AdmittedIn(Run(store, events, 1, max), key, from, from + 1) <=
      if now > from then 0 else if now == from && Live(store, key, now) then Left(store[key].count, max) else max
    decreases events
  {
    if events != [] {
      var e, rest := events[0], events[1..];
      match e
      case Request(k, t) =>
        OneMillisecondAdmitsMax(AfterHit(store, k, t, 1), rest, t, max, key, from);
        assert Run(store, events, 1, max)[1..] == Run(AfterHit(store, k, t, 1), rest, 1, max);
      case SweepAt(t) =>
        OneMillisecondAdmitsMax(Swept(store, t), rest, t, max, key, from);
    }
  }
}
