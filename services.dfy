/**
 * The dependency-injected services of `packages/core/src/services.ts`:
 * reading the injected clock, and bumping a counter in the injected
 * key-value store, by the store's own `incr` when it has one and by
 * get-plus-set otherwise.
 */
module Services {
  import opened JsValue
  import opened KvStore
  import opened MemoryKv

  /** The clock port; an instant is a number of milliseconds. */
  datatype Clock = Clock(now: () -> int)

  /** `timeNow(d)`: a thunk that reads the injected clock each time it is called. */
  function TimeNow(d: Clock): (f: () -> int)
    ensures f() == d.now()
  {
    () => d.now()
  }

  /**
   * `bumpCounter(d)(key)` as a function of the store: `hasIncr` says whether
   * the store offers `incr`. Without it the counter is read (`?? 0`), one is
   * added and the result is written back with no time-to-live.
   */
  function Bumped(hasIncr: bool, m: Store, key: string, now: int): (r: Incremented)
  {
    if hasIncr then Incr(m, key, now)
    else
      var g := Get(m, key, now);
      var next := AsCount(g.value) + 1;
      Incremented(next, Set(g.store, key, Num(next), None, now))
  }

  /** Both paths of `bumpCounter` leave the same count and the same store. */
  lemma BumpPathsAgree(m: Store, key: string, now: int)
    ensures Bumped(false, m, key, now) == Bumped(true, m, key, now)
  {
  }

  /** `bumpCounter` returns the live count plus one and stores it without expiry; other keys are untouched. */
  lemma BumpCounts(hasIncr: bool, m: Store, key: string, now: int)
    ensures var r := Bumped(hasIncr, m, key, now);
            && r.count == AsCount(Live(m, key, now).GetOr(Null)) + 1
            && key in r.store && r.store[key] == Entry(Num(r.count), None)
            && forall k' :: k' != key ==> (k' in r.store <==> k' in m) && (k' in r.store ==> r.store[k'] == m[k'])
  {
    BumpPathsAgree(m, key, now);
  }

  /** The counts returned by bumping `key` once at each of the given times. */
  function Bumps(hasIncr: bool, m: Store, key: string, times: seq<int>): (r: seq<int>)
    ensures |r| == |times|
    decreases |times|
  {
    if |times| == 0 then []
    else
      var r := Bumped(hasIncr, m, key, times[0]);
      [r.count] + Bumps(hasIncr, r.store, key, times[1..])
  }

  /** `key` holds the counter value `c` (absent meaning 0) and it never expires. */
  predicate HoldsCount(m: Store, key: string, c: int) {
    if key in m then m[key] == Entry(Num(c), None) else c == 0
  }

  /** A counter holding `c` is bumped to `c + 1`, again without expiry. */
  lemma BumpFromCount(hasIncr: bool, m: Store, key: string, c: int, now: int)
    requires HoldsCount(m, key, c)
    ensures var r := Bumped(hasIncr, m, key, now);
            r.count == c + 1 && HoldsCount(r.store, key, c + 1)
  {
    BumpCounts(hasIncr, m, key, now);
  }

  /** From a counter at `c`, successive bumps return `c + 1, c + 2, …`, whatever the times. */
  lemma {:induction false} BumpsCountUp(hasIncr: bool, m: Store, key: string, times: seq<int>, c: int)
    requires HoldsCount(m, key, c)
    ensures forall i :: 0 <= i < |times| ==> Bumps(hasIncr, m, key, times)[i] == c + i + 1
    decreases |times|
  {
    if |times| > 0 {
      var r := Bumped(hasIncr, m, key, times[0]);
      BumpCounts(hasIncr, m, key, times[0]);
      BumpsCountUp(hasIncr, r.store, key, times[1..], c + 1);
    }
  }

  /** A fresh store starts every counter at 1: two fresh stores both answer 1. */
  lemma FreshStoreCountsFromOne(hasIncr: bool, key: string, times: seq<int>)
    ensures forall i :: 0 <= i < |times| ==> Bumps(hasIncr, map[], key, times)[i] == i + 1
  {
    BumpsCountUp(hasIncr, map[], key, times, 0);
  }

  /** `bumpCounter` run against the in-memory store, along whichever path `hasIncr` selects. */
  method BumpCounter(kv: MemoryKV, hasIncr: bool, key: string, now: int) returns (n: int)
    modifies kv
    ensures Bumped(hasIncr, old(kv.m), key, now) == Incremented(n, kv.m)
  {
    if hasIncr {
      n := kv.Incr(key, now);
    } else {
      var cur := kv.Get(key, now);
      n := AsCount(cur) + 1;
      kv.Set(key, Num(n), None, now);
    }
  }
}
