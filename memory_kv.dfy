/**
 * The in-memory key-value store with lazy expiry
 * (`packages/core/src/adapters/memory_kv.ts`).
 *
 * `KvStore` gives the meaning of each operation as a function of the map
 * the store holds and the clock reading `now`; `MemoryKv.MemoryKV` is the
 * store itself, a class whose map field each method updates in place, and
 * each method is proved to do what the matching function says. Handlers that
 * thread the store through as a value use the functions directly.
 */
module KvStore {
  import opened JsValue

  /** A stored value with its absolute expiry time, if any. */
  datatype Entry = Entry(v: Value, exp: Option<int>)

  type Store = map<string, Entry>

  /**
   * `it.exp && it.exp < now()`: an entry is stale once its expiry lies
   * strictly in the past. An expiry of 0 is falsy and so never stale.
   */
  predicate Expired(e: Entry, now: int) {
    e.exp.Some? && e.exp.value != 0 && e.exp.value < now
  }

  /** The value `get` would see: the entry's value if it is there and not stale. */
  function Live(m: Store, k: string, now: int): Option<Value> {
    if k in m && !Expired(m[k], now) then Some(m[k].v) else None
  }

  /** `purge(k)`: drops the entry for `k` if it is stale, and nothing else. */
  function Purge(m: Store, k: string, now: int): (r: Store)
    ensures forall k' :: k' != k ==> (k' in r <==> k' in m) && (k' in r ==> r[k'] == m[k'])
    ensures k in r <==> Live(m, k, now).Some?
    ensures k in r ==> r[k] == m[k]
  {
    if k in m && Expired(m[k], now) then m - {k} else m
  }

  /** What `get` returns together with the store it leaves behind. */
  datatype Got = Got(value: Value, store: Store)

  /** `get(key)`: purges `key`, then returns its value, or `null` if there is none. */
  function Get(m: Store, k: string, now: int): (r: Got)
    ensures r.value == Live(m, k, now).GetOr(Null)
    ensures r.store == Purge(m, k, now)
    ensures k !in m ==> r == Got(Null, m)
  {
    var m' := Purge(m, k, now);
    Got(if k in m' then m'[k].v else Null, m')
  }

  /** `set(key, value, ttlMs)`: a truthy `ttlMs` sets the expiry `now + ttlMs`, otherwise there is none. */
  function Set(m: Store, k: string, v: Value, ttlMs: Option<int>, now: int): (r: Store)
    ensures k in r && r[k].v == v
    ensures r[k].exp.Some? <==> TruthyNum(ttlMs)
    ensures TruthyNum(ttlMs) ==> r[k].exp == Some(now + ttlMs.value)
    ensures forall k' :: k' != k ==> (k' in r <==> k' in m) && (k' in r ==> r[k'] == m[k'])
  {
    m[k := Entry(v, if TruthyNum(ttlMs) then Some(now + ttlMs.value) else None)]
  }

  /** `delete(key)`. */
  function Delete(m: Store, k: string): (r: Store)
    ensures k !in r
    ensures forall k' :: k' != k ==> (k' in r <==> k' in m) && (k' in r ==> r[k'] == m[k'])
  {
    m - {k}
  }

  /**
   * The number `(v as number) ?? 0` stands for in `n + 1`: a number is itself,
   * `null` is 0 and a boolean counts as 0 or 1; other values count as 0.
   */
  function AsCount(v: Value): int {
    match v
    case Num(n) => n
    case Bool(b) => if b then 1 else 0
    case _ => 0
  }

  /** What `incr` returns together with the store it leaves behind. */
  datatype Incremented = Incremented(count: int, store: Store)

  /**
   * `incr(key)`: purges `key`, then stores the previous count plus one with
   * no expiry and returns it.
   */
  function Incr(m: Store, k: string, now: int): (r: Incremented)
    ensures r.count == (match Live(m, k, now) case None => 0 case Some(v) => AsCount(v)) + 1
    ensures k in r.store && r.store[k] == Entry(Num(r.count), None)
    ensures forall k' :: k' != k ==> (k' in r.store <==> k' in m) && (k' in r.store ==> r.store[k'] == m[k'])
  {
    var m' := Purge(m, k, now);
    var n := if k in m' then AsCount(m'[k].v) else 0;
    Incremented(n + 1, m'[k := Entry(Num(n + 1), None)])
  }

  /** A value set with a falsy `ttlMs` is read back at any later time. */
  lemma SetWithoutTtlPersists(m: Store, k: string, v: Value, ttlMs: Option<int>, t0: int, t1: int)
    requires !TruthyNum(ttlMs)
    ensures Get(Set(m, k, v, ttlMs, t0), k, t1).value == v
  {
  }

  /**
   * Set-then-get: a value set at `t0` with time-to-live `ttl` is read back at
   * any `t1 <= t0 + ttl`; the expiry instant itself still counts as live.
   */
  lemma SetThenGetWithinTtl(m: Store, k: string, v: Value, ttlMs: Option<int>, t0: int, t1: int)
    requires TruthyNum(ttlMs) ==> t1 <= t0 + ttlMs.value
    ensures Get(Set(m, k, v, ttlMs, t0), k, t1).value == v
  {
  }

  /**
   * Once `now` passes the (non-zero) expiry, `get` removes the entry and
   * reports `null`; only that key leaves the store.
   */
  lemma GetAfterExpiry(m: Store, k: string, v: Value, ttlMs: Option<int>, t0: int, t1: int)
    requires TruthyNum(ttlMs) && t0 + ttlMs.value != 0 && t0 + ttlMs.value < t1
    ensures Get(Set(m, k, v, ttlMs, t0), k, t1) == Got(Null, m - {k})
  {
    assert Set(m, k, v, ttlMs, t0) - {k} == m - {k};
  }

  /** After `delete(k)`, `get(k)` is `null`. */
  lemma GetAfterDelete(m: Store, k: string, now: int)
    ensures Get(Delete(m, k), k, now) == Got(Null, Delete(m, k))
  {
  }

  /** `incr` forgets any time-to-live: the counter it writes is never purged afterwards. */
  lemma IncrDropsTtl(m: Store, k: string, t0: int, t1: int)
    ensures var r := Incr(m, k, t0); Live(r.store, k, t1) == Some(Num(r.count))
  {
  }

  /** Two `incr` calls in a row count up by one each, whatever time passes between them. */
  lemma IncrTwice(m: Store, k: string, t0: int, t1: int)
    ensures Incr(Incr(m, k, t0).store, k, t1).count == Incr(m, k, t0).count + 1
  {
  }
}

module MemoryKv {
  import opened JsValue
  import opened KvStore

  /** `MemoryKV()`: a store over a `Map` of entries, each operation reading the clock as `now`. */
  class MemoryKV {
    var m: Store

    constructor ()
      ensures m == map[]
    {
      m := map[];
    }

    method Purge(k: string, now: int)
      modifies this
      ensures m == KvStore.Purge(old(m), k, now)
    {
      if k in m {
        var it := m[k];
        if it.exp.Some? && it.exp.value != 0 && it.exp.value < now {
          m := m - {k};
        }
      }
    }

    method Get(k: string, now: int) returns (v: Value)
      modifies this
      ensures KvStore.Get(old(m), k, now) == Got(v, m)
    {
      Purge(k, now);
      v := if k in m then m[k].v else Null;
    }

    method Set(k: string, v: Value, ttlMs: Option<int>, now: int)
      modifies this
      ensures m == KvStore.Set(old(m), k, v, ttlMs, now)
    {
      var exp := if ttlMs.Some? && ttlMs.value != 0 then Some(now + ttlMs.value) else None;
      m := m[k := Entry(v, exp)];
    }

    method Delete(k: string)
      modifies this
      ensures m == KvStore.Delete(old(m), k)
    {
      m := m - {k};
    }

    method Incr(k: string, now: int) returns (x: int)
      modifies this
      ensures KvStore.Incr(old(m), k, now) == Incremented(x, m)
    {
      Purge(k, now);
      var n := if k in m then AsCount(m[k].v) else 0;
      x := n + 1;
      m := m[k := Entry(Num(x), None)];
    }
  }
}
