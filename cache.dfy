/**
 * `withCache(ttlMs, fn)` (`packages/macrofx/src/cache.ts`): memoises a
 * function's results in the key-value store under a key built from the
 * function's name and its serialised arguments.
 */
module Cache {
  import opened JsValue
  import opened KvStore
  import opened MemoryKv
  import opened MacroFx

  /**
   * `cache:${fn.name || "fn"}:${JSON.stringify(args)}`; the serialiser is a
   * parameter of the model.
   */
  function CacheKey(name: string, stringify: seq<Value> -> string, args: seq<Value>): string {
    "cache:" + (if name == "" then "fn" else name) + ":" + stringify(args)
  }

  /** With an injective serialiser, one function's calls share a key exactly when their arguments are equal. */
  lemma CacheKeySeparatesArgs(name: string, stringify: seq<Value> -> string, a1: seq<Value>, a2: seq<Value>)
    requires forall x, y :: stringify(x) == stringify(y) ==> x == y
    ensures CacheKey(name, stringify, a1) == CacheKey(name, stringify, a2) <==> a1 == a2
  {
    var p := "cache:" + (if name == "" then "fn" else name) + ":";
    if CacheKey(name, stringify, a1) == CacheKey(name, stringify, a2) {
      assert stringify(a1) == (p + stringify(a1))[|p|..];
    }
  }

  /** One call through the cache: its outcome, the store afterwards and how many times `fn` has run. */
  datatype CacheStep = CacheStep(result: Outcome, store: Store, calls: nat)

  /**
   * One call of `withCache(ttlMs, fn)(deps)(...args)` at time `now`, `fn`
   * having run `calls` times before. A stored value other than `null` is a
   * hit; otherwise `fn` runs, and a value it returns is stored with the
   * time-to-live while a throw propagates and stores nothing.
   */
  function CacheCall(ttlMs: int, fn: Op, stringify: seq<Value> -> string, args: seq<Value>,
                     m: Store, now: int, calls: nat): (r: CacheStep)
    ensures var key := CacheKey(fn.name, stringify, args);
            var live := Live(m, key, now);
            && (live.Some? && live.value != Null ==> r == CacheStep(Returned(live.value), m, calls))
            && (live.None? || live.value == Null ==>
                  && r.calls == calls + 1
                  && r.result == fn.run(args, calls)
                  && (r.result.Threw? ==> r.store == Purge(m, key, now))
                  && (r.result.Returned? && ttlMs >= 0 ==> Live(r.store, key, now) == Some(r.result.value)))
    ensures var key := CacheKey(fn.name, stringify, args);
            forall k' :: k' != key ==> (k' in r.store <==> k' in m) && (k' in r.store ==> r.store[k'] == m[k'])
  {
    var key := CacheKey(fn.name, stringify, args);
    var g := Get(m, key, now);
    if g.value != Null then CacheStep(Returned(g.value), g.store, calls)
    else
      match fn.run(args, calls)
      case Threw(e) => CacheStep(Threw(e), g.store, calls + 1)
      case Returned(out) => CacheStep(Returned(out), Set(g.store, key, out, Some(ttlMs), now), calls + 1)
  }

  /**
   * A value `fn` computed on a miss at `t0` is served from the store, without
   * running `fn`, by a call with the same arguments at any `t1` up to
   * `t0 + ttlMs`; a `ttlMs` of 0 keeps it for ever.
   */
  lemma RepeatWithinTtlHits(ttlMs: int, fn: Op, stringify: seq<Value> -> string, args: seq<Value>,
                            m: Store, t0: int, t1: int, calls: nat)
    requires var r := CacheCall(ttlMs, fn, stringify, args, m, t0, calls);
             r.calls == calls + 1 && r.result.Returned? && r.result.value != Null
    requires ttlMs != 0 ==> t1 <= t0 + ttlMs
    ensures var r := CacheCall(ttlMs, fn, stringify, args, m, t0, calls);
            CacheCall(ttlMs, fn, stringify, args, r.store, t1, r.calls) == CacheStep(r.result, r.store, r.calls)
  {
    var key := CacheKey(fn.name, stringify, args);
    var r := CacheCall(ttlMs, fn, stringify, args, m, t0, calls);
    assert r.store == Set(Get(m, key, t0).store, key, r.result.value, Some(ttlMs), t0);
    assert Live(r.store, key, t1) == Some(r.result.value);
  }

  /** Once the time-to-live of a computed value has passed, the next call runs `fn` again. */
  lemma ExpiredEntryRecomputes(ttlMs: int, fn: Op, stringify: seq<Value> -> string, args: seq<Value>,
                               m: Store, t0: int, t1: int, calls: nat)
    requires var r := CacheCall(ttlMs, fn, stringify, args, m, t0, calls);
             r.calls == calls + 1 && r.result.Returned?
    requires ttlMs != 0 && t0 + ttlMs != 0 && t0 + ttlMs < t1
    ensures var r := CacheCall(ttlMs, fn, stringify, args, m, t0, calls);
            var r2 := CacheCall(ttlMs, fn, stringify, args, r.store, t1, r.calls);
            r2.calls == r.calls + 1 && r2.result == fn.run(args, r.calls)
  {
    var key := CacheKey(fn.name, stringify, args);
    var r := CacheCall(ttlMs, fn, stringify, args, m, t0, calls);
    assert r.store == Set(Get(m, key, t0).store, key, r.result.value, Some(ttlMs), t0);
    assert Live(r.store, key, t1) == None;
  }

  /** A `null` result is stored but reads as a miss, so the next call runs `fn` again. */
  lemma NullResultNeverHits(ttlMs: int, fn: Op, stringify: seq<Value> -> string, args: seq<Value>,
                            m: Store, t0: int, t1: int, calls: nat)
    requires CacheCall(ttlMs, fn, stringify, args, m, t0, calls).result == Returned(Null)
    ensures var r := CacheCall(ttlMs, fn, stringify, args, m, t0, calls);
            CacheCall(ttlMs, fn, stringify, args, r.store, t1, r.calls).calls == r.calls + 1
  {
    var key := CacheKey(fn.name, stringify, args);
    var r := CacheCall(ttlMs, fn, stringify, args, m, t0, calls);
    assert Live(r.store, key, t1).GetOr(Null) == Null;
  }

  /** A call that throws leaves nothing cached, so the next call runs `fn` again. */
  lemma ThrowIsNotCached(ttlMs: int, fn: Op, stringify: seq<Value> -> string, args: seq<Value>,
                         m: Store, t0: int, t1: int, calls: nat)
    requires CacheCall(ttlMs, fn, stringify, args, m, t0, calls).result.Threw?
    ensures var r := CacheCall(ttlMs, fn, stringify, args, m, t0, calls);
            CacheCall(ttlMs, fn, stringify, args, r.store, t1, r.calls).calls == r.calls + 1
  {
    var key := CacheKey(fn.name, stringify, args);
    var r := CacheCall(ttlMs, fn, stringify, args, m, t0, calls);
    assert r.store == Purge(m, key, t0);
  }

  /** `withCache(ttlMs, fn)` called once against the in-memory store. */
  method WithCache(kv: MemoryKV, ttlMs: int, fn: Op, stringify: seq<Value> -> string, args: seq<Value>,
                   now: int, calls: nat) returns (out: Outcome, callsAfter: nat)
    modifies kv
    ensures CacheCall(ttlMs, fn, stringify, args, old(kv.m), now, calls) == CacheStep(out, kv.m, callsAfter)
  {
    var key := CacheKey(fn.name, stringify, args);
    var hit := kv.Get(key, now);
    if hit != Null {
      return Returned(hit), calls;
    }
    out := fn.run(args, calls);
    callsAfter := calls + 1;
    if out.Returned? {
      kv.Set(key, out.value, Some(ttlMs), now);
    }
  }
}
