/**
 * The distributed-quotas service (`examples/distributed-quotas/common.ts`):
 * `GET /quota` passes `auth` and a fixed-window `rateLimit` keyed by API key
 * and window number, then reports the caller's quota; `GET /health` bypasses
 * both; anything else is 404. The handler's state is the key-value store.
 */
module Quotas {
  import opened JsValue
  import opened JsString
  import opened Router
  import opened MwRegistry
  import Middleware
  import opened TypedHeaders
  import opened Constructors
  import opened KvStore
  import opened Services
  import opened Keys

  const DefaultLimit := 5
  const DefaultWindowMs: PositiveInt := 60_000

  /**
   * `{ label, kv, limit?, windowMs? }`, with `label` as `adapterLabel`. The store itself is the handlers'
   * state; `hasIncr` says whether it offers `incr`.
   */
  datatype Options = Options(adapterLabel: string, hasIncr: bool, limit: Option<int>, windowMs: Option<PositiveInt>)

  function Limit(o: Options): int {
    o.limit.GetOr(DefaultLimit)
  }

  function WindowMs(o: Options): PositiveInt {
    o.windowMs.GetOr(DefaultWindowMs)
  }

  /** `namespace(key)`. */
  function Namespace(key: string): string {
    "quota:" + key
  }

  datatype Bucket = Bucket(apiKey: string, bucketId: string, window: int)

  /**
   * `bucketFor(req)` at time `now`: the caller's API key (`"anon"` without
   * one) and the number of the fixed window that contains `now`.
   */
  function BucketFor(req: Request, now: int, windowMs: PositiveInt): (b: Bucket)
    ensures b.window * windowMs <= now < (b.window + 1) * windowMs
    ensures GetApiKey(req).Some? ==> b.apiKey == GetApiKey(req).value
    ensures GetApiKey(req).None? ==> b.apiKey == "anon"
    ensures b.bucketId == b.apiKey + ":" + IntToString(b.window)
  {
    var apiKey := match GetApiKey(req) case Some(k) => k case None => "anon";
    var window := now / windowMs;
    WindowBracket(now, windowMs);
    Bucket(apiKey, apiKey + ":" + IntToString(window), window)
  }

  /** `Math.floor(now / windowMs)` numbers the window of length `windowMs` that contains `now`. */
  lemma WindowBracket(now: int, windowMs: PositiveInt)
    ensures (now / windowMs) * windowMs <= now < (now / windowMs + 1) * windowMs
  {
    var q := now / windowMs;
    var r := now % windowMs;
    assert now == q * windowMs + r && 0 <= r < windowMs;
    assert (q + 1) * windowMs == q * windowMs + windowMs;
  }

  /** The number of characters after the last `':'` of `s` (all of them if there is none). */
  function AfterLastColon(s: string): nat
    decreases |s|
  {
    if |s| == 0 || s[|s| - 1] == ':' then 0 else 1 + AfterLastColon(s[..|s| - 1])
  }

  lemma {:induction false} AfterLastColonOf(a: string, w: string)
    requires ':' !in w
    ensures AfterLastColon(a + ":" + w) == |w|
    decreases |w|
  {
    var s := a + ":" + w;
    if |w| > 0 {
      assert s[|s| - 1] == w[|w| - 1];
      assert s[..|s| - 1] == a + ":" + w[..|w| - 1];
      AfterLastColonOf(a, w[..|w| - 1]);
    } else {
      assert s[|s| - 1] == ':';
    }
  }

  /** Splitting at the last colon: strings joined by `":"` with colon-free tails are equal only part by part. */
  lemma ColonTail(a1: string, w1: string, a2: string, w2: string)
    requires ':' !in w1 && ':' !in w2
    requires a1 + ":" + w1 == a2 + ":" + w2
    ensures a1 == a2 && w1 == w2
  {
    var s := a1 + ":" + w1;
    AfterLastColonOf(a1, w1);
    AfterLastColonOf(a2, w2);
    assert w1 == s[|s| - |w1|..];
    assert a1 == s[..|a1|];
  }

  /** Two requests share a bucket exactly when they have the same API key in the same window. */
  lemma BucketsSeparate(r1: Request, t1: int, r2: Request, t2: int, w: PositiveInt)
    ensures BucketFor(r1, t1, w).bucketId == BucketFor(r2, t2, w).bucketId <==>
            BucketFor(r1, t1, w).apiKey == BucketFor(r2, t2, w).apiKey && t1 / w == t2 / w
  {
    var b1 := BucketFor(r1, t1, w);
    var b2 := BucketFor(r2, t2, w);
    if b1.bucketId == b2.bucketId {
      ColonTail(b1.apiKey, IntToString(b1.window), b2.apiKey, IntToString(b2.window));
      IntToStringInjective(b1.window, b2.window);
    }
  }

  /** `increment(key)`: `bumpCounter` on the namespaced key, by `incr` or by get-plus-set. */
  function Increment(hasIncr: bool, m: Store, key: string, now: int): Incremented {
    Bumped(hasIncr, m, Namespace(key), now)
  }

  /** The `auth` and `rate` policies of the service at time `now`. */
  function Policies(o: Options, now: int): Registry<Store> {
    DefineRegistry(map[
      "auth" := Middleware.Auth((req: Request) => GetApiKey(req).Some?),
      "rate" := Middleware.RateLimit(Limit(o), WindowMs(o), (req: Request) => BucketFor(req, now, WindowMs(o)).bucketId,
                  (k: string, m: Store) => var r := Increment(o.hasIncr, m, k, now); Middleware.Counted(r.count, r.store))
    ])
  }

  /** The JSON document `GET /quota` returns; `windowEndsAt` is kept as milliseconds. */
  function StatusBody(o: Options, b: Bucket, count: Value): Value {
    Obj([("adapter", Str(o.adapterLabel)), ("apiKey", Str(b.apiKey)), ("limit", Num(Limit(o))),
         ("windowMs", Num(WindowMs(o))), ("windowEndsAt", Num((b.window + 1) * WindowMs(o))),
         ("requestCount", count)])
  }

  /** The key `GET /quota` reads its count from, as written: `namespace(bucketId)`. */
  function AsWrittenCounterKey(b: Bucket): string {
    Namespace(b.bucketId)
  }

  /** The key the `rate` policy counts under: `namespace("rl:" + bucketId)`. */
  function CounterKey(b: Bucket): string {
    Namespace(RateBucketKey(b.bucketId))
  }

  /** The `GET /quota` handler, reading the count from `counterKey(bucket)` (`?? 0`). */
  function StatusHandler(o: Options, now: int, counterKey: Bucket -> string): Handler<Store> {
    (ctx: Ctx, m: Store) =>
      var b := BucketFor(ctx.req, now, WindowMs(o));
      var g := Get(m, counterKey(b), now);
      Reply(Response(200, StatusBody(o, b, Coalesce(g.value, Num(0)))), g.store)
  }

  function QuotaRoutes(o: Options, now: int, counterKey: Bucket -> string): seq<RouteEntry<Store>> {
    [ RouteEntry("GET", "/quota", StatusHandler(o, now, counterKey)),
      RouteEntry("GET", "/health", (ctx: Ctx, m: Store) => Reply(Text(200, "ok"), m)) ]
  }

  /** `baseHandler`: the quota router applied to the context's own request. */
  function BaseHandler(o: Options, now: int, counterKey: Bucket -> string): Handler<Store> {
    (ctx: Ctx, m: Store) => Route(QuotaRoutes(o, now, counterKey), ctx, ctx.req, m)
  }

  /** The request handler `createQuotaHandler` returns, with the status handler's counter key as a parameter. */
  function Dispatch(o: Options, now: int, counterKey: Bucket -> string, req: Request, m: Store): Reply<Store> {
    var ctx := Ctx(req, req.url, None);
    if req.url.pathname == "/quota" && req.httpMethod == "GET" then
      ComposeNamed(Policies(o, now), ["auth", "rate"], BaseHandler(o, now, counterKey))(ctx, m)
    else if req.url.pathname == "/health" && req.httpMethod == "GET" then
      BaseHandler(o, now, counterKey)(ctx, m)
    else Reply(NotFound, m)
  }

  /** The service as written: `GET /quota` reports the count stored under `namespace(bucketId)`. */
  function ServeAsWritten(o: Options, now: int, req: Request, m: Store): Reply<Store> {
    Dispatch(o, now, AsWrittenCounterKey, req, m)
  }

  /** The service with `GET /quota` reading the counter the `rate` policy maintains. */
  function Serve(o: Options, now: int, req: Request, m: Store): Reply<Store> {
    Dispatch(o, now, CounterKey, req, m)
  }

  predicate IsQuotaRequest(req: Request) {
    req.url.pathname == "/quota" && req.httpMethod == "GET"
  }

  /** `GET /quota` without a valid API key is refused with 401 and counts nothing. */
  lemma QuotaNeedsKey(o: Options, now: int, counterKey: Bucket -> string, req: Request, m: Store)
    requires IsQuotaRequest(req) && GetApiKey(req).None?
    ensures Dispatch(o, now, counterKey, req, m) == Reply(Text(401, "Unauthorized"), m)
  {
    var reg := Policies(o, now);
    ComposeNamedPair(reg, "auth", "rate", BaseHandler(o, now, counterKey));
  }

  /**
   * `GET /quota` with a valid API key bumps the counter `quota:rl:<bucketId>`
   * once; past the limit the answer is 429, otherwise the status handler runs
   * on the counted store.
   */
  lemma QuotaCounts(o: Options, now: int, counterKey: Bucket -> string, req: Request, m: Store)
    requires IsQuotaRequest(req) && GetApiKey(req).Some?
    ensures var b := BucketFor(req, now, WindowMs(o));
            var c := Bumped(o.hasIncr, m, CounterKey(b), now);
            Dispatch(o, now, counterKey, req, m) ==
              if c.count > Limit(o) then Reply(Text(429, "Too Many Requests"), c.store)
              else StatusHandler(o, now, counterKey)(Ctx(req, req.url, None), c.store)
  {
    var reg := Policies(o, now);
    var base := BaseHandler(o, now, counterKey);
    ComposeNamedPair(reg, "auth", "rate", base);
    var ctx := Ctx(req, req.url, None);
    var b := BucketFor(req, now, WindowMs(o));
    var c := Bumped(o.hasIncr, m, CounterKey(b), now);
    assert ctx.(req := req, url := req.url) == ctx;
    if c.count <= Limit(o) {
      assert base(ctx, c.store) == StatusHandler(o, now, counterKey)(ctx, c.store) by {
        RouteFirstMatch(QuotaRoutes(o, now, counterKey), ctx, req, c.store, 0);
      }
    }
  }

  /** `GET /health` answers "ok" whatever the headers, and neither authenticates nor counts. */
  lemma HealthBypassesPolicies(o: Options, now: int, counterKey: Bucket -> string, req: Request, m: Store)
    requires req.url.pathname == "/health" && req.httpMethod == "GET"
    ensures Dispatch(o, now, counterKey, req, m) == Reply(Text(200, "ok"), m)
  {
    var ctx := Ctx(req, req.url, None);
    var routes := QuotaRoutes(o, now, counterKey);
    assert !Matches(routes[0], req.httpMethod, req.url.pathname);
    RouteFirstMatch(routes, ctx, req, m, 1);
  }

  /** Any other method or path is 404, with the store untouched. */
  lemma OtherRequestsNotFound(o: Options, now: int, counterKey: Bucket -> string, req: Request, m: Store)
    requires !IsQuotaRequest(req)
    requires !(req.url.pathname == "/health" && req.httpMethod == "GET")
    ensures Dispatch(o, now, counterKey, req, m) == Reply(NotFound, m)
  {
  }

  /**
   * As written, `GET /quota` reads a key nothing ever writes: the first
   * request of a window is counted as 1, yet it reports a `requestCount` of 0.
   */
  lemma AsWrittenReportsZero(o: Options, now: int, req: Request, m: Store)
    requires IsQuotaRequest(req) && GetApiKey(req).Some? && Limit(o) >= 1
    requires var b := BucketFor(req, now, WindowMs(o));
             CounterKey(b) !in m && AsWrittenCounterKey(b) !in m
    ensures var b := BucketFor(req, now, WindowMs(o));
            var r := ServeAsWritten(o, now, req, m);
            && r.response == Response(200, StatusBody(o, b, Num(0)))
            && CounterKey(b) in r.state && r.state[CounterKey(b)].v == Num(1)
  {
    var b := BucketFor(req, now, WindowMs(o));
    QuotaCounts(o, now, AsWrittenCounterKey, req, m);
    BumpCounts(o.hasIncr, m, CounterKey(b), now);
    var c := Bumped(o.hasIncr, m, CounterKey(b), now);
    assert c.count == 1;
    assert |CounterKey(b)| != |AsWrittenCounterKey(b)|;
    assert Get(c.store, AsWrittenCounterKey(b), now) == Got(Null, c.store);
    var ctx := Ctx(req, req.url, None);
    assert Coalesce(Null, Num(0)) == Num(0);
    assert StatusHandler(o, now, AsWrittenCounterKey)(ctx, c.store) == Reply(Response(200, StatusBody(o, b, Num(0))), c.store);
  }

  /** Reading the rate counter, a `GET /quota` within the limit reports the count that includes itself. */
  lemma ServeReportsCount(o: Options, now: int, req: Request, m: Store)
    requires IsQuotaRequest(req) && GetApiKey(req).Some?
    ensures var b := BucketFor(req, now, WindowMs(o));
            var c := Bumped(o.hasIncr, m, CounterKey(b), now);
            Serve(o, now, req, m) ==
              if c.count > Limit(o) then Reply(Text(429, "Too Many Requests"), c.store)
              else Reply(Response(200, StatusBody(o, b, Num(c.count))), c.store)
  {
    var b := BucketFor(req, now, WindowMs(o));
    QuotaCounts(o, now, CounterKey, req, m);
    BumpCounts(o.hasIncr, m, CounterKey(b), now);
    var c := Bumped(o.hasIncr, m, CounterKey(b), now);
    assert Purge(c.store, CounterKey(b), now) == c.store;
    assert Get(c.store, CounterKey(b), now) == Got(Num(c.count), c.store);
    var ctx := Ctx(req, req.url, None);
    assert Coalesce(Num(c.count), Num(0)) == Num(c.count);
    assert StatusHandler(o, now, CounterKey)(ctx, c.store) == Reply(Response(200, StatusBody(o, b, Num(c.count))), c.store);
  }

  /** The statuses of a run of the same request at the given times, each seeing the store the previous one left. */
  function Statuses(o: Options, counterKey: Bucket -> string, req: Request, times: seq<int>, m: Store): (r: seq<int>)
    ensures |r| == |times|
    decreases |times|
  {
    if |times| == 0 then []
    else
      var rep := Dispatch(o, times[0], counterKey, req, m);
      [rep.response.status] + Statuses(o, counterKey, req, times[1..], rep.state)
  }

  /** The rate counter of the caller of `req` for window number `win`. */
  function WindowCounter(req: Request, win: int): string
    requires GetApiKey(req).Some?
  {
    var k := GetApiKey(req).value;
    CounterKey(Bucket(k, k + ":" + IntToString(win), win))
  }

  /** One counted `GET /quota` in window `win` takes the window's counter from `c` to `c + 1`, passing while within the limit. */
  lemma {:induction false} QuotaStep(o: Options, counterKey: Bucket -> string, req: Request, now: int, m: Store, c: int)
    requires IsQuotaRequest(req) && GetApiKey(req).Some?
    requires HoldsCount(m, WindowCounter(req, now / WindowMs(o)), c)
    ensures var rep := Dispatch(o, now, counterKey, req, m);
            && rep.response.status == (if c + 1 > Limit(o) then 429 else 200)
            && HoldsCount(rep.state, WindowCounter(req, now / WindowMs(o)), c + 1)
  {
    var b := BucketFor(req, now, WindowMs(o));
    var ck := CounterKey(b);
    assert ck == WindowCounter(req, now / WindowMs(o));
    QuotaCounts(o, now, counterKey, req, m);
    BumpCounts(o.hasIncr, m, ck, now);
    var cnt := Bumped(o.hasIncr, m, ck, now);
    assert cnt.count == c + 1;
    if cnt.count <= Limit(o) {
      var g := Get(cnt.store, counterKey(b), now);
      assert StatusHandler(o, now, counterKey)(Ctx(req, req.url, None), cnt.store).state == g.store;
      assert HoldsCount(g.store, ck, c + 1);
    }
  }

  /**
   * A burst of counted `GET /quota` requests from one caller within one window,
   * starting from a counter at `c`: request `i` passes exactly while
   * `c + i + 1` is within the limit, and is refused with 429 from then on.
   * This holds whichever key the status handler reads.
   */
  lemma {:induction false} BurstWithinWindow(o: Options, counterKey: Bucket -> string, req: Request,
                                             times: seq<int>, win: int, m: Store, c: int)
    requires IsQuotaRequest(req) && GetApiKey(req).Some?
    requires forall i :: 0 <= i < |times| ==> times[i] / WindowMs(o) == win
    requires HoldsCount(m, WindowCounter(req, win), c)
    ensures forall i :: 0 <= i < |times| ==>
              Statuses(o, counterKey, req, times, m)[i] == if c + i + 1 > Limit(o) then 429 else 200
    decreases |times|
  {
    if |times| > 0 {
      var rep := Dispatch(o, times[0], counterKey, req, m);
      QuotaStep(o, counterKey, req, times[0], m, c);
      BurstWithinWindow(o, counterKey, req, times[1..], win, rep.state, c + 1);
    }
  }

  /** From a fresh window, the first `limit` requests pass and every later one in the window gets 429. */
  lemma FreshWindowAllowsLimit(o: Options, req: Request, times: seq<int>, win: int, m: Store)
    requires IsQuotaRequest(req) && GetApiKey(req).Some?
    requires forall i :: 0 <= i < |times| ==> times[i] / WindowMs(o) == win
    requires WindowCounter(req, win) !in m
    ensures forall i :: 0 <= i < |times| ==> Statuses(o, CounterKey, req, times, m)[i] == if i < Limit(o) then 200 else 429
  {
    BurstWithinWindow(o, CounterKey, req, times, win, m, 0);
  }
}
