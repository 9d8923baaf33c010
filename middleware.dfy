/** The `auth` and `rateLimit` middleware (`packages/web/src/middleware.ts`). */
module Middleware {
  import opened JsValue
  import opened Router
  import Keys

  /** `auth(verify)`: passes the request on if `verify` accepts it, else answers 401 without calling `next`. */
  function Auth<S>(verify: Request -> bool): Middleware<S> {
    (next: Handler<S>) => (ctx: Ctx, s: S) => if verify(ctx.req) then next(ctx, s) else Reply(Text(401, "Unauthorized"), s)
  }

  /** What an `incr` callback gives back: the new count and the state after counting. */
  datatype Counted<S> = Counted(count: int, state: S)

  /**
   * `rateLimit(limit, windowMs, bucket, incr)`: counts the request under
   * `"rl:" + bucket(req)` (rejected requests count too) and answers 429 when
   * the new count exceeds `limit`. `windowMs` is accepted but not used: any
   * window must be built into `bucket` or into the store's expiry.
   */
  function RateLimit<S>(limit: int, windowMs: int, bucket: Request -> string,
                        incr: (string, S) -> Counted<S>): Middleware<S> {
    (next: Handler<S>) => (ctx: Ctx, s: S) =>
      var c := incr("rl:" + bucket(ctx.req), s);
      if c.count > limit then Reply(Text(429, "Too Many Requests"), c.state) else next(ctx, c.state)
  }

  /** `auth` calls `next` on the unchanged state exactly when `verify` holds, and otherwise answers 401 with the state untouched. */
  lemma AuthDecides<S>(verify: Request -> bool, next: Handler<S>, ctx: Ctx, s: S)
    ensures verify(ctx.req) ==> Auth(verify)(next)(ctx, s) == next(ctx, s)
    ensures !verify(ctx.req) ==> Auth(verify)(next)(ctx, s) == Reply(Text(401, "Unauthorized"), s)
  {
  }

  /**
   * A rejecting `auth` at the head of a chain answers for the whole chain:
   * neither the middleware behind it nor the handler runs, and no state changes.
   */
  lemma AuthShortCircuits<S>(verify: Request -> bool, rest: seq<Middleware<S>>, h: Handler<S>, ctx: Ctx, s: S)
    requires !verify(ctx.req)
    ensures Compose([Auth(verify)] + rest, h)(ctx, s) == Reply(Text(401, "Unauthorized"), s)
  {
    assert ([Auth(verify)] + rest)[0] == Auth(verify);
  }

  /**
   * `rateLimit` increments exactly once, under the rate-bucket key of the
   * request, and then answers 429 if the count exceeds the limit, or passes
   * the request on with the counted state.
   */
  lemma RateLimitDecides<S>(limit: int, windowMs: int, bucket: Request -> string,
                            incr: (string, S) -> Counted<S>, next: Handler<S>, ctx: Ctx, s: S)
    ensures var c := incr(Keys.RateBucketKey(bucket(ctx.req)), s);
            RateLimit(limit, windowMs, bucket, incr)(next)(ctx, s) ==
              if c.count > limit then Reply(Text(429, "Too Many Requests"), c.state) else next(ctx, c.state)
  {
  }
}
