/** The `requireRole` and `idempotency` middleware (`packages/web/src/extras.ts`). */
module Extras {
  import opened JsValue
  import opened Router

  /** `ctx.state?.user?.roles` is present and includes `role`. */
  predicate HasRole(state: Option<AppState>, role: string) {
    state.Some? && state.value.user.Some? && state.value.user.value.roles.Some?
    && role in state.value.user.value.roles.value
  }

  /** `requireRole(role)`: 403 unless the context's user has `role`. */
  function RequireRole<S>(role: string): Middleware<S> {
    (next: Handler<S>) => (ctx: Ctx, s: S) => if HasRole(ctx.state, role) then next(ctx, s) else Reply(Text(403, "Forbidden"), s)
  }

  /** What a `hasSeen` callback gives back: the answer and the state after the lookup. */
  datatype Seen<S> = Seen(seen: bool, state: S)

  const DefaultIdempotencyTtlMs := 60_000

  /**
   * `idempotency(getKey, hasSeen, remember, ttlMs = 60000)`: without a key
   * (`null` or `""`) the request passes untouched; a key already seen gets
   * 409 "Duplicate"; a new key is remembered for `ttlMs` before `next` runs.
   */
  function Idempotency<S>(getKey: Request -> Option<string>, hasSeen: (string, S) -> Seen<S>,
                          remember: (string, int, S) -> S,
                          ttlMs: int := DefaultIdempotencyTtlMs): Middleware<S> {
    (next: Handler<S>) => (ctx: Ctx, s: S) =>
      var k := getKey(ctx.req);
      if k.None? || k.value == "" then next(ctx, s)
      else
        var q := hasSeen(k.value, s);
        if q.seen then Reply(Text(409, "Duplicate"), q.state)
        else next(ctx, remember(k.value, ttlMs, q.state))
  }

  /** `requireRole` calls `next` exactly when the role is present, and answers 403 otherwise. */
  lemma RequireRoleDecides<S>(role: string, next: Handler<S>, ctx: Ctx, s: S)
    ensures HasRole(ctx.state, role) ==> RequireRole(role)(next)(ctx, s) == next(ctx, s)
    ensures !HasRole(ctx.state, role) ==> RequireRole(role)(next)(ctx, s) == Reply(Text(403, "Forbidden"), s)
  {
  }

  /**
   * The three paths of `idempotency`: no key leaves the store alone and calls
   * `next`; a seen key answers 409 without remembering or calling `next`; a
   * new key is remembered with `ttlMs`, and only then does `next` run.
   */
  lemma IdempotencyDecides<S>(getKey: Request -> Option<string>, hasSeen: (string, S) -> Seen<S>,
                              remember: (string, int, S) -> S, ttlMs: int, next: Handler<S>, ctx: Ctx, s: S)
    ensures var k := getKey(ctx.req);
            (k.None? || k.value == "") ==> Idempotency(getKey, hasSeen, remember, ttlMs)(next)(ctx, s) == next(ctx, s)
    ensures var k := getKey(ctx.req);
            k.Some? && k.value != "" && hasSeen(k.value, s).seen ==>
              Idempotency(getKey, hasSeen, remember, ttlMs)(next)(ctx, s) == Reply(Text(409, "Duplicate"), hasSeen(k.value, s).state)
    ensures var k := getKey(ctx.req);
            k.Some? && k.value != "" && !hasSeen(k.value, s).seen ==>
              Idempotency(getKey, hasSeen, remember, ttlMs)(next)(ctx, s) == next(ctx, remember(k.value, ttlMs, hasSeen(k.value, s).state))
  {
  }

  /** When `ttlMs` is not given, a key is remembered for one minute. */
  lemma IdempotencyDefaultTtl<S>(getKey: Request -> Option<string>, hasSeen: (string, S) -> Seen<S>,
                                 remember: (string, int, S) -> S)
    ensures Idempotency(getKey, hasSeen, remember) == Idempotency(getKey, hasSeen, remember, 60_000)
  {
  }
}
