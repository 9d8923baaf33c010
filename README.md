# lfwt core in Dafny

A Dafny model of the functional core of *lfwt*, a small TypeScript teaching
collection built on "functional core, imperative shell". The model covers:

- **The in-memory key-value store**, `MemoryKV`, with lazy expiry. An entry is
  purged only when it is read and its expiry is strictly in the past; `incr`
  drops any time-to-live.
- **The services over that store.** `timeNow` reads the injected clock;
  `bumpCounter` uses the store's `incr` or falls back to get-plus-set.
- **The `withCache` and `withRetry` decorators.** The wrapped function is a
  scripted sequence of outcomes, so the proofs can count its invocations.
- **The web toolkit:**
  - `compose` and the first-match `router`;
  - the named middleware registry with `composeNamed`;
  - the guards `auth`, `rateLimit`, `requireRole` and `idempotency`;
  - the validated header readers;
  - the HAL-FORMS document builder.
- **The pure helpers:**
  - the loading-state `reducer`;
  - the validating constructors of the branded primitives;
  - the key builders, second/millisecond conversion and `pipe`.
- **Three example applications:**
  - the distributed-quotas service: fixed-window buckets, the counter and the
    request dispatch;
  - the HAL-FORMS taskboard: roles parsing, title validation, the table of tasks
    and the per-route policy chains;
  - the branded onboarding flow: `UserIdFrom` and the register/lookup round
    trip.

How the model is built:

- **Values.** A JavaScript value is the `JsValue.Value` datatype, which has
  no `undefined` (see "## Left out"). Numbers are integers. An object lists its fields in JavaScript's own-key order
  (section 10.1.11.1 of ECMA-262, OrdinaryOwnPropertyKeys): keys that are
  array indices (`"0"`, `"1"`, …, below 2^32 - 1, in canonical decimal form)
  come first in ascending numeric order, and every other key follows in the
  order it was first assigned. Assignment and spread keep that order, so
  spreads and JSON documents can be stated exactly. A thrown `Error` is an
  `Err` result carrying the same message.
- **String lengths.** `s.length` counts UTF-16 code units. A Dafny `char` is
  a Unicode scalar value, so a character outside the Basic Multilingual Plane
  counts twice (`JsString.Utf16Length`).
- **Store and clock.** The key-value store is a `map<string, Entry>`.
  `KvStore` gives the meaning of each store operation as a function of the
  map and of the clock reading `now`. The class `MemoryKv.MemoryKV` holds the
  map as a field and updates it in place, and each of its methods is proved
  to do what the matching function says. Code that awaits the store in
  sequence (`withCache`, `bumpCounter`, onboarding) is a method on that class
  plus a specification function.
- **Handlers and middleware.** A handler is a function from a context and a
  state to a response and the new state. Middleware maps handlers to
  handlers. The state of the quota service is the store; the state of the
  taskboard is the store together with its task table.
- **Clock and randomness.** Every operation reads the clock once, as `now`.
  The random UUID of a new task is a parameter.

Two behaviours of the example applications stand out in the proofs:

- **The quota service reads the wrong counter.** `GET /quota` reports the
  count stored under `quota:<bucket>`, but the rate policy counts under
  `quota:rl:<bucket>`. So the reported count is 0 unless the API key itself
  starts with `rl:` (see Findings).
- **The taskboard's rate limit has no window.** It counts `GET /tasks` under
  `rl:rl:<api key>`, with a counter that never expires, so once a key has
  made 30 requests it is refused for good. The 60-second window passed to
  `rateLimit` is not used by `rateLimit` itself, which its own comment
  acknowledges (`Taskboard.ListLimitNeverResets`,
  `Taskboard.NewCallerGetsThirtyLists`). A failed task creation still uses
  up its idempotency key for a minute (`Taskboard.RepeatWithinTtlRefused`).

## Model

| member | source | states |
|---|---|---|
| JsValue.Coalesce | examples/type-safe-onboarding/branded/onboarding.ts:19 | `v ?? d` is `v` unless `v` is `null`, and `d` then |
| JsValue.FieldGet | packages/web/src/hal_forms.ts:36-40 | a property lookup is absent exactly when no field has the key, and otherwise returns the value of a field with that key |
| JsValue.FieldSet | packages/web/src/hal_forms.ts:39 | an assignment makes the key read as the new value and leaves every other key as it was; an existing key keeps its place, and a new key that is not an array index moves no existing key |
| JsValue.IndexKeyInjective | packages/web/src/hal_forms.ts:39 | two different array-index keys have different numeric values, so their order is strict |
| JsValue.FieldGetAppend | packages/web/src/hal_forms.ts:39 | a field added at the end is found only when no earlier field has its key |
| JsValue.Replace | packages/web/src/hal_forms.ts:39 | assigning an existing key changes its value only: every key stays where it was |
| JsValue.InsertIndex | packages/web/src/hal_forms.ts:39 | a new array-index key adds exactly one field, reads as its value and leaves every other key as it was |
| JsValue.FieldSetKeepsOrder | packages/web/src/hal_forms.ts:39 | an assignment keeps the own-key order: array-index keys first, ascending |
| JsValue.InsertIndexOrdered | packages/web/src/hal_forms.ts:39 | a new array-index key lands after the smaller array indices and before every other key |
| JsValue.OrderedLayout | packages/web/src/hal_forms.ts:36-40 | an object in own-key order is its array-index fields, ascending, followed by its other fields |
| JsValue.NamedFieldSet | packages/web/src/hal_forms.ts:39 | on the keys that are not array indices, an assignment is insertion-ordered: such a key is replaced in place or appended, and an array-index key leaves them alone |
| JsValue.NamedConcat | packages/web/src/hal_forms.ts:36-40 | the non-index fields of a concatenation are those of each part, in order |
| JsValue.NamedFieldGet | packages/web/src/hal_forms.ts:36-40 | a key that is not an array index reads the same among the non-index fields as in the whole object |
| JsValue.Spread | packages/web/src/hal_forms.ts:39 | `{ ...target, ...source }` as assignments in order; `JsValue.SpreadGet`, `JsValue.SpreadNamed` and `JsValue.SpreadKeepsOrder` state its meaning |
| JsValue.SpreadGet | packages/web/src/hal_forms.ts:39 | after `{ ...target, ...source }` a key of `source` reads as in `source` and any other key reads as in `target` |
| JsValue.SpreadKeepsOrder | packages/web/src/hal_forms.ts:39 | a spread keeps the own-key order of its target |
| JsValue.SpreadNamed | packages/web/src/hal_forms.ts:39 | restricted to keys that are not array indices, `{ ...target, ...source }` is the insertion-ordered spread of those keys |
| JsValue.PlainSpreadKeepsPrefix | packages/web/src/hal_forms.ts:39 | spreading a source without array-index keys moves no key of the target |
| JsValue.SpreadKeepsPrefix | packages/web/src/hal_forms.ts:36-40 | a spread never moves the target's keys that are not array indices: they stay first among such keys, in their order |
| JsString.Utf16Length | packages/core/src/types/constructors.ts:21 | a string's `length` in UTF-16 code units is between its number of characters and twice that |
| JsString.Utf16LengthAppend | packages/core/src/types/constructors.ts:21 | the `length` of a concatenation is the sum of the lengths |
| JsString.Utf16LengthBmp | packages/core/src/types/constructors.ts:21 | for characters of the Basic Multilingual Plane `length` is the number of characters |
| JsString.TrimStart | packages/core/src/types/constructors.ts:11 | the result is the suffix of `s` after its leading white space, and does not start with white space |
| JsString.TrimEnd | packages/core/src/types/constructors.ts:11 | the result is the prefix of `s` before its trailing white space, and does not end with white space |
| JsString.TrimShape | packages/core/src/types/constructors.ts:11 | `trim()` cuts `s` into white space, a middle part and white space, and the middle part has no white space at either end |
| JsString.Trim | packages/core/src/types/constructors.ts:11 | `s.trim()`; `JsString.TrimShape`, `JsString.TrimBounds` and `JsString.TrimIdempotent` state its meaning |
| JsString.TrimBounds | packages/core/src/types/constructors.ts:11 | `trim()` returns `s[i..j]` for bounds with only white space before `i` and after `j` |
| JsString.TrimEmptyIffAllSpace | packages/core/src/types/constructors.ts:11 | `s.trim() === ""` exactly when every character of `s` is white space |
| JsString.TrimIdempotent | examples/type-safe-onboarding/branded/onboarding.ts:23 | trimming twice is trimming once |
| JsString.TrimNoSpaceEnds | examples/type-safe-onboarding/branded/onboarding.ts:23 | a string with no white space at either end is its own trim |
| JsString.TrimStartSkipsSpace | examples/type-safe-onboarding/branded/onboarding.ts:23 | leading white space added to a string does not change its left trim |
| JsString.TrimEndSkipsSpace | examples/type-safe-onboarding/branded/onboarding.ts:23 | trailing white space added to a string does not change its right trim |
| JsString.TrimStartAppend | examples/type-safe-onboarding/branded/onboarding.ts:23 | the left trim of a string that is not all white space is unaffected by what follows it |
| JsString.TrimIgnoresPadding | examples/type-safe-onboarding/branded/onboarding.ts:23 | padding a string with white space on both sides does not change its trim |
| JsString.IndexOf | examples/hal-forms-taskboard/main.ts:46 | the result is the index of the first occurrence of the character, or the length when it is absent |
| JsString.Split | examples/hal-forms-taskboard/main.ts:46 | `split(c)` yields at least one piece, and no piece contains the separator |
| JsString.JoinSplit | examples/hal-forms-taskboard/main.ts:46 | joining the pieces of a split with the same separator gives the string back |
| JsString.SplitJoin | packages/core/src/keys.ts:2 | splitting a join of separator-free pieces gives the pieces back |
| JsString.IndexOfAbsent | examples/hal-forms-taskboard/main.ts:46 | a character that does not occur is found at the end |
| JsString.IndexOfPrefix | examples/hal-forms-taskboard/main.ts:46 | the separator after a separator-free prefix is found right after that prefix |
| JsString.NatToString | examples/distributed-quotas/common.ts:27 | the decimal rendering of a natural number is a non-empty string of digits |
| JsString.IntToString | examples/distributed-quotas/common.ts:27 | the rendering of an integer is non-empty and made of digits and `-` |
| JsString.DigitValue | examples/distributed-quotas/common.ts:27 | each digit character stands for its value |
| JsString.ParseNatToString | examples/distributed-quotas/common.ts:27 | reading a rendered natural number back gives the number |
| JsString.NatToStringInjective | examples/distributed-quotas/common.ts:27 | distinct natural numbers render differently |
| JsString.SignChar | examples/distributed-quotas/common.ts:27 | a rendering starts with `-` exactly for negative numbers |
| JsString.IntToStringInjective | examples/distributed-quotas/common.ts:27 | distinct integers render differently, so window numbers in bucket ids never collide |
| Time.ToMs | packages/core/src/time.ts:2 | seconds to milliseconds; `Time.SecondsRoundTrip` states that `toSec` undoes it |
| Time.ToSec | packages/core/src/time.ts:3 | milliseconds to whole seconds, rounding down; `Time.MillisecondsBracket` and `Time.ToSecMonotonic` state its meaning |
| Time.SecondsRoundTrip | packages/core/src/time.ts:2-3 | `toSec(toMs(s)) == s` |
| Time.MillisecondsBracket | packages/core/src/time.ts:2-3 | `toMs(toSec(m)) <= m < toMs(toSec(m)) + 1000`, negative `m` included |
| Time.ToSecMonotonic | packages/core/src/time.ts:3 | `toSec` never decreases as its argument grows |
| Keys.CacheKey | packages/core/src/keys.ts:2 | joins the parts with `:`; its meaning is given by `Keys.CacheKeyShortLists` and `Keys.CacheKeyRecoversParts` |
| Keys.RateBucketKey | packages/core/src/keys.ts:3 | `rl:` before the API key; `Keys.RateBucketKeyInjective` states that it separates keys |
| Keys.KvKey | packages/core/src/keys.ts:4 | `ns:id`; `Keys.KvKeyIsCacheKey` states it is the two-part cache key |
| Keys.CacheKeyShortLists | packages/core/src/keys.ts:2 | `cacheKey()` is `""` and `cacheKey(p)` is `p` |
| Keys.KvKeyIsCacheKey | packages/core/src/keys.ts:2-4 | `kvKey(ns, id) == cacheKey(ns, id)` |
| Keys.CacheKeyRecoversParts | packages/core/src/keys.ts:2 | colon-free parts can be read back from their cache key, so distinct part lists give distinct keys |
| Keys.RateBucketKeyInjective | packages/core/src/keys.ts:3 | distinct API keys get distinct rate buckets |
| Pipe.Pipe | packages/core/src/lib/pipe.ts:1 | applies the functions left to right; `Pipe.PipeSmall` and `Pipe.PipeAppend` state it |
| Pipe.PipeSmall | packages/core/src/lib/pipe.ts:1 | `pipe(a) == a`, `pipe(a, f) == f(a)` and `pipe(a, f, g) == g(f(a))` |
| Pipe.PipeAppend | packages/core/src/lib/pipe.ts:1 | piping through `fs ++ gs` pipes through `fs`, then through `gs` |
| DomainState.Reducer | packages/core/src/domain/state.ts:3-12 | each transition: `Idle` moves only on `Load`; `Loading` goes to `Success`/`Error` with the event's data or reason, and stays on `Load`; final states stay |
| DomainState.Run | packages/core/src/domain/state.ts:3-12 | the reducer applied to a sequence of events in order; `DomainState.FinalStatesAbsorb`, `DomainState.PhaseNeverDecreases` and `DomainState.IdleUntilLoad` state what it reaches |
| DomainState.FinalStatesAbsorb | packages/core/src/domain/state.ts:10 | `Success` and `Error` are left unchanged by any sequence of events |
| DomainState.PhaseNeverDecreases | packages/core/src/domain/state.ts:3-12 | no event sequence moves the machine back from final to loading or from loading to idle |
| DomainState.IdleUntilLoad | packages/core/src/domain/state.ts:5 | from `Idle` the machine stays idle exactly as long as no `Load` arrives |
| DomainState.ErrorOnlyThroughLoading | packages/core/src/domain/state.ts:4-11 | `Error(reason)` is reached from idle or loading only by a `Fail(reason)` that arrives while `Loading` |
| Constructors.HasInnerDotIff | packages/core/src/types/constructors.ts:3 | the recursive dot check holds exactly when a `.` has a character on each side |
| Constructors.IsEmailToPattern | packages/core/src/types/constructors.ts:3 | every string the scan accepts matches the e-mail pattern |
| Constructors.PatternToIsEmail | packages/core/src/types/constructors.ts:3 | every split of a string that matches the pattern makes the scan accept it |
| Constructors.IsEmail | packages/core/src/types/constructors.ts:3 | the e-mail test; `Constructors.IsEmailMatchesPattern` states it accepts exactly what the regular expression matches |
| Constructors.IsEmailMatchesPattern | packages/core/src/types/constructors.ts:3 | the scan accepts exactly the strings `/^[^\s@]+@[^\s@]+\.[^\s@]+$/` matches |
| Constructors.EmailFrom | packages/core/src/types/constructors.ts:5-8 | succeeds iff the pattern matches, returns the input unchanged, else throws "Invalid Email" |
| Constructors.NonEmptyFrom | packages/core/src/types/constructors.ts:10-13 | succeeds iff some character is not white space, returns the input untrimmed, else throws "Empty string" |
| Constructors.PositiveIntFrom | packages/core/src/types/constructors.ts:15-18 | succeeds iff `n > 0`, returns `n`, else throws "Not positive int" |
| Constructors.ApiKeyFrom | packages/core/src/types/constructors.ts:20-23 | succeeds iff the `length` in UTF-16 code units is at least 3, returns the input, else throws "Invalid API key" |
| Constructors.IdempotencyKeyFrom | packages/core/src/types/constructors.ts:25-28 | succeeds iff the `length` in UTF-16 code units is at least 8, returns the input, else throws "Invalid idempotency key" |
| Constructors.KeyLengthsInCodeUnits | packages/core/src/types/constructors.ts:20-28 | two astral characters make a valid API key and four a valid idempotency key, while `"ab"` is refused |
| Constructors.BrandExamples | apps/tests/brands_test.ts:4-14 | `ApiKeyFrom("")` and `PositiveIntFrom(0)` throw; `"abc123456"` and `5` are accepted unchanged |
| TypedHeaders.GetApiKey | packages/web/src/typed_headers.ts:3 | a key is returned iff `x-api-key` is present with a `length` of at least 3 UTF-16 code units, and it is the raw header; never throws |
| TypedHeaders.GetIdemKey | packages/web/src/typed_headers.ts:4 | a key is returned iff `idempotency-key` is present with a `length` of at least 8 UTF-16 code units, and it is the raw header; never throws |
| Router.Compose | packages/web/src/router.ts:4-5 | wraps the handler in the middleware, first outermost; `Router.ComposeSmall` and `Router.ComposeAppend` state it |
| Router.ComposeSmall | packages/web/src/router.ts:4-5 | `compose()(h) == h`, `compose(m1)(h) == m1(h)`, `compose(m1, m2)(h) == m1(m2(h))` |
| Router.ComposeAppend | packages/web/src/router.ts:4-5 | composing `xs ++ ys` wraps the composition of `ys` in that of `xs` |
| Router.FindRoute | packages/web/src/router.ts:10 | the index found is the first entry whose method and path equal the request's, and none is found iff no entry matches |
| Router.Route | packages/web/src/router.ts:7-12 | the router; `Router.RouteFirstMatch` and `Router.RouteNoMatch` state what it answers |
| Router.RouteFirstMatch | packages/web/src/router.ts:10-12 | the earliest matching entry answers, called with the context extended by the request and its URL |
| Router.RouteNoMatch | packages/web/src/router.ts:11 | with no matching entry the answer is 404 "Not Found" and the state is untouched |
| MwRegistry.DefineRegistry | packages/web/src/mw_registry.ts:7 | `defineRegistry()(defs)` is `defs` |
| MwRegistry.Resolve | packages/web/src/mw_registry.ts:10 | the chain is no longer than the names, and is empty when no name is registered |
| MwRegistry.ResolveSingle | packages/web/src/mw_registry.ts:10 | one name resolves to its middleware when registered and to nothing otherwise |
| MwRegistry.ResolveFromKnown | packages/web/src/mw_registry.ts:10 | every middleware in the chain is the registry's entry for one of the names |
| MwRegistry.ComposeNamedSingle | packages/web/src/mw_registry.ts:9-12 | `composeNamed(reg, [n])(h)` is `reg[n](h)` when `n` is registered and `h` otherwise |
| MwRegistry.ResolveAppend | packages/web/src/mw_registry.ts:10 | resolving `xs ++ ys` resolves `xs` then `ys` |
| MwRegistry.ComposeNamed | packages/web/src/mw_registry.ts:9-12 | composes the registered middleware of the names; `MwRegistry.ComposeNamedSingle`, `MwRegistry.ComposeNamedAppend` and `MwRegistry.ComposeNamedSkipsUnknown` state it |
| MwRegistry.ComposeNamedAppend | packages/web/src/mw_registry.ts:9-12 | `composeNamed(reg, xs ++ ys)(h) == composeNamed(reg, xs)(composeNamed(reg, ys)(h))` |
| MwRegistry.ComposeNamedPair | packages/web/src/mw_registry.ts:9-12 | `composeNamed(reg, [a, b])(h) == reg[a](reg[b](h))`: the first name is outermost |
| MwRegistry.ComposeNamedUnknown | packages/web/src/mw_registry.ts:10-11 | a list of unknown names, the empty list included, yields `h` |
| MwRegistry.ComposeNamedSkipsUnknown | packages/web/src/mw_registry.ts:10 | an unknown name in the middle of a list is dropped |
| Middleware.Auth | packages/web/src/middleware.ts:3-4 | the `auth` guard; `Middleware.AuthDecides` states what it does |
| Middleware.RateLimit | packages/web/src/middleware.ts:6-13 | the `rateLimit` guard; `Middleware.RateLimitDecides` states what it does |
| Middleware.AuthDecides | packages/web/src/middleware.ts:3-4 | `auth` calls `next` on the unchanged state iff `verify` holds, and otherwise answers 401 |
| Middleware.AuthShortCircuits | packages/web/src/middleware.ts:3-4 | a rejecting `auth` at the head of a chain answers 401 for the whole chain |
| Middleware.RateLimitDecides | packages/web/src/middleware.ts:6-13 | `rateLimit` counts once under `"rl:" + bucket(req)`, then answers 429 iff the count exceeds the limit, else calls `next` on the counted state |
| Extras.RequireRole | packages/web/src/extras.ts:2-4 | the `requireRole` guard; `Extras.RequireRoleDecides` states what it does |
| Extras.Idempotency | packages/web/src/extras.ts:5-6 | the `idempotency` guard; `Extras.IdempotencyDecides` states what it does |
| Extras.RequireRoleDecides | packages/web/src/extras.ts:2-4 | `requireRole` calls `next` iff the user's roles include the role, else answers 403 |
| Extras.IdempotencyDecides | packages/web/src/extras.ts:5-6 | no key: `next` runs with nothing looked up; seen key: 409 without remembering or calling `next`; new key: remembered with `ttlMs`, then `next` |
| Extras.IdempotencyDefaultTtl | packages/web/src/extras.ts:5 | the default time-to-live is 60000 ms |
| KvStore.Purge | packages/core/src/adapters/memory_kv.ts:5-8 | the key stays exactly when it is live (no expiry, a falsy expiry, or one not strictly past), other keys are untouched |
| KvStore.Get | packages/core/src/adapters/memory_kv.ts:10 | returns the live value or `null`, leaves the purged store, and leaves a store without the key as it was |
| KvStore.Set | packages/core/src/adapters/memory_kv.ts:11 | stores the value with expiry `now + ttlMs` iff `ttlMs` is truthy, leaving other keys alone |
| KvStore.Delete | packages/core/src/adapters/memory_kv.ts:12 | removes the key and nothing else |
| KvStore.Incr | packages/core/src/adapters/memory_kv.ts:13 | returns the live count plus one (1 when absent or expired) and stores it without expiry, other keys untouched |
| KvStore.SetWithoutTtlPersists | packages/core/src/adapters/memory_kv.ts:10-11 | a value set with a falsy `ttlMs` is read back at any later time |
| KvStore.SetThenGetWithinTtl | packages/core/src/adapters/memory_kv.ts:10-11 | a value set at `t0` is read back at any `t1 <= t0 + ttl`, the expiry instant included |
| KvStore.GetAfterExpiry | packages/core/src/adapters/memory_kv.ts:5-10 | past a non-zero expiry `get` answers `null` and removes that key only |
| KvStore.GetAfterDelete | packages/core/src/adapters/memory_kv.ts:10-12 | after `delete(k)`, `get(k)` answers `null` |
| KvStore.IncrDropsTtl | packages/core/src/adapters/memory_kv.ts:13 | the counter `incr` writes is live at every later time |
| KvStore.IncrTwice | packages/core/src/adapters/memory_kv.ts:13 | two `incr` calls count up by one each, whatever time passes between them |
| MemoryKv.MemoryKV.constructor | packages/core/src/adapters/memory_kv.ts:2-3 | a new store is empty |
| MemoryKv.MemoryKV.Purge | packages/core/src/adapters/memory_kv.ts:5-8 | the map becomes `KvStore.Purge` of the old map |
| MemoryKv.MemoryKV.Get | packages/core/src/adapters/memory_kv.ts:10 | returns and leaves what `KvStore.Get` gives for the old map |
| MemoryKv.MemoryKV.Set | packages/core/src/adapters/memory_kv.ts:11 | the map becomes `KvStore.Set` of the old map |
| MemoryKv.MemoryKV.Delete | packages/core/src/adapters/memory_kv.ts:12 | the map becomes `KvStore.Delete` of the old map |
| MemoryKv.MemoryKV.Incr | packages/core/src/adapters/memory_kv.ts:13 | returns and leaves what `KvStore.Incr` gives for the old map |
| Services.TimeNow | packages/core/src/services.ts:8 | the thunk returns exactly what the injected clock returns |
| Services.Bumped | packages/core/src/services.ts:16-19 | the count and store of one `bumpCounter` call on either path; `Services.BumpCounts` and `Services.BumpPathsAgree` state them |
| Services.BumpPathsAgree | packages/core/src/services.ts:16-19 | the `incr` path and the get-plus-set path give the same count and the same store |
| Services.BumpCounts | packages/core/src/services.ts:16-19 | `bumpCounter` returns the live count plus one, stores it without expiry, and touches no other key |
| Services.BumpFromCount | packages/core/src/services.ts:16-19 | from a counter holding `c`, one bump returns `c + 1` and leaves the counter holding `c + 1` |
| Services.Bumps | packages/core/src/services.ts:16-19 | a run of bumps returns one count per bump |
| Services.BumpsCountUp | packages/core/src/services.ts:16-19 | from a counter at `c`, successive bumps return `c + 1, c + 2, …` |
| Services.FreshStoreCountsFromOne | apps/tests/services_test.ts:12-16 | on a fresh store the bumps return `1, 2, …`, so two fresh stores both answer 1 |
| Services.BumpCounter | packages/core/src/services.ts:16-19 | the method returns and leaves what the chosen path of `bumpCounter` gives |
| Cache.CacheKey | packages/macrofx/src/cache.ts:4 | `cache:<name or "fn">:<serialised args>`; `Cache.CacheKeySeparatesArgs` states that it separates calls |
| Cache.CacheKeySeparatesArgs | packages/macrofx/src/cache.ts:4 | with an injective serialiser, two calls of one function share a key iff their arguments are equal |
| Cache.CacheCall | packages/macrofx/src/cache.ts:3-12 | a non-null live entry is returned without calling `fn`; otherwise `fn` runs once, a thrown error is passed on with nothing stored, a returned value is stored for `ttlMs`; other keys untouched |
| Cache.RepeatWithinTtlHits | packages/macrofx/src/cache.ts:6-11 | a repeat within the time-to-live returns the first result without running `fn` |
| Cache.ExpiredEntryRecomputes | packages/macrofx/src/cache.ts:6-11 | a repeat after the time-to-live runs `fn` again |
| Cache.NullResultNeverHits | packages/macrofx/src/cache.ts:7-10 | a `null` result is stored but the next call runs `fn` again |
| Cache.ThrowIsNotCached | packages/macrofx/src/cache.ts:8-10 | after a throw the next call runs `fn` again |
| Cache.WithCache | packages/macrofx/src/cache.ts:2-12 | the method's outcome, store and call count are those of `CacheCall` |
| Retry.Attempts | packages/macrofx/src/retry.ts:9-16 | at least one more invocation happens after the ones already made |
| Retry.RetryTrace | packages/macrofx/src/retry.ts:11-18 | `n` invocations take `2n - 1` steps with a truthy delay and `n` without |
| Retry.WithRetry | packages/macrofx/src/retry.ts:7-20 | the loop makes `Attempts` invocations, returns or rethrows the last one's outcome, and sleeps only between invocations and only for a truthy `delayMs` |
| Retry.AttemptsBounded | packages/macrofx/src/retry.ts:15-16 | never more than `retries + 1` invocations |
| Retry.AttemptsReach | packages/macrofx/src/retry.ts:11-17 | retryable failures within the budget lead on to the next invocation |
| Retry.AlwaysFailingExhaustsRetries | packages/macrofx/src/retry.ts:9-16 | a function that always fails retryably is invoked exactly `retries + 1` times |
| Retry.SucceedsOnAttempt | packages/macrofx/src/retry.ts:13 | a first success on invocation `k + 1` stops the loop after `k + 1` invocations |
| Retry.RejectedErrorStops | packages/macrofx/src/retry.ts:16 | an error `shouldRetry` rejects stops the loop after that invocation |
| HalForms.Hal | packages/web/src/hal_forms.ts:36-40 | the document is an object in own-key order whose first two keys that are not array indices are `_links` and `_templates` |
| HalForms.HalBaseNamed | packages/web/src/hal_forms.ts:37-38 | the literal `{ _links, _templates }` has no array-index key |
| HalForms.HalLayout | packages/web/src/hal_forms.ts:36-40 | the document is the array-index keys of `extra`, ascending, then the insertion-ordered spread of the other keys of `extra` over `{ _links, _templates }` |
| HalForms.IndexKeyLeads | packages/web/src/hal_forms.ts:36-40 | an `extra` key `"0"` comes before `_links` and `_templates` |
| HalForms.HalFields | packages/web/src/hal_forms.ts:36-40 | keys of `extra` win; otherwise `_links` is `links`, `_templates` is `templates` or `{}`; no other key exists |
| HalForms.HalWithoutExtra | packages/web/src/hal_forms.ts:38 | without `extra` the document is exactly `{ _links, _templates }` |
| Onboarding.UserIdFrom | examples/type-safe-onboarding/branded/onboarding.ts:22-27 | succeeds iff the trimmed input starts with `user-` and has 6 or more characters, returning the trimmed input; the prefix check comes first |
| Onboarding.RegisterThenGet | examples/type-safe-onboarding/branded/onboarding.ts:12-20 | a registered user is read back as `{ id, email }` at any later time |
| Onboarding.UnregisteredIsNull | examples/type-safe-onboarding/branded/onboarding.ts:18-20 | an unregistered id reads as `null` and changes nothing |
| Onboarding.RegisterKeepsOthers | examples/type-safe-onboarding/branded/onboarding.ts:13 | registering one id leaves the lookup of every other id as it was |
| Onboarding.UserIdIgnoresPadding | examples/type-safe-onboarding/branded/onboarding.ts:23 | white space around an id changes neither acceptance nor the result |
| Onboarding.Onboard | examples/type-safe-onboarding/branded/onboarding.ts:12-16 | the store becomes `RegisterUser` of the old store |
| Onboarding.Lookup | examples/type-safe-onboarding/branded/onboarding.ts:18-20 | returns and leaves what `GetUser` gives for the old store |
| Quotas.BucketFor | examples/distributed-quotas/common.ts:24-28 | the window contains `now`; the API key is the validated header or `"anon"`; the bucket id is key, `:`, window number |
| Quotas.WindowBracket | examples/distributed-quotas/common.ts:27 | `Math.floor(now / windowMs)` numbers the window of length `windowMs` that contains `now` |
| Quotas.AfterLastColonOf | examples/distributed-quotas/common.ts:27 | the part after the last colon of `a + ":" + w` is `w` when `w` has no colon |
| Quotas.ColonTail | examples/distributed-quotas/common.ts:27 | joins with colon-free tails are equal only part by part |
| Quotas.BucketsSeparate | examples/distributed-quotas/common.ts:24-28 | two requests share a bucket iff they have the same API key in the same window |
| Quotas.Increment | examples/distributed-quotas/common.ts:30-40 | the quota counter's `increment`; `Quotas.QuotaStep` states the count it returns and stores |
| Quotas.ServeAsWritten | examples/distributed-quotas/common.ts:47-96 | the service as written; `Quotas.AsWrittenReportsZero` states what it reports |
| Quotas.Serve | examples/distributed-quotas/common.ts:47-96 | the service reading the rate counter; `Quotas.QuotaNeedsKey`, `Quotas.QuotaCounts`, `Quotas.HealthBypassesPolicies`, `Quotas.OtherRequestsNotFound` and `Quotas.ServeReportsCount` state its answers |
| Quotas.QuotaNeedsKey | examples/distributed-quotas/common.ts:87-89 | `GET /quota` without an API key gets 401 and counts nothing |
| Quotas.QuotaCounts | examples/distributed-quotas/common.ts:42-45 | `GET /quota` with a key bumps `quota:rl:<bucket>` once, then answers 429 past the limit or runs the status handler |
| Quotas.HealthBypassesPolicies | examples/distributed-quotas/common.ts:91-93 | `GET /health` answers "ok" with no authentication and no counting |
| Quotas.OtherRequestsNotFound | examples/distributed-quotas/common.ts:95 | any other method or path is 404 with the store untouched |
| Quotas.AsWrittenReportsZero | examples/distributed-quotas/common.ts:53 | as written, the first request of a window is counted as 1 but reported as 0 |
| Quotas.ServeReportsCount | examples/distributed-quotas/common.ts:51-71 | reading the rate counter, a request within the limit reports the count that includes itself |
| Quotas.Statuses | examples/distributed-quotas/common.ts:83-96 | a run of requests gets one status per request |
| Quotas.QuotaStep | examples/distributed-quotas/common.ts:30-44 | one counted request moves the window's counter from `c` to `c + 1` and passes iff `c + 1` is within the limit |
| Quotas.BurstWithinWindow | examples/distributed-quotas/common.ts:42-44 | within one window, request `i` passes iff `c + i + 1` is within the limit |
| Quotas.FreshWindowAllowsLimit | examples/distributed-quotas/common.ts:42-44 | in a fresh window the first `limit` requests pass and the rest get 429 |
| TaskTable.MapSet | examples/hal-forms-taskboard/main.ts:33 | `tasks.set` keeps the table consistent, appends a new id and keeps the place of an existing one |
| TaskTable.Values | examples/hal-forms-taskboard/main.ts:38 | `tasks.values()` lists the tasks in insertion order |
| TaskTable.ListTasks | examples/hal-forms-taskboard/main.ts:37-42 | one `{ id, title, status }` per stored task, in insertion order |
| TaskTable.CreateTask | examples/hal-forms-taskboard/main.ts:30-35 | the new task is `task-<uuid>`, with the title, pending, and is stored under its id |
| TaskTable.CreateThenList | examples/hal-forms-taskboard/main.ts:30-42 | after creating under a fresh id, the list is the old list plus the new task |
| TaskTable.CreateWithUsedId | examples/hal-forms-taskboard/main.ts:30-35 | a repeated id replaces the earlier entry in place and the list keeps its length |
| TaskTable.EnsureTitle | examples/hal-forms-taskboard/main.ts:23-27 | succeeds iff the value is a string with a non-space character, returning it trimmed; else throws "Empty string" |
| TaskTable.TitleChecked | examples/hal-forms-taskboard/main.ts:24 | the trimmed title is empty iff the value is not a string with a non-space character, and otherwise has no white space at either end |
| TaskTable.NonEmptyOnTrimmed | examples/hal-forms-taskboard/main.ts:24-25 | `NonEmptyFrom` of a trimmed string throws "Empty string" exactly when it is empty, and otherwise returns it |
| TaskTable.TrimAll | examples/hal-forms-taskboard/main.ts:47 | each piece is trimmed, in order |
| TaskTable.DropEmpty | examples/hal-forms-taskboard/main.ts:48 | exactly the non-empty strings are kept |
| TaskTable.DropEmptyAppend | examples/hal-forms-taskboard/main.ts:48 | `filter(Boolean)` of a concatenation is the concatenation of the filtered parts, so order is kept |
| TaskTable.DropEmptySingle | examples/hal-forms-taskboard/main.ts:48 | a single string is kept iff it is non-empty |
| TaskTable.DropEmptyCounts | examples/hal-forms-taskboard/main.ts:48 | each non-empty string is kept as many times as it occurs, and `""` never |
| TaskTable.CleanRolesMembers | examples/hal-forms-taskboard/main.ts:45-48 | a role is exactly a non-empty trimmed piece of the header, and is already trimmed |
| TaskTable.ToState | examples/hal-forms-taskboard/main.ts:44-50 | the user is the API key, or `"guest"`, with the parsed roles |
| TaskTable.TrimKeepsOut | examples/hal-forms-taskboard/main.ts:47 | trimming a piece never brings in a character the piece did not contain |
| TaskTable.RolesAreClean | examples/hal-forms-taskboard/main.ts:45-48 | a role never contains a comma, is never empty, and has no surrounding white space |
| TaskBoardState.TaskBoard.constructor | examples/hal-forms-taskboard/main.ts:22 | the map of tasks starts empty |
| TaskBoardState.TaskBoard.CreateTask | examples/hal-forms-taskboard/main.ts:30-35 | the fields become the table `TaskTable.CreateTask` gives, and the new task it gives is returned |
| TaskBoardState.TaskBoard.ListTasks | examples/hal-forms-taskboard/main.ts:37-42 | the loop returns `TaskTable.ListTasks` of the current table |
| Taskboard.BaseRouting | examples/hal-forms-taskboard/main.ts:55-185 | the base router answers each of its five routes with that route's handler and anything else with 404 |
| Taskboard.TableRouting | examples/hal-forms-taskboard/main.ts:55-185 | a five-route table over any handlers sends each of its method and path pairs to its own handler, in table order, and anything else to 404 |
| Taskboard.GuardedTasksChain | examples/hal-forms-taskboard/main.ts:205 | the list chain is `auth` around `rate` around the base handler |
| Taskboard.CreateChain | examples/hal-forms-taskboard/main.ts:206 | the create chain is `auth` around `admin` around `idempotent` |
| Taskboard.AuthStep | examples/hal-forms-taskboard/main.ts:190 | `auth` passes a request with a valid API key on unchanged and answers any other with 401, state unchanged |
| Taskboard.AdminStep | examples/hal-forms-taskboard/main.ts:191 | `admin` passes a request whose `x-roles` holds `admin` and answers any other with 403, state unchanged |
| Taskboard.RateStep | examples/hal-forms-taskboard/main.ts:192-195 | `rate` increments `rl:rl:<rateKey>` once, then answers 429 past 30 or passes the request on with the new store |
| Taskboard.IdemStep | examples/hal-forms-taskboard/main.ts:196-201 | `idempotent` passes a request without a key on; a key whose `idem:` slot is live `true` gets 409; any other key is set for 60 s before the request is passed on |
| Taskboard.ListNeedsKey | examples/hal-forms-taskboard/main.ts:215-217 | `GET /tasks` without an API key gets 401 and changes nothing |
| Taskboard.ListCounts | examples/hal-forms-taskboard/main.ts:192-195 | `GET /tasks` counts once under `rl:rl:<key>`, then answers 429 past 30 or the list of tasks |
| Taskboard.ListStep | examples/hal-forms-taskboard/main.ts:192-195 | a list request from a caller whose counter holds `c` moves it to `c + 1`, passes iff `c + 1 <= 30`, and leaves the tasks alone |
| Taskboard.ListLimitNeverResets | examples/hal-forms-taskboard/main.ts:192-195 | once 30 requests are counted, every later list request is refused at any time |
| Taskboard.CreateNeedsKey | examples/hal-forms-taskboard/main.ts:219-221 | `POST /tasks` without an API key gets 401 and changes nothing |
| Taskboard.CreateNeedsAdmin | examples/hal-forms-taskboard/main.ts:191 | an authenticated `POST /tasks` without the `admin` role gets 403 and changes nothing |
| Taskboard.AdminCreate | examples/hal-forms-taskboard/main.ts:189-206 | an authorised admin's `POST /tasks` reduces to `idempotent` around the base handler |
| Taskboard.CreateHandler | examples/hal-forms-taskboard/main.ts:109-141 | the `POST /tasks` handler; `Taskboard.CreateHandlerAccepts` and `Taskboard.CreateHandlerRejects` state what it does |
| Taskboard.Serve | examples/hal-forms-taskboard/main.ts:211-232 | the taskboard's request dispatch; `Taskboard.ListNeedsKey`, `Taskboard.ListCounts`, `Taskboard.CreateNeedsKey`, `Taskboard.DocumentsOnlyForGet` and `Taskboard.PageAndUnknownPaths` state its answers |
| Taskboard.CreateHandlerAnswers | examples/hal-forms-taskboard/main.ts:109-141 | a valid title adds `task-<uuid>` with the trimmed title and answers it; otherwise 500 with nothing changed |
| Taskboard.CreateHandlerAccepts | examples/hal-forms-taskboard/main.ts:109-141 | a string title with a non-space character adds `task-<uuid>`, trimmed and pending, answers it with 200 and leaves the store alone |
| Taskboard.CreateHandlerRejects | examples/hal-forms-taskboard/main.ts:109-141 | any other title answers 500 and changes nothing |
| Taskboard.CreateHandlerKeepsKv | examples/hal-forms-taskboard/main.ts:109-141 | whatever the title, the create handler leaves the key-value store unchanged |
| Taskboard.CreateWithoutIdemKey | examples/hal-forms-taskboard/main.ts:196-206 | an authorised admin without an idempotency key reaches the create handler with the state unchanged |
| Taskboard.CreateWithFreshIdemKey | examples/hal-forms-taskboard/main.ts:196-201 | a fresh idempotency key is marked for 60 s before the create handler runs |
| Taskboard.FreshKeyMarked | examples/hal-forms-taskboard/main.ts:196-201 | after an admin's request with a fresh key, `idem:<key>` is set for 60 s whether the create handler succeeded or failed |
| Taskboard.DuplicateRefused | examples/hal-forms-taskboard/main.ts:196-201 | a key already marked gets 409 and creates nothing |
| Taskboard.RepeatWithinTtlRefused | examples/hal-forms-taskboard/main.ts:196-201 | a repeat with the same key within 60 s gets 409, whether the first request succeeded or failed |
| Taskboard.RepeatAfterTtlAccepted | examples/hal-forms-taskboard/main.ts:196-201 | after 60 s the same key reaches the create handler again |
| Taskboard.DocumentsOnlyForGet | examples/hal-forms-taskboard/main.ts:223-225 | `/.well-known/hal` and `/forms` serve their documents to `GET` and are 404 for other methods |
| Taskboard.PageAndUnknownPaths | examples/hal-forms-taskboard/main.ts:227-231 | `GET /` serves the page; every other unrouted request is 404; neither changes the state |
| Taskboard.ServiceDocFields | examples/hal-forms-taskboard/main.ts:142-160 | the service document holds the four links, an empty `_templates` and the name |
| Taskboard.ImportsUnresolved | examples/hal-forms-taskboard/main.ts:12 | as written, `REL` and `HREF` are imported from the HAL-FORMS module, which exports only `hal`, `tmpl` and `prop` |
| Taskboard.SelfLinksServed | examples/hal-forms-taskboard/main.ts:142-182 | with `REL` and `HREF` as identities, the `self` links are `/.well-known/hal` and `/forms`, and a `GET` of each returns the document that carries it |
| Taskboard.ListStatuses | examples/hal-forms-taskboard/main.ts:211-232 | a run of requests gets one status per request |
| Taskboard.ListRun | examples/hal-forms-taskboard/main.ts:192-195 | from a counter at `c`, list request `i` passes iff `c + i + 1 <= 30`, however far apart the requests are |
| Taskboard.NewCallerGetsThirtyLists | examples/hal-forms-taskboard/main.ts:192-195 | a new caller gets 30 lists and is refused from then on |

## Left out

- `packages/macrofx/src/timeout.ts` races a timer against a promise. That is concurrency and wall-clock timing, so it is not part of this model.
- `fetchJson` (`packages/core/src/services.ts:10-14`), the HTTP and console adapters and all logging are I/O and are not modelled. The same goes for `Deno.serve`, the launchers and the HTML text of the taskboard page, which is the constant `Taskboard.UiPage`.
- The SQLite and Deno KV adapters are not part of this model. Every store here is `MemoryKV`, reached through `KvStore`.
- Concurrency is not modelled. Each awaited step runs in sequence, so the lost update of a read-modify-write against a shared store cannot happen here.
- The clock is read once per operation, as `now`. Where the source calls `Date.now()` more than once, the readings are taken as equal.
- Numbers are integers. There is no floating point, `NaN` or `Infinity`. `PositiveIntFrom` therefore has no "not an integer" case.
- `JSON.stringify` of cache arguments is an abstract serialiser parameter. Documents are `Value` trees, not JSON text.
- Request bodies are a `Value`. JSON versus form-data parsing and content types are not modelled, and neither is a body that fails to parse.
- Header names are matched exactly, without case folding.
- A registry name is looked up only among the registry's own keys, never among inherited `Object.prototype` names.
- Object literals in the model use keys that are not array indices, as the source's do. Objects from parsed request bodies are `Value` trees and are not checked for own-key order.
- `tmpl` and `prop` (`packages/web/src/hal_forms.ts:42-43`) are identity functions. Templates are written directly as values.
- `REL` and `HREF`, which `examples/hal-forms-taskboard/main.ts:12` imports from `packages/web/src/hal_forms.ts`, are not defined there (see "## Findings"). The model reads both as identities: `[REL("self")]` is the key `"self"` and `HREF(x)` is the string `x` (`Taskboard.Rel`, `Taskboard.Href`).
- Cache.CacheCall: the model has no `undefined`. A wrapped function that returns `undefined` has its result stored (`packages/macrofx/src/cache.ts:10`), read back as `undefined` (`packages/core/src/adapters/memory_kv.ts:10`) and served as a hit, because the test is `hit !== null` (`packages/macrofx/src/cache.ts:7`). The model cannot express that result, so it does not distinguish `!== null` from `!= null`.
- JsValue.Coalesce: `??` also replaces `undefined`; with no `undefined` in the model, only `null` is replaced.
- KvStore.AsCount: `(v as number) ?? 0` plus one. A stored string or object counts from 0 here, whereas JavaScript would concatenate or produce `NaN`.
- Quotas.StatusBody: `windowEndsAt` is the window's end in milliseconds, not the ISO date string.
- Quotas.Options: `windowMs` is taken to be a positive integer. With 0 or a negative window, `Math.floor(now / windowMs)` is not a window number.
- Taskboard.CreateHandler: a thrown validation error becomes the runtime's 500 "Internal Server Error" response.
- Taskboard.Serve: the handlers pass the store and the table of tasks along as a value. The in-place versions are `MemoryKv.MemoryKV` and `TaskBoardState.TaskBoard`.
- Taskboard.Policies: `kv.incr` always exists for the taskboard's `MemoryKV`, so its rate callback is modelled as `incr` only.

## Findings

| source | as written | input that shows it | evidently intended | confidence | as-written member | corrected member |
|---|---|---|---|---|---|---|
| examples/distributed-quotas/common.ts:53 | `GET /quota` reads its count from `namespace(bucketId)`, but the `rate` policy increments `namespace("rl:" + bucketId)` | first authenticated `GET /quota` of a window: the counter becomes 1 while the response says `requestCount: 0` | report the counter the rate policy maintains | high, not executed | Quotas.AsWrittenReportsZero | Quotas.ServeReportsCount |
| examples/hal-forms-taskboard/main.ts:12 | the server imports `REL` and `HREF` from `packages/web/src/hal_forms.ts`, which exports only `hal`, `tmpl` and `prop` (lines 36-43) | loading the module: the imports `REL` and `HREF` do not resolve, so the taskboard does not start | `REL` and `HREF` exported as identity helpers like `tmpl` and `prop`, so `[REL("self")]` is the key `"self"` and `HREF(x)` is `x` | high, not executed | Taskboard.ImportsUnresolved | Taskboard.SelfLinksServed |
