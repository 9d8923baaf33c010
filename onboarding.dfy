/**
 * The branded onboarding flow (`examples/type-safe-onboarding/branded/onboarding.ts`):
 * user ids are checked once by `UserIdFrom` and then carried as their own
 * type, users are stored under `users:<id>` and read back by id.
 */
module Onboarding {
  import opened JsValue
  import opened JsString
  import opened KvStore
  import opened MemoryKv
  import opened Constructors

  /** A user id: starts with `user-` and has at least one character after it. */
  type UserId = s: string | StartsWith(s, "user-") && |s| >= 6 witness "user-1"

  const BadPrefix := "User ids must start with `user-`"
  const TooShort := "User id too short"

  /** `UserIdFrom(value)`: trims, then checks the prefix and then the length, throwing on failure. */
  function UserIdFrom(value: string): (r: Result<UserId>)
    ensures r.Ok? <==> StartsWith(Trim(value), "user-") && |Trim(value)| >= 6
    ensures r.Ok? ==> r.value == Trim(value)
    ensures !StartsWith(Trim(value), "user-") ==> r == Err(BadPrefix)
    ensures StartsWith(Trim(value), "user-") && |Trim(value)| < 6 ==> r == Err(TooShort)
  {
    var trimmed := Trim(value);
    if !StartsWith(trimmed, "user-") then Err(BadPrefix)
    else if |trimmed| < 6 then Err(TooShort)
    else Ok(trimmed)
  }

  /** The stored key of a user. */
  function UserKey(id: UserId): string {
    "users:" + id
  }

  /** The stored record `{ id, email }`. */
  function UserRecord(id: UserId, email: Email): Value {
    Obj([("id", Str(id)), ("email", Str(email))])
  }

  /** `registerUser(deps)(id, email)`: stores the record under `users:<id>` with no time-to-live. */
  function RegisterUser(m: Store, id: UserId, email: Email, now: int): Store {
    Set(m, UserKey(id), UserRecord(id, email), None, now)
  }

  /** `getUser(deps)(id)`: the stored record, or `null`. */
  function GetUser(m: Store, id: UserId, now: int): Got {
    var g := Get(m, UserKey(id), now);
    Got(Coalesce(g.value, Null), g.store)
  }

  /** A registered user is read back, at any later time. */
  lemma RegisterThenGet(m: Store, id: UserId, email: Email, t0: int, t1: int)
    ensures GetUser(RegisterUser(m, id, email, t0), id, t1).value == UserRecord(id, email)
  {
  }

  /** Looking up an id nobody registered gives `null` and changes nothing. */
  lemma UnregisteredIsNull(m: Store, id: UserId, now: int)
    requires UserKey(id) !in m
    ensures GetUser(m, id, now) == Got(Null, m)
  {
  }

  /** Distinct ids are kept apart: registering one user leaves the lookup of another as it was. */
  lemma RegisterKeepsOthers(m: Store, id: UserId, other: UserId, email: Email, t0: int, t1: int)
    requires id != other
    ensures GetUser(RegisterUser(m, id, email, t0), other, t1).value == GetUser(m, other, t1).value
  {
    assert UserKey(id)[6..] == id;
    assert UserKey(other)[6..] == other;
  }

  /** White space around an id is ignored: the padded id is accepted or refused exactly as the bare one. */
  lemma UserIdIgnoresPadding(pre: string, value: string, post: string)
    requires AllSpace(pre) && AllSpace(post)
    ensures UserIdFrom(pre + value + post) == UserIdFrom(value)
  {
    TrimIgnoresPadding(pre, value, post);
  }

  /** `onboard(id, email)` against the in-memory store. */
  method Onboard(kv: MemoryKV, id: UserId, email: Email, now: int)
    modifies kv
    ensures kv.m == RegisterUser(old(kv.m), id, email, now)
  {
    kv.Set(UserKey(id), UserRecord(id, email), None, now);
  }

  /** `lookup(id)` against the in-memory store. */
  method Lookup(kv: MemoryKV, id: UserId, now: int) returns (user: Value)
    modifies kv
    ensures GetUser(old(kv.m), id, now) == Got(user, kv.m)
  {
    user := kv.Get(UserKey(id), now);
    user := Coalesce(user, Null);
  }
}
