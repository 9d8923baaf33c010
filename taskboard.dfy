/**
 * The HAL-FORMS taskboard server (`examples/hal-forms-taskboard/main.ts`):
 * a base router serving the UI page, the list of tasks, task creation and two
 * HAL-FORMS documents, wrapped per route in named policies: `GET /tasks`
 * behind `auth` and `rate`, `POST /tasks` behind `auth`, `admin` and
 * `idempotent`. The handlers' state is the key-value store together with
 * the table of tasks; the clock reading and the random UUID of a request are
 * parameters.
 */
module Taskboard {
  import opened JsValue
  import opened Router
  import opened MwRegistry
  import Middleware
  import opened Extras
  import opened TypedHeaders
  import opened KvStore
  import opened Services
  import opened HalForms
  import opened TaskTable

  /** The server's mutable state: the `kv` store and the `tasks` map. */
  datatype World = World(kv: Store, tasks: Board)

  const RequestsPerWindow := 30
  const RateWindowMs := 60_000
  const IdempotencyTtlMs := 60_000

  /** The response a handler that throws turns into. */
  const ServerError := Text(500, "Internal Server Error")

  /** `rateKey(req)`: the caller's API key, or `"anon"`. */
  function RateKey(req: Request): string {
    match GetApiKey(req)
    case Some(k) => k
    case None => "anon"
  }

  /**
   * The store key the `rate` policy counts a caller under: `rateLimit`
   * prefixes the bucket with `rl:` and the `incr` callback prefixes it again.
   */
  function RateCounter(bucket: string): string {
    "rl:" + ("rl:" + bucket)
  }

  /** The store key that marks an idempotency key as seen. */
  function IdemSlot(key: string): string {
    "idem:" + key
  }

  /** `!!getApiKey(req)`. */
  predicate HasApiKey(req: Request) {
    GetApiKey(req).Some?
  }

  /** `auth`: a caller needs a valid API key. */
  function AuthPolicy(): Router.Middleware<World> {
    Middleware.Auth(HasApiKey)
  }

  /** `admin`: the caller's roles must include `admin`. */
  function AdminPolicy(): Router.Middleware<World> {
    RequireRole("admin")
  }

  /** `rate`: 30 per caller, counted by the store's `incr` under `rl:` and the bucket. */
  function RatePolicy(now: int): Router.Middleware<World> {
    Middleware.RateLimit(RequestsPerWindow, RateWindowMs, RateKey, RateIncr(now))
  }

  /** The `rate` policy's callback: `kv.incr` under `rl:` and the key it is given. */
  function RateIncr(now: int): (string, World) -> Middleware.Counted<World> {
    (key: string, w: World) =>
      var c := Incr(w.kv, "rl:" + key, now);
      Middleware.Counted(c.count, w.(kv := c.store))
  }

  /** `idempotent`: a key is seen when `idem:<key>` holds `true`, and is remembered with a time-to-live. */
  function IdemPolicy(now: int): Router.Middleware<World> {
    Idempotency(IdemKeyOf, HasSeen(now), Remember(now), IdempotencyTtlMs)
  }

  /** `(req) => getIdemKey(req)`. */
  function IdemKeyOf(req: Request): Option<string> {
    GetIdemKey(req)
  }

  /** `(await kv.get(`idem:${key}`)) === true`. */
  function HasSeen(now: int): (string, World) -> Seen<World> {
    (key: string, w: World) =>
      var g := Get(w.kv, IdemSlot(key), now);
      Seen(g.value == Bool(true), w.(kv := g.store))
  }

  /** `kv.set(`idem:${key}`, true, ttl)`. */
  function Remember(now: int): (string, int, World) -> World {
    (key: string, ttl: int, w: World) => w.(kv := Set(w.kv, IdemSlot(key), Bool(true), Some(ttl), now))
  }

  /** The registry of named policies at time `now`. */
  function Policies(now: int): Registry<World> {
    DefineRegistry(map[
      "auth" := AuthPolicy(),
      "admin" := AdminPolicy(),
      "rate" := RatePolicy(now),
      "idempotent" := IdemPolicy(now)
    ])
  }

  /** The names the server imports from the HAL-FORMS module. */
  const HalFormsImports: set<string> := {"hal", "HREF", "prop", "REL", "tmpl"}

  /** As written, `REL` and `HREF` are imported but the HAL-FORMS module does not export them. */
  lemma ImportsUnresolved()
    ensures HalFormsImports - HalForms.Exports == {"REL", "HREF"}
  {
  }

  /** `REL(name)`: a link relation, read as its own name. */
  function Rel(name: string): string {
    name
  }

  /** `HREF(path)`: a link target, read as the path itself. */
  function Href(path: string): string {
    path
  }

  /** `{ href }`. */
  function Link(href: string): Value {
    Obj([("href", Str(href))])
  }

  /** The `_links` of the service document. */
  const ServiceLinks := Obj([(Rel("self"), Link(Href("/.well-known/hal"))), (Rel("ui"), Link(Href("/"))),
                             (Rel("tasks"), Link(Href("/tasks"))), (Rel("forms"), Link(Href("/forms")))])

  /** The service document served at `/.well-known/hal`. */
  function ServiceDoc(): Value {
    Hal(ServiceLinks, None, Some([("name", Str("HAL-FORMS Taskboard"))]))
  }

  /** The `createTask` form: a POST to `/tasks` with one required `title` property. */
  const CreateTaskTemplate := Obj([("title", Str("Create Task")), ("method", Str("POST")), ("target", Str("/tasks")),
                                   ("properties", Arr([Obj([("name", Str("title")), ("prompt", Str("Title")),
                                                            ("required", Bool(true))])]))])

  /** The forms document served at `/forms`. */
  function FormsDoc(): Value {
    Hal(Obj([(Rel("self"), Link(Href("/forms")))]), Some(Obj([("createTask", CreateTaskTemplate)])), None)
  }

  /** The HTML page served at `/`; its markup is not modelled. */
  const UiPage := Str("taskboard-ui")

  /** `payload.title`: the `title` field of an object body, and `undefined` (here `null`) otherwise. */
  function PayloadTitle(body: Value): Value {
    if body.Obj? then FieldGet(body.fields, "title").GetOr(Null) else Null
  }

  /** `{ tasks: listTasks() }`. */
  function TaskList(t: Board): Value {
    Obj([("tasks", Arr(ListTasks(t)))])
  }

  /** The `POST /tasks` handler: a valid title creates a task under `task-<uuid>`; an invalid one throws. */
  function CreateHandler(uuid: string): Handler<World> {
    (ctx: Ctx, w: World) =>
      match EnsureTitle(PayloadTitle(ctx.req.body))
      case Err(_) => Reply(ServerError, w)
      case Ok(title) =>
        var c := TaskTable.CreateTask(w.tasks, uuid, title);
        Reply(Response(200, Obj([("task", TaskView(c.task))])), World(w.kv, c.tasks))
  }

  function PageHandler(): Handler<World> {
    (ctx: Ctx, w: World) => Reply(Response(200, UiPage), w)
  }

  function ListHandler(): Handler<World> {
    (ctx: Ctx, w: World) => Reply(Response(200, TaskList(w.tasks)), w)
  }

  /** A handler that serves a fixed document. */
  function DocHandler(doc: Value): Handler<World> {
    (ctx: Ctx, w: World) => Reply(Response(200, doc), w)
  }

  /** The base router's table, over any five handlers in the order of `main.ts`. */
  function RouteTable(page: Handler<World>, list: Handler<World>, create: Handler<World>,
                      hal: Handler<World>, forms: Handler<World>): seq<RouteEntry<World>> {
    [ RouteEntry("GET", "/", page),
      RouteEntry("GET", "/tasks", list),
      RouteEntry("POST", "/tasks", create),
      RouteEntry("GET", "/.well-known/hal", hal),
      RouteEntry("GET", "/forms", forms) ]
  }

  function BaseRoutes(uuid: string): seq<RouteEntry<World>> {
    RouteTable(PageHandler(), ListHandler(), CreateHandler(uuid), DocHandler(ServiceDoc()), DocHandler(FormsDoc()))
  }

  /** `baseHandler`: the base router applied to the context's own request. */
  function BaseHandler(uuid: string): Handler<World> {
    (ctx: Ctx, w: World) => Route(BaseRoutes(uuid), ctx, ctx.req, w)
  }

  /** The table routes each of its five method and path pairs to its handler, and anything else to 404. */
  lemma TableRouting(page: Handler<World>, list: Handler<World>, create: Handler<World>,
                     hal: Handler<World>, forms: Handler<World>, ctx: Ctx, w: World)
    requires ctx.url == ctx.req.url
    ensures var m := ctx.req.httpMethod;
            var p := ctx.req.url.pathname;
            Route(RouteTable(page, list, create, hal, forms), ctx, ctx.req, w) ==
              if m == "GET" && p == "/" then page(ctx, w)
              else if m == "GET" && p == "/tasks" then list(ctx, w)
              else if m == "POST" && p == "/tasks" then create(ctx, w)
              else if m == "GET" && p == "/.well-known/hal" then hal(ctx, w)
              else if m == "GET" && p == "/forms" then forms(ctx, w)
              else Reply(NotFound, w)
  {
    var routes := RouteTable(page, list, create, hal, forms);
    var req := ctx.req;
    var m := req.httpMethod;
    var p := req.url.pathname;
    assert ctx.(req := req, url := req.url) == ctx;
    assert "/tasks"[1] != "/forms"[1];
    if m == "GET" && p == "/" {
      RouteFirstMatch(routes, ctx, req, w, 0);
    } else if m == "GET" && p == "/tasks" {
      RouteFirstMatch(routes, ctx, req, w, 1);
    } else if m == "POST" && p == "/tasks" {
      RouteFirstMatch(routes, ctx, req, w, 2);
    } else if m == "GET" && p == "/.well-known/hal" {
      RouteFirstMatch(routes, ctx, req, w, 3);
    } else if m == "GET" && p == "/forms" {
      RouteFirstMatch(routes, ctx, req, w, 4);
    } else {
      RouteNoMatch(routes, ctx, req, w);
    }
  }

  /** The base router answers each of its five routes with that route's handler, and anything else with 404. */
  lemma BaseRouting(uuid: string, ctx: Ctx, w: World)
    requires ctx.url == ctx.req.url
    ensures var m := ctx.req.httpMethod;
            var p := ctx.req.url.pathname;
            BaseHandler(uuid)(ctx, w) ==
              if m == "GET" && p == "/" then PageHandler()(ctx, w)
              else if m == "GET" && p == "/tasks" then ListHandler()(ctx, w)
              else if m == "POST" && p == "/tasks" then CreateHandler(uuid)(ctx, w)
              else if m == "GET" && p == "/.well-known/hal" then DocHandler(ServiceDoc())(ctx, w)
              else if m == "GET" && p == "/forms" then DocHandler(FormsDoc())(ctx, w)
              else Reply(NotFound, w)
  {
    TableRouting(PageHandler(), ListHandler(), CreateHandler(uuid), DocHandler(ServiceDoc()), DocHandler(FormsDoc()), ctx, w);
  }

  /** The context of a request: its URL and the state `toState` derives from it. */
  function RequestCtx(req: Request): Ctx {
    Ctx(req, req.url, Some(ToState(req)))
  }

  predicate IsList(req: Request) {
    req.url.pathname == "/tasks" && req.httpMethod == "GET"
  }

  predicate IsCreate(req: Request) {
    req.url.pathname == "/tasks" && req.httpMethod == "POST"
  }

  /** `guardedTasks`: the base handler behind `auth` and `rate`. */
  function GuardedTasks(now: int, uuid: string): Handler<World> {
    ComposeNamed(Policies(now), ["auth", "rate"], BaseHandler(uuid))
  }

  /** `createTaskHandler`: the base handler behind `auth`, `admin` and `idempotent`. */
  function CreateTaskHandler(now: int, uuid: string): Handler<World> {
    ComposeNamed(Policies(now), ["auth", "admin", "idempotent"], BaseHandler(uuid))
  }

  /** The request handler given to `Deno.serve`, at clock reading `now` with `uuid` as the next random UUID. */
  function Serve(now: int, uuid: string, req: Request, w: World): Reply<World> {
    var ctx := RequestCtx(req);
    if IsList(req) then GuardedTasks(now, uuid)(ctx, w)
    else if IsCreate(req) then CreateTaskHandler(now, uuid)(ctx, w)
    else if req.url.pathname == "/.well-known/hal" || req.url.pathname == "/forms" then BaseHandler(uuid)(ctx, w)
    else if req.url.pathname == "/" && req.httpMethod == "GET" then BaseHandler(uuid)(ctx, w)
    else Reply(NotFound, w)
  }

  /** The list chain is `auth` around `rate` around the base handler. */
  lemma GuardedTasksChain(now: int, uuid: string)
    ensures GuardedTasks(now, uuid) == AuthPolicy()(RatePolicy(now)(BaseHandler(uuid)))
  {
    ComposeNamedPair(Policies(now), "auth", "rate", BaseHandler(uuid));
  }

  /** The create chain is `auth` around `admin` around `idempotent` around the base handler. */
  lemma CreateChain(now: int, uuid: string)
    ensures CreateTaskHandler(now, uuid) == AuthPolicy()(AdminPolicy()(IdemPolicy(now)(BaseHandler(uuid))))
  {
    var reg := Policies(now);
    var h := BaseHandler(uuid);
    ComposeNamedAppend(reg, ["auth"], ["admin", "idempotent"], h);
    assert ["auth"] + ["admin", "idempotent"] == ["auth", "admin", "idempotent"];
    ComposeNamedPair(reg, "admin", "idempotent", h);
    assert Resolve(reg, ["auth"]) == [reg["auth"]] by {
      assert ["auth"][1..] == [];
    }
    ComposeSmall(reg["auth"], reg["auth"], ComposeNamed(reg, ["admin", "idempotent"], h));
  }

  /** `auth` on a request: without a valid API key it answers 401 and changes nothing. */
  lemma AuthStep(h: Handler<World>, req: Request, w: World)
    ensures AuthPolicy()(h)(RequestCtx(req), w) ==
              if GetApiKey(req).Some? then h(RequestCtx(req), w) else Reply(Text(401, "Unauthorized"), w)
  {
    Middleware.AuthDecides(HasApiKey, h, RequestCtx(req), w);
  }

  /** `admin` on a request: without the `admin` role in `x-roles` it answers 403 and changes nothing. */
  lemma AdminStep(h: Handler<World>, req: Request, w: World)
    ensures AdminPolicy()(h)(RequestCtx(req), w) ==
              if "admin" in Roles(req) then h(RequestCtx(req), w) else Reply(Text(403, "Forbidden"), w)
  {
    RequireRoleDecides("admin", h, RequestCtx(req), w);
  }

  /** `rate` on a request: one `incr` of `rl:rl:<rateKey>`, then 429 past 30. */
  lemma RateStep(now: int, h: Handler<World>, req: Request, w: World)
    ensures var c := Incr(w.kv, RateCounter(RateKey(req)), now);
            RatePolicy(now)(h)(RequestCtx(req), w) ==
              if c.count > RequestsPerWindow then Reply(Text(429, "Too Many Requests"), w.(kv := c.store))
              else h(RequestCtx(req), w.(kv := c.store))
  {
    Middleware.RateLimitDecides(RequestsPerWindow, RateWindowMs, RateKey, RateIncr(now), h, RequestCtx(req), w);
    assert "rl:" + ("rl:" + RateKey(req)) == RateCounter(RateKey(req));
  }

  /**
   * `idempotent` on a request: no key passes the request on; a key whose
   * `idem:` slot holds `true` gets 409; any other key is marked for 60
   * seconds before the request is passed on.
   */
  lemma IdemStep(now: int, h: Handler<World>, req: Request, w: World)
    ensures GetIdemKey(req).None? ==> IdemPolicy(now)(h)(RequestCtx(req), w) == h(RequestCtx(req), w)
    ensures GetIdemKey(req).Some? ==>
              var slot := IdemSlot(GetIdemKey(req).value);
              var purged := w.(kv := Purge(w.kv, slot, now));
              IdemPolicy(now)(h)(RequestCtx(req), w) ==
                if Live(w.kv, slot, now) == Some(Bool(true)) then Reply(Text(409, "Duplicate"), purged)
                else h(RequestCtx(req), purged.(kv := Set(purged.kv, slot, Bool(true), Some(IdempotencyTtlMs), now)))
  {
    IdempotencyDecides(IdemKeyOf, HasSeen(now), Remember(now), IdempotencyTtlMs, h, RequestCtx(req), w);
    if GetIdemKey(req).Some? {
      var key := GetIdemKey(req).value;
      var q := HasSeen(now)(key, w);
      assert key != "";
      assert q.state == w.(kv := Purge(w.kv, IdemSlot(key), now));
      assert q.seen <==> Live(w.kv, IdemSlot(key), now) == Some(Bool(true));
      assert Remember(now)(key, IdempotencyTtlMs, q.state)
          == q.state.(kv := Set(q.state.kv, IdemSlot(key), Bool(true), Some(IdempotencyTtlMs), now));
    }
  }

  /** `GET /tasks` without a valid API key is refused with 401, counting nothing. */
  lemma ListNeedsKey(now: int, uuid: string, req: Request, w: World)
    requires IsList(req) && GetApiKey(req).None?
    ensures Serve(now, uuid, req, w) == Reply(Text(401, "Unauthorized"), w)
  {
    GuardedTasksChain(now, uuid);
    AuthStep(RatePolicy(now)(BaseHandler(uuid)), req, w);
  }

  /**
   * `GET /tasks` with a valid API key increments `rl:rl:<key>` once; past 30
   * the answer is 429, otherwise the list of tasks.
   */
  lemma ListCounts(now: int, uuid: string, req: Request, w: World)
    requires IsList(req) && GetApiKey(req).Some?
    ensures var c := Incr(w.kv, RateCounter(GetApiKey(req).value), now);
            Serve(now, uuid, req, w) ==
              if c.count > RequestsPerWindow then Reply(Text(429, "Too Many Requests"), w.(kv := c.store))
              else Reply(Response(200, TaskList(w.tasks)), w.(kv := c.store))
  {
    var base := BaseHandler(uuid);
    GuardedTasksChain(now, uuid);
    AuthStep(RatePolicy(now)(base), req, w);
    RateStep(now, base, req, w);
    var c := Incr(w.kv, RateCounter(RateKey(req)), now);
    BaseRouting(uuid, RequestCtx(req), w.(kv := c.store));
  }

  /**
   * One counted `GET /tasks` from a caller whose counter holds `c`: the
   * counter moves to `c + 1` and the request passes while `c + 1` is at
   * most 30; the tasks are untouched.
   */
  lemma ListStep(now: int, uuid: string, req: Request, w: World, c: int)
    requires IsList(req) && GetApiKey(req).Some?
    requires HoldsCount(w.kv, RateCounter(GetApiKey(req).value), c)
    ensures var r := Serve(now, uuid, req, w);
            && r.response == (if c + 1 > RequestsPerWindow then Text(429, "Too Many Requests")
                              else Response(200, TaskList(w.tasks)))
            && HoldsCount(r.state.kv, RateCounter(GetApiKey(req).value), c + 1)
            && r.state.tasks == w.tasks
  {
    ListCounts(now, uuid, req, w);
    BumpFromCount(true, w.kv, RateCounter(GetApiKey(req).value), c, now);
  }

  /**
   * The list counter carries no expiry, so the 60-second window is never
   * applied: once a caller has made 30 counted requests, every later
   * `GET /tasks` from that key is refused, at any time.
   */
  lemma ListLimitNeverResets(now: int, uuid: string, req: Request, w: World, c: int)
    requires IsList(req) && GetApiKey(req).Some?
    requires HoldsCount(w.kv, RateCounter(GetApiKey(req).value), c) && c >= RequestsPerWindow
    ensures var r := Serve(now, uuid, req, w);
            && r.response == Text(429, "Too Many Requests")
            && HoldsCount(r.state.kv, RateCounter(GetApiKey(req).value), c + 1)
            && r.state.tasks == w.tasks
  {
    ListStep(now, uuid, req, w, c);
  }

  /** An authenticated `POST /tasks` from a caller without the `admin` role is refused with 403 and nothing changes. */
  lemma CreateNeedsAdmin(now: int, uuid: string, req: Request, w: World)
    requires IsCreate(req) && GetApiKey(req).Some? && "admin" !in Roles(req)
    ensures Serve(now, uuid, req, w) == Reply(Text(403, "Forbidden"), w)
  {
    var inner := IdemPolicy(now)(BaseHandler(uuid));
    CreateChain(now, uuid);
    AuthStep(AdminPolicy()(inner), req, w);
    AdminStep(inner, req, w);
  }

  /** `POST /tasks` without a valid API key is refused with 401, whatever the roles. */
  lemma CreateNeedsKey(now: int, uuid: string, req: Request, w: World)
    requires IsCreate(req) && GetApiKey(req).None?
    ensures Serve(now, uuid, req, w) == Reply(Text(401, "Unauthorized"), w)
  {
    CreateChain(now, uuid);
    AuthStep(AdminPolicy()(IdemPolicy(now)(BaseHandler(uuid))), req, w);
  }

  /** A title that is a string with a non-space character adds `task-<uuid>`, trimmed and pending, and answers it. */
  lemma CreateHandlerAccepts(uuid: string, ctx: Ctx, w: World)
    requires var title := PayloadTitle(ctx.req.body); title.Str? && !JsString.AllSpace(title.s)
    ensures var task := Task("task-" + uuid, JsString.Trim(PayloadTitle(ctx.req.body).s), Pending);
            var r := CreateHandler(uuid)(ctx, w);
            && r.response == Response(200, Obj([("task", TaskView(task))]))
            && r.state.kv == w.kv
            && r.state.tasks == MapSet(w.tasks, task.id, task)
  {
    var e := EnsureTitle(PayloadTitle(ctx.req.body));
    var c := TaskTable.CreateTask(w.tasks, uuid, e.value);
    assert CreateHandler(uuid)(ctx, w) == Reply(Response(200, Obj([("task", TaskView(c.task))])), World(w.kv, c.tasks));
  }

  /** Any other title makes the handler throw: 500, and nothing changes. */
  lemma CreateHandlerRejects(uuid: string, ctx: Ctx, w: World)
    requires var title := PayloadTitle(ctx.req.body); !(title.Str? && !JsString.AllSpace(title.s))
    ensures CreateHandler(uuid)(ctx, w) == Reply(ServerError, w)
  {
    assert EnsureTitle(PayloadTitle(ctx.req.body)).Err?;
  }

  /**
   * The create handler: a title that is a string with a non-space character
   * adds `task-<uuid>` with the trimmed title, pending, and answers it; any
   * other title answers 500 and changes nothing.
   */
  lemma CreateHandlerAnswers(uuid: string, ctx: Ctx, w: World)
    ensures var title := PayloadTitle(ctx.req.body);
            var r := CreateHandler(uuid)(ctx, w);
            if title.Str? && !JsString.AllSpace(title.s) then
              var task := Task("task-" + uuid, JsString.Trim(title.s), Pending);
              && r.response == Response(200, Obj([("task", TaskView(task))]))
              && r.state.kv == w.kv
              && r.state.tasks == MapSet(w.tasks, task.id, task)
            else r == Reply(ServerError, w)
  {
    var title := PayloadTitle(ctx.req.body);
    if title.Str? && !JsString.AllSpace(title.s) {
      CreateHandlerAccepts(uuid, ctx, w);
    } else {
      CreateHandlerRejects(uuid, ctx, w);
    }
  }

  /** The create chain on an authorised admin's request reduces to `idempotent` around the base handler. */
  lemma AdminCreate(now: int, uuid: string, req: Request, w: World)
    requires IsCreate(req) && GetApiKey(req).Some? && "admin" in Roles(req)
    ensures Serve(now, uuid, req, w) == IdemPolicy(now)(BaseHandler(uuid))(RequestCtx(req), w)
  {
    var inner := IdemPolicy(now)(BaseHandler(uuid));
    CreateChain(now, uuid);
    AuthStep(AdminPolicy()(inner), req, w);
    AdminStep(inner, req, w);
  }

  /** An authorised admin's `POST /tasks` without an idempotency key goes straight to the create handler. */
  lemma CreateWithoutIdemKey(now: int, uuid: string, req: Request, w: World)
    requires IsCreate(req) && GetApiKey(req).Some? && "admin" in Roles(req) && GetIdemKey(req).None?
    ensures Serve(now, uuid, req, w) == CreateHandler(uuid)(RequestCtx(req), w)
  {
    AdminCreate(now, uuid, req, w);
    IdemStep(now, BaseHandler(uuid), req, w);
    BaseRouting(uuid, RequestCtx(req), w);
  }

  /**
   * An authorised admin's `POST /tasks` with a fresh idempotency key marks
   * `idem:<key>` as seen for 60 seconds, and only then runs the create
   * handler, so the key is spent even when the handler fails.
   */
  lemma CreateWithFreshIdemKey(now: int, uuid: string, req: Request, w: World)
    requires IsCreate(req) && GetApiKey(req).Some? && "admin" in Roles(req) && GetIdemKey(req).Some?
    requires Live(w.kv, IdemSlot(GetIdemKey(req).value), now) != Some(Bool(true))
    ensures var slot := IdemSlot(GetIdemKey(req).value);
            var kv := Set(Purge(w.kv, slot, now), slot, Bool(true), Some(IdempotencyTtlMs), now);
            Serve(now, uuid, req, w) == CreateHandler(uuid)(RequestCtx(req), w.(kv := kv))
  {
    var slot := IdemSlot(GetIdemKey(req).value);
    var kv := Set(Purge(w.kv, slot, now), slot, Bool(true), Some(IdempotencyTtlMs), now);
    AdminCreate(now, uuid, req, w);
    IdemStep(now, BaseHandler(uuid), req, w);
    BaseRouting(uuid, RequestCtx(req), w.(kv := kv));
  }

  /** Whatever the create handler answers, an admin's fresh idempotency key leaves `idem:<key>` set for 60 seconds. */
  lemma FreshKeyMarked(now: int, uuid: string, req: Request, w: World)
    requires IsCreate(req) && GetApiKey(req).Some? && "admin" in Roles(req) && GetIdemKey(req).Some?
    requires Live(w.kv, IdemSlot(GetIdemKey(req).value), now) != Some(Bool(true))
    ensures var slot := IdemSlot(GetIdemKey(req).value);
            Serve(now, uuid, req, w).state.kv == Set(Purge(w.kv, slot, now), slot, Bool(true), Some(IdempotencyTtlMs), now)
  {
    var slot := IdemSlot(GetIdemKey(req).value);
    var kv := Set(Purge(w.kv, slot, now), slot, Bool(true), Some(IdempotencyTtlMs), now);
    CreateWithFreshIdemKey(now, uuid, req, w);
    CreateHandlerKeepsKv(uuid, RequestCtx(req), w.(kv := kv));
  }

  /** The create handler, accepting or refusing, leaves the store as it found it. */
  lemma CreateHandlerKeepsKv(uuid: string, ctx: Ctx, w: World)
    ensures CreateHandler(uuid)(ctx, w).state.kv == w.kv
  {
    var title := PayloadTitle(ctx.req.body);
    if title.Str? && !JsString.AllSpace(title.s) {
      CreateHandlerAccepts(uuid, ctx, w);
    } else {
      CreateHandlerRejects(uuid, ctx, w);
    }
  }

  /** A `POST /tasks` whose idempotency key is marked as seen is refused with 409; no task is created. */
  lemma DuplicateRefused(now: int, uuid: string, req: Request, w: World)
    requires IsCreate(req) && GetApiKey(req).Some? && "admin" in Roles(req) && GetIdemKey(req).Some?
    requires Live(w.kv, IdemSlot(GetIdemKey(req).value), now) == Some(Bool(true))
    ensures Serve(now, uuid, req, w) == Reply(Text(409, "Duplicate"), w)
  {
    AdminCreate(now, uuid, req, w);
    IdemStep(now, BaseHandler(uuid), req, w);
    assert Purge(w.kv, IdemSlot(GetIdemKey(req).value), now) == w.kv;
  }

  /**
   * Two authorised `POST /tasks` with the same idempotency key, the second
   * within 60 seconds of the first: the second is refused with 409 and
   * leaves the state as the first left it, whether the first created a task
   * or failed.
   */
  lemma RepeatWithinTtlRefused(t0: int, t1: int, uuid0: string, uuid1: string, req0: Request, req1: Request, w: World)
    requires IsCreate(req0) && GetApiKey(req0).Some? && "admin" in Roles(req0) && GetIdemKey(req0).Some?
    requires IsCreate(req1) && GetApiKey(req1).Some? && "admin" in Roles(req1) && GetIdemKey(req1) == GetIdemKey(req0)
    requires Live(w.kv, IdemSlot(GetIdemKey(req0).value), t0) != Some(Bool(true))
    requires t1 <= t0 + IdempotencyTtlMs
    ensures var r0 := Serve(t0, uuid0, req0, w);
            Serve(t1, uuid1, req1, r0.state) == Reply(Text(409, "Duplicate"), r0.state)
  {
    var slot := IdemSlot(GetIdemKey(req0).value);
    var r0 := Serve(t0, uuid0, req0, w);
    FreshKeyMarked(t0, uuid0, req0, w);
    assert Live(r0.state.kv, slot, t1) == Some(Bool(true));
    DuplicateRefused(t1, uuid1, req1, r0.state);
  }

  /** Once the 60 seconds have passed, the same key is accepted again and the create handler runs. */
  lemma RepeatAfterTtlAccepted(t0: int, t1: int, uuid0: string, uuid1: string, req0: Request, req1: Request, w: World)
    requires IsCreate(req0) && GetApiKey(req0).Some? && "admin" in Roles(req0) && GetIdemKey(req0).Some?
    requires IsCreate(req1) && GetApiKey(req1).Some? && "admin" in Roles(req1) && GetIdemKey(req1) == GetIdemKey(req0)
    requires Live(w.kv, IdemSlot(GetIdemKey(req0).value), t0) != Some(Bool(true))
    requires t0 + IdempotencyTtlMs != 0 && t1 > t0 + IdempotencyTtlMs
    ensures var r0 := Serve(t0, uuid0, req0, w);
            var slot := IdemSlot(GetIdemKey(req1).value);
            var kv := Set(Purge(r0.state.kv, slot, t1), slot, Bool(true), Some(IdempotencyTtlMs), t1);
            Serve(t1, uuid1, req1, r0.state) == CreateHandler(uuid1)(RequestCtx(req1), r0.state.(kv := kv))
  {
    var slot := IdemSlot(GetIdemKey(req0).value);
    var r0 := Serve(t0, uuid0, req0, w);
    FreshKeyMarked(t0, uuid0, req0, w);
    assert Live(r0.state.kv, slot, t1) == None;
    CreateWithFreshIdemKey(t1, uuid1, req1, r0.state);
  }

  /** The service and forms documents are served to `GET` only; any other method on those paths is 404. */
  lemma DocumentsOnlyForGet(now: int, uuid: string, req: Request, w: World)
    requires req.url.pathname == "/.well-known/hal" || req.url.pathname == "/forms"
    ensures Serve(now, uuid, req, w) ==
              if req.httpMethod != "GET" then Reply(NotFound, w)
              else if req.url.pathname == "/forms" then Reply(Response(200, FormsDoc()), w)
              else Reply(Response(200, ServiceDoc()), w)
  {
    BaseRouting(uuid, RequestCtx(req), w);
  }

  /**
   * `GET /` serves the page to anyone, and every other request outside the
   * task and document routes (another method on `/tasks` included) is 404;
   * neither changes the state.
   */
  lemma PageAndUnknownPaths(now: int, uuid: string, req: Request, w: World)
    requires !IsList(req) && !IsCreate(req)
    requires req.url.pathname != "/.well-known/hal" && req.url.pathname != "/forms"
    ensures Serve(now, uuid, req, w) ==
              if req.url.pathname == "/" && req.httpMethod == "GET" then Reply(Response(200, UiPage), w)
              else Reply(NotFound, w)
  {
    if req.url.pathname == "/" && req.httpMethod == "GET" {
      BaseRouting(uuid, RequestCtx(req), w);
    }
  }

  /** `doc._links[REL("self")].href`, and `""` when the document has no such string. */
  function SelfHref(doc: Value): string {
    var links := if doc.Obj? then FieldGet(doc.fields, "_links").GetOr(Null) else Null;
    var self := if links.Obj? then FieldGet(links.fields, Rel("self")).GetOr(Null) else Null;
    var href := if self.Obj? then FieldGet(self.fields, "href").GetOr(Null) else Null;
    if href.Str? then href.s else ""
  }

  /**
   * With `REL` and `HREF` as identities, each document's `self` link names
   * the path it is served at: a `GET` of that path returns the document.
   */
  lemma SelfLinksServed(now: int, uuid: string, req: Request, w: World)
    requires req.httpMethod == "GET"
    ensures SelfHref(ServiceDoc()) == "/.well-known/hal" && SelfHref(FormsDoc()) == "/forms"
    ensures req.url.pathname == SelfHref(ServiceDoc()) ==> Serve(now, uuid, req, w) == Reply(Response(200, ServiceDoc()), w)
    ensures req.url.pathname == SelfHref(FormsDoc()) ==> Serve(now, uuid, req, w) == Reply(Response(200, FormsDoc()), w)
  {
    ServiceDocFields("_links");
    HalFields(Obj([(Rel("self"), Link(Href("/forms")))]), Some(Obj([("createTask", CreateTaskTemplate)])), None, "_links");
    if req.url.pathname == "/.well-known/hal" || req.url.pathname == "/forms" {
      DocumentsOnlyForGet(now, uuid, req, w);
    }
  }

  /** The service document links the four resources and carries its name. */
  lemma ServiceDocFields(k: string)
    ensures FieldGet(ServiceDoc().fields, k) ==
              if k == "name" then Some(Str("HAL-FORMS Taskboard"))
              else if k == "_links" then Some(ServiceLinks)
              else if k == "_templates" then Some(Obj([]))
              else None
  {
    HalFields(ServiceLinks, None, Some([("name", Str("HAL-FORMS Taskboard"))]), k);
  }

  /** The statuses of a run of `GET /tasks` from one caller, each request seeing the state the previous one left. */
  function ListStatuses(uuid: string, req: Request, times: seq<int>, w: World): (r: seq<int>)
    ensures |r| == |times|
    decreases |times|
  {
    if |times| == 0 then []
    else
      var rep := Serve(times[0], uuid, req, w);
      [rep.response.status] + ListStatuses(uuid, req, times[1..], rep.state)
  }

  /** Request `i` of a run gets 429 once `c + i + 1` exceeds 30, and 200 before. */
  predicate CountsFrom(statuses: seq<int>, c: int) {
    forall i :: 0 <= i < |statuses| ==> statuses[i] == if c + i + 1 > RequestsPerWindow then 429 else 200
  }

  /** A status that follows the counter, in front of a run that follows it from the next count. */
  lemma CountsFromCons(s0: int, rest: seq<int>, c: int)
    requires s0 == if c + 1 > RequestsPerWindow then 429 else 200
    requires CountsFrom(rest, c + 1)
    ensures CountsFrom([s0] + rest, c)
  {
    var all := [s0] + rest;
    forall i | 0 <= i < |all|
      ensures all[i] == if c + i + 1 > RequestsPerWindow then 429 else 200
    {
      if i > 0 {
        assert all[i] == rest[i - 1];
      }
    }
  }

  /**
   * From a counter at `c`, request `i` of a run of `GET /tasks` from one
   * caller passes exactly while `c + i + 1` is at most 30, however far apart
   * the requests are.
   */
  lemma {:induction false} ListRun(uuid: string, req: Request, times: seq<int>, w: World, c: int)
    requires IsList(req) && GetApiKey(req).Some?
    requires HoldsCount(w.kv, RateCounter(GetApiKey(req).value), c)
    ensures CountsFrom(ListStatuses(uuid, req, times, w), c)
    decreases |times|
  {
    if |times| > 0 {
      var rep := Serve(times[0], uuid, req, w);
      ListStep(times[0], uuid, req, w, c);
      ListRun(uuid, req, times[1..], rep.state, c + 1);
      CountsFromCons(rep.response.status, ListStatuses(uuid, req, times[1..], rep.state), c);
    }
  }

  /** A new caller gets its first 30 lists and is refused from then on, with no window ever reopening. */
  lemma NewCallerGetsThirtyLists(uuid: string, req: Request, times: seq<int>, w: World)
    requires IsList(req) && GetApiKey(req).Some?
    requires RateCounter(GetApiKey(req).value) !in w.kv
    ensures forall i :: 0 <= i < |times| ==> ListStatuses(uuid, req, times, w)[i] == if i < RequestsPerWindow then 200 else 429
  {
    ListRun(uuid, req, times, w, 0);
  }
}
