/**
 * Handlers, middleware, `compose` and the first-match `router`
 * (`packages/web/src/router.ts`), with the request and response values
 * they exchange.
 *
 * A handler in the source is an async function of a context; its effects on
 * shared stores happen in sequence. Here a handler takes the context and the
 * current state `S` of everything it may touch (a key-value store, a task
 * table) and gives back the response with the new state.
 */
module Router {
  import opened JsValue

  /** A parsed URL; the query string is kept apart from the path. */
  datatype Url = Url(pathname: string, search: string)

  /** An incoming request: method, parsed URL, headers (lower-case names) and the parsed body. */
  datatype Request = Request(httpMethod: string, url: Url, headers: map<string, string>, body: Value)

  datatype Response = Response(status: int, body: Value)

  /** `new Response(text, { status })`. */
  function Text(status: int, text: string): Response {
    Response(status, Str(text))
  }

  /** `req.headers.get(name)`: the header's value, or `null` when it is absent. */
  function Header(req: Request, name: string): Option<string> {
    if name in req.headers then Some(req.headers[name]) else None
  }

  /** The user record some applications keep in `ctx.state.user`. */
  datatype UserInfo = UserInfo(id: string, roles: Option<seq<string>>)
  datatype AppState = AppState(user: Option<UserInfo>)

  /** The context a handler receives: `{ req, url, state? }`. */
  datatype Ctx = Ctx(req: Request, url: Url, state: Option<AppState>)

  /** What a handler produces: the response and the state after its effects. */
  datatype Reply<S> = Reply(response: Response, state: S)

  type Handler<!S> = (Ctx, S) -> Reply<S>
  type Middleware<!S> = Handler<S> -> Handler<S>

  /** `compose(...mw)(h)`: `mw.reduceRight((acc, m) => m(acc), h)`, so `mw[0]` ends up outermost. */
  function Compose<S>(mw: seq<Middleware<S>>, h: Handler<S>): Handler<S>
    decreases |mw|
  {
    if |mw| == 0 then h else mw[0](Compose(mw[1..], h))
  }

  /** `compose()(h) == h` and `compose(m1, m2)(h) == m1(m2(h))`. */
  lemma ComposeSmall<S>(m1: Middleware<S>, m2: Middleware<S>, h: Handler<S>)
    ensures Compose([], h) == h
    ensures Compose([m1], h) == m1(h)
    ensures Compose([m1, m2], h) == m1(m2(h))
  {
    assert [m1][1..] == [];
    assert [m1, m2][1..] == [m2];
    assert Compose([m2], h) == m2(h) by { assert [m2][1..] == []; }
  }

  /** Composing `xs + ys` wraps the composition of `ys` in that of `xs`. */
  lemma {:induction false} ComposeAppend<S>(xs: seq<Middleware<S>>, ys: seq<Middleware<S>>, h: Handler<S>)
    ensures Compose(xs + ys, h) == Compose(xs, Compose(ys, h))
    decreases |xs|
  {
    if |xs| == 0 {
      assert xs + ys == ys;
    } else {
      assert (xs + ys)[1..] == xs[1..] + ys;
      ComposeAppend(xs[1..], ys, h);
    }
  }

  /** One row of a route table. */
  datatype RouteEntry<!S> = RouteEntry(httpMethod: string, path: string, handler: Handler<S>)

  /** Exact string equality on both method and path. */
  predicate Matches<S>(r: RouteEntry<S>, httpMethod: string, path: string) {
    r.httpMethod == httpMethod && r.path == path
  }

  /** `routes.find(...)`: the index of the first matching entry. */
  function FindRoute<S>(routes: seq<RouteEntry<S>>, httpMethod: string, path: string): (r: Option<nat>)
    ensures r.None? <==> forall j :: 0 <= j < |routes| ==> !Matches(routes[j], httpMethod, path)
    ensures r.Some? ==> r.value < |routes| && Matches(routes[r.value], httpMethod, path)
    ensures r.Some? ==> forall j :: 0 <= j < r.value ==> !Matches(routes[j], httpMethod, path)
    decreases |routes|
  {
    if |routes| == 0 then None
    else if Matches(routes[0], httpMethod, path) then Some(0)
    else
      match FindRoute(routes[1..], httpMethod, path)
      case None => None
      case Some(i) => Some(i + 1)
  }

  /** The 404 response of `router` and of the applications' own dispatchers. */
  const NotFound := Text(404, "Not Found")

  /**
   * `router(routes)(ctx)(req)`: the handler of the first entry whose method
   * and path equal the request's, called with `ctx` extended by `req` and its
   * URL; "Not Found" (404) when no entry matches.
   */
  function Route<S>(routes: seq<RouteEntry<S>>, ctx: Ctx, req: Request, s: S): Reply<S> {
    match FindRoute(routes, req.httpMethod, req.url.pathname)
    case None => Reply(NotFound, s)
    case Some(i) => routes[i].handler(ctx.(req := req, url := req.url), s)
  }

  /**
   * Routing picks the earliest matching entry: if entry `i` matches and none
   * before it does, entry `i`'s handler answers, whatever later entries hold;
   * with no match the answer is 404 and the state is untouched.
   */
  lemma RouteFirstMatch<S>(routes: seq<RouteEntry<S>>, ctx: Ctx, req: Request, s: S, i: nat)
    requires i < |routes| && Matches(routes[i], req.httpMethod, req.url.pathname)
    requires forall j :: 0 <= j < i ==> !Matches(routes[j], req.httpMethod, req.url.pathname)
    ensures Route(routes, ctx, req, s) == routes[i].handler(ctx.(req := req, url := req.url), s)
  {
    var f := FindRoute(routes, req.httpMethod, req.url.pathname);
    assert f.Some?;
    assert f.value == i by {
      if f.value < i { } else if f.value > i { }
    }
  }

  lemma RouteNoMatch<S>(routes: seq<RouteEntry<S>>, ctx: Ctx, req: Request, s: S)
    requires forall j :: 0 <= j < |routes| ==> !Matches(routes[j], req.httpMethod, req.url.pathname)
    ensures Route(routes, ctx, req, s) == Reply(NotFound, s)
  {
  }
}
