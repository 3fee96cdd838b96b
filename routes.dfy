/** The three routers (auth.route.ts, book.route.ts, genre.route.ts) as tables of
    (verb, path pattern, middleware chain, handler), mounted under /api/auth, /api/books and
    /api/genres, and the dispatch that runs a matched route's chain before its handler. */
module Routes {
  import opened Common
  import opened Jwt
  import VerifyToken
  import VerifyUserRole

  datatype Verb = GET | POST | PUT | DELETE

  /** A path segment of a route pattern: literal text, or a parameter such as `:slug`. */
  datatype Segment = Lit(text: string) | Param(name: string)

  datatype Middleware = VerifyTokenStep | VerifyUserRoleStep

  datatype Handler =
    | CheckAuth | TotalUsers | TotalAdmins | Signup | Login | Logout
    | VerifyEmail | ForgotPassword | ResetPassword
    | GetAllBooks | GetSingleBook | CreateBook | UpdateBook | DeleteBook
    | GetAllGenres | GetSingleGenre | CreateGenre

  datatype Route = Route(verb: Verb, pattern: seq<Segment>, chain: seq<Middleware>, handler: Handler)

  const AuthRoutes: seq<Route> := [
    Route(GET, [Lit("check-auth")], [VerifyTokenStep], CheckAuth),
    Route(GET, [Lit("users")], [VerifyTokenStep], TotalUsers),
    Route(GET, [Lit("admins")], [VerifyTokenStep], TotalAdmins),
    Route(POST, [Lit("signup")], [], Signup),
    Route(POST, [Lit("login")], [], Login),
    Route(POST, [Lit("logout")], [], Logout),
    Route(POST, [Lit("verify-email")], [], VerifyEmail),
    Route(POST, [Lit("forgot-password")], [], ForgotPassword),
    Route(POST, [Lit("reset-password"), Param("token")], [], ResetPassword)
  ]

  const BookRoutes: seq<Route> := [
    Route(GET, [], [], GetAllBooks),
    Route(GET, [Param("slug")], [], GetSingleBook),
    Route(POST, [Lit("create-book")], [VerifyTokenStep, VerifyUserRoleStep], CreateBook),
    Route(PUT, [Lit("update-book"), Param("id")], [VerifyTokenStep, VerifyUserRoleStep], UpdateBook),
    Route(DELETE, [Lit("delete-book"), Param("id")], [VerifyTokenStep, VerifyUserRoleStep], DeleteBook)
  ]

  const GenreRoutes: seq<Route> := [
    Route(GET, [], [], GetAllGenres),
    Route(GET, [Param("slug")], [], GetSingleGenre),
    Route(POST, [Lit("create-genre")], [VerifyTokenStep, VerifyUserRoleStep], CreateGenre)
  ]

  /** The router mounted at `/api/<name>`. */
  function Router(name: string): Option<seq<Route>>
  {
    if name == "auth" then Some(AuthRoutes)
    else if name == "books" then Some(BookRoutes)
    else if name == "genres" then Some(GenreRoutes)
    else None
  }

  /** A request: its verb, its path split into non-empty segments, and its cookies. */
  datatype HttpRequest = HttpRequest(verb: Verb, path: seq<string>, cookies: map<string, Token>)

  /** Matches a pattern against the path segments, binding each parameter to its segment. */
  function Bind(pattern: seq<Segment>, path: seq<string>): (r: Option<map<string, string>>)
    ensures r.Some? ==> |pattern| == |path|
    ensures r.Some? ==> forall i :: 0 <= i < |pattern| && pattern[i].Param? ==> pattern[i].name in r.value
  {
    if pattern == [] || path == [] then
      if pattern == [] && path == [] then Some(map[]) else None
    else
      match Bind(pattern[1..], path[1..])
      case None => None
      case Some(rest) =>
        match pattern[0]
        case Lit(text) => if text == path[0] then Some(rest) else None
        case Param(name) => if path[0] != "" then Some(rest[name := path[0]]) else None
  }

  /** Express tries the routes in registration order and takes the first whose verb and pattern match. */
  function FirstMatch(routes: seq<Route>, verb: Verb, path: seq<string>): (r: Option<(Route, map<string, string>)>)
    ensures r.Some? ==> r.value.0 in routes && r.value.0.verb == verb && Bind(r.value.0.pattern, path) == Some(r.value.1)
  {
    if routes == [] then None
    else if routes[0].verb == verb && Bind(routes[0].pattern, path).Some? then
      Some((routes[0], Bind(routes[0].pattern, path).value))
    else FirstMatch(routes[1..], verb, path)
  }

  /** What the handler finds on the request: the claims verifyToken attached ("" when none ran). */
  datatype Ctx = Ctx(userId: string, userRole: string)

  datatype ChainResult = Reached(ctx: Ctx) | Stopped(status: nat, message: string)

  /** Runs the middlewares in order; the first one that answers ends the request. */
  function RunChain(chain: seq<Middleware>, cookies: map<string, Token>, env: Env, nowMs: nat, ctx: Ctx): ChainResult
  {
    if chain == [] then Reached(ctx)
    else
      match chain[0]
      case VerifyTokenStep =>
        (match VerifyToken.Check(cookies, env, nowMs)
         case Pass(userId, userRole) => RunChain(chain[1..], cookies, env, nowMs, Ctx(userId, userRole))
         case Stop(status, message) => Stopped(status, message))
      case VerifyUserRoleStep =>
        (match VerifyUserRole.VerifyUserRole(ctx.userRole)
         case Next => RunChain(chain[1..], cookies, env, nowMs, ctx)
         case Respond(status, message) => Stopped(status, message))
  }

  datatype Dispatched =
    | NoRoute
    | Blocked(status: nat, message: string)
    | Handled(handler: Handler, ctx: Ctx, params: map<string, string>)

  /** The whole server for one request: pick the router by mount point, the route by first match,
      then run its chain and, if every middleware calls `next()`, its handler. */
  function Dispatch(req: HttpRequest, env: Env, nowMs: nat): Dispatched
  {
    if |req.path| < 2 || req.path[0] != "api" then NoRoute
    else
      match Router(req.path[1])
      case None => NoRoute
      case Some(routes) =>
        match FirstMatch(routes, req.verb, req.path[2..])
        case None => NoRoute
        case Some((route, params)) =>
          match RunChain(route.chain, req.cookies, env, nowMs, Ctx("", ""))
          case Stopped(status, message) => Blocked(status, message)
          case Reached(ctx) => Handled(route.handler, ctx, params)
  }

  predicate MutatesCatalog(h: Handler)
  {
    h == CreateBook || h == UpdateBook || h == DeleteBook || h == CreateGenre
  }

  /** Every registered route that reaches a catalog-mutating handler runs verifyToken and then verifyUserRole first. */
  lemma MutatingRoutesAreGuarded(name: string, route: Route)
    requires Router(name).Some? && route in Router(name).value && MutatesCatalog(route.handler)
    ensures route.chain == [VerifyTokenStep, VerifyUserRoleStep]
  {
  }

  /** Running verifyToken then verifyUserRole gets through only with a token carrying the admin role. */
  lemma AdminChainAdmitsOnlyAdmins(cookies: map<string, Token>, env: Env, nowMs: nat, ctx: Ctx)
    requires RunChain([VerifyTokenStep, VerifyUserRoleStep], cookies, env, nowMs, ctx).Reached?
    ensures VerifyToken.Check(cookies, env, nowMs).Pass?
    ensures VerifyToken.Check(cookies, env, nowMs).userRole == "admin"
    ensures RunChain([VerifyTokenStep, VerifyUserRoleStep], cookies, env, nowMs, ctx).ctx
            == Ctx(VerifyToken.Check(cookies, env, nowMs).userId, "admin")
  {
    var check := VerifyToken.Check(cookies, env, nowMs);
    assert [VerifyTokenStep, VerifyUserRoleStep][1..] == [VerifyUserRoleStep];
    assert [VerifyUserRoleStep][1..] == [];
    if check.Pass? {
      var after := Ctx(check.userId, check.userRole);
      assert RunChain([VerifyTokenStep, VerifyUserRoleStep], cookies, env, nowMs, ctx)
             == RunChain([VerifyUserRoleStep], cookies, env, nowMs, after);
      if VerifyUserRole.VerifyUserRole(check.userRole).Next? {
        assert RunChain([VerifyUserRoleStep], cookies, env, nowMs, after) == Reached(after);
      }
    }
  }

  /** The composed property: a request reaches createBook, updateBook, deleteBook or createGenre only
      if its `token` cookie verifies under the secret to claims whose role is "admin". */
  lemma OnlyAdminsMutateCatalog(req: HttpRequest, env: Env, nowMs: nat)
    requires Dispatch(req, env, nowMs).Handled? && MutatesCatalog(Dispatch(req, env, nowMs).handler)
    ensures VerifyToken.HasToken(req.cookies)
    ensures VerifyToken.Check(req.cookies, env, nowMs).Pass?
    ensures VerifyToken.Check(req.cookies, env, nowMs).userRole == "admin"
    ensures Dispatch(req, env, nowMs).ctx.userRole == "admin"
  {
    var routes := Router(req.path[1]).value;
    var (route, params) := FirstMatch(routes, req.verb, req.path[2..]).value;
    MutatingRoutesAreGuarded(req.path[1], route);
    AdminChainAdmitsOnlyAdmins(req.cookies, env, nowMs, Ctx("", ""));
  }

  /** A request without a token cookie never reaches a catalog-mutating handler. */
  lemma NoCookieNoMutation(req: HttpRequest, env: Env, nowMs: nat)
    requires !VerifyToken.HasToken(req.cookies)
    ensures !(Dispatch(req, env, nowMs).Handled? && MutatesCatalog(Dispatch(req, env, nowMs).handler))
  {
    if Dispatch(req, env, nowMs).Handled? && MutatesCatalog(Dispatch(req, env, nowMs).handler) {
      OnlyAdminsMutateCatalog(req, env, nowMs);
    }
  }

  /** A route matches first exactly when it matches and no earlier route of the same verb does. */
  lemma {:induction false} FirstMatchAt(routes: seq<Route>, i: nat, verb: Verb, path: seq<string>)
    requires i < |routes| && routes[i].verb == verb && Bind(routes[i].pattern, path).Some?
    requires forall j :: 0 <= j < i ==> routes[j].verb != verb || Bind(routes[j].pattern, path).None?
    ensures FirstMatch(routes, verb, path) == Some((routes[i], Bind(routes[i].pattern, path).value))
  {
    if i > 0 {
      assert routes[0].verb != verb || Bind(routes[0].pattern, path).None?;
      FirstMatchAt(routes[1..], i - 1, verb, path);
    }
  }

  /** Running verifyToken alone passes the gate's claims on, or stops with its answer. */
  lemma TokenChain(cookies: map<string, Token>, env: Env, nowMs: nat, ctx: Ctx)
    ensures var check := VerifyToken.Check(cookies, env, nowMs);
            RunChain([VerifyTokenStep], cookies, env, nowMs, ctx)
            == if check.Pass? then Reached(Ctx(check.userId, check.userRole)) else Stopped(check.status, check.message)
  {
    assert [VerifyTokenStep][1..] == [];
  }

  /** The session routes of /api/auth run verifyToken only: checkAuth sees the verified claims, and
      any valid session, admin or not, reaches the user and admin listings. */
  lemma SessionRoutesNeedOnlyAToken(name: string, cookies: map<string, Token>, env: Env, nowMs: nat)
    requires name == "check-auth" || name == "users" || name == "admins"
    requires VerifyToken.Check(cookies, env, nowMs).Pass?
    ensures var check := VerifyToken.Check(cookies, env, nowMs);
            Dispatch(HttpRequest(GET, ["api", "auth", name], cookies), env, nowMs)
            == Handled(if name == "check-auth" then CheckAuth else if name == "users" then TotalUsers else TotalAdmins,
                       Ctx(check.userId, check.userRole), map[])
  {
    var path := ["api", "auth", name];
    assert path[2..] == [name];
    var i := if name == "check-auth" then 0 else if name == "users" then 1 else 2;
    FirstMatchAt(AuthRoutes, i, GET, [name]);
    TokenChain(cookies, env, nowMs, Ctx("", ""));
  }

  /** Without a valid session the session routes answer with the gate's response. */
  lemma SessionRoutesBlockedWithoutSession(name: string, cookies: map<string, Token>, env: Env, nowMs: nat)
    requires name == "check-auth" || name == "users" || name == "admins"
    requires VerifyToken.Check(cookies, env, nowMs).Stop?
    ensures var check := VerifyToken.Check(cookies, env, nowMs);
            Dispatch(HttpRequest(GET, ["api", "auth", name], cookies), env, nowMs) == Blocked(check.status, check.message)
  {
    var path := ["api", "auth", name];
    assert path[2..] == [name];
    var i := if name == "check-auth" then 0 else if name == "users" then 1 else 2;
    FirstMatchAt(AuthRoutes, i, GET, [name]);
    TokenChain(cookies, env, nowMs, Ctx("", ""));
  }

  /** In /api/auth only check-auth, users and admins run a middleware, and that middleware is
      verifyToken alone; signup, login, logout, verify-email, forgot-password and reset-password run none. */
  lemma AuthRouteGuards(route: Route)
    requires route in AuthRoutes
    ensures route.chain == [] <==> route.handler !in {CheckAuth, TotalUsers, TotalAdmins}
    ensures route.chain != [] ==> route.chain == [VerifyTokenStep]
  {
  }

  /** A matched route without middleware reaches its handler with nothing attached to the request. */
  lemma UnguardedRouteReachesHandler(req: HttpRequest, env: Env, nowMs: nat)
    requires |req.path| >= 2 && req.path[0] == "api" && Router(req.path[1]).Some?
    requires FirstMatch(Router(req.path[1]).value, req.verb, req.path[2..]).Some?
    requires FirstMatch(Router(req.path[1]).value, req.verb, req.path[2..]).value.0.chain == []
    ensures var (route, params) := FirstMatch(Router(req.path[1]).value, req.verb, req.path[2..]).value;
            Dispatch(req, env, nowMs) == Handled(route.handler, Ctx("", ""), params)
  {
  }

  /** reset-password is unguarded and hands its token over from the path. */
  lemma ResetTokenFromPath(token: string, cookies: map<string, Token>, env: Env, nowMs: nat)
    requires token != ""
    ensures Dispatch(HttpRequest(POST, ["api", "auth", "reset-password", token], cookies), env, nowMs)
            == Handled(ResetPassword, Ctx("", ""), map["token" := token])
  {
    var path := ["api", "auth", "reset-password", token];
    assert path[2..] == ["reset-password", token];
    forall j | 0 <= j < 8
      ensures Bind(AuthRoutes[j].pattern, ["reset-password", token]).None?
    {
      assert |AuthRoutes[j].pattern| == 1;
    }
    assert ["reset-password", token][1..] == [token] && [token][1..] == [];
    assert Bind([Param("token")], [token]) == Some(map["token" := token]);
    assert Bind(AuthRoutes[8].pattern, ["reset-password", token]) == Some(map["token" := token]);
    FirstMatchAt(AuthRoutes, 8, POST, ["reset-password", token]);
  }

  /** The catalog reads are public: GET / lists, GET /:slug fetches one, for books and for genres. */
  lemma CatalogReadsUnguarded(name: string, slug: string, cookies: map<string, Token>, env: Env, nowMs: nat)
    requires name == "books" || name == "genres"
    requires slug != ""
    ensures Dispatch(HttpRequest(GET, ["api", name], cookies), env, nowMs)
            == Handled(if name == "books" then GetAllBooks else GetAllGenres, Ctx("", ""), map[])
    ensures Dispatch(HttpRequest(GET, ["api", name, slug], cookies), env, nowMs)
            == Handled(if name == "books" then GetSingleBook else GetSingleGenre, Ctx("", ""), map["slug" := slug])
  {
    var path := ["api", name, slug];
    assert path[2..] == [slug];
    assert ["api", name][2..] == [];
    var routes := Router(name).value;
    FirstMatchAt(routes, 0, GET, []);
    FirstMatchAt(routes, 1, GET, [slug]);
  }
}
