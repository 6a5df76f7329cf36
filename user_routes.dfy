/** The user router: which middleware chain guards which handler, and how a
    chain decides a request before the handler runs. */
module UserRoutes {
  import opened Common
  import opened UserModel
  import opened UserAuth

  datatype Middleware =
    | RequestLogger
    | LoginRateLimiter
    | IsAuthenticatedGate
    | AuthorizeRoleGate(requiredRole: string)

  datatype Handler =
    | LoginUser | CreateUser | GetAllUsers | LogoutUser | GetUserById
    | UpdateUser | DeleteUser | AssignRole | ChangePassword

  datatype Verb = Get | Post | Put | Patch | Delete

  datatype Route = Route(verb: Verb, path: string, chain: seq<Middleware>, handler: Handler)

  /** What the middleware sees of a request: the session's user id and, for
      the rate limiter, how many login attempts the client has made in the
      current window (this one included). */
  datatype RequestState = RequestState(sessionUserId: Option<string>, loginAttempts: nat)

  const AdminChain := [IsAuthenticatedGate, AuthorizeRoleGate("admin")]

  /** `router.use(requestLogger)`: runs before every route's own chain. */
  const RouterChain := [RequestLogger]

  /** The route table, in registration order. */
  const Routes: seq<Route> := [
    Route(Post, "/users/login", [LoginRateLimiter], LoginUser),
    Route(Post, "/users", AdminChain, CreateUser),
    Route(Get, "/users", AdminChain, GetAllUsers),
    Route(Post, "/logout", [IsAuthenticatedGate], LogoutUser),
    Route(Get, "/users/:id", AdminChain, GetUserById),
    Route(Put, "/users/:id", AdminChain, UpdateUser),
    Route(Delete, "/users/:id", AdminChain, DeleteUser),
    Route(Patch, "/users/:id/role", AdminChain, AssignRole),
    Route(Patch, "/users/:id/password", [IsAuthenticatedGate], ChangePassword)
  ]

  predicate IsAdminHandler(handler: Handler) {
    handler in {CreateUser, GetAllUsers, GetUserById, UpdateUser, DeleteUser, AssignRole}
  }

  /** One middleware's decision. The logger only logs. */
  function Step(m: Middleware, req: RequestState, users: map<Id, User>): Gate {
    match m
    case RequestLogger => Next
    case LoginRateLimiter => LoginRateLimit(req.loginAttempts)
    case IsAuthenticatedGate => IsAuthenticated(req.sessionUserId)
    case AuthorizeRoleGate(role) => AuthorizeRole(role, req.sessionUserId, users)
  }

  /** Running a chain: the first middleware that answers decides the reply;
      the handler is reached only when every middleware calls `next()`. */
  function RunChain(chain: seq<Middleware>, req: RequestState, users: map<Id, User>): (g: Gate)
    ensures g.Next? <==> forall i :: 0 <= i < |chain| ==> Step(chain[i], req, users).Next?
    ensures g.Halt? ==>
      exists i :: 0 <= i < |chain| && g == Step(chain[i], req, users)
                  && forall j :: 0 <= j < i ==> Step(chain[j], req, users).Next?
  {
    if chain == [] then Next
    else
      var first := Step(chain[0], req, users);
      if first.Halt? then first
      else
        var g := RunChain(chain[1..], req, users);
        assert forall i :: 1 <= i < |chain| ==> chain[i] == chain[1..][i - 1];
        if g.Halt? then
          var i :| 0 <= i < |chain[1..]| && g == Step(chain[1..][i], req, users)
                   && forall j :: 0 <= j < i ==> Step(chain[1..][j], req, users).Next?;
          assert forall j :: 0 <= j < i + 1 ==> Step(chain[j], req, users).Next? by {
            forall j | 0 <= j < i + 1 ensures Step(chain[j], req, users).Next? {
              if j > 0 { assert chain[j] == chain[1..][j - 1]; }
            }
          }
          g
        else
          g
  }

  /** The chain a request to a route goes through: the router-wide logger,
      then the route's own middleware. */
  function FullChain(r: Route): seq<Middleware> {
    RouterChain + r.chain
  }

  /** Every handler has exactly one route. */
  lemma EachHandlerRoutedOnce(handler: Handler)
    ensures exists i :: 0 <= i < |Routes| && Routes[i].handler == handler
    ensures forall i, j :: 0 <= i < j < |Routes| ==> Routes[i].handler != Routes[j].handler
  {
    match handler
    case LoginUser => assert Routes[0].handler == handler;
    case CreateUser => assert Routes[1].handler == handler;
    case GetAllUsers => assert Routes[2].handler == handler;
    case LogoutUser => assert Routes[3].handler == handler;
    case GetUserById => assert Routes[4].handler == handler;
    case UpdateUser => assert Routes[5].handler == handler;
    case DeleteUser => assert Routes[6].handler == handler;
    case AssignRole => assert Routes[7].handler == handler;
    case ChangePassword => assert Routes[8].handler == handler;
  }

  /** Every admin handler runs `isAuthenticated` and then
      `authorizeRole('admin')`; the password change and logout run
      `isAuthenticated` alone; login runs only the rate limiter. */
  lemma RouteGuards()
    ensures forall i :: 0 <= i < |Routes| && IsAdminHandler(Routes[i].handler) ==> Routes[i].chain == AdminChain
    ensures forall i :: 0 <= i < |Routes| && Routes[i].handler in {ChangePassword, LogoutUser} ==>
                          Routes[i].chain == [IsAuthenticatedGate]
    ensures forall i :: 0 <= i < |Routes| && Routes[i].handler == LoginUser ==> Routes[i].chain == [LoginRateLimiter]
    ensures forall i :: 0 <= i < |Routes| ==> (IsAuthenticatedGate in Routes[i].chain <==> Routes[i].handler != LoginUser)
  {
    forall i | 0 <= i < |Routes|
      ensures IsAdminHandler(Routes[i].handler) ==> Routes[i].chain == AdminChain
      ensures Routes[i].handler in {ChangePassword, LogoutUser} ==> Routes[i].chain == [IsAuthenticatedGate]
      ensures Routes[i].handler == LoginUser ==> Routes[i].chain == [LoginRateLimiter]
      ensures IsAuthenticatedGate in Routes[i].chain <==> Routes[i].handler != LoginUser
    {
      var r := Routes[i];
      assert r.handler == LoginUser <==> i == 0;
      assert r.handler in {ChangePassword, LogoutUser} <==> i == 3 || i == 8;
      assert r.chain == [LoginRateLimiter] || r.chain == AdminChain || r.chain == [IsAuthenticatedGate];
    }
  }

  /** The admin chain lets a request through exactly when the session user
      is in the store with role "admin". It answers 401 (from
      `isAuthenticated`, so `authorizeRole`'s own 401 is never reached)
      without a session user, then 404 for a user no longer in the store,
      then 403 for any other role. */
  lemma AdminRouteDecision(i: nat, req: RequestState, users: map<Id, User>)
    requires i < |Routes| && IsAdminHandler(Routes[i].handler)
    ensures var g := RunChain(FullChain(Routes[i]), req, users);
      && (g.Next? <==> Truthy(req.sessionUserId) && req.sessionUserId.value in users
                       && users[req.sessionUserId.value].role == "admin")
      && (!Truthy(req.sessionUserId) ==> g == Halt(UnauthorizedReply))
      && (Truthy(req.sessionUserId) && req.sessionUserId.value !in users ==> g == Halt(UserNotFoundReply))
      && ((Truthy(req.sessionUserId) && req.sessionUserId.value in users
           && users[req.sessionUserId.value].role != "admin") ==> g == Halt(ForbiddenReply))
  {
    RouteGuards();
    var chain := FullChain(Routes[i]);
    assert chain == [RequestLogger, IsAuthenticatedGate, AuthorizeRoleGate("admin")];
    assert Step(chain[0], req, users) == Next;
    assert Step(chain[1], req, users) == IsAuthenticated(req.sessionUserId);
    assert Step(chain[2], req, users) == AuthorizeRole("admin", req.sessionUserId, users);
    assert chain[1..] == AdminChain;
    assert AdminChain[1..] == [AuthorizeRoleGate("admin")];
    assert [AuthorizeRoleGate("admin")][1..] == [];
  }

  /** The password-change and logout chains pass exactly the requests whose
      session carries a user id; anything else is answered 401. */
  lemma SessionRouteDecision(i: nat, req: RequestState, users: map<Id, User>)
    requires i < |Routes| && Routes[i].handler in {ChangePassword, LogoutUser}
    ensures var g := RunChain(FullChain(Routes[i]), req, users);
      && (g.Next? <==> Truthy(req.sessionUserId))
      && (g.Halt? ==> g == Halt(UnauthorizedReply))
  {
    RouteGuards();
    var chain := FullChain(Routes[i]);
    assert chain[1..] == [IsAuthenticatedGate];
    assert [IsAuthenticatedGate][1..] == [];
  }

  /** The login chain ignores the session altogether: it passes exactly the
      first five attempts of a window and answers the rest 429. */
  lemma LoginRouteDecision(i: nat, req: RequestState, users: map<Id, User>)
    requires i < |Routes| && Routes[i].handler == LoginUser
    ensures var g := RunChain(FullChain(Routes[i]), req, users);
      && (g.Next? <==> req.loginAttempts <= MaxLoginAttempts)
      && (g.Halt? ==> g == Halt(TooManyAttemptsReply))
  {
    RouteGuards();
    var chain := FullChain(Routes[i]);
    assert chain[1..] == [LoginRateLimiter];
    assert [LoginRateLimiter][1..] == [];
  }
}
