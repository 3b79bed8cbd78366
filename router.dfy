/** router/router.go: the route table `SetupRoutes` registers on a `ServeMux`. Three
    patterns are registered: "/users" and "/login", which match only their own path, and
    "/users/", which matches every path below it and is wrapped in the token gate. A path no
    pattern matches gets the mux's 404. The result of routing is which handler runs, and
    with which context, or the answer given without running one. */
module Router {
  import opened Wrappers
  import opened Strings
  import opened AuthContext
  import Middleware
  import Jwt
  import Config
  import opened Repository
  import opened Handlers
  import opened Service
  import opened Http

  const MsgMethodNotAllowed: string := "許可されていないメソッドです"
  /** The text of `http.NotFound`. */
  const MsgNotFound: string := "404 page not found"

  const MethodGet: string := "GET"
  const MethodPost: string := "POST"
  const MethodPatch: string := "PATCH"
  const MethodDelete: string := "DELETE"

  /** What routing needs of a request: its method, its URL path, its Authorization header
      (`None` when absent) and its context. */
  datatype Request = Request(httpMethod: string, path: string, authorization: Option<string>, ctx: Context)

  /** The handler methods of `UserHandler`. */
  datatype Handler = CreateUser | GetUsers | GetUserByID | PatchUser | DeleteUser | Login

  /** Run a handler with a context, or answer without one. */
  datatype Dispatch = Run(handler: Handler, ctx: Context) | Answer(status: int, message: string)

  /** The registered pattern a path selects. */
  datatype Pattern = UsersPattern | UsersSubtreePattern | LoginPattern | NoPattern

  /** `ServeMux` matching for the three patterns: the exact paths first, then the subtree
      "/users/" for any path that starts with it. */
  function Match(path: string): (p: Pattern)
    ensures p == UsersPattern <==> path == "/users"
    ensures p == LoginPattern <==> path == "/login"
    ensures p == UsersSubtreePattern <==> HasPrefix(path, "/users/")
  {
    if path == "/users" then UsersPattern
    else if path == "/login" then LoginPattern
    else if HasPrefix(path, "/users/") then UsersSubtreePattern
    else NoPattern
  }

  /** `methodNotAllowedHandler` */
  function NotAllowed(): (d: Dispatch)
    ensures d.Answer? && d.status == StatusMethodNotAllowed && d.message == MsgMethodNotAllowed
  {
    Answer(StatusMethodNotAllowed, MsgMethodNotAllowed)
  }

  /** The "/users" handler: POST creates, GET lists, anything else is a 405. */
  function UsersRoute(httpMethod: string, ctx: Context): (d: Dispatch)
    ensures httpMethod == MethodPost ==> d == Run(CreateUser, ctx)
    ensures httpMethod == MethodGet ==> d == Run(GetUsers, ctx)
    ensures httpMethod != MethodPost && httpMethod != MethodGet ==> d == NotAllowed()
  {
    if httpMethod == MethodPost then Run(CreateUser, ctx)
    else if httpMethod == MethodGet then Run(GetUsers, ctx)
    else NotAllowed()
  }

  /** `protectedHandler`: GET reads, PATCH updates, DELETE removes, anything else is a
      405. */
  function ProtectedRoute(httpMethod: string, ctx: Context): (d: Dispatch)
    ensures httpMethod == MethodGet ==> d == Run(GetUserByID, ctx)
    ensures httpMethod == MethodPatch ==> d == Run(PatchUser, ctx)
    ensures httpMethod == MethodDelete ==> d == Run(DeleteUser, ctx)
    ensures httpMethod != MethodGet && httpMethod != MethodPatch && httpMethod != MethodDelete ==> d == NotAllowed()
  {
    if httpMethod == MethodGet then Run(GetUserByID, ctx)
    else if httpMethod == MethodPatch then Run(PatchUser, ctx)
    else if httpMethod == MethodDelete then Run(DeleteUser, ctx)
    else NotAllowed()
  }

  /** The "/login" handler: POST only. */
  function LoginRoute(httpMethod: string, ctx: Context): (d: Dispatch)
    ensures httpMethod == MethodPost ==> d == Run(Login, ctx)
    ensures httpMethod != MethodPost ==> d == NotAllowed()
  {
    if httpMethod == MethodPost then Run(Login, ctx) else NotAllowed()
  }

  /** The mux `SetupRoutes` returns, serving one request at time `now`: "/users/…" goes
      through `JTWMiddleware(protectedHandler)`, whose refusal is the answer and whose
      context is the one the protected handler runs with; "/users" and "/login" run their
      handler with the request's own context. */
  function Serve(lib: Jwt.Library, cfg: Config.Settings, now: int, req: Request): (d: Dispatch)
    ensures Match(req.path) == NoPattern ==> d == Answer(StatusNotFound, MsgNotFound)
    ensures Match(req.path) == UsersPattern ==> d == UsersRoute(req.httpMethod, req.ctx)
    ensures Match(req.path) == LoginPattern ==> d == LoginRoute(req.httpMethod, req.ctx)
    ensures Match(req.path) == UsersSubtreePattern ==>
      match Middleware.JTWMiddleware(lib, cfg, now, req.authorization, req.ctx)
      case Reject(status, message) => d == Answer(status, message)
      case Next(ctx) => d == ProtectedRoute(req.httpMethod, ctx)
  {
    match Match(req.path)
    case UsersPattern => UsersRoute(req.httpMethod, req.ctx)
    case LoginPattern => LoginRoute(req.httpMethod, req.ctx)
    case NoPattern => Answer(StatusNotFound, MsgNotFound)
    case UsersSubtreePattern =>
      match Middleware.JTWMiddleware(lib, cfg, now, req.authorization, req.ctx)
      case Reject(status, message) => Answer(status, message)
      case Next(ctx) => ProtectedRoute(req.httpMethod, ctx)
  }

  /** Only the "/users/" subtree is gated: whenever `GetUserByID`, `PatchUser` or
      `DeleteUser` runs, the path is below "/users/", the gate let the request through, and
      the handler's context carries the token's subject as the user id. */
  lemma ProtectedHandlersRunOnlyBehindGate(lib: Jwt.Library, cfg: Config.Settings, now: int, req: Request)
    requires Serve(lib, cfg, now, req).Run?
    requires Serve(lib, cfg, now, req).handler in {GetUserByID, PatchUser, DeleteUser}
    ensures HasPrefix(req.path, "/users/")
    ensures Middleware.JTWMiddleware(lib, cfg, now, req.authorization, req.ctx).Next?
    ensures Serve(lib, cfg, now, req).ctx == Middleware.JTWMiddleware(lib, cfg, now, req.authorization, req.ctx).ctx
    ensures GetUserID(Serve(lib, cfg, now, req).ctx).1
  {
  }

  /** The gate runs before the method switch: a request below "/users/" with a method the
      protected handler does not serve and no Authorization header is a 401, not a 405. */
  lemma UnauthenticatedUnsupportedMethod(lib: Jwt.Library, cfg: Config.Settings, now: int, req: Request)
    requires HasPrefix(req.path, "/users/") && req.authorization.None?
    requires req.httpMethod !in {MethodGet, MethodPatch, MethodDelete}
    ensures Serve(lib, cfg, now, req) == Answer(StatusUnauthorized, "Authorization header is required")
    ensures ProtectedRoute(req.httpMethod, req.ctx) == NotAllowed()
  {
  }

  /** "/users" and "/login" are never gated: what they do does not depend on the
      Authorization header, the token library, the configuration or the clock. */
  lemma UngatedRoutesIgnoreHeader(lib: Jwt.Library, lib': Jwt.Library, cfg: Config.Settings, cfg': Config.Settings,
                                  now: int, now': int, req: Request, authorization: Option<string>)
    requires req.path == "/users" || req.path == "/login"
    ensures Serve(lib, cfg, now, req) == Serve(lib', cfg', now', req.(authorization := authorization))
    ensures Serve(lib, cfg, now, req).Run? ==> Serve(lib, cfg, now, req).ctx == req.ctx
  {
  }

  /** The whole table for a request that passes the gate (or needs none): each
      (pattern, method) pair and the handler it runs. */
  lemma RouteTable(lib: Jwt.Library, cfg: Config.Settings, now: int, req: Request)
    requires Match(req.path) == UsersSubtreePattern ==>
      Middleware.JTWMiddleware(lib, cfg, now, req.authorization, req.ctx).Next?
    ensures req.path == "/users" && req.httpMethod == MethodPost ==> Serve(lib, cfg, now, req) == Run(CreateUser, req.ctx)
    ensures req.path == "/users" && req.httpMethod == MethodGet ==> Serve(lib, cfg, now, req) == Run(GetUsers, req.ctx)
    ensures req.path == "/login" && req.httpMethod == MethodPost ==> Serve(lib, cfg, now, req) == Run(Login, req.ctx)
    ensures req.path == "/login" && req.httpMethod != MethodPost ==> Serve(lib, cfg, now, req) == NotAllowed()
    ensures HasPrefix(req.path, "/users/") && req.httpMethod == MethodGet ==> Serve(lib, cfg, now, req).handler == GetUserByID
    ensures HasPrefix(req.path, "/users/") && req.httpMethod == MethodPatch ==> Serve(lib, cfg, now, req).handler == PatchUser
    ensures HasPrefix(req.path, "/users/") && req.httpMethod == MethodDelete ==> Serve(lib, cfg, now, req).handler == DeleteUser
    ensures HasPrefix(req.path, "/users/") && req.httpMethod !in {MethodGet, MethodPatch, MethodDelete} ==>
      Serve(lib, cfg, now, req) == NotAllowed()
  {
  }

  /** The request body as each handler would decode it: `None` where it does not decode
      as that handler's request type. */
  datatype Payload = Payload(
    asCreateUser: Option<CreateUserRequest>,
    asPatch: Option<PatchRequest>,
    asLogin: Option<LoginRequest>)

  /** `http.Error(w, message, status)`: the message as plain text, with a newline. */
  function PlainError(status: int, message: string): (r: Response)
    ensures r.status == status && r.body.PlainBody?
    ensures |r.body.text| == |message| + 1 && r.body.text[..|message|] == message
    ensures r.body.text[|message|] == '\n'
  {
    Response(status, PlainBody(message + "\n"))
  }

  /** The mux serving one request with the handlers of `h`. An answer given without a
      handler (404, 405, or the gate's 401) changes nothing; the read-only handlers change
      nothing; the protected handlers act on the id in the path whatever the token's
      subject is, so any authenticated user can update or delete any user. */
  method ServeHTTP(h: UserHandler, lib: Jwt.Library, cfg: Config.Settings, hasher: Hasher, now: int,
                   req: Request, query: map<string, string>, body: Payload)
    returns (resp: Response)
    requires h.userService.repo.Valid()
    modifies h.userService.repo
    ensures h.userService.repo.Valid()
    ensures Serve(lib, cfg, now, req).Answer? ==>
      && resp == PlainError(Serve(lib, cfg, now, req).status, Serve(lib, cfg, now, req).message)
      && unchanged(h.userService.repo)
    ensures Serve(lib, cfg, now, req).Run? && Serve(lib, cfg, now, req).handler in {GetUsers, GetUserByID, Login} ==>
      unchanged(h.userService.repo)
    ensures Serve(lib, cfg, now, req).Run? && Serve(lib, cfg, now, req).handler == GetUsers ==>
      resp == Response(StatusOK, UsersBody(h.userService.repo.Page(Limit(query), Offset(query))))
    ensures
      && Serve(lib, cfg, now, req).Run? && Serve(lib, cfg, now, req).handler == DeleteUser
      && ParseID(req.path).Proceed? && ParseID(req.path).arg in old(h.userService.repo.rows)
      ==>
        && resp == Response(StatusNoContent, NoBody)
        && h.userService.repo.rows == old(h.userService.repo.rows) - {ParseID(req.path).arg}
        && h.userService.repo.nextId == old(h.userService.repo.nextId)
    ensures
      && Serve(lib, cfg, now, req).Run? && Serve(lib, cfg, now, req).handler == PatchUser
      && PatchUserRequestPhase(req.path, body.asPatch).Proceed?
      && PatchUserRequestPhase(req.path, body.asPatch).arg.0 !in old(h.userService.repo.rows)
      ==>
        resp == ErrorReply(StatusInternalServerError, MsgPatchFailed) && unchanged(h.userService.repo)
    ensures
      && Serve(lib, cfg, now, req).Run? && Serve(lib, cfg, now, req).handler == PatchUser
      && PatchUserRequestPhase(req.path, body.asPatch).Reply?
      ==>
        resp == PatchUserRequestPhase(req.path, body.asPatch).response && unchanged(h.userService.repo)
    ensures
      && Serve(lib, cfg, now, req).Run? && Serve(lib, cfg, now, req).handler == PatchUser
      && PatchUserRequestPhase(req.path, body.asPatch).Proceed?
      && PatchUserRequestPhase(req.path, body.asPatch).arg.0 in old(h.userService.repo.rows)
      ==>
        var (id, name, email) := PatchUserRequestPhase(req.path, body.asPatch).arg;
        var row := Merge(old(h.userService.repo.rows)[id], name, email);
        && resp == Response(StatusOK, UserBody(Listed(id, row)))
        && h.userService.repo.rows == old(h.userService.repo.rows)[id := row]
        && h.userService.repo.nextId == old(h.userService.repo.nextId)
    ensures
      && Serve(lib, cfg, now, req).Run? && Serve(lib, cfg, now, req).handler == DeleteUser
      && ParseID(req.path).Reply?
      ==>
        resp == ParseID(req.path).response && unchanged(h.userService.repo)
    ensures
      && Serve(lib, cfg, now, req).Run? && Serve(lib, cfg, now, req).handler == DeleteUser
      && ParseID(req.path).Proceed? && ParseID(req.path).arg !in old(h.userService.repo.rows)
      ==>
        resp == ErrorReply(StatusNotFound, MsgUserNotFound) && unchanged(h.userService.repo)
    ensures
      && Serve(lib, cfg, now, req).Run? && Serve(lib, cfg, now, req).handler == GetUserByID
      ==>
        && (ParseID(req.path).Reply? ==> resp == ParseID(req.path).response)
        && (ParseID(req.path).Proceed? && ParseID(req.path).arg !in h.userService.repo.rows ==>
              resp == ErrorReply(StatusNotFound, MsgUserNotFound))
        && (ParseID(req.path).Proceed? && ParseID(req.path).arg in h.userService.repo.rows ==>
              resp == Response(StatusOK, UserBody(Listed(ParseID(req.path).arg, h.userService.repo.rows[ParseID(req.path).arg]))))
    ensures
      && Serve(lib, cfg, now, req).Run? && Serve(lib, cfg, now, req).handler == CreateUser
      ==>
        && (body.asCreateUser.None? ==>
              resp == ErrorReply(StatusBadRequest, MsgInvalidBody) && unchanged(h.userService.repo))
        && (body.asCreateUser.Some? ==>
              var cr := body.asCreateUser.value;
              var user := User(0, cr.name, cr.email, "", 0);
              && (!ValidUser(user) || cr.password == "" ==>
                    resp == ErrorReply(StatusBadRequest, MsgInvalidInput) && unchanged(h.userService.repo))
              && (ValidUser(user) && cr.password != "" && hasher.hash(cr.password).Failure? ==>
                    resp == ErrorReply(StatusInternalServerError, MsgCreateFailed) && unchanged(h.userService.repo))
              && (ValidUser(user) && cr.password != "" && hasher.hash(cr.password).Success? ==>
                    var row := Row(cr.name, cr.email, hasher.hash(cr.password).value, now);
                    && resp == Response(StatusCreated, UserBody(Full(old(h.userService.repo.nextId), row)))
                    && h.userService.repo.rows == old(h.userService.repo.rows)[old(h.userService.repo.nextId) := row]
                    && h.userService.repo.nextId == old(h.userService.repo.nextId) + 1))
    ensures
      && Serve(lib, cfg, now, req).Run? && Serve(lib, cfg, now, req).handler == Login
      ==>
        var rows := h.userService.repo.rows;
        && (body.asLogin.None? ==> resp == ErrorReply(StatusBadRequest, MsgInvalidBody))
        && (body.asLogin.Some? && !HasEmail(rows, body.asLogin.value.email) ==>
              resp == ErrorReply(StatusUnauthorized, MsgAuthFailed))
        && ((body.asLogin.Some? && HasEmail(rows, body.asLogin.value.email) &&
              (forall id :: id in rows && rows[id].email == body.asLogin.value.email ==>
                !hasher.compare(rows[id].passwordHash, body.asLogin.value.password)))
              ==> resp == ErrorReply(StatusUnauthorized, MsgAuthFailed))
        && ((body.asLogin.Some? && HasEmail(rows, body.asLogin.value.email) &&
              (forall id :: id in rows && rows[id].email == body.asLogin.value.email ==>
                && hasher.compare(rows[id].passwordHash, body.asLogin.value.password)
                && Jwt.GenerateToken(lib, cfg, now, id).Success?))
              ==> resp.status == StatusOK)
        && ((body.asLogin.Some? && HasEmail(rows, body.asLogin.value.email) &&
              (forall id :: id in rows && rows[id].email == body.asLogin.value.email ==>
                && hasher.compare(rows[id].passwordHash, body.asLogin.value.password)
                && Jwt.GenerateToken(lib, cfg, now, id).Failure?))
              ==> resp == ErrorReply(StatusInternalServerError, MsgTokenFailed))
        && (resp.status == StatusOK ==>
              && body.asLogin.Some?
              && (exists id :: id in rows && rows[id].email == body.asLogin.value.email
                   && hasher.compare(rows[id].passwordHash, body.asLogin.value.password)
                   && Jwt.GenerateToken(lib, cfg, now, id).Success?
                   && resp.body == TokenBody(Jwt.GenerateToken(lib, cfg, now, id).value)))
  {
    match Serve(lib, cfg, now, req)
    case Answer(status, message) =>
      resp := PlainError(status, message);
    case Run(handler, _) =>
      match handler
      case CreateUser =>
        resp := h.CreateUser(body.asCreateUser, hasher, now);
      case GetUsers =>
        resp := h.GetUsers(query);
      case GetUserByID =>
        resp := h.GetUserByID(req.path);
      case PatchUser =>
        resp := h.PatchUser(req.path, body.asPatch);
      case DeleteUser =>
        resp := h.DeleteUser(req.path);
      case Login =>
        resp := h.Login(body.asLogin, hasher, lib, cfg, now);
  }
}
