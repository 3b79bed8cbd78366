/** handlers/user_handler.go: what each handler answers. A handler works in two phases:
    it first reads the request (the id in the path, the query, the decoded JSON body) and
    either answers at once or calls the service with the arguments it read; it then turns
    the service's result into a status and a body. Each phase is a function here: the
    request phase returns a `Decision`, the reply phase a `Response`. JSON decoding is given
    as its outcome (`None` when the body does not decode); encoding is left as the value
    that would be encoded. */
module Handlers {
  import opened Wrappers
  import opened Errors
  import opened Strconv
  import opened Strings
  import opened Repository
  import Jwt
  import Config
  import opened Service
  import opened Http

  const MsgInvalidBody: string := "無効なリクエストボディ"
  const MsgInvalidInput: string := "入力値が不正です"
  const MsgCreateFailed: string := "ユーザー作成に失敗しました"
  const MsgIdRequired: string := "IDは必要です"
  const MsgIdNotNumeric: string := "IDは数値である必要があります"
  const MsgGetFailed: string := "ユーザー取得時にエラーが発生しました"
  const MsgUserNotFound: string := "ユーザーが見つかりません"
  const MsgListFailed: string := "ユーザー一覧の取得に失敗しました"
  const MsgPatchBodyInvalid: string := "リクエストボディが無効です"
  const MsgNoFields: string := "更新するフィールドを指定してください"
  const MsgPatchFailed: string := "ユーザー更新中にエラーが発生しました"
  const MsgDeleteFailed: string := "ユーザー削除中にエラーが発生しました"
  const MsgAuthFailed: string := "認証に失敗しました"
  const MsgLoginFailed: string := "ログイン処理に失敗しました"
  const MsgTokenFailed: string := "トークン生成に失敗しました"

  const DefaultLimit: int := 10
  const DefaultOffset: int := 0
  const UsersPrefix: string := "/users/"

  /** The value a reply encodes: `{"error": message}`, a user, a list of users,
      `{"token": token}`, nothing (204), or the plain text `http.Error` writes. */
  datatype Body = ErrorBody(message: string) | UserBody(user: User) | UsersBody(users: seq<User>)
    | TokenBody(token: string) | NoBody | PlainBody(text: string)

  datatype Response = Response(status: int, body: Body)

  /** `respondWithError(w, status, message)` */
  function ErrorReply(status: int, message: string): (r: Response)
    ensures r.status == status && r.body.ErrorBody? && r.body.message == message
  {
    Response(status, ErrorBody(message))
  }

  /** The request phase: answer now, or go on to the service with `arg`. */
  datatype Decision<T> = Reply(response: Response) | Proceed(arg: T)

  /** The decoded bodies; the request types are not part of this model, their fields are
      those the handlers read. A pointer field is `None` when the JSON leaves it out. */
  datatype CreateUserRequest = CreateUserRequest(name: string, email: string, password: string)
  datatype PatchRequest = PatchRequest(name: Option<string>, email: Option<string>)
  datatype LoginRequest = LoginRequest(email: string, password: string)

  /** The id of the protected routes: the path with "/users/" trimmed, refused when empty
      and when it is not a decimal int64. */
  function ParseID(path: string): (d: Decision<int>)
    ensures TrimPrefix(path, UsersPrefix) == "" ==> d == Reply(ErrorReply(StatusBadRequest, MsgIdRequired))
    ensures TrimPrefix(path, UsersPrefix) != "" && ParseInt(TrimPrefix(path, UsersPrefix)).None? ==>
      d == Reply(ErrorReply(StatusBadRequest, MsgIdNotNumeric))
    ensures d.Proceed? <==> ParseInt(TrimPrefix(path, UsersPrefix)).Some?
    ensures d.Proceed? ==> d.arg == ParseInt(TrimPrefix(path, UsersPrefix)).value && InInt64(d.arg)
  {
    var idStr := TrimPrefix(path, UsersPrefix);
    if idStr == "" then Reply(ErrorReply(StatusBadRequest, MsgIdRequired))
    else match ParseInt(idStr)
      case None => Reply(ErrorReply(StatusBadRequest, MsgIdNotNumeric))
      case Some(id) => Proceed(id)
  }

  /** The path of a user reads back as its id. */
  lemma ParseIDOfUserPath(id: int)
    requires InInt64(id)
    ensures ParseID(UsersPrefix + Itoa(id)) == Proceed(id)
  {
    TrimPrefixOfPrepended(UsersPrefix, Itoa(id));
    ParseIntOfItoa(id);
  }

  /** "/users/" alone asks for no id; a path with anything after the digits is not a
      number. */
  lemma ParseIDRefusals(digits: string, rest: string)
    requires |digits| > 0 && AllDigits(digits) && |rest| > 0 && !IsDigit(rest[0])
    ensures ParseID(UsersPrefix) == Reply(ErrorReply(StatusBadRequest, MsgIdRequired))
    ensures ParseID(UsersPrefix + digits + rest) == Reply(ErrorReply(StatusBadRequest, MsgIdNotNumeric))
  {
    assert TrimPrefix(UsersPrefix, UsersPrefix) == "" by {
      assert UsersPrefix[..|UsersPrefix|] == UsersPrefix;
    }
    var path := UsersPrefix + digits + rest;
    assert path[..|UsersPrefix|] == UsersPrefix;
    var idStr := TrimPrefix(path, UsersPrefix);
    assert idStr == digits + rest;
    assert idStr[|digits|] == rest[0];
    ParseIntRejectsNonDigit(idStr, |digits|);
  }

  /** `r.URL.Query().Get(key)`: the query is given as each key's first value; a missing
      key reads as "". */
  function QueryGet(query: map<string, string>, key: string): (v: string)
    ensures key in query ==> v == query[key]
    ensures key !in query ==> v == ""
  {
    if key in query then query[key] else ""
  }

  /** The `limit` of `GetUsers`: the parsed value when it is a positive integer, 10 when
      the parameter is missing, not an integer, zero or negative. */
  function Limit(query: map<string, string>): (limit: int)
    ensures limit > 0
    ensures ParseInt(QueryGet(query, "limit")).Some? && ParseInt(QueryGet(query, "limit")).value > 0 ==>
      limit == ParseInt(QueryGet(query, "limit")).value
    ensures ParseInt(QueryGet(query, "limit")).None? || ParseInt(QueryGet(query, "limit")).value <= 0 ==>
      limit == DefaultLimit
  {
    match ParseInt(QueryGet(query, "limit"))
    case Some(n) => if n <= 0 then DefaultLimit else n
    case None => DefaultLimit
  }

  /** The `offset` of `GetUsers`: the parsed value when it is a non-negative integer, 0
      when the parameter is missing, not an integer or negative. */
  function Offset(query: map<string, string>): (offset: int)
    ensures offset >= 0
    ensures ParseInt(QueryGet(query, "offset")).Some? && ParseInt(QueryGet(query, "offset")).value >= 0 ==>
      offset == ParseInt(QueryGet(query, "offset")).value
    ensures ParseInt(QueryGet(query, "offset")).None? || ParseInt(QueryGet(query, "offset")).value < 0 ==>
      offset == DefaultOffset
  {
    match ParseInt(QueryGet(query, "offset"))
    case Some(n) => if n < 0 then DefaultOffset else n
    case None => DefaultOffset
  }

  /** With no query the page is the first ten users; a positive "limit" and a
      non-negative "offset" written in decimal are taken as written. */
  lemma PagingDefaultsAndValues(limit: int, offset: int)
    requires 0 < limit <= MaxInt64 && 0 <= offset <= MaxInt64
    ensures Limit(map[]) == 10 && Offset(map[]) == 0
    ensures Limit(map["limit" := Itoa(limit)]) == limit
    ensures Offset(map["offset" := Itoa(offset)]) == offset
  {
    ParseIntOfItoa(limit);
    ParseIntOfItoa(offset);
  }

  /** `CreateUser`, request phase: a body that does not decode is a 400; otherwise the
      service gets a user holding only the name and the email, and the password. */
  function CreateUserRequestPhase(body: Option<CreateUserRequest>): (d: Decision<(User, string)>)
    ensures body.None? ==> d == Reply(ErrorReply(StatusBadRequest, MsgInvalidBody))
    ensures body.Some? ==> d == Proceed((User(0, body.value.name, body.value.email, "", 0), body.value.password))
  {
    match body
    case None => Reply(ErrorReply(StatusBadRequest, MsgInvalidBody))
    case Some(req) => Proceed((User(0, req.name, req.email, "", 0), req.password))
  }

  /** `CreateUser`, reply phase: `ErrValidation` is a 400, any other error a 500, and the
      created user a 201. */
  function CreateUserReply(r: Result<User, Error>): (resp: Response)
    ensures r == Failure(ErrValidation) ==> resp == ErrorReply(StatusBadRequest, MsgInvalidInput)
    ensures r.Failure? && r.error != ErrValidation ==> resp == ErrorReply(StatusInternalServerError, MsgCreateFailed)
    ensures r.Success? <==> resp.status == StatusCreated
    ensures r.Success? ==> resp.body == UserBody(r.value)
  {
    match r
    case Failure(ErrValidation) => ErrorReply(StatusBadRequest, MsgInvalidInput)
    case Failure(_) => ErrorReply(StatusInternalServerError, MsgCreateFailed)
    case Success(user) => Response(StatusCreated, UserBody(user))
  }

  /** `GetUserByID`, reply phase: a service error is a 500, no user a 404, a user a 200. */
  function GetUserByIDReply(r: Result<Option<User>, Error>): (resp: Response)
    ensures r.Failure? ==> resp == ErrorReply(StatusInternalServerError, MsgGetFailed)
    ensures r == Success(None) ==> resp == ErrorReply(StatusNotFound, MsgUserNotFound)
    ensures r.Success? && r.value.Some? <==> resp.status == StatusOK
    ensures resp.status == StatusOK ==> resp.body == UserBody(r.value.value)
  {
    match r
    case Failure(_) => ErrorReply(StatusInternalServerError, MsgGetFailed)
    case Success(None) => ErrorReply(StatusNotFound, MsgUserNotFound)
    case Success(Some(user)) => Response(StatusOK, UserBody(user))
  }

  /** `GetUsers`, request phase: it never answers itself. */
  function GetUsersRequestPhase(query: map<string, string>): (d: Decision<(int, int)>)
    ensures d == Proceed((Limit(query), Offset(query)))
    ensures d.arg.0 > 0 && d.arg.1 >= 0
  {
    Proceed((Limit(query), Offset(query)))
  }

  /** `GetUsers`, reply phase: a service error is a 500, a list a 200. */
  function GetUsersReply(r: Result<seq<User>, Error>): (resp: Response)
    ensures r.Failure? ==> resp == ErrorReply(StatusInternalServerError, MsgListFailed)
    ensures r.Success? ==> resp == Response(StatusOK, UsersBody(r.value))
  {
    match r
    case Failure(_) => ErrorReply(StatusInternalServerError, MsgListFailed)
    case Success(users) => Response(StatusOK, UsersBody(users))
  }

  /** `PatchUser`, request phase: the id is checked first, then the body is decoded, then
      at least one field must be given; only then does the service get the id and the two
      optional fields. */
  function PatchUserRequestPhase(path: string, body: Option<PatchRequest>): (d: Decision<(int, Option<string>, Option<string>)>)
    ensures ParseID(path).Reply? ==> d == Reply(ParseID(path).response)
    ensures ParseID(path).Proceed? && body.None? ==> d == Reply(ErrorReply(StatusBadRequest, MsgPatchBodyInvalid))
    ensures ParseID(path).Proceed? && body.Some? && body.value.name.None? && body.value.email.None? ==>
      d == Reply(ErrorReply(StatusBadRequest, MsgNoFields))
    ensures d.Proceed? <==>
      ParseID(path).Proceed? && body.Some? && (body.value.name.Some? || body.value.email.Some?)
    ensures d.Proceed? ==> d.arg == (ParseID(path).arg, body.value.name, body.value.email)
  {
    match ParseID(path)
    case Reply(resp) => Reply(resp)
    case Proceed(id) =>
      match body
      case None => Reply(ErrorReply(StatusBadRequest, MsgPatchBodyInvalid))
      case Some(req) =>
        if req.name.None? && req.email.None? then Reply(ErrorReply(StatusBadRequest, MsgNoFields))
        else Proceed((id, req.name, req.email))
  }

  /** `PatchUser`, reply phase: a service error is a 500, no user a 404, a user a 200. */
  function PatchUserReply(r: Result<Option<User>, Error>): (resp: Response)
    ensures r.Failure? ==> resp == ErrorReply(StatusInternalServerError, MsgPatchFailed)
    ensures r == Success(None) ==> resp == ErrorReply(StatusNotFound, MsgUserNotFound)
    ensures r.Success? && r.value.Some? <==> resp.status == StatusOK
    ensures resp.status == StatusOK ==> resp.body == UserBody(r.value.value)
  {
    match r
    case Failure(_) => ErrorReply(StatusInternalServerError, MsgPatchFailed)
    case Success(None) => ErrorReply(StatusNotFound, MsgUserNotFound)
    case Success(Some(user)) => Response(StatusOK, UserBody(user))
  }

  /** `DeleteUser`, reply phase: `sql.ErrNoRows` is a 404, any other error a 500, and
      success a 204 with no body. */
  function DeleteUserReply(r: Outcome<Error>): (resp: Response)
    ensures r == Fail(ErrNoRows) ==> resp == ErrorReply(StatusNotFound, MsgUserNotFound)
    ensures r.Fail? && r.error != ErrNoRows ==> resp == ErrorReply(StatusInternalServerError, MsgDeleteFailed)
    ensures r.Pass? <==> resp == Response(StatusNoContent, NoBody)
  {
    match r
    case Fail(ErrNoRows) => ErrorReply(StatusNotFound, MsgUserNotFound)
    case Fail(_) => ErrorReply(StatusInternalServerError, MsgDeleteFailed)
    case Pass => Response(StatusNoContent, NoBody)
  }

  /** `Login`, request phase: a body that does not decode is a 400; otherwise the service
      gets the email and the password. */
  function LoginRequestPhase(body: Option<LoginRequest>): (d: Decision<(string, string)>)
    ensures body.None? ==> d == Reply(ErrorReply(StatusBadRequest, MsgInvalidBody))
    ensures body.Some? ==> d == Proceed((body.value.email, body.value.password))
  {
    match body
    case None => Reply(ErrorReply(StatusBadRequest, MsgInvalidBody))
    case Some(req) => Proceed((req.email, req.password))
  }

  /** `Login`, reply phase: an unknown email or a wrong password is a 401, any other
      service error a 500; for an authenticated user a token is issued for its id, a
      signing failure being a 500 and the token a 200. */
  function LoginReply(lib: Jwt.Library, cfg: Config.Settings, now: int, r: Result<User, Error>): (resp: Response)
    ensures r == Failure(ErrorNotFound) || r == Failure(ErrorInvalidPassword) ==>
      resp == ErrorReply(StatusUnauthorized, MsgAuthFailed)
    ensures r.Failure? && r.error != ErrorNotFound && r.error != ErrorInvalidPassword ==>
      resp == ErrorReply(StatusInternalServerError, MsgLoginFailed)
    ensures r.Success? && Jwt.GenerateToken(lib, cfg, now, r.value.id).Failure? ==>
      resp == ErrorReply(StatusInternalServerError, MsgTokenFailed)
    ensures resp.status == StatusOK <==> r.Success? && Jwt.GenerateToken(lib, cfg, now, r.value.id).Success?
    ensures resp.status == StatusOK ==> resp.body == TokenBody(Jwt.GenerateToken(lib, cfg, now, r.value.id).value)
  {
    match r
    case Failure(ErrorNotFound) => ErrorReply(StatusUnauthorized, MsgAuthFailed)
    case Failure(ErrorInvalidPassword) => ErrorReply(StatusUnauthorized, MsgAuthFailed)
    case Failure(_) => ErrorReply(StatusInternalServerError, MsgLoginFailed)
    case Success(user) =>
      match Jwt.GenerateToken(lib, cfg, now, user.id)
      case Failure(_) => ErrorReply(StatusInternalServerError, MsgTokenFailed)
      case Success(token) => Response(StatusOK, TokenBody(token))
  }

  /** The token a login returns parses at the instant it was issued exactly when the
      library's validation accepts it and the configured lifetime is not negative (a
      negative JWT_EXPIRE_MINUTES issues tokens that are already expired); it then carries
      the user's id as `sub`. */
  lemma LoginTokenNamesUser(lib: Jwt.Library, cfg: Config.Settings, now: int, user: User)
    requires Jwt.Sound(lib)
    requires LoginReply(lib, cfg, now, Success(user)).status == StatusOK
    ensures var token := LoginReply(lib, cfg, now, Success(user)).body.token;
      && (Jwt.ParseToken(lib, cfg, now, token).Success? <==>
            lib.validate(Jwt.IssuedClaims(cfg, now, user.id), now) && cfg.jwtExpireMinutes >= 0)
      && (Jwt.ParseToken(lib, cfg, now, token).Success? ==>
            Jwt.ParseToken(lib, cfg, now, token).value.sub == Some(Jwt.Num(user.id)))
  {
    var token := LoginReply(lib, cfg, now, Success(user)).body.token;
    Jwt.IssueThenParse(lib, cfg, now, now, user.id, token);
  }

  /** `UserHandler`: each handler method reads the request, calls the service when the
      request phase lets it, and answers with the reply phase. The contracts state the
      answer and the table afterwards in terms of the table before. */
  class UserHandler {
    const userService: UserService

    constructor (userService: UserService)
      ensures this.userService == userService
    {
      this.userService := userService;
    }

    method CreateUser(body: Option<CreateUserRequest>, hasher: Hasher, now: int) returns (resp: Response)
      requires userService.repo.Valid()
      modifies userService.repo
      ensures userService.repo.Valid()
      ensures body.None? ==> resp == ErrorReply(StatusBadRequest, MsgInvalidBody) && unchanged(userService.repo)
      ensures body.Some? ==>
        var req := body.value;
        var user := User(0, req.name, req.email, "", 0);
        && (!ValidUser(user) || req.password == "" ==>
              resp == ErrorReply(StatusBadRequest, MsgInvalidInput) && unchanged(userService.repo))
        && (ValidUser(user) && req.password != "" && hasher.hash(req.password).Failure? ==>
              resp == ErrorReply(StatusInternalServerError, MsgCreateFailed) && unchanged(userService.repo))
        && (ValidUser(user) && req.password != "" && hasher.hash(req.password).Success? ==>
              var row := Row(req.name, req.email, hasher.hash(req.password).value, now);
              && resp == Response(StatusCreated, UserBody(Full(old(userService.repo.nextId), row)))
              && userService.repo.rows == old(userService.repo.rows)[old(userService.repo.nextId) := row]
              && userService.repo.nextId == old(userService.repo.nextId) + 1)
    {
      match CreateUserRequestPhase(body)
      case Reply(r) =>
        resp := r;
      case Proceed((user, password)) =>
        var r, _ := userService.CreateUser(user, password, hasher, now);
        resp := CreateUserReply(r);
    }

    method GetUserByID(path: string) returns (resp: Response)
      ensures ParseID(path).Reply? ==> resp == ParseID(path).response
      ensures ParseID(path).Proceed? && ParseID(path).arg !in userService.repo.rows ==>
        resp == ErrorReply(StatusNotFound, MsgUserNotFound)
      ensures ParseID(path).Proceed? && ParseID(path).arg in userService.repo.rows ==>
        resp == Response(StatusOK, UserBody(Listed(ParseID(path).arg, userService.repo.rows[ParseID(path).arg])))
    {
      match ParseID(path)
      case Reply(r) =>
        resp := r;
      case Proceed(id) =>
        var r := userService.GetUserByID(id);
        resp := GetUserByIDReply(r);
    }

    method GetUsers(query: map<string, string>) returns (resp: Response)
      requires userService.repo.Valid()
      ensures resp == Response(StatusOK, UsersBody(userService.repo.Page(Limit(query), Offset(query))))
    {
      var d := GetUsersRequestPhase(query);
      var r := userService.GetUsers(d.arg.0, d.arg.1);
      resp := GetUsersReply(r);
    }

    /** A missing id is a 500, not a 404: the repository's first lookup returns
        `sql.ErrNoRows` as an error, and the handler answers every service error with 500. */
    method PatchUser(path: string, body: Option<PatchRequest>) returns (resp: Response)
      requires userService.repo.Valid()
      modifies userService.repo
      ensures userService.repo.Valid()
      ensures PatchUserRequestPhase(path, body).Reply? ==>
        resp == PatchUserRequestPhase(path, body).response && unchanged(userService.repo)
      ensures PatchUserRequestPhase(path, body).Proceed? ==>
        var (id, name, email) := PatchUserRequestPhase(path, body).arg;
        && (id !in old(userService.repo.rows) ==>
              resp == ErrorReply(StatusInternalServerError, MsgPatchFailed) && unchanged(userService.repo))
        && (id in old(userService.repo.rows) ==>
              var row := Merge(old(userService.repo.rows)[id], name, email);
              && resp == Response(StatusOK, UserBody(Listed(id, row)))
              && userService.repo.rows == old(userService.repo.rows)[id := row]
              && userService.repo.nextId == old(userService.repo.nextId))
    {
      match PatchUserRequestPhase(path, body)
      case Reply(r) =>
        resp := r;
      case Proceed((id, name, email)) =>
        var r := userService.PatchUser(id, name, email);
        resp := PatchUserReply(r);
    }

    method DeleteUser(path: string) returns (resp: Response)
      requires userService.repo.Valid()
      modifies userService.repo
      ensures userService.repo.Valid()
      ensures ParseID(path).Reply? ==> resp == ParseID(path).response && unchanged(userService.repo)
      ensures ParseID(path).Proceed? && ParseID(path).arg !in old(userService.repo.rows) ==>
        resp == ErrorReply(StatusNotFound, MsgUserNotFound) && unchanged(userService.repo)
      ensures ParseID(path).Proceed? && ParseID(path).arg in old(userService.repo.rows) ==>
        && resp == Response(StatusNoContent, NoBody)
        && userService.repo.rows == old(userService.repo.rows) - {ParseID(path).arg}
        && userService.repo.nextId == old(userService.repo.nextId)
    {
      match ParseID(path)
      case Reply(r) =>
        resp := r;
      case Proceed(id) =>
        var r := userService.DeleteUser(id);
        resp := DeleteUserReply(r);
    }

    /** A login answers 200 only with a token issued for a stored user with that email
        whose hash accepts the password. */
    method Login(body: Option<LoginRequest>, hasher: Hasher, lib: Jwt.Library, cfg: Config.Settings, now: int)
      returns (resp: Response)
      ensures body.None? ==> resp == ErrorReply(StatusBadRequest, MsgInvalidBody)
      ensures body.Some? && !HasEmail(userService.repo.rows, body.value.email) ==>
        resp == ErrorReply(StatusUnauthorized, MsgAuthFailed)
      ensures body.Some? && HasEmail(userService.repo.rows, body.value.email) &&
        (forall id :: id in userService.repo.rows && userService.repo.rows[id].email == body.value.email ==>
          !hasher.compare(userService.repo.rows[id].passwordHash, body.value.password))
        ==> resp == ErrorReply(StatusUnauthorized, MsgAuthFailed)
      ensures resp.status == StatusOK ==>
        && body.Some?
        && (exists id :: id in userService.repo.rows && userService.repo.rows[id].email == body.value.email
             && hasher.compare(userService.repo.rows[id].passwordHash, body.value.password)
             && Jwt.GenerateToken(lib, cfg, now, id).Success?
             && resp.body == TokenBody(Jwt.GenerateToken(lib, cfg, now, id).value))
      ensures body.Some? && HasEmail(userService.repo.rows, body.value.email) &&
        (forall id :: id in userService.repo.rows && userService.repo.rows[id].email == body.value.email ==>
          && hasher.compare(userService.repo.rows[id].passwordHash, body.value.password)
          && Jwt.GenerateToken(lib, cfg, now, id).Success?)
        ==> resp.status == StatusOK
      ensures body.Some? && HasEmail(userService.repo.rows, body.value.email) &&
        (forall id :: id in userService.repo.rows && userService.repo.rows[id].email == body.value.email ==>
          && hasher.compare(userService.repo.rows[id].passwordHash, body.value.password)
          && Jwt.GenerateToken(lib, cfg, now, id).Failure?)
        ==> resp == ErrorReply(StatusInternalServerError, MsgTokenFailed)
      ensures resp.status in {StatusOK, StatusBadRequest, StatusUnauthorized, StatusInternalServerError}
    {
      match LoginRequestPhase(body)
      case Reply(r) =>
        resp := r;
      case Proceed((email, password)) =>
        var r := userService.Authenticate(email, password, hasher);
        resp := LoginReply(lib, cfg, now, r);
    }
  }
}
