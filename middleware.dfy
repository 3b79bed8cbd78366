/** auth/middleware.go: the gate in front of the protected routes. It either answers the
    request itself with 401 and a message, or calls the next handler once, with a context
    that carries the token's subject as the user id. The bearer scheme is that of section
    2.1 of RFC 6750, applied permissively. */
module Middleware {
  import opened Wrappers
  import opened Strings
  import opened Jwt
  import opened AuthContext
  import Config
  import opened Http

  const BearerPrefix: string := "Bearer "

  /** What the gate does with a request: answer it (`http.Error`), or hand it on to the
      next handler with the given context. */
  datatype GateOutcome = Reject(status: int, message: string) | Next(ctx: Context)

  /** `r.Header.Get("Authorization")`: the empty string when the header is absent. */
  function HeaderValue(authorization: Option<string>): (v: string)
    ensures authorization.Some? ==> v == authorization.value
    ensures v == "" <==> authorization.None? || authorization == Some("")
  {
    if authorization.Some? then authorization.value else ""
  }

  /** The string handed to `ParseToken`: one leading "Bearer " removed if present. */
  function TokenString(authHeader: string): (t: string)
    ensures HasPrefix(authHeader, BearerPrefix) ==> BearerPrefix + t == authHeader
    ensures !HasPrefix(authHeader, BearerPrefix) ==> t == authHeader
  {
    TrimPrefix(authHeader, BearerPrefix)
  }

  /** The handler closure of `JTWMiddleware`, for a request with the given Authorization
      header and context, at time `now`. */
  function JTWMiddleware(lib: Library, cfg: Config.Settings, now: int, authorization: Option<string>, ctx: Context): (o: GateOutcome)
    ensures o.Reject? ==> o.status == StatusUnauthorized
    ensures HeaderValue(authorization) == "" ==> o == Reject(StatusUnauthorized, "Authorization header is required")
    ensures HeaderValue(authorization) != "" && ParseToken(lib, cfg, now, TokenString(HeaderValue(authorization))).Failure? ==>
      o == Reject(StatusUnauthorized, "Invalid token: " + ErrorText(ParseToken(lib, cfg, now, TokenString(HeaderValue(authorization))).error))
    ensures o.Next? <==>
      && HeaderValue(authorization) != ""
      && ParseToken(lib, cfg, now, TokenString(HeaderValue(authorization))).Success?
      && ParseToken(lib, cfg, now, TokenString(HeaderValue(authorization))).value.sub.Some?
      && ParseToken(lib, cfg, now, TokenString(HeaderValue(authorization))).value.sub.value.Num?
    ensures o.Next? ==>
      var sub := ParseToken(lib, cfg, now, TokenString(HeaderValue(authorization))).value.sub.value.n;
      o.ctx == SetUserID(ctx, sub) && GetUserID(o.ctx) == (sub, true)
  {
    var authHeader := HeaderValue(authorization);
    if authHeader == "" then Reject(StatusUnauthorized, "Authorization header is required")
    else
      var tokenString := TokenString(authHeader);
      match ParseToken(lib, cfg, now, tokenString)
      case Failure(err) => Reject(StatusUnauthorized, "Invalid token: " + ErrorText(err))
      case Success(claims) =>
        match claims.sub
        case Some(Num(userID)) => Next(SetUserID(ctx, userID))
        case _ => Reject(StatusUnauthorized, "Invalid token claims")
  }

  /** A token that passes `ParseToken` but has no numeric `sub` is refused with
      "Invalid token claims". */
  lemma BadSubjectRefused(lib: Library, cfg: Config.Settings, now: int, header: string, ctx: Context)
    requires header != ""
    requires ParseToken(lib, cfg, now, TokenString(header)).Success?
    requires !(ParseToken(lib, cfg, now, TokenString(header)).value.sub.Some? &&
               ParseToken(lib, cfg, now, TokenString(header)).value.sub.value.Num?)
    ensures JTWMiddleware(lib, cfg, now, Some(header), ctx) == Reject(StatusUnauthorized, "Invalid token claims")
  {
  }

  /** A header "Bearer <token>" for a token this service issued and that has not expired
      (nor been refused by the library's own validation) lets the request through, and the
      next handler reads the issued user id from its context. */
  lemma IssuedTokenPasses(lib: Library, cfg: Config.Settings, issuedAt: int, now: int, userID: int, token: string, ctx: Context)
    requires Sound(lib)
    requires GenerateToken(lib, cfg, issuedAt, userID) == Success(token)
    requires lib.validate(IssuedClaims(cfg, issuedAt, userID), now)
    requires now <= issuedAt + cfg.jwtExpireMinutes * 60
    ensures JTWMiddleware(lib, cfg, now, Some(BearerPrefix + token), ctx) == Next(SetUserID(ctx, userID))
    ensures GetUserID(SetUserID(ctx, userID)) == (userID, true)
  {
    TrimPrefixOfPrepended(BearerPrefix, token);
    IssueThenParse(lib, cfg, issuedAt, now, userID, token);
  }

  /** "Bearer garbage", where "garbage" does not decode, is refused with the library's
      "malformed" text. */
  lemma GarbageRefused(lib: Library, cfg: Config.Settings, now: int, garbage: string, ctx: Context)
    requires lib.decode(garbage).None?
    ensures JTWMiddleware(lib, cfg, now, Some(BearerPrefix + garbage), ctx) ==
      Reject(StatusUnauthorized, "Invalid token: token is malformed")
  {
    TrimPrefixOfPrepended(BearerPrefix, garbage);
    assert ParseToken(lib, cfg, now, garbage) == Failure(Malformed);
    assert "Invalid token: " + ErrorText(Malformed) == "Invalid token: token is malformed";
  }

  /** The prefix is stripped once: "Bearer Bearer x" hands "Bearer x" on; a header without
      the prefix is handed on as it is. */
  lemma PrefixStrippedOnce(x: string, header: string)
    requires !HasPrefix(header, BearerPrefix)
    ensures TokenString(BearerPrefix + BearerPrefix + x) == BearerPrefix + x
    ensures TokenString(header) == header
  {
    assert BearerPrefix + BearerPrefix + x == BearerPrefix + (BearerPrefix + x);
    TrimPrefixOfPrepended(BearerPrefix, BearerPrefix + x);
  }
}
