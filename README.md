# go-rest-jwt in Dafny

A model of the core of go-rest-jwt, a small Go REST service. It keeps users in a
PostgreSQL table and guards part of its API with HS256-signed JSON Web Tokens (RFC 7519,
with the HMAC algorithm of section 3.2 of RFC 7518). The model covers these parts:

- configuration read from the environment (`config.dfy`);
- issuing and verifying tokens (`jwt.dfy`);
- the bearer-token gate in front of the protected routes (`middleware.dfy`), and the
  request context that carries the authenticated user id (`context.dfy`);
- the older user model with its validation and its dynamic UPDATE statement (`models.dfy`);
- the repository, as an in-memory users table (`repository.dfy`);
- the service rules for registration and login (`service.dfy`);
- the handlers' status decisions (`handlers.dfy`);
- the route table (`router.dfy`).

`strconv.dfy`, `strings.dfy`, `http.dfy`, `wrappers.dfy` and `errors.dfy` hold what the Go
standard library provides (`strconv.Atoi` / `ParseInt(s, 10, 64)`, `strings.TrimPrefix`,
`strings.Join`, the `net/http` status codes), the `Option`/`Result` wrappers, and the error
values the layers exchange.

Each Go file keeps its own form:
- The token, gate, context, configuration, handler-decision and routing code is pure, so it
  is modelled as functions.
- The users table is modelled as a class over `map<int, Row>` plus the `SERIAL` counter.
  Its methods change it as the SQL statements would.
- `UpdateUser`'s SET-list loop is a method with a loop. It takes the map's keys in an
  arbitrary order, as Go's map iteration does.
- The service is a class holding the repository.
- `UserHandler` and the mux's `ServeHTTP` are methods. They run the pure decisions
  against the service.

The token library is a parameter (`Jwt.Library`: sign, decode, verify, validate). The only
thing assumed about it is `Jwt.Sound`: decoding and verifying undo signing. bcrypt is the
parameter `Service.Hasher`, with `Service.Sound`. The clock is the parameter `now`, in Unix
seconds.

Two facts about token lifetimes that the model keeps as the code has them:
- The explicit check in `ParseToken` refuses only `exp < now`. A token whose `exp` equals
  `now` passes it, and only the library's `validate` can refuse it at that instant
  (`Jwt.ExpiryBoundary`).
- `JWT_EXPIRE_MINUTES` is taken as written, zero and negative values included. With a
  negative value every issued token is already expired (`Handlers.LoginTokenNamesUser`).

Two facts the contracts make visible:
- `PATCH` on a missing id answers 500, not 404 (`Handlers.UserHandler.PatchUser`). The
  repository's first lookup returns `sql.ErrNoRows` as an error, and the handler answers
  every service error with 500.
- The protected handlers never compare the id in the path with the token's subject. Any
  authenticated user can update or delete any user (`Router.ServeHTTP`).

## Model

| member | source | states |
|---|---|---|
| Config.Getenv | config/config.go:9-11 | an unset variable reads as the empty string, a set one as its value |
| Config.GetEnvAsInt | config/config.go:14-21 | the value is the parsed integer when the variable is a valid decimal integer, and the default otherwise |
| Config.Load | config/config.go:8-12 | the secret and the issuer are the raw variables; the expiry is `getEnvAsInt("JWT_EXPIRE_MINUTES", 60)` |
| Config.UnsetOrEmptyGivesDefault | config/config.go:15 | an unset or empty variable yields the default |
| Config.NonIntegerGivesDefault | config/config.go:16-20 | a value with a non-digit character (after an optional sign) yields the default |
| Config.IntegerValueIsTaken | config/config.go:16-18 | the decimal text of any int64, zero or negative included, yields that value; there is no positivity check |
| Config.LoadDefaults | config/config.go:8-12 | an empty environment gives secret "", issuer "" and 60 minutes; a set expiry variable gives its value |
| Strconv.Itoa | models/user.go:98-104 | the decimal text of an integer is the digits of its magnitude, with a leading '-' exactly for negatives; it is never empty, and a negative has at least one digit after the '-' |
| Strconv.ParseInt | handlers/user_handler.go:58 | a parsed value is in the int64 range; the text accepted is an optional sign followed by at least one digit, and the value is that of the digits, negated after '-'; conversely every such text whose value is in the int64 range is accepted, non-canonical spellings such as "+5", "007" and "-0" included |
| Strconv.DigitsValueOfNatToDigits | handlers/user_handler.go:58 | the digits of a natural number read back as that number |
| Strconv.ParseIntOfItoa | handlers/user_handler.go:58 | round trip: every int64 printed in decimal parses back to itself |
| Strconv.ParseIntRejectsNonDigit | config/config.go:16 | a string with a non-digit character after the optional sign does not parse |
| Strconv.ParseIntRejectsOutOfRange | handlers/user_handler.go:58 | one past either end of the int64 range does not parse |
| Strings.TrimPrefix | auth/middleware.go:16 | with the prefix present, prefix + result is the input; without it, the input is returned unchanged |
| Strings.HasPrefix | auth/middleware.go:16 | s starts with prefix exactly when prefix is no longer than s and agrees with s at every position of prefix |
| Strings.TrimPrefixOfPrepended | auth/middleware.go:16 | trimming a prefix just prepended gives back the rest |
| Strings.Join | models/user.go:105 | joining no elements gives "", joining one gives that element |
| Strings.JoinSnoc | models/user.go:105 | joining one more element appends the separator and that element, for any non-empty list |
| Jwt.ParseToken | auth/jwt.go:28-58 | a token that does not decode is malformed; a non-HMAC method is refused as unexpected; an HMAC token whose signature does not verify is SignatureInvalid, and one that verifies but fails the library's validation is InvalidClaims; the result is success exactly when decoding, the method, the signature, the library's validation, the expiry check and the issuer check all pass, and it is then exactly the token's claims; "token has expired" and "invalid issuer" are each given exactly when the earlier checks pass and that check fails |
| Jwt.IsHmac | auth/jwt.go:31 | the `*jwt.SigningMethodHMAC` assertion holds exactly for HS256, HS384 and HS512 |
| Jwt.IssuedClaims | auth/jwt.go:13-18 | the claims carry sub = user id, iat = now and the configured issuer, and exp lies minutes·60 seconds after now, so the expiry check passes at issue time exactly when the lifetime is not negative |
| Jwt.GenerateToken | auth/jwt.go:12-25 | with a sound library, a token that signs decodes to HS256 and the issued claims, and verifies under the configured secret |
| Jwt.ErrorText | auth/middleware.go:20 | every error has a non-empty text; "token has expired" and "invalid issuer" are the texts of exactly the two explicit checks, and no library error shares them |
| Jwt.ExpiryOk | auth/jwt.go:48 | the expiry check passes exactly when exp is present, numeric and no earlier than now |
| Jwt.IssuerOk | auth/jwt.go:53 | the issuer check passes exactly when iss is present, a string, and the configured issuer |
| Jwt.IssuedTokenContents | auth/jwt.go:12-25 | an issued token declares HS256, which is HMAC, verifies under the secret, and carries sub = user id, iss = configured issuer, iat = now and exp = now + minutes·60 from one clock reading |
| Jwt.IssueThenParse | auth/jwt.go:12-58 | round trip: an issued token parses at `now` exactly when `now` ≤ exp and the library validates it, and it then yields the issued claims with sub = user id |
| Jwt.ExpiredTokenRefused | auth/jwt.go:48-50 | an issued token presented after its expiry is refused, with "token has expired" whenever the library's validation lets it through |
| Jwt.ForeignIssuerRefused | auth/jwt.go:53-55 | a token issued under another issuer with the same secret is refused with "invalid issuer" |
| Jwt.ExpiryBoundary | auth/jwt.go:48 | the explicit check passes a token whose exp equals now and refuses it one second later |
| AuthContext.SetUserID | auth/context.go:11-13 | the new context holds the id under the user-id key, and every other key looks up as before |
| AuthContext.Lookup | auth/context.go:16 | `ctx.Value(key)` is non-nil exactly when some link of the chain stores a value under key, and the newest link under key gives its value |
| AuthContext.GetUserID | auth/context.go:15-19 | (id, true) exactly when the value under the key is an int, which is then id; (0, false) otherwise |
| AuthContext.GetAfterSet | auth/context.go:11-19 | round trip: the id just set is read back with true |
| AuthContext.LatestSetWins | auth/context.go:11-19 | a later SetUserID shadows an earlier one |
| AuthContext.LookupUnmentioned | auth/context.go:16 | a key never stored in a context looks up as nil |
| AuthContext.GetUserIDNeverSet | auth/context.go:15-19 | on a context where the id was never set, GetUserID gives (0, false) |
| AuthContext.SetUserIDKeepsOtherKeys | auth/context.go:12 | SetUserID leaves the value of every other key unchanged |
| Middleware.TokenString | auth/middleware.go:16 | one leading "Bearer " is removed when present; otherwise the header is passed on unchanged |
| Middleware.HeaderValue | auth/middleware.go:11 | a present header gives its value; the empty string exactly when the header is absent or empty |
| Middleware.JTWMiddleware | auth/middleware.go:8-36 | every refusal is a 401; an empty or missing header gives "Authorization header is required"; a parse failure gives "Invalid token: " + the error text; `next` runs exactly when all checks pass and sub is numeric, with a context whose GetUserID is (sub, true) |
| Middleware.BadSubjectRefused | auth/middleware.go:25-29 | a token that parses but has no numeric sub gives 401 "Invalid token claims" |
| Middleware.IssuedTokenPasses | auth/middleware.go:8-36 | "Bearer " + an issued, unexpired token that the library validates reaches `next` with the issued user id in the context |
| Middleware.GarbageRefused | auth/middleware.go:18-22 | "Bearer " + a string that does not decode gives 401 "Invalid token: token is malformed" |
| Middleware.PrefixStrippedOnce | auth/middleware.go:16 | "Bearer Bearer x" hands on "Bearer x"; a header without the prefix is handed on as it is |
| Models.Validate | models/user.go:20-27 | validation passes exactly when name and email are both non-empty; an empty name is reported first |
| Models.Updates | models/user.go:82-90 | the map holds only "name" and "email", each exactly when that field is non-nil, with the field's value |
| Models.UpdatesSize | models/user.go:82-90 | the updates map has one key per non-nil field |
| Models.SetClauses | models/user.go:98 | one clause per column |
| Models.Placeholder | models/user.go:98-104 | the `$%d` placeholder is '$' followed by the decimal text of its index |
| Models.PlaceholderReadsBack | models/user.go:98-104 | what follows the '$' of a placeholder parses back as its index |
| Models.SetClausesSnoc | models/user.go:97-101 | appending a column appends its clause, numbered after the earlier ones |
| Models.TakeColumn | models/user.go:97 | taking a key not yet visited keeps the visited columns distinct and exactly the visited keys |
| Models.UpdateStatement | models/user.go:103-106 | the statement starts with "UPDATE users SET "; with no clauses nothing comes between SET and WHERE; with one clause it is that clause, the id placeholder and the RETURNING list |
| Models.BuildSetList | models/user.go:93-101 | for any iteration order, the columns visited are exactly the map's keys, each once; the i-th clause uses placeholder $(i+1); the i-th argument is that column's value |
| Models.UpdateUserQuery | models/user.go:81-107 | the number of SET clauses is the number of non-nil fields, each column appears once, the SET placeholders are $1..$k in clause order, the id is bound to $(k+1) and is the last argument |
| Models.PlaceholdersDistinct | models/user.go:98 | distinct indices give distinct placeholders |
| Models.EmptyUpdate | models/user.go:93-106 | with both fields nil the SET list is empty and the statement is sent with nothing after SET |
| Repository.KeysBetweenAscending | repository/user_repository.go:63 | the scanned ids are strictly ascending and are exactly the stored ids in range |
| Repository.Merge | repository/user_repository.go:91-96 | a nil field keeps the stored value, a non-nil one replaces it; the hash and the creation time are never written |
| Repository.MergeIdempotent | repository/user_repository.go:91-101 | patching twice with the same arguments is patching once |
| Repository.MergeNothing | repository/user_repository.go:91-96 | patching with two nil fields changes nothing |
| Repository.UserRepository.constructor | repository/user_repository.go:23-25 | a new repository holds an empty table with the sequence at 1 |
| Repository.UserRepository.OrderedIds | repository/user_repository.go:63 | `ORDER BY id`: the stored ids, strictly ascending, each exactly once |
| Repository.UserRepository.Page | repository/user_repository.go:63-78 | at most `limit` users, in ascending id order, starting after the first `offset` rows, each listed without its hash |
| Repository.UserRepository.CreateUser | repository/user_repository.go:27-35 | name, email and hash are kept, the id is the next value of the sequence, the creation time is the database's clock, and exactly one row is added |
| Repository.UserRepository.GetUserByID | repository/user_repository.go:37-49 | a missing id gives no user and no error; a stored one gives the user without its hash |
| Repository.UserRepository.GetUserByEmail | repository/user_repository.go:51-60 | success exactly when some row has the email, giving that row with its hash; otherwise `sql.ErrNoRows` |
| Repository.UserRepository.GetUsers | repository/user_repository.go:62-79 | a negative OFFSET is a database error, and so is a negative LIMIT with a valid OFFSET, PostgreSQL checking OFFSET first; otherwise the result is exactly the page |
| Repository.UserRepository.PatchUser | repository/user_repository.go:81-110 | a missing id is `sql.ErrNoRows` with no change; otherwise only that row changes, to the merge, and the merged user is returned |
| Repository.UserRepository.DeleteUser | repository/user_repository.go:112-127 | a missing id is `sql.ErrNoRows` with no change; otherwise exactly that row is removed and nil is returned |
| Service.ValidUser | service/user_service.go:26 | `user.Validate()` passes exactly when name and email are non-empty |
| Service.UserService.constructor | service/user_service.go:21-23 | the service holds the given repository |
| Service.UserService.CreateUser | service/user_service.go:25-46 | an invalid user gives ErrValidation before the password is looked at; an empty password gives ErrValidation; neither hashes nor touches the table; a hash failure is returned without touching the table; otherwise only the hash is set in the caller's user, which is stored and filled in by the repository |
| Service.UserService.GetUserByID | service/user_service.go:48-50 | the repository's answer, passed on |
| Service.UserService.GetUsers | service/user_service.go:52-54 | the repository's answer, passed on, OFFSET being checked before LIMIT |
| Service.UserService.PatchUser | service/user_service.go:56-58 | the repository's answer and change, passed on |
| Service.UserService.DeleteUser | service/user_service.go:60-62 | the repository's answer and change, passed on |
| Service.UserService.Authenticate | service/user_service.go:64-74 | an unknown email is ErrorNotFound; a hash that refuses the password is ErrorInvalidPassword; success returns the stored user unchanged, whose hash accepts the password |
| Service.UserService.RegisterThenLogin | service/user_service.go:25-74 | a valid registration with a fresh email is followed by a successful login, with the password, as the stored user |
| Handlers.ParseID | handlers/user_handler.go:52-62 | the id is the path with "/users/" trimmed; an empty id and a non-int64 one are each a 400 with their own message |
| Handlers.ParseIDOfUserPath | handlers/user_handler.go:52-62 | round trip: "/users/" + the decimal text of an int64 reads back as that id |
| Handlers.ParseIDRefusals | handlers/user_handler.go:53-61 | "/users/" alone is "ID required"; digits followed by anything else is "ID must be numeric" |
| Handlers.QueryGet | handlers/user_handler.go:78-83 | a key present in the query gives its value, a missing one the empty string |
| Handlers.Limit | handlers/user_handler.go:78-81 | the limit is positive: the parsed value when it is a positive integer, and 10 when it is missing, not an integer or not positive |
| Handlers.Offset | handlers/user_handler.go:83-86 | the offset is non-negative: the parsed value when it is a non-negative integer, and 0 when it is missing, not an integer or negative |
| Handlers.PagingDefaultsAndValues | handlers/user_handler.go:78-86 | no query gives limit 10 and offset 0; positive and non-negative decimal values are taken as written |
| Handlers.CreateUserRequestPhase | handlers/user_handler.go:25-36 | an undecodable body is a 400; otherwise the service gets a user holding only the name and the email, and the password |
| Handlers.ErrorReply | handlers/user_handler.go:200-202 | `respondWithError` answers with the given status and the body `{"error": message}` |
| Handlers.CreateUserReply | handlers/user_handler.go:37-47 | ErrValidation is a 400 and any other error a 500; a 201 is given exactly on success, with the created user |
| Handlers.GetUserByIDReply | handlers/user_handler.go:64-74 | a service error is a 500 and no user a 404; a 200 is given exactly when there is a user, and carries it |
| Handlers.GetUsersRequestPhase | handlers/user_handler.go:78-88 | the service always gets a positive limit and a non-negative offset |
| Handlers.GetUsersReply | handlers/user_handler.go:88-94 | a service error is a 500, a list a 200 carrying it |
| Handlers.PatchUserRequestPhase | handlers/user_handler.go:99-126 | the id is checked before the body, and the body before the at-least-one-field rule; the service is called exactly when all three pass, with the id and both optional fields |
| Handlers.PatchUserReply | handlers/user_handler.go:127-136 | a service error is a 500 and no user a 404; a 200 is given exactly when there is a user, and carries it |
| Handlers.DeleteUserReply | handlers/user_handler.go:153-163 | `sql.ErrNoRows` is a 404 and any other error a 500; success, and only success, is a 204 with no body |
| Handlers.LoginRequestPhase | handlers/user_handler.go:167-173 | an undecodable body is a 400; otherwise the service gets the email and the password |
| Handlers.LoginReply | handlers/user_handler.go:173-191 | ErrorNotFound and ErrorInvalidPassword are 401, any other error a 500, a token failure a 500; a 200 is given exactly for a user whose token was issued, and carries that token |
| Handlers.LoginTokenNamesUser | handlers/user_handler.go:183-191 | the token a login returns parses at issue time exactly when the library validates it and the configured lifetime is not negative, and carries the user id as sub |
| Handlers.UserHandler.constructor | handlers/user_handler.go:20-22 | the handler holds the given service |
| Handlers.UserHandler.CreateUser | handlers/user_handler.go:24-48 | the answer and the table afterwards for each outcome: 400 for an undecodable body, or an invalid user or password, with no change; 500 for a hash failure, with no change; 201 with the stored user, exactly one row added under the next sequence value, and the sequence advanced by one |
| Handlers.UserHandler.GetUserByID | handlers/user_handler.go:50-75 | a bad id is the ParseID answer; a missing id a 404; a stored one a 200 with the user without its hash |
| Handlers.UserHandler.GetUsers | handlers/user_handler.go:77-95 | always a 200 with the page for the defaulted limit and offset |
| Handlers.UserHandler.PatchUser | handlers/user_handler.go:97-137 | a refused request changes nothing; a missing id is a 500 with no change; otherwise a 200 with the merged user, and only that row changes |
| Handlers.UserHandler.DeleteUser | handlers/user_handler.go:139-164 | a bad id is the ParseID answer; a missing id a 404 with no change; otherwise a 204, and exactly that row is removed |
| Handlers.UserHandler.Login | handlers/user_handler.go:166-192 | an undecodable body is a 400; no user with the email, or none whose hash accepts the password, is a 401; when every user with the email accepts the password, the answer is 200 if their tokens sign and 500 "トークン生成に失敗しました" if they do not; a 200 carries a token issued for a stored user with that email whose hash accepts the password |
| Router.Match | router/router.go:17-43 | "/users" and "/login" match only themselves; "/users/" matches every path that starts with it |
| Router.UsersRoute | router/router.go:17-26 | POST creates, GET lists, any other method is a 405 |
| Router.ProtectedRoute | router/router.go:28-39 | GET reads, PATCH updates, DELETE removes, any other method is a 405 |
| Router.LoginRoute | router/router.go:43-50 | only POST logs in; any other method is a 405 |
| Router.NotAllowed | router/router.go:10-12 | `methodNotAllowedHandler` answers 405 with "許可されていないメソッドです" |
| Router.Serve | router/router.go:14-53 | an unmatched path is a 404; "/users" and "/login" dispatch on the method with the request's context; "/users/…" goes through the gate first, whose refusal is the answer and whose context the protected handler gets |
| Router.ProtectedHandlersRunOnlyBehindGate | router/router.go:28-41 | GetUserByID, PatchUser and DeleteUser run only for paths below "/users/" that the gate let through, with the token's subject in the context |
| Router.UnauthenticatedUnsupportedMethod | router/router.go:28-41 | below "/users/", a method the protected handler does not serve and no header gives the gate's 401, not the 405 |
| Router.UngatedRoutesIgnoreHeader | router/router.go:17-26 | "/users" and "/login" do not depend on the header, the token library, the configuration or the clock |
| Router.RouteTable | router/router.go:17-50 | for a request the gate lets through, each (pattern, method) pair runs the handler the table names, and every other method is a 405 |
| Router.PlainError | router/router.go:11 | the status is kept and the body is the message as plain text followed by one newline |
| Router.ServeHTTP | router/router.go:14-53 | answers given without a handler are the plain-text `http.Error` and change nothing; for every routed request the answer and the table afterwards are those of the handler that runs: POST "/users" creates a row and advances the sequence, GET "/users" answers the page, GET "/users/{id}" reads, POST "/login" logs in, and an authenticated PATCH or DELETE acts on the row named by the path whatever the token's subject (a PATCH of a missing id is a 500; neither PATCH nor DELETE moves the sequence) |

## Left out

- The token library's internals are a parameter: HMAC-SHA256, base64url, JSON and the compact serialisation of section 3.1 of RFC 7515. The model assumes only that decoding and verifying undo signing (`Jwt.Sound`). The library's own time-claim checks are the abstract `validate`.
- HMAC unforgeability is not modelled. Nothing states that a token not produced by `sign` fails `verify`.
- Jwt.ErrorText: gives only the leading sentinel text of the library's errors. The details the library appends (such as the reason after "token has invalid claims") are not modelled.
- Jwt.ParseToken: a token whose header names an algorithm the library does not register is reported as malformed. The library reports it as unverifiable; the model does not separate this case from other decoding failures.
- The `!ok || !token.Valid` branch after `jwt.Parse` (auth/jwt.go:42-45) is not modelled. It cannot be reached: `jwt.Parse` with a nil error always returns valid `MapClaims`.
- The time of the clock: `GenerateToken` reads the clock twice (auth/jwt.go:16-17), and so does `ParseToken` (once in the library's validation, once at auth/jwt.go:48); the model gives each one reading, `now`. The `time.Duration` overflow of a very large JWT_EXPIRE_MINUTES is not modelled.
- The package variables of config/config.go:8-12 are initialised before main.go:17-21 loads `.env`, so `Config.Load` reads the process environment alone; `.env` values never reach it. The loading of `.env` is not modelled.
- Claim numbers are decoded by the library as float64. They are modelled as integers, so neither precision loss for large values nor the truncating `int64(exp)` / `int(userID)` conversions of fractional values are modelled.
- Go's `int` and `int64` are unbounded integers in the model. Only parsing enforces the int64 range, as `strconv` does. The int/int64 mismatches between handler, service and repository are therefore not visible.
- The database is an abstract table: SQL execution, the driver and the connection are not modelled. Failures other than the ones the model names are not modelled: connection errors, scan errors, and the UNIQUE constraint on `email` declared by the `CREATE TABLE` of config/db.go, so two rows may share an email in the model. That `CREATE TABLE` has no `password_hash` column; the model follows the repository's statements, which read and write one.
- Repository.UserRepository.PatchUser: the `(nil, nil)` answer for `sql.ErrNoRows` from the UPDATE (repository/user_repository.go:103-105) is not modelled. It happens only when another request deletes the row between the two statements, and concurrency is not modelled.
- Handlers.UserHandler.Login: when several rows share the email and only some of them accept the password or sign a token, the answer depends on which row the lookup returns; the contract then states only that a 200 names an accepting row with a signed token. The table does not forbid duplicate emails here.
- Repository.UserRepository.GetUsers: PostgreSQL's error texts for a negative LIMIT or OFFSET are replaced by fixed texts. With both negative the model reports the OFFSET error, as PostgreSQL checks OFFSET first; the handlers never pass a negative value.
- The `models.User` type of the current service (with `PasswordHash`) is not part of this model. `Repository.User` is built from the columns the statements read and write. Whether the JSON of a created user shows the hash is not modelled.
- models/user.go's `GetUsers`, `CreateUser`, `GetUserByID` and `DeleteUser` are left out. They belong to the earlier iteration, and the repository models the same statements. `UpdateUser` is modelled up to the statement and arguments it sends, not their execution.
- Service.ValidUser: the `Validate` method of the user type the service uses is not part of this model. The model applies the rule of the earlier models/user.go (models/user.go:20-27), non-empty name and email, in its place.
- bcrypt is the abstract `Service.Hasher`. Its cost, its salt and its 72-byte password limit are folded into the `hash` function.
- JSON decoding of request bodies is given as its outcome (`Handlers.CreateUserRequest` etc., `None` when it fails). The request types are not part of this model; their fields are those the handlers read. Only the value of JSON encoding is modelled (`Handlers.Body`), not its bytes or the Content-Type header.
- Query-string parsing is given as each key's first value.
- `ServeMux` is modelled only for the three registered patterns. Path cleaning, redirects and host patterns are not modelled.
- config/db.go and main.go (database connection, migrations, dotenv loading, server start-up) are I/O and are not part of this model.
- Concurrency between requests is not modelled: each request is served on its own.
