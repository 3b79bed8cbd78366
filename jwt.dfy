/** auth/jwt.go: issuing and verifying the HS256-signed JSON Web Tokens (RFC 7519, with the
    HMAC algorithm of section 3.2 of RFC 7518) that carry a user id.

    The token library (golang-jwt) is a parameter of the model: a `Library` value gives its
    signing, decoding, signature check and registered-claims validation as functions, and
    `Sound` states the one thing the model relies on, that decode and verify undo sign.
    The clock is the parameter `now`, in Unix seconds. */
module Jwt {
  import opened Wrappers
  import Config

  /** The signing methods golang-jwt registers; a token naming any other `alg` does not
      decode. */
  datatype Alg =
    | HS256 | HS384 | HS512
    | RS256 | RS384 | RS512
    | PS256 | PS384 | PS512
    | ES256 | ES384 | ES512
    | EdDSA | NoneAlg

  /** The type assertion `t.Method.(*jwt.SigningMethodHMAC)`. */
  predicate IsHmac(a: Alg): (r: bool)
    ensures r <==> a in {HS256, HS384, HS512}
  {
    a == HS256 || a == HS384 || a == HS512
  }

  /** A claim value as the JSON decoder yields it: a number (decoded as float64, modelled as
      an integer), a string, or anything else (boolean, null, array, object). */
  datatype ClaimValue = Num(n: int) | Str(s: string) | OtherJson

  /** The registered claims the core reads or writes; an absent claim is `None`. */
  datatype Claims = Claims(
    sub: Option<ClaimValue>,
    iss: Option<ClaimValue>,
    exp: Option<ClaimValue>,
    iat: Option<ClaimValue>)

  /** `[]byte(config.JWTSecret)` */
  type Key = string

  /** The token library. `sign` is `NewWithClaims(alg, claims).SignedString(key)`; `decode`
      reads the header's algorithm and the claims of a compact token (failing on a malformed
      token); `verify` checks the signature under a key; `validate` is the library's own
      check of the registered time claims at a given instant. */
  datatype Library = Library(
    sign: (Alg, Claims, Key) -> Result<string, string>,
    decode: string -> Option<(Alg, Claims)>,
    verify: (string, Key) -> bool,
    validate: (Claims, int) -> bool)

  /** What a correct library guarantees: a token it signed decodes to the algorithm and the
      claims it was signed with, and its signature verifies under the signing key. */
  ghost predicate Sound(lib: Library) {
    forall a, c, k :: lib.sign(a, c, k).Success? ==>
      lib.decode(lib.sign(a, c, k).value) == Some((a, c)) && lib.verify(lib.sign(a, c, k).value, k)
  }

  /** The claims literal of `GenerateToken`, built from one clock reading. */
  function IssuedClaims(cfg: Config.Settings, now: int, userID: int): (c: Claims)
    ensures c.sub == Some(Num(userID)) && c.iat == Some(Num(now))
    ensures IssuerOk(c, cfg.jwtIssuer)
    ensures c.exp.Some? && c.exp.value.Num? && c.exp.value.n - now == cfg.jwtExpireMinutes * 60
    ensures ExpiryOk(c, now) <==> cfg.jwtExpireMinutes >= 0
  {
    Claims(
      sub := Some(Num(userID)),
      iss := Some(Str(cfg.jwtIssuer)),
      exp := Some(Num(now + cfg.jwtExpireMinutes * 60)),
      iat := Some(Num(now)))
  }

  /** `GenerateToken(userID)`: an HS256 token over the issued claims, signed with the
      configured secret; a signing failure is returned as the library's error text. */
  function GenerateToken(lib: Library, cfg: Config.Settings, now: int, userID: int): (r: Result<string, string>)
    ensures Sound(lib) && r.Success? ==>
      && lib.decode(r.value) == Some((HS256, IssuedClaims(cfg, now, userID)))
      && lib.verify(r.value, cfg.jwtSecret)
  {
    lib.sign(HS256, IssuedClaims(cfg, now, userID), cfg.jwtSecret)
  }

  /** The reasons `ParseToken` gives for refusing a token. The first three come out of
      `jwt.Parse`; the last two are the explicit checks of auth/jwt.go. */
  datatype TokenError =
    | Malformed                  // the token does not decode
    | UnexpectedSigningMethod    // the key function refused a non-HMAC method
    | SignatureInvalid           // the signature does not verify under the secret
    | InvalidClaims              // the library's own validation of the time claims failed
    | Expired                    // "token has expired"
    | InvalidIssuer              // "invalid issuer"

  /** `err.Error()`: the library wraps the key function's error in its "unverifiable"
      error; its own errors are given by their leading sentinel text. */
  function ErrorText(e: TokenError): (s: string)
    ensures |s| > 0
    ensures s == "token has expired" <==> e == Expired
    ensures s == "invalid issuer" <==> e == InvalidIssuer
  {
    match e
    case Malformed => "token is malformed"
    case UnexpectedSigningMethod => "token is unverifiable: error while executing keyfunc: unexpected signing method"
    case SignatureInvalid => "token signature is invalid"
    case InvalidClaims => "token has invalid claims"
    case Expired => "token has expired"
    case InvalidIssuer => "invalid issuer"
  }

  /** The explicit expiry check passes: `exp` is present, numeric and not before `now`. */
  predicate ExpiryOk(c: Claims, now: int): (ok: bool)
    ensures ok <==> c.exp.Some? && c.exp.value.Num? && now <= c.exp.value.n
  {
    c.exp.Some? && c.exp.value.Num? && !(c.exp.value.n < now)
  }

  /** The explicit issuer check passes: `iss` is present, a string, and the configured one. */
  predicate IssuerOk(c: Claims, issuer: string): (ok: bool)
    ensures ok <==> c.iss.Some? && c.iss.value.Str? && c.iss.value.s == issuer
  {
    c.iss == Some(Str(issuer))
  }

  /** `ParseToken(tokenString)`: the library's decoding, the HMAC-only key function, the
      signature check and the library's claim validation, then the explicit expiry and
      issuer checks, in that order. */
  function ParseToken(lib: Library, cfg: Config.Settings, now: int, tokenString: string): (r: Result<Claims, TokenError>)
    ensures lib.decode(tokenString).None? ==> r == Failure(Malformed)
    ensures r.Success? <==>
      && lib.decode(tokenString).Some?
      && IsHmac(lib.decode(tokenString).value.0)
      && lib.verify(tokenString, cfg.jwtSecret)
      && lib.validate(lib.decode(tokenString).value.1, now)
      && ExpiryOk(lib.decode(tokenString).value.1, now)
      && IssuerOk(lib.decode(tokenString).value.1, cfg.jwtIssuer)
    ensures r.Success? ==> r.value == lib.decode(tokenString).value.1
    ensures lib.decode(tokenString).Some? && !IsHmac(lib.decode(tokenString).value.0) ==>
      r == Failure(UnexpectedSigningMethod)
    ensures r == Failure(Expired) <==>
      && lib.decode(tokenString).Some?
      && IsHmac(lib.decode(tokenString).value.0)
      && lib.verify(tokenString, cfg.jwtSecret)
      && lib.validate(lib.decode(tokenString).value.1, now)
      && !ExpiryOk(lib.decode(tokenString).value.1, now)
    ensures r == Failure(InvalidIssuer) <==>
      && lib.decode(tokenString).Some?
      && IsHmac(lib.decode(tokenString).value.0)
      && lib.verify(tokenString, cfg.jwtSecret)
      && lib.validate(lib.decode(tokenString).value.1, now)
      && ExpiryOk(lib.decode(tokenString).value.1, now)
      && !IssuerOk(lib.decode(tokenString).value.1, cfg.jwtIssuer)
    ensures
      (&& lib.decode(tokenString).Some? && IsHmac(lib.decode(tokenString).value.0)
       && !lib.verify(tokenString, cfg.jwtSecret))
      ==> r == Failure(SignatureInvalid)
    ensures
      (&& lib.decode(tokenString).Some? && IsHmac(lib.decode(tokenString).value.0)
       && lib.verify(tokenString, cfg.jwtSecret) && !lib.validate(lib.decode(tokenString).value.1, now))
      ==> r == Failure(InvalidClaims)
  {
    match lib.decode(tokenString)
    case None => Failure(Malformed)
    case Some((alg, claims)) =>
      if !IsHmac(alg) then Failure(UnexpectedSigningMethod)
      else if !lib.verify(tokenString, cfg.jwtSecret) then Failure(SignatureInvalid)
      else if !lib.validate(claims, now) then Failure(InvalidClaims)
      else if !ExpiryOk(claims, now) then Failure(Expired)
      else if !IssuerOk(claims, cfg.jwtIssuer) then Failure(InvalidIssuer)
      else Success(claims)
  }

  /** The tokens `GenerateToken` issues declare HS256, an HMAC method, and carry `sub` = the
      user id, `iss` = the configured issuer, `iat` = now and `exp` = now plus the configured
      number of minutes, in seconds. */
  lemma IssuedTokenContents(lib: Library, cfg: Config.Settings, now: int, userID: int, token: string)
    requires Sound(lib)
    requires GenerateToken(lib, cfg, now, userID) == Success(token)
    ensures lib.decode(token).Some? && lib.decode(token).value.0 == HS256 && IsHmac(HS256)
    ensures lib.verify(token, cfg.jwtSecret)
    ensures var c := lib.decode(token).value.1;
      && c.sub == Some(Num(userID))
      && c.iss == Some(Str(cfg.jwtIssuer))
      && c.iat == Some(Num(now))
      && c.exp == Some(Num(now + cfg.jwtExpireMinutes * 60))
  {
    assert lib.sign(HS256, IssuedClaims(cfg, now, userID), cfg.jwtSecret).Success?;
  }

  /** Round trip: a token issued at `issuedAt` is accepted at `now` exactly when `now` is
      not after its expiry and the library's own validation accepts it; it then yields the
      issued claims, whose `sub` is the user id. */
  lemma IssueThenParse(lib: Library, cfg: Config.Settings, issuedAt: int, now: int, userID: int, token: string)
    requires Sound(lib)
    requires GenerateToken(lib, cfg, issuedAt, userID) == Success(token)
    ensures ParseToken(lib, cfg, now, token).Success? <==>
      lib.validate(IssuedClaims(cfg, issuedAt, userID), now) && now <= issuedAt + cfg.jwtExpireMinutes * 60
    ensures ParseToken(lib, cfg, now, token).Success? ==>
      ParseToken(lib, cfg, now, token).value == IssuedClaims(cfg, issuedAt, userID) &&
      ParseToken(lib, cfg, now, token).value.sub == Some(Num(userID))
  {
    IssuedTokenContents(lib, cfg, issuedAt, userID, token);
  }

  /** A token issued by this service and presented after its expiry is refused; when the
      library's own validation lets it through, the explicit check reports "token has
      expired". */
  lemma ExpiredTokenRefused(lib: Library, cfg: Config.Settings, issuedAt: int, now: int, userID: int, token: string)
    requires Sound(lib)
    requires GenerateToken(lib, cfg, issuedAt, userID) == Success(token)
    requires now > issuedAt + cfg.jwtExpireMinutes * 60
    ensures ParseToken(lib, cfg, now, token).Failure?
    ensures lib.validate(IssuedClaims(cfg, issuedAt, userID), now) ==>
      ParseToken(lib, cfg, now, token) == Failure(Expired)
  {
    IssuedTokenContents(lib, cfg, issuedAt, userID, token);
  }

  /** A token issued under issuer A is refused with "invalid issuer" by a verifier that
      shares the secret but is configured with another issuer B. */
  lemma ForeignIssuerRefused(lib: Library, cfgA: Config.Settings, cfgB: Config.Settings, issuedAt: int, now: int, userID: int, token: string)
    requires Sound(lib)
    requires GenerateToken(lib, cfgA, issuedAt, userID) == Success(token)
    requires cfgB.jwtSecret == cfgA.jwtSecret && cfgB.jwtIssuer != cfgA.jwtIssuer
    requires lib.validate(IssuedClaims(cfgA, issuedAt, userID), now)
    requires now <= issuedAt + cfgA.jwtExpireMinutes * 60
    ensures ParseToken(lib, cfgB, now, token) == Failure(InvalidIssuer)
  {
    IssuedTokenContents(lib, cfgA, issuedAt, userID, token);
  }

  /** The explicit expiry check refuses only `exp < now`: a token whose `exp` equals `now`
      passes it, one second later it does not. */
  lemma ExpiryBoundary(c: Claims, now: int)
    requires c.exp == Some(Num(now))
    ensures ExpiryOk(c, now) && !ExpiryOk(c, now + 1)
  {
  }
}
