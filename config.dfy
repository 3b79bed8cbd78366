/** config/config.go: the process-wide token settings, read once from the environment at
    start-up. The environment is a parameter of the model instead of a global. */
module Config {
  import opened Strconv

  /** The process environment; a variable that is absent is not in the map. */
  type Env = map<string, string>

  /** `os.Getenv(key)`: the value, or the empty string when the variable is unset. */
  function Getenv(env: Env, key: string): (v: string)
    ensures key !in env ==> v == ""
    ensures key in env ==> v == env[key]
  {
    if key in env then env[key] else ""
  }

  /** `getEnvAsInt`: the variable's value when it is set, non-empty and parses as an
      integer; the default otherwise. Nothing checks the sign of the value. */
  function GetEnvAsInt(env: Env, key: string, defaultValue: int): (v: int)
    ensures ParseInt(Getenv(env, key)).None? ==> v == defaultValue
    ensures ParseInt(Getenv(env, key)).Some? ==> v == ParseInt(Getenv(env, key)).value
  {
    var valStr := Getenv(env, key);
    if valStr != "" then
      match ParseInt(valStr)
      case Some(val) => val
      case None => defaultValue
    else defaultValue
  }

  /** The three package variables of config/config.go. */
  datatype Settings = Settings(jwtSecret: string, jwtIssuer: string, jwtExpireMinutes: int)

  const DefaultExpireMinutes: int := 60

  /** The package initialisation: the secret and the issuer are the raw strings, the expiry
      goes through `getEnvAsInt` with the default 60. */
  function Load(env: Env): (c: Settings)
    ensures c.jwtSecret == Getenv(env, "JWT_SECRET")
    ensures c.jwtIssuer == Getenv(env, "JWT_ISSUER")
    ensures c.jwtExpireMinutes == GetEnvAsInt(env, "JWT_EXPIRE_MINUTES", DefaultExpireMinutes)
  {
    Settings(Getenv(env, "JWT_SECRET"), Getenv(env, "JWT_ISSUER"),
             GetEnvAsInt(env, "JWT_EXPIRE_MINUTES", DefaultExpireMinutes))
  }

  /** An unset or empty variable yields the default. */
  lemma UnsetOrEmptyGivesDefault(env: Env, key: string, defaultValue: int)
    requires key !in env || env[key] == ""
    ensures GetEnvAsInt(env, key, defaultValue) == defaultValue
  {
  }

  /** A value holding a character that is neither a digit nor a leading sign yields the
      default. */
  lemma NonIntegerGivesDefault(env: Env, key: string, defaultValue: int, i: int)
    requires key in env && 0 <= i < |env[key]| && !IsDigit(env[key][i])
    requires i > 0 || (env[key][0] != '-' && env[key][0] != '+')
    ensures GetEnvAsInt(env, key, defaultValue) == defaultValue
  {
    ParseIntRejectsNonDigit(env[key], i);
  }

  /** The decimal spelling of any 64-bit integer is read back as that integer, zero and
      negative values included: there is no positivity check. */
  lemma IntegerValueIsTaken(env: Env, key: string, defaultValue: int, n: int)
    requires InInt64(n)
    requires key in env && env[key] == Itoa(n)
    ensures GetEnvAsInt(env, key, defaultValue) == n
  {
    ParseIntOfItoa(n);
  }

  /** With none of the variables set, the secret and the issuer are empty and tokens last
      60 minutes; a zero or negative `JWT_EXPIRE_MINUTES` is taken as it is. */
  lemma LoadDefaults(env: Env, n: int)
    requires InInt64(n)
    ensures Load(map[]) == Settings("", "", 60)
    ensures Load(map["JWT_EXPIRE_MINUTES" := Itoa(n)]).jwtExpireMinutes == n
  {
    IntegerValueIsTaken(map["JWT_EXPIRE_MINUTES" := Itoa(n)], "JWT_EXPIRE_MINUTES", 60, n);
  }
}
