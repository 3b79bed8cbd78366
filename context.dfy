/** auth/context.go: the authenticated user id carried in a request's `context.Context`.

    A Go context is an immutable chain of key/value links: `context.WithValue` adds a link
    in front, and `ctx.Value(key)` returns the value of the newest link whose key equals
    `key`, or nil. Keys are `interface{}` values, equal only when both their dynamic types
    and their values are equal, so the key is modelled by its type name and its value. */
module AuthContext {
  import opened Wrappers

  datatype Key = Key(typeName: string, name: string)

  /** `const UserIDKey contextKey = "userID"` */
  const UserIDKey: Key := Key("auth.contextKey", "userID")

  /** A dynamically typed value stored in a context: a Go `int`, or a value of any other
      type, described by its type name. */
  datatype Any = IntValue(i: int) | OtherValue(typeName: string)

  datatype Context = Background | WithValue(parent: Context, key: Key, val: Any)

  /** `ctx.Value(key)`, with `None` for nil. */
  function Lookup(ctx: Context, key: Key): (v: Option<Any>)
    ensures v.Some? <==> Mentions(ctx, key)
    ensures ctx.WithValue? && ctx.key == key ==> v == Some(ctx.val)
  {
    match ctx
    case Background => None
    case WithValue(parent, k, v) => if k == key then Some(v) else Lookup(parent, key)
  }

  /** Whether some link of the chain stores a value under `key`. */
  predicate Mentions(ctx: Context, key: Key) {
    match ctx
    case Background => false
    case WithValue(parent, k, _) => k == key || Mentions(parent, key)
  }

  /** `SetUserID(ctx, userID)`: the user id stored under `UserIDKey`, every other key
      looking up what it did before. */
  function SetUserID(ctx: Context, userID: int): (c: Context)
    ensures Lookup(c, UserIDKey) == Some(IntValue(userID))
    ensures forall k :: k != UserIDKey ==> Lookup(c, k) == Lookup(ctx, k)
  {
    WithValue(ctx, UserIDKey, IntValue(userID))
  }

  /** `GetUserID(ctx)`: the stored id and true when the value under `UserIDKey` is an
      `int`; the zero value and false when it is absent or of another type. */
  function GetUserID(ctx: Context): (r: (int, bool))
    ensures r.1 <==> Lookup(ctx, UserIDKey).Some? && Lookup(ctx, UserIDKey).value.IntValue?
    ensures r.1 ==> Lookup(ctx, UserIDKey) == Some(IntValue(r.0))
    ensures !r.1 ==> r.0 == 0
  {
    match Lookup(ctx, UserIDKey)
    case Some(IntValue(i)) => (i, true)
    case _ => (0, false)
  }

  /** Round trip: the id just set is the id read back. */
  lemma GetAfterSet(ctx: Context, userID: int)
    ensures GetUserID(SetUserID(ctx, userID)) == (userID, true)
  {
  }

  /** The newest `SetUserID` wins over an earlier one. */
  lemma LatestSetWins(ctx: Context, first: int, second: int)
    ensures GetUserID(SetUserID(SetUserID(ctx, first), second)) == (second, true)
  {
  }

  /** A context in which nothing was ever stored under a key looks that key up as nil. */
  lemma {:induction false} LookupUnmentioned(ctx: Context, key: Key)
    requires !Mentions(ctx, key)
    ensures Lookup(ctx, key) == None
  {
    match ctx
    case Background =>
    case WithValue(parent, _, _) => LookupUnmentioned(parent, key);
  }

  /** On a context where the user id was never set, `GetUserID` gives `(0, false)`. */
  lemma GetUserIDNeverSet(ctx: Context)
    requires !Mentions(ctx, UserIDKey)
    ensures GetUserID(ctx) == (0, false)
  {
    LookupUnmentioned(ctx, UserIDKey);
  }

  /** `SetUserID` leaves the value of every other key as it was. */
  lemma SetUserIDKeepsOtherKeys(ctx: Context, userID: int, key: Key)
    requires key != UserIDKey
    ensures Lookup(SetUserID(ctx, userID), key) == Lookup(ctx, key)
  {
  }
}
