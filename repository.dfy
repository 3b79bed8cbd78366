/** repository/user_repository.go: the users table, seen through the statements the
    repository sends. The table is an object whose rows are a map from id to the other
    columns; `nextId` is the `SERIAL` sequence that numbers new rows. The SQL engine, the
    driver and the connection are not modelled: each method does what its statement means. */
module Repository {
  import opened Wrappers
  import opened Errors

  /** `models.User` of this iteration. The file that declares it is not part of this model;
      its fields are the columns the repository's statements read and write. `CreatedAt`
      is the database timestamp in Unix seconds. */
  datatype User = User(id: int, name: string, email: string, passwordHash: string, createdAt: int)

  /** The columns of a row other than its id. */
  datatype Row = Row(name: string, email: string, passwordHash: string, createdAt: int)

  /** A user as scanned by a SELECT that reads every column. */
  function Full(id: int, row: Row): User {
    User(id, row.name, row.email, row.passwordHash, row.createdAt)
  }

  /** A user as scanned by a SELECT or RETURNING that does not read `password_hash`: the
      hash stays the zero value "". */
  function Listed(id: int, row: Row): User {
    User(id, row.name, row.email, "", row.createdAt)
  }

  /** Whether some row has the given email. */
  predicate HasEmail(rows: map<int, Row>, email: string) {
    exists id :: id in rows && rows[id].email == email
  }

  predicate StrictlyIncreasing(s: seq<int>) {
    forall i, j :: 0 <= i < j < |s| ==> s[i] < s[j]
  }

  /** The keys of `rows` in `[lo, hi)`, ascending. */
  function KeysBetween(rows: map<int, Row>, lo: int, hi: int): seq<int>
    decreases hi - lo
  {
    if lo >= hi then [] else (if lo in rows then [lo] else []) + KeysBetween(rows, lo + 1, hi)
  }

  lemma {:induction false} KeysBetweenAscending(rows: map<int, Row>, lo: int, hi: int)
    ensures StrictlyIncreasing(KeysBetween(rows, lo, hi))
    ensures forall id :: id in KeysBetween(rows, lo, hi) <==> id in rows && lo <= id < hi
    decreases hi - lo
  {
    if lo < hi {
      KeysBetweenAscending(rows, lo + 1, hi);
      var rest := KeysBetween(rows, lo + 1, hi);
      assert forall i :: 0 <= i < |rest| ==> lo < rest[i] by {
        forall i | 0 <= i < |rest| ensures lo < rest[i] {
          assert rest[i] in rest;
        }
      }
    }
  }

  /** The part of `ids` that `LIMIT limit OFFSET offset` keeps. */
  function Window(ids: seq<int>, limit: nat, offset: nat): seq<int> {
    if offset >= |ids| then []
    else if limit < |ids| - offset then ids[offset..offset + limit] else ids[offset..]
  }

  /** The window is the run of `ids` that starts at `offset` and has at most `limit`
      elements. */
  lemma WindowRun(ids: seq<int>, limit: nat, offset: nat)
    ensures |Window(ids, limit, offset)| ==
      if offset >= |ids| then 0 else if limit < |ids| - offset then limit else |ids| - offset
    ensures forall j :: 0 <= j < |Window(ids, limit, offset)| ==>
      offset + j < |ids| && Window(ids, limit, offset)[j] == ids[offset + j]
  {
  }

  /** `PatchUser`'s merge: a nil argument keeps the stored value, a non-nil one replaces it;
      the hash and the creation time are never written. */
  function Merge(row: Row, name: Option<string>, email: Option<string>): (r: Row)
    ensures r.passwordHash == row.passwordHash && r.createdAt == row.createdAt
    ensures name.None? ==> r.name == row.name
    ensures name.Some? ==> r.name == name.value
    ensures email.None? ==> r.email == row.email
    ensures email.Some? ==> r.email == email.value
  {
    var r1 := if name.Some? then row.(name := name.value) else row;
    if email.Some? then r1.(email := email.value) else r1
  }

  /** Patching twice with the same arguments is patching once. */
  lemma MergeIdempotent(row: Row, name: Option<string>, email: Option<string>)
    ensures Merge(Merge(row, name, email), name, email) == Merge(row, name, email)
  {
  }

  /** Patching with two nil arguments changes nothing. */
  lemma MergeNothing(row: Row)
    ensures Merge(row, None, None) == row
  {
  }

  class UserRepository {
    var rows: map<int, Row>
    var nextId: int

    /** Every stored id was handed out by the sequence, which starts at 1. */
    ghost predicate Valid()
      reads this
    {
      1 <= nextId && forall id :: id in rows ==> 1 <= id < nextId
    }

    /** An empty table whose sequence has not been used. */
    constructor ()
      ensures Valid() && rows == map[] && nextId == 1
    {
      rows := map[];
      nextId := 1;
    }

    /** The ids of all rows, ascending: `ORDER BY id`. */
    function OrderedIds(): (ids: seq<int>)
      reads this
      requires Valid()
      ensures StrictlyIncreasing(ids)
      ensures forall id :: id in ids <==> id in rows
    {
      KeysBetweenAscending(rows, 1, nextId);
      KeysBetween(rows, 1, nextId)
    }

    /** The rows `ORDER BY id LIMIT limit OFFSET offset` selects, as listed users: after
        skipping the first `offset` rows in id order, at most `limit` of the next ones. */
    function Page(limit: nat, offset: nat): (p: seq<User>)
      reads this
      requires Valid()
      ensures |p| <= limit
      ensures |p| == if offset >= |OrderedIds()| then 0 else
        (if limit < |OrderedIds()| - offset then limit else |OrderedIds()| - offset)
      ensures forall j :: 0 <= j < |p| ==>
        (offset + j < |OrderedIds()| &&
         p[j] == Listed(OrderedIds()[offset + j], rows[OrderedIds()[offset + j]]))
      ensures forall i, j :: 0 <= i < j < |p| ==> p[i].id < p[j].id
    {
      var window := Window(OrderedIds(), limit, offset);
      WindowRun(OrderedIds(), limit, offset);
      var rs := rows;
      seq(|window|, j requires 0 <= j < |window| => Listed(window[j], rs[window[j]]))
    }

    /** `CreateUser`: the INSERT keeps the name, email and hash, and RETURNING fills in the
        id the sequence hands out and the creation time (the database clock, `now`). */
    method CreateUser(user: User, now: int) returns (r: Result<User, Error>)
      requires Valid()
      modifies this
      ensures Valid()
      ensures old(nextId) !in old(rows)
      ensures r == Success(user.(id := old(nextId), createdAt := now))
      ensures rows == old(rows)[old(nextId) := Row(user.name, user.email, user.passwordHash, now)]
      ensures nextId == old(nextId) + 1
    {
      var id := nextId;
      rows := rows[id := Row(user.name, user.email, user.passwordHash, now)];
      nextId := nextId + 1;
      r := Success(user.(id := id, createdAt := now));
    }

    /** `GetUserByID`: the listed user, or no user and no error when the id is missing. */
    method GetUserByID(id: int) returns (r: Result<Option<User>, Error>)
      ensures id !in rows ==> r == Success(None)
      ensures id in rows ==> r == Success(Some(Listed(id, rows[id])))
    {
      if id in rows {
        r := Success(Some(Listed(id, rows[id])));
      } else {
        r := Success(None);
      }
    }

    /** `GetUserByEmail`: a user with that email, with its hash, or `sql.ErrNoRows` when
        there is none. Without the UNIQUE constraint the row is any of those matching. */
    method GetUserByEmail(email: string) returns (r: Result<User, Error>)
      ensures r.Success? <==> HasEmail(rows, email)
      ensures r.Failure? ==> r.error == ErrNoRows
      ensures r.Success? ==>
        r.value.id in rows && r.value == Full(r.value.id, rows[r.value.id]) && r.value.email == email
    {
      if exists id :: id in rows && rows[id].email == email {
        var id :| id in rows && rows[id].email == email;
        r := Success(Full(id, rows[id]));
      } else {
        r := Failure(ErrNoRows);
      }
    }

    /** `GetUsers`: the page of listed users, gathered row by row in the order the query
        returns them. PostgreSQL refuses a negative LIMIT or OFFSET, checking OFFSET first. */
    method GetUsers(limit: int, offset: int) returns (r: Result<seq<User>, Error>)
      requires Valid()
      ensures offset < 0 ==> r == Failure(DbError("OFFSET must not be negative"))
      ensures 0 <= offset && limit < 0 ==> r == Failure(DbError("LIMIT must not be negative"))
      ensures 0 <= limit && 0 <= offset ==> r == Success(Page(limit, offset))
    {
      if offset < 0 {
        return Failure(DbError("OFFSET must not be negative"));
      }
      if limit < 0 {
        return Failure(DbError("LIMIT must not be negative"));
      }
      var selected := Window(OrderedIds(), limit, offset);
      var users: seq<User> := [];
      var i := 0;
      while i < |selected|
        invariant 0 <= i <= |selected|
        invariant |users| == i
        invariant forall j :: 0 <= j < i ==> users[j] == Listed(selected[j], rows[selected[j]])
      {
        users := users + [Listed(selected[i], rows[selected[i]])];
        i := i + 1;
      }
      assert users == Page(limit, offset) by {
        var page := Page(limit, offset);
        assert |page| == |selected|;
        forall j | 0 <= j < |users| ensures users[j] == page[j] {
        }
      }
      return Success(users);
    }

    /** `PatchUser`: a missing id gives the lookup's `sql.ErrNoRows` and changes nothing;
        otherwise the row takes the merge of its stored values and the arguments, and the
        listed user is returned. */
    method PatchUser(id: int, name: Option<string>, email: Option<string>) returns (r: Result<Option<User>, Error>)
      requires Valid()
      modifies this
      ensures Valid() && nextId == old(nextId)
      ensures id !in old(rows) ==> r == Failure(ErrNoRows) && unchanged(this)
      ensures id in old(rows) ==>
        rows == old(rows)[id := Merge(old(rows)[id], name, email)] &&
        r == Success(Some(Listed(id, rows[id])))
    {
      if id !in rows {
        return Failure(ErrNoRows);
      }
      var user := rows[id];
      if name.Some? {
        user := user.(name := name.value);
      }
      if email.Some? {
        user := user.(email := email.value);
      }
      rows := rows[id := user];
      r := Success(Some(Listed(id, user)));
    }

    /** `DeleteUser`: `sql.ErrNoRows` when no row has the id; otherwise that row, and no
        other, is removed. */
    method DeleteUser(id: int) returns (r: Outcome<Error>)
      requires Valid()
      modifies this
      ensures Valid() && nextId == old(nextId)
      ensures id !in old(rows) ==> r == Fail(ErrNoRows) && unchanged(this)
      ensures id in old(rows) ==> r == Pass && rows == old(rows) - {id}
    {
      if id !in rows {
        return Fail(ErrNoRows);
      }
      rows := rows - {id};
      r := Pass;
    }
  }
}
