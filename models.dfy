/** models/user.go, an earlier iteration of the service kept in the repository: its user
    record (without a password hash), the record's validation, and the construction of the
    dynamic UPDATE statement of `UpdateUser`. */
module Models {
  import opened Wrappers
  import opened Strconv
  import opened Strings

  /** `models.User` of this file; `CreatedAt` is the database timestamp in Unix seconds. */
  datatype User = User(id: int, name: string, email: string, createdAt: int)

  /** `(*User).Validate`: a name and an email are required, the name being checked first. */
  function Validate(u: User): (r: Outcome<string>)
    ensures r == Pass <==> u.name != "" && u.email != ""
    ensures u.name == "" ==> r == Fail("name is required")
    ensures u.name != "" && u.email == "" ==> r == Fail("email is required")
  {
    if u.name == "" then Fail("name is required")
    else if u.email == "" then Fail("email is required")
    else Pass
  }

  /** An argument bound to a placeholder: a Go string or a Go int. */
  datatype SqlArg = TextArg(s: string) | IntArg(i: int)

  /** The `updates` map: one entry per field that is not nil. */
  function Updates(name: Option<string>, email: Option<string>): (m: map<string, string>)
    ensures m.Keys <= {"name", "email"}
    ensures "name" in m <==> name.Some?
    ensures "email" in m <==> email.Some?
    ensures name.Some? ==> m["name"] == name.value
    ensures email.Some? ==> m["email"] == email.value
  {
    var withName: map<string, string> := if name.Some? then map["name" := name.value] else map[];
    if email.Some? then withName["email" := email.value] else withName
  }

  /** The map has one key per non-nil field. */
  lemma UpdatesSize(name: Option<string>, email: Option<string>)
    ensures |Updates(name, email).Keys| == (if name.Some? then 1 else 0) + (if email.Some? then 1 else 0)
  {
    var withName: map<string, string> := if name.Some? then map["name" := name.value] else map[];
    assert |withName.Keys| == (if name.Some? then 1 else 0);
    if email.Some? {
      assert "email" !in withName;
      assert Updates(name, email).Keys == withName.Keys + {"email"};
    }
  }

  /** The PostgreSQL placeholder `$n`: a '$' followed by the decimal text of `n`, which
      reads back as `n`. */
  function Placeholder(n: nat): (p: string)
    ensures |p| > 1 && p[0] == '$' && p[1..] == Itoa(n)
  {
    "$" + Itoa(n)
  }

  /** What follows the '$' of a placeholder parses back as its index. */
  lemma PlaceholderReadsBack(n: nat)
    requires n <= MaxInt64
    ensures ParseInt(Placeholder(n)[1..]) == Some(n)
  {
    ParseIntOfItoa(n);
  }

  /** The SET list for columns taken in the given order: the i-th clause (from 0) assigns
      its column from placeholder `$(i+1)`. */
  function SetClauses(columns: seq<string>): (clauses: seq<string>)
    ensures |clauses| == |columns|
  {
    seq(|columns|, i requires 0 <= i < |columns| => columns[i] + " = " + Placeholder(i + 1))
  }

  /** Appending a column appends its clause, numbered after the earlier ones. */
  lemma SetClausesSnoc(columns: seq<string>, column: string)
    ensures SetClauses(columns + [column]) == SetClauses(columns) + [column + " = " + Placeholder(|columns| + 1)]
  {
  }

  predicate Distinct(columns: seq<string>) {
    forall i, j :: 0 <= i < j < |columns| ==> columns[i] != columns[j]
  }

  /** One more column taken from the keys not yet visited keeps the columns distinct and
      exactly the visited keys. */
  lemma TakeColumn(keys: set<string>, columns: seq<string>, remaining: set<string>, column: string)
    requires column in remaining && remaining <= keys
    requires forall c :: c in columns <==> c in keys && c !in remaining
    requires Distinct(columns)
    ensures forall c :: c in columns + [column] <==> c in keys && c !in remaining - {column}
    ensures Distinct(columns + [column])
  {
    assert column !in columns;
  }

  /** The SQL text of `UpdateUser` for a given list of SET clauses and id placeholder. */
  function UpdateStatement(clauses: seq<string>, idIndex: nat): (q: string)
    ensures HasPrefix(q, "UPDATE users SET ")
    ensures clauses == [] ==>
      q == "UPDATE users SET  WHERE id = " + Placeholder(idIndex) + " RETURNING id, name, email, created_at"
    ensures |clauses| == 1 ==>
      q == "UPDATE users SET " + clauses[0] + " WHERE id = " + Placeholder(idIndex) + " RETURNING id, name, email, created_at"
  {
    "UPDATE users SET " + Join(clauses, ", ") + " WHERE id = " + Placeholder(idIndex)
      + " RETURNING id, name, email, created_at"
  }

  /** The loop of `UpdateUser` over the `updates` map, visiting its keys in whatever order
      the runtime chooses (`columns` is the order taken): one SET clause and one argument
      per key, the i-th clause (from 0) reading placeholder `$(i+1)` and the i-th argument
      being that key's value. */
  method BuildSetList(updates: map<string, string>)
    returns (setClauses: seq<string>, args: seq<SqlArg>, ghost columns: seq<string>)
    ensures |columns| == |updates.Keys|
    ensures forall c :: c in columns <==> c in updates
    ensures Distinct(columns)
    ensures setClauses == SetClauses(columns)
    ensures |args| == |columns|
    ensures forall i :: 0 <= i < |columns| ==> args[i] == TextArg(updates[columns[i]])
    ensures |setClauses| == |args| == |updates.Keys|
    ensures forall i :: 0 <= i < |args| ==> args[i].TextArg? && args[i].s in updates.Values
  {
    setClauses := [];
    args := [];
    var argIndex := 1;
    columns := [];
    var remaining := updates.Keys;
    while remaining != {}
      invariant remaining <= updates.Keys
      invariant forall c :: c in columns <==> c in updates && c !in remaining
      invariant Distinct(columns)
      invariant |columns| + |remaining| == |updates.Keys|
      invariant argIndex == |columns| + 1
      invariant setClauses == SetClauses(columns)
      invariant |args| == |columns|
      invariant forall i :: 0 <= i < |columns| ==> args[i] == TextArg(updates[columns[i]])
      decreases |remaining|
    {
      var column :| column in remaining;
      SetClausesSnoc(columns, column);
      TakeColumn(updates.Keys, columns, remaining, column);
      setClauses := setClauses + [column + " = " + Placeholder(argIndex)];
      args := args + [TextArg(updates[column])];
      argIndex := argIndex + 1;
      columns := columns + [column];
      remaining := remaining - {column};
    }
  }

  /** The statement and arguments `UpdateUser(id, name, email)` sends to the database.
      Whatever order the loop takes, each non-nil field is set exactly once, the k SET
      placeholders are `$1..$k` in clause order, the id is bound to `$(k+1)`, and the i-th
      argument is the value bound to `$(i+1)`. */
  method UpdateUserQuery(id: int, name: Option<string>, email: Option<string>)
    returns (query: string, args: seq<SqlArg>, ghost columns: seq<string>)
    ensures |columns| == (if name.Some? then 1 else 0) + (if email.Some? then 1 else 0)
    ensures forall c :: c in columns <==> c in Updates(name, email)
    ensures Distinct(columns)
    ensures query == UpdateStatement(SetClauses(columns), |columns| + 1)
    ensures |args| == |columns| + 1 && args[|columns|] == IntArg(id)
    ensures forall i :: 0 <= i < |columns| ==> args[i] == TextArg(Updates(name, email)[columns[i]])
    ensures |args| == (if name.Some? then 1 else 0) + (if email.Some? then 1 else 0) + 1
    ensures args[|args| - 1] == IntArg(id)
    ensures forall i :: 0 <= i < |args| - 1 ==>
      (name.Some? && args[i] == TextArg(name.value)) || (email.Some? && args[i] == TextArg(email.value))
    ensures name.None? && email.None? ==> query == UpdateStatement([], 1)
  {
    var updates := Updates(name, email);
    UpdatesSize(name, email);
    var setClauses;
    setClauses, args, columns := BuildSetList(updates);
    var argIndex := |args| + 1;
    query := UpdateStatement(setClauses, argIndex);
    args := args + [IntArg(id)];
  }

  /** Distinct indices give distinct placeholders, so no two arguments share one. */
  lemma PlaceholdersDistinct(i: nat, j: nat)
    requires i != j && i <= MaxInt64 && j <= MaxInt64
    ensures Placeholder(i) != Placeholder(j)
  {
    PlaceholderReadsBack(i);
    PlaceholderReadsBack(j);
  }

  /** With both fields nil the SET list is empty and the statement is not valid SQL:
      nothing in `UpdateUser` guards against it. */
  lemma EmptyUpdate(id: int)
    ensures Updates(None, None) == map[]
    ensures UpdateStatement(SetClauses([]), 1) ==
      "UPDATE users SET " + " WHERE id = $1" + " RETURNING id, name, email, created_at"
  {
    assert Itoa(1) == "1";
    assert Placeholder(1) == "$1";
    assert SetClauses([]) == [];
    assert Join([], ", ") == "";
    assert " WHERE id = " + Placeholder(1) == " WHERE id = $1";
  }
}
