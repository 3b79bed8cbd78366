/** service/user_service.go: the rules the service applies before and after the repository.
    Registration validates the user, then the password, then hashes the password into the
    caller's user and stores it; login looks the user up by email and compares the stored
    hash with the password. bcrypt is the parameter `Hasher`. */
module Service {
  import opened Wrappers
  import opened Errors
  import opened Repository
  import Models

  /** bcrypt as two functions: `hash` is `GenerateFromPassword` (which can fail, with the
      library's error text), `compare(hash, password)` is `CompareHashAndPassword`
      succeeding. The salt bcrypt draws is part of the function. */
  datatype Hasher = Hasher(hash: string -> Result<string, string>, compare: (string, string) -> bool)

  /** What a correct bcrypt guarantees: a hash it produced accepts the password it was
      produced from. */
  ghost predicate Sound(hasher: Hasher) {
    forall p :: hasher.hash(p).Success? ==> hasher.compare(hasher.hash(p).value, p)
  }

  /** `user.Validate()`: the name-and-email rule of the user record. */
  function ValidUser(user: User): (r: bool)
    ensures r <==> user.name != "" && user.email != ""
  {
    Models.Validate(Models.User(user.id, user.name, user.email, user.createdAt)).Pass?
  }

  class UserService {
    const repo: UserRepository

    constructor (repo: UserRepository)
      ensures this.repo == repo
    {
      this.repo := repo;
    }

    /** `CreateUser(user, password)`. `caller` is the caller's `*User` after the call: the
        hash is written into it in place, and on success the repository fills in its id and
        creation time. An invalid user and an empty password are refused without hashing and
        without touching the table, the user being checked first; a hash failure is returned
        as it is, also without touching the table. */
    method CreateUser(user: User, password: string, hasher: Hasher, now: int)
      returns (r: Result<User, Error>, caller: User)
      requires repo.Valid()
      modifies repo
      ensures repo.Valid()
      ensures !ValidUser(user) ==> r == Failure(ErrValidation) && caller == user && unchanged(repo)
      ensures ValidUser(user) && password == "" ==>
        r == Failure(ErrValidation) && caller == user && unchanged(repo)
      ensures ValidUser(user) && password != "" && hasher.hash(password).Failure? ==>
        r == Failure(HashError(hasher.hash(password).error)) && caller == user && unchanged(repo)
      ensures ValidUser(user) && password != "" && hasher.hash(password).Success? ==>
        var stored := user.(passwordHash := hasher.hash(password).value);
        && r == Success(stored.(id := old(repo.nextId), createdAt := now))
        && caller == r.value
        && repo.rows == old(repo.rows)[old(repo.nextId) := Row(stored.name, stored.email, stored.passwordHash, now)]
        && repo.nextId == old(repo.nextId) + 1
    {
      caller := user;
      if !ValidUser(user) {
        return Failure(ErrValidation), caller;
      }
      if password == "" {
        return Failure(ErrValidation), caller;
      }
      var hashed := hasher.hash(password);
      if hashed.Failure? {
        return Failure(HashError(hashed.error)), caller;
      }
      caller := caller.(passwordHash := hashed.value);
      r := repo.CreateUser(caller, now);
      if r.Success? {
        caller := r.value;
      }
    }

    /** `GetUserByID`, `GetUsers`, `PatchUser` and `DeleteUser` hand their arguments to the
        repository and its result back unchanged. */
    method GetUserByID(id: int) returns (r: Result<Option<User>, Error>)
      ensures id !in repo.rows ==> r == Success(None)
      ensures id in repo.rows ==> r == Success(Some(Listed(id, repo.rows[id])))
    {
      r := repo.GetUserByID(id);
    }

    method GetUsers(limit: int, offset: int) returns (r: Result<seq<User>, Error>)
      requires repo.Valid()
      ensures offset < 0 ==> r == Failure(DbError("OFFSET must not be negative"))
      ensures 0 <= offset && limit < 0 ==> r == Failure(DbError("LIMIT must not be negative"))
      ensures 0 <= limit && 0 <= offset ==> r == Success(repo.Page(limit, offset))
    {
      r := repo.GetUsers(limit, offset);
    }

    method PatchUser(id: int, name: Option<string>, email: Option<string>) returns (r: Result<Option<User>, Error>)
      requires repo.Valid()
      modifies repo
      ensures repo.Valid() && repo.nextId == old(repo.nextId)
      ensures id !in old(repo.rows) ==> r == Failure(ErrNoRows) && unchanged(repo)
      ensures id in old(repo.rows) ==>
        repo.rows == old(repo.rows)[id := Merge(old(repo.rows)[id], name, email)] &&
        r == Success(Some(Listed(id, repo.rows[id])))
    {
      r := repo.PatchUser(id, name, email);
    }

    method DeleteUser(id: int) returns (r: Outcome<Error>)
      requires repo.Valid()
      modifies repo
      ensures repo.Valid() && repo.nextId == old(repo.nextId)
      ensures id !in old(repo.rows) ==> r == Fail(ErrNoRows) && unchanged(repo)
      ensures id in old(repo.rows) ==> r == Pass && repo.rows == old(repo.rows) - {id}
    {
      r := repo.DeleteUser(id);
    }

    /** `Authenticate(email, password)`: no user with that email is `ErrorNotFound`; a
        stored hash that does not accept the password is `ErrorInvalidPassword`; otherwise
        the user read by the repository, unchanged. When several rows share the email (the
        table does not forbid it here), the one the lookup returned decides. */
    method Authenticate(email: string, password: string, hasher: Hasher) returns (r: Result<User, Error>)
      ensures !HasEmail(repo.rows, email) ==> r == Failure(ErrorNotFound)
      ensures HasEmail(repo.rows, email) ==> r.Success? || r == Failure(ErrorInvalidPassword)
      ensures r.Success? ==>
        && r.value.id in repo.rows
        && r.value == Full(r.value.id, repo.rows[r.value.id])
        && r.value.email == email
        && hasher.compare(r.value.passwordHash, password)
      ensures HasEmail(repo.rows, email) &&
        (forall id :: id in repo.rows && repo.rows[id].email == email ==> hasher.compare(repo.rows[id].passwordHash, password))
        ==> r.Success?
      ensures HasEmail(repo.rows, email) &&
        (forall id :: id in repo.rows && repo.rows[id].email == email ==> !hasher.compare(repo.rows[id].passwordHash, password))
        ==> r == Failure(ErrorInvalidPassword)
    {
      var found := repo.GetUserByEmail(email);
      if found.Failure? {
        return Failure(ErrorNotFound);
      }
      var user := found.value;
      if !hasher.compare(user.passwordHash, password) {
        return Failure(ErrorInvalidPassword);
      }
      r := Success(user);
    }

    /** Registration then login: a valid user with a non-empty password whose email no
        row has yet, once stored, logs in with that password as the stored user. */
    method RegisterThenLogin(user: User, password: string, hasher: Hasher, now: int)
      returns (created: Result<User, Error>, login: Result<User, Error>)
      requires repo.Valid() && Sound(hasher)
      requires ValidUser(user) && password != "" && hasher.hash(password).Success?
      requires !HasEmail(repo.rows, user.email)
      modifies repo
      ensures repo.Valid()
      ensures created.Success? && login == created
      ensures login.value.email == user.email && login.value.passwordHash == hasher.hash(password).value
    {
      var caller;
      created, caller := CreateUser(user, password, hasher, now);
      var id := created.value.id;
      assert id in repo.rows && repo.rows[id].email == user.email;
      forall other | other in repo.rows && repo.rows[other].email == user.email
        ensures other == id
      {
      }
      login := Authenticate(user.email, password, hasher);
    }
  }
}
