/**
 * The users table behind `PostgresUserRepository`
 * (blog_server/src/data/user_repository.rs): registration with its
 * username/email pre-check, and the three lookups. As for posts, `dbError`
 * is `Some(message)` when acquiring a connection or running a statement
 * fails.
 */
module UserRepository {
  import opened Wrappers
  import opened Errors
  import Uuids
  import Posts

  datatype User = User(
    id: Uuids.Uuid,
    username: string,
    email: string,
    passwordHash: string,
    createdAt: Posts.DateTime)

  const DATABASE_ERROR_PREFIX: string := "database error: "
  /**
   * What the INSERT reports when the id is already taken (sqlx's prefix and
   * Postgres's unique-violation text; the constraint name is assumed).
   */
  const DUPLICATE_ID: string :=
    "error returned from database: duplicate key value violates unique constraint \"users_pkey\""

  /** A storage failure, as every repository method reports it. */
  function StorageError(message: string): (e: DomainError)
    ensures e.Internal? && e.detail == DATABASE_ERROR_PREFIX + message
  {
    DomainError.Internal(DATABASE_ERROR_PREFIX + message)
  }

  /** The first user in storage order satisfying `matches`. */
  function FindFirst(users: seq<User>, matches: User -> bool): (r: Option<User>)
    ensures r.Some? ==> r.value in users && matches(r.value)
    ensures r.None? ==> forall u :: u in users ==> !matches(u)
  {
    if users == [] then None
    else if matches(users[0]) then Some(users[0])
    else FindFirst(users[1..], matches)
  }

  /**
   * `SELECT * FROM users WHERE username = $1 OR email = $2`, first row. The
   * query has no ORDER BY, so when two rows collide PostgreSQL may return
   * either; the model takes the first in storage order.
   */
  function Conflict(users: seq<User>, username: string, email: string): (r: Option<User>)
    ensures r.Some? ==> r.value in users && (r.value.username == username || r.value.email == email)
    ensures r.None? <==> forall u :: u in users ==> u.username != username && u.email != email
  {
    FindFirst(users, (u: User) => u.username == username || u.email == email)
  }

  /** No two rows share an id, a username or an email. */
  predicate UniqueKeys(users: seq<User>) {
    forall i, j :: 0 <= i < j < |users| ==>
      users[i].id != users[j].id && users[i].username != users[j].username && users[i].email != users[j].email
  }

  /** The outcome of `create_user` on a table, without the storage failure. */
  function CreateOutcome(users: seq<User>, newUser: User): Result<User, DomainError> {
    match Conflict(users, newUser.username, newUser.email)
    case Some(existing) =>
      if existing.username == newUser.username then Failure(DomainError.Validation("Username exists"))
      else Failure(DomainError.Validation("email exists"))
    case None =>
      if exists u :: u in users && u.id == newUser.id then Failure(StorageError(DUPLICATE_ID))
      else Success(newUser)
  }

  /**
   * `create_user` rejects exactly the names and emails already taken. These
   * facts hold whichever colliding row the query returns.
   */
  lemma CreateOutcomeRejects(users: seq<User>, newUser: User)
    ensures CreateOutcome(users, newUser).Failure? && CreateOutcome(users, newUser).error.Validation? <==>
      exists u :: u in users && (u.username == newUser.username || u.email == newUser.email)
    ensures CreateOutcome(users, newUser) == Failure(DomainError.Validation("email exists")) ==>
      exists u :: u in users && u.email == newUser.email && u.username != newUser.username
    ensures (forall u :: u in users ==> u.email != newUser.email) &&
            (exists u :: u in users && u.username == newUser.username) ==>
      CreateOutcome(users, newUser) == Failure(DomainError.Validation("Username exists"))
  {
  }

  /** Appending an accepted user keeps every key unique. */
  lemma AcceptedKeepsKeysUnique(users: seq<User>, newUser: User)
    requires UniqueKeys(users) && CreateOutcome(users, newUser).Success?
    ensures UniqueKeys(users + [newUser])
  {
    var r := users + [newUser];
    forall i, j | 0 <= i < j < |r|
      ensures r[i].id != r[j].id && r[i].username != r[j].username && r[i].email != r[j].email
    {
      if j == |users| {
        assert r[i] in users;
      }
    }
  }

  class UserTable {
    /** The rows of `users`, in storage order. */
    var users: seq<User>

    predicate Valid()
      reads this
    {
      UniqueKeys(users)
    }

    constructor()
      ensures Valid() && users == []
    {
      users := [];
    }

    /**
     * `create_user`: the pre-check, then `INSERT … RETURNING`, whose
     * `created_at` is the database clock `now`. A rejected user inserts
     * nothing; an accepted one is appended and returned.
     */
    method CreateUser(newUser: User, now: Posts.DateTime, dbError: Option<string>)
      returns (r: Result<User, DomainError>)
      requires Valid()
      modifies this
      ensures Valid()
      ensures dbError.Some? ==> r == Failure(StorageError(dbError.value)) && users == old(users)
      ensures dbError.None? && CreateOutcome(old(users), newUser).Failure? ==>
        r == CreateOutcome(old(users), newUser) && users == old(users)
      ensures dbError.None? && CreateOutcome(old(users), newUser).Success? ==>
        r == Success(newUser.(createdAt := now)) && users == old(users) + [r.value]
    {
      if dbError.Some? {
        return Failure(StorageError(dbError.value));
      }
      var existing := Conflict(users, newUser.username, newUser.email);
      if existing.Some? {
        if existing.value.username == newUser.username {
          return Failure(DomainError.Validation("Username exists"));
        }
        if existing.value.email == newUser.email {
          return Failure(DomainError.Validation("email exists"));
        }
      }
      if exists u :: u in users && u.id == newUser.id {
        return Failure(StorageError(DUPLICATE_ID));
      }
      var row := newUser.(createdAt := now);
      AcceptedKeepsKeysUnique(users, row);
      users := users + [row];
      r := Success(row);
    }

    /** `get_user_by_id` */
    method GetUserById(id: Uuids.Uuid, dbError: Option<string>) returns (r: Result<User, DomainError>)
      requires Valid()
      ensures dbError.Some? ==> r == Failure(StorageError(dbError.value))
      ensures dbError.None? ==> (r.Success? <==> exists u :: u in users && u.id == id)
      ensures dbError.None? && r.Success? ==> r.value in users && r.value.id == id
      ensures dbError.None? && r.Failure? ==> r.error == DomainError.UserNotFound
    {
      if dbError.Some? {
        return Failure(StorageError(dbError.value));
      }
      match FindFirst(users, (u: User) => u.id == id)
      case Some(u) => r := Success(u);
      case None => r := Failure(DomainError.UserNotFound);
    }

    /** `get_user_by_username` */
    method GetUserByUsername(username: string, dbError: Option<string>) returns (r: Result<User, DomainError>)
      requires Valid()
      ensures dbError.Some? ==> r == Failure(StorageError(dbError.value))
      ensures dbError.None? ==> (r.Success? <==> exists u :: u in users && u.username == username)
      ensures dbError.None? && r.Success? ==> r.value in users && r.value.username == username
      ensures dbError.None? && r.Failure? ==> r.error == DomainError.UserNotFound
    {
      if dbError.Some? {
        return Failure(StorageError(dbError.value));
      }
      match FindFirst(users, (u: User) => u.username == username)
      case Some(u) => r := Success(u);
      case None => r := Failure(DomainError.UserNotFound);
    }

    /** `get_user_by_email` */
    method GetUserByEmail(email: string, dbError: Option<string>) returns (r: Result<User, DomainError>)
      requires Valid()
      ensures dbError.Some? ==> r == Failure(StorageError(dbError.value))
      ensures dbError.None? ==> (r.Success? <==> exists u :: u in users && u.email == email)
      ensures dbError.None? && r.Success? ==> r.value in users && r.value.email == email
      ensures dbError.None? && r.Failure? ==> r.error == DomainError.UserNotFound
    {
      if dbError.Some? {
        return Failure(StorageError(dbError.value));
      }
      match FindFirst(users, (u: User) => u.email == email)
      case Some(u) => r := Success(u);
      case None => r := Failure(DomainError.UserNotFound);
    }
  }

  /** With unique usernames, a username lookup finds the one user of that name. */
  lemma UsernameDeterminesUser(users: seq<User>, u: User)
    requires UniqueKeys(users) && u in users
    ensures FindFirst(users, (v: User) => v.username == u.username) == Some(u)
  {
    var found := FindFirst(users, (v: User) => v.username == u.username);
    var i :| 0 <= i < |users| && users[i] == u;
    var j :| 0 <= j < |users| && users[j] == found.value;
    assert users[i].username == users[j].username;
  }
}
