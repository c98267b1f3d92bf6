/**
 * `AuthService` (blog_server/src/application/auth_service.rs): user lookup,
 * login by username and registration, over the users table and the token
 * and password oracles.
 */
module Authentication {
  import opened Wrappers
  import opened Errors
  import opened UserRepository
  import opened Security
  import Uuids
  import Posts

  /** The registration payload `Auth`. */
  datatype Auth = Auth(username: string, email: string, password: string)

  /** `AuthAnswer { token, uuid }` */
  datatype AuthAnswer = AuthAnswer(token: string, uuid: Uuids.Uuid)

  /**
   * `login_by_username` on a table: the user lookup's error converted by `?`
   * (so an unknown name is NotFound), a malformed stored hash or a wrong
   * password Unautorized, a token failure Internal.
   */
  function Login(users: seq<User>, username: string, password: string, keys: JwtService,
                 jwt: JwtOracle, passwords: PasswordOracle, dbError: Option<string>): Result<AuthAnswer, BlogError>
  {
    if dbError.Some? then Failure(ToBlogError(StorageError(dbError.value)))
    else match FindFirst(users, (u: User) => u.username == username)
      case None => Failure(ToBlogError(DomainError.UserNotFound))
      case Some(u) =>
        match PasswordVerify(passwords, password, u.passwordHash)
        case Failure(_) => Failure(BlogError.Unautorized)
        case Success(valid) =>
          if !valid then Failure(BlogError.Unautorized)
          else match GenerateToken(jwt, keys, u.id)
            case Failure(e) => Failure(BlogError.Internal(e))
            case Success(token) => Success(AuthAnswer(token, u.id))
  }

  /** The answers `Login` gives, case by case. */
  lemma LoginCases(users: seq<User>, username: string, password: string, keys: JwtService,
                   jwt: JwtOracle, passwords: PasswordOracle)
    requires JwtLaws(jwt)
    ensures var r := Login(users, username, password, keys, jwt, passwords, None);
      && ((forall u :: u in users ==> u.username != username) ==> r == Failure(BlogError.NotFound("user not found")))
      && (r.Failure? ==> r.error.NotFound? || r.error.Unautorized? || r.error.Internal?)
      && (r.Success? ==> exists u :: u in users && u.username == username && u.id == r.value.uuid &&
                          PasswordVerify(passwords, password, u.passwordHash) == Success(true))
      && (r.Success? ==> VerifyToken(jwt, keys, r.value.token) == Success(Claims(Uuids.ToString(r.value.uuid))))
  {
    var r := Login(users, username, password, keys, jwt, passwords, None);
    if r.Success? {
      var u := FindFirst(users, (u: User) => u.username == username).value;
      VerifyGeneratedToken(jwt, keys, u.id);
    }
  }

  /** A stored password hash that does not verify, or does not parse, refuses the login. */
  lemma LoginRefusesBadPassword(users: seq<User>, u: User, password: string, keys: JwtService,
                                jwt: JwtOracle, passwords: PasswordOracle)
    requires UniqueKeys(users) && u in users
    requires PasswordVerify(passwords, password, u.passwordHash) != Success(true)
    ensures Login(users, u.username, password, keys, jwt, passwords, None) == Failure(BlogError.Unautorized)
  {
    UsernameDeterminesUser(users, u);
  }

  class AuthService {
    const repo: UserTable
    const keys: JwtService
    const jwt: JwtOracle
    const passwords: PasswordOracle

    constructor(repo: UserTable, keys: JwtService, jwt: JwtOracle, passwords: PasswordOracle)
      ensures this.repo == repo && this.keys == keys && this.jwt == jwt && this.passwords == passwords
    {
      this.repo := repo;
      this.keys := keys;
      this.jwt := jwt;
      this.passwords := passwords;
    }

    /** `get_user`: the user with that id; a missing one is NotFound("user not found"). */
    method GetUser(id: Uuids.Uuid, dbError: Option<string>) returns (r: Result<User, BlogError>)
      requires repo.Valid()
      ensures dbError.Some? ==> r == Failure(ToBlogError(StorageError(dbError.value)))
      ensures dbError.None? ==> (r.Success? <==> exists u :: u in repo.users && u.id == id)
      ensures dbError.None? && r.Success? ==> r.value in repo.users && r.value.id == id
      ensures dbError.None? && r.Failure? ==> r.error == BlogError.NotFound("user not found")
    {
      var found := repo.GetUserById(id, dbError);
      r := found.MapFailure(ToBlogError);
    }

    /** `login_by_username` */
    method LoginByUsername(username: string, password: string, dbError: Option<string>)
      returns (r: Result<AuthAnswer, BlogError>)
      requires repo.Valid()
      ensures r == Login(repo.users, username, password, keys, jwt, passwords, dbError)
      ensures dbError.None? && (forall u :: u in repo.users ==> u.username != username) ==>
        r == Failure(BlogError.NotFound("user not found"))
      ensures r.Success? ==> exists u :: u in repo.users && u.username == username && u.id == r.value.uuid
    {
      var found := repo.GetUserByUsername(username, dbError);
      if found.Failure? {
        return Failure(ToBlogError(found.error));
      }
      var user := found.value;
      UsernameDeterminesUser(repo.users, user);
      var valid := PasswordVerify(passwords, password, user.passwordHash);
      if valid.Failure? {
        return Failure(BlogError.Unautorized);
      }
      if !valid.value {
        return Failure(BlogError.Unautorized);
      }
      var token := GenerateToken(jwt, keys, user.id);
      if token.Failure? {
        return Failure(BlogError.Internal(token.error));
      }
      r := Success(AuthAnswer(token.value, user.id));
    }

    /**
     * `register`: hash the password (the random salt is a parameter), build
     * the user (`User::new`'s random id a parameter) and insert it. The row
     * stores the hash, never the password.
     */
    method Register(user: Auth, salt: string, id: Uuids.Uuid, now: Posts.DateTime, dbError: Option<string>)
      returns (r: Result<User, BlogError>)
      requires repo.Valid()
      modifies repo
      ensures repo.Valid()
      ensures PasswordHash(passwords, user.password, salt).Failure? ==>
        r == Failure(BlogError.Internal(PasswordHash(passwords, user.password, salt).error)) && repo.users == old(repo.users)
      ensures PasswordHash(passwords, user.password, salt).Success? ==>
        var row := User(id, user.username, user.email, PasswordHash(passwords, user.password, salt).value, now);
        && (dbError.Some? ==> r == Failure(ToBlogError(StorageError(dbError.value))) && repo.users == old(repo.users))
        && (dbError.None? && CreateOutcome(old(repo.users), row).Failure? ==>
              r == Failure(ToBlogError(CreateOutcome(old(repo.users), row).error)) && repo.users == old(repo.users))
        && (dbError.None? && CreateOutcome(old(repo.users), row).Success? ==>
              r == Success(row) && repo.users == old(repo.users) + [row])
    {
      var hash := PasswordHash(passwords, user.password, salt);
      if hash.Failure? {
        return Failure(BlogError.Internal(hash.error));
      }
      var row := User(id, user.username, user.email, hash.value, now);
      var created := repo.CreateUser(row, now, dbError);
      r := created.MapFailure(ToBlogError);
    }
  }

  /** Registration's duplicate-name and duplicate-email rejections reach the caller as Validation. */
  lemma RegisterRejectionIsValidation(users: seq<User>, row: User)
    requires exists u :: u in users && (u.username == row.username || u.email == row.email)
    ensures CreateOutcome(users, row).Failure?
    ensures ToBlogError(CreateOutcome(users, row).error) == BlogError.Validation("Username exists") ||
            ToBlogError(CreateOutcome(users, row).error) == BlogError.Validation("email exists")
  {
    CreateOutcomeRejects(users, row);
  }

  /**
   * Logging in right after a registration succeeds: the new user is the one
   * found by name, its stored hash verifies the same password, and the answer
   * carries the new id and a token for it.
   */
  lemma LoginAfterRegister(users: seq<User>, row: User, password: string, salt: string, keys: JwtService,
                           jwt: JwtOracle, passwords: PasswordOracle)
    requires PasswordLaws(passwords) && JwtLaws(jwt)
    requires PasswordHash(passwords, password, salt) == Success(row.passwordHash)
    requires CreateOutcome(users, row).Success?
    requires GenerateToken(jwt, keys, row.id).Success?
    ensures Login(users + [row], row.username, password, keys, jwt, passwords, None) ==
      Success(AuthAnswer(GenerateToken(jwt, keys, row.id).value, row.id))
    ensures VerifyToken(jwt, keys, GenerateToken(jwt, keys, row.id).value) == Success(Claims(Uuids.ToString(row.id)))
  {
    FindFirstAfterAppend(users, row);
    VerifyGeneratedToken(jwt, keys, row.id);
  }

  lemma {:induction false} FindFirstAfterAppend(users: seq<User>, row: User)
    requires forall u :: u in users ==> u.username != row.username
    ensures FindFirst(users + [row], (u: User) => u.username == row.username) == Some(row)
    decreases |users|
  {
    if users == [] {
      assert users + [row] == [row];
    } else {
      assert (users + [row])[1..] == users[1..] + [row];
      assert users[0] in users;
      FindFirstAfterAppend(users[1..], row);
    }
  }
}
