/**
 * The authentication gate of the presentation layer
 * (blog_server/src/presentation/auth.rs): resolving a bearer token to a
 * stored user, and reading the user the middleware attached to a request.
 */
module AuthGuard {
  import opened Wrappers
  import opened Json
  import opened Errors
  import opened UserRepository
  import opened Security
  import opened Authentication
  import Uuids

  /** `AuthenticatedUser { id }` */
  datatype AuthenticatedUser = AuthenticatedUser(id: Uuids.Uuid)

  /**
   * `extract_user_from_token` on a table: verify the token, parse its
   * subject, look the user up. Every failure, a storage failure included,
   * becomes Unautorized.
   */
  function ResolveToken(users: seq<User>, keys: JwtService, jwt: JwtOracle, token: string, dbError: Option<string>)
    : (r: Result<AuthenticatedUser, BlogError>)
    ensures r.Failure? ==> r.error == BlogError.Unautorized
    ensures r.Success? <==>
      && VerifyToken(jwt, keys, token).Success?
      && Uuids.Parse(VerifyToken(jwt, keys, token).value.sub).Success?
      && dbError.None?
      && exists u :: u in users && u.id == Uuids.Parse(VerifyToken(jwt, keys, token).value.sub).value
    ensures r.Success? ==> Uuids.Parse(VerifyToken(jwt, keys, token).value.sub) == Success(r.value.id)
  {
    var claims :- VerifyToken(jwt, keys, token).MapFailure(_ => BlogError.Unautorized);
    var userId :- Uuids.Parse(claims.sub).MapFailure(_ => BlogError.Unautorized);
    if dbError.Some? then Failure(BlogError.Unautorized)
    else match FindFirst(users, (u: User) => u.id == userId)
      case None => Failure(BlogError.Unautorized)
      case Some(user) => Success(AuthenticatedUser(user.id))
  }

  /** `extract_user_from_token` */
  method ExtractUserFromToken(token: string, authService: AuthService, dbError: Option<string>)
    returns (r: Result<AuthenticatedUser, BlogError>)
    requires authService.repo.Valid()
    ensures r == ResolveToken(authService.repo.users, authService.keys, authService.jwt, token, dbError)
    ensures r.Failure? ==> r.error == BlogError.Unautorized
    ensures r.Success? ==> exists u :: u in authService.repo.users && u.id == r.value.id
  {
    var claims := VerifyToken(authService.jwt, authService.keys, token);
    if claims.Failure? {
      return Failure(BlogError.Unautorized);
    }
    var userId := Uuids.Parse(claims.value.sub);
    if userId.Failure? {
      return Failure(BlogError.Unautorized);
    }
    var user := authService.GetUser(userId.value, dbError);
    if user.Failure? {
      return Failure(BlogError.Unautorized);
    }
    r := Success(AuthenticatedUser(user.value.id));
  }

  /** A token the service issued for a stored user resolves to that user. */
  lemma IssuedTokenResolves(users: seq<User>, keys: JwtService, jwt: JwtOracle, u: User)
    requires JwtLaws(jwt) && u in users && GenerateToken(jwt, keys, u.id).Success?
    ensures ResolveToken(users, keys, jwt, GenerateToken(jwt, keys, u.id).value, None) == Success(AuthenticatedUser(u.id))
  {
    VerifyGeneratedToken(jwt, keys, u.id);
  }

  /** A token signed under another secret is refused, whoever it names. */
  lemma ForeignTokenUnauthorized(users: seq<User>, keys: JwtService, other: JwtService, jwt: JwtOracle,
                                 userId: Uuids.Uuid, dbError: Option<string>)
    requires JwtLaws(jwt) && keys.secret != other.secret && GenerateToken(jwt, other, userId).Success?
    ensures ResolveToken(users, keys, jwt, GenerateToken(jwt, other, userId).value, dbError) == Failure(BlogError.Unautorized)
  {
    ForeignTokenRejected(jwt, keys, other, userId);
  }

  /** A valid token for a user no longer stored is refused. */
  lemma TokenOfUnknownUserUnauthorized(users: seq<User>, keys: JwtService, jwt: JwtOracle, userId: Uuids.Uuid)
    requires JwtLaws(jwt) && GenerateToken(jwt, keys, userId).Success?
    requires forall u :: u in users ==> u.id != userId
    ensures ResolveToken(users, keys, jwt, GenerateToken(jwt, keys, userId).value, None) == Failure(BlogError.Unautorized)
  {
    VerifyGeneratedToken(jwt, keys, userId);
  }

  const MISSING_USER: string := "missing authenticated user"

  /**
   * `AuthenticatedUser::from_request`: the user stored in the request's
   * extensions, or actix-web's plain-text 401.
   */
  function FromRequest(extension: Option<AuthenticatedUser>): (r: Result<AuthenticatedUser, HttpResponse>)
    ensures extension.Some? <==> r.Success?
    ensures r.Success? ==> r.value == extension.value
    ensures r.Failure? ==> r.error == HttpResponse(UNAUTHORIZED, TextBody(MISSING_USER))
  {
    match extension
    case Some(user) => Success(user)
    case None => Failure(HttpResponse(UNAUTHORIZED, TextBody(MISSING_USER)))
  }
}
