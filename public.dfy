/**
 * The unauthenticated HTTP handlers (blog_server/src/presentation/handlers/public.rs
 * and the bodies of blog_server/src/presentation/dto.rs): registration,
 * login, reading one post and listing posts.
 */
module Public {
  import opened Wrappers
  import opened Json
  import opened Errors
  import opened UserRepository
  import opened Security
  import Authentication
  import Posts
  import PostRepository
  import BlogService
  import Proto
  import Uuids

  /** `AuthResponse { token, uuid }` as JSON. */
  function AuthResponseJson(a: Authentication.AuthAnswer): Json {
    JObject([("token", JString(a.token)), ("uuid", JString(Uuids.ToString(a.uuid)))])
  }

  /** A login answer as the handler's reply: 200 with the token, or the error. */
  function LoginResponse(a: Result<Authentication.AuthAnswer, BlogError>): (r: Result<HttpResponse, BlogError>)
    ensures r.Success? <==> a.Success?
    ensures a.Failure? ==> r.error == a.error
    ensures a.Success? ==> r.value.status == OK && r.value.body == JsonBody(AuthResponseJson(a.value))
  {
    match a
    case Success(answer) => Success(HttpResponse(OK, JsonBody(AuthResponseJson(answer))))
    case Failure(e) => Failure(e)
  }

  /**
   * `register`: insert the user, then log it in with the payload's
   * credentials. A failed registration is returned as it is, and no login
   * happens. `registerError` and `loginError` are the storage failures of
   * the two calls.
   */
  method Register(authService: Authentication.AuthService, payload: Authentication.Auth, salt: string,
                  id: Uuids.Uuid, now: Posts.DateTime, registerError: Option<string>, loginError: Option<string>)
    returns (r: Result<HttpResponse, BlogError>)
    requires authService.repo.Valid()
    modifies authService.repo
    ensures authService.repo.Valid()
    ensures PasswordHash(authService.passwords, payload.password, salt).Failure? ==>
      && r == Failure(BlogError.Internal(PasswordHash(authService.passwords, payload.password, salt).error))
      && authService.repo.users == old(authService.repo.users)
    ensures PasswordHash(authService.passwords, payload.password, salt).Success? ==>
      var row := User(id, payload.username, payload.email,
                      PasswordHash(authService.passwords, payload.password, salt).value, now);
      var registered := registerError.None? && CreateOutcome(old(authService.repo.users), row).Success?;
      && (registerError.Some? ==>
            r == Failure(ToBlogError(StorageError(registerError.value)))
            && authService.repo.users == old(authService.repo.users))
      && (registerError.None? && CreateOutcome(old(authService.repo.users), row).Failure? ==>
            r == Failure(ToBlogError(CreateOutcome(old(authService.repo.users), row).error))
            && authService.repo.users == old(authService.repo.users))
      && (registered ==>
            && authService.repo.users == old(authService.repo.users) + [row]
            && r == LoginResponse(Authentication.Login(authService.repo.users, payload.username, payload.password,
                                                       authService.keys, authService.jwt, authService.passwords, loginError)))
  {
    var account := authService.Register(payload, salt, id, now, registerError);
    if account.Failure? {
      return Failure(account.error);
    }
    var answer := authService.LoginByUsername(payload.username, payload.password, loginError);
    r := LoginResponse(answer);
  }

  /**
   * The point of `register`: with lawful oracles, a registration the table
   * accepts answers 200 with a token for the new id, and the token verifies
   * to that id.
   */
  lemma RegisterThenLogin(users: seq<User>, payload: Authentication.Auth, salt: string, id: Uuids.Uuid,
                          now: Posts.DateTime, keys: JwtService, jwt: JwtOracle, passwords: PasswordOracle)
    requires PasswordLaws(passwords) && JwtLaws(jwt)
    requires PasswordHash(passwords, payload.password, salt).Success?
    requires CreateOutcome(users, User(id, payload.username, payload.email,
                                       PasswordHash(passwords, payload.password, salt).value, now)).Success?
    requires GenerateToken(jwt, keys, id).Success?
    ensures
      var row := User(id, payload.username, payload.email, PasswordHash(passwords, payload.password, salt).value, now);
      var token := GenerateToken(jwt, keys, id).value;
      && LoginResponse(Authentication.Login(users + [row], payload.username, payload.password, keys, jwt, passwords, None))
         == Success(HttpResponse(OK, JsonBody(AuthResponseJson(Authentication.AuthAnswer(token, id)))))
      && Uuids.Parse(VerifyToken(jwt, keys, token).value.sub) == Success(id)
  {
    var row := User(id, payload.username, payload.email, PasswordHash(passwords, payload.password, salt).value, now);
    Authentication.LoginAfterRegister(users, row, payload.password, salt, keys, jwt, passwords);
    VerifyGeneratedToken(jwt, keys, id);
  }

  /** `login` */
  method Login(authService: Authentication.AuthService, username: string, password: string, dbError: Option<string>)
    returns (r: Result<HttpResponse, BlogError>)
    requires authService.repo.Valid()
    ensures r == LoginResponse(Authentication.Login(authService.repo.users, username, password,
                                                    authService.keys, authService.jwt, authService.passwords, dbError))
    ensures dbError.None? && (forall u :: u in authService.repo.users ==> u.username != username) ==>
      r == Failure(BlogError.NotFound("user not found"))
  {
    var answer := authService.LoginByUsername(username, password, dbError);
    r := LoginResponse(answer);
  }

  /** `get_post_by_id`: `{"post": post}`. */
  method GetPostById(blogService: BlogService.BlogService, id: int, dbError: Option<string>)
    returns (r: Result<HttpResponse, BlogError>)
    requires blogService.data.Valid()
    ensures dbError.Some? ==> r == Failure(BlogService.AsInternal(PostRepository.DatabaseError(dbError.value)))
    ensures dbError.None? && PostRepository.IndexOfId(blogService.data.rows, id).None? ==>
      r == Failure(BlogError.NotFound("Posts not found"))
    ensures dbError.None? && PostRepository.IndexOfId(blogService.data.rows, id).Some? ==>
      var p := blogService.data.rows[PostRepository.IndexOfId(blogService.data.rows, id).value];
      && p.id == id
      && r == Success(HttpResponse(OK, JsonBody(JObject([("post", Posts.PostJson(p))]))))
  {
    var post := blogService.GetPostById(id, dbError);
    if post.Failure? {
      return Failure(post.error);
    }
    r := Success(HttpResponse(OK, JsonBody(JObject([("post", Posts.PostJson(post.value))]))));
  }

  /** `PaginationParams`: two i32 query values. */
  datatype PaginationParams = PaginationParams(limit: int, offset: int)

  const DEFAULT_LIMIT: int := 10
  const DEFAULT_OFFSET: int := 0

  /** The query string's values, each defaulted when absent (10 and 0). */
  function Pagination(limit: Option<int>, offset: Option<int>): (p: PaginationParams)
    ensures limit.Some? ==> p.limit == limit.value
    ensures limit.None? ==> p.limit == DEFAULT_LIMIT
    ensures offset.Some? ==> p.offset == offset.value
    ensures offset.None? ==> p.offset == DEFAULT_OFFSET
  {
    PaginationParams(limit.GetOr(DEFAULT_LIMIT), offset.GetOr(DEFAULT_OFFSET))
  }

  /** `ListPostsResponse { post, total, limit, offset }` as JSON. */
  function ListJson(posts: seq<Posts.Post>, total: int, limit: int, offset: int): Json {
    JObject([("post", JArray(seq(|posts|, i requires 0 <= i < |posts| => Posts.PostJson(posts[i])))),
             ("total", JInt(total)), ("limit", JInt(limit)), ("offset", JInt(offset))])
  }

  /**
   * `get_post`: the page `get_next_posts(offset, limit)` returns, its length
   * cast to i32, and the query's limit and offset echoed back.
   */
  method GetPost(blogService: BlogService.BlogService, params: PaginationParams, dbError: Option<string>)
    returns (r: Result<HttpResponse, BlogError>)
    requires blogService.data.Valid()
    ensures
      var listed := PostRepository.LastPosts(blogService.data.rows, params.limit, Some(params.offset), dbError);
      && (listed.Failure? ==> r == Failure(BlogService.NextPostsError(listed.error)))
      && (listed.Success? ==>
            r == Success(HttpResponse(OK, JsonBody(ListJson(listed.value, Proto.LenAsI32(|listed.value|),
                                                             params.limit, params.offset)))))
  {
    var posts := blogService.GetNextPosts(params.offset, params.limit, dbError);
    if posts.Failure? {
      return Failure(posts.error);
    }
    var total := Proto.LenAsI32(|posts.value|);
    r := Success(HttpResponse(OK, JsonBody(ListJson(posts.value, total, params.limit, params.offset))));
  }

  /**
   * What a listing shows: for an i32 limit and a non-negative offset, at most
   * `limit` posts, newest first, taken from the table, with `total` their
   * exact number; a negative offset or limit is an Internal error.
   */
  lemma ListingShowsPage(rows: seq<Posts.Post>, params: PaginationParams)
    requires PostRepository.Chronological(rows)
    requires params.limit <= Proto.I32_MAX
    ensures var listed := PostRepository.LastPosts(rows, params.limit, Some(params.offset), None);
      && (listed.Success? <==> params.limit >= 0 && params.offset >= 0)
      && (listed.Failure? ==> BlogService.NextPostsError(listed.error).Internal?)
      && (listed.Success? ==>
            && Proto.LenAsI32(|listed.value|) == |listed.value| <= params.limit
            && PostRepository.Descending(listed.value)
            && (forall i :: 0 <= i < |listed.value| ==> listed.value[i] in rows))
  {
    var listed := PostRepository.LastPosts(rows, params.limit, Some(params.offset), None);
    if listed.Success? {
      PostRepository.LastPostsPage(rows, params.limit, Some(params.offset));
    }
  }
}
