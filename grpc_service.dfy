/**
 * `BlogGrpcService` (blog_server/src/presentation/grpc_service.rs): the
 * gRPC face of the two services. Writes authenticate with the bearer token
 * in the request metadata; a `BlogError` reaches the client as the `Status`
 * of `From<BlogError> for Status`.
 *
 * Storage failures are parameters, one per call: `authError` for the user
 * lookup behind the token, `readError` and `writeError` for the post reads
 * and writes, `registerError` and `loginError` for registration.
 */
module GrpcService {
  import opened Wrappers
  import opened Errors
  import opened UserRepository
  import opened Security
  import opened AuthGuard
  import Authentication
  import Posts
  import PostRepository
  import BlogService
  import Proto
  import Text
  import Uuids

  /** Request metadata: each key's (single) value, as raw bytes. */
  type Metadata = map<string, seq<Uuids.Byte>>

  const AUTHORIZATION: string := "authorization"
  const BEARER: string := "Bearer "
  const INVALID_TOKEN: string := "Invalid token"
  const INVALID_HEADER: string := "invalid authorization header"
  const TOKEN_NOT_FOUND: string := "Token not found"
  const NOT_AUTHOR: string := "You are not the author of this post"

  /** `MetadataValue::to_str` accepts tab and the visible ASCII characters only. */
  predicate Visible(b: int) {
    b == 9 || 32 <= b < 127
  }

  /** The bytes of an ASCII-only string. */
  function AsciiBytes(s: string): (bytes: seq<Uuids.Byte>)
    requires forall i :: 0 <= i < |s| ==> s[i] as int < 256
    ensures |bytes| == |s|
    ensures forall i :: 0 <= i < |s| ==> bytes[i] == s[i] as int
  {
    seq(|s|, i requires 0 <= i < |s| => s[i] as int)
  }

  /** The characters of a byte string, one per byte. */
  function AsciiText(bytes: seq<Uuids.Byte>): (s: string)
    ensures |s| == |bytes|
    ensures forall i :: 0 <= i < |bytes| ==> s[i] as int == bytes[i]
  {
    seq(|bytes|, i requires 0 <= i < |bytes| => bytes[i] as char)
  }

  /**
   * `extract_token_from_metadata`: no `authorization` value is
   * Unauthenticated; a value with a byte outside visible ASCII, or without
   * the `Bearer ` prefix, is InvalidArgument; otherwise the rest after the
   * prefix.
   */
  function ExtractTokenFromMetadata(metadata: Metadata): (r: Result<string, Status>)
    ensures AUTHORIZATION !in metadata ==> r == Failure(Status(Code.Unauthenticated, TOKEN_NOT_FOUND))
    ensures AUTHORIZATION in metadata && !(forall i :: 0 <= i < |metadata[AUTHORIZATION]| ==> Visible(metadata[AUTHORIZATION][i])) ==>
      r == Failure(Status(Code.InvalidArgument, INVALID_TOKEN))
    ensures AUTHORIZATION in metadata && (forall i :: 0 <= i < |metadata[AUTHORIZATION]| ==> Visible(metadata[AUTHORIZATION][i]))
            && Text.StripPrefix(AsciiText(metadata[AUTHORIZATION]), BEARER).None? ==>
      r == Failure(Status(Code.InvalidArgument, INVALID_HEADER))
    ensures r.Failure? ==> r.error.code == Code.Unauthenticated || r.error.code == Code.InvalidArgument
    ensures r.Success? ==>
      && AUTHORIZATION in metadata
      && (forall i :: 0 <= i < |metadata[AUTHORIZATION]| ==> Visible(metadata[AUTHORIZATION][i]))
      && AsciiText(metadata[AUTHORIZATION]) == BEARER + r.value
  {
    if AUTHORIZATION !in metadata then Failure(Status(Code.Unauthenticated, TOKEN_NOT_FOUND))
    else
      var value := metadata[AUTHORIZATION];
      if !(forall i :: 0 <= i < |value| ==> Visible(value[i])) then Failure(Status(Code.InvalidArgument, INVALID_TOKEN))
      else match Text.StripPrefix(AsciiText(value), BEARER)
        case None => Failure(Status(Code.InvalidArgument, INVALID_HEADER))
        case Some(token) => Success(token)
  }

  /** A client sending `Bearer <token>` with a visible-ASCII token has exactly that token extracted. */
  lemma BearerTokenExtracted(metadata: Metadata, token: string)
    requires forall i :: 0 <= i < |token| ==> 32 <= token[i] as int < 127
    requires forall i :: 0 <= i < |BEARER + token| ==> (BEARER + token)[i] as int < 256
    requires AUTHORIZATION in metadata && metadata[AUTHORIZATION] == AsciiBytes(BEARER + token)
    ensures ExtractTokenFromMetadata(metadata) == Success(token)
  {
    var value := metadata[AUTHORIZATION];
    assert AsciiText(value) == BEARER + token;
    forall i | 0 <= i < |value|
      ensures Visible(value[i])
    {
      if i >= |BEARER| {
        assert value[i] == token[i - |BEARER|] as int;
      }
    }
    Text.StripPrefixOfConcat(BEARER, token);
  }

  /** The caller of a write: the token extracted, then resolved to a stored user. */
  function Caller(metadata: Metadata, users: seq<User>, keys: JwtService, jwt: JwtOracle, authError: Option<string>)
    : (r: Result<AuthenticatedUser, Status>)
    ensures ExtractTokenFromMetadata(metadata).Failure? ==> r == Failure(ExtractTokenFromMetadata(metadata).error)
    ensures ExtractTokenFromMetadata(metadata).Success? ==>
      r == ResolveToken(users, keys, jwt, ExtractTokenFromMetadata(metadata).value, authError).MapFailure(ToStatus)
    ensures r.Failure? ==> r.error.code == Code.Unauthenticated || r.error.code == Code.InvalidArgument
  {
    var token :- ExtractTokenFromMetadata(metadata);
    ResolveToken(users, keys, jwt, token, authError).MapFailure(ToStatus)
  }

  /** A token the server issued for a stored user, sent as `Bearer <token>`, identifies that user. */
  lemma IssuedTokenIdentifiesCaller(metadata: Metadata, users: seq<User>, keys: JwtService, jwt: JwtOracle, u: User)
    requires JwtLaws(jwt) && u in users && GenerateToken(jwt, keys, u.id).Success?
    requires ExtractTokenFromMetadata(metadata) == Success(GenerateToken(jwt, keys, u.id).value)
    ensures Caller(metadata, users, keys, jwt, None) == Success(AuthenticatedUser(u.id))
  {
    IssuedTokenResolves(users, keys, jwt, u);
  }

  /** `UpdatePost { title: title.unwrap_or(post.title), content: … }`: absent fields keep the stored value. */
  function MergeUpdate(request: Proto.UpdatePostRequest, post: Posts.Post): (u: Posts.UpdatePost)
    ensures request.title.Some? ==> u.title == request.title.value
    ensures request.title.None? ==> u.title == post.title
    ensures request.content.Some? ==> u.content == request.content.value
    ensures request.content.None? ==> u.content == post.content
  {
    Posts.UpdatePost(request.title.GetOr(post.title), request.content.GetOr(post.content))
  }

  /** An update request with neither field leaves title and content as stored. */
  lemma EmptyUpdateKeepsText(id: int, post: Posts.Post, now: Posts.DateTime)
    ensures
      var u := MergeUpdate(Proto.UpdatePostRequest(id, None, None), post);
      PostRepository.UpdatedRow(post, Some(u.title), Some(u.content), now) == post.(updatedAt := Some(now))
  {
  }

  /** A login answer as the gRPC reply: the token alone, or the error's status. */
  function TokenReply(a: Result<Authentication.AuthAnswer, BlogError>): (r: Result<Proto.AuthResponse, Status>)
    ensures r.Success? <==> a.Success?
    ensures a.Success? ==> r.value == Proto.AuthResponse(a.value.token)
    ensures a.Failure? ==> r.error == ToStatus(a.error)
  {
    match a
    case Success(answer) => Success(Proto.AuthResponse(answer.token))
    case Failure(e) => Failure(ToStatus(e))
  }

  /** The posts of a list reply, each converted to its message. */
  function GrpcPosts(posts: seq<Posts.Post>): (g: seq<Proto.Post>)
    ensures |g| == |posts|
    ensures forall i :: 0 <= i < |posts| ==> g[i] == Posts.ToGrpc(posts[i])
  {
    seq(|posts|, i requires 0 <= i < |posts| => Posts.ToGrpc(posts[i]))
  }

  class BlogGrpcService {
    const authService: Authentication.AuthService
    const blogService: BlogService.BlogService

    constructor(authService: Authentication.AuthService, blogService: BlogService.BlogService)
      ensures this.authService == authService && this.blogService == blogService
    {
      this.authService := authService;
      this.blogService := blogService;
    }

    /** The first two steps of every write: `extract_token_from_metadata`, then `extract_user_from_token`. */
    method Authenticate(metadata: Metadata, authError: Option<string>) returns (r: Result<AuthenticatedUser, Status>)
      requires authService.repo.Valid()
      ensures r == Caller(metadata, authService.repo.users, authService.keys, authService.jwt, authError)
    {
      var token := ExtractTokenFromMetadata(metadata);
      if token.Failure? {
        return Failure(token.error);
      }
      var user := ExtractUserFromToken(token.value, authService, authError);
      if user.Failure? {
        return Failure(ToStatus(user.error));
      }
      r := Success(user.value);
    }

    /** `register`: register, then log in; the reply carries the token only. */
    method Register(request: Proto.RegisterRequest, salt: string, id: Uuids.Uuid, now: Posts.DateTime,
                    registerError: Option<string>, loginError: Option<string>)
      returns (r: Result<Proto.AuthResponse, Status>)
      requires authService.repo.Valid()
      modifies authService.repo
      ensures authService.repo.Valid()
      ensures PasswordHash(authService.passwords, request.password, salt).Failure? ==>
        && r == Failure(ToStatus(BlogError.Internal(PasswordHash(authService.passwords, request.password, salt).error)))
        && authService.repo.users == old(authService.repo.users)
      ensures PasswordHash(authService.passwords, request.password, salt).Success? ==>
        var row := User(id, request.username, request.email,
                        PasswordHash(authService.passwords, request.password, salt).value, now);
        var registered := registerError.None? && CreateOutcome(old(authService.repo.users), row).Success?;
        && (registerError.Some? ==>
              r == Failure(ToStatus(ToBlogError(StorageError(registerError.value))))
              && authService.repo.users == old(authService.repo.users))
        && (registerError.None? && CreateOutcome(old(authService.repo.users), row).Failure? ==>
              r == Failure(ToStatus(ToBlogError(CreateOutcome(old(authService.repo.users), row).error)))
              && authService.repo.users == old(authService.repo.users))
        && (registered ==>
              && authService.repo.users == old(authService.repo.users) + [row]
              && r == TokenReply(Authentication.Login(authService.repo.users, request.username, request.password,
                                                      authService.keys, authService.jwt, authService.passwords, loginError)))
    {
      var account := authService.Register(Authentication.Auth(request.username, request.email, request.password),
                                          salt, id, now, registerError);
      if account.Failure? {
        return Failure(ToStatus(account.error));
      }
      var answer := authService.LoginByUsername(request.username, request.password, loginError);
      r := TokenReply(answer);
    }

    /** `login` */
    method Login(request: Proto.LoginRequest, dbError: Option<string>) returns (r: Result<Proto.AuthResponse, Status>)
      requires authService.repo.Valid()
      ensures r == TokenReply(Authentication.Login(authService.repo.users, request.username, request.password,
                                                   authService.keys, authService.jwt, authService.passwords, dbError))
    {
      var answer := authService.LoginByUsername(request.username, request.password, dbError);
      r := TokenReply(answer);
    }

    /** `create_post`: the caller is the author. */
    method CreatePost(metadata: Metadata, request: Proto.CreatePostRequest, now: Posts.DateTime,
                      authError: Option<string>, writeError: Option<string>)
      returns (r: Result<Proto.PostResponse, Status>)
      requires authService.repo.Valid() && blogService.data.Valid()
      modifies blogService.data
      ensures blogService.data.Valid()
      ensures
        var caller := Caller(metadata, authService.repo.users, authService.keys, authService.jwt, authError);
        && (caller.Failure? ==> r == Failure(caller.error) && blogService.data.rows == old(blogService.data.rows))
        && (caller.Success? && writeError.Some? ==>
              && r == Failure(ToStatus(BlogService.AsInternal(PostRepository.DatabaseError(writeError.value))))
              && blogService.data.rows == old(blogService.data.rows))
        && (caller.Success? && writeError.None? ==>
              var post := Posts.NewPost(old(blogService.data.nextId), request.title, request.content, caller.value.id, now);
              && r == Success(Proto.PostResponse(Some(Posts.ToGrpc(post))))
              && blogService.data.rows == PostRepository.Insert(old(blogService.data.rows), post))
    {
      var user := Authenticate(metadata, authError);
      if user.Failure? {
        return Failure(user.error);
      }
      var post := blogService.CreatePost(Posts.FromCreateRequest(request), user.value.id, now, writeError);
      if post.Failure? {
        return Failure(ToStatus(post.error));
      }
      r := Success(Proto.PostResponse(Some(Posts.ToGrpc(post.value))));
    }

    /** `get_post`: needs no token. */
    method GetPost(request: Proto.GetPostRequest, readError: Option<string>) returns (r: Result<Proto.PostResponse, Status>)
      requires blogService.data.Valid()
      ensures readError.Some? ==> r == Failure(Status(Code.Internal, "Database error: " + readError.value))
      ensures readError.None? && PostRepository.IndexOfId(blogService.data.rows, request.id).None? ==>
        r == Failure(Status(Code.NotFound, "Posts not found"))
      ensures readError.None? && PostRepository.IndexOfId(blogService.data.rows, request.id).Some? ==>
        r == Success(Proto.PostResponse(Some(Posts.ToGrpc(
               blogService.data.rows[PostRepository.IndexOfId(blogService.data.rows, request.id).value]))))
    {
      var post := blogService.GetPostById(request.id, readError);
      if post.Failure? {
        return Failure(ToStatus(post.error));
      }
      r := Success(Proto.PostResponse(Some(Posts.ToGrpc(post.value))));
    }

    /**
     * `update_post`: only the author may update; absent fields keep the
     * stored text. A refusal writes nothing.
     */
    method UpdatePost(metadata: Metadata, request: Proto.UpdatePostRequest, now: Posts.DateTime,
                      authError: Option<string>, readError: Option<string>, writeError: Option<string>)
      returns (r: Result<Proto.PostResponse, Status>)
      requires authService.repo.Valid() && blogService.data.Valid()
      modifies blogService.data
      ensures blogService.data.Valid()
      ensures r.Failure? ==> blogService.data.rows == old(blogService.data.rows)
      ensures
        var caller := Caller(metadata, authService.repo.users, authService.keys, authService.jwt, authError);
        var found := PostRepository.IndexOfId(old(blogService.data.rows), request.id);
        && (caller.Failure? ==> r == Failure(caller.error))
        && (caller.Success? && readError.Some? ==>
              r == Failure(ToStatus(BlogService.AsInternal(PostRepository.DatabaseError(readError.value)))))
        && (caller.Success? && readError.None? && found.None? ==>
              r == Failure(Status(Code.NotFound, "Posts not found")))
        && (caller.Success? && readError.None? && found.Some? ==>
              var stored := old(blogService.data.rows)[found.value];
              var merged := MergeUpdate(request, stored);
              && (stored.authorId != caller.value.id ==> r == Failure(Status(Code.PermissionDenied, NOT_AUTHOR)))
              && (stored.authorId == caller.value.id && writeError.Some? ==>
                    r == Failure(ToStatus(BlogService.AsInternal(PostRepository.DatabaseError(writeError.value)))))
              && (stored.authorId == caller.value.id && writeError.None? ==>
                    var updated := stored.(title := merged.title, content := merged.content, updatedAt := Some(now));
                    && r == Success(Proto.PostResponse(Some(Posts.ToGrpc(updated))))
                    && blogService.data.rows == old(blogService.data.rows)[found.value := updated]))
    {
      var user := Authenticate(metadata, authError);
      if user.Failure? {
        return Failure(user.error);
      }
      var post := blogService.GetPostById(request.id, readError);
      if post.Failure? {
        return Failure(ToStatus(post.error));
      }
      if post.value.authorId != user.value.id {
        return Failure(Status(Code.PermissionDenied, NOT_AUTHOR));
      }
      var checkUpdate := MergeUpdate(request, post.value);
      var updated := blogService.UpdatePost(post.value, checkUpdate, now, writeError);
      if updated.Failure? {
        return Failure(ToStatus(updated.error));
      }
      r := Success(Proto.PostResponse(Some(Posts.ToGrpc(updated.value))));
    }

    /** `delete_post`: only the author may delete. A refusal deletes nothing. */
    method DeletePost(metadata: Metadata, request: Proto.DeletePostRequest,
                      authError: Option<string>, readError: Option<string>, writeError: Option<string>)
      returns (r: Result<Proto.DeletePostResponse, Status>)
      requires authService.repo.Valid() && blogService.data.Valid()
      modifies blogService.data
      ensures blogService.data.Valid()
      ensures r.Failure? ==> blogService.data.rows == old(blogService.data.rows)
      ensures
        var caller := Caller(metadata, authService.repo.users, authService.keys, authService.jwt, authError);
        var found := PostRepository.IndexOfId(old(blogService.data.rows), request.postId);
        && (caller.Failure? ==> r == Failure(caller.error))
        && (caller.Success? && readError.Some? ==>
              r == Failure(ToStatus(BlogService.AsInternal(PostRepository.DatabaseError(readError.value)))))
        && (caller.Success? && readError.None? && found.None? ==> r == Failure(Status(Code.NotFound, "Posts not found")))
        && (caller.Success? && readError.None? && found.Some? ==>
              var stored := old(blogService.data.rows)[found.value];
              && (stored.authorId != caller.value.id ==> r == Failure(Status(Code.PermissionDenied, NOT_AUTHOR)))
              && (stored.authorId == caller.value.id && writeError.Some? ==>
                    r == Failure(ToStatus(BlogService.AsInternal(PostRepository.DatabaseError(writeError.value)))))
              && (stored.authorId == caller.value.id && writeError.None? ==>
                    && r == Success(Proto.DeletePostResponse(true))
                    && blogService.data.rows == PostRepository.RemoveId(old(blogService.data.rows), request.postId)))
    {
      var user := Authenticate(metadata, authError);
      if user.Failure? {
        return Failure(user.error);
      }
      var post := blogService.GetPostById(request.postId, readError);
      if post.Failure? {
        return Failure(ToStatus(post.error));
      }
      if post.value.authorId != user.value.id {
        return Failure(Status(Code.PermissionDenied, NOT_AUTHOR));
      }
      var deleted := blogService.DeletePost(post.value.id, writeError);
      if deleted.Failure? {
        return Failure(ToStatus(deleted.error));
      }
      r := Success(Proto.DeletePostResponse(true));
    }

    /** `list_post`: the page, its length cast to i32, and the request's limit and offset. */
    method ListPost(request: Proto.ListPostsRequest, readError: Option<string>)
      returns (r: Result<Proto.ListPostsResponse, Status>)
      requires blogService.data.Valid()
      ensures
        var listed := PostRepository.LastPosts(blogService.data.rows, request.limit, Some(request.offset), readError);
        && (listed.Failure? ==> r == Failure(ToStatus(BlogService.NextPostsError(listed.error))))
        && (listed.Success? ==>
              r == Success(Proto.ListPostsResponse(GrpcPosts(listed.value), Proto.LenAsI32(|listed.value|),
                                                   request.limit, request.offset)))
    {
      var posts := blogService.GetNextPosts(request.offset, request.limit, readError);
      if posts.Failure? {
        return Failure(ToStatus(posts.error));
      }
      r := Success(Proto.ListPostsResponse(GrpcPosts(posts.value), Proto.LenAsI32(|posts.value|),
                                           request.limit, request.offset));
    }
  }

  /** Ownership refusals over gRPC carry their own message, not the HTTP handlers' `Forbidden`. */
  lemma OwnershipRefusalDiffers()
    ensures Status(Code.PermissionDenied, NOT_AUTHOR) != ToStatus(BlogError.Forbidden)
    ensures Status(Code.PermissionDenied, NOT_AUTHOR).code == ToStatus(BlogError.Forbidden).code
  {
    assert NOT_AUTHOR[0] != "Forbiden"[0];
  }
}
