/**
 * The HTTP server's JSON bodies (blog_server/src/presentation/handlers) as
 * the HTTP client reads them (blog_client/src/http_client.rs), set against
 * the messages the gRPC service sends for the same result.
 */
module Wire {
  import opened Wrappers
  import opened Json
  import Posts
  import Proto
  import Uuids
  import Authentication
  import Public
  import Protect
  import GrpcService
  import HttpClient
  import ClientError
  import Errors
  import Text

  /** A post whose id an i64 holds: every post the server can store and send. */
  predicate SendablePost(p: Posts.Post) {
    HttpClient.I64_MIN <= p.id <= HttpClient.I64_MAX
  }

  lemma PostJsonId(p: Posts.Post)
    ensures Member(Posts.PostJson(p), "id") == Some(JInt(p.id))
  {
  }

  lemma PostJsonTitle(p: Posts.Post)
    ensures Member(Posts.PostJson(p), "title") == Some(JString(p.title))
  {
  }

  lemma PostJsonContent(p: Posts.Post)
    ensures Member(Posts.PostJson(p), "content") == Some(JString(p.content))
  {
  }

  lemma PostJsonUpdatedAt(p: Posts.Post)
    ensures Member(Posts.PostJson(p), "updated_at") ==
      Some(match p.updatedAt case None => JNull case Some(t) => JInt(Posts.Timestamp(t)))
  {
  }

  /** Reading a post depends only on its six members. */
  lemma ReadPostOfMembers(j: Json, g: Proto.Post)
    requires HttpClient.I64_MIN <= g.id <= HttpClient.I64_MAX
    requires HttpClient.I64_MIN <= g.createdAt <= HttpClient.I64_MAX
    requires g.updatedAt.Some? ==> HttpClient.I64_MIN <= g.updatedAt.value <= HttpClient.I64_MAX
    requires Member(j, "id") == Some(JInt(g.id))
    requires Member(j, "title") == Some(JString(g.title))
    requires Member(j, "content") == Some(JString(g.content))
    requires Member(j, "author_id") == Some(JString(g.authorId))
    requires Member(j, "created_at") == Some(JInt(g.createdAt))
    requires Member(j, "updated_at") == Some(match g.updatedAt case None => JNull case Some(t) => JInt(t))
    ensures HttpClient.ReadPost(j) == Some(g)
  {
  }

  /** The HTTP client reads the server's JSON post as the very message the gRPC service sends for it. */
  lemma PostJsonReadsAsGrpc(p: Posts.Post)
    requires SendablePost(p)
    ensures HttpClient.ReadPost(Posts.PostJson(p)) == Some(Posts.ToGrpc(p))
  {
    PostJsonId(p);
    PostJsonTitle(p);
    PostJsonContent(p);
    Posts.PostJsonAuthor(p);
    Posts.PostJsonCreatedAt(p);
    PostJsonUpdatedAt(p);
    ReadPostOfMembers(Posts.PostJson(p), Posts.ToGrpc(p));
  }

  /** A server response as the HTTP client receives it: a JSON body, or no JSON at all. */
  function Received(resp: HttpResponse): HttpClient.Reply {
    HttpClient.Reply(resp.status, match resp.body case JsonBody(j) => Some(j) case TextBody(_) => None)
  }

  /** The server's error responses are never success statuses. */
  lemma ErrorStatusFails(e: Errors.BlogError)
    ensures !HttpClient.IsSuccess(Errors.ErrorResponse(e).status)
  {
  }

  lemma AuthResponseJsonReads(a: Authentication.AuthAnswer)
    ensures HttpClient.ReadAuthResponse(Public.AuthResponseJson(a)) == Some(Proto.AuthResponse(a.token))
  {
    assert Member(Public.AuthResponseJson(a), "token") == Some(JString(a.token));
  }

  /**
   * Logging in over HTTP yields the same token message the gRPC service
   * sends for the same answer; a refusal yields the server's status.
   */
  lemma LoginOverHttp(addr: string, username: string, password: string, exchange: HttpClient.Exchange,
                      answer: Result<Authentication.AuthAnswer, Errors.BlogError>)
    requires exchange(HttpClient.LoginRequest(addr, username, password)) ==
      Success(Received(Errors.Respond(Public.LoginResponse(answer))))
    ensures answer.Success? ==>
      && HttpClient.Login(addr, username, password, exchange) == Success(Proto.AuthResponse(answer.value.token))
      && GrpcService.TokenReply(answer) == Success(Proto.AuthResponse(answer.value.token))
    ensures answer.Failure? ==>
      HttpClient.Login(addr, username, password, exchange) ==
        Failure(HttpClient.ServerResponse(Errors.StatusCode(answer.error)))
  {
    if answer.Success? {
      AuthResponseJsonReads(answer.value);
    } else {
      ErrorStatusFails(answer.error);
    }
  }

  /** What `get_post_by_id` answers for a lookup's outcome. */
  function PostByIdReply(found: Result<Posts.Post, Errors.BlogError>): Result<HttpResponse, Errors.BlogError> {
    match found
    case Success(p) => Success(HttpResponse(OK, JsonBody(JObject([("post", Posts.PostJson(p))]))))
    case Failure(e) => Failure(e)
  }

  /** The `{"post": …}` wrapper reads as a `PostResponse` holding the post's message. */
  lemma PostBodyReads(p: Posts.Post)
    requires SendablePost(p)
    ensures HttpClient.ReadPostResponse(JObject([("post", Posts.PostJson(p))])) ==
      Some(Proto.PostResponse(Some(Posts.ToGrpc(p))))
  {
    PostJsonReadsAsGrpc(p);
    WrappedPostReads(Posts.PostJson(p), Posts.ToGrpc(p));
  }

  lemma WrappedPostReads(j: Json, g: Proto.Post)
    requires HttpClient.ReadPost(j) == Some(g)
    ensures HttpClient.ReadPostResponse(JObject([("post", j)])) == Some(Proto.PostResponse(Some(g)))
  {
    assert Member(JObject([("post", j)]), "post") == Some(j);
  }

  /** Reading one post over HTTP yields the gRPC service's message; any refusal is NotFound. */
  lemma GetPostOverHttp(addr: string, postId: int, exchange: HttpClient.Exchange,
                        found: Result<Posts.Post, Errors.BlogError>)
    requires found.Success? ==> SendablePost(found.value)
    requires exchange(HttpClient.GetPostRequest(addr, postId)) == Success(Received(Errors.Respond(PostByIdReply(found))))
    ensures found.Success? ==>
      HttpClient.GetPost(addr, postId, exchange) == Success(Proto.PostResponse(Some(Posts.ToGrpc(found.value))))
    ensures found.Failure? ==> HttpClient.GetPost(addr, postId, exchange) == Failure(ClientError.NotFound)
  {
    if found.Success? {
      var body := JObject([("post", Posts.PostJson(found.value))]);
      PostBodyReads(found.value);
      assert Received(Errors.Respond(PostByIdReply(found))) == HttpClient.Reply(OK, Some(body));
    } else {
      ErrorStatusFails(found.error);
    }
  }

  /** What `create_post` and `update_post` answer for a write's outcome. */
  function WrittenReply(status: int, written: Result<Posts.Post, Errors.BlogError>): Result<HttpResponse, Errors.BlogError> {
    match written
    case Success(p) => Success(HttpResponse(status, JsonBody(Posts.PostJson(p))))
    case Failure(e) => Failure(e)
  }

  /** Creating a post over HTTP yields the gRPC service's message; a refusal carries the server's status. */
  lemma CreatePostOverHttp(addr: string, token: string, title: string, content: string, exchange: HttpClient.Exchange,
                           written: Result<Posts.Post, Errors.BlogError>)
    requires written.Success? ==> SendablePost(written.value)
    requires exchange(HttpClient.CreatePostRequest(addr, token, title, content)) ==
      Success(Received(Errors.Respond(WrittenReply(CREATED, written))))
    ensures written.Success? ==>
      HttpClient.CreatePost(addr, token, title, content, exchange) ==
        Success(Proto.PostResponse(Some(Posts.ToGrpc(written.value))))
    ensures written.Failure? ==>
      HttpClient.CreatePost(addr, token, title, content, exchange) ==
        Failure(HttpClient.ServerResponse(Errors.StatusCode(written.error)))
  {
    if written.Success? {
      PostJsonReadsAsGrpc(written.value);
    } else {
      ErrorStatusFails(written.error);
    }
  }

  /** Updating a post over HTTP yields the gRPC service's message; a refusal carries the server's status. */
  lemma UpdatePostOverHttp(addr: string, token: string, postId: int, title: Option<string>, content: Option<string>,
                           exchange: HttpClient.Exchange, written: Result<Posts.Post, Errors.BlogError>)
    requires written.Success? ==> SendablePost(written.value)
    requires exchange(HttpClient.UpdatePostRequest(addr, token, postId, title, content)) ==
      Success(Received(Errors.Respond(WrittenReply(OK, written))))
    ensures written.Success? ==>
      HttpClient.UpdatePost(addr, token, postId, title, content, exchange) ==
        Success(Proto.PostResponse(Some(Posts.ToGrpc(written.value))))
    ensures written.Failure? ==>
      HttpClient.UpdatePost(addr, token, postId, title, content, exchange) ==
        Failure(HttpClient.ServerResponse(Errors.StatusCode(written.error)))
  {
    if written.Success? {
      PostJsonReadsAsGrpc(written.value);
    } else {
      ErrorStatusFails(written.error);
    }
  }

  /** The JSON array of a listing. */
  function PostArray(posts: seq<Posts.Post>): seq<Json> {
    seq(|posts|, i requires 0 <= i < |posts| => Posts.PostJson(posts[i]))
  }

  /** A list of posts reads element by element. */
  lemma {:induction false} ReadPostsEach(items: seq<Json>, msgs: seq<Proto.Post>)
    requires |items| == |msgs|
    requires forall i :: 0 <= i < |items| ==> HttpClient.ReadPost(items[i]) == Some(msgs[i])
    ensures HttpClient.ReadPosts(items) == Some(msgs)
    decreases |items|
  {
    if items != [] {
      assert HttpClient.ReadPost(items[0]) == Some(msgs[0]);
      ReadPostsEach(items[1..], msgs[1..]);
      assert msgs == [msgs[0]] + msgs[1..];
    }
  }

  lemma PostArrayReads(posts: seq<Posts.Post>)
    requires forall i :: 0 <= i < |posts| ==> SendablePost(posts[i])
    ensures HttpClient.ReadPosts(PostArray(posts)) == Some(GrpcService.GrpcPosts(posts))
  {
    var items := PostArray(posts);
    var msgs := GrpcService.GrpcPosts(posts);
    forall i | 0 <= i < |items|
      ensures HttpClient.ReadPost(items[i]) == Some(msgs[i])
    {
      PostJsonReadsAsGrpc(posts[i]);
    }
    ReadPostsEach(items, msgs);
  }

  /** Reading a listing depends only on its four members. */
  lemma ReadListOfMembers(j: Json, items: seq<Json>, l: Proto.ListPostsResponse)
    requires Proto.I32_MIN <= l.total <= Proto.I32_MAX
    requires Proto.I32_MIN <= l.limit <= Proto.I32_MAX
    requires Proto.I32_MIN <= l.offset <= Proto.I32_MAX
    requires Member(j, "post") == Some(JArray(items)) && HttpClient.ReadPosts(items) == Some(l.post)
    requires Member(j, "total") == Some(JInt(l.total))
    requires Member(j, "limit") == Some(JInt(l.limit))
    requires Member(j, "offset") == Some(JInt(l.offset))
    ensures HttpClient.ReadListPostsResponse(j) == Some(l)
  {
  }

  lemma ListJsonMembers(posts: seq<Posts.Post>, total: int, limit: int, offset: int)
    ensures Member(Public.ListJson(posts, total, limit, offset), "post") == Some(JArray(PostArray(posts)))
    ensures Member(Public.ListJson(posts, total, limit, offset), "total") == Some(JInt(total))
    ensures Member(Public.ListJson(posts, total, limit, offset), "limit") == Some(JInt(limit))
    ensures Member(Public.ListJson(posts, total, limit, offset), "offset") == Some(JInt(offset))
  {
  }

  /** The listing's JSON reads as the gRPC service's `ListPostsResponse` for the same page. */
  lemma ListJsonReadsAsGrpc(posts: seq<Posts.Post>, total: int, limit: int, offset: int)
    requires forall i :: 0 <= i < |posts| ==> SendablePost(posts[i])
    requires Proto.I32_MIN <= total <= Proto.I32_MAX
    requires Proto.I32_MIN <= limit <= Proto.I32_MAX
    requires Proto.I32_MIN <= offset <= Proto.I32_MAX
    ensures HttpClient.ReadListPostsResponse(Public.ListJson(posts, total, limit, offset)) ==
      Some(Proto.ListPostsResponse(GrpcService.GrpcPosts(posts), total, limit, offset))
  {
    ListJsonMembers(posts, total, limit, offset);
    PostArrayReads(posts);
    ReadListOfMembers(Public.ListJson(posts, total, limit, offset), PostArray(posts),
                      Proto.ListPostsResponse(GrpcService.GrpcPosts(posts), total, limit, offset));
  }

  /** Listing over HTTP yields the gRPC service's message for the same page; any refusal is NotFound. */
  lemma ListPostsOverHttp(addr: string, limit: int, offset: int, exchange: HttpClient.Exchange,
                          listed: Result<seq<Posts.Post>, Errors.BlogError>)
    requires listed.Success? ==> forall i :: 0 <= i < |listed.value| ==> SendablePost(listed.value[i])
    requires Proto.I32_MIN <= limit <= Proto.I32_MAX && Proto.I32_MIN <= offset <= Proto.I32_MAX
    requires exchange(HttpClient.ListPostsRequest(addr, limit, offset)) == Success(Received(Errors.Respond(
      match listed
      case Success(ps) => Success(HttpResponse(OK, JsonBody(Public.ListJson(ps, Proto.LenAsI32(|ps|), limit, offset))))
      case Failure(e) => Failure(e))))
    ensures listed.Success? ==>
      HttpClient.ListPosts(addr, limit, offset, exchange) ==
        Success(Proto.ListPostsResponse(GrpcService.GrpcPosts(listed.value), Proto.LenAsI32(|listed.value|), limit, offset))
    ensures listed.Failure? ==> HttpClient.ListPosts(addr, limit, offset, exchange) == Failure(ClientError.NotFound)
  {
    if listed.Success? {
      ListJsonReadsAsGrpc(listed.value, Proto.LenAsI32(|listed.value|), limit, offset);
    } else {
      ErrorStatusFails(listed.error);
    }
  }

  // ---------------------------------------------------------------------
  // Deleting over HTTP
  // ---------------------------------------------------------------------

  /**
   * As written, the client reads the server's delete acknowledgement
   * `{"post": id, "delete": true}` as `DeletePostResponse`, whose `success`
   * member it lacks: a delete the server carried out comes back as an
   * Internal error carrying status 200.
   */
  lemma DeleteAckUnread(addr: string, token: string, postId: int, exchange: HttpClient.Exchange)
    requires exchange(HttpClient.DeletePostRequest(addr, token, postId)) ==
      Success(Received(HttpResponse(OK, JsonBody(Protect.DeletedBody(postId)))))
    ensures HttpClient.ReadDeletePostResponse(Protect.DeletedBody(postId)).None?
    ensures HttpClient.DeletePost(addr, token, postId, exchange) ==
      Failure(ClientError.Internal("Server responce: 200 OK"))
  {
    var j := Protect.DeletedBody(postId);
    assert Member(j, "success").None?;
    assert Text.NatToString(2) == "2";
    assert Text.NatToString(20) == "20";
    assert Text.NatToString(200) == "200";
    assert HttpClient.StatusText(200) == "200 OK";
    assert HttpClient.ServerResponse(200) == ClientError.Internal("Server responce: 200 OK");
    assert HttpClient.Read(Some(j), HttpClient.ReadDeletePostResponse).None?;
  }

  /**
   * Read by its `delete` member, the same acknowledgement yields the message
   * the gRPC service sends for a delete; a refusal carries the server's status.
   */
  lemma DeleteAckRead(addr: string, token: string, postId: int, exchange: HttpClient.Exchange,
                      deleted: Result<(), Errors.BlogError>)
    requires exchange(HttpClient.DeletePostRequest(addr, token, postId)) == Success(Received(Errors.Respond(
      match deleted
      case Success(_) => Success(HttpResponse(OK, JsonBody(Protect.DeletedBody(postId))))
      case Failure(e) => Failure(e))))
    ensures deleted.Success? ==>
      HttpClient.DeletePostAcknowledged(addr, token, postId, exchange) == Success(Proto.DeletePostResponse(true))
    ensures deleted.Failure? ==>
      HttpClient.DeletePostAcknowledged(addr, token, postId, exchange) ==
        Failure(HttpClient.ServerResponse(Errors.StatusCode(deleted.error)))
  {
    if deleted.Success? {
      assert Member(Protect.DeletedBody(postId), "delete") == Some(JBool(true));
    } else {
      ErrorStatusFails(deleted.error);
    }
  }
}
