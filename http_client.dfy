/**
 * The HTTP backend of the client library (blog_client/src/http_client.rs):
 * the request each command sends, and how the reply's status and body
 * decide the command's result. The exchange itself (reqwest) is a
 * parameter: a function from the request to the reply, or to the transport
 * error's text. A reply's body is the JSON document received, or None when
 * it is not JSON; reading it into a message follows serde's derived
 * `Deserialize` for the generated message types.
 */
module HttpClient {
  import opened Wrappers
  import opened Json
  import opened ClientError
  import Proto
  import Text

  datatype Verb = Get | Post | Put | Delete

  datatype Request = Request(verb: Verb, path: string, authorization: Option<string>, body: Option<Json>)

  datatype Reply = Reply(status: int, body: Option<Json>)

  type Exchange = Request -> Result<Reply, string>

  // ---------------------------------------------------------------------
  // Status codes
  // ---------------------------------------------------------------------

  /** `StatusCode::is_success` */
  predicate IsSuccess(status: int) {
    200 <= status <= 299
  }

  /** `StatusCode::canonical_reason`, for the common codes. */
  function ReasonPhrase(status: int): Option<string> {
    match status
    case 200 => Some("OK")
    case 201 => Some("Created")
    case 204 => Some("No Content")
    case 400 => Some("Bad Request")
    case 401 => Some("Unauthorized")
    case 403 => Some("Forbidden")
    case 404 => Some("Not Found")
    case 405 => Some("Method Not Allowed")
    case 409 => Some("Conflict")
    case 413 => Some("Payload Too Large")
    case 415 => Some("Unsupported Media Type")
    case 422 => Some("Unprocessable Entity")
    case 429 => Some("Too Many Requests")
    case 500 => Some("Internal Server Error")
    case 502 => Some("Bad Gateway")
    case 503 => Some("Service Unavailable")
    case 504 => Some("Gateway Timeout")
    case _ => None
  }

  /** `StatusCode`'s `Display`: the number, a space, and the reason. */
  function StatusText(status: int): string {
    Text.IntToString(status) + " " + ReasonPhrase(status).GetOr("<unknown status code>")
  }

  function ServerResponse(status: int): AppError {
    Internal("Server responce: " + StatusText(status))
  }

  /** What `reqwest::Error`'s `Display` prints for a body that does not decode. */
  const DECODE_ERROR: string := "error decoding response body"

  // ---------------------------------------------------------------------
  // Classification of a reply
  // ---------------------------------------------------------------------

  /**
   * `register` and `login`: a success status with a readable body is Ok, a
   * success status with an unreadable body Unauthorized, any other status
   * Internal with the status.
   */
  function ClassifyAuth<T>(status: int, parsed: Option<T>): (r: Result<T, AppError>)
    ensures r.Success? <==> IsSuccess(status) && parsed.Some?
    ensures r.Success? ==> r.value == parsed.value
    ensures IsSuccess(status) && parsed.None? ==> r == Failure(Unauthorized)
    ensures !IsSuccess(status) ==> r == Failure(ServerResponse(status))
  {
    if IsSuccess(status) then
      match parsed
      case Some(v) => Success(v)
      case None => Failure(Unauthorized)
    else Failure(ServerResponse(status))
  }

  /** `create_post`, `update_post`, `delete_post`: Ok only for a success status and a readable body. */
  function ClassifyWrite<T>(status: int, parsed: Option<T>): (r: Result<T, AppError>)
    ensures r.Success? <==> IsSuccess(status) && parsed.Some?
    ensures r.Success? ==> r.value == parsed.value
    ensures r.Failure? ==> r.error == ServerResponse(status)
  {
    if IsSuccess(status) && parsed.Some? then Success(parsed.value) else Failure(ServerResponse(status))
  }

  /** `get_post`, `list_posts`: any other status is NotFound; an unreadable body is Internal. */
  function ClassifyRead<T>(status: int, parsed: Option<T>): (r: Result<T, AppError>)
    ensures r.Success? <==> IsSuccess(status) && parsed.Some?
    ensures r.Success? ==> r.value == parsed.value
    ensures !IsSuccess(status) ==> r == Failure(NotFound)
    ensures IsSuccess(status) && parsed.None? ==> r == Failure(Internal(DECODE_ERROR))
  {
    if !IsSuccess(status) then Failure(NotFound)
    else match parsed
      case Some(v) => Success(v)
      case None => Failure(Internal(DECODE_ERROR))
  }

  /**
   * The three classifications agree on what succeeds and differ only in the
   * error they give: a non-success status is never Unauthorized, and an
   * unreadable body after a success status is never NotFound.
   */
  lemma ClassificationsAgree<T>(status: int, parsed: Option<T>)
    ensures ClassifyAuth(status, parsed) == ClassifyWrite(status, parsed) <==> !(IsSuccess(status) && parsed.None?)
    ensures ClassifyAuth(status, parsed).Success? <==> ClassifyRead(status, parsed).Success?
    ensures ClassifyRead(status, parsed) == Failure(NotFound) <==> !IsSuccess(status)
    ensures ClassifyAuth(status, parsed) == Failure(Unauthorized) <==> IsSuccess(status) && parsed.None?
  {
    if IsSuccess(status) && parsed.None? {
      assert ServerResponse(status).message[..17] == "Server responce: ";
      assert ClassifyWrite(status, parsed) == Failure(ServerResponse(status));
    }
  }

  // ---------------------------------------------------------------------
  // Reading bodies (serde's derived `Deserialize`)
  // ---------------------------------------------------------------------

  /** A message body read with `reader`; None when there is no JSON to read or it does not fit. */
  function Read<T>(body: Option<Json>, reader: Json -> Option<T>): Option<T> {
    match body
    case None => None
    case Some(j) => reader(j)
  }

  function StringField(j: Json, key: string): (r: Option<string>)
    ensures r.Some? <==> Member(j, key).Some? && Member(j, key).value.JString?
    ensures r.Some? ==> Member(j, key) == Some(JString(r.value))
  {
    match Member(j, key)
    case Some(JString(s)) => Some(s)
    case _ => None
  }

  function IntField(j: Json, key: string, min: int, max: int): (r: Option<int>)
    ensures r.Some? <==> Member(j, key).Some? && Member(j, key).value.JInt? && min <= Member(j, key).value.i <= max
    ensures r.Some? ==> Member(j, key) == Some(JInt(r.value))
  {
    match Member(j, key)
    case Some(JInt(i)) => if min <= i <= max then Some(i) else None
    case _ => None
  }

  /** An `Option` field: missing or null is None. */
  function OptionalIntField(j: Json, key: string, min: int, max: int): Option<Option<int>> {
    match Member(j, key)
    case None => Some(None)
    case Some(JNull) => Some(None)
    case Some(JInt(i)) => if min <= i <= max then Some(Some(i)) else None
    case Some(_) => None
  }

  const I64_MIN: int := -0x8000_0000_0000_0000
  const I64_MAX: int := 0x7FFF_FFFF_FFFF_FFFF

  /** `AuthResponse { token }`; other members are ignored. */
  function ReadAuthResponse(j: Json): Option<Proto.AuthResponse> {
    var token :- StringField(j, "token");
    Some(Proto.AuthResponse(token))
  }

  /** `Post { id, title, content, author_id, created_at, updated_at }` */
  function ReadPost(j: Json): Option<Proto.Post> {
    var id :- IntField(j, "id", I64_MIN, I64_MAX);
    var title :- StringField(j, "title");
    var content :- StringField(j, "content");
    var authorId :- StringField(j, "author_id");
    var createdAt :- IntField(j, "created_at", I64_MIN, I64_MAX);
    var updatedAt :- OptionalIntField(j, "updated_at", I64_MIN, I64_MAX);
    Some(Proto.Post(id, title, content, authorId, createdAt, updatedAt))
  }

  /** `PostResponse { post }`: `post` is optional. */
  function ReadPostResponse(j: Json): Option<Proto.PostResponse> {
    if !j.JObject? then None
    else match Member(j, "post")
      case None => Some(Proto.PostResponse(None))
      case Some(JNull) => Some(Proto.PostResponse(None))
      case Some(p) =>
        var post :- ReadPost(p);
        Some(Proto.PostResponse(Some(post)))
  }

  /** `DeletePostResponse { success }`, as the client library reads it. */
  function ReadDeletePostResponse(j: Json): Option<Proto.DeletePostResponse> {
    match Member(j, "success")
    case Some(JBool(b)) => Some(Proto.DeletePostResponse(b))
    case _ => None
  }

  /**
   * The delete acknowledgement the server sends, `{"post": id, "delete": true}`,
   * read by its `delete` member: the reading the client evidently intends.
   */
  function ReadDeleteAck(j: Json): Option<Proto.DeletePostResponse> {
    match Member(j, "delete")
    case Some(JBool(b)) => Some(Proto.DeletePostResponse(b))
    case _ => None
  }

  function ReadPosts(items: seq<Json>): (r: Option<seq<Proto.Post>>)
    ensures r.Some? ==> |r.value| == |items|
  {
    if items == [] then Some([])
    else
      var head :- ReadPost(items[0]);
      var tail :- ReadPosts(items[1..]);
      Some([head] + tail)
  }

  /** `ListPostsResponse { post, total, limit, offset }` */
  function ReadListPostsResponse(j: Json): Option<Proto.ListPostsResponse> {
    var posts :- match Member(j, "post") case Some(JArray(items)) => ReadPosts(items) case _ => None;
    var total :- IntField(j, "total", Proto.I32_MIN, Proto.I32_MAX);
    var limit :- IntField(j, "limit", Proto.I32_MIN, Proto.I32_MAX);
    var offset :- IntField(j, "offset", Proto.I32_MIN, Proto.I32_MAX);
    Some(Proto.ListPostsResponse(posts, total, limit, offset))
  }

  // ---------------------------------------------------------------------
  // Request bodies (serde's derived `Serialize`)
  // ---------------------------------------------------------------------

  function OptionalString(s: Option<string>): Json {
    match s
    case None => JNull
    case Some(v) => JString(v)
  }

  function RegisterBody(r: Proto.RegisterRequest): Json {
    JObject([("username", JString(r.username)), ("email", JString(r.email)), ("password", JString(r.password))])
  }

  function LoginBody(r: Proto.LoginRequest): Json {
    JObject([("username", JString(r.username)), ("password", JString(r.password))])
  }

  function CreatePostBody(r: Proto.CreatePostRequest): Json {
    JObject([("title", JString(r.title)), ("content", JString(r.content))])
  }

  function UpdatePostBody(r: Proto.UpdatePostRequest): Json {
    JObject([("id", JInt(r.id)), ("title", OptionalString(r.title)), ("content", OptionalString(r.content))])
  }

  // ---------------------------------------------------------------------
  // Requests
  // ---------------------------------------------------------------------

  /** `get_auth_header` */
  function AuthHeader(token: string): (h: string)
    ensures Text.StripPrefix(h, "Bearer ") == Some(token)
  {
    Text.StripPrefixOfConcat("Bearer ", token);
    "Bearer " + token
  }

  function RegisterRequest(addr: string, username: string, email: string, password: string): (q: Request)
    ensures q.verb == Post && q.path == addr + "/api/auth/register" && q.authorization.None?
  {
    Request(Post, addr + "/api/auth/register", None,
            Some(RegisterBody(Proto.RegisterRequest(username, email, password))))
  }

  function LoginRequest(addr: string, username: string, password: string): (q: Request)
    ensures q.verb == Post && q.path == addr + "/api/auth/login" && q.authorization.None?
  {
    Request(Post, addr + "/api/auth/login", None, Some(LoginBody(Proto.LoginRequest(username, password))))
  }

  function CreatePostRequest(addr: string, token: string, title: string, content: string): (q: Request)
    ensures q.verb == Post && q.path == addr + "/protect/post" && q.authorization == Some(AuthHeader(token))
  {
    Request(Post, addr + "/protect/post", Some(AuthHeader(token)),
            Some(CreatePostBody(Proto.CreatePostRequest(title, content))))
  }

  /** The update's body repeats the id of its path. */
  function UpdatePostRequest(addr: string, token: string, postId: int, title: Option<string>, content: Option<string>)
    : (q: Request)
    ensures q.verb == Put && q.path == addr + "/protect/post/" + Text.IntToString(postId)
    ensures q.authorization == Some(AuthHeader(token))
    ensures q.body.Some? && Member(q.body.value, "id") == Some(JInt(postId))
  {
    Request(Put, addr + "/protect/post/" + Text.IntToString(postId), Some(AuthHeader(token)),
            Some(UpdatePostBody(Proto.UpdatePostRequest(postId, title, content))))
  }

  function DeletePostRequest(addr: string, token: string, postId: int): (q: Request)
    ensures q.verb == Delete && q.path == addr + "/protect/post/" + Text.IntToString(postId)
    ensures q.authorization == Some(AuthHeader(token)) && q.body.None?
  {
    Request(Delete, addr + "/protect/post/" + Text.IntToString(postId), Some(AuthHeader(token)), None)
  }

  function GetPostRequest(addr: string, postId: int): (q: Request)
    ensures q.verb == Get && q.path == addr + "/api/posts/" + Text.IntToString(postId)
    ensures q.authorization.None? && q.body.None?
  {
    Request(Get, addr + "/api/posts/" + Text.IntToString(postId), None, None)
  }

  function ListPostsRequest(addr: string, limit: int, offset: int): (q: Request)
    ensures q.verb == Get
    ensures q.path == addr + "/api/posts?limit=" + Text.IntToString(limit) + "&offset=" + Text.IntToString(offset)
    ensures q.authorization.None? && q.body.None?
  {
    Request(Get, addr + "/api/posts?limit=" + Text.IntToString(limit) + "&offset=" + Text.IntToString(offset), None, None)
  }

  // ---------------------------------------------------------------------
  // Commands
  // ---------------------------------------------------------------------

  /** `register` */
  function Register(addr: string, username: string, email: string, password: string, exchange: Exchange)
    : (r: Result<Proto.AuthResponse, AppError>)
    ensures exchange(RegisterRequest(addr, username, email, password)).Failure? ==>
      r == Failure(HttpError(exchange(RegisterRequest(addr, username, email, password)).error))
    ensures exchange(RegisterRequest(addr, username, email, password)).Success? ==>
      var reply := exchange(RegisterRequest(addr, username, email, password)).value;
      r == ClassifyAuth(reply.status, Read(reply.body, ReadAuthResponse))
  {
    var reply :- exchange(RegisterRequest(addr, username, email, password)).MapFailure(e => HttpError(e));
    ClassifyAuth(reply.status, Read(reply.body, ReadAuthResponse))
  }

  /** `login` */
  function Login(addr: string, username: string, password: string, exchange: Exchange)
    : (r: Result<Proto.AuthResponse, AppError>)
    ensures exchange(LoginRequest(addr, username, password)).Failure? ==>
      r == Failure(HttpError(exchange(LoginRequest(addr, username, password)).error))
    ensures exchange(LoginRequest(addr, username, password)).Success? ==>
      var reply := exchange(LoginRequest(addr, username, password)).value;
      r == ClassifyAuth(reply.status, Read(reply.body, ReadAuthResponse))
  {
    var reply :- exchange(LoginRequest(addr, username, password)).MapFailure(e => HttpError(e));
    ClassifyAuth(reply.status, Read(reply.body, ReadAuthResponse))
  }

  /** `create_post`: the reply's post, wrapped as a `PostResponse`. */
  function CreatePost(addr: string, token: string, title: string, content: string, exchange: Exchange)
    : (r: Result<Proto.PostResponse, AppError>)
    ensures exchange(CreatePostRequest(addr, token, title, content)).Failure? ==>
      r == Failure(HttpError(exchange(CreatePostRequest(addr, token, title, content)).error))
    ensures exchange(CreatePostRequest(addr, token, title, content)).Success? ==>
      var reply := exchange(CreatePostRequest(addr, token, title, content)).value;
      && (r.Success? <==> IsSuccess(reply.status) && Read(reply.body, ReadPost).Some?)
      && (r.Success? ==> r.value == Proto.PostResponse(Some(Read(reply.body, ReadPost).value)))
      && (r.Failure? ==> r.error == ServerResponse(reply.status))
  {
    var reply :- exchange(CreatePostRequest(addr, token, title, content)).MapFailure(e => HttpError(e));
    var post :- ClassifyWrite(reply.status, Read(reply.body, ReadPost));
    Success(Proto.PostResponse(Some(post)))
  }

  /** `update_post`: the reply's post, wrapped as a `PostResponse`. */
  function UpdatePost(addr: string, token: string, postId: int, title: Option<string>, content: Option<string>,
                      exchange: Exchange)
    : (r: Result<Proto.PostResponse, AppError>)
    ensures exchange(UpdatePostRequest(addr, token, postId, title, content)).Failure? ==>
      r == Failure(HttpError(exchange(UpdatePostRequest(addr, token, postId, title, content)).error))
    ensures exchange(UpdatePostRequest(addr, token, postId, title, content)).Success? ==>
      var reply := exchange(UpdatePostRequest(addr, token, postId, title, content)).value;
      && (r.Success? <==> IsSuccess(reply.status) && Read(reply.body, ReadPost).Some?)
      && (r.Success? ==> r.value == Proto.PostResponse(Some(Read(reply.body, ReadPost).value)))
      && (r.Failure? ==> r.error == ServerResponse(reply.status))
  {
    var reply :- exchange(UpdatePostRequest(addr, token, postId, title, content)).MapFailure(e => HttpError(e));
    var post :- ClassifyWrite(reply.status, Read(reply.body, ReadPost));
    Success(Proto.PostResponse(Some(post)))
  }

  /** `delete_post`, as written: the reply has to read as `DeletePostResponse`. */
  function DeletePost(addr: string, token: string, postId: int, exchange: Exchange)
    : (r: Result<Proto.DeletePostResponse, AppError>)
    ensures exchange(DeletePostRequest(addr, token, postId)).Failure? ==>
      r == Failure(HttpError(exchange(DeletePostRequest(addr, token, postId)).error))
    ensures exchange(DeletePostRequest(addr, token, postId)).Success? ==>
      var reply := exchange(DeletePostRequest(addr, token, postId)).value;
      r == ClassifyWrite(reply.status, Read(reply.body, ReadDeletePostResponse))
  {
    var reply :- exchange(DeletePostRequest(addr, token, postId)).MapFailure(e => HttpError(e));
    ClassifyWrite(reply.status, Read(reply.body, ReadDeletePostResponse))
  }

  /** `delete_post` reading the server's acknowledgement with `ReadDeleteAck`. */
  function DeletePostAcknowledged(addr: string, token: string, postId: int, exchange: Exchange)
    : (r: Result<Proto.DeletePostResponse, AppError>)
    ensures exchange(DeletePostRequest(addr, token, postId)).Failure? ==>
      r == Failure(HttpError(exchange(DeletePostRequest(addr, token, postId)).error))
    ensures exchange(DeletePostRequest(addr, token, postId)).Success? ==>
      var reply := exchange(DeletePostRequest(addr, token, postId)).value;
      r == ClassifyWrite(reply.status, Read(reply.body, ReadDeleteAck))
  {
    var reply :- exchange(DeletePostRequest(addr, token, postId)).MapFailure(e => HttpError(e));
    ClassifyWrite(reply.status, Read(reply.body, ReadDeleteAck))
  }

  /** `get_post` */
  function GetPost(addr: string, postId: int, exchange: Exchange): (r: Result<Proto.PostResponse, AppError>)
    ensures exchange(GetPostRequest(addr, postId)).Failure? ==>
      r == Failure(HttpError(exchange(GetPostRequest(addr, postId)).error))
    ensures exchange(GetPostRequest(addr, postId)).Success? ==>
      var reply := exchange(GetPostRequest(addr, postId)).value;
      r == ClassifyRead(reply.status, Read(reply.body, ReadPostResponse))
  {
    var reply :- exchange(GetPostRequest(addr, postId)).MapFailure(e => HttpError(e));
    ClassifyRead(reply.status, Read(reply.body, ReadPostResponse))
  }

  /** `list_posts` */
  function ListPosts(addr: string, limit: int, offset: int, exchange: Exchange): (r: Result<Proto.ListPostsResponse, AppError>)
    ensures exchange(ListPostsRequest(addr, limit, offset)).Failure? ==>
      r == Failure(HttpError(exchange(ListPostsRequest(addr, limit, offset)).error))
    ensures exchange(ListPostsRequest(addr, limit, offset)).Success? ==>
      var reply := exchange(ListPostsRequest(addr, limit, offset)).value;
      r == ClassifyRead(reply.status, Read(reply.body, ReadListPostsResponse))
  {
    var reply :- exchange(ListPostsRequest(addr, limit, offset)).MapFailure(e => HttpError(e));
    ClassifyRead(reply.status, Read(reply.body, ReadListPostsResponse))
  }
}
