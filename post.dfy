/**
 * The post entity (blog_server/src/domain/post.rs): the domain `Post`, the
 * write payloads `CreatePost` and `UpdatePost`, and the conversions to and
 * from the gRPC message. Timestamps are chrono `DateTime<Utc>` values.
 */
module Posts {
  import opened Wrappers
  import opened Json
  import Text
  import Uuids
  import Proto
  import opened Errors

  /**
   * The seconds chrono can represent: -262143-01-01T00:00:00Z to
   * +262142-12-31T23:59:59Z. The first is 96465292 days before the epoch
   * (656 Gregorian 400-year cycles of 146097 days before year 0, plus the
   * 93868 days of the years 0 to 256, minus the 719528 days from year 0 to
   * 1970); the second is one second before +262143-01-01, which is
   * 95026237 days after the epoch.
   */
  const MIN_SECS: int := -8334601228800
  const MAX_SECS: int := 8210266876799
  const NANOS_PER_SEC: int := 1_000_000_000

  datatype Instant = Instant(secs: int, nanos: int)

  predicate Representable(t: Instant) {
    MIN_SECS <= t.secs <= MAX_SECS && 0 <= t.nanos < NANOS_PER_SEC
  }

  /** A `DateTime<Utc>`: whole seconds since the epoch and a sub-second part. */
  type DateTime = t: Instant | Representable(t) witness Instant(0, 0)

  /** `DateTime::from_timestamp(secs, 0)`: None outside chrono's range. */
  function FromTimestamp(secs: int): (r: Option<DateTime>)
    ensures r.Some? <==> MIN_SECS <= secs <= MAX_SECS
    ensures r.Some? ==> r.value.secs == secs && r.value.nanos == 0
  {
    if MIN_SECS <= secs <= MAX_SECS then Some(Instant(secs, 0)) else None
  }

  /** The first and last second `from_timestamp` accepts, and their neighbours outside. */
  lemma FromTimestampBounds()
    ensures FromTimestamp(-8334601228800).Some? && FromTimestamp(-8334601228801).None?
    ensures FromTimestamp(8210266876799).Some? && FromTimestamp(8210266876800).None?
    ensures MIN_SECS == -96465292 * 86400 && MAX_SECS == 95026237 * 86400 - 1
  {
  }

  /** `DateTime::timestamp`: the whole seconds since the epoch. */
  function Timestamp(t: DateTime): int {
    t.secs
  }

  /** The instant truncated to whole seconds. */
  function WholeSeconds(t: DateTime): DateTime {
    Instant(t.secs, 0)
  }

  /** Chronological order on instants. */
  predicate NotAfter(a: DateTime, b: DateTime) {
    a.secs < b.secs || (a.secs == b.secs && a.nanos <= b.nanos)
  }

  /** Rendering as seconds and reading back loses only the sub-second part. */
  lemma FromTimestampOfTimestamp(t: DateTime)
    ensures FromTimestamp(Timestamp(t)) == Some(WholeSeconds(t))
    ensures t.nanos == 0 ==> FromTimestamp(Timestamp(t)) == Some(t)
  {
  }

  datatype Post = Post(
    id: int,
    title: string,
    content: string,
    authorId: Uuids.Uuid,
    createdAt: DateTime,
    updatedAt: Option<DateTime>)

  datatype CreatePost = CreatePost(title: string, content: string)

  /** The HTTP update payload: both fields are mandatory. */
  datatype UpdatePost = UpdatePost(title: string, content: string)

  /** `Post::new`, with the clock reading `now` as a parameter. */
  function NewPost(id: int, title: string, content: string, authorId: Uuids.Uuid, now: DateTime): (p: Post)
    ensures p.id == id && p.title == title && p.content == content && p.authorId == authorId
    ensures p.createdAt == now && p.updatedAt.None?
  {
    Post(id, title, content, authorId, now, None)
  }

  /** `From<Post> for blog_grpc::Post` */
  function ToGrpc(p: Post): (g: Proto.Post)
    ensures g.id == p.id && g.title == p.title && g.content == p.content
    ensures Uuids.Parse(g.authorId) == Success(p.authorId)
    ensures g.createdAt == Timestamp(p.createdAt)
    ensures g.updatedAt.Some? <==> p.updatedAt.Some?
    ensures p.updatedAt.Some? ==> g.updatedAt.value == Timestamp(p.updatedAt.value)
  {
    Uuids.ParseToString(p.authorId);
    Proto.Post(
      p.id, p.title, p.content, Uuids.ToString(p.authorId), Timestamp(p.createdAt),
      match p.updatedAt case None => None case Some(t) => Some(Timestamp(t)))
  }

  /**
   * `TryFrom<blog_grpc::Post> for Post`. The author id is parsed first, then
   * the creation time; the incoming `updated_at` is ignored and the result's
   * `updated_at` is read from `created_at` again.
   */
  function FromGrpc(g: Proto.Post): (r: Result<Post, BlogError>)
    ensures r.Success? <==> Uuids.Parse(g.authorId).Success? && MIN_SECS <= g.createdAt <= MAX_SECS
    ensures Uuids.Parse(g.authorId).Failure? ==>
      r == Failure(BlogError.Validation(Uuids.Parse(g.authorId).error))
    ensures Uuids.Parse(g.authorId).Success? && !(MIN_SECS <= g.createdAt <= MAX_SECS) ==>
      r == Failure(BlogError.Validation(Text.IntToString(g.createdAt)))
    ensures r.Success? ==>
      && r.value.id == g.id && r.value.title == g.title && r.value.content == g.content
      && Uuids.Parse(g.authorId) == Success(r.value.authorId)
      && r.value.createdAt == Instant(g.createdAt, 0)
      && r.value.updatedAt == Some(r.value.createdAt)
  {
    var authorId :- Uuids.Parse(g.authorId).MapFailure(e => BlogError.Validation(e));
    var createdAt :- match FromTimestamp(g.createdAt)
      case Some(t) => Success(t)
      case None => Failure(BlogError.Validation(Text.IntToString(g.createdAt)));
    Success(Post(g.id, g.title, g.content, authorId, createdAt, FromTimestamp(g.createdAt)))
  }

  /** `From<CreatePostRequest> for CreatePost` */
  function FromCreateRequest(req: Proto.CreatePostRequest): (c: CreatePost)
    ensures c.title == req.title && c.content == req.content
  {
    CreatePost(req.title, req.content)
  }

  /**
   * Domain to wire and back keeps id, title, content and author, keeps the
   * creation time to whole seconds, and replaces `updated_at` by the
   * creation time.
   */
  lemma GrpcRoundTrip(p: Post)
    ensures FromGrpc(ToGrpc(p)) ==
      Success(p.(createdAt := WholeSeconds(p.createdAt), updatedAt := Some(WholeSeconds(p.createdAt))))
  {
  }

  /** So a post that was never updated comes back as if it had been, at its creation time. */
  lemma GrpcRoundTripSetsUpdatedAt(p: Post)
    requires p.updatedAt.None?
    ensures FromGrpc(ToGrpc(p)).Success?
    ensures FromGrpc(ToGrpc(p)).value.updatedAt == Some(WholeSeconds(p.createdAt))
  {
    GrpcRoundTrip(p);
  }

  /** A new post reaches the wire without an update time, stamped with the clock reading. */
  lemma NewPostToGrpc(id: int, title: string, content: string, authorId: Uuids.Uuid, now: DateTime)
    ensures ToGrpc(NewPost(id, title, content, authorId, now)).updatedAt.None?
    ensures ToGrpc(NewPost(id, title, content, authorId, now)).createdAt == now.secs
    ensures FromGrpc(ToGrpc(NewPost(id, title, content, authorId, now))).Success?
  {
  }

  /**
   * The serde form of a post: `created_at` and `updated_at` as whole seconds
   * (`TimestampSeconds<i64>`), `updated_at` as null when absent.
   */
  function PostJson(p: Post): Json {
    JObject([
      ("id", JInt(p.id)),
      ("title", JString(p.title)),
      ("content", JString(p.content)),
      ("author_id", JString(Uuids.ToString(p.authorId))),
      ("created_at", JInt(Timestamp(p.createdAt))),
      ("updated_at", match p.updatedAt case None => JNull case Some(t) => JInt(Timestamp(t)))
    ])
  }

  /**
   * The JSON form carries the post's id, the author id in its rendered UUID
   * form, and the creation time in whole seconds.
   */
  lemma PostJsonFields(p: Post)
    ensures Member(PostJson(p), "id") == Some(JInt(p.id))
    ensures Member(PostJson(p), "author_id") == Some(JString(Uuids.ToString(p.authorId)))
    ensures Member(PostJson(p), "created_at") == Some(JInt(Timestamp(p.createdAt)))
  {
    PostJsonAuthor(p);
    PostJsonCreatedAt(p);
  }

  lemma PostJsonAuthor(p: Post)
    ensures Member(PostJson(p), "author_id") == Some(JString(Uuids.ToString(p.authorId)))
  {
  }

  lemma PostJsonCreatedAt(p: Post)
    ensures Member(PostJson(p), "created_at") == Some(JInt(Timestamp(p.createdAt)))
  {
  }
}
