/**
 * `BlogService` (blog_server/src/application/blog_service.rs): each method
 * makes one call on the posts table and re-classifies the repository's
 * error as a `BlogError`; a success is passed through unchanged.
 */
module BlogService {
  import opened Wrappers
  import opened Json
  import opened Errors
  import opened Posts
  import opened PostRepository
  import Uuids

  /** The repository error's text carried by an Internal error. */
  function AsInternal(e: PostRepositoryError): (b: BlogError)
    ensures b.Internal? && b.message == RepositoryErrorText(e)
  {
    BlogError.Internal(RepositoryErrorText(e))
  }

  /** `get_next_posts`: every error is Internal. */
  function NextPostsError(e: PostRepositoryError): BlogError {
    AsInternal(e)
  }

  /** `get_posts_by_user` */
  function PostsByUserError(e: PostRepositoryError, userId: Uuids.Uuid): BlogError {
    match e
    case NotFound => BlogError.NotFound("Posts not found")
    case AutorNotFound => BlogError.NotFound("Not found Uuid: " + Uuids.ToString(userId))
    case DatabaseError(_) => AsInternal(e)
  }

  /** `get_post_by_id` and `update_post` */
  function LookupError(e: PostRepositoryError): BlogError {
    match e
    case NotFound => BlogError.NotFound("Posts not found")
    case _ => AsInternal(e)
  }

  /** `create_post` */
  function CreatePostError(e: PostRepositoryError, authorId: Uuids.Uuid): BlogError {
    match e
    case AutorNotFound => BlogError.NotFound("Not found Uuid: " + Uuids.ToString(authorId))
    case _ => AsInternal(e)
  }

  /** `delete_post`: every error, NotFound included, is Internal. */
  function DeletePostError(e: PostRepositoryError): BlogError {
    AsInternal(e)
  }

  /** How each method classifies each repository error. */
  lemma Reclassification(e: PostRepositoryError, id: Uuids.Uuid)
    ensures NextPostsError(e).Internal? && DeletePostError(e).Internal?
    ensures DeletePostError(PostRepositoryError.NotFound) == BlogError.Internal("Post not found")
    ensures LookupError(e).NotFound? <==> e.NotFound?
    ensures e.NotFound? ==> LookupError(e) == BlogError.NotFound("Posts not found")
    ensures CreatePostError(e, id).NotFound? <==> e.AutorNotFound?
    ensures e.DatabaseError? ==>
      && NextPostsError(e) == BlogError.Internal("Database error: " + e.message)
      && LookupError(e) == NextPostsError(e) && CreatePostError(e, id) == NextPostsError(e)
      && PostsByUserError(e, id) == NextPostsError(e) && DeletePostError(e) == NextPostsError(e)
    ensures !PostsByUserError(e, id).Internal? <==> !e.DatabaseError?
  {
  }

  class BlogService {
    const data: PostTable

    constructor(data: PostTable)
      ensures this.data == data
    {
      this.data := data;
    }

    /** `get_next_posts(offset, count)`: `get_last_posts(count, Some(offset))`. */
    method GetNextPosts(offset: int, count: int, dbError: Option<string>) returns (r: Result<seq<Post>, BlogError>)
      requires data.Valid()
      ensures r == LastPosts(data.rows, count, Some(offset), dbError).MapFailure(NextPostsError)
      ensures r.Failure? ==> r.error.Internal?
      ensures r.Success? ==> |r.value| <= count && Descending(r.value)
    {
      var posts := data.GetLastPosts(count, Some(offset), dbError);
      match posts
      case Success(p) => r := Success(p);
      case Failure(e) => r := Failure(NextPostsError(e));
    }

    /** `get_posts_by_user` */
    method GetPostsByUser(userId: Uuids.Uuid, dbError: Option<string>) returns (r: Result<seq<Post>, BlogError>)
      requires data.Valid()
      ensures dbError.Some? ==> r == Failure(AsInternal(DatabaseError(dbError.value)))
      ensures dbError.None? ==> r.Success? && r.value == ByAuthor(data.rows, userId)
    {
      var posts := data.GetPostsByAuthor(userId, dbError);
      match posts
      case Success(p) => r := Success(p);
      case Failure(e) => r := Failure(PostsByUserError(e, userId));
    }

    /** `get_post_by_id` */
    method GetPostById(id: int, dbError: Option<string>) returns (r: Result<Post, BlogError>)
      requires data.Valid()
      ensures dbError.Some? ==> r == Failure(AsInternal(DatabaseError(dbError.value)))
      ensures dbError.None? && IndexOfId(data.rows, id).None? ==> r == Failure(BlogError.NotFound("Posts not found"))
      ensures dbError.None? && IndexOfId(data.rows, id).Some? ==> r == Success(data.rows[IndexOfId(data.rows, id).value])
    {
      var post := data.GetPost(id, dbError);
      match post
      case Success(p) =>
        IdLocatesRow(data.rows, p);
        r := Success(p);
      case Failure(e) => r := Failure(LookupError(e));
    }

    /** `create_post` */
    method CreatePost(post: CreatePost, authorId: Uuids.Uuid, now: DateTime, dbError: Option<string>)
      returns (r: Result<Post, BlogError>)
      requires data.Valid()
      modifies data
      ensures data.Valid()
      ensures dbError.Some? ==> r == Failure(AsInternal(DatabaseError(dbError.value))) && data.rows == old(data.rows)
      ensures dbError.None? ==>
        && r == Success(NewPost(old(data.nextId), post.title, post.content, authorId, now))
        && data.rows == Insert(old(data.rows), r.value)
    {
      var created := data.CreatePost(post, authorId, now, dbError);
      match created
      case Success(p) => r := Success(p);
      case Failure(e) => r := Failure(CreatePostError(e, authorId));
    }

    /** `update_post(post, update)`: addresses the table by `post.id`. */
    method UpdatePost(post: Post, update: UpdatePost, now: DateTime, dbError: Option<string>)
      returns (r: Result<Post, BlogError>)
      requires data.Valid()
      modifies data
      ensures data.Valid()
      ensures dbError.Some? ==> r == Failure(AsInternal(DatabaseError(dbError.value))) && data.rows == old(data.rows)
      ensures dbError.None? && IndexOfId(old(data.rows), post.id).None? ==>
        r == Failure(BlogError.Internal("Database error: " + ROW_NOT_FOUND)) && data.rows == old(data.rows)
      ensures dbError.None? && IndexOfId(old(data.rows), post.id).Some? ==>
        var i := IndexOfId(old(data.rows), post.id).value;
        && r == Success(UpdatedRow(old(data.rows)[i], Some(update.title), Some(update.content), now))
        && data.rows == old(data.rows)[i := r.value]
    {
      var updated := data.UpdatePost(post.id, update, now, dbError);
      match updated
      case Success(p) => r := Success(p);
      case Failure(e) => r := Failure(LookupError(e));
    }

    /** `delete_post` */
    method DeletePost(id: int, dbError: Option<string>) returns (r: Result<(), BlogError>)
      requires data.Valid()
      modifies data
      ensures data.Valid()
      ensures dbError.Some? ==> r == Failure(AsInternal(DatabaseError(dbError.value))) && data.rows == old(data.rows)
      ensures dbError.None? && IndexOfId(old(data.rows), id).None? ==>
        r == Failure(BlogError.Internal("Post not found")) && data.rows == old(data.rows)
      ensures dbError.None? && IndexOfId(old(data.rows), id).Some? ==>
        r == Success(()) && data.rows == RemoveId(old(data.rows), id)
    {
      var deleted := data.DeletePost(id, dbError);
      match deleted
      case Success(_) => r := Success(());
      case Failure(e) => r := Failure(DeletePostError(e));
    }
  }

  /** A row's id finds that row when ids are unique. */
  lemma IdLocatesRow(rows: seq<Post>, p: Post)
    requires UniqueIds(rows) && p in rows
    ensures IndexOfId(rows, p.id).Some? && rows[IndexOfId(rows, p.id).value] == p
  {
    var i :| 0 <= i < |rows| && rows[i] == p;
    IndexOfIdUnique(rows, p.id, i);
  }

  /** On the wire: a missing post is 404 to read, but 500 to update or delete. */
  lemma MissingPostEncodings()
    ensures StatusCode(LookupError(PostRepositoryError.NotFound)) == NOT_FOUND
    ensures ToStatus(LookupError(PostRepositoryError.NotFound)).code == Code.NotFound
    ensures StatusCode(LookupError(DatabaseError(ROW_NOT_FOUND))) == INTERNAL_SERVER_ERROR
    ensures ToStatus(LookupError(DatabaseError(ROW_NOT_FOUND))).code == Code.Internal
    ensures StatusCode(DeletePostError(PostRepositoryError.NotFound)) == INTERNAL_SERVER_ERROR
    ensures ToStatus(DeletePostError(PostRepositoryError.NotFound)) == Status(Code.Internal, "Post not found")
  {
  }
}
