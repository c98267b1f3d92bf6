/**
 * The authenticated HTTP handlers under `/protect`
 * (blog_server/src/presentation/handlers/protect.rs): create, update and
 * delete a post. Update and delete first read the post, then check that the
 * authenticated user wrote it, and only then write.
 *
 * `readError` and `writeError` are the storage failures of the handler's
 * read and of its write; `now` is the database clock.
 */
module Protect {
  import opened Wrappers
  import opened Json
  import opened Errors
  import opened AuthGuard
  import Posts
  import PostRepository
  import BlogService
  import Uuids

  /** `ensure_owner` */
  function EnsureOwner(autor: Uuids.Uuid, user: AuthenticatedUser): (r: Result<(), BlogError>)
    ensures r.Success? <==> autor == user.id
    ensures r.Failure? ==> r.error == BlogError.Forbidden
  {
    if autor != user.id then Failure(BlogError.Forbidden) else Success(())
  }

  /** The body of a successful delete: `{"post": id, "delete": true}`. */
  function DeletedBody(postId: int): Json {
    JObject([("post", JInt(postId)), ("delete", JBool(true))])
  }

  /** `create_post`: the authenticated user is the author; no ownership check; 201 with the post. */
  method CreatePost(user: AuthenticatedUser, blogService: BlogService.BlogService, payload: Posts.CreatePost,
                    now: Posts.DateTime, writeError: Option<string>)
    returns (r: Result<HttpResponse, BlogError>)
    requires blogService.data.Valid()
    modifies blogService.data
    ensures blogService.data.Valid()
    ensures writeError.Some? ==>
      && r == Failure(BlogService.AsInternal(PostRepository.DatabaseError(writeError.value)))
      && blogService.data.rows == old(blogService.data.rows)
    ensures writeError.None? ==>
      var post := Posts.NewPost(old(blogService.data.nextId), payload.title, payload.content, user.id, now);
      && r == Success(HttpResponse(CREATED, JsonBody(Posts.PostJson(post))))
      && blogService.data.rows == PostRepository.Insert(old(blogService.data.rows), post)
  {
    var post := blogService.CreatePost(payload, user.id, now, writeError);
    if post.Failure? {
      return Failure(post.error);
    }
    r := Success(HttpResponse(CREATED, JsonBody(Posts.PostJson(post.value))));
  }

  /**
   * `update_post`: a missing post is NotFound and a foreign post Forbidden,
   * both before anything is written; the owner's update replaces title and
   * content by the payload's.
   */
  method UpdatePost(user: AuthenticatedUser, blogService: BlogService.BlogService, postId: int,
                    payload: Posts.UpdatePost, now: Posts.DateTime, readError: Option<string>, writeError: Option<string>)
    returns (r: Result<HttpResponse, BlogError>)
    requires blogService.data.Valid()
    modifies blogService.data
    ensures blogService.data.Valid()
    ensures r.Failure? ==> blogService.data.rows == old(blogService.data.rows)
    ensures readError.Some? ==> r == Failure(BlogService.AsInternal(PostRepository.DatabaseError(readError.value)))
    ensures readError.None? && PostRepository.IndexOfId(old(blogService.data.rows), postId).None? ==>
      r == Failure(BlogError.NotFound("Posts not found"))
    ensures readError.None? && PostRepository.IndexOfId(old(blogService.data.rows), postId).Some? ==>
      var i := PostRepository.IndexOfId(old(blogService.data.rows), postId).value;
      var stored := old(blogService.data.rows)[i];
      && (stored.authorId != user.id ==> r == Failure(BlogError.Forbidden))
      && (stored.authorId == user.id && writeError.Some? ==>
            r == Failure(BlogService.AsInternal(PostRepository.DatabaseError(writeError.value))))
      && (stored.authorId == user.id && writeError.None? ==>
            var updated := stored.(title := payload.title, content := payload.content, updatedAt := Some(now));
            && r == Success(HttpResponse(OK, JsonBody(Posts.PostJson(updated))))
            && blogService.data.rows == old(blogService.data.rows)[i := updated])
  {
    var post := blogService.GetPostById(postId, readError);
    if post.Failure? {
      return Failure(post.error);
    }
    var owner := EnsureOwner(post.value.authorId, user);
    if owner.Failure? {
      return Failure(owner.error);
    }
    var updated := blogService.UpdatePost(post.value, payload, now, writeError);
    if updated.Failure? {
      return Failure(updated.error);
    }
    r := Success(HttpResponse(OK, JsonBody(Posts.PostJson(updated.value))));
  }

  /**
   * `delipe_post`: a missing post is NotFound and a foreign post Forbidden,
   * with nothing deleted; the owner's delete removes the row and answers
   * with the path id.
   */
  method DeletePost(user: AuthenticatedUser, blogService: BlogService.BlogService, postId: int,
                    readError: Option<string>, writeError: Option<string>)
    returns (r: Result<HttpResponse, BlogError>)
    requires blogService.data.Valid()
    modifies blogService.data
    ensures blogService.data.Valid()
    ensures r.Failure? ==> blogService.data.rows == old(blogService.data.rows)
    ensures readError.Some? ==> r == Failure(BlogService.AsInternal(PostRepository.DatabaseError(readError.value)))
    ensures readError.None? && PostRepository.IndexOfId(old(blogService.data.rows), postId).None? ==>
      r == Failure(BlogError.NotFound("Posts not found"))
    ensures readError.None? && PostRepository.IndexOfId(old(blogService.data.rows), postId).Some? ==>
      var stored := old(blogService.data.rows)[PostRepository.IndexOfId(old(blogService.data.rows), postId).value];
      && (stored.authorId != user.id ==> r == Failure(BlogError.Forbidden))
      && (stored.authorId == user.id && writeError.Some? ==>
            r == Failure(BlogService.AsInternal(PostRepository.DatabaseError(writeError.value))))
      && (stored.authorId == user.id && writeError.None? ==>
            && r == Success(HttpResponse(OK, JsonBody(DeletedBody(postId))))
            && blogService.data.rows == PostRepository.RemoveId(old(blogService.data.rows), postId))
  {
    var post := blogService.GetPostById(postId, readError);
    if post.Failure? {
      return Failure(post.error);
    }
    var owner := EnsureOwner(post.value.authorId, user);
    if owner.Failure? {
      return Failure(owner.error);
    }
    var deleted := blogService.DeletePost(post.value.id, writeError);
    if deleted.Failure? {
      return Failure(deleted.error);
    }
    r := Success(HttpResponse(OK, JsonBody(DeletedBody(postId))));
  }

  /** The refusals on the wire: a foreign post is 403, a missing one 404. */
  lemma RefusalsOnTheWire()
    ensures ErrorResponse(BlogError.Forbidden).status == FORBIDDEN
    ensures ErrorResponse(BlogError.NotFound("Posts not found")).status == NOT_FOUND
    ensures ToStatus(BlogError.Forbidden) == Status(Code.PermissionDenied, "Forbiden")
  {
  }
}
