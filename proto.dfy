/**
 * The messages of the `blog` gRPC package as prost generates them: strings,
 * 64-bit ids and second timestamps, `optional` fields as `Option`, and
 * embedded messages as `Option`. The HTTP client reuses the same messages.
 */
module Proto {
  import opened Wrappers

  datatype Post = Post(
    id: int,
    title: string,
    content: string,
    authorId: string,
    createdAt: int,
    updatedAt: Option<int>)

  datatype RegisterRequest = RegisterRequest(username: string, email: string, password: string)
  datatype LoginRequest = LoginRequest(username: string, password: string)
  datatype AuthResponse = AuthResponse(token: string)

  datatype CreatePostRequest = CreatePostRequest(title: string, content: string)
  datatype GetPostRequest = GetPostRequest(id: int)
  datatype UpdatePostRequest = UpdatePostRequest(id: int, title: Option<string>, content: Option<string>)
  datatype DeletePostRequest = DeletePostRequest(postId: int)
  datatype ListPostsRequest = ListPostsRequest(offset: int, limit: int)

  datatype PostResponse = PostResponse(post: Option<Post>)
  datatype DeletePostResponse = DeletePostResponse(success: bool)
  datatype ListPostsResponse = ListPostsResponse(post: seq<Post>, total: int, limit: int, offset: int)

  const I32_MIN: int := -0x8000_0000
  const I32_MAX: int := 0x7FFF_FFFF

  /** Rust's `as i32` on a non-negative length: the low 32 bits, read as two's complement. */
  function LenAsI32(n: nat): (r: int)
    ensures I32_MIN <= r <= I32_MAX
    ensures n <= I32_MAX ==> r == n
  {
    var low := n % 0x1_0000_0000;
    if low <= I32_MAX then low else low - 0x1_0000_0000
  }
}
