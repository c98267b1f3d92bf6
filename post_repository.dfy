/**
 * The posts table behind `PostgresPostRepository`
 * (blog_server/src/data/posr_repository.rs), as an in-memory table whose
 * operations follow the repository's SQL statements.
 *
 * The rows are kept in `created_at` order (the order `ORDER BY created_at`
 * reads them in), ids come from a BIGSERIAL counter, and each operation takes
 * `dbError`: `Some(message)` when acquiring a connection or running the
 * statement fails, which the repository reports as `DatabaseError(message)`.
 */
module PostRepository {
  import opened Wrappers
  import opened Posts
  import Uuids

  datatype PostRepositoryError = DatabaseError(message: string) | NotFound | AutorNotFound

  /** The `Display` text of a `PostRepositoryError`. */
  function RepositoryErrorText(e: PostRepositoryError): string {
    match e
    case DatabaseError(m) => "Database error: " + m
    case NotFound => "Post not found"
    case AutorNotFound => "Autor not found"
  }

  /** sqlx's text for `fetch_one` finding no row. */
  const ROW_NOT_FOUND: string := "no rows returned by a query that expected to return at least one row"
  /** sqlx's prefix for an error the database server reports. */
  const DATABASE_PREFIX: string := "error returned from database: "
  const NEGATIVE_OFFSET: string := DATABASE_PREFIX + "OFFSET must not be negative"
  const NEGATIVE_LIMIT: string := DATABASE_PREFIX + "LIMIT must not be negative"

  // ---------------------------------------------------------------------
  // The table's contents and the queries over them
  // ---------------------------------------------------------------------

  predicate Chronological(rows: seq<Post>) {
    forall i, j :: 0 <= i < j < |rows| ==> NotAfter(rows[i].createdAt, rows[j].createdAt)
  }

  predicate UniqueIds(rows: seq<Post>) {
    forall i, j :: 0 <= i < j < |rows| ==> rows[i].id != rows[j].id
  }

  predicate IdsBelow(rows: seq<Post>, bound: int) {
    forall i :: 0 <= i < |rows| ==> rows[i].id < bound
  }

  /** The position of the row with primary key `id`. */
  function IndexOfId(rows: seq<Post>, id: int): (r: Option<nat>)
    ensures r.Some? ==> r.value < |rows| && rows[r.value].id == id
    ensures r.None? ==> forall i :: 0 <= i < |rows| ==> rows[i].id != id
  {
    if rows == [] then None
    else if rows[|rows| - 1].id == id then Some(|rows| - 1)
    else IndexOfId(rows[..|rows| - 1], id)
  }

  /** With unique ids, the row found is the only one with that id. */
  lemma IndexOfIdUnique(rows: seq<Post>, id: int, i: nat)
    requires UniqueIds(rows) && i < |rows| && rows[i].id == id
    ensures IndexOfId(rows, id) == Some(i)
  {
  }

  /**
   * Where a row created at `t` goes: after every row created no later than
   * `t`, so rows with equal creation times keep their insertion order.
   */
  function InsertPosition(rows: seq<Post>, t: DateTime): (k: nat)
    ensures k <= |rows|
  {
    if rows == [] then 0
    else if NotAfter(rows[|rows| - 1].createdAt, t) then |rows|
    else InsertPosition(rows[..|rows| - 1], t)
  }

  lemma {:induction false} InsertPositionSplits(rows: seq<Post>, t: DateTime)
    requires Chronological(rows)
    ensures forall i :: 0 <= i < InsertPosition(rows, t) ==> NotAfter(rows[i].createdAt, t)
    ensures forall i :: InsertPosition(rows, t) <= i < |rows| ==> !NotAfter(rows[i].createdAt, t)
    decreases |rows|
  {
    if rows != [] && !NotAfter(rows[|rows| - 1].createdAt, t) {
      InsertPositionSplits(rows[..|rows| - 1], t);
    }
  }

  function Insert(rows: seq<Post>, p: Post): (r: seq<Post>)
  {
    var k := InsertPosition(rows, p.createdAt);
    rows[..k] + [p] + rows[k..]
  }

  /** Inserting keeps the table chronological and adds exactly the one row. */
  lemma InsertKeepsOrder(rows: seq<Post>, p: Post)
    requires Chronological(rows)
    ensures Chronological(Insert(rows, p))
    ensures multiset(Insert(rows, p)) == multiset(rows) + multiset{p}
    ensures |Insert(rows, p)| == |rows| + 1
  {
    var k := InsertPosition(rows, p.createdAt);
    InsertPositionSplits(rows, p.createdAt);
    var r := Insert(rows, p);
    forall i, j | 0 <= i < j < |r|
      ensures NotAfter(r[i].createdAt, r[j].createdAt)
    {
      if j < k {
        assert r[i] == rows[i] && r[j] == rows[j];
      } else if j == k {
        assert r[i] == rows[i];
      } else if i == k {
        assert r[j] == rows[j - 1];
      } else if i < k {
        assert r[i] == rows[i] && r[j] == rows[j - 1];
      } else {
        assert r[i] == rows[i - 1] && r[j] == rows[j - 1];
      }
    }
    assert rows == rows[..k] + rows[k..];
  }

  /** Every row but the one with primary key `id`. */
  function RemoveId(rows: seq<Post>, id: int): (r: seq<Post>)
    ensures |r| <= |rows|
    ensures forall i :: 0 <= i < |r| ==> r[i].id != id && r[i] in rows
    ensures forall i :: 0 <= i < |rows| && rows[i].id != id ==> rows[i] in r
  {
    if rows == [] then []
    else if rows[0].id == id then RemoveId(rows[1..], id)
    else [rows[0]] + RemoveId(rows[1..], id)
  }

  /** Removing rows keeps the order of the remaining ones. */
  lemma {:induction false} RemoveIdKeepsOrder(rows: seq<Post>, id: int)
    requires Chronological(rows)
    ensures Chronological(RemoveId(rows, id))
    decreases |rows|
  {
    if rows != [] {
      assert Chronological(rows[1..]) by {
        forall i, j | 0 <= i < j < |rows[1..]|
          ensures NotAfter(rows[1..][i].createdAt, rows[1..][j].createdAt)
        {
          assert rows[1..][i] == rows[i + 1] && rows[1..][j] == rows[j + 1];
        }
      }
      RemoveIdKeepsOrder(rows[1..], id);
      if rows[0].id != id {
        var rest := RemoveId(rows[1..], id);
        var r := [rows[0]] + rest;
        forall i, j | 0 <= i < j < |r|
          ensures NotAfter(r[i].createdAt, r[j].createdAt)
        {
          if i == 0 {
            assert r[j] in rows[1..];
          } else {
            assert r[i] == rest[i - 1] && r[j] == rest[j - 1];
          }
        }
      }
    }
  }

  /** A deleted id is gone, and a missing id removes nothing. */
  lemma RemoveIdFacts(rows: seq<Post>, id: int)
    ensures IndexOfId(RemoveId(rows, id), id).None?
    ensures IndexOfId(rows, id).None? ==> RemoveId(rows, id) == rows
  {
    if IndexOfId(rows, id).None? {
      RemoveIdOfAbsent(rows, id);
    }
  }

  lemma {:induction false} RemoveIdOfAbsent(rows: seq<Post>, id: int)
    requires forall i :: 0 <= i < |rows| ==> rows[i].id != id
    ensures RemoveId(rows, id) == rows
    decreases |rows|
  {
    if rows != [] {
      RemoveIdOfAbsent(rows[1..], id);
      assert [rows[0]] + rows[1..] == rows;
    }
  }

  function Reverse(s: seq<Post>): (r: seq<Post>)
    ensures |r| == |s|
    ensures forall i :: 0 <= i < |s| ==> r[i] == s[|s| - 1 - i]
  {
    if s == [] then [] else [s[|s| - 1]] + Reverse(s[..|s| - 1])
  }

  /** `ORDER BY created_at DESC`, later insertions first among equal times. */
  function NewestFirst(rows: seq<Post>): seq<Post> {
    Reverse(rows)
  }

  predicate Descending(s: seq<Post>) {
    forall i, j :: 0 <= i < j < |s| ==> NotAfter(s[j].createdAt, s[i].createdAt)
  }

  /** `LIMIT limit OFFSET offset` over an ordered result. */
  function Page(s: seq<Post>, limit: nat, offset: nat): (r: seq<Post>)
    ensures |r| <= limit
    ensures offset >= |s| ==> r == []
    ensures offset + limit <= |s| ==> |r| == limit
  {
    if offset >= |s| then []
    else if offset + limit <= |s| then s[offset..offset + limit]
    else s[offset..]
  }

  /**
   * `get_last_posts(len, offset)`: Postgres rejects a negative OFFSET
   * before it looks at LIMIT, then a negative LIMIT.
   */
  function LastPosts(rows: seq<Post>, len: int, offset: Option<int>, dbError: Option<string>): Result<seq<Post>, PostRepositoryError> {
    var off := offset.GetOr(0);
    if dbError.Some? then Failure(DatabaseError(dbError.value))
    else if off < 0 then Failure(DatabaseError(NEGATIVE_OFFSET))
    else if len < 0 then Failure(DatabaseError(NEGATIVE_LIMIT))
    else Success(Page(NewestFirst(rows), len, off))
  }

  /** `WHERE author_id = $1`, in storage order. */
  function ByAuthor(rows: seq<Post>, author: Uuids.Uuid): (r: seq<Post>)
    ensures |r| <= |rows|
    ensures forall i :: 0 <= i < |r| ==> r[i].authorId == author && r[i] in rows
    ensures forall i :: 0 <= i < |rows| && rows[i].authorId == author ==> rows[i] in r
  {
    if rows == [] then []
    else if rows[0].authorId == author then [rows[0]] + ByAuthor(rows[1..], author)
    else ByAuthor(rows[1..], author)
  }

  /** SQL `COALESCE(new, current)`. */
  function Coalesce(given: Option<string>, current: string): string {
    match given
    case Some(v) => v
    case None => current
  }

  /** The row after `UPDATE … SET title = COALESCE($1, title), content = COALESCE($2, content), updated_at = NOW()`. */
  function UpdatedRow(row: Post, title: Option<string>, content: Option<string>, now: DateTime): (r: Post)
    ensures r.id == row.id && r.authorId == row.authorId && r.createdAt == row.createdAt
    ensures r.updatedAt == Some(now)
    ensures title.Some? ==> r.title == title.value
    ensures title.None? ==> r.title == row.title
    ensures content.Some? ==> r.content == content.value
    ensures content.None? ==> r.content == row.content
  {
    row.(title := Coalesce(title, row.title), content := Coalesce(content, row.content), updatedAt := Some(now))
  }

  /** The newest-first order is descending in creation time. */
  lemma NewestFirstDescending(rows: seq<Post>)
    requires Chronological(rows)
    ensures Descending(NewestFirst(rows))
    ensures multiset(NewestFirst(rows)) == multiset(rows)
  {
    ReverseMultiset(rows);
  }

  lemma {:induction false} ReverseMultiset(s: seq<Post>)
    ensures multiset(Reverse(s)) == multiset(s)
    decreases |s|
  {
    if s != [] {
      ReverseMultiset(s[..|s| - 1]);
      assert s == s[..|s| - 1] + [s[|s| - 1]];
    }
  }

  /**
   * A page of the newest-first listing is descending, holds only stored
   * rows, and is the `offset`-th to `offset + len`-th newest rows.
   */
  lemma LastPostsPage(rows: seq<Post>, len: int, offset: Option<int>)
    requires Chronological(rows)
    requires LastPosts(rows, len, offset, None).Success?
    ensures var page := LastPosts(rows, len, offset, None).value;
      var off := offset.GetOr(0);
      && |page| <= len
      && Descending(page)
      && (forall i :: 0 <= i < |page| ==> page[i] in rows)
      && (forall i :: 0 <= i < |page| ==> page[i] == rows[|rows| - 1 - off - i])
  {
    NewestFirstDescending(rows);
    var s := NewestFirst(rows);
    var off := offset.GetOr(0);
    PageOfDescending(s, len, off);
    var page := Page(s, len, off);
    assert LastPosts(rows, len, offset, None).value == page;
    forall i | 0 <= i < |page|
      ensures page[i] == rows[|rows| - 1 - off - i] && page[i] in rows
    {
      assert page[i] == s[off + i];
    }
  }

  /** A page of a descending list is a descending run of it. */
  lemma PageOfDescending(s: seq<Post>, limit: nat, offset: nat)
    requires Descending(s)
    ensures var p := Page(s, limit, offset);
      && Descending(p)
      && forall i :: 0 <= i < |p| ==> offset + i < |s| && p[i] == s[offset + i]
  {
    var p := Page(s, limit, offset);
    forall i, j | 0 <= i < j < |p|
      ensures NotAfter(p[j].createdAt, p[i].createdAt)
    {
      assert p[i] == s[offset + i] && p[j] == s[offset + j];
    }
  }

  // ---------------------------------------------------------------------
  // The table
  // ---------------------------------------------------------------------

  class PostTable {
    /** The rows of `posts`, in creation order. */
    var rows: seq<Post>
    /** The next value of the `id` BIGSERIAL. */
    var nextId: int

    predicate Valid()
      reads this
    {
      nextId >= 1 && Chronological(rows) && UniqueIds(rows) && IdsBelow(rows, nextId)
    }

    constructor()
      ensures Valid() && rows == [] && nextId == 1
    {
      rows := [];
      nextId := 1;
    }

    /**
     * `create_post`: `INSERT … RETURNING`. The new row gets the next id, the
     * given title, content and author, `created_at = now` and no update time.
     */
    method CreatePost(post: CreatePost, authorId: Uuids.Uuid, now: DateTime, dbError: Option<string>)
      returns (r: Result<Post, PostRepositoryError>)
      requires Valid()
      modifies this
      ensures Valid()
      ensures dbError.Some? ==> r == Failure(DatabaseError(dbError.value)) && rows == old(rows) && nextId == old(nextId)
      ensures dbError.None? ==>
        && r == Success(NewPost(old(nextId), post.title, post.content, authorId, now))
        && rows == Insert(old(rows), r.value)
        && nextId == old(nextId) + 1
    {
      if dbError.Some? {
        return Failure(DatabaseError(dbError.value));
      }
      var p := NewPost(nextId, post.title, post.content, authorId, now);
      InsertKeepsOrder(rows, p);
      FindAfterInsert(rows, p, nextId);
      rows := Insert(rows, p);
      nextId := nextId + 1;
      r := Success(p);
    }

    /** `get_post`: the row with that id, or NotFound. */
    method GetPost(postId: int, dbError: Option<string>) returns (r: Result<Post, PostRepositoryError>)
      requires Valid()
      ensures dbError.Some? ==> r == Failure(DatabaseError(dbError.value))
      ensures dbError.None? ==> (r.Success? <==> exists i :: 0 <= i < |rows| && rows[i].id == postId)
      ensures dbError.None? && r.Success? ==> r.value in rows && r.value.id == postId
      ensures dbError.None? && r.Failure? ==> r.error == NotFound
    {
      if dbError.Some? {
        return Failure(DatabaseError(dbError.value));
      }
      match IndexOfId(rows, postId)
      case Some(i) => r := Success(rows[i]);
      case None => r := Failure(NotFound);
    }

    /** `get_last_posts(len, offset)`: newest first, `offset` rows skipped, at most `len` rows. */
    method GetLastPosts(len: int, offset: Option<int>, dbError: Option<string>)
      returns (r: Result<seq<Post>, PostRepositoryError>)
      requires Valid()
      ensures r == LastPosts(rows, len, offset, dbError)
      ensures r.Success? ==> |r.value| <= len && Descending(r.value)
      ensures r.Success? ==> forall i :: 0 <= i < |r.value| ==> r.value[i] in rows
    {
      r := LastPosts(rows, len, offset, dbError);
      if r.Success? {
        LastPostsPage(rows, len, offset);
      }
    }

    /** `get_posts_by_author`: exactly the rows by that author; never NotFound. */
    method GetPostsByAuthor(userId: Uuids.Uuid, dbError: Option<string>)
      returns (r: Result<seq<Post>, PostRepositoryError>)
      requires Valid()
      ensures dbError.Some? ==> r == Failure(DatabaseError(dbError.value))
      ensures dbError.None? ==> r == Success(ByAuthor(rows, userId))
      ensures r.Success? ==> forall i :: 0 <= i < |r.value| ==> r.value[i].authorId == userId && r.value[i] in rows
      ensures r.Success? ==> forall i :: 0 <= i < |rows| && rows[i].authorId == userId ==> rows[i] in r.value
    {
      if dbError.Some? {
        return Failure(DatabaseError(dbError.value));
      }
      r := Success(ByAuthor(rows, userId));
    }

    /**
     * `update_post`: COALESCE the title and content, refresh `updated_at`,
     * touch only the row with that id. `fetch_one` on no row is a
     * DatabaseError, not NotFound.
     */
    method UpdatePost(postId: int, post: UpdatePost, now: DateTime, dbError: Option<string>)
      returns (r: Result<Post, PostRepositoryError>)
      requires Valid()
      modifies this
      ensures Valid() && nextId == old(nextId)
      ensures dbError.Some? ==> r == Failure(DatabaseError(dbError.value)) && rows == old(rows)
      ensures dbError.None? && IndexOfId(old(rows), postId).None? ==>
        r == Failure(DatabaseError(ROW_NOT_FOUND)) && rows == old(rows)
      ensures dbError.None? && IndexOfId(old(rows), postId).Some? ==>
        var i := IndexOfId(old(rows), postId).value;
        && r == Success(UpdatedRow(old(rows)[i], Some(post.title), Some(post.content), now))
        && rows == old(rows)[i := r.value]
    {
      if dbError.Some? {
        return Failure(DatabaseError(dbError.value));
      }
      match IndexOfId(rows, postId)
      case None =>
        r := Failure(DatabaseError(ROW_NOT_FOUND));
      case Some(i) =>
        var row := UpdatedRow(rows[i], Some(post.title), Some(post.content), now);
        rows := rows[i := row];
        r := Success(row);
    }

    /** `delete_post`: remove the row with that id; NotFound when no row was affected. */
    method DeletePost(postId: int, dbError: Option<string>) returns (r: Result<(), PostRepositoryError>)
      requires Valid()
      modifies this
      ensures Valid() && nextId == old(nextId)
      ensures dbError.Some? ==> r == Failure(DatabaseError(dbError.value)) && rows == old(rows)
      ensures dbError.None? && IndexOfId(old(rows), postId).None? ==> r == Failure(NotFound) && rows == old(rows)
      ensures dbError.None? && IndexOfId(old(rows), postId).Some? ==> r == Success(()) && rows == RemoveId(old(rows), postId)
    {
      if dbError.Some? {
        return Failure(DatabaseError(dbError.value));
      }
      RemoveIdFacts(rows, postId);
      RemoveIdKeepsOrder(rows, postId);
      if IndexOfId(rows, postId).None? {
        return Failure(NotFound);
      }
      RemoveIdKeepsIds(rows, postId);
      rows := RemoveId(rows, postId);
      r := Success(());
    }
  }

  lemma {:induction false} RemoveIdKeepsIds(rows: seq<Post>, id: int)
    requires UniqueIds(rows)
    ensures UniqueIds(RemoveId(rows, id))
    decreases |rows|
  {
    if rows != [] {
      assert UniqueIds(rows[1..]) by {
        forall i, j | 0 <= i < j < |rows[1..]| ensures rows[1..][i].id != rows[1..][j].id {
          assert rows[1..][i] == rows[i + 1] && rows[1..][j] == rows[j + 1];
        }
      }
      RemoveIdKeepsIds(rows[1..], id);
      if rows[0].id != id {
        var rest := RemoveId(rows[1..], id);
        var r := [rows[0]] + rest;
        forall i, j | 0 <= i < j < |r| ensures r[i].id != r[j].id {
          if i == 0 {
            assert r[j] in rows[1..];
          } else {
            assert r[i] == rest[i - 1] && r[j] == rest[j - 1];
          }
        }
      }
    }
  }

  // ---------------------------------------------------------------------
  // Read-after-write properties of the table
  // ---------------------------------------------------------------------

  /** A created post is found under its id. */
  lemma FindAfterInsert(rows: seq<Post>, p: Post, bound: int)
    requires Chronological(rows) && UniqueIds(rows) && IdsBelow(rows, bound) && p.id == bound
    ensures UniqueIds(Insert(rows, p)) && IdsBelow(Insert(rows, p), bound + 1)
    ensures IndexOfId(Insert(rows, p), p.id).Some?
    ensures Insert(rows, p)[IndexOfId(Insert(rows, p), p.id).value] == p
  {
    var k := InsertPosition(rows, p.createdAt);
    var r := Insert(rows, p);
    forall i, j | 0 <= i < j < |r| ensures r[i].id != r[j].id {
      if j < k {
        assert r[i] == rows[i] && r[j] == rows[j];
      } else if j == k {
        assert r[i] == rows[i];
      } else if i == k {
        assert r[j] == rows[j - 1];
      } else if i < k {
        assert r[i] == rows[i] && r[j] == rows[j - 1];
      } else {
        assert r[i] == rows[i - 1] && r[j] == rows[j - 1];
      }
    }
    forall i | 0 <= i < |r| ensures r[i].id < bound + 1 {
      if i < k {
        assert r[i] == rows[i];
      } else if i > k {
        assert r[i] == rows[i - 1];
      }
    }
    assert r[k] == p;
    IndexOfIdUnique(r, p.id, k);
  }

  /** An update is seen by the next lookup, and other ids see their old rows. */
  lemma FindAfterUpdate(rows: seq<Post>, i: nat, row: Post, other: int)
    requires UniqueIds(rows) && i < |rows| && row.id == rows[i].id && other != row.id
    ensures IndexOfId(rows[i := row], row.id) == Some(i)
    ensures IndexOfId(rows[i := row], other) == IndexOfId(rows, other)
  {
    IndexOfIdUnique(rows[i := row], row.id, i);
    match IndexOfId(rows, other)
    case Some(j) =>
      IndexOfIdUnique(rows[i := row], other, j);
    case None =>
      var updated := rows[i := row];
      forall j | 0 <= j < |updated| ensures updated[j].id != other {
      }
  }
}
