/**
 * The post handlers: the paginated listing of all posts, newest first, and the
 * lookup of one post by slug. Both only read the tables.
 */
module Posts {
  import opened Wrappers
  import opened Store
  import opened Http
  import Js
  import Orm
  import Pagination

  /** A post with `include: { author: { select: { id, username } }, comments: true }`. */
  datatype ListedPost = ListedPost(post: Post, author: Option<UserSummary>, comments: seq<Comment>)

  datatype PostsMeta = PostsMeta(totalPosts: nat, currentPage: int, pageSize: int, totalPages: int)

  datatype PostsPage = PostsPage(posts: seq<ListedPost>, meta: PostsMeta)

  /** The post `getPostBySlug` returns, with its author and its comments. */
  datatype PostDetail = PostDetail(post: Post, author: Option<UserSummary>, comments: seq<CommentWithUser>)

  /** Each post of `rows` with its author's summary and its comments. */
  function Listed(users: seq<User>, comments: seq<Comment>, rows: seq<Post>): seq<ListedPost> {
    Js.Map(rows, (p: Post) => ListedPost(p, Summary(users, p.authorId), CommentsOf(comments, p.id)))
  }

  /** Any window of the newest-first list is itself newest first. */
  lemma NewestFirstWindow(posts: seq<Post>, skip: int, take: int)
    ensures var w := Orm.Window(NewestFirst(posts), skip, take);
            w.Ok? ==> forall i, j :: 0 <= i < j < |w.value| ==> w.value[i].createdAt >= w.value[j].createdAt
  {
    var all := NewestFirst(posts);
    var key := (p: Post) => -p.createdAt;
    assert Orm.SortedBy(all, key);
    Orm.WindowSorted(all, skip, take, key);
  }

  /** The posts of a list of listed posts. */
  function ListedRows(ps: seq<ListedPost>): seq<Post> {
    Js.Map(ps, (v: ListedPost) => v.post)
  }

  /**
   * `body` is page `page` of size `size` of all posts: the skip is not
   * negative; the page's posts are exactly the window `skip`/`take` selects
   * from all posts, newest first; each comes with its author's summary and its
   * comments, each as often as the table holds it; and the meta holds the total number of posts, the page, the size
   * and the page count.
   */
  ghost predicate IsPostsPage(
    posts: seq<Post>, users: seq<User>, comments: seq<Comment>, page: int, size: int, body: PostsPage)
    requires size != 0
  {
    var ps := body.posts;
    && Pagination.Skip(page, size) >= 0
    && ListedRows(ps) == Orm.Window(NewestFirst(posts), Pagination.Skip(page, size), size).value
    && (forall v :: v in ps ==>
          && v.author == Summary(users, v.post.authorId)
          && forall c :: multiset(v.comments)[c] == if c.postId == v.post.id then multiset(comments)[c] else 0)
    && (forall i, j :: 0 <= i < j < |ps| ==> ps[i].post.createdAt >= ps[j].post.createdAt)
    && body.meta.totalPosts == |posts|
    && body.meta.currentPage == page
    && body.meta.pageSize == size
    && body.meta.totalPages == Pagination.TotalPages(|posts|, size)
  }

  /** Every post on a page is a post of the table. */
  lemma PostsPageRows(
    posts: seq<Post>, users: seq<User>, comments: seq<Comment>, page: int, size: int, body: PostsPage)
    requires size != 0 && IsPostsPage(posts, users, comments, page, size, body)
    ensures forall v :: v in body.posts ==> v.post in posts
  {
    var all := NewestFirst(posts);
    var w := Orm.Window(all, Pagination.Skip(page, size), size).value;
    forall v | v in body.posts ensures v.post in posts {
      var k :| 0 <= k < |body.posts| && body.posts[k] == v;
      assert v.post == w[k] && w[k] in w;
      assert v.post in multiset(all);
    }
  }

  /**
   * `getAllPosts`: a negative skip makes the query fail (500); otherwise a 200
   * with the requested page of all posts, newest first.
   */
  function GetAllPosts(
    posts: seq<Post>, users: seq<User>, comments: seq<Comment>,
    pageQuery: Option<string>, pageSizeQuery: Option<string>): (r: Response<PostsPage>)
    ensures var page := Pagination.PageParam(pageQuery, 1);
            var size := Pagination.PageParam(pageSizeQuery, 10);
            r.Json? <==> Pagination.Skip(page, size) >= 0
    ensures r.Error? ==> r == Error(InternalServerError, "An error occurred while fetching posts.")
    ensures r.Json? ==>
              && r.status == OK
              && IsPostsPage(posts, users, comments,
                             Pagination.PageParam(pageQuery, 1), Pagination.PageParam(pageSizeQuery, 10), r.body)
  {
    var page := Pagination.PageParam(pageQuery, 1);
    var size := Pagination.PageParam(pageSizeQuery, 10);
    var all := NewestFirst(posts);
    match Orm.Window(all, Pagination.Skip(page, size), size)
    case Err(_) => Error(InternalServerError, "An error occurred while fetching posts.")
    case Ok(rows) =>
      NewestFirstWindow(posts, Pagination.Skip(page, size), size);
      var ps := Listed(users, comments, rows);
      assert ListedRows(ps) == rows;
      Json(OK, PostsPage(ps, PostsMeta(|posts|, page, size, Pagination.TotalPages(|posts|, size))))
  }

  /** `findUnique({ where: { slug } })` on the post table. */
  function PostBySlug(posts: seq<Post>, slug: string): (r: Option<nat>)
    ensures r.Some? ==> r.value < |posts| && posts[r.value].slug == slug
    ensures r.None? ==> forall i :: 0 <= i < |posts| ==> posts[i].slug != slug
  {
    Js.FindIndex(posts, (p: Post) => p.slug == slug)
  }

  /**
   * `getPostBySlug`: a 404 when no post has the slug; otherwise a 200 with the
   * post whose slug it is, its author's summary and every comment on it (replies
   * included), each with its author's summary.
   */
  function GetPostBySlug(posts: seq<Post>, users: seq<User>, comments: seq<Comment>, slug: string)
    : (r: Response<PostDetail>)
    ensures r.Json? <==> exists p :: p in posts && p.slug == slug
    ensures r.Error? ==> r == Error(NotFound, "Post not found.")
    ensures r.Json? ==>
              && r.status == OK
              && r.body.post in posts && r.body.post.slug == slug
              && r.body.author == Summary(users, r.body.post.authorId)
              && (forall c :: c in CommentRows(r.body.comments) <==> c in comments && c.postId == r.body.post.id)
              && (forall c :: multiset(CommentRows(r.body.comments))[c] ==
                    if c.postId == r.body.post.id then multiset(comments)[c] else 0)
              && (forall cv :: cv in r.body.comments ==> cv.user == Summary(users, cv.comment.userId))
  {
    match PostBySlug(posts, slug)
    case None => Error(NotFound, "Post not found.")
    case Some(i) =>
      var p := posts[i];
      Json(OK, PostDetail(p, Summary(users, p.authorId), WithUsers(users, CommentsOf(comments, p.id))))
  }
}
