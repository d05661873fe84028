/**
 * The comment handlers: the paginated listing of a post's top-level comments
 * with their replies attached, and the checked create, delete and update.
 */
module Comments {
  import opened Wrappers
  import opened Store
  import opened Http
  import Js
  import Orm
  import Pagination

  /** A top-level comment as the listing shows it, with its replies attached. */
  datatype CommentView = CommentView(comment: Comment, user: Option<UserSummary>, replies: seq<CommentWithUser>)

  datatype Meta = Meta(totalComments: nat, currentPage: int, pageSize: int, totalPages: int)

  datatype CommentsPage = CommentsPage(comments: seq<CommentView>, meta: Meta)

  /** The fields of a request to add a comment; ids arrive as JSON numbers. */
  datatype NewComment = NewComment(
    content: Option<string>, postId: Option<int>, parentId: Option<int>, userId: Option<int>)

  // ---------------------------------------------------------------------
  // GET comments/:postId
  // ---------------------------------------------------------------------

  /** `where: { postId, parentId: null }`. */
  predicate TopLevelOf(postId: int, c: Comment) {
    c.postId == postId && c.parentId.None?
  }

  /** The row key of `orderBy: { createdAt: ... }`. */
  const CreatedAt: Comment -> int := (c: Comment) => c.createdAt

  /** `where: { postId, parentId: null }`, as the condition `Orm.Filter` takes. */
  function TopLevelFilter(postId: int): Comment -> bool {
    (c: Comment) => TopLevelOf(postId, c)
  }

  /** The top-level comments of a post, in order of creation. */
  function TopLevel(comments: seq<Comment>, postId: int): (r: seq<Comment>)
    ensures Orm.SortedBy(r, CreatedAt)
    ensures forall c :: c in r <==> c in comments && TopLevelOf(postId, c)
    ensures |r| == |Orm.Filter(comments, TopLevelFilter(postId))|
    ensures forall c :: multiset(r)[c] == if TopLevelOf(postId, c) then multiset(comments)[c] else 0
  {
    var rows := Orm.Filter(comments, TopLevelFilter(postId));
    var r := Orm.SortBy(rows, CreatedAt);
    assert forall c :: c in r <==> c in rows by {
      forall c ensures c in r <==> c in rows {
        assert c in r <==> c in multiset(r);
        assert c in rows <==> c in multiset(rows);
      }
    }
    r
  }

  /** `include: { replies: { include: { user } } }` for the comment with id `id`. */
  function RepliesTo(comments: seq<Comment>, users: seq<User>, id: int): (r: seq<CommentWithUser>)
    ensures forall c :: c in CommentRows(r) <==> c in comments && c.parentId == Some(id)
    ensures forall c :: multiset(CommentRows(r))[c] == if c.parentId == Some(id) then multiset(comments)[c] else 0
    ensures forall rv :: rv in r ==> rv.user == Summary(users, rv.comment.userId)
  {
    WithUsers(users, Orm.Filter(comments, (c: Comment) => c.parentId == Some(id)))
  }

  function ViewOf(comments: seq<Comment>, users: seq<User>, c: Comment): CommentView {
    CommentView(c, Summary(users, c.userId), RepliesTo(comments, users, c.id))
  }

  function Views(comments: seq<Comment>, users: seq<User>, rows: seq<Comment>): seq<CommentView> {
    Js.Map(rows, (c: Comment) => ViewOf(comments, users, c))
  }

  /** The comments of a list of comment views. */
  function ViewComments(cs: seq<CommentView>): seq<Comment> {
    Js.Map(cs, (v: CommentView) => v.comment)
  }

  /**
   * `body` is page `page` of size `size` of the top-level comments of post
   * `pid`: the skip is not negative; the page's comments are exactly the
   * window `skip`/`take` selects from the post's top-level comments, oldest
   * first; each comes with its author's summary and exactly its replies, each
   * reply as often as the table holds it and with its own author's summary; and
   * the meta holds the total count of top-level comments, the page, the size
   * and the page count.
   */
  ghost predicate IsCommentsPage(
    comments: seq<Comment>, users: seq<User>, pid: int, page: int, size: int, body: CommentsPage)
    requires size != 0
  {
    var all := TopLevel(comments, pid);
    var cs := body.comments;
    && Pagination.Skip(page, size) >= 0
    && ViewComments(cs) == Orm.Window(all, Pagination.Skip(page, size), size).value
    && (forall v :: v in cs ==> v.user == Summary(users, v.comment.userId))
    && (forall v, c :: v in cs ==>
          (c in CommentRows(v.replies) <==> c in comments && c.parentId == Some(v.comment.id)))
    && (forall v, c :: v in cs ==>
          multiset(CommentRows(v.replies))[c] == if c.parentId == Some(v.comment.id) then multiset(comments)[c] else 0)
    && (forall v, rv :: v in cs && rv in v.replies ==> rv.user == Summary(users, rv.comment.userId))
    && (forall i, j :: 0 <= i < j < |cs| ==> cs[i].comment.createdAt <= cs[j].comment.createdAt)
    && body.meta.totalComments == |all|
    && body.meta.currentPage == page
    && body.meta.pageSize == size
    && body.meta.totalPages == Pagination.TotalPages(|all|, size)
  }

  /** Every comment on a page is a top-level comment of the post. */
  lemma CommentsPageRows(
    comments: seq<Comment>, users: seq<User>, pid: int, page: int, size: int, body: CommentsPage)
    requires size != 0 && IsCommentsPage(comments, users, pid, page, size, body)
    ensures forall v :: v in body.comments ==> v.comment in comments && TopLevelOf(pid, v.comment)
  {
    var w := Orm.Window(TopLevel(comments, pid), Pagination.Skip(page, size), size).value;
    forall v | v in body.comments ensures v.comment in comments && TopLevelOf(pid, v.comment) {
      var k :| 0 <= k < |body.comments| && body.comments[k] == v;
      assert v.comment == w[k] && w[k] in w;
    }
  }

  /** The query for post `pid` once the id is parsed: a negative skip fails, otherwise the page. */
  function TopLevelPage(comments: seq<Comment>, users: seq<User>, pid: int, page: int, size: int)
    : (r: Response<CommentsPage>)
    requires size != 0
    ensures r.Json? <==> Pagination.Skip(page, size) >= 0
    ensures r.Error? ==> r == Error(InternalServerError, "An error occurred while fetching comments.")
    ensures r.Json? ==> r.status == OK && IsCommentsPage(comments, users, pid, page, size, r.body)
  {
    var all := TopLevel(comments, pid);
    match Orm.Window(all, Pagination.Skip(page, size), size)
    case Err(_) => Error(InternalServerError, "An error occurred while fetching comments.")
    case Ok(rows) =>
      PageBody(comments, users, pid, page, size, rows);
      Json(OK, CommentsPage(Views(comments, users, rows),
                            Meta(|all|, page, size, Pagination.TotalPages(|all|, size))))
  }

  /** The views of a window of the top-level comments form the page the window selects. */
  lemma PageBody(comments: seq<Comment>, users: seq<User>, pid: int, page: int, size: int, rows: seq<Comment>)
    requires size != 0
    requires Orm.Window(TopLevel(comments, pid), Pagination.Skip(page, size), size) == Ok(rows)
    ensures var all := TopLevel(comments, pid);
            IsCommentsPage(comments, users, pid, page, size,
                           CommentsPage(Views(comments, users, rows),
                                        Meta(|all|, page, size, Pagination.TotalPages(|all|, size))))
  {
    Orm.WindowSorted(TopLevel(comments, pid), Pagination.Skip(page, size), size, CreatedAt);
    ViewsShape(comments, users, rows);
  }

  /** Viewing oldest-first rows keeps them oldest first and attaches each one's author and replies. */
  lemma ViewsShape(comments: seq<Comment>, users: seq<User>, rows: seq<Comment>)
    requires Orm.SortedBy(rows, CreatedAt)
    ensures var cs := Views(comments, users, rows);
            && ViewComments(cs) == rows
            && (forall v :: v in cs ==> v.user == Summary(users, v.comment.userId))
            && (forall v, c :: v in cs ==>
                  (c in CommentRows(v.replies) <==> c in comments && c.parentId == Some(v.comment.id)))
            && (forall v, c :: v in cs ==>
                  multiset(CommentRows(v.replies))[c] == if c.parentId == Some(v.comment.id) then multiset(comments)[c] else 0)
            && (forall v, rv :: v in cs && rv in v.replies ==> rv.user == Summary(users, rv.comment.userId))
            && (forall i, j :: 0 <= i < j < |cs| ==> cs[i].comment.createdAt <= cs[j].comment.createdAt)
  {
    var cs := Views(comments, users, rows);
    assert ViewComments(cs) == rows;
    forall v | v in cs
      ensures v.user == Summary(users, v.comment.userId)
      ensures v.replies == RepliesTo(comments, users, v.comment.id)
    {
      var k :| 0 <= k < |cs| && cs[k] == v;
    }
    forall i, j | 0 <= i < j < |cs| ensures cs[i].comment.createdAt <= cs[j].comment.createdAt {
      assert cs[i].comment == rows[i] && cs[j].comment == rows[j];
      assert CreatedAt(rows[i]) <= CreatedAt(rows[j]);
    }
  }

  /**
   * `getCommentsByPostId`. An empty `postId` is a 400. A `postId` with no
   * leading digits, or a negative skip, makes the query fail, which is a 500.
   * Otherwise a 200 with the requested page of the post's top-level comments.
   */
  function GetCommentsByPostId(
    comments: seq<Comment>, users: seq<User>,
    postId: string, pageQuery: Option<string>, pageSizeQuery: Option<string>): (r: Response<CommentsPage>)
    ensures r.status == BadRequest <==> postId == ""
    ensures r.Error? ==> r.status == BadRequest || r.status == InternalServerError
    ensures var page := Pagination.PageParam(pageQuery, 1);
            var size := Pagination.PageParam(pageSizeQuery, 10);
            r.Json? <==> postId != "" && Js.ParseInt(postId, Js.Decimal).Some?
                         && Pagination.Skip(page, size) >= 0
    ensures r.Json? ==>
              && r.status == OK
              && IsCommentsPage(comments, users, Js.ParseInt(postId, Js.Decimal).value,
                                Pagination.PageParam(pageQuery, 1), Pagination.PageParam(pageSizeQuery, 10), r.body)
  {
    var page := Pagination.PageParam(pageQuery, 1);
    var size := Pagination.PageParam(pageSizeQuery, 10);
    if postId == "" then Error(BadRequest, "Post ID is required.")
    else
      match Js.ParseInt(postId, Js.Decimal)
      case None => Error(InternalServerError, "An error occurred while fetching comments.")
      case Some(pid) => TopLevelPage(comments, users, pid, page, size)
  }

  // ---------------------------------------------------------------------
  // POST comment
  // ---------------------------------------------------------------------

  /** The three fields `addComment` demands are all truthy. */
  predicate HasRequiredFields(body: NewComment) {
    Js.StrTruthy(body.content) && Js.IntTruthy(body.postId) && Js.IntTruthy(body.userId)
  }

  /** The parent named by a truthy `parentId` exists; no truthy `parentId` needs nothing. */
  predicate ParentResolves(comments: seq<Comment>, body: NewComment) {
    Js.IntTruthy(body.parentId) ==> CommentById(comments, body.parentId.value).Some?
  }

  /**
   * `addComment`: 400 when content, postId or userId is missing or when a given
   * parent does not exist; otherwise exactly one new comment, taking the next id,
   * and a 201 with it. Nothing else in the database changes.
   */
  method AddComment(db: Database, body: NewComment, now: int) returns (r: Response<Comment>)
    requires db.Valid()
    modifies db
    ensures db.Valid()
    ensures db.users == old(db.users) && db.posts == old(db.posts) && db.nextUserId == old(db.nextUserId)
    ensures !HasRequiredFields(body) ==>
              r == Error(BadRequest, "Content, postId, and userId are required.")
              && unchanged(db)
    ensures HasRequiredFields(body) && !ParentResolves(old(db.comments), body) ==>
              r == Error(BadRequest, "Parent comment does not exist.")
              && unchanged(db)
    ensures HasRequiredFields(body) && ParentResolves(old(db.comments), body) ==>
              var c := Comment(old(db.nextCommentId), body.content.value, body.postId.value,
                               if Js.IntTruthy(body.parentId) then body.parentId else None,
                               body.userId.value, now);
              && r == Json(Created, c)
              && db.comments == old(db.comments) + [c]
              && db.nextCommentId == old(db.nextCommentId) + 1
  {
    if !HasRequiredFields(body) {
      return Error(BadRequest, "Content, postId, and userId are required.");
    }
    if Js.IntTruthy(body.parentId) {
      var parent := CommentById(db.comments, body.parentId.value);
      if parent.None? {
        return Error(BadRequest, "Parent comment does not exist.");
      }
    }
    var c := Comment(db.nextCommentId, body.content.value, body.postId.value,
                     if Js.IntTruthy(body.parentId) then body.parentId else None,
                     body.userId.value, now);
    IdsAppend(CommentIds(db.comments), db.nextCommentId);
    assert CommentIds(db.comments + [c]) == CommentIds(db.comments) + [c.id];
    db.comments := db.comments + [c];
    db.nextCommentId := db.nextCommentId + 1;
    r := Json(Created, c);
  }

  /** Comment 1, top-level on post 3. */
  const TopOnPost3: Comment := Comment(1, "top", 3, None, 1, 10)
  /** Comment 2, on post 4, naming comment 1 as its parent. */
  const ReplyOnPost4: Comment := Comment(2, "reply", 4, Some(1), 1, 20)

  /**
   * `addComment` checks only that a given parent exists, not that it is on the
   * same post or is itself top-level: starting from an empty comment table, a
   * comment on post 3 and then a body naming it as parent but post 4 are both
   * accepted.
   */
  method CrossPostReply() returns (comments: seq<Comment>)
    ensures comments == [TopOnPost3, ReplyOnPost4]
  {
    var db := new Database([]);
    var body1 := NewComment(Some("top"), Some(3), None, Some(1));
    assert HasRequiredFields(body1) && ParentResolves(db.comments, body1);
    var first := AddComment(db, body1, 10);
    assert db.comments == [TopOnPost3];
    assert CommentById(db.comments, 1).Some?;
    var body2 := NewComment(Some("reply"), Some(4), Some(1), Some(1));
    assert HasRequiredFields(body2) && ParentResolves(db.comments, body2);
    var second := AddComment(db, body2, 20);
    comments := db.comments;
  }

  /** The listing of post 3 over that table embeds, as a reply, a comment that is on post 4. */
  lemma CrossPostListing()
    ensures var listing := GetCommentsByPostId([TopOnPost3, ReplyOnPost4], [], "3", None, None);
            && listing.Json? && |listing.body.comments| == 1
            && listing.body.comments[0].comment == TopOnPost3
            && exists rv :: rv in listing.body.comments[0].replies && rv.comment.postId == 4
  {
    ParseThree();
    assert Pagination.PageParam(None, 1) == 1 && Pagination.PageParam(None, 10) == 10;
    assert Pagination.Skip(1, 10) == 0;
    var listing := GetCommentsByPostId([TopOnPost3, ReplyOnPost4], [], "3", None, None);
    CrossPostPage(listing.body);
  }

  /** The first page of post 3 over that table. */
  lemma CrossPostPage(body: CommentsPage)
    requires IsCommentsPage([TopOnPost3, ReplyOnPost4], [], 3, 1, 10, body)
    ensures |body.comments| == 1 && body.comments[0].comment == TopOnPost3
    ensures exists rv :: rv in body.comments[0].replies && rv.comment.postId == 4
  {
    TopLevelOfPost3();
    assert Pagination.Skip(1, 10) == 0;
    assert Orm.Window([TopOnPost3], 0, 10) == Ok([TopOnPost3]) by {
      var w := Orm.Window([TopOnPost3], 0, 10).value;
      assert Orm.Min(10, Orm.Max(0, 1)) == 1;
      assert |w| == 1 && w[0] == TopOnPost3;
      assert w == [TopOnPost3];
    }
    assert ViewComments(body.comments) == [TopOnPost3];
    var rs := body.comments[0].replies;
    assert body.comments[0] in body.comments;
    assert ReplyOnPost4 in CommentRows(rs);
    var k :| 0 <= k < |rs| && CommentRows(rs)[k] == ReplyOnPost4;
    assert rs[k] in rs;
  }

  lemma ParseThree()
    ensures Js.ParseInt("3", Js.Decimal) == Some(3)
  {
    Js.ParseIntNumeral(3);
    assert Js.IntNumeral(3) == "3";
  }

  /** Only comment 1 is a top-level comment of post 3 in that table. */
  lemma TopLevelOfPost3()
    ensures TopLevel([TopOnPost3, ReplyOnPost4], 3) == [TopOnPost3]
  {
    var table := [TopOnPost3, ReplyOnPost4];
    var topOf3 := TopLevelFilter(3);
    assert Orm.Filter(table, topOf3) == [TopOnPost3] by {
      assert table[1..] == [ReplyOnPost4];
      assert Orm.Filter([ReplyOnPost4], topOf3) == [];
    }
    var all := TopLevel(table, 3);
    assert |all| == 1 && all[0] in all;
  }

  // ---------------------------------------------------------------------
  // DELETE comment
  // ---------------------------------------------------------------------

  /**
   * `deleteComment`: an id with no leading digits makes the lookup fail (500);
   * an unknown id is a 404; otherwise that one row goes and the rest keep
   * their order.
   */
  method DeleteComment(db: Database, id: string) returns (r: Response<string>)
    requires db.Valid()
    modifies db
    ensures db.Valid()
    ensures db.users == old(db.users) && db.posts == old(db.posts)
    ensures db.nextUserId == old(db.nextUserId) && db.nextCommentId == old(db.nextCommentId)
    ensures Js.ParseInt(id, Js.Decimal).None? ==>
              r == Error(InternalServerError, "An error occurred while deleting the comment.")
              && db.comments == old(db.comments)
    ensures Js.ParseInt(id, Js.Decimal).Some? ==>
              var cid := Js.ParseInt(id, Js.Decimal).value;
              match CommentById(old(db.comments), cid)
              case None =>
                r == Error(NotFound, "Comment not found.") && db.comments == old(db.comments)
              case Some(i) =>
                && r == Json(OK, "Comment deleted successfully.")
                && db.comments == RemoveAt(old(db.comments), i)
                && forall c :: c in db.comments <==> c in old(db.comments) && c.id != cid
  {
    var parsed := Js.ParseInt(id, Js.Decimal);
    if parsed.None? {
      return Error(InternalServerError, "An error occurred while deleting the comment.");
    }
    var found := CommentById(db.comments, parsed.value);
    if found.None? {
      return Error(NotFound, "Comment not found.");
    }
    var i := found.value;
    var before := db.comments;
    IdsRemove(CommentIds(before), db.nextCommentId, i);
    assert CommentIds(RemoveAt(before, i)) == RemoveAt(CommentIds(before), i);
    db.comments := RemoveAt(before, i);
    RemoveOnlyThatId(before, db.nextCommentId, i);
    r := Json(OK, "Comment deleted successfully.");
  }

  /** With unique ids, removing row `i` removes exactly the rows carrying its id. */
  lemma RemoveOnlyThatId(comments: seq<Comment>, next: int, i: nat)
    requires IdsIncreasing(CommentIds(comments), next) && i < |comments|
    ensures forall c :: c in RemoveAt(comments, i) <==> c in comments && c.id != comments[i].id
  {
    var r := RemoveAt(comments, i);
    forall c | c in r ensures c in comments && c.id != comments[i].id {
      var k :| 0 <= k < |r| && r[k] == c;
      var k' := if k < i then k else k + 1;
      assert r[k] == comments[k'] && CommentIds(comments)[k'] != CommentIds(comments)[i];
    }
    forall c | c in comments && c.id != comments[i].id ensures c in r {
      var k :| 0 <= k < |comments| && comments[k] == c;
      assert k != i;
      if k < i { assert r[k] == c; } else { assert r[k - 1] == c; }
    }
  }

  // ---------------------------------------------------------------------
  // UPDATE comment
  // ---------------------------------------------------------------------

  /**
   * `updateComment`: empty content is a 400 before any lookup; an id with no
   * leading digits makes the lookup fail (500); an unknown id is a 404;
   * otherwise only that comment's content changes.
   */
  method UpdateComment(db: Database, id: string, content: Option<string>) returns (r: Response<Comment>)
    requires db.Valid()
    modifies db
    ensures db.Valid()
    ensures db.users == old(db.users) && db.posts == old(db.posts)
    ensures db.nextUserId == old(db.nextUserId) && db.nextCommentId == old(db.nextCommentId)
    ensures !Js.StrTruthy(content) ==>
              r == Error(BadRequest, "Content is required.") && db.comments == old(db.comments)
    ensures Js.StrTruthy(content) && Js.ParseInt(id, Js.Decimal).None? ==>
              r == Error(InternalServerError, "An error occurred while updating the comment.")
              && db.comments == old(db.comments)
    ensures Js.StrTruthy(content) && Js.ParseInt(id, Js.Decimal).Some? ==>
              match CommentById(old(db.comments), Js.ParseInt(id, Js.Decimal).value)
              case None =>
                r == Error(NotFound, "Comment not found.") && db.comments == old(db.comments)
              case Some(i) =>
                var updated := old(db.comments)[i].(content := content.value);
                && r == Json(OK, updated)
                && db.comments == old(db.comments)[i := updated]
  {
    if !Js.StrTruthy(content) {
      return Error(BadRequest, "Content is required.");
    }
    var parsed := Js.ParseInt(id, Js.Decimal);
    if parsed.None? {
      return Error(InternalServerError, "An error occurred while updating the comment.");
    }
    var found := CommentById(db.comments, parsed.value);
    if found.None? {
      return Error(NotFound, "Comment not found.");
    }
    var i := found.value;
    var updated := db.comments[i].(content := content.value);
    assert CommentIds(db.comments[i := updated]) == CommentIds(db.comments);
    db.comments := db.comments[i := updated];
    r := Json(OK, updated);
  }
}
