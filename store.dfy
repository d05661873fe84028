/**
 * The records the handlers read and write, and the database that holds them.
 * Each table is a sequence in insertion order; ids are handed out by an
 * autoincrement counter per table.
 */
module Store {
  import opened Wrappers
  import Js
  import Orm

  datatype User = User(id: int, sub: string, email: string, username: string, password: Option<string>)

  datatype Post = Post(
    id: int, title: string, slug: string, content: string,
    published: bool, authorId: int, createdAt: int)

  /** A comment; `parentId` is `null` for a top-level comment and names the parent of a reply. */
  datatype Comment = Comment(
    id: int, content: string, postId: int, parentId: Option<int>,
    userId: int, createdAt: int)

  /** `select: { id: true, username: true }` on a user. */
  datatype UserSummary = UserSummary(id: int, username: string)

  /** Row ids increase strictly along the table and stay below the next id to hand out. */
  ghost predicate IdsIncreasing(ids: seq<int>, next: int) {
    && (forall i, j :: 0 <= i < j < |ids| ==> ids[i] < ids[j])
    && (forall i :: 0 <= i < |ids| ==> ids[i] < next)
  }

  /** The ids of the user table, in table order. */
  function UserIds(users: seq<User>): seq<int> {
    Js.Map(users, (u: User) => u.id)
  }

  /** The ids of the comment table, in table order. */
  function CommentIds(comments: seq<Comment>): seq<int> {
    Js.Map(comments, (c: Comment) => c.id)
  }

  /** No two users share a `sub` (the identity-provider subject). */
  ghost predicate SubsUnique(users: seq<User>) {
    forall i, j :: 0 <= i < j < |users| ==> users[i].sub != users[j].sub
  }

  /** `findUnique({ where: { id } })` on the user table. */
  function UserById(users: seq<User>, id: int): (r: Option<nat>)
    ensures r.Some? ==> r.value < |users| && users[r.value].id == id
    ensures r.None? ==> forall i :: 0 <= i < |users| ==> users[i].id != id
  {
    Js.FindIndex(users, (u: User) => u.id == id)
  }

  /** `findUnique({ where: { sub } })` on the user table. */
  function UserBySub(users: seq<User>, sub: string): (r: Option<nat>)
    ensures r.Some? ==> r.value < |users| && users[r.value].sub == sub
    ensures r.None? ==> forall i :: 0 <= i < |users| ==> users[i].sub != sub
  {
    Js.FindIndex(users, (u: User) => u.sub == sub)
  }

  /** `findUnique({ where: { id } })` on the comment table. */
  function CommentById(comments: seq<Comment>, id: int): (r: Option<nat>)
    ensures r.Some? ==> r.value < |comments| && comments[r.value].id == id
    ensures r.None? ==> forall i :: 0 <= i < |comments| ==> comments[i].id != id
  {
    Js.FindIndex(comments, (c: Comment) => c.id == id)
  }

  /** The summary of the user with the given id, when there is one. */
  function Summary(users: seq<User>, id: int): (r: Option<UserSummary>)
    ensures r.Some? <==> exists i :: 0 <= i < |users| && users[i].id == id
    ensures r.Some? ==> exists i :: 0 <= i < |users| && users[i].id == id && r.value == UserSummary(id, users[i].username)
  {
    match UserById(users, id)
    case None => None
    case Some(i) => Some(UserSummary(id, users[i].username))
  }

  /** A comment with `include: { user: { select: { id, username } } }`. */
  datatype CommentWithUser = CommentWithUser(comment: Comment, user: Option<UserSummary>)

  /** The comments of a list of comments with their authors. */
  function CommentRows(cs: seq<CommentWithUser>): seq<Comment> {
    Js.Map(cs, (cv: CommentWithUser) => cv.comment)
  }

  /** Each comment of `rows`, in order, with its author's summary. */
  function WithUsers(users: seq<User>, rows: seq<Comment>): (r: seq<CommentWithUser>)
    ensures CommentRows(r) == rows
    ensures forall cv :: cv in r ==> cv.user == Summary(users, cv.comment.userId)
  {
    var r := Js.Map(rows, (c: Comment) => CommentWithUser(c, Summary(users, c.userId)));
    assert CommentRows(r) == rows;
    r
  }

  /** The comments of a post, in table order. */
  function CommentsOf(comments: seq<Comment>, postId: int): (r: seq<Comment>)
    ensures forall c :: c in r <==> c in comments && c.postId == postId
    ensures forall c :: multiset(r)[c] == if c.postId == postId then multiset(comments)[c] else 0
  {
    Orm.Filter(comments, (c: Comment) => c.postId == postId)
  }

  /** `orderBy: { createdAt: "desc" }`. */
  function NewestFirst(s: seq<Post>): (r: seq<Post>)
    ensures multiset(r) == multiset(s) && |r| == |s|
    ensures forall i, j :: 0 <= i < j < |r| ==> r[i].createdAt >= r[j].createdAt
  {
    var key := (p: Post) => -p.createdAt;
    var r := Orm.SortBy(s, key);
    assert forall i, j :: 0 <= i < j < |r| ==> key(r[i]) <= key(r[j]);
    r
  }

  /** A table without row `i`. */
  function RemoveAt<T>(s: seq<T>, i: nat): (r: seq<T>)
    requires i < |s|
    ensures |r| == |s| - 1
    ensures forall k :: 0 <= k < i ==> r[k] == s[k]
    ensures forall k :: i <= k < |r| ==> r[k] == s[k + 1]
  {
    s[..i] + s[i + 1..]
  }

  /** Appending a row that takes the next id keeps the ids increasing. */
  lemma IdsAppend(ids: seq<int>, next: int)
    requires IdsIncreasing(ids, next)
    ensures IdsIncreasing(ids + [next], next + 1)
  {
  }

  /** Removing a row keeps the ids increasing. */
  lemma IdsRemove(ids: seq<int>, next: int, i: nat)
    requires IdsIncreasing(ids, next) && i < |ids|
    ensures IdsIncreasing(RemoveAt(ids, i), next)
  {
    var r := RemoveAt(ids, i);
    forall a, b | 0 <= a < b < |r| ensures r[a] < r[b] {
      var a' := if a < i then a else a + 1;
      var b' := if b < i then b else b + 1;
      assert r[a] == ids[a'] && r[b] == ids[b'];
    }
  }

  /** The database behind the ORM client: three tables and their id counters. */
  class Database {
    var users: seq<User>
    var posts: seq<Post>
    var comments: seq<Comment>
    var nextUserId: int
    var nextCommentId: int

    ghost predicate Valid()
      reads this
    {
      && IdsIncreasing(UserIds(users), nextUserId)
      && IdsIncreasing(CommentIds(comments), nextCommentId)
      && SubsUnique(users)
    }

    /** A database holding the given posts and no users or comments. */
    constructor (posts: seq<Post>)
      ensures Valid()
      ensures this.posts == posts && users == [] && comments == []
      ensures nextUserId == 1 && nextCommentId == 1
    {
      this.posts := posts;
      users := [];
      comments := [];
      nextUserId := 1;
      nextCommentId := 1;
    }
  }
}
