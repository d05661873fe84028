/**
 * The user handlers: idempotent provisioning keyed by the identity-provider
 * subject (`sub`), the filtered listing of a user's posts, the profile lookup,
 * and update and delete with the ORM's not-found error mapped to 404.
 */
module Users {
  import opened Wrappers
  import opened Store
  import opened Http
  import Js
  import Orm

  // ---------------------------------------------------------------------
  // Check_If_Exists/Create User
  // ---------------------------------------------------------------------

  /** The users with the given subject, as a `where` clause. */
  function HasSub(sub: string): User -> bool {
    (u: User) => u.sub == sub
  }

  /**
   * `createUser`: 400 when sub, email or username is missing or empty; the
   * existing record with a 200 when the subject is known; otherwise exactly
   * one new user with the given fields and a 201.
   */
  method CreateUser(db: Database, sub: Option<string>, email: Option<string>, username: Option<string>)
    returns (r: Response<User>)
    requires db.Valid()
    modifies db
    ensures db.Valid()
    ensures db.posts == old(db.posts) && db.comments == old(db.comments)
    ensures db.nextCommentId == old(db.nextCommentId)
    ensures !(Js.StrTruthy(sub) && Js.StrTruthy(email) && Js.StrTruthy(username)) ==>
              r == Error(BadRequest, "Missing required user information.") && unchanged(db)
    ensures Js.StrTruthy(sub) && Js.StrTruthy(email) && Js.StrTruthy(username) ==>
              match UserBySub(old(db.users), sub.value)
              case Some(i) =>
                r == Json(OK, old(db.users)[i]) && unchanged(db)
              case None =>
                var u := User(old(db.nextUserId), sub.value, email.value, username.value, None);
                && r == Json(Created, u)
                && db.users == old(db.users) + [u]
                && db.nextUserId == old(db.nextUserId) + 1
  {
    if !(Js.StrTruthy(sub) && Js.StrTruthy(email) && Js.StrTruthy(username)) {
      return Error(BadRequest, "Missing required user information.");
    }
    var existing := UserBySub(db.users, sub.value);
    if existing.Some? {
      return Json(OK, db.users[existing.value]);
    }
    var u := User(db.nextUserId, sub.value, email.value, username.value, None);
    IdsAppend(UserIds(db.users), db.nextUserId);
    assert UserIds(db.users + [u]) == UserIds(db.users) + [u.id];
    db.users := db.users + [u];
    db.nextUserId := db.nextUserId + 1;
    r := Json(Created, u);
  }

  /** With unique subjects, a subject that is present is carried by exactly one user. */
  lemma {:induction false} UniqueSubCount(users: seq<User>, sub: string)
    requires SubsUnique(users)
    requires UserBySub(users, sub).Some?
    ensures |Orm.Filter(users, HasSub(sub))| == 1
  {
    if users[0].sub == sub {
      NoSubInTail(users[1..], sub, users[0]);
    } else {
      UniqueSubCount(users[1..], sub);
    }
  }

  lemma {:induction false} NoSubInTail(users: seq<User>, sub: string, head: User)
    requires head.sub == sub
    requires forall i :: 0 <= i < |users| ==> users[i].sub != head.sub
    ensures Orm.Filter(users, HasSub(sub)) == []
  {
    if users != [] {
      NoSubInTail(users[1..], sub, head);
    }
  }

  /**
   * Provisioning is idempotent: after two calls with the same subject there is
   * exactly one user with it, and the second call answers 200 with the record
   * the first call returned, whatever email and username it carries.
   */
  method CreateUserTwice(
    db: Database, sub: string, email1: string, username1: string, email2: string, username2: string)
    returns (first: Response<User>, second: Response<User>)
    requires db.Valid()
    requires sub != "" && email1 != "" && username1 != "" && email2 != "" && username2 != ""
    modifies db
    ensures db.Valid()
    ensures first.Json? && (first.status == OK || first.status == Created)
    ensures second == Json(OK, first.body)
    ensures first.body.sub == sub
    ensures |Orm.Filter(db.users, HasSub(sub))| == 1
    ensures db.users == old(db.users) + (if first.status == Created then [first.body] else [])
  {
    first := CreateUser(db, Some(sub), Some(email1), Some(username1));
    ghost var afterFirst := db.users;
    second := CreateUser(db, Some(sub), Some(email2), Some(username2));
    if first.status == Created {
      assert afterFirst[|afterFirst| - 1] == first.body;
    }
    UniqueSubCount(db.users, sub);
  }

  // ---------------------------------------------------------------------
  // GET user posts
  // ---------------------------------------------------------------------

  /** The `filters` object `getUserPosts` builds. */
  datatype PostFilter = PostFilter(authorId: int, published: Option<bool>, search: Option<string>)

  /** A post satisfies every condition the filter holds. */
  predicate Matches(f: PostFilter, p: Post) {
    && p.authorId == f.authorId
    && (f.published.Some? ==> p.published == f.published.value)
    && (f.search.Some? ==>
          Js.ContainsInsensitive(p.title, f.search.value) || Js.ContainsInsensitive(p.content, f.search.value))
  }

  /** A post with `include: { author: true, comments: true }`. */
  datatype AuthoredPost = AuthoredPost(post: Post, author: Option<User>, comments: seq<Comment>)

  /** The user with the given id, when there is one. */
  function Author(users: seq<User>, id: int): (r: Option<User>)
    ensures r.Some? ==> r.value in users && r.value.id == id
    ensures r.None? ==> forall u :: u in users ==> u.id != id
  {
    match UserById(users, id)
    case None => None
    case Some(i) => Some(users[i])
  }

  /** Each post of `rows` with its author and its comments. */
  function Authored(users: seq<User>, comments: seq<Comment>, rows: seq<Post>): seq<AuthoredPost> {
    Js.Map(rows, (p: Post) => AuthoredPost(p, Author(users, p.authorId), CommentsOf(comments, p.id)))
  }

  /** The posts of a listing, in order. */
  function AuthoredRows(body: seq<AuthoredPost>): seq<Post> {
    Js.Map(body, (v: AuthoredPost) => v.post)
  }

  /** What the query parameters of `getUserPosts` ask of a post. */
  predicate Admits(uid: int, published: Option<string>, search: Option<string>, p: Post) {
    && p.authorId == uid
    && (published.Some? ==> p.published == (published.value == "true"))
    && (Js.StrTruthy(search) ==>
          Js.ContainsInsensitive(p.title, search.value) || Js.ContainsInsensitive(p.content, search.value))
  }

  /**
   * `body` lists exactly the posts the query admits, each as often as the table
   * holds it, newest first, each with its author and its comments (each comment
   * as often as the table holds it).
   */
  ghost predicate IsUserPostsListing(
    posts: seq<Post>, users: seq<User>, comments: seq<Comment>,
    uid: int, published: Option<string>, search: Option<string>, body: seq<AuthoredPost>)
  {
    && (forall v :: v in body ==> v.post in posts && Admits(uid, published, search, v.post))
    && (forall p :: p in posts && Admits(uid, published, search, p) ==> exists v :: v in body && v.post == p)
    && (forall p :: multiset(AuthoredRows(body))[p] == if Admits(uid, published, search, p) then multiset(posts)[p] else 0)
    && (forall i, j :: 0 <= i < j < |body| ==> body[i].post.createdAt >= body[j].post.createdAt)
    && (forall v :: v in body ==>
          && v.author == Author(users, v.post.authorId)
          && forall c :: multiset(v.comments)[c] == if c.postId == v.post.id then multiset(comments)[c] else 0)
  }

  /**
   * `getUserPosts`: an id `parseInt` cannot read (no radix, so `0x` selects
   * hexadecimal) is a 400. Otherwise the filter is built field by field and the
   * result is exactly the posts it admits, newest first, each with its author
   * and its comments.
   */
  method GetUserPosts(
    posts: seq<Post>, users: seq<User>, comments: seq<Comment>,
    id: string, published: Option<string>, search: Option<string>)
    returns (r: Response<seq<AuthoredPost>>)
    ensures Js.ParseInt(id, Js.Unspecified).None? ==> r == Error(BadRequest, "Invalid user ID")
    ensures Js.ParseInt(id, Js.Unspecified).Some? ==>
              && r.Json? && r.status == OK
              && IsUserPostsListing(posts, users, comments, Js.ParseInt(id, Js.Unspecified).value,
                                    published, search, r.body)
  {
    var userId := Js.ParseInt(id, Js.Unspecified);
    if userId.None? {
      return Error(BadRequest, "Invalid user ID");
    }
    var filters := PostFilter(userId.value, None, None);
    if published.Some? {
      filters := filters.(published := Some(published.value == "true"));
    }
    if Js.StrTruthy(search) {
      filters := filters.(search := search);
    }
    assert forall p :: Matches(filters, p) <==> Admits(userId.value, published, search, p);
    var keep := (p: Post) => Matches(filters, p);
    var views := Authored(users, comments, NewestFirst(Orm.Filter(posts, keep)));
    QueryMembers(posts, users, comments, keep, userId.value, published, search);
    r := Json(OK, views);
  }

  /** The listing of the rows a filter keeps is the listing the query asks for, when the filter admits what the query does. */
  lemma QueryMembers(
    posts: seq<Post>, users: seq<User>, comments: seq<Comment>,
    keep: Post -> bool, uid: int, published: Option<string>, search: Option<string>)
    requires forall p :: keep(p) <==> Admits(uid, published, search, p)
    ensures IsUserPostsListing(posts, users, comments, uid, published, search,
                               Authored(users, comments, NewestFirst(Orm.Filter(posts, keep))))
  {
    ListedMembers(posts, users, comments, keep);
    ListedCounts(posts, users, comments, keep);
    ListedRowShape(users, comments, NewestFirst(Orm.Filter(posts, keep)));
  }

  /** Each post the filter keeps is listed as often as the table holds it, and no other post is. */
  lemma ListedCounts(posts: seq<Post>, users: seq<User>, comments: seq<Comment>, keep: Post -> bool)
    ensures var views := Authored(users, comments, NewestFirst(Orm.Filter(posts, keep)));
            forall p :: multiset(AuthoredRows(views))[p] == if keep(p) then multiset(posts)[p] else 0
  {
    var rows := NewestFirst(Orm.Filter(posts, keep));
    assert AuthoredRows(Authored(users, comments, rows)) == rows;
  }

  /** The listing holds a row for each post the filter keeps, and no other posts. */
  lemma ListedMembers(posts: seq<Post>, users: seq<User>, comments: seq<Comment>, keep: Post -> bool)
    ensures var views := Authored(users, comments, NewestFirst(Orm.Filter(posts, keep)));
            && (forall v :: v in views ==> v.post in posts && keep(v.post))
            && (forall p :: p in posts && keep(p) ==> exists v :: v in views && v.post == p)
  {
    var matching := Orm.Filter(posts, keep);
    var rows := NewestFirst(matching);
    forall p ensures p in rows <==> p in posts && keep(p) {
      assert p in rows <==> p in multiset(rows);
      assert p in matching <==> p in multiset(matching);
    }
    AuthoredCovers(users, comments, rows);
  }

  /** Listing rows gives one entry per row, so the listed posts are exactly the rows. */
  lemma AuthoredCovers(users: seq<User>, comments: seq<Comment>, rows: seq<Post>)
    ensures forall v :: v in Authored(users, comments, rows) ==> v.post in rows
    ensures forall p :: p in rows ==> exists v :: v in Authored(users, comments, rows) && v.post == p
  {
    var views := Authored(users, comments, rows);
    forall v | v in views ensures v.post in rows {
      var k :| 0 <= k < |views| && views[k] == v;
      assert v.post == rows[k];
    }
    forall p | p in rows ensures exists v :: v in views && v.post == p {
      var k :| 0 <= k < |rows| && rows[k] == p;
      assert views[k] in views && views[k].post == p;
    }
  }

  /** Listing newest-first rows keeps them newest first and attaches each post's author and comments. */
  lemma ListedRowShape(users: seq<User>, comments: seq<Comment>, rows: seq<Post>)
    requires forall i, j :: 0 <= i < j < |rows| ==> rows[i].createdAt >= rows[j].createdAt
    ensures var views := Authored(users, comments, rows);
            && (forall i, j :: 0 <= i < j < |views| ==> views[i].post.createdAt >= views[j].post.createdAt)
            && (forall v :: v in views ==>
                  v.author == Author(users, v.post.authorId) && v.comments == CommentsOf(comments, v.post.id))
  {
    var views := Authored(users, comments, rows);
    forall v | v in views
      ensures v.author == Author(users, v.post.authorId) && v.comments == CommentsOf(comments, v.post.id)
    {
      var k :| 0 <= k < |views| && views[k] == v;
    }
  }

  // ---------------------------------------------------------------------
  // GET user profile
  // ---------------------------------------------------------------------

  /** `getUserProfile`: the user whose subject matches, or a 404. */
  function GetUserProfile(users: seq<User>, sub: string): (r: Response<User>)
    ensures r.Json? <==> exists u :: u in users && u.sub == sub
    ensures r.Json? ==> r.status == OK && r.body in users && r.body.sub == sub
    ensures r.Error? ==> r == Error(NotFound, "User not found.")
  {
    match UserBySub(users, sub)
    case None => Error(NotFound, "User not found.")
    case Some(i) => Json(OK, users[i])
  }

  // ---------------------------------------------------------------------
  // PUT user / DELETE user
  // ---------------------------------------------------------------------

  /** The status the catch blocks give an ORM error: 404 for code P2025, 500 for anything else. */
  function ErrorStatus(e: Orm.DbError): (s: int)
    ensures s == NotFound <==> Orm.ErrorCode(e) == Some("P2025")
    ensures s == NotFound || s == InternalServerError
  {
    if Orm.ErrorCode(e) == Some("P2025") then NotFound else InternalServerError
  }

  /** The error response for an ORM error, with the handler's own message for the 500 case. */
  function ErrorResponse<T>(e: Orm.DbError, otherwise: string): (r: Response<T>)
    ensures r.Error? && r.status == ErrorStatus(e)
    ensures r.status == NotFound ==> r.error == "User not found."
    ensures r.status != NotFound ==> r.error == otherwise
  {
    if ErrorStatus(e) == NotFound then Error(NotFound, "User not found.") else Error(InternalServerError, otherwise)
  }

  /**
   * `prisma.user.update({ where: { id: parseInt(id, 10) }, ... })`: an id with
   * no leading digits is a validation error; an id no user has is P2025.
   */
  function LocateUser(users: seq<User>, id: string): (r: Result<nat, Orm.DbError>)
    ensures r == Err(Orm.ValidationError) <==> Js.ParseInt(id, Js.Decimal).None?
    ensures r == Err(Orm.RecordNotFound) <==>
              Js.ParseInt(id, Js.Decimal).Some? && forall u :: u in users ==> u.id != Js.ParseInt(id, Js.Decimal).value
    ensures r.Ok? ==>
              Js.ParseInt(id, Js.Decimal).Some? && r.value < |users| && users[r.value].id == Js.ParseInt(id, Js.Decimal).value
    ensures r.Err? ==> r == Err(Orm.ValidationError) || r == Err(Orm.RecordNotFound)
  {
    match Js.ParseInt(id, Js.Decimal)
    case None => Err(Orm.ValidationError)
    case Some(uid) =>
      match UserById(users, uid)
      case None => Err(Orm.RecordNotFound)
      case Some(i) => Ok(i)
  }

  /** The user after `data: { email, username, password }`: an `undefined` field is left as it was. */
  function Patched(u: User, email: Option<string>, username: Option<string>, password: Option<string>): (v: User)
    ensures v.id == u.id && v.sub == u.sub
    ensures v.email == (if email.Some? then email.value else u.email)
    ensures v.username == (if username.Some? then username.value else u.username)
    ensures v.password == (if password.Some? then password else u.password)
  {
    u.(email := if email.Some? then email.value else u.email,
       username := if username.Some? then username.value else u.username,
       password := if password.Some? then password else u.password)
  }

  /**
   * `updateUserProfile`: an unknown id is a 404 (P2025), an id with no leading
   * digits a 500; otherwise only that user's given fields change.
   */
  method UpdateUserProfile(
    db: Database, id: string, email: Option<string>, username: Option<string>, password: Option<string>)
    returns (r: Response<User>)
    requires db.Valid()
    modifies db
    ensures db.Valid()
    ensures db.posts == old(db.posts) && db.comments == old(db.comments)
    ensures db.nextUserId == old(db.nextUserId) && db.nextCommentId == old(db.nextCommentId)
    ensures match LocateUser(old(db.users), id)
            case Err(e) =>
              r == ErrorResponse(e, "An error occurred while updating the user profile.")
              && db.users == old(db.users)
            case Ok(i) =>
              var v := Patched(old(db.users)[i], email, username, password);
              r == Json(OK, v) && db.users == old(db.users)[i := v]
  {
    var located := LocateUser(db.users, id);
    if located.Err? {
      return ErrorResponse(located.error, "An error occurred while updating the user profile.");
    }
    var i := located.value;
    assert located == Ok(i);
    var v := Patched(db.users[i], email, username, password);
    PatchKeepsKeys(db.users, i, v);
    db.users := db.users[i := v];
    r := Json(OK, v);
  }

  /**
   * `deleteUser`: an unknown id is a 404 (P2025), an id with no leading digits
   * a 500; otherwise that one user goes and the others keep their order.
   */
  method DeleteUser(db: Database, id: string) returns (r: Response<string>)
    requires db.Valid()
    modifies db
    ensures db.Valid()
    ensures db.posts == old(db.posts) && db.comments == old(db.comments)
    ensures db.nextUserId == old(db.nextUserId) && db.nextCommentId == old(db.nextCommentId)
    ensures match LocateUser(old(db.users), id)
            case Err(e) =>
              r == ErrorResponse(e, "An error occurred while deleting the user.") && db.users == old(db.users)
            case Ok(i) =>
              r == Json(OK, "User deleted successfully.") && db.users == RemoveAt(old(db.users), i)
  {
    var located := LocateUser(db.users, id);
    if located.Err? {
      return ErrorResponse(located.error, "An error occurred while deleting the user.");
    }
    var i := located.value;
    var before := db.users;
    IdsRemove(UserIds(before), db.nextUserId, i);
    assert UserIds(RemoveAt(before, i)) == RemoveAt(UserIds(before), i);
    SubsUniqueRemove(before, i);
    db.users := RemoveAt(before, i);
    r := Json(OK, "User deleted successfully.");
  }

  /** Replacing a user by one with the same id and subject keeps the ids and the unique subjects. */
  lemma PatchKeepsKeys(users: seq<User>, i: nat, v: User)
    requires i < |users| && v.id == users[i].id && v.sub == users[i].sub
    ensures UserIds(users[i := v]) == UserIds(users)
    ensures SubsUnique(users) ==> SubsUnique(users[i := v])
  {
    assert UserIds(users[i := v]) == UserIds(users);
  }

  lemma SubsUniqueRemove(users: seq<User>, i: nat)
    requires SubsUnique(users) && i < |users|
    ensures SubsUnique(RemoveAt(users, i))
  {
    var r := RemoveAt(users, i);
    forall a, b | 0 <= a < b < |r| ensures r[a].sub != r[b].sub {
      var a' := if a < i then a else a + 1;
      var b' := if b < i then b else b + 1;
      assert r[a] == users[a'] && r[b] == users[b'];
    }
  }
}
