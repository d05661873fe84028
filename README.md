# Blog API request handlers, modelled in Dafny

This project models the request handlers of a blog backend built on Express
and the Prisma ORM. They cover comments (a paginated listing of a post's
top-level comments with their replies; create, delete and update), users
(idempotent provisioning keyed by the identity provider's subject `sub`, a
filtered listing of one user's posts, the profile lookup, update and delete),
and posts (the paginated newest-first listing and the lookup by slug). The
model also covers the bearer-token middleware with its once-only key-set cache,
and the upload middleware's type allow-list and size limit.

The database is a `Store.Database` object. Its tables are sequences in
insertion order, and its id counters are fields. A handler that writes is a
`method` that modifies the database and states the whole new state. A handler
that only reads takes the tables as values and changes nothing. Most are
functions; `Users.GetUserPosts` is a method because it builds its filter field
by field. Each handler has an
`Http.Response`, which is either a JSON body with a status or an error message
with a status.

These behaviours of the JavaScript runtime and of the ORM are written out:

- `parseInt` (module `Js`) skips white space, reads a sign, and reads the
  longest digit prefix. With no radix, a `0x` prefix selects hexadecimal.
  `None` stands for NaN.
- In `x || d` a missing value or 0 falls back. An empty string is falsy.
- `String.replace` with a string pattern replaces only the first occurrence.
- After `where`, `orderBy` and `skip`/`take` (module `Orm`), a negative `skip`
  is a validation error. A negative `take` counts back from the end.
- A NaN in an integer filter is a validation error. Every error a handler
  catches becomes a 500, except code P2025 ("record not found"), which
  `updateUserProfile` and `deleteUser` turn into a 404.
- The page count `Math.ceil(total / pageSize)` is computed exactly in integers,
  for either sign of `pageSize`.

Modules: `Wrappers` (Option, Result), `Js`, `Orm`, `Pagination`, `Store`
(records, lookups, the database), `Http`, `Comments`, `Users`, `Posts`,
`Auth`, `Upload`.

### Where the code allows more than the data model intends

Two rules implicit in the data model are not enforced by the code. The model
follows the code in both cases.

- A reply's parent should be a top-level comment on the same post. `addComment`
  checks only that the parent exists.
  - `Comments.CrossPostReply` builds a table where comment 2, on post 4, has
    comment 1, on post 3, as its parent. `addComment` accepts both comments.
  - `Comments.CrossPostListing` proves that the listing of post 3 then shows
    that reply from post 4.
  - Nothing in the code forbids replies to replies either.
- A comment listing should be for a post that exists. The code never looks the
  post up, so an unknown post id gets a 200 with an empty page.

## Model

| member | source | states |
|---|---|---|
| Js.ParseInt | src/controllers/comments.controller.js:9-10 | `parseInt` returns NaN exactly when no digit follows the white space and optional sign; with no radix, when a `0x` prefix is followed by no hex digit. A negative result comes from a leading `-`. |
| Js.ParseIntNumeral | src/controllers/comments.controller.js:118 | Parsing the decimal numeral of any integer gives that integer back (round trip with `String(n)`). |
| Js.DecimalIgnoresHexPrefix | src/controllers/users.controller.js:52 | `parseInt` without a radix reads "0x1A" as 26; with radix 10 it reads the same text as 0. |
| Js.TrimStart | src/controllers/comments.controller.js:9 | The result is a suffix of the input, every dropped character is white space, and the result does not start with white space. |
| Js.DigitPrefixLength | src/controllers/comments.controller.js:9 | The length of the longest run of digits at the start of the text: every character before it is a digit and the next one is not. |
| Js.NatNumeralValue | src/controllers/comments.controller.js:118 | The numeral of `n` consists of decimal digits and denotes `n`. |
| Js.FindIndex | src/controllers/comments.controller.js:117-119 | The position of the first element satisfying the predicate, and `None` exactly when none does. |
| Js.IndexOf | src/middleware/auth.middleware.js:22 | `indexOf` returns the first position at or after `from` where the pattern occurs; `None` when it occurs nowhere after `from`. |
| Js.RemoveFirst | src/middleware/auth.middleware.js:22 | `replace` with a string pattern deletes the first occurrence and keeps everything around it; with no occurrence the text is unchanged. |
| Js.ContainsInsensitiveIff | src/controllers/users.controller.js:64-65 | `contains` with `mode: "insensitive"` holds exactly when, at some position, the text spells the search term letter by letter, ignoring case. |
| Orm.Filter | src/controllers/comments.controller.js:22 | `where` keeps exactly the rows that satisfy the condition, each as often as in the table. |
| Orm.SortBy | src/controllers/comments.controller.js:37-39 | `orderBy` returns an ascending permutation of the rows. |
| Orm.Insert | src/controllers/comments.controller.js:37-39 | Inserting into a sorted list keeps it sorted, adds exactly that element, and grows it by one. |
| Orm.Window | src/controllers/comments.controller.js:23-24 | `skip`/`take`: an error exactly when skip is negative; otherwise the length and the exact table positions of the rows kept, for either sign of take. |
| Orm.WindowSorted | src/controllers/comments.controller.js:23-39 | A window of a sorted result is sorted. |
| Pagination.PageParam | src/controllers/comments.controller.js:9-10 | `parseInt(x, 10) \|\| d` is the parsed value when it is a number other than 0. It is the fallback when the parameter is absent, is NaN or parses to 0. It is never 0 when the fallback is not 0. |
| Pagination.PageParamOfNumeral | src/controllers/posts.controller.js:8-9 | A page parameter written as the numeral `k` is `k`, or the fallback when `k` is 0. |
| Pagination.PageParamAbsent | src/controllers/posts.controller.js:8-9 | An absent or empty page parameter gives the fallback. |
| Pagination.AdjacentPages | src/controllers/comments.controller.js:18-24 | Consecutive pages leave no gap and do not overlap: page `p` followed by page `p + 1` is the window of two pages' worth of rows from page `p` on. |
| Pagination.TotalPages | src/controllers/comments.controller.js:53 | `Math.ceil(total / pageSize)` is the least integer at or above the exact quotient, for positive and for negative page sizes. |
| Pagination.TotalPagesExact | src/controllers/posts.controller.js:38 | `k` full pages of rows give a page count of exactly `k`. |
| Pagination.RowOnPage | src/controllers/posts.controller.js:12-17 | Every row lies on a page from 1 to the page count, at position `i % pageSize` of page `i / pageSize + 1`. |
| Pagination.PageOfRow | src/controllers/posts.controller.js:12 | Page `i / pageSize + 1` skips exactly the rows before `i` down to a multiple of the page size. |
| Pagination.WindowAt | src/controllers/posts.controller.js:16-17 | Entry `off` of a page starting at `skip` is row `skip + off`, when that row exists. |
| Pagination.PageWithinTotal | src/controllers/posts.controller.js:38 | A page whose first row exists is counted by the page count. |
| Store.UserById | src/controllers/users.controller.js:122-123 | `findUnique` by id returns the position of the user with that id, and `None` exactly when no user has it. |
| Store.UserBySub | src/controllers/users.controller.js:19-21 | `findUnique` by `sub` returns the position of the user with that subject, and `None` exactly when no user has it. |
| Store.CommentById | src/controllers/comments.controller.js:117-119 | `findUnique` by id returns the position of the comment with that id, and `None` exactly when none has it. |
| Store.Summary | src/controllers/comments.controller.js:26-28 | `select: { id, username }` returns the id and username of the user with that id, and `None` when there is no such user. |
| Store.CommentsOf | src/controllers/posts.controller.js:22 | `comments: true` returns exactly the comments whose post is the given one, each as often as in the table. |
| Store.NewestFirst | src/controllers/posts.controller.js:24-26 | `orderBy: { createdAt: "desc" }` returns a permutation of the posts, newest first. |
| Store.IdsRemove | src/controllers/comments.controller.js:125 | Removing one id keeps the ids increasing and below the counter. |
| Store.RemoveAt | src/controllers/comments.controller.js:125 | Deleting one row keeps the others in order. |
| Store.Database.constructor | src/controllers/users.controller.js:2 | The database starts with the given posts, no users and no comments, and both id counters at 1. |
| Comments.TopLevel | src/controllers/comments.controller.js:21-39 | The rows of the post that have no parent, oldest first, each as often as in the table, and no others. |
| Comments.RepliesTo | src/controllers/comments.controller.js:29-35 | The attached replies are exactly the comments whose parent is this comment, each as often as in the table, each with its author's summary. |
| Comments.GetCommentsByPostId | src/controllers/comments.controller.js:7-62 | An empty `postId` gives a 400 and an unparseable `postId` or a negative skip gives a 500. Otherwise the reply is a 200 whose body is the requested page (`IsCommentsPage`), for the parsed id and the effective page and page size. `IsCommentsPage` says three things. The page's comments are exactly the `skip`/`take` window of the post's top-level comments, oldest first. Each comment carries its author's summary and exactly its replies, each reply as often as in the table and with its own author's summary. The meta holds the total count, the page, the page size and the page count. |
| Comments.TopLevelPage | src/controllers/comments.controller.js:18-55 | Once the post id is parsed: a negative skip gives a 500, and otherwise the reply is a 200 whose body is that page (`IsCommentsPage`, including the replies and their authors' summaries). |
| Comments.PageBody | src/controllers/comments.controller.js:21-55 | The views of the window, with the count and the page count, satisfy `IsCommentsPage`. |
| Comments.ViewsShape | src/controllers/comments.controller.js:25-39 | Viewing oldest-first rows keeps the rows and their order, and attaches each row's author summary and exactly its replies, each with its author's summary. |
| Comments.CommentsPageRows | src/controllers/comments.controller.js:22 | Every comment on a page is a top-level comment of that post in the table. |
| Comments.AddComment | src/controllers/comments.controller.js:67-108 | When content, postId or userId is missing, the reply is a 400 and nothing changes. When a given parent does not exist, the reply is a 400 and nothing changes. Otherwise exactly one comment is appended, with the next id, the parent only if truthy, and the time given; the reply is a 201 with it. |
| Comments.CrossPostReply | src/controllers/comments.controller.js:77-96 | `addComment` accepts a reply on post 4 whose parent is on post 3. |
| Comments.CrossPostListing | src/controllers/comments.controller.js:29-35 | The listing of post 3 over that table shows, as a reply, a comment that is on post 4. |
| Comments.CrossPostPage | src/controllers/comments.controller.js:21-40 | The first page of post 3 over that table holds only comment 1, and its replies include the comment on post 4. |
| Comments.TopLevelOfPost3 | src/controllers/comments.controller.js:22 | Only comment 1 is a top-level comment of post 3 in that table. |
| Comments.DeleteComment | src/controllers/comments.controller.js:113-134 | An unparseable id gives a 500 and an unknown id gives a 404, and in both cases nothing changes. Otherwise exactly that comment is removed, the others keep their order, and the reply is a 200. |
| Comments.RemoveOnlyThatId | src/controllers/comments.controller.js:125 | With unique ids, removing the row at `i` removes exactly the comments with that id. |
| Comments.UpdateComment | src/controllers/comments.controller.js:139-173 | A falsy content gives a 400, checked before the id. Then an unparseable id gives a 500 and an unknown id a 404, with nothing changed. Otherwise only that comment's content changes, and the reply holds the updated row. |
| Users.CreateUser | src/controllers/users.controller.js:7-45 | When sub, email or username is missing, the reply is a 400 and nothing changes. A known subject gets back its stored record with a 200 and nothing changes. Otherwise exactly one user is appended with the next id and the given fields, and the reply is a 201 with it. |
| Users.UniqueSubCount | src/controllers/users.controller.js:19-21 | With unique subjects, a subject that is present belongs to exactly one user. |
| Users.CreateUserTwice | src/controllers/users.controller.js:18-36 | Provisioning is idempotent. After two calls with the same subject, exactly one user has it, and the second call answers 200 with the record the first returned. The table grows by at most that one record. |
| Users.Author | src/controllers/users.controller.js:74 | `author: true` returns the user with the post's author id, or `None` when there is none. |
| Users.GetUserPosts | src/controllers/users.controller.js:50-86 | An id `parseInt` cannot read gives a 400 "Invalid user ID". Otherwise the reply is a 200 whose body is the listing (`IsUserPostsListing`). The listing holds exactly the posts by that user that pass the `published` test (string "true") and the case-insensitive title-or-content search, each as often as in the table, newest first, each with its author and its comments, each comment as often as in the table. |
| Users.QueryMembers | src/controllers/users.controller.js:59-77 | A filter that admits exactly what the query parameters ask for yields the required listing. |
| Users.ListedMembers | src/controllers/users.controller.js:70-77 | The listing holds a row for every post the filter keeps, and no other posts. |
| Users.ListedCounts | src/controllers/users.controller.js:70-77 | Each post the filter keeps is listed as often as the table holds it, and no other post is. |
| Users.ListedRowShape | src/controllers/users.controller.js:72-76 | Listing newest-first rows keeps them newest first and attaches each post's author and comments. |
| Users.GetUserProfile | src/controllers/users.controller.js:91-111 | The reply is a 200 exactly when some user has the subject, and the body is such a user. Otherwise it is a 404 "User not found.". |
| Users.ErrorStatus | src/controllers/users.controller.js:137-139 | An ORM error maps to 404 exactly when its code is "P2025", and to 500 otherwise. |
| Users.ErrorResponse | src/controllers/users.controller.js:135-143 | An error reply has the mapped status, with "User not found." for a 404 and the handler's own message for a 500. |
| Users.LocateUser | src/controllers/users.controller.js:122-123 | The result is a validation error exactly when the id is NaN, and P2025 exactly when the id parses and no user has it. A found position holds a user with the parsed id. No other error arises. |
| Users.Patched | src/controllers/users.controller.js:124-128 | Each given field replaces the stored one, an absent field keeps it, and the id and subject are unchanged. |
| Users.UpdateUserProfile | src/controllers/users.controller.js:116-144 | An unknown id gives a 404 and an unparseable id a 500, with nothing changed. Otherwise only that user changes, by the given fields, and the reply is a 200 with the updated user. |
| Users.DeleteUser | src/controllers/users.controller.js:149-168 | An unknown id gives a 404 and an unparseable id a 500, with nothing changed. Otherwise exactly that user is removed, the others keep their order, and the reply is a 200. |
| Users.PatchKeepsKeys | src/controllers/users.controller.js:122-129 | An update keeps every user's id, and it keeps subjects unique. |
| Users.SubsUniqueRemove | src/controllers/users.controller.js:154-156 | Deleting a user keeps subjects unique. |
| Posts.NewestFirstWindow | src/controllers/posts.controller.js:15-27 | Any page of the newest-first list is newest first. |
| Posts.GetAllPosts | src/controllers/posts.controller.js:5-45 | A negative skip gives a 500. Otherwise the reply is a 200 whose body is the requested page (`IsPostsPage`). `IsPostsPage` says three things. The page's posts are exactly the `skip`/`take` window of all posts, newest first. Each post carries its author's summary and its comments, each comment as often as in the table. The meta holds the total number of posts, the page, the page size and the page count. |
| Posts.PostsPageRows | src/controllers/posts.controller.js:15-27 | Every post on a page is a post of the table. |
| Posts.PostBySlug | src/controllers/posts.controller.js:53-54 | `findUnique` by slug returns the position of a post with that slug, and `None` exactly when no post has it. |
| Store.WithUsers | src/controllers/posts.controller.js:59-65 | Each comment of the post carries its author's summary, and the comments are kept as given. |
| Posts.GetPostBySlug | src/controllers/posts.controller.js:48-80 | The reply is a 200 exactly when some post has the slug; otherwise it is a 404 "Post not found.". The post carries its author's summary and exactly its comments, replies included, each as often as in the table and each with its author's summary. |
| Auth.ExtractToken | src/middleware/auth.middleware.js:22 | A token exists exactly when the header does, and it is the header with the first "Bearer " removed. |
| Auth.ExtractBearer | src/middleware/auth.middleware.js:22 | The header "Bearer t" yields exactly `t`. |
| Auth.ExtractRemovesInnerPrefix | src/middleware/auth.middleware.js:22 | "Bearer " is removed where it first occurs, even when that is not the start of the header. |
| Auth.FindKey | src/middleware/auth.middleware.js:41 | Returns the first key whose `kid` equals the token's, and `None` exactly when no key has it. |
| Auth.CheckSignature | src/middleware/auth.middleware.js:40-58 | Every refusal is a 401. The claims go on exactly when the first key with the `kid` converts to a PEM and verifies the token under RS256 to them. An unknown `kid` gives "Invalid token signature.". |
| Auth.FirstKeyUnique | src/middleware/auth.middleware.js:41 | Only the first key with a `kid` can be the verifying key. |
| Auth.Decide | src/middleware/auth.middleware.js:28-62 | Every refusal is a 401. The claims go on exactly when the key set was fetched, the token names a `kid`, the first key with that `kid` converts to a PEM, and the token verifies under RS256 to those claims. A failed fetch gives "Failed to verify token.", a missing `kid` gives "Invalid token.", and an unknown `kid` gives "Invalid token signature.". |
| Auth.Gate.constructor | src/middleware/auth.middleware.js:8 | The cache starts empty and no fetch has been made. |
| Auth.Gate.FetchJwks | src/middleware/auth.middleware.js:11-18 | The first call starts the download and caches it. Every later call returns the cached promise without downloading again, so at most one download happens. |
| Auth.Gate.VerifyToken | src/middleware/auth.middleware.js:21-63 | With no token the reply is 401 "Access denied. No token provided.", nothing is fetched, and `next` is not called. Otherwise the key set comes from the cache. Then either one 401 is sent with the message `Auth.Decide` picks, or `req.user` is set to the claims and `next` is called exactly once. |
| Auth.AfterFailedFetch | src/middleware/auth.middleware.js:11-18 | Once a download has failed, every later request with a token gets 401 "Failed to verify token." and no new download starts. |
| Upload.FileFilter | src/middleware/multer.middleware.js:15-22 | The callback is called exactly once. It accepts, with no error, exactly "image/jpeg", "image/png" and "image/gif", matched exactly including case. It refuses every other type with the invalid-type error. |
| Upload.Admits | src/middleware/multer.middleware.js:25-39 | A file goes through exactly when its type is allowed and it is at most 5 MiB (5242880 bytes). |

## Left out

- Network, storage and logging are not modelled:
  - the HTTP download of the key set, which appears as the value it would settle to;
  - the S3 upload and its key naming;
  - console output.
- The clock is not modelled. A new comment's `createdAt` is a parameter.
- Decoding, PEM conversion and RS256 verification of tokens are not modelled. They are library code and appear as oracle functions in `Auth.Crypto`.
- Concurrency is not modelled. Each handler runs to completion on its own. The middleware's cached promise is modelled as its settled value.
- The Prisma schema is not part of this model, so its constraints are not modelled:
  - foreign keys, unique constraints other than `sub`, and cascade rules;
  - the 500 each of these would cause (for example, a comment on a post that does not exist, or deleting a user who has posts).
- The catch-all 500 replies for database failures are not modelled, except where an argument error causes them: a NaN id or a negative skip.
- The `message` field of success bodies is not modelled. A 201 or 200 body is the returned row itself.
- Request ids in the `addComment` body are modelled as JSON numbers. A string id is parsed the same by `parseInt`, but the ORM would reject it in the parent lookup.
- Query parameters are modelled as single strings. A repeated parameter, which Express makes an array, is not modelled.
- Number precision is not modelled. Ids and page numbers are unbounded integers, so values beyond 2^53 and `Infinity` products are not modelled.
- Comments.GetCommentsByPostId: the replies of a comment are stated as a collection, without an order, because the query gives them none.
- Posts.GetPostBySlug, Posts.GetAllPosts, Users.GetUserPosts: each post's comments are stated by membership and count, without an order, because `comments: true` gives them none.
- The ORM leaves the order of rows with equal `createdAt` open. The model keeps them in table order (a stable sort), and the window equalities in the listing contracts depend on that choice.
- Js.ContainsInsensitive: `mode: "insensitive"` is modelled as ASCII case folding. The database's own Unicode collation is not modelled.
- Users.UpdateUserProfile: `password` is modelled as an optional stored field. The schema is not part of this model.
- Orm.Window: a negative `take` is modelled as counting back from the end of the result, as the ORM documents. The listings reach this case when the page size parses as negative. The query engine's own checks of such arguments are not modelled beyond the negative-skip error.
