/**
 * The ORM queries the handlers issue, over tables held as sequences in
 * insertion order: `where` as a filter, `orderBy` on an integer column as a
 * stable sort, and `skip`/`take` as a window. Errors the ORM raises are values.
 */
module Orm {
  import opened Wrappers

  /**
   * What the ORM raises: a known request error carries a code ("P2025" is
   * "record to update or delete not found"); a validation error, raised for
   * arguments the query engine refuses, carries none.
   */
  datatype DbError = KnownRequestError(code: string) | ValidationError

  const RecordNotFound: DbError := KnownRequestError("P2025")

  /** `error.code`, which is `undefined` on a validation error. */
  function ErrorCode(e: DbError): Option<string> {
    match e
    case KnownRequestError(c) => Some(c)
    case ValidationError => None
  }

  // ---------------------------------------------------------------------
  // where
  // ---------------------------------------------------------------------

  /** The rows satisfying `p`, in table order. */
  function Filter<T(!new)>(s: seq<T>, p: T -> bool): (r: seq<T>)
    ensures |r| <= |s|
    ensures forall x :: x in r <==> x in s && p(x)
    ensures forall x :: multiset(r)[x] == if p(x) then multiset(s)[x] else 0
  {
    if s == [] then []
    else
      assert s == [s[0]] + s[1..];
      (if p(s[0]) then [s[0]] else []) + Filter(s[1..], p)
  }

  // ---------------------------------------------------------------------
  // orderBy
  // ---------------------------------------------------------------------

  /** `s` is in ascending order of `key`. */
  ghost predicate SortedBy<T>(s: seq<T>, key: T -> int) {
    forall i, j :: 0 <= i < j < |s| ==> key(s[i]) <= key(s[j])
  }

  /** Place `x` after every element of the sorted `s` whose key is at most its own. */
  function Insert<T>(x: T, s: seq<T>, key: T -> int): (r: seq<T>)
    requires SortedBy(s, key)
    ensures SortedBy(r, key)
    ensures multiset(r) == multiset(s) + multiset{x}
    ensures |r| == |s| + 1
  {
    if s == [] then [x]
    else if key(x) < key(s[0]) then
      PrependSorted(x, s, key);
      [x] + s
    else
      var rest := Insert(x, s[1..], key);
      assert s == [s[0]] + s[1..];
      HeadBelowInsert(x, s, key, rest);
      PrependSorted(s[0], rest, key);
      [s[0]] + rest
  }

  /** The head of a sorted list is no larger than `x` or any element of its tail. */
  lemma HeadBelowInsert<T>(x: T, s: seq<T>, key: T -> int, rest: seq<T>)
    requires s != [] && SortedBy(s, key) && key(s[0]) <= key(x)
    requires multiset(rest) == multiset(s[1..]) + multiset{x}
    ensures forall y :: y in rest ==> key(s[0]) <= key(y)
  {
    forall y | y in rest ensures key(s[0]) <= key(y) {
      assert y in multiset(rest);
      if y != x {
        assert y in multiset(s[1..]);
        var k :| 0 <= k < |s[1..]| && s[1..][k] == y;
        assert s[k + 1] == y;
      }
    }
  }

  /** A head no larger than any element of a sorted tail gives a sorted list. */
  lemma PrependSorted<T>(h: T, rest: seq<T>, key: T -> int)
    requires SortedBy(rest, key)
    requires forall y :: y in rest ==> key(h) <= key(y)
    ensures SortedBy([h] + rest, key)
  {
    var r := [h] + rest;
    forall i, j | 0 <= i < j < |r| ensures key(r[i]) <= key(r[j]) {
      if i == 0 {
        assert r[j] == rest[j - 1];
        assert r[j] in rest;
      } else {
        assert r[i] == rest[i - 1] && r[j] == rest[j - 1];
      }
    }
  }

  /** `orderBy: { column: "asc" }`: a stable insertion sort on `key`. */
  function SortBy<T>(s: seq<T>, key: T -> int): (r: seq<T>)
    ensures SortedBy(r, key)
    ensures multiset(r) == multiset(s)
    ensures |r| == |s|
  {
    if s == [] then []
    else
      assert s == s[..|s| - 1] + [s[|s| - 1]];
      Insert(s[|s| - 1], SortBy(s[..|s| - 1], key), key)
  }

  // ---------------------------------------------------------------------
  // skip / take
  // ---------------------------------------------------------------------

  function Min(a: int, b: int): int { if a <= b then a else b }
  function Max(a: int, b: int): int { if a <= b then b else a }

  /**
   * `skip`/`take` on an ordered result. A negative `skip` is refused by the
   * query engine. A non-negative `take` keeps the first `take` rows after the
   * skipped ones; a negative `take` counts from the end: it keeps the last
   * `-take` rows before the `skip` rows that end the list.
   */
  function Window<T(!new)>(s: seq<T>, skip: int, take: int): (r: Result<seq<T>, DbError>)
    ensures r.Err? <==> skip < 0
    ensures r.Err? ==> r.error == ValidationError
    ensures r.Ok? && take >= 0 ==>
              |r.value| == Min(take, Max(0, |s| - skip))
              && forall i :: 0 <= i < |r.value| ==> r.value[i] == s[skip + i]
    ensures r.Ok? && take < 0 ==>
              |r.value| == Min(-take, Max(0, |s| - skip))
              && forall i :: 0 <= i < |r.value| ==> r.value[i] == s[|s| - skip - |r.value| + i]
    ensures r.Ok? ==> forall x :: x in r.value ==> x in s
  {
    if skip < 0 then Err(ValidationError)
    else if take >= 0 then
      Ok(s[Min(skip, |s|)..Min(skip + take, |s|)])
    else
      var hi := Max(0, |s| - skip);
      Ok(s[Max(0, hi + take)..hi])
  }

  /** A window of a sorted list is sorted. */
  lemma WindowSorted<T(!new)>(s: seq<T>, skip: int, take: int, key: T -> int)
    requires SortedBy(s, key)
    ensures Window(s, skip, take).Ok? ==> SortedBy(Window(s, skip, take).value, key)
  {
    var r := Window(s, skip, take);
    if r.Ok? {
      var w := r.value;
      var off := if take >= 0 then skip else |s| - skip - |w|;
      assert forall i :: 0 <= i < |w| ==> w[i] == s[off + i];
      forall i, j | 0 <= i < j < |w| ensures key(w[i]) <= key(w[j]) {
        assert w[i] == s[off + i] && w[j] == s[off + j];
      }
    }
  }
}
