/**
 * Offset pagination shared by the comment and post listings:
 * `parseInt(x, 10) || d` for the query parameters, `skip = (page - 1) * pageSize`,
 * `take = pageSize` and `totalPages = Math.ceil(total / pageSize)`.
 */
module Pagination {
  import opened Wrappers
  import Js
  import Orm

  /**
   * `parseInt(raw, 10) || fallback`: the parsed number, or `fallback` when the
   * parameter is absent, has no leading digits (NaN) or parses to 0.
   */
  function PageParam(raw: Option<string>, fallback: int): (n: int)
    ensures fallback != 0 ==> n != 0
    ensures n == fallback || (raw.Some? && Js.ParseInt(raw.value, Js.Decimal) == Some(n))
    ensures raw.Some? && Js.ParseInt(raw.value, Js.Decimal).Some? && Js.ParseInt(raw.value, Js.Decimal).value != 0 ==>
              n == Js.ParseInt(raw.value, Js.Decimal).value
    ensures raw.None? || Js.ParseInt(raw.value, Js.Decimal).None? || Js.ParseInt(raw.value, Js.Decimal) == Some(0) ==>
              n == fallback
  {
    if raw.None? then fallback
    else match Js.ParseInt(raw.value, Js.Decimal)
      case None => fallback
      case Some(k) => if k == 0 then fallback else k
  }

  /** A parameter the client wrote as a decimal numeral is that number, unless it is 0. */
  lemma PageParamOfNumeral(k: int, fallback: int)
    ensures PageParam(Some(Js.IntNumeral(k)), fallback) == if k == 0 then fallback else k
  {
    Js.ParseIntNumeral(k);
  }

  /** A parameter that is absent or empty falls back. */
  lemma PageParamAbsent(fallback: int)
    ensures PageParam(None, fallback) == fallback
    ensures PageParam(Some(""), fallback) == fallback
  {
    assert Js.TrimStart("") == "";
  }

  /** The number of rows a page skips. */
  function Skip(page: int, pageSize: int): int {
    (page - 1) * pageSize
  }

  /**
   * Consecutive pages leave no gap and do not overlap: page `p` followed by
   * page `p + 1` is the window of two pages' worth of rows from page `p` on.
   */
  lemma AdjacentPages<T(!new)>(s: seq<T>, page: int, pageSize: int)
    requires pageSize > 0 && page >= 1
    ensures Orm.Window(s, Skip(page, pageSize), pageSize).value + Orm.Window(s, Skip(page + 1, pageSize), pageSize).value
            == Orm.Window(s, Skip(page, pageSize), 2 * pageSize).value
  {
    var k := Skip(page, pageSize);
    assert Skip(page + 1, pageSize) == k + pageSize by {
      assert page * pageSize == (page - 1) * pageSize + pageSize;
    }
    assert k >= 0 by { MulMonotone(0, page - 1, pageSize); }
    WindowsAdjacent(s, k, pageSize);
  }

  /** The window of `take` rows after `skip`, then the next `take` rows, is the window of `2 * take` rows. */
  lemma WindowsAdjacent<T(!new)>(s: seq<T>, skip: nat, take: nat)
    ensures Orm.Window(s, skip, take).value + Orm.Window(s, skip + take, take).value
            == Orm.Window(s, skip, 2 * take).value
  {
    var lo, mid, hi := Orm.Min(skip, |s|), Orm.Min(skip + take, |s|), Orm.Min(skip + 2 * take, |s|);
    assert s[lo..mid] + s[mid..hi] == s[lo..hi];
  }

  /**
   * `Math.ceil(total / pageSize)` for a non-negative count and a non-zero page
   * size, in integers: the least integer at or above the exact quotient.
   */
  function TotalPages(total: nat, pageSize: int): (r: int)
    requires pageSize != 0
    ensures pageSize > 0 ==> (r - 1) * pageSize < total <= r * pageSize
    ensures pageSize < 0 ==> r * pageSize <= total < (r - 1) * pageSize
  {
    if pageSize > 0 then
      var r := (total + pageSize - 1) / pageSize;
      var m := (total + pageSize - 1) % pageSize;
      assert total + pageSize - 1 == r * pageSize + m && 0 <= m < pageSize;
      assert (r - 1) * pageSize == r * pageSize - pageSize;
      r
    else
      var q := total / (-pageSize);
      var m := total % (-pageSize);
      assert total == q * (-pageSize) + m && 0 <= m < -pageSize;
      assert (-q) * pageSize == q * (-pageSize);
      assert (-q - 1) * pageSize == (-q) * pageSize - pageSize;
      -q
  }

  /** With a positive page size, the page count for `pageSize * k` rows is `k`. */
  lemma TotalPagesExact(k: nat, pageSize: int)
    requires pageSize > 0
    ensures TotalPages(pageSize * k, pageSize) == k
  {
    var r := TotalPages(pageSize * k, pageSize);
    if r < k {
      assert r * pageSize <= (k - 1) * pageSize by { MulMonotone(r, k - 1, pageSize); }
    } else if r > k {
      assert k * pageSize <= (r - 1) * pageSize by { MulMonotone(k, r - 1, pageSize); }
    }
  }

  lemma MulMonotone(a: int, b: int, c: int)
    requires a <= b && c > 0
    ensures a * c <= b * c
  {
    assert b * c - a * c == (b - a) * c;
  }

  /**
   * Every row of a listing lies on some page from 1 to `totalPages`: with a
   * positive page size, row `i` is entry `i % pageSize` of page `i / pageSize + 1`.
   */
  lemma RowOnPage<T(!new)>(s: seq<T>, pageSize: int, i: nat)
    requires pageSize > 0 && i < |s|
    ensures var page := i / pageSize + 1;
            && 1 <= page <= TotalPages(|s|, pageSize)
            && var w := Orm.Window(s, Skip(page, pageSize), pageSize);
            && w.Ok? && i % pageSize < |w.value| && w.value[i % pageSize] == s[i]
  {
    var page := i / pageSize + 1;
    PageOfRow(i, pageSize);
    WindowAt(s, Skip(page, pageSize), pageSize, i % pageSize);
    PageWithinTotal(|s|, pageSize, page);
  }

  /** Page `i / pageSize + 1` skips the rows before `i` down to a multiple of the page size. */
  lemma PageOfRow(i: nat, pageSize: int)
    requires pageSize > 0
    ensures i / pageSize + 1 >= 1
    ensures Skip(i / pageSize + 1, pageSize) == i - i % pageSize
    ensures 0 <= i % pageSize < pageSize
  {
    assert i == (i / pageSize) * pageSize + i % pageSize;
  }

  /** Entry `off` of a page starting at `skip` is row `skip + off`, when that row exists. */
  lemma WindowAt<T(!new)>(s: seq<T>, skip: int, pageSize: int, off: int)
    requires 0 <= skip && 0 <= off < pageSize && skip + off < |s|
    ensures Orm.Window(s, skip, pageSize).Ok?
    ensures off < |Orm.Window(s, skip, pageSize).value|
    ensures Orm.Window(s, skip, pageSize).value[off] == s[skip + off]
  {
  }

  /** A page whose first row exists is counted by `totalPages`. */
  lemma PageWithinTotal(total: nat, pageSize: int, page: int)
    requires pageSize > 0 && page >= 1 && Skip(page, pageSize) < total
    ensures page <= TotalPages(total, pageSize)
  {
    var tp := TotalPages(total, pageSize);
    if tp < page {
      MulMonotone(tp, page - 1, pageSize);
    }
  }
}
