/** The paged user list: the offset, the page and the total that the shortcut computes. */
module Paging {
  import opened Numbers

  const TWO_63 := 0x8000_0000_0000_0000
  const TWO_64 := 0x1_0000_0000_0000_0000

  /** A 64-bit signed result, wrapped. */
  function Wrap64(x: int): int {
    var m := x % TWO_64;
    if m < TWO_63 then m else m - TWO_64
  }

  /** (page - 1) * pageSize. */
  function Offset(page: int, pageSize: int): int { Wrap64((page - 1) * pageSize) }

  /** The rows of an ordered query under OFFSET and LIMIT; the query builder writes OFFSET only
      for a positive offset and LIMIT only for a non-negative limit. */
  function Find<T>(rows: seq<T>, offset: int, limit: int): (r: seq<T>)
    ensures 0 <= limit ==> |r| <= limit
  {
    var from := if offset <= 0 then 0 else if offset < |rows| then offset else |rows|;
    var to := if 0 <= limit && from + limit < |rows| then from + limit else |rows|;
    rows[from..to]
  }

  /** The total that comes with a page: a short, non-empty page stands for itself and all
      that lies before its offset; otherwise the rows are counted. */
  function Total<T>(rows: seq<T>, offset: int, limit: int): int {
    var size := |Find(rows, offset, limit)|;
    if 0 < limit && 0 < size < limit then size + offset else |rows|
  }

  /** FindByPage.  Its total is the number of rows exactly when the offset is not negative, or
      the rows are none, or they fill the first page. */
  method FindByPage<T>(rows: seq<T>, offset: int, limit: int) returns (result: seq<T>, count: int)
    ensures result == Find(rows, offset, limit) && count == Total(rows, offset, limit)
    ensures count == |rows| <==> offset >= 0 || |rows| == 0 || |rows| >= limit
  {
    result := Find(rows, offset, limit);
    var size := |result|;
    if 0 < limit && 0 < size && size < limit {
      count := size + offset;
      return;
    }
    count := |rows|;
  }

  /** The product does not overflow: what a caller can check. */
  predicate NoOverflow(page: int, pageSize: int) { (page - 1) * pageSize < TWO_63 }

  lemma OffsetExact(page: int, pageSize: int)
    requires 1 <= page && 1 <= pageSize && NoOverflow(page, pageSize)
    ensures Offset(page, pageSize) == (page - 1) * pageSize >= 0
  {
    assert (page - 1) * pageSize >= 0;
  }

  /** A page number whose product wraps to a negative offset: the total of one row is negative. */
  lemma OverflowBreaksTotal()
    ensures !NoOverflow(0x1000_0000_0000_0001, 8)
    ensures Total(["row"], Offset(0x1000_0000_0000_0001, 8), 8) < 0
  {
  }

  /** The list route.  The total is the number of rows exactly when the wrapped offset is not
      negative, or the rows are none, or they fill a page; without overflow it always is, and the
      page is the page-th stretch of the rows. */
  method List<T>(rows: seq<T>, page: int, pageSize: int) returns (items: seq<T>, total: int)
    requires 1 <= page && 1 <= pageSize <= 100
    ensures items == Page(rows, page, pageSize)
    ensures total == |rows| <==> 0 <= Offset(page, pageSize) || |rows| == 0 || pageSize <= |rows|
    ensures NoOverflow(page, pageSize) ==> total == |rows| && items == rows[Min((page - 1) * pageSize, |rows|)..Min(page * pageSize, |rows|)]
  {
    if NoOverflow(page, pageSize) {
      OffsetExact(page, pageSize);
      assert page * pageSize == (page - 1) * pageSize + pageSize;
    }
    items, total := FindByPage(rows, Offset(page, pageSize), pageSize);
  }

  function Page<T>(rows: seq<T>, page: int, pageSize: nat): seq<T> {
    Find(rows, Offset(page, pageSize), pageSize)
  }

  /** Pages 1 to n, one after the other. */
  ghost function Pages<T>(rows: seq<T>, n: nat, pageSize: nat): seq<T> {
    if n == 0 then [] else Pages(rows, n - 1, pageSize) + Page(rows, n, pageSize)
  }

  lemma {:induction false} PagesArePrefix<T>(rows: seq<T>, n: nat, pageSize: nat)
    requires 1 <= pageSize && (n == 0 || NoOverflow(n, pageSize))
    ensures Pages(rows, n, pageSize) == rows[..Min(n * pageSize, |rows|)]
  {
    if n > 0 {
      assert (n - 1) * pageSize == (n - 2) * pageSize + pageSize;
      assert n == 1 || NoOverflow(n - 1, pageSize);
      PagesArePrefix(rows, n - 1, pageSize);
      OffsetExact(n, pageSize);
      var a, b := Min((n - 1) * pageSize, |rows|), Min(n * pageSize, |rows|);
      assert n * pageSize == (n - 1) * pageSize + pageSize;
      assert Page(rows, n, pageSize) == rows[a..b];
    }
  }

  /** Over a fixed order, turning pages until the rows are covered returns every row exactly
      once and in order, as long as the offsets stay in range. */
  lemma PagesCoverRows<T>(rows: seq<T>, n: nat, pageSize: nat)
    requires 1 <= pageSize && 1 <= n && NoOverflow(n, pageSize) && |rows| <= n * pageSize
    ensures Pages(rows, n, pageSize) == rows
  {
    PagesArePrefix(rows, n, pageSize);
  }
}
