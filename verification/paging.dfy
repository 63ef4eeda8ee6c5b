/**
 * Page arithmetic shared by the news catalogue and the comment store:
 * `page_count = ceil(total / page_size)`, bounds-safe slicing of one page,
 * and SQL's `LIMIT ... OFFSET ...`.
 */
module Paging {

  function Min(a: int, b: int): int {
    if a <= b then a else b
  }

  /** A non-positive page becomes 1; a positive one is kept. */
  function DefaultPage(page: int): (r: int)
    ensures r >= 1
    ensures page > 0 ==> r == page
    ensures page <= 0 ==> r == 1
  {
    if page <= 0 then 1 else page
  }

  /** A non-positive page size becomes 10; a positive one is kept (no upper bound). */
  function DefaultPageSize(pageSize: int): (r: int)
    ensures r >= 1
    ensures pageSize > 0 ==> r == pageSize
    ensures pageSize <= 0 ==> r == 10
  {
    if pageSize <= 0 then 10 else pageSize
  }

  /** `(total + size - 1) / size`: the number of pages of `size` items that hold `total` items. */
  function CeilDiv(total: nat, size: int): (n: nat)
    requires size >= 1
    ensures n * size >= total
    ensures n == 0 || (n - 1) * size < total
    ensures total == 0 <==> n == 0
  {
    (total + size - 1) / size
  }

  /** The least number of pages that holds `total` items is `CeilDiv(total, size)`. */
  lemma CeilDivIsLeast(total: nat, size: int, k: nat)
    requires size >= 1
    requires k * size >= total
    ensures CeilDiv(total, size) <= k
  {
    var n := CeilDiv(total, size);
    if n > k {
      assert (n - 1) * size >= k * size by {
        assert n - 1 >= k;
        MulMono(k, n - 1, size);
      }
    }
  }

  lemma MulMono(a: nat, b: nat, c: nat)
    requires a <= b
    ensures a * c <= b * c
  {
  }

  /** Half-open index range `[start, end)` of one page. */
  datatype Bounds = Bounds(start: nat, end: nat)

  /**
   * The news handler's clamping: `start = (page-1)*size` capped at `len`,
   * `end = start + size` capped at `len`.
   */
  function PageBounds(len: nat, page: int, size: int): (b: Bounds)
    requires page >= 1 && size >= 1
    ensures b.start <= b.end <= len
    ensures b.end - b.start <= size
    ensures (page - 1) * size >= len ==> b.start == b.end == len
    ensures (page - 1) * size < len ==> b.start == (page - 1) * size && b.end == Min(b.start + size, len)
  {
    var start := if (page - 1) * size >= len then len else (page - 1) * size;
    var end := if start + size > len then len else start + size;
    Bounds(start, end)
  }

  /** Page `page` (1-based) of `xs` with `size` items per page. */
  function Page<T>(xs: seq<T>, page: int, size: int): (p: seq<T>)
    requires page >= 1 && size >= 1
    ensures |p| <= size
  {
    var b := PageBounds(|xs|, page, size);
    xs[b.start..b.end]
  }

  /** SQL `LIMIT limit OFFSET offset`: skip `offset` rows, then keep at most `limit`. */
  function LimitOffset<T>(xs: seq<T>, limit: nat, offset: nat): seq<T> {
    var rest := if offset >= |xs| then [] else xs[offset..];
    if limit >= |rest| then rest else rest[..limit]
  }

  /** A page is the SQL window with `LIMIT size OFFSET (page-1)*size`. */
  lemma PageIsLimitOffset<T>(xs: seq<T>, page: int, size: int)
    requires page >= 1 && size >= 1
    ensures (page - 1) * size >= 0
    ensures Page(xs, page, size) == LimitOffset(xs, size, (page - 1) * size)
  {
    assert (page - 1) * size >= 0 by { MulMono(0, page - 1, size); }
  }

  /** Pages 1..k of `xs`, concatenated in order. */
  function Pages<T>(xs: seq<T>, size: int, k: nat): seq<T>
    requires size >= 1
  {
    if k == 0 then [] else Pages(xs, size, k - 1) + Page(xs, k, size)
  }

  /** The first k pages are exactly the first `k*size` items (or all of them). */
  lemma {:induction false} PagesArePrefix<T>(xs: seq<T>, size: int, k: nat)
    requires size >= 1
    ensures k * size >= 0
    ensures Pages(xs, size, k) == xs[..Min(k * size, |xs|)]
  {
    MulMono(0, k, size);
    if k > 0 {
      PagesArePrefix(xs, size, k - 1);
      var lo := (k - 1) * size;
      assert k * size == lo + size;
      MulMono(0, k - 1, size);
      var b := PageBounds(|xs|, k, size);
      if lo >= |xs| {
        assert b.start == b.end;
        assert Min(k * size, |xs|) == |xs| == Min(lo, |xs|);
      } else {
        assert xs[..lo] + xs[b.start..b.end] == xs[..Min(k * size, |xs|)];
      }
    }
  }

  /** Pages 1..page_count concatenated give back the whole sequence. */
  lemma {:induction false} PagesReassemble<T>(xs: seq<T>, size: int)
    requires size >= 1
    ensures Pages(xs, size, CeilDiv(|xs|, size)) == xs
  {
    var n := CeilDiv(|xs|, size);
    PagesArePrefix(xs, size, n);
  }

  /** Every page after page_count is empty. */
  lemma PastLastPageEmpty<T>(xs: seq<T>, size: int, page: int)
    requires size >= 1 && page > CeilDiv(|xs|, size)
    ensures Page(xs, page, size) == []
  {
    var n := CeilDiv(|xs|, size);
    MulMono(n, page - 1, size);
  }
}
