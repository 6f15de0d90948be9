/** _sync_execute: the page a request is answered with, over the fixed rows of the inner statement. */
module Pagination {

  /** settings.MAX_RESULT_ROWS */
  const MAX_RESULT_ROWS: nat := 1000

  function Min(a: int, b: int): int {
    if a < b then a else b
  }

  /** What LIMIT limit OFFSET offset leaves of the rows. */
  function Limited<R>(rows: seq<R>, limit: nat, offset: nat): seq<R> {
    rows[Min(offset, |rows|)..Min(offset + limit, |rows|)]
  }

  datatype Page<R> = Page(rows: seq<R>, rowCount: nat, page: nat, pageSize: nat, truncated: bool)

  function Times(a: nat, b: nat): (n: nat) {
    if a == 0 then 0 else Times(a - 1, b) + b
  }

  lemma {:induction false} TimesIsProduct(a: nat, b: nat)
    ensures Times(a, b) == a * b
  {
    if a == 0 {
    } else {
      TimesIsProduct(a - 1, b);
    }
  }

  /** The OFFSET of a page: the rows before it. */
  function Offset(page: nat, size: nat): (n: nat)
    requires page >= 1
    ensures n == Times(page - 1, size)
  {
    TimesIsProduct(page - 1, size);
    (page - 1) * size
  }

  function SyncExecute<R>(rows: seq<R>, page: nat, size: nat): (p: Page<R>)
    requires page >= 1
  {
    var got := Limited(rows, size, Offset(page, size));
    Page(got, |got|, page, size, |got| >= MAX_RESULT_ROWS)
  }

  /** Pages 1 to n, one after the other. */
  function Pages<R>(rows: seq<R>, n: nat, size: nat): seq<R> {
    if n == 0 then [] else Pages(rows, n - 1, size) + SyncExecute(rows, n, size).rows
  }

  function PageCount(n: nat, size: nat): nat
    requires size > 0
  {
    (n + size - 1) / size
  }

  lemma LimitedExtends<R>(rows: seq<R>, offset: nat, size: nat)
    ensures rows[..Min(offset, |rows|)] + Limited(rows, size, offset) == rows[..Min(offset + size, |rows|)]
  {
  }

  lemma {:induction false} PagesArePrefix<R>(rows: seq<R>, n: nat, size: nat)
    ensures Pages(rows, n, size) == rows[..Min(Times(n, size), |rows|)]
  {
    if n == 0 {
    } else {
      PagesArePrefix(rows, n - 1, size);
      LimitedExtends(rows, Times(n - 1, size), size);
    }
  }

  lemma {:induction false} CountCovers(n: nat, size: nat)
    requires size > 0
    ensures n <= Times(PageCount(n, size), size) < n + size
  {
    var m := n + size - 1;
    TimesIsProduct(m / size, size);
    assert m == (m / size) * size + m % size;
  }

  /** The pages, in order, are the whole result. */
  lemma PagesAreWhole<R>(rows: seq<R>, size: nat)
    requires size > 0
    ensures Pages(rows, PageCount(|rows|, size), size) == rows
  {
    CountCovers(|rows|, size);
    PagesArePrefix(rows, PageCount(|rows|, size), size);
  }

  lemma {:induction false} TimesGrows(a: nat, b: nat, size: nat)
    requires a < b
    ensures Times(a, size) + size <= Times(b, size)
    decreases b
  {
    if a == b - 1 {
    } else {
      TimesGrows(a, b - 1, size);
    }
  }

  /** Page p starts at or before row i and ends after it. */
  predicate Holds(p: nat, size: nat, i: nat) {
    p >= 1 && Offset(p, size) <= i < Offset(p, size) + size
  }

  lemma PageOf(size: nat, i: nat) returns (p: nat)
    requires size > 0
    ensures Holds(p, size, i)
  {
    p := i / size + 1;
    TimesIsProduct(i / size, size);
    assert i == (i / size) * size + i % size;
  }

  lemma PageIsCounted(n: nat, size: nat, i: nat, p: nat)
    requires size > 0 && i < n && Holds(p, size, i)
    ensures p <= PageCount(n, size)
  {
    CountCovers(n, size);
    var count := PageCount(n, size);
    if count < p - 1 {
      TimesGrows(count, p - 1, size);
    }
  }

  /** Every row is on a page, at its offset there, on no other, and that page is one of those counted. */
  lemma RowOnOnePage<R>(rows: seq<R>, size: nat, i: nat) returns (p: nat)
    requires size > 0 && i < |rows|
    ensures Holds(p, size, i) && p <= PageCount(|rows|, size)
    ensures var r := SyncExecute(rows, p, size).rows; i - Offset(p, size) < |r| && r[i - Offset(p, size)] == rows[i]
    ensures forall q :: Holds(q, size, i) ==> q == p
  {
    p := PageOf(size, i);
    PageIsCounted(|rows|, size, i, p);
    forall q | Holds(q, size, i) ensures q == p {
      SamePage(size, i, p, q);
    }
  }

  lemma SamePage(size: nat, i: nat, p: nat, q: nat)
    requires Holds(p, size, i) && Holds(q, size, i)
    ensures p == q
  {
    if p < q {
      TimesGrows(p - 1, q - 1, size);
    } else if q < p {
      TimesGrows(q - 1, p - 1, size);
    }
  }

  /** What is reported beside the rows; truncation only ever of a page that could hold the mark and fills it. */
  lemma PageReport<R>(rows: seq<R>, page: nat, size: nat)
    requires page >= 1
    ensures var p := SyncExecute(rows, page, size);
      && p.rowCount == |p.rows| && p.page == page && p.pageSize == size
      && (p.truncated <==> size >= MAX_RESULT_ROWS && Times(page - 1, size) + MAX_RESULT_ROWS <= |rows|)
  {
    assert |Limited(rows, size, Offset(page, size))| ==
        Min(Times(page - 1, size) + size, |rows|) - Min(Times(page - 1, size), |rows|);
  }

  /** No request that the request schema admits, at most 200 rows a page, is ever reported as truncated. */
  lemma NeverTruncated<R>(rows: seq<R>, page: nat, size: nat)
    requires page >= 1 && size <= 200
    ensures !SyncExecute(rows, page, size).truncated
  {
    assert |Limited(rows, size, Offset(page, size))| <= size;
  }
}
