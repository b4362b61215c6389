/**
 Pages of a provider's bids: the engine turns page and page size into OFFSET and LIMIT,
 the gRPC layer into a page count. `rows` is the filtered, ordered query result.
 */
module Paging {
  import opened Basics

  const I32_LIMIT: int := 0x8000_0000

  function Offset(page: int, pageSize: int): (offset: int)
    ensures offset >= 0
  {
    (if page - 1 > 0 then page - 1 else 0) * (if pageSize > 1 then pageSize else 1)
  }

  function Limit(pageSize: int): int {
    if pageSize < 1 then 1 else if pageSize > 100 then 100 else pageSize
  }

  function Least(a: int, b: int): int {
    if a < b then a else b
  }

  /** LIMIT and OFFSET beyond the last row yield what there is. */
  function Page<T>(rows: seq<T>, page: int, pageSize: int): seq<T> {
    var from := Least(Offset(page, pageSize), |rows|);
    rows[from..Least(from + Limit(pageSize), |rows|)]
  }

  /** `as i32` keeps the low 32 bits. */
  function AsI32(n: int): int {
    (n + I32_LIMIT) % (2 * I32_LIMIT) - I32_LIMIT
  }

  function TotalPages(total: nat, pageSize: int): int {
    if pageSize > 0 then AsI32((total + pageSize - 1) / pageSize) else 0
  }

  predicate HasNext(total: nat, page: int, pageSize: int) {
    page < TotalPages(total, pageSize)
  }

  /** Pages 1 to `count`, end to end. */
  function Pages<T>(rows: seq<T>, pageSize: int, count: nat): seq<T> {
    if count == 0 then [] else Pages(rows, pageSize, count - 1) + Page(rows, count, pageSize)
  }

  /** The page count before the cast. */
  function CeilingPages(total: nat, pageSize: int): (pages: nat)
    requires pageSize > 0
    ensures pages <= total && total <= pages * pageSize < total + pageSize
  {
    CeilingBounds(total, pageSize);
    (total + pageSize - 1) / pageSize
  }

  lemma CeilingBounds(total: nat, pageSize: int)
    requires pageSize > 0
    ensures var pages := (total + pageSize - 1) / pageSize;
      && 0 <= pages <= total
      && total <= pages * pageSize < total + pageSize
  {
    var pages, extra := (total + pageSize - 1) / pageSize, (total + pageSize - 1) % pageSize;
    assert total + pageSize - 1 == pages * pageSize + extra;
    MulMonotone(1, pageSize, total);
    assert (total + 1) * pageSize == total * pageSize + pageSize;
    if pages > total {
      MulMonotone(total + 1, pages, pageSize);
      assert false;
    }
  }

  lemma PageCount(total: nat, pageSize: int)
    requires pageSize > 0 && total < I32_LIMIT
    ensures TotalPages(total, pageSize) == CeilingPages(total, pageSize)
  {
  }

  /** The count a client gets is right up to 2^31 - 1 pages, and negative for the next 2^31. */
  lemma PageCountExactly(total: nat, pageSize: int)
    requires pageSize > 0 && CeilingPages(total, pageSize) < 0x1_0000_0000
    ensures var pages := CeilingPages(total, pageSize);
      TotalPages(total, pageSize) == if pages <= 2_147_483_647 then pages else pages - 4_294_967_296
  {
    var pages := CeilingPages(total, pageSize);
    assert (pages + I32_LIMIT) % (2 * I32_LIMIT) ==
      if pages < I32_LIMIT then pages + I32_LIMIT else pages - I32_LIMIT;
  }

  lemma {:induction false} PagesArePrefix<T>(rows: seq<T>, pageSize: int, count: nat)
    requires 1 <= pageSize <= 100
    ensures Pages(rows, pageSize, count) == rows[..Least(count * pageSize, |rows|)]
  {
    if count > 0 {
      PagesArePrefix(rows, pageSize, count - 1);
      assert count * pageSize == (count - 1) * pageSize + pageSize;
      assert Offset(count, pageSize) == (count - 1) * pageSize;
    }
  }

  /** An oversized page drops the rows between its limit of 100 and the next page's offset. */
  lemma {:induction false} OversizedPagesLoseRows<T>(rows: seq<T>, pageSize: int, count: nat)
    requires pageSize > 100 && |rows| > 100 && count > 0
    ensures |Pages(rows, pageSize, count)| < Least(count * pageSize, |rows|)
  {
    assert Offset(count, pageSize) == (count - 1) * pageSize;
    assert count * pageSize == (count - 1) * pageSize + pageSize;
    if count > 1 {
      OversizedPagesLoseRows(rows, pageSize, count - 1);
    } else {
      assert Pages(rows, pageSize, 0) == [];
    }
  }

  /** The pages a client is told about cover the rows exactly, in order, if and only if this holds. */
  predicate Covers(total: nat, pageSize: int) {
    total == 0 || 1 <= pageSize <= 100 || (pageSize > 100 && total <= 100)
  }

  /** A page size of 1 to 100: every page continues where the one before stopped. */
  lemma RegularPagesCover<T>(rows: seq<T>, pageSize: int)
    requires |rows| < I32_LIMIT && 1 <= pageSize <= 100
    ensures Pages(rows, pageSize, CeilingPages(|rows|, pageSize)) == rows
  {
    PagesArePrefix(rows, pageSize, CeilingPages(|rows|, pageSize));
  }

  lemma OversizedPagesCover<T>(rows: seq<T>, pageSize: int)
    requires |rows| < I32_LIMIT && pageSize > 100
    ensures Pages(rows, pageSize, CeilingPages(|rows|, pageSize)) == rows <==> |rows| <= 100
  {
    var count := CeilingPages(|rows|, pageSize);
    if |rows| > 100 {
      OversizedPagesLoseRows(rows, pageSize, count);
    } else if |rows| > 0 {
      OnePage(|rows|, pageSize);
      assert Pages(rows, pageSize, 1) == Pages(rows, pageSize, 0) + Page(rows, 1, pageSize);
    }
  }

  lemma OnePage(total: nat, pageSize: int)
    requires 0 < total <= pageSize
    ensures CeilingPages(total, pageSize) == 1
  {
    Quotient(total + pageSize - 1, pageSize, 1, total - 1);
  }

  lemma PagesPartition<T>(rows: seq<T>, pageSize: int)
    requires |rows| < I32_LIMIT
    ensures TotalPages(|rows|, pageSize) >= 0
    ensures Pages(rows, pageSize, TotalPages(|rows|, pageSize)) == rows <==> Covers(|rows|, pageSize)
  {
    if pageSize > 0 {
      PageCount(|rows|, pageSize);
      if pageSize <= 100 {
        RegularPagesCover(rows, pageSize);
      } else {
        OversizedPagesCover(rows, pageSize);
      }
    }
  }

  /** Rows come after what this page shows. */
  predicate RowsFollow(total: nat, page: int, pageSize: int) {
    Offset(page, pageSize) + Limit(pageSize) < total
  }

  /**
   `has_next` can be trusted: always with page sizes 1 to 100; with larger ones unless all that follows are
   rows cut off from this very page; with smaller ones only if nothing follows.
   */
  predicate NextKnown(total: nat, page: int, pageSize: int) {
    if pageSize < 1 then total <= page
    else pageSize <= 100 || total <= (page - 1) * pageSize + 100 || page * pageSize < total
  }

  lemma MorePages(total: nat, page: int, pageSize: int)
    requires total < I32_LIMIT && pageSize > 0
    ensures HasNext(total, page, pageSize) <==> page * pageSize < total
  {
    PageCount(total, pageSize);
    var count := CeilingPages(total, pageSize);
    if page < count {
      MulMonotone(page, count - 1, pageSize);
      assert (count - 1) * pageSize == count * pageSize - pageSize;
    } else {
      MulMonotone(count, page, pageSize);
    }
  }

  /** From page 1 on, `has_next` says whether any row comes after the page exactly when `NextKnown` holds. */
  lemma HasNextIsRight(total: nat, page: int, pageSize: int)
    requires total < I32_LIMIT && page >= 1
    ensures (HasNext(total, page, pageSize) <==> RowsFollow(total, page, pageSize)) <==>
      NextKnown(total, page, pageSize)
  {
    if pageSize > 0 {
      MorePages(total, page, pageSize);
      assert page * pageSize == (page - 1) * pageSize + pageSize;
      assert Offset(page, pageSize) == (page - 1) * pageSize;
    }
  }

  /** `has_next` is right for this page size, whatever the rows and from page 1 on. */
  ghost predicate NextAlwaysKnown(pageSize: int) {
    forall total: nat, page: int :: total < I32_LIMIT && page >= 1 ==>
      (HasNext(total, page, pageSize) <==> RowsFollow(total, page, pageSize))
  }

  /** A client that asks for pages of 1 to 100 rows, and only such a client, can always trust `has_next`. */
  lemma HasNextForAll(pageSize: int)
    ensures NextAlwaysKnown(pageSize) <==> 1 <= pageSize <= 100
  {
    if 1 <= pageSize <= 100 {
      forall total: nat, page: int | total < I32_LIMIT && page >= 1
        ensures HasNext(total, page, pageSize) <==> RowsFollow(total, page, pageSize)
      {
        HasNextIsRight(total, page, pageSize);
      }
    } else {
      HasNextIsRight(if pageSize < 1 then 2 else 101, 1, pageSize);
    }
  }
}
