/** Page arithmetic: the requests of internal/http/dto/dto.go, the offset and limit queries of
    internal/search/search_repository.go, and the page counts and flags of
    internal/services/search_service.go, on 64-bit integers. */
module Paging {
  import opened GoBuiltins

  const MAX_INT := 0x7FFF_FFFF_FFFF_FFFF
  const MIN_INT := -0x8000_0000_0000_0000
  const TWO_64 := 0x1_0000_0000_0000_0000

  newtype int64 = x: int | MIN_INT <= x <= MAX_INT

  /** The value an `int` holds after an operation whose exact result is `x`. */
  function Wrap(x: int): (r: int)
    ensures MIN_INT <= r <= MAX_INT
    ensures MIN_INT <= x <= MAX_INT ==> r == x
    ensures (x - r) % 0x1_0000_0000_0000_0000 == 0
  {
    (x - MIN_INT) % TWO_64 + MIN_INT
  }

  function Offset(page: int, pageSize: int): int {
    Wrap((page - 1) * pageSize)
  }

  /** The query methods' own defaults for the page and its size. */
  function ClampPage(page: int): int {
    if page < 1 then 1 else page
  }

  function ClampSize(pageSize: int): int {
    if pageSize < 1 || pageSize > 100 then 20 else pageSize
  }

  class PaginationRequest {
    var page: int64
    var pageSize: int64

    constructor (page: int64, pageSize: int64)
      ensures this.page == page && this.pageSize == pageSize
    {
      this.page, this.pageSize := page, pageSize;
    }

    /** Accepts sizes from 1 to 100 and the missing size 0, and moves the page up to the first. The
        accepted request is one that the query methods take as it is. */
    method Validate() returns (ok: bool)
      modifies this
      ensures ok <==> 0 <= old(pageSize) <= 100
      ensures page == if old(page) < 1 then 1 else old(page)
      ensures pageSize == if old(pageSize) == 0 then 20 else old(pageSize)
      ensures ok ==> page as int == ClampPage(page as int) && pageSize as int == ClampSize(pageSize as int)
    {
      if page < 1 {
        page := 1;
      }
      if pageSize < 1 || pageSize > 100 {
        if pageSize == 0 {
          pageSize := 20;
        } else {
          return false;
        }
      }
      ok := true;
    }
  }

  // ---- One page ----

  /** LIMIT and OFFSET, where a negative offset counts as none. */
  function Select<T>(rows: seq<T>, limit: nat, offset: int): seq<T> {
    var from := if offset < 0 then 0 else if offset > |rows| then |rows| else offset;
    if |rows| - from > limit then rows[from..from + limit] else rows[from..]
  }

  datatype Page<T> = Page(
    items: seq<T>, totalCount: nat, page: int, pageSize: int, totalPages: int, hasNext: bool, hasPrev: bool)

  function TotalPages(total: nat, pageSize: int): int
    requires pageSize >= 1
  {
    var pages := Wrap(total + pageSize - 1) / pageSize;
    if pages < 1 then 1 else pages
  }

  /** A listing of the service: the query method clamps once more, then counts and selects. */
  function List<T>(rows: seq<T>, page: int, pageSize: int): Page<T>
    requires page >= 1 && 1 <= pageSize <= 100
  {
    var total := TotalPages(|rows|, pageSize);
    Page(Select(rows, ClampSize(pageSize), Offset(ClampPage(page), ClampSize(pageSize))),
         |rows|, page, pageSize, total, page < total, page > 1)
  }

  /** `ListUsers` of the service, over the users its filter keeps, in the query's order. */
  method ListUsers<T>(rows: seq<T>, req: PaginationRequest) returns (ok: bool, result: Page<T>)
    modifies req
    ensures ok <==> 0 <= old(req.pageSize) <= 100
    ensures ok ==> result == List(rows, ClampPage(old(req.page) as int),
                                  if old(req.pageSize) == 0 then 20 else old(req.pageSize) as int)
  {
    ok := req.Validate();
    if ok {
      result := List(rows, req.page as int, req.pageSize as int);
    } else {
      result := Page([], 0, 0, 0, 0, false, false);
    }
  }

  /** The listings of recent messages and of a user's messages, which correct a bad size silently. */
  method ListMessages<T>(rows: seq<T>, page: int64, pageSize: int64) returns (result: Page<T>)
    ensures result == List(rows, ClampPage(page as int), ClampSize(pageSize as int))
    ensures result.page == if page < 1 then 1 else page as int
    ensures result.pageSize == if pageSize < 1 || pageSize > 100 then 20 else pageSize as int
    ensures result.totalCount == |rows|
  {
    var p, s := page, pageSize;
    if p < 1 {
      p := 1;
    }
    if s < 1 || s > 100 {
      s := 20;
    }
    result := List(rows, p as int, s as int);
  }

  // ---- All pages ----

  /** The rows are few enough to be counted and paged in an `int`. */
  predicate Countable(total: nat) {
    total + 100 <= MAX_INT
  }

  /** The pages from the first to number `n`, joined. */
  function Walk<T>(rows: seq<T>, pageSize: int, n: nat): seq<T>
    requires 1 <= pageSize <= 100
  {
    if n == 0 then [] else Walk(rows, pageSize, n - 1) + List(rows, n, pageSize).items
  }

  lemma SelectFrom<T>(rows: seq<T>, limit: nat, offset: nat)
    ensures Select(rows, limit, offset) == rows[Min(offset, |rows|)..Min(offset + limit, |rows|)]
  {
  }

  lemma PageStart(page: nat, pageSize: nat, total: nat)
    requires page >= 1 && Countable(total) && (page - 1) * pageSize <= total + 100
    ensures Offset(page, pageSize) == (page - 1) * pageSize
  {
  }

  lemma NextStart(n: nat, pageSize: nat)
    requires n >= 1
    ensures n * pageSize == (n - 1) * pageSize + pageSize
  {
  }

  lemma CeilingBounds(total: nat, s: nat, pages: nat)
    requires s >= 1 && pages == (total + s - 1) / s
    ensures pages * s >= total && (pages >= 1 ==> (pages - 1) * s < total)
  {
    var r := (total + s - 1) % s;
    assert total + s - 1 == s * pages + r;
    assert pages * s == s * pages;
    if pages >= 1 {
      assert (pages - 1) * s == pages * s - s;
    }
  }

  lemma Product(a: nat, b: nat, s: nat)
    requires a <= b
    ensures a * s <= b * s
  {
    assert (b - a) * s >= 0;
    assert b * s == a * s + (b - a) * s;
  }

  lemma PageItems<T>(rows: seq<T>, pageSize: nat, n: nat, start: nat)
    requires 1 <= pageSize <= 100 && Countable(|rows|) && n >= 1
    requires start == (n - 1) * pageSize <= |rows| + 100
    ensures List(rows, n, pageSize).items == rows[Min(start, |rows|)..Min(start + pageSize, |rows|)]
  {
    PageStart(n, pageSize, |rows|);
    SelectFrom(rows, pageSize, start);
  }

  lemma {:induction false} WalkIsPrefix<T>(rows: seq<T>, pageSize: nat, n: nat, end: nat)
    requires 1 <= pageSize <= 100 && Countable(|rows|) && end == n * pageSize && end <= |rows| + 100
    ensures Walk(rows, pageSize, n) == rows[..Min(end, |rows|)]
    decreases n
  {
    if n == 0 {
      assert end == 0;
    } else {
      NextStart(n, pageSize);
      var start := end - pageSize;
      assert start == (n - 1) * pageSize;
      WalkIsPrefix(rows, pageSize, n - 1, start);
      PageItems(rows, pageSize, n, start);
      Glue(rows, Min(start, |rows|), Min(end, |rows|));
    }
  }

  lemma Glue<T>(rows: seq<T>, a: nat, b: nat)
    requires a <= b <= |rows|
    ensures rows[..a] + rows[a..b] == rows[..b]
  {
  }

  lemma TotalPagesBounds(total: nat, pageSize: nat)
    requires 1 <= pageSize <= 100 && Countable(total)
    ensures var n := TotalPages(total, pageSize);
            && n >= 1 && total <= n * pageSize <= total + 100
            && (n - 1) * pageSize <= total && (total > 0 ==> (n - 1) * pageSize < total)
  {
    var pages := (total + pageSize - 1) / pageSize;
    CeilingBounds(total, pageSize, pages);
    if pages >= 1 {
      NextStart(pages, pageSize);
    }
  }

  /** Pages 1 to the total joined are all rows in order, each once; every page but the last is full, and
      the last is not empty unless there are no rows at all. */
  lemma PagesPartition<T>(rows: seq<T>, pageSize: nat)
    requires 1 <= pageSize <= 100 && Countable(|rows|)
    ensures var n := TotalPages(|rows|, pageSize);
            && n >= 1 && Walk(rows, pageSize, n) == rows
            && (forall p :: 1 <= p < n ==> |List(rows, p, pageSize).items| == pageSize)
            && (rows != [] ==> |List(rows, n, pageSize).items| >= 1)
  {
    var n := TotalPages(|rows|, pageSize);
    TotalPagesBounds(|rows|, pageSize);
    WalkIsPrefix(rows, pageSize, n, n * pageSize);
    PageLength(rows, pageSize, n, n);
    forall p | 1 <= p < n ensures |List(rows, p, pageSize).items| == pageSize {
      PageLength(rows, pageSize, n, p);
    }
  }

  lemma PageLength<T>(rows: seq<T>, pageSize: nat, n: nat, p: nat)
    requires 1 <= pageSize <= 100 && Countable(|rows|) && 1 <= p <= n && (n - 1) * pageSize <= |rows|
    ensures p < n ==> |List(rows, p, pageSize).items| == pageSize
    ensures (n - 1) * pageSize < |rows| && p == n ==> |List(rows, p, pageSize).items| >= 1
  {
    NextStart(p, pageSize);
    Product(p - 1, n - 1, pageSize);
    if p < n {
      Product(p, n - 1, pageSize);
    }
    PageStart(p, pageSize, |rows|);
    SelectFrom(rows, pageSize, (p - 1) * pageSize);
  }

  /** `HasNext` is set exactly when rows follow the page, so it is false exactly from the last page on; the page
      tells its own number and size and the number of all rows. */
  lemma FlagsAreExact<T>(rows: seq<T>, page: nat, pageSize: nat)
    requires page >= 1 && 1 <= pageSize <= 100 && Countable(|rows|)
    ensures var r := List(rows, page, pageSize);
            && (r.hasNext <==> page * pageSize < |rows|)
            && (r.hasNext <==> page < r.totalPages)
            && (r.hasPrev <==> page != 1)
            && r.totalCount == |rows| && r.page == page && r.pageSize == pageSize
  {
    var pages := (|rows| + pageSize - 1) / pageSize;
    CeilingBounds(|rows|, pageSize, pages);
    if page < pages {
      Product(page, pages - 1, pageSize);
    } else {
      Product(pages, page, pageSize);
    }
  }

  // ---- Pages far beyond the last ----

  lemma SelectIsEmpty<T>(rows: seq<T>, limit: nat, offset: int)
    requires limit >= 1
    ensures Select(rows, limit, offset) == [] <==> offset >= |rows| || rows == []
  {
  }

  lemma SelectAtOffset<T>(rows: seq<T>, limit: nat, exact: nat)
    requires limit >= 1 && Countable(|rows|)
    ensures Select(rows, limit, Wrap(exact)) == rows[Min(exact, |rows|)..Min(exact + limit, |rows|)]
            <==> exact <= MAX_INT || Wrap(exact) >= |rows| || rows == []
  {
    if exact <= MAX_INT {
      SelectFrom(rows, limit, exact);
    } else {
      SelectIsEmpty(rows, limit, Wrap(exact));
    }
  }

  /** A page is the stretch of rows its number stands for if and only if the offset fits an `int`, or the
      wrapped offset still lies beyond the rows. */
  lemma PageIsExactIffOffsetFits<T>(rows: seq<T>, page: nat, pageSize: nat, exact: nat)
    requires page >= 1 && 1 <= pageSize <= 100 && Countable(|rows|) && exact == (page - 1) * pageSize
    ensures List(rows, page, pageSize).items == rows[Min(exact, |rows|)..Min(exact + pageSize, |rows|)]
            <==> exact <= MAX_INT || Wrap(exact) >= |rows| || rows == []
  {
    SelectAtOffset(rows, pageSize, exact);
  }

  /** The validated request for page 2^62 + 1 of size 4 is answered with the first page. */
  lemma FarPageShowsTheFirst<T>(rows: seq<T>)
    requires Countable(|rows|)
    ensures var page := 0x4000_0000_0000_0001;
            && page <= MAX_INT
            && List(rows, page, 4).items == List(rows, 1, 4).items
            && List(rows, page, 4).hasPrev
  {
    var page := 0x4000_0000_0000_0001;
    assert (page - 1) * 4 == TWO_64;
    assert Offset(page, 4) == 0;
  }
}
