/**
 * `PaginatedResult`: one page of items plus the page metadata derived from
 * `total`, `page` and `limit`. Pure integer arithmetic; the caller guards
 * `limit != 0` (the source divides by it).
 */
module Pagination {

  datatype Paginated<T> = Paginated(data: seq<T>, total: int, page: int, limit: int)

  /** The pagination block of `toArray`. */
  datatype PageInfo = PageInfo(
    page: int,
    limit: int,
    total: int,
    totalPages: int,
    hasNext: bool,
    hasPrevious: bool)

  /** The array `toArray` returns: the items unchanged plus the pagination block. */
  datatype PageArray<T> = PageArray(data: seq<T>, pagination: PageInfo)

  /**
   * `ceil(a / b)` on integers: the least integer not below the exact quotient,
   * for either sign of `b`.
   */
  function CeilDiv(a: int, b: int): (r: int)
    requires b != 0
    ensures b > 0 ==> r * b >= a && (r - 1) * b < a
    ensures b < 0 ==> r * b <= a && (r - 1) * b > a
  {
    if b > 0 then -((-a) / b) else -(a / (-b))
  }

  /** `getTotalPages`: the number of pages of `limit` items needed to hold `total` items. */
  function TotalPages<T>(p: Paginated<T>): (r: int)
    requires p.limit != 0
    ensures p.limit > 0 ==> r * p.limit >= p.total && (r - 1) * p.limit < p.total
    ensures p.limit < 0 ==> r * p.limit <= p.total && (r - 1) * p.limit > p.total
  {
    CeilDiv(p.total, p.limit)
  }

  /** `hasNextPage`. */
  predicate HasNextPage<T>(p: Paginated<T>)
    requires p.limit != 0
  {
    p.page < TotalPages(p)
  }

  /** `hasPreviousPage`. */
  predicate HasPreviousPage<T>(p: Paginated<T>)
  {
    p.page > 1
  }

  function Min(a: int, b: int): int { if a <= b then a else b }
  function Max(a: int, b: int): int { if a >= b then a else b }

  /** How many items the pages before page `page` hold. */
  function OffsetOf(page: int, limit: int): (r: int)
    ensures r + limit == page * limit
    ensures page >= 1 && limit >= 0 ==> r >= 0
  {
    if page >= 1 && limit >= 0 then MulNonNegative(page - 1, limit); (page - 1) * limit
    else (page - 1) * limit
  }

  /** `getOffset`. */
  function Offset<T>(p: Paginated<T>): (r: int)
    ensures r + p.limit == p.page * p.limit
    ensures p.page >= 1 && p.limit >= 0 ==> r >= 0
  {
    OffsetOf(p.page, p.limit)
  }

  lemma MulNonNegative(a: int, b: int)
    requires a >= 0 && b >= 0
    ensures a * b >= 0
  {
  }

  /** `toArray`. */
  function ToArray<T>(p: Paginated<T>): (r: PageArray<T>)
    requires p.limit != 0
    ensures r.data == p.data
    ensures r.pagination.page == p.page && r.pagination.limit == p.limit && r.pagination.total == p.total
    ensures r.pagination.totalPages == TotalPages(p)
    ensures r.pagination.hasNext <==> HasNextPage(p)
    ensures r.pagination.hasPrevious <==> HasPreviousPage(p)
  {
    PageArray(p.data, PageInfo(p.page, p.limit, p.total, TotalPages(p), HasNextPage(p), HasPreviousPage(p)))
  }

  /** Two integers that both satisfy the ceiling bounds for a positive divisor are equal. */
  lemma CeilingUnique(a: int, b: int, q1: int, q2: int)
    requires b > 0
    requires q1 * b >= a && (q1 - 1) * b < a
    requires q2 * b >= a && (q2 - 1) * b < a
    ensures q1 == q2
  {
    if q1 < q2 {
      assert q1 <= q2 - 1;
      assert q1 * b <= (q2 - 1) * b by { MulMonotone(q1, q2 - 1, b); }
    } else if q2 < q1 {
      assert q2 * b <= (q1 - 1) * b by { MulMonotone(q2, q1 - 1, b); }
    }
  }

  lemma MulMonotone(x: int, y: int, b: int)
    requires x <= y && b > 0
    ensures x * b <= y * b
  {
    assert y * b - x * b == (y - x) * b;
  }

  /** For `limit >= 1` and `total >= 0` the page count is the integer ceiling `(total + limit - 1) div limit`. */
  lemma TotalPagesFormula<T>(p: Paginated<T>)
    requires p.limit >= 1 && p.total >= 0
    ensures TotalPages(p) == (p.total + p.limit - 1) / p.limit
  {
    var a, b := p.total, p.limit;
    var q := (a + b - 1) / b;
    var m := (a + b - 1) % b;
    assert a + b - 1 == q * b + m && 0 <= m < b;
    assert q * b >= a;
    assert (q - 1) * b < a by {
      assert (q - 1) * b == q * b - b;
    }
    CeilingUnique(a, b, TotalPages(p), q);
  }

  /** No items means no pages; some items mean at least one. */
  lemma {:induction false} TotalPagesZeroIffEmpty<T>(p: Paginated<T>)
    requires p.limit >= 1 && p.total >= 0
    ensures TotalPages(p) == 0 <==> p.total == 0
    ensures TotalPages(p) >= 0
  {
    var r := TotalPages(p);
    if r < 0 {
      assert r * p.limit < 0 by { MulMonotone(r, -1, p.limit); }
    }
    if p.total == 0 {
      CeilingUnique(0, p.limit, r, 0);
    }
  }

  /**
   * A next page exists exactly when items lie beyond this page, i.e. when the
   * first `page * limit` items do not exhaust `total`.
   */
  lemma HasNextIffMoreItems<T>(p: Paginated<T>)
    requires p.limit >= 1
    ensures HasNextPage(p) <==> p.page * p.limit < p.total
  {
    var r, b := TotalPages(p), p.limit;
    if p.page < r {
      MulMonotone(p.page, r - 1, b);
    } else {
      MulMonotone(r, p.page, b);
    }
  }

  /** An empty listing never reports a next page, for any page at or after the first. */
  lemma NoNextPageWhenEmpty<T>(p: Paginated<T>)
    requires p.limit >= 1 && p.total == 0 && p.page >= 0
    ensures !HasNextPage(p)
  {
    HasNextIffMoreItems(p);
    assert p.page * p.limit >= 0;
  }

  /** Whether a previous page exists depends on the page number alone. */
  lemma HasPreviousIgnoresSize<T>(p: Paginated<T>, total: int, limit: int, data: seq<T>)
    ensures HasPreviousPage(p) == HasPreviousPage(Paginated(data, total, p.page, limit))
    ensures HasPreviousPage(p) <==> p.page >= 2
  {
  }

  /** A page at or after the first starts inside the listing exactly when it is one of the `TotalPages` pages. */
  lemma OffsetInsideIffPageInRange<T>(p: Paginated<T>)
    requires p.limit >= 1 && p.page >= 1
    ensures Offset(p) < p.total <==> p.page <= TotalPages(p)
  {
    var r, b := TotalPages(p), p.limit;
    if p.page <= r {
      MulMonotone(p.page - 1, r - 1, b);
    } else {
      MulMonotone(r, p.page - 1, b);
    }
  }

  /** 25 items, 20 per page: page 1 of 2 has a next page and no previous one. */
  lemma ScenarioFirstOfTwo()
    ensures var p: Paginated<int> := Paginated([], 25, 1, 20);
      TotalPages(p) == 2 && HasNextPage(p) && !HasPreviousPage(p) && Offset(p) == 0
  {
    var p: Paginated<int> := Paginated([], 25, 1, 20);
    TotalPagesFormula(p);
  }

  /** 25 items, 10 per page: page 3 is the last of 3, with a previous page and no next one. */
  lemma ScenarioLastOfThree()
    ensures var p: Paginated<int> := Paginated([], 25, 3, 10);
      TotalPages(p) == 3 && !HasNextPage(p) && HasPreviousPage(p) && Offset(p) == 20
  {
    var p: Paginated<int> := Paginated([], 25, 3, 10);
    TotalPagesFormula(p);
  }
}
