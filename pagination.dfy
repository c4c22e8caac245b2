/** The page arithmetic shared by `getTasks` and `listSpaces`. */
module Pagination {
  /** `PaginationDto`. */
  datatype PageInfo = PageInfo(page: int, limit: int, total: nat, totalPages: int)

  /** The first and last row index of a page, the arguments of `.range(from, to)`. */
  function RangeFrom(page: int, limit: int): int { (page - 1) * limit }
  function RangeTo(page: int, limit: int): int { RangeFrom(page, limit) + limit - 1 }

  /** `Math.ceil(total / limit) || 1`. */
  function TotalPages(total: nat, limit: int): (n: int)
    requires limit >= 1
    ensures n >= 1
  {
    var pages := if total % limit == 0 then total / limit else total / limit + 1;
    if pages == 0 then 1 else pages
  }

  /** The number of pages is the least number of pages of `limit` rows that hold every row, and at least one. */
  lemma TotalPagesIsCeiling(total: nat, limit: int)
    requires limit >= 1
    ensures TotalPages(total, limit) >= 1
    ensures total == 0 ==> TotalPages(total, limit) == 1
    ensures total > 0 ==> (TotalPages(total, limit) - 1) * limit < total <= TotalPages(total, limit) * limit
  {
    var q, m := total / limit, total % limit;
    assert total == q * limit + m;
    if total > 0 && m != 0 {
      assert (q + 1) * limit == q * limit + limit;
    }
  }

  /** The condition of `PageOutOfRangeError`. */
  predicate OutOfRange(page: int, total: nat, limit: int): (out: bool)
    requires limit >= 1
    ensures out ==> total > 0 && page >= 2
  {
    total > 0 && page > TotalPages(total, limit)
  }

  /** A page is out of range exactly when rows exist and the page starts past the last of them. */
  lemma OutOfRangeIffStartsPastEnd(page: int, total: nat, limit: int)
    requires page >= 1 && limit >= 1
    ensures OutOfRange(page, total, limit) <==> total > 0 && RangeFrom(page, limit) >= total
  {
    TotalPagesIsCeiling(total, limit);
    var n := TotalPages(total, limit);
    if total > 0 {
      if page > n {
        assert page - 1 >= n;
        assert (page - 1) * limit >= n * limit by { MulMonotone(n, page - 1, limit); }
      } else {
        assert page - 1 <= n - 1;
        assert (page - 1) * limit <= (n - 1) * limit by { MulMonotone(page - 1, n - 1, limit); }
      }
    }
  }

  lemma MulMonotone(a: int, b: int, c: int)
    requires a <= b && c >= 0
    ensures a * c <= b * c
  {
    assert b * c - a * c == (b - a) * c;
  }

  /** An empty result set is never out of range: page 1 of nothing is still page 1. */
  lemma EmptyNeverOutOfRange(page: int, limit: int)
    requires limit >= 1
    ensures !OutOfRange(page, 0, limit) && TotalPages(0, limit) == 1
  {
  }

  /** The requested range is exactly one page wide. */
  lemma RangeIsOnePage(page: int, limit: int)
    ensures RangeTo(page, limit) - RangeFrom(page, limit) + 1 == limit
    ensures RangeFrom(page + 1, limit) == RangeTo(page, limit) + 1
  {
  }
}
