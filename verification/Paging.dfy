/** Listing subscriptions page by page, and the shared pagination response. */
module Paging {
  function Min(a: nat, b: nat): nat {
    if a < b then a else b
  }

  datatype Found<T> = Found(subscriptions: seq<T>, total: nat, hasMore: bool)

  /** `rows` is the filtered list in the order of the query; `skip` and `take` cut a page out. */
  function FindAll<T>(rows: seq<T>, page: nat, limit: nat): Found<T>
    requires page >= 1
  {
    var skip := (page - 1) * limit;
    var found := rows[Min(skip, |rows|)..Min(skip + limit, |rows|)];
    Found(found, |rows|, skip + |found| < |rows|)
  }

  datatype PaginationMeta = PaginationMeta(currentPage: nat, perPage: nat, totalItems: nat, totalPages: nat,
                                           hasNextPage: bool, hasPreviousPage: bool)

  /** `Math.ceil(totalItems / limit)`. */
  function TotalPages(totalItems: nat, limit: nat): nat
    requires limit >= 1
  {
    totalItems / limit + if totalItems % limit == 0 then 0 else 1
  }

  function PaginatedMeta(page: nat, limit: nat, totalItems: nat): PaginationMeta
    requires limit >= 1
  {
    var totalPages := TotalPages(totalItems, limit);
    PaginationMeta(page, limit, totalItems, totalPages, page < totalPages, page > 1)
  }

  lemma {:induction false} PagesCover(total: nat, limit: nat, page: nat)
    requires limit >= 1
    ensures page < TotalPages(total, limit) <==> page * limit < total
  {
    var q, r := total / limit, total % limit;
    assert total == q * limit + r;
    if page < q {
      assert (page + 1) * limit <= q * limit;
      assert (page + 1) * limit == page * limit + limit;
    } else if page > q {
      assert (q + 1) * limit <= page * limit;
      assert (q + 1) * limit == q * limit + limit;
    }
  }

  /** For every page and page size the validators admit, the two ways of saying that there is a
      next page agree. */
  lemma {:induction false} HasMoreAgrees<T>(rows: seq<T>, page: nat, limit: nat)
    requires page >= 1 && limit >= 1
    ensures FindAll(rows, page, limit).hasMore == PaginatedMeta(page, limit, |rows|).hasNextPage
  {
    PagesCover(|rows|, limit, page);
    assert page * limit == (page - 1) * limit + limit;
  }

  /** Asks for page after page while there is more. */
  function Follow<T>(rows: seq<T>, page: nat, limit: nat): seq<T>
    requires page >= 1 && limit >= 1
    decreases |rows| - (page - 1) * limit
  {
    var f := FindAll(rows, page, limit);
    assert page * limit == (page - 1) * limit + limit;
    f.subscriptions + if f.hasMore then Follow(rows, page + 1, limit) else []
  }

  lemma {:induction false} FollowFrom<T>(rows: seq<T>, page: nat, limit: nat)
    requires page >= 1 && limit >= 1
    ensures Follow(rows, page, limit) == rows[Min((page - 1) * limit, |rows|)..]
    decreases |rows| - (page - 1) * limit
  {
    var f := FindAll(rows, page, limit);
    assert page * limit == (page - 1) * limit + limit;
    if f.hasMore {
      FollowFrom(rows, page + 1, limit);
    }
  }

  /** Following `hasMore` from the first page ends and yields the whole list, each row once. */
  lemma {:induction false} FollowingYieldsAll<T>(rows: seq<T>, limit: nat)
    requires limit >= 1
    ensures Follow(rows, 1, limit) == rows
  {
    FollowFrom(rows, 1, limit);
  }

  /** What a page holds: the rows from its place on, at most `limit` of them and fewer only at the
      end of the list; the total is that of the whole list. */
  lemma {:induction false} PageHolds<T>(rows: seq<T>, page: nat, limit: nat)
    requires page >= 1 && limit >= 1
    ensures var f, start := FindAll(rows, page, limit), (page - 1) * limit;
            && f.total == |rows| && |f.subscriptions| <= limit
            && (forall k :: 0 <= k < |f.subscriptions| ==>
                              start + k < |rows| && f.subscriptions[k] == rows[start + k])
            && (|f.subscriptions| < limit ==> start + |f.subscriptions| >= |rows|)
  {
    var start := (page - 1) * limit;
    assert start >= 0;
  }

  /** The shared response: what was asked for, the total, the least number of pages that hold it,
      and whether another page comes before or after. */
  lemma {:induction false} MetaTells(page: nat, limit: nat, total: nat, n: nat)
    requires page >= 1 && limit >= 1
    ensures var m := PaginatedMeta(page, limit, total);
            && m.currentPage == page && m.perPage == limit && m.totalItems == total
            && (m.totalPages <= n <==> n * limit >= total)
            && (m.hasPreviousPage <==> page != 1) && (m.hasNextPage <==> page * limit < total)
  {
    PagesCover(total, limit, n);
    PagesCover(total, limit, page);
  }
}
