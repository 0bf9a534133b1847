/** Pagination: the metadata `PaginationMetaDto` computes and the pages `findAll` cuts. */
module Paging {
  /** `Math.ceil(total / limit) || 0`. */
  function TotalPages(limit: nat, total: nat): nat
    requires limit > 0
  {
    if total % limit == 0 then total / limit else total / limit + 1
  }

  class PaginationMeta {
    var page: int
    var limit: nat
    var total: nat
    var totalPages: nat
    var hasNextPage: bool
    var hasPreviousPage: bool

    constructor (page: int, limit: nat, total: nat)
      requires limit > 0
      ensures this.page == page && this.limit == limit && this.total == total
      ensures total <= totalPages * limit && (totalPages > 0 ==> (totalPages - 1) * limit < total)
      ensures page >= 1 ==> (hasNextPage <==> page * limit < total)
      ensures hasPreviousPage <==> page > 1
    {
      this.page := page;
      this.limit := limit;
      this.total := total;
      var pages := total / limit;
      if total % limit != 0 {
        pages := pages + 1;
      }
      this.totalPages := pages;
      this.hasNextPage := page < pages;
      this.hasPreviousPage := page > 1;
      new;
      TotalPagesIsLeast(limit, total);
      NextPageExactlyWhenItemsRemain(page, limit, total);
    }
  }

  /** The query's `skip` and `take`. */
  function Page<T>(items: seq<T>, page: nat, limit: nat): seq<T>
    requires page >= 1
  {
    var skip := (page - 1) * limit;
    if skip >= |items| then []
    else if skip + limit >= |items| then items[skip..]
    else items[skip..skip + limit]
  }

  function Pages<T>(items: seq<T>, limit: nat, upTo: nat): seq<T> {
    if upTo == 0 then [] else Pages(items, limit, upTo - 1) + Page(items, upTo, limit)
  }

  /** The number of pages is the least that holds all items. */
  lemma TotalPagesIsLeast(limit: nat, total: nat)
    requires limit > 0
    ensures total <= TotalPages(limit, total) * limit
    ensures TotalPages(limit, total) > 0 ==> (TotalPages(limit, total) - 1) * limit < total
  {
    var q, n := total / limit, TotalPages(limit, total);
    assert total == q * limit + total % limit;
    assert (q + 1) * limit == q * limit + limit;
    assert n > 0 ==> (n - 1) * limit == n * limit - limit;
  }

  lemma Scaled(a: nat, b: nat, limit: nat)
    requires a <= b
    ensures a * limit <= b * limit
  {
  }

  lemma NextPageExactlyWhenItemsRemain(page: int, limit: nat, total: nat)
    requires limit > 0
    ensures page >= 0 ==> (page < TotalPages(limit, total) <==> page * limit < total)
  {
    var n := TotalPages(limit, total);
    TotalPagesIsLeast(limit, total);
    if 0 <= page < n {
      Scaled(page, n - 1, limit);
    } else if page >= n {
      Scaled(n, page, limit);
    }
  }

  lemma {:induction false} PagesArePrefix<T>(items: seq<T>, limit: nat, upTo: nat)
    requires limit > 0
    ensures Pages(items, limit, upTo) == if upTo * limit >= |items| then items else items[..upTo * limit]
    decreases upTo
  {
    if upTo > 0 {
      PagesArePrefix(items, limit, upTo - 1);
      var skip := (upTo - 1) * limit;
      assert upTo * limit == skip + limit;
      if skip < |items| {
        assert items == items[..skip] + items[skip..];
        if skip + limit < |items| {
          assert items[..skip + limit] == items[..skip] + items[skip..skip + limit];
        }
      }
    }
  }

  lemma PageSize<T>(items: seq<T>, page: nat, limit: nat)
    requires limit > 0 && page >= 1
    ensures page < TotalPages(limit, |items|) ==> |Page(items, page, limit)| == limit
    ensures page == TotalPages(limit, |items|) ==> 0 < |Page(items, page, limit)| <= limit
    ensures page > TotalPages(limit, |items|) ==> Page(items, page, limit) == []
  {
    assert page * limit == (page - 1) * limit + limit;
    TotalPagesIsLeast(limit, |items|);
    NextPageExactlyWhenItemsRemain(page, limit, |items|);
    NextPageExactlyWhenItemsRemain(page - 1, limit, |items|);
  }

  /** Paging partitions the result: pages 1..totalPages joined are the whole list, every
      page but the last is full, the last is not empty, and there is nothing beyond it. */
  lemma PagesPartition<T>(items: seq<T>, limit: nat)
    requires limit > 0
    ensures var n := TotalPages(limit, |items|);
            && Pages(items, limit, n) == items
            && (forall p :: 1 <= p < n ==> |Page(items, p, limit)| == limit)
            && (n > 0 ==> 0 < |Page(items, n, limit)| <= limit)
            && (forall p :: p > n ==> Page(items, p, limit) == [])
  {
    var n := TotalPages(limit, |items|);
    TotalPagesIsLeast(limit, |items|);
    PagesArePrefix(items, limit, n);
    forall p: nat | p >= 1
      ensures p < n ==> |Page(items, p, limit)| == limit
      ensures p == n ==> 0 < |Page(items, p, limit)| <= limit
      ensures p > n ==> Page(items, p, limit) == []
    {
      PageSize(items, p, limit);
    }
  }
}
