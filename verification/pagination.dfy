/** The pagination loop of the sync engine (`fetchAllPages`).

    The upstream listing is a finite sequence of pages: page number `n`
    (1-based) is `pages[n - 1]`, and every page past the end is empty. Under
    that assumption the loop always terminates. */
module Pagination {

  /** The default `perPage` of `fetchAllPages`. */
  const DefaultPerPage: nat := 100

  /** The items the upstream returns when asked for page `n`. */
  function PageAt<T>(pages: seq<seq<T>>, n: nat): seq<T>
  {
    if 1 <= n <= |pages| then pages[n - 1] else []
  }

  /** A page after which the loop stops: empty, or shorter than `perPage`. */
  predicate IsLast<T>(page: seq<T>, perPage: nat)
  {
    |page| == 0 || |page| < perPage
  }

  /** Pages `lo` .. `hi - 1` concatenated in request order. */
  function Concat<T>(pages: seq<seq<T>>, lo: nat, hi: nat): seq<T>
    requires lo <= hi
    decreases hi - lo
  {
    if lo == hi then [] else PageAt(pages, lo) + Concat(pages, lo + 1, hi)
  }

  /** One call `fetchFn(page, perPage)`. */
  datatype Request = Request(page: nat, perPage: nat)

  /** What a run of the loop produced: the accumulated items and the number
      of page requests it made. */
  datatype Fetched<T> = Fetched(items: seq<T>, calls: nat)

  /** `calls` is the number of requests the loop makes when it starts at page
      `lo`: every page before the last one requested is full, the last one
      is not. */
  ghost predicate StopsAfter<T>(pages: seq<seq<T>>, perPage: nat, lo: nat, calls: nat)
  {
    && calls >= 1
    && (forall n :: lo <= n < lo + calls - 1 ==> !IsLast(PageAt(pages, n), perPage))
    && IsLast(PageAt(pages, lo + calls - 1), perPage)
  }

  /** The loop from page `lo` on: request the page, stop if it is empty,
      append it, stop if it is short, otherwise go on with the next page. */
  function FetchFrom<T>(pages: seq<seq<T>>, perPage: nat, lo: nat): (r: Fetched<T>)
    requires lo >= 1
    ensures StopsAfter(pages, perPage, lo, r.calls)
    ensures r.items == Concat(pages, lo, lo + r.calls)
    ensures lo <= |pages| + 1 ==> lo + r.calls <= |pages| + 2
    decreases |pages| + 1 - lo
  {
    var page := PageAt(pages, lo);
    if |page| == 0 then Fetched([], 1)
    else if |page| < perPage then
      assert Concat(pages, lo + 1, lo + 1) == [];
      Fetched(page, 1)
    else
      var rest := FetchFrom(pages, perPage, lo + 1);
      Fetched(page + rest.items, rest.calls + 1)
  }

  /** `fetchAllPages(fetchFn, perPage)`: starts at page 1. */
  function FetchAllPages<T>(pages: seq<seq<T>>, perPage: nat): (r: Fetched<T>)
    ensures StopsAfter(pages, perPage, 1, r.calls)
    ensures r.items == Concat(pages, 1, 1 + r.calls)
    ensures r.calls <= |pages| + 1
  {
    FetchFrom(pages, perPage, 1)
  }

  /** The stopping rule fixes the number of calls: it is the first page that is
      empty or short, so two runs over the same upstream agree. */
  lemma CallsUnique<T>(pages: seq<seq<T>>, perPage: nat, lo: nat, c1: nat, c2: nat)
    requires StopsAfter(pages, perPage, lo, c1)
    requires StopsAfter(pages, perPage, lo, c2)
    ensures c1 == c2
  {
  }

  /** The loop as written: `while (true)` with its two `break`s, recording
      every request it makes. */
  method FetchAllPagesLoop<T>(pages: seq<seq<T>>, perPage: nat) returns (items: seq<T>, requests: seq<Request>)
    ensures |requests| >= 1
    ensures forall i :: 0 <= i < |requests| ==> requests[i] == Request(i + 1, perPage)
    ensures StopsAfter(pages, perPage, 1, |requests|)
    ensures items == Concat(pages, 1, 1 + |requests|)
  {
    items := [];
    requests := [];
    var page: nat := 1;
    while true
      invariant page == |requests| + 1
      invariant page <= |pages| + 1
      invariant forall i :: 0 <= i < |requests| ==> requests[i] == Request(i + 1, perPage)
      invariant forall n :: 1 <= n < page ==> !IsLast(PageAt(pages, n), perPage)
      invariant items == Concat(pages, 1, page)
      decreases |pages| + 1 - page
    {
      var got := PageAt(pages, page);
      requests := requests + [Request(page, perPage)];
      ConcatSnoc(pages, 1, page);
      if |got| == 0 {
        return;
      }
      items := items + got;
      if |got| < perPage {
        return;
      }
      page := page + 1;
    }
  }

  /** Extending the requested range by one page appends that page. */
  lemma {:induction false} ConcatSnoc<T>(pages: seq<seq<T>>, lo: nat, hi: nat)
    requires lo <= hi
    ensures Concat(pages, lo, hi + 1) == Concat(pages, lo, hi) + PageAt(pages, hi)
    decreases hi - lo
  {
    if lo < hi {
      ConcatSnoc(pages, lo + 1, hi);
    }
  }

  /** Page sizes [100, 100, 37] with `perPage` 100 give 237 items after 3 calls. */
  lemma ThreePages(a: seq<int>, b: seq<int>, c: seq<int>)
    requires |a| == 100 && |b| == 100 && |c| == 37
    ensures FetchAllPages([a, b, c], 100).calls == 3
    ensures FetchAllPages([a, b, c], 100).items == a + b + c
    ensures |FetchAllPages([a, b, c], 100).items| == 237
  {
    var pages := [a, b, c];
    assert PageAt(pages, 1) == a && PageAt(pages, 2) == b && PageAt(pages, 3) == c;
    assert FetchFrom(pages, 100, 3) == Fetched(c, 1);
    assert FetchFrom(pages, 100, 2) == Fetched(b + c, 2);
    assert FetchFrom(pages, 100, 1) == Fetched(a + (b + c), 3);
  }

  /** An upstream whose first page is empty yields no items after one call. */
  lemma EmptyFirstPage<T>(pages: seq<seq<T>>, perPage: nat)
    requires PageAt(pages, 1) == []
    ensures FetchAllPages(pages, perPage) == Fetched([], 1)
  {
  }
}
