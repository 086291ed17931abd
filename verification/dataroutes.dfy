/** The read API of the data routes: the paged listing of one collection and
    the keyword search across all of them. The database is a parameter: a
    `find` that lists the documents a query selects (already sorted, skipped
    and limited where the route asks for it) and a `count`. */
module DataRoutes {
  import opened Results
  import opened Documents
  import opened Collections
  import opened Queries

  // ---------------------------------------------------------------------
  // formatResponse
  // ---------------------------------------------------------------------

  /** `Math.ceil(a / b)` for integers; `None` stands for the non-finite result
      (Infinity or NaN) of a division by zero. */
  function CeilDiv(a: int, b: int): (r: Option<int>)
    ensures r.None? <==> b == 0
    ensures b > 0 ==> (r.value - 1) * b < a <= r.value * b
    ensures b < 0 ==> r.value * b <= a < (r.value - 1) * b
  {
    if b == 0 then None
    else if b > 0 then Some(-((-a) / b))
    else Some(-(a / (-b)))
  }

  datatype PageInfo = PageInfo(page: int, limit: int, total: nat, totalPages: Option<int>, hasNext: bool, hasPrev: bool)

  datatype Paginated = Paginated(data: seq<Doc>, pagination: PageInfo)

  /** `formatResponse(data, total, page, limit)`. */
  function FormatResponse(data: seq<Doc>, total: nat, page: int, limit: int): (r: Paginated)
    ensures r.data == data
    ensures r.pagination.page == page && r.pagination.limit == limit && r.pagination.total == total
    ensures r.pagination.totalPages.None? <==> limit == 0
    ensures limit > 0 ==> (r.pagination.totalPages.value - 1) * limit < total <= r.pagination.totalPages.value * limit
    ensures r.pagination.hasNext <==> page * limit < total
    ensures r.pagination.hasPrev <==> page > 1
  {
    Paginated(data, PageInfo(page, limit, total, CeilDiv(total, limit), page * limit < total, page > 1))
  }

  lemma MulLess(x: int, y: int, b: int)
    requires b > 0 && x < y
    ensures x * b < y * b
  {
    assert y * b - x * b == (y - x) * b;
  }

  /** With a positive page size there is a next page exactly when the page
      number is below the page count. */
  lemma NextIffBelowPageCount(data: seq<Doc>, total: nat, page: int, limit: int)
    requires limit > 0
    ensures var p := FormatResponse(data, total, page, limit).pagination;
            p.hasNext <==> page < p.totalPages.value
  {
    var p := FormatResponse(data, total, page, limit).pagination;
    var n := p.totalPages.value;
    if page < n {
      if page < n - 1 {
        MulLess(page, n - 1, limit);
      }
    } else {
      if n < page {
        MulLess(n, page, limit);
      }
    }
  }

  /** For the options a request yields (a positive page and page size): there
      is a previous page exactly when records are skipped, and a next page
      exactly when records remain after this one. */
  lemma OptionsAgreeWithPaging(q: Query, data: seq<Doc>, total: nat)
    requires BuildOptions(q).page >= 1 && BuildOptions(q).limit >= 1
    ensures var o := BuildOptions(q);
            var p := FormatResponse(data, total, o.page, o.limit).pagination;
            && (p.hasPrev <==> o.skip > 0)
            && (p.hasNext <==> o.skip + o.limit < total)
            && (p.hasNext <==> o.page < p.totalPages.value)
  {
    var o := BuildOptions(q);
    NextIffBelowPageCount(data, total, o.page, o.limit);
    SkipArith(o.page, o.limit, o.skip);
  }

  lemma SkipArith(page: int, limit: int, skip: int)
    requires page >= 1 && limit >= 1 && skip == (page - 1) * limit
    ensures skip > 0 <==> page > 1
    ensures skip + limit == page * limit
  {
    if page > 1 {
      MulLess(0, page - 1, limit);
    }
  }

  // ---------------------------------------------------------------------
  // getCollection
  // ---------------------------------------------------------------------

  /** `Model.find(query).sort(..).skip(..).limit(..)`: what the database
      returns for a collection, a query and the paging options, or its
      rejection of the query (an invalid `$regex`, an unknown operator). */
  type Find = (Coll, Doc, Options) -> Result<seq<Doc>>

  /** `Model.countDocuments(query)`, or its rejection of the query. */
  type Count = (Coll, Doc) -> Result<nat>

  /** `{ ...filter, ...search }`: the client's filter, overridden key by key by
      the search clause for the collection's searched fields. A filter that
      parses to a number, a boolean or null spreads to nothing. */
  function CollectionQuery(c: Coll, q: Query, parse: Parser): (r: Doc)
    ensures var filter := Spread(BuildFilter(q, parse));
            var search := BuildSearchFilter(Param(q, "search"), Some(SearchFields(c)));
            && r.Keys == filter.Keys + search.Keys
            && (forall k :: k in search ==> r[k] == search[k])
            && (forall k :: k in filter && k !in search ==> r[k] == filter[k])
    ensures var f := BuildFilter(q, parse);
            !(f.Obj? || f.Arr? || f.Str?) ==> r == BuildSearchFilter(Param(q, "search"), Some(SearchFields(c)))
  {
    Spread(BuildFilter(q, parse)) + BuildSearchFilter(Param(q, "search"), Some(SearchFields(c)))
  }

  /** `getCollection(req, res)`: the page of the named collection that the
      query asks for, or `Collection not found`. A query the database
      rejects fails the request; nothing catches it. */
  function GetCollection(name: string, q: Query, parse: Parser, find: Find, count: Count): (r: Result<Paginated>)
    ensures Lookup(name).None? ==> r == Failure(CollectionNotFound)
    ensures Lookup(name).Some? ==>
              var c := Lookup(name).value;
              var o := BuildOptions(q);
              var query := CollectionQuery(c, q, parse);
              && Name(c) == name
              && (r.Success? <==> find(c, query, o).Success? && count(c, query).Success?)
              && (find(c, query, o).Failure? ==> r == Failure(find(c, query, o).error))
              && (find(c, query, o).Success? && count(c, query).Failure? ==> r == Failure(count(c, query).error))
    ensures r.Success? ==>
              var c := Lookup(name).value;
              var o := BuildOptions(q);
              var query := CollectionQuery(c, q, parse);
              && r.value.data == find(c, query, o).value
              && r.value.pagination.total == count(c, query).value
              && r.value.pagination.page == o.page
              && r.value.pagination.limit == o.limit
              && r.value.pagination.totalPages.Some?
  {
    match Lookup(name)
    case None => Failure(CollectionNotFound)
    case Some(c) =>
      var o := BuildOptions(q);
      var query := CollectionQuery(c, q, parse);
      match find(c, query, o)
      case Failure(e) => Failure(e)
      case Success(data) =>
        match count(c, query)
        case Failure(e) => Failure(e)
        case Success(total) => Success(FormatResponse(data, total, o.page, o.limit))
  }

  /** With a search term and a filter object that has no `$or` of its own, the
      listing selects the documents the filter selects that also match the
      term in one of the collection's searched fields. */
  lemma CollectionQueryMeaning(c: Coll, q: Query, parse: Parser, d: Doc, re: RegexTest)
    requires Given(q, "search")
    requires BuildFilter(q, parse).Obj? && "$or" !in BuildFilter(q, parse).fields
    ensures var filter := BuildFilter(q, parse).fields;
            var fields := SearchFields(c);
            Matches(d, CollectionQuery(c, q, parse), re)
            <==> && Matches(d, filter, re)
                 && exists i :: 0 <= i < |fields| && Get(d, fields[i]).Str? && re(q["search"], "i", Get(d, fields[i]).s)
  {
    var filter := BuildFilter(q, parse).fields;
    var search := BuildSearchFilter(Param(q, "search"), Some(SearchFields(c)));
    assert CollectionQuery(c, q, parse) == filter + search;
    MergeMeaning(d, filter, search, re);
    SearchMeaning(d, q["search"], SearchFields(c), re);
  }

  // ---------------------------------------------------------------------
  // search
  // ---------------------------------------------------------------------

  /** `Model.find(query)`: every document the query selects, in the
      database's natural order, or its rejection of the query. */
  type FindAll = (Coll, Doc) -> Result<seq<Doc>>

  /** How many documents search returns per collection. */
  const SearchLimit: nat := 10

  /** `.limit(n)`: at most the first `n`. */
  function Take(s: seq<Doc>, n: nat): (r: seq<Doc>)
    ensures |r| <= n && r <= s
    ensures |r| == if |s| <= n then |s| else n
    ensures |s| <= n ==> r == s
  {
    if |s| <= n then s else s[..n]
  }

  /** The search query for one collection. */
  function SearchQuery(c: Coll, keyword: string): Doc
  {
    BuildSearchFilter(Some(keyword), Some(SearchFields(c)))
  }

  /** What the database answers for a keyword in one collection. */
  function Hits(c: Coll, keyword: string, find: FindAll): Result<seq<Doc>>
  {
    find(c, SearchQuery(c, keyword))
  }

  /** The database finds something for the keyword in the collection. */
  predicate HasHits(c: Coll, keyword: string, find: FindAll)
  {
    Hits(c, keyword, find).Success? && Hits(c, keyword, find).value != []
  }

  /** The database answers the keyword's query in every collection of the
      list. */
  predicate Answered(cs: seq<Coll>, keyword: string, find: FindAll)
  {
    forall c :: c in cs ==> Hits(c, keyword, find).Success?
  }

  /** Different collections are listed under different names. */
  lemma NamesDiffer()
    ensures forall a: Coll, b: Coll :: Name(a) == Name(b) ==> a == b
  {
    forall a: Coll, b: Coll | Name(a) == Name(b)
      ensures a == b
    {
      LookupName(a);
      LookupName(b);
    }
  }

  /** The loop over the `models` table: each collection whose search returns
      something is added under its name with its first hits; the first
      rejected query ends the loop with its failure. */
  function Gather(cs: seq<Coll>, keyword: string, find: FindAll, acc: map<string, seq<Doc>>): (r: Result<map<string, seq<Doc>>>)
    ensures r.Success? <==> Answered(cs, keyword, find)
    ensures r.Success? ==> acc.Keys <= r.value.Keys
    decreases |cs|
  {
    if cs == [] then Success(acc)
    else
      match Hits(cs[0], keyword, find)
      case Failure(e) => Failure(e)
      case Success(hits) =>
        var data := Take(hits, SearchLimit);
        Gather(cs[1..], keyword, find, if data != [] then acc[Name(cs[0]) := data] else acc)
  }

  /** The accumulator after the first collection of the loop. */
  function Next(cs: seq<Coll>, keyword: string, find: FindAll, acc: map<string, seq<Doc>>): map<string, seq<Doc>>
    requires cs != [] && Hits(cs[0], keyword, find).Success?
  {
    var data := Take(Hits(cs[0], keyword, find).value, SearchLimit);
    if data != [] then acc[Name(cs[0]) := data] else acc
  }

  /** A failed loop carries the failure of the first collection, in loop
      order, whose query the database rejected. */
  lemma {:induction false} GatherFails(cs: seq<Coll>, keyword: string, find: FindAll, acc: map<string, seq<Doc>>)
    ensures var r := Gather(cs, keyword, find, acc);
            r.Failure? ==>
              exists i :: 0 <= i < |cs| && Hits(cs[i], keyword, find) == Failure(r.error)
                          && forall j :: 0 <= j < i ==> Hits(cs[j], keyword, find).Success?
    decreases |cs|
  {
    var r := Gather(cs, keyword, find, acc);
    if r.Failure? && Hits(cs[0], keyword, find).Success? {
      var tail := cs[1..];
      GatherFails(tail, keyword, find, Next(cs, keyword, find, acc));
      var i :| 0 <= i < |tail| && Hits(tail[i], keyword, find) == Failure(r.error)
               && forall j :: 0 <= j < i ==> Hits(tail[j], keyword, find).Success?;
      assert cs[i + 1] == tail[i];
      forall j | 0 <= j < i + 1
        ensures Hits(cs[j], keyword, find).Success?
      {
        if j > 0 {
          assert cs[j] == tail[j - 1];
        }
      }
    }
  }

  /** A name is listed when it was already, or when a collection of that name
      has hits. */
  lemma {:induction false} GatherKeys(cs: seq<Coll>, keyword: string, find: FindAll, acc: map<string, seq<Doc>>, n: string)
    ensures var r := Gather(cs, keyword, find, acc);
            r.Success? ==> (n in r.value <==> n in acc || exists c :: c in cs && Name(c) == n && HasHits(c, keyword, find))
    decreases |cs|
  {
    if cs != [] && Gather(cs, keyword, find, acc).Success? {
      GatherKeys(cs[1..], keyword, find, Next(cs, keyword, find, acc), n);
      if n !in acc && exists c :: c in cs && Name(c) == n && HasHits(c, keyword, find) {
        var c :| c in cs && Name(c) == n && HasHits(c, keyword, find);
        if c != cs[0] {
          assert c in cs[1..];
        }
      }
    }
  }

  /** A name no collection of the loop carries keeps its earlier entry. */
  lemma {:induction false} GatherKeeps(cs: seq<Coll>, keyword: string, find: FindAll, acc: map<string, seq<Doc>>, n: string)
    requires n in acc && forall c :: c in cs ==> Name(c) != n
    ensures var r := Gather(cs, keyword, find, acc);
            r.Success? ==> r.value[n] == acc[n]
    decreases |cs|
  {
    if cs != [] && Gather(cs, keyword, find, acc).Success? {
      GatherKeeps(cs[1..], keyword, find, Next(cs, keyword, find, acc), n);
    }
  }

  /** A collection of the loop that has hits is listed with its first hits. */
  lemma {:induction false} GatherValue(cs: seq<Coll>, keyword: string, find: FindAll, acc: map<string, seq<Doc>>, c: Coll)
    requires c in cs && HasHits(c, keyword, find)
    ensures var r := Gather(cs, keyword, find, acc);
            r.Success? ==> Name(c) in r.value && r.value[Name(c)] == Take(Hits(c, keyword, find).value, SearchLimit)
    decreases |cs|
  {
    if Gather(cs, keyword, find, acc).Success? {
      var acc' := Next(cs, keyword, find, acc);
      if c in cs[1..] {
        GatherValue(cs[1..], keyword, find, acc', c);
      } else {
        assert c == cs[0];
        NamesDiffer();
        GatherKeeps(cs[1..], keyword, find, acc', Name(c));
      }
    }
  }

  /** The `models` table lists every collection. */
  lemma AllCollsComplete(c: Coll)
    ensures c in AllColls
  {
    match c
    case Organizations => assert AllColls[0] == c;
    case Repos => assert AllColls[1] == c;
    case Commits => assert AllColls[2] == c;
    case Pulls => assert AllColls[3] == c;
    case Issues => assert AllColls[4] == c;
    case Changelogs => assert AllColls[5] == c;
    case Users => assert AllColls[6] == c;
  }

  /** Searching the whole table lists one collection exactly when it has a
      hit, with its first hits. */
  lemma GatherOne(keyword: string, find: FindAll, c: Coll)
    ensures var r := Gather(AllColls, keyword, find, map[]);
            r.Success? ==>
              && (Name(c) in r.value <==> HasHits(c, keyword, find))
              && (Name(c) in r.value ==> r.value[Name(c)] == Take(Hits(c, keyword, find).value, SearchLimit))
  {
    AllCollsComplete(c);
    GatherKeys(AllColls, keyword, find, map[], Name(c));
    var r := Gather(AllColls, keyword, find, map[]);
    if r.Success? && Name(c) in r.value {
      NamesDiffer();
      GatherValue(AllColls, keyword, find, map[], c);
    }
  }

  /** Searching the whole table lists nothing but collection names. */
  lemma GatherNames(keyword: string, find: FindAll, n: string)
    ensures var r := Gather(AllColls, keyword, find, map[]);
            r.Success? && n in r.value ==> Lookup(n).Some?
  {
    GatherKeys(AllColls, keyword, find, map[], n);
    var r := Gather(AllColls, keyword, find, map[]);
    if r.Success? && n in r.value {
      var c :| c in AllColls && Name(c) == n;
      LookupName(c);
    }
  }

  /** Searching the whole table succeeds exactly when the database answers
      the keyword's query in every collection. */
  lemma GatherAnswered(keyword: string, find: FindAll)
    ensures Gather(AllColls, keyword, find, map[]).Success? <==> forall c: Coll :: Hits(c, keyword, find).Success?
  {
    forall c: Coll
      ensures c in AllColls
    {
      AllCollsComplete(c);
    }
  }

  lemma GatherAll(keyword: string, find: FindAll)
    ensures var r := Gather(AllColls, keyword, find, map[]);
            && (r.Success? <==> forall c: Coll :: Hits(c, keyword, find).Success?)
            && (r.Failure? ==>
                  exists i :: 0 <= i < |AllColls| && Hits(AllColls[i], keyword, find) == Failure(r.error)
                              && forall j :: 0 <= j < i ==> Hits(AllColls[j], keyword, find).Success?)
            && (r.Success? ==> forall n :: n in r.value ==> Lookup(n).Some?)
            && (r.Success? ==> forall c: Coll :: Name(c) in r.value <==> HasHits(c, keyword, find))
            && (r.Success? ==> forall c: Coll :: Name(c) in r.value ==> r.value[Name(c)] == Take(Hits(c, keyword, find).value, SearchLimit))
  {
    forall c: Coll {
      GatherOne(keyword, find, c);
    }
    forall n: string {
      GatherNames(keyword, find, n);
    }
    GatherAnswered(keyword, find);
    GatherFails(AllColls, keyword, find, map[]);
  }

  /** `search(req, res)`: the keyword `q` is required. The result lists, under
      its name, every collection in which the keyword finds something, with at
      most the first ten hits, and no other key. The first collection, in
      table order, whose query the database rejects fails the request. */
  function Search(q: Query, find: FindAll): (r: Result<map<string, seq<Doc>>>)
    ensures !Given(q, "q") ==> r == Failure(SearchQueryMissing)
    ensures Given(q, "q") ==> (r.Success? <==> forall c: Coll :: Hits(c, q["q"], find).Success?)
    ensures Given(q, "q") && r.Failure? ==>
              exists i :: 0 <= i < |AllColls| && Hits(AllColls[i], q["q"], find) == Failure(r.error)
                          && forall j :: 0 <= j < i ==> Hits(AllColls[j], q["q"], find).Success?
    ensures r.Success? ==> forall n :: n in r.value ==> Lookup(n).Some?
    ensures r.Success? ==> forall c: Coll ::
              && (Name(c) in r.value <==> HasHits(c, q["q"], find))
              && (Name(c) in r.value ==> r.value[Name(c)] == Take(Hits(c, q["q"], find).value, SearchLimit))
  {
    if !Given(q, "q") then Failure(SearchQueryMissing)
    else
      GatherAll(q["q"], find);
      Gather(AllColls, q["q"], find, map[])
  }
}
