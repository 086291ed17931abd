/** The query-shaping helpers of the read API: paging and sort options, the
    client's JSON filter, the search clause, and how the two are merged into
    one MongoDB query. A small evaluator gives a query its meaning for one
    stored document; regular-expression matching itself is a parameter. */
module Queries {
  import opened Results
  import opened Documents
  import opened Numbers

  /** `req.query`: the query-string parameters, each a string. A missing key
      reads as `undefined`. */
  type Query = map<string, string>

  /** `query[key]` is truthy: present and not the empty string. */
  predicate Given(q: Query, key: string)
  {
    key in q && q[key] != ""
  }

  /** `query[key]` as an optional string. */
  function Param(q: Query, key: string): Option<string>
  {
    if key in q then Some(q[key]) else None
  }

  // ---------------------------------------------------------------------
  // buildOptions
  // ---------------------------------------------------------------------

  /** `Number(query[key]) || fallback`: NaN (including `Number(undefined)`)
      and zero fall back. */
  function NumberOr(q: Query, key: string, fallback: int): (n: int)
    ensures key in q && ParseNumber(q[key]).Some? && ParseNumber(q[key]).value != 0 ==> n == ParseNumber(q[key]).value
    ensures key !in q || ParseNumber(q[key]) == None || ParseNumber(q[key]) == Some(0) ==> n == fallback
  {
    if key !in q then fallback
    else match ParseNumber(q[key])
      case None => fallback
      case Some(v) => if v == 0 then fallback else v
  }

  datatype Options = Options(page: int, limit: int, skip: int, sort: Doc)

  /** The default sort field. */
  const DefaultSort: string := "createdAt"

  /** `buildOptions(query)`: the page (default 1), the page size (default
      10), how many records earlier pages hold, and a one-field sort. */
  function BuildOptions(q: Query): (r: Options)
    ensures r.page == NumberOr(q, "page", 1) && r.limit == NumberOr(q, "limit", 10)
    ensures r.page != 0 && r.limit != 0
    ensures r.skip == (r.page - 1) * r.limit
    ensures |r.sort| == 1
    ensures Given(q, "sort_by") ==> q["sort_by"] in r.sort
    ensures !Given(q, "sort_by") ==> DefaultSort in r.sort
    ensures forall f :: f in r.sort ==> r.sort[f] == Num(if Param(q, "sort_order") == Some("asc") then 1 else -1)
  {
    var page := NumberOr(q, "page", 1);
    var limit := NumberOr(q, "limit", 10);
    var field := if Given(q, "sort_by") then q["sort_by"] else DefaultSort;
    var order := if Param(q, "sort_order") == Some("asc") then 1 else -1;
    Options(page, limit, (page - 1) * limit, map[field := Num(order)])
  }

  /** A page number and a page size the client sends (written as decimal
      numerals) come back unchanged; zero falls back to the default. */
  lemma OptionsRoundTrip(page: int, limit: int)
    ensures var o := BuildOptions(map["page" := Show(page), "limit" := Show(limit)]);
            && o.page == (if page == 0 then 1 else page)
            && o.limit == (if limit == 0 then 10 else limit)
  {
    ParseShow(page);
    ParseShow(limit);
  }

  /** Without paging parameters the first ten records are served, newest
      first by creation time. */
  lemma OptionsDefaults()
    ensures BuildOptions(map[]) == Options(1, 10, 0, map[DefaultSort := Num(-1)])
  {
  }

  // ---------------------------------------------------------------------
  // buildFilter and the object spread
  // ---------------------------------------------------------------------

  /** A JSON parser: the value a text denotes, or `None` when `JSON.parse`
      throws. Parsing itself is not part of this model. */
  type Parser = string -> Option<Value>

  /** `buildFilter(query)`: no filter, an empty one, or one that does not
      parse all mean "no condition". */
  function BuildFilter(q: Query, parse: Parser): (r: Value)
    ensures !Given(q, "filter") ==> r == Obj(map[])
    ensures Given(q, "filter") && parse(q["filter"]).None? ==> r == Obj(map[])
    ensures Given(q, "filter") && parse(q["filter"]).Some? ==> r == parse(q["filter"]).value
  {
    if !Given(q, "filter") then Obj(map[])
    else match parse(q["filter"])
      case None => Obj(map[])
      case Some(v) => v
  }

  /** The entries an array or a string contributes to a spread: element `i`
      under the key `String(i)`. */
  function Indexed<T>(xs: seq<T>, f: T -> Value): (d: Doc)
    ensures d.Keys == (set i | 0 <= i < |xs| :: Show(i))
    ensures forall i :: 0 <= i < |xs| ==> d[Show(i)] == f(xs[i])
  {
    ShowInjectiveAll();
    map i | 0 <= i < |xs| :: Show(i) := f(xs[i])
  }

  /** `{ ...v }`: an object contributes its properties, an array or a string
      its elements under their decimal indices, anything else nothing. */
  function Spread(v: Value): (d: Doc)
    ensures v.Obj? ==> d == v.fields
    ensures v.Arr? ==> d.Keys == (set i | 0 <= i < |v.items| :: Show(i))
                       && forall i :: 0 <= i < |v.items| ==> d[Show(i)] == v.items[i]
    ensures v.Str? ==> d.Keys == (set i | 0 <= i < |v.s| :: Show(i))
                       && forall i :: 0 <= i < |v.s| ==> d[Show(i)] == Str([v.s[i]])
    ensures !(v.Obj? || v.Arr? || v.Str?) ==> d == map[]
  {
    match v
    case Obj(fields) => fields
    case Arr(items) => Indexed(items, (x: Value) => x)
    case Str(s) => Indexed(s, (ch: char) => Str([ch]))
    case _ => map[]
  }

  // ---------------------------------------------------------------------
  // buildSearchFilter
  // ---------------------------------------------------------------------

  /** `{ [field]: { $regex: term, $options: 'i' } }` */
  function Clause(field: string, term: string): Value
  {
    Obj(map[field := Obj(map["$regex" := Str(term), "$options" := Str("i")])])
  }

  /** `buildSearchFilter(searchTerm, fields)`: nothing without a term or
      without fields; otherwise an `$or` of one case-insensitive regular
      expression clause per field, in field order. */
  function BuildSearchFilter(term: Option<string>, fields: Option<seq<string>>): (r: Doc)
    ensures r == map[] <==> term.None? || term.value == "" || fields.None? || fields.value == []
    ensures r != map[] ==>
              && r.Keys == {"$or"}
              && r["$or"].Arr?
              && |r["$or"].items| == |fields.value|
              && forall i :: 0 <= i < |fields.value| ==> r["$or"].items[i] == Clause(fields.value[i], term.value)
  {
    if term.None? || term.value == "" || fields.None? || fields.value == [] then map[]
    else
      var fs := fields.value;
      var clauses := seq(|fs|, i requires 0 <= i < |fs| => Clause(fs[i], term.value));
      assert "$or" in map["$or" := Arr(clauses)];
      map["$or" := Arr(clauses)]
  }

  // ---------------------------------------------------------------------
  // What a query means
  // ---------------------------------------------------------------------

  /** A regular-expression test: `re(pattern, options, subject)`. */
  type RegexTest = (string, string, string) -> bool

  /** The `$options` of a condition, empty when absent. */
  function OptionsOf(cond: map<string, Value>): string
  {
    if "$options" in cond && cond["$options"].Str? then cond["$options"].s else ""
  }

  /** One field condition: a `$regex` condition tests a string value; any
      other condition is an equality test. */
  predicate FieldMatches(v: Value, cond: Value, re: RegexTest)
  {
    if cond.Obj? && "$regex" in cond.fields && cond.fields["$regex"].Str? then
      v.Str? && re(cond.fields["$regex"].s, OptionsOf(cond.fields), v.s)
    else v == cond
  }

  /** A document satisfies every field condition of a conjunction. */
  predicate AllMatch(d: Doc, conds: map<string, Value>, re: RegexTest)
  {
    forall k :: k in conds ==> FieldMatches(Get(d, k), conds[k], re)
  }

  /** `$or`: some alternative is satisfied. */
  predicate AnyMatch(d: Doc, alternatives: Value, re: RegexTest)
  {
    alternatives.Arr? &&
    exists i :: 0 <= i < |alternatives.items| && alternatives.items[i].Obj?
                && AllMatch(d, alternatives.items[i].fields, re)
  }

  /** Whether `Model.find(q)` selects the document: every top-level key is a
      field condition, except `$or`, which holds alternatives. */
  predicate Matches(d: Doc, q: Doc, re: RegexTest)
  {
    forall k :: k in q ==> if k == "$or" then AnyMatch(d, q[k], re) else FieldMatches(Get(d, k), q[k], re)
  }

  /** A search filter selects exactly the documents in which some searched
      field holds a string the term matches case-insensitively. */
  lemma {:induction false} SearchMeaning(d: Doc, term: string, fields: seq<string>, re: RegexTest)
    requires term != "" && fields != []
    ensures Matches(d, BuildSearchFilter(Some(term), Some(fields)), re)
            <==> exists i :: 0 <= i < |fields| && Get(d, fields[i]).Str? && re(term, "i", Get(d, fields[i]).s)
  {
    var r := BuildSearchFilter(Some(term), Some(fields));
    var alts := r["$or"];
    assert Matches(d, r, re) <==> AnyMatch(d, alts, re);
    forall i | 0 <= i < |fields|
      ensures (alts.items[i].Obj? && AllMatch(d, alts.items[i].fields, re))
              <==> (Get(d, fields[i]).Str? && re(term, "i", Get(d, fields[i]).s))
    {
      var cond := Obj(map["$regex" := Str(term), "$options" := Str("i")]);
      assert alts.items[i].fields == map[fields[i] := cond];
      assert OptionsOf(cond.fields) == "i";
    }
  }

  /** Merging two queries whose keys do not clash selects what both select. */
  lemma MergeMeaning(d: Doc, a: Doc, b: Doc, re: RegexTest)
    requires a.Keys !! b.Keys
    ensures Matches(d, a + b, re) <==> Matches(d, a, re) && Matches(d, b, re)
  {
    if Matches(d, a, re) && Matches(d, b, re) {
      forall k | k in a + b
        ensures if k == "$or" then AnyMatch(d, (a + b)[k], re) else FieldMatches(Get(d, k), (a + b)[k], re)
      {
        if k in b {
          assert (a + b)[k] == b[k];
        } else {
          assert (a + b)[k] == a[k];
        }
      }
    }
    if Matches(d, a + b, re) {
      forall k | k in a
        ensures if k == "$or" then AnyMatch(d, a[k], re) else FieldMatches(Get(d, k), a[k], re)
      {
        assert (a + b)[k] == a[k];
      }
    }
  }
}
