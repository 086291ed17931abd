/** Documents as the controllers see them: JavaScript objects whose property
    values are JSON-like. A property that an object lacks reads as `undefined`. */
module Documents {

  datatype Value =
    | Undef
    | Null
    | Bool(b: bool)
    | Num(n: int)
    | Str(s: string)
    | Date(t: int)
    | Arr(items: seq<Value>)
    | Obj(fields: map<string, Value>)

  type Doc = map<string, Value>

  /** The field every upsert stamps with the write clock. */
  const SyncedAt: string := "syncedAt"

  /** `doc[field]` in JavaScript: `undefined` when the property is absent. */
  function Get(d: Doc, field: string): Value
  {
    if field in d then d[field] else Undef
  }

  /** JavaScript truthiness of a value (NaN is not modelled). */
  predicate Truthy(v: Value)
  {
    match v
    case Undef => false
    case Null => false
    case Bool(b) => b
    case Num(n) => n != 0
    case Str(s) => s != ""
    case _ => true
  }

  /** The object spread `{ ...d, ...stamp }`: stamp's properties win, every
      other property of `d` is kept. */
  predicate Stamped(r: Doc, d: Doc, stamp: Doc)
  {
    && r.Keys == d.Keys + stamp.Keys
    && (forall f :: f in stamp ==> r[f] == stamp[f])
    && (forall f :: f in d && f !in stamp ==> r[f] == d[f])
  }

  /** Spreads `stamp` over every item, keeping count and order (the
      `items.map(x => ({ ...x, ... }))` of every fetch operation). */
  function Normalize(items: seq<Doc>, stamp: Doc): (docs: seq<Doc>)
    ensures |docs| == |items|
    ensures forall i :: 0 <= i < |items| ==> Stamped(docs[i], items[i], stamp)
  {
    seq(|items|, i requires 0 <= i < |items| => items[i] + stamp)
  }
}
