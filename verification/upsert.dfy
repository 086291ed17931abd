/** The keyed bulk upsert (`bulkUpsert`) and the store-side meaning of the
    batch it sends: one `updateOne` per document, filtered on the unique
    field, `$set` of the document's fields plus a `syncedAt` stamp, with
    `upsert: true`, applied in order. */
module Upsert {
  import opened Documents

  /** A collection: one record per value of its unique field. */
  type Collection = map<Value, Doc>

  /** `{ updateOne: { filter: { [field]: key }, update: { $set: set }, upsert: true } }` */
  datatype UpdateOne = UpdateOne(key: Value, update: Doc)

  /** The `syncedAt: new Date()` stamp: bulkUpsert adds it to every document of a batch, and resyncAllData to organisations and repositories. */
  function WriteStamp(now: int): Doc
  {
    map[SyncedAt := Date(now)]
  }

  /** The `docs.map(...)` that builds the batch. */
  function BuildOps(docs: seq<Doc>, field: string, now: int): (ops: seq<UpdateOne>)
    ensures |ops| == |docs|
    ensures forall i :: 0 <= i < |docs| ==>
              ops[i].key == Get(docs[i], field) && Stamped(ops[i].update, docs[i], WriteStamp(now))
  {
    seq(|docs|, i requires 0 <= i < |docs| => UpdateOne(Get(docs[i], field), docs[i] + WriteStamp(now)))
  }

  /** The record an `updateOne` starts from: the record matching the filter,
      or, when none matches, a fresh record holding only the filter field. */
  function Base(m: Collection, field: string, key: Value): Doc
  {
    if key in m then m[key] else map[field := key]
  }

  /** `$set` of `fields` on the record under `key`, inserting it if absent. */
  function Touch(m: Collection, field: string, key: Value, fields: Doc): Collection
  {
    m[key := Base(m, field, key) + fields]
  }

  function ApplyOne(m: Collection, field: string, op: UpdateOne): Collection
  {
    Touch(m, field, op.key, op.update)
  }

  /** The keys a sequence of operations filters on. */
  function Targets(ops: seq<UpdateOne>): set<Value>
  {
    if ops == [] then {} else {ops[0].key} + Targets(ops[1..])
  }

  /** The field names the operations on `key` set. */
  function Covered(ops: seq<UpdateOne>, key: Value): set<string>
  {
    if ops == [] then {}
    else (if ops[0].key == key then ops[0].update.Keys else {}) + Covered(ops[1..], key)
  }

  /** `Model.bulkWrite(operations)`: the operations applied in order. Keys
      outside the batch keep their records; every filtered key ends up present. */
  function BulkWrite(m: Collection, field: string, ops: seq<UpdateOne>): (r: Collection)
    ensures r.Keys == m.Keys + Targets(ops)
    ensures forall k :: k in m && k !in Targets(ops) ==> r[k] == m[k]
    decreases |ops|
  {
    if ops == [] then m else BulkWrite(ApplyOne(m, field, ops[0]), field, ops[1..])
  }

  /** The unique-field values of a batch. */
  function KeysOf(docs: seq<Doc>, field: string): set<Value>
  {
    set i | 0 <= i < |docs| :: Get(docs[i], field)
  }

  /** What `bulkUpsert` leaves behind: the collection, how many `bulkWrite`
      calls it issued, and what it returned. */
  datatype Upserted = Upserted(coll: Collection, writes: nat, returned: seq<Doc>)

  /** `bulkUpsert(Model, docs, uniqueField)`: no write at all for an empty
      batch; otherwise one `bulkWrite` whose effect is that every document's
      key is present (inserted if it was absent) and holds at least that
      document's fields, while every other record is untouched. */
  function BulkUpsert(m: Collection, docs: seq<Doc>, field: string, now: int): (r: Upserted)
    ensures docs == [] ==> r == Upserted(m, 0, [])
    ensures docs != [] ==> r.writes == 1
    ensures r.returned == docs
    ensures r.coll.Keys == m.Keys + KeysOf(docs, field)
    ensures forall k :: k in m && k !in KeysOf(docs, field) ==> r.coll[k] == m[k]
    ensures forall i :: 0 <= i < |docs| ==> docs[i].Keys <= r.coll[Get(docs[i], field)].Keys
  {
    if docs == [] then Upserted(m, 0, [])
    else
      var ops := BuildOps(docs, field, now);
      TargetsOfBatch(docs, field, now);
      forall i | 0 <= i < |docs|
        ensures docs[i].Keys <= BulkWrite(m, field, ops)[Get(docs[i], field)].Keys
      {
        FieldsStay(m, field, ops, i);
      }
      Upserted(BulkWrite(m, field, ops), 1, docs)
  }

  /** Whatever the batch, the upsert's effect on the collection is the bulk
      write of the operations built from it (none for an empty batch). */
  lemma UpsertIsBulkWrite(m: Collection, docs: seq<Doc>, field: string, now: int)
    ensures BulkUpsert(m, docs, field, now).coll == BulkWrite(m, field, BuildOps(docs, field, now))
  {
    if docs == [] {
      assert BuildOps(docs, field, now) == [];
    }
  }

  // ---------------------------------------------------------------------
  // Lemmas about BulkWrite
  // ---------------------------------------------------------------------

  lemma {:induction false} TargetsMember(ops: seq<UpdateOne>, i: nat)
    requires i < |ops|
    ensures ops[i].key in Targets(ops)
    ensures ops[i].update.Keys <= Covered(ops, ops[i].key)
  {
    if i > 0 {
      TargetsMember(ops[1..], i - 1);
    }
  }

  lemma {:induction false} TargetsAsSet(ops: seq<UpdateOne>)
    ensures Targets(ops) == set i | 0 <= i < |ops| :: ops[i].key
  {
    if ops != [] {
      TargetsAsSet(ops[1..]);
      var s := set i | 0 <= i < |ops| :: ops[i].key;
      var t := set i | 0 <= i < |ops[1..]| :: ops[1..][i].key;
      assert forall i :: 0 < i < |ops| ==> ops[i].key == ops[1..][i - 1].key;
      assert s == {ops[0].key} + t;
    }
  }

  lemma TargetsOfBatch(docs: seq<Doc>, field: string, now: int)
    ensures Targets(BuildOps(docs, field, now)) == KeysOf(docs, field)
  {
    TargetsAsSet(BuildOps(docs, field, now));
  }

  /** Applying a concatenation is applying one part after the other. */
  lemma {:induction false} BulkWriteAppend(m: Collection, field: string, a: seq<UpdateOne>, b: seq<UpdateOne>)
    ensures BulkWrite(m, field, a + b) == BulkWrite(BulkWrite(m, field, a), field, b)
    decreases |a|
  {
    if a != [] {
      assert (a + b)[0] == a[0];
      assert (a + b)[1..] == a[1..] + b;
      BulkWriteAppend(ApplyOne(m, field, a[0]), field, a[1..], b);
    } else {
      assert a + b == b;
    }
  }

  /** Operations on other keys leave the record under `key` alone. */
  lemma {:induction false} Untouched(m: Collection, field: string, ops: seq<UpdateOne>, key: Value)
    requires key !in Targets(ops)
    ensures key in BulkWrite(m, field, ops) <==> key in m
    ensures key in m ==> BulkWrite(m, field, ops)[key] == m[key]
  {
    var r := BulkWrite(m, field, ops);
    assert r.Keys == m.Keys + Targets(ops);
  }

  /** Later `$set`s override earlier ones field by field, so once the later
      ones are done the order of the earlier fields no longer shows. */
  lemma SetReorder(b: Doc, x: Doc, q: Doc)
    ensures (b + x) + q == (b + q) + (x - q.Keys)
  {
  }

  /** A `$set` on `key` whose fields are all set again later, by operations
      that reach `key`, leaves no trace. */
  lemma {:induction false} Absorb(m: Collection, field: string, key: Value, x: Doc, ops: seq<UpdateOne>)
    requires x.Keys <= Covered(ops, key)
    requires key in m || key in Targets(ops)
    ensures BulkWrite(Touch(m, field, key, x), field, ops) == BulkWrite(m, field, ops)
    decreases |ops|
  {
    if ops == [] {
      assert x == map[];
      assert m[key] + x == m[key];
      assert Touch(m, field, key, x) == m;
    } else {
      var q := ops[0];
      var m1 := ApplyOne(m, field, q);
      assert BulkWrite(Touch(m, field, key, x), field, ops)
          == BulkWrite(ApplyOne(Touch(m, field, key, x), field, q), field, ops[1..]);
      if q.key != key {
        TouchCommutes(m, field, key, x, q);
        Absorb(m1, field, key, x, ops[1..]);
      } else {
        var x' := x - q.update.Keys;
        TouchMerges(m, field, key, x, q);
        Absorb(m1, field, key, x', ops[1..]);
      }
    }
  }

  /** `$set`s on two different keys commute. */
  lemma TouchCommutes(m: Collection, field: string, key: Value, x: Doc, q: UpdateOne)
    requires q.key != key
    ensures ApplyOne(Touch(m, field, key, x), field, q) == Touch(ApplyOne(m, field, q), field, key, x)
  {
    var a := Base(m, field, key) + x;
    var b := Base(m, field, q.key) + q.update;
    assert Base(Touch(m, field, key, x), field, q.key) == Base(m, field, q.key);
    assert Base(ApplyOne(m, field, q), field, key) == Base(m, field, key);
    assert ApplyOne(Touch(m, field, key, x), field, q) == m[key := a][q.key := b];
    assert Touch(ApplyOne(m, field, q), field, key, x) == m[q.key := b][key := a];
    UpdatesCommute(m, key, a, q.key, b);
  }

  lemma UpdatesCommute(m: Collection, k1: Value, a: Doc, k2: Value, b: Doc)
    requires k1 != k2
    ensures m[k1 := a][k2 := b] == m[k2 := b][k1 := a]
  {
  }

  /** A `$set` of `x` followed by one of `q` on the same key is the `$set` of
      `q` followed by what `q` does not override in `x`. */
  lemma TouchMerges(m: Collection, field: string, key: Value, x: Doc, q: UpdateOne)
    requires q.key == key
    ensures ApplyOne(Touch(m, field, key, x), field, q) == Touch(ApplyOne(m, field, q), field, key, x - q.update.Keys)
  {
    SetReorder(Base(m, field, key), x, q.update);
  }

  /** A prefix of operations every one of which is overridden by `ops`
      (same key, no field that `ops` does not set again) leaves no trace. */
  lemma {:induction false} Overwrite(m: Collection, field: string, p: seq<UpdateOne>, ops: seq<UpdateOne>)
    requires forall i :: 0 <= i < |p| ==> p[i].key in Targets(ops) && p[i].update.Keys <= Covered(ops, p[i].key)
    ensures BulkWrite(BulkWrite(m, field, p), field, ops) == BulkWrite(m, field, ops)
    decreases |p|
  {
    if p != [] {
      var m1 := ApplyOne(m, field, p[0]);
      Overwrite(m1, field, p[1..], ops);
      Absorb(m, field, p[0].key, p[0].update, ops);
    }
  }

  /** Replaying a batch changes nothing. */
  lemma BulkWriteIdempotent(m: Collection, field: string, ops: seq<UpdateOne>)
    ensures BulkWrite(BulkWrite(m, field, ops), field, ops) == BulkWrite(m, field, ops)
  {
    forall i | 0 <= i < |ops|
      ensures ops[i].key in Targets(ops) && ops[i].update.Keys <= Covered(ops, ops[i].key)
    {
      TargetsMember(ops, i);
    }
    Overwrite(m, field, ops, ops);
  }

  /** The fields of a document of the batch are all present on its record
      once the batch is applied. */
  lemma {:induction false} FieldsStay(m: Collection, field: string, ops: seq<UpdateOne>, i: nat)
    requires i < |ops|
    ensures ops[i].key in BulkWrite(m, field, ops)
    ensures ops[i].update.Keys <= BulkWrite(m, field, ops)[ops[i].key].Keys
    decreases |ops|
  {
    TargetsMember(ops, i);
    var m1 := ApplyOne(m, field, ops[0]);
    if i == 0 {
      FieldsKept(m1, field, ops[1..], ops[0].key);
    } else {
      FieldsStay(m1, field, ops[1..], i - 1);
    }
  }

  /** `$set` never removes a field from a record. */
  lemma {:induction false} FieldsKept(m: Collection, field: string, ops: seq<UpdateOne>, key: Value)
    requires key in m
    ensures m[key].Keys <= BulkWrite(m, field, ops)[key].Keys
    decreases |ops|
  {
    if ops != [] {
      FieldsKept(ApplyOne(m, field, ops[0]), field, ops[1..], key);
    }
  }

  // ---------------------------------------------------------------------
  // Properties of bulkUpsert
  // ---------------------------------------------------------------------

  /** Running the same batch again, even at a later clock reading, leaves the
      collection exactly as a single run at that later reading would: all
      that differs between the two runs is the `syncedAt` stamp. */
  lemma UpsertIdempotent(m: Collection, docs: seq<Doc>, field: string, t1: int, t2: int)
    ensures BulkUpsert(BulkUpsert(m, docs, field, t1).coll, docs, field, t2) == BulkUpsert(m, docs, field, t2)
  {
    if docs != [] {
      var p := BuildOps(docs, field, t1);
      var ops := BuildOps(docs, field, t2);
      forall i | 0 <= i < |p|
        ensures p[i].key in Targets(ops) && p[i].update.Keys <= Covered(ops, p[i].key)
      {
        TargetsMember(ops, i);
      }
      Overwrite(m, field, p, ops);
    }
  }

  /** A `bulkWrite` cut short after its first `k` operations, at any clock
      reading, and then the whole batch run again leave the collection as a
      single full run at the later reading would. */
  lemma PartialThenFull(m: Collection, docs: seq<Doc>, field: string, k: nat, t1: int, t2: int)
    requires k <= |docs|
    ensures BulkWrite(BulkWrite(m, field, BuildOps(docs, field, t1)[..k]), field, BuildOps(docs, field, t2))
            == BulkUpsert(m, docs, field, t2).coll
  {
    var p := BuildOps(docs, field, t1)[..k];
    var ops := BuildOps(docs, field, t2);
    forall i | 0 <= i < |p|
      ensures p[i].key in Targets(ops) && p[i].update.Keys <= Covered(ops, p[i].key)
    {
      assert p[i].key == ops[i].key && p[i].update.Keys == ops[i].update.Keys;
      TargetsMember(ops, i);
    }
    Overwrite(m, field, p, ops);
    UpsertIsBulkWrite(m, docs, field, t2);
  }

  /** The record under the key of the last operation on that key is that
      operation's `$set` over whatever the earlier operations left. */
  lemma LastOpWins(m: Collection, field: string, ops: seq<UpdateOne>, i: nat)
    requires i < |ops|
    requires forall j :: i < j < |ops| ==> ops[j].key != ops[i].key
    ensures ops[i].key in BulkWrite(m, field, ops)
    ensures BulkWrite(m, field, ops)[ops[i].key] == Base(BulkWrite(m, field, ops[..i]), field, ops[i].key) + ops[i].update
  {
    var key := ops[i].key;
    var before, after := ops[..i], ops[i + 1..];
    assert ops == (before + [ops[i]]) + after;
    TargetsAsSet(after);
    assert key !in Targets(after);
    BulkWriteAppend(m, field, before + [ops[i]], after);
    BulkWriteAppend(m, field, before, [ops[i]]);
    var m1 := BulkWrite(m, field, before);
    var m2 := ApplyOne(m1, field, ops[i]);
    assert BulkWrite(m1, field, [ops[i]]) == BulkWrite(m2, field, []) == m2;
    Untouched(m2, field, after, key);
  }

  /** Among the documents of a batch that share a key, the last one wins:
      its fields hold its own values, and the stamp holds the batch clock. */
  lemma LastWins(m: Collection, docs: seq<Doc>, field: string, now: int, i: nat)
    requires i < |docs|
    requires forall j :: i < j < |docs| ==> Get(docs[j], field) != Get(docs[i], field)
    ensures Get(docs[i], field) in BulkUpsert(m, docs, field, now).coll
    ensures var rec := BulkUpsert(m, docs, field, now).coll[Get(docs[i], field)];
            && (forall g :: g in docs[i] && g != SyncedAt ==> g in rec && rec[g] == docs[i][g])
            && SyncedAt in rec && rec[SyncedAt] == Date(now)
  {
    var ops := BuildOps(docs, field, now);
    LastOpWins(m, field, ops, i);
  }

  /** Each record carries its own key in the unique field: the store holds at
      most one record per key value. */
  ghost predicate WellKeyed(m: Collection, field: string)
  {
    forall k :: k in m ==> field in m[k] && m[k][field] == k
  }

  /** bulkUpsert keeps every record filed under the value of its unique field. */
  lemma UpsertKeepsKeys(m: Collection, docs: seq<Doc>, field: string, now: int)
    requires field != SyncedAt
    requires WellKeyed(m, field)
    ensures WellKeyed(BulkUpsert(m, docs, field, now).coll, field)
  {
    var ops := BuildOps(docs, field, now);
    KeyedOpsKeep(m, field, ops);
  }

  lemma {:induction false} KeyedOpsKeep(m: Collection, field: string, ops: seq<UpdateOne>)
    requires WellKeyed(m, field)
    requires forall i :: 0 <= i < |ops| ==> field in ops[i].update ==> ops[i].update[field] == ops[i].key
    ensures WellKeyed(BulkWrite(m, field, ops), field)
    decreases |ops|
  {
    if ops != [] {
      KeyedOpsKeep(ApplyOne(m, field, ops[0]), field, ops[1..]);
    }
  }
}
