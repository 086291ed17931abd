/** Properties of `resyncAllData` as a whole: what its counters add up to,
    that a second run over an unchanged upstream changes nothing, that the
    store keeps one record per key, and the join barrier of a fan-out group. */
module SyncProperties {
  import opened Results
  import opened Documents
  import opened Collections
  import opened Pagination
  import opened Upsert
  import opened ApiClient
  import opened Sync
  import opened ClockIndependence

  // ---------------------------------------------------------------------
  // Join barrier
  // ---------------------------------------------------------------------

  /** When the members listing of the first organisation fails while its
      repositories are fetched, the repositories are still written, the sync
      fails, and nothing of any later organisation is fetched or written. */
  lemma MembersFailureStopsSync(up: Upstream, orgs: seq<Doc>, acc: Counts, now: int)
    requires orgs != []
    requires Get(orgs[0], "login") in up.repos
    requires Get(orgs[0], "login") !in up.members
    ensures var login := Get(orgs[0], "login");
            SyncOrgs(up, orgs, acc, now)
              == Step(Failure(UpstreamError), [Write(Repos, Normalize(up.repos[login], WriteStamp(now)))])
  {
    var login := Get(orgs[0], "login");
    var rs := FetchRepos(up, login, now);
    assert rs.log == [Write(Repos, rs.result.value)];
    assert rs.result.value == Normalize(up.repos[login], WriteStamp(now));
  }

  // ---------------------------------------------------------------------
  // Counters
  // ---------------------------------------------------------------------

  /** With a client at hand and every listing served, the sync succeeds. A
      successful sync reports, per collection, how many records the
      upstream holds: one per organisation, and per organisation its
      repositories and members, and per repository its commits, pull
      requests and issues. Issue events are fetched and stored but never
      counted. */
  lemma ResyncCounts(up: Upstream, w: World, now: int)
    ensures var r := Resync(up, w, now);
            r.result.Success? ==> up.orgs.Some? && r.result.value == Tally(up) && r.result.value.changelogs == 0
    ensures GetApiClient(w.cache, w.integrations).Success? && Served(up) ==> Resync(up, w, now).result == Success(Tally(up))
  {
  }

  // ---------------------------------------------------------------------
  // Convergence
  // ---------------------------------------------------------------------

  /** The upserts a log makes on one collection, in order. */
  function OpsFor(log: seq<Write>, c: Coll, now: int): seq<UpdateOne>
  {
    if log == [] then []
    else (if log[0].coll == c then BuildOps(log[0].docs, UniqueField(c), now) else []) + OpsFor(log[1..], c, now)
  }

  /** The collections a log actually writes to (empty batches write nothing). */
  function Written(log: seq<Write>): set<Coll>
  {
    if log == [] then {} else (if log[0].docs != [] then {log[0].coll} else {}) + Written(log[1..])
  }

  /** A sync creates exactly the collections it writes a non-empty batch to. */
  lemma {:induction false} CommitDomain(s: Store, log: seq<Write>, now: int, c: Coll)
    ensures c in Commit(s, log, now) <==> c in s || c in Written(log)
    decreases |log|
  {
    if log != [] {
      CommitDomain(Apply(s, log[0], now), log[1..], now, c);
    }
  }

  /** One call changes only its own collection, by the bulk write of its batch. */
  lemma ApplyProjects(s: Store, w: Write, now: int, c: Coll)
    ensures CollOf(Apply(s, w, now), c)
            == BulkWrite(CollOf(s, c), UniqueField(c), if w.coll == c then BuildOps(w.docs, UniqueField(c), now) else [])
  {
    if w.coll == c {
      UpsertIsBulkWrite(CollOf(s, c), w.docs, UniqueField(c), now);
    }
  }

  /** Each collection sees only the upserts addressed to it. */
  lemma {:induction false} CommitProjects(s: Store, log: seq<Write>, now: int, c: Coll)
    ensures CollOf(Commit(s, log, now), c) == BulkWrite(CollOf(s, c), UniqueField(c), OpsFor(log, c, now))
    decreases |log|
  {
    if log != [] {
      var s1 := Apply(s, log[0], now);
      CommitProjects(s1, log[1..], now, c);
      ApplyProjects(s, log[0], now, c);
      var head := if log[0].coll == c then BuildOps(log[0].docs, UniqueField(c), now) else [];
      assert OpsFor(log, c, now) == head + OpsFor(log[1..], c, now);
      BulkWriteAppend(CollOf(s, c), UniqueField(c), head, OpsFor(log[1..], c, now));
    }
  }

  /** Replaying the writes of a sync leaves the store as it was. */
  lemma CommitIdempotent(s: Store, log: seq<Write>, now: int)
    ensures Commit(Commit(s, log, now), log, now) == Commit(s, log, now)
  {
    var s1 := Commit(s, log, now);
    var s2 := Commit(s1, log, now);
    forall c: Coll
      ensures c in s2 <==> c in s1
    {
      CommitDomain(s, log, now, c);
      CommitDomain(s1, log, now, c);
    }
    forall c | c in s1
      ensures s2[c] == s1[c]
    {
      CommitProjects(s, log, now, c);
      CommitProjects(s1, log, now, c);
      BulkWriteIdempotent(CollOf(s, c), UniqueField(c), OpsFor(log, c, now));
    }
    StoresEqual(s1, s2);
  }

  lemma StoresEqual(a: Store, b: Store)
    requires forall c :: c in a <==> c in b
    requires forall c :: c in a ==> a[c] == b[c]
    ensures a == b
  {
  }

  /** What the store sees of a batch of upserts: the key each one filters on
      and the fields it sets. */
  function Shape(ops: seq<UpdateOne>): (r: seq<(Value, set<string>)>)
    ensures |r| == |ops|
    ensures forall i :: 0 <= i < |ops| ==> r[i] == (ops[i].key, ops[i].update.Keys)
  {
    seq(|ops|, i requires 0 <= i < |ops| => (ops[i].key, ops[i].update.Keys))
  }

  lemma ShapeAppend(a: seq<UpdateOne>, b: seq<UpdateOne>)
    ensures Shape(a + b) == Shape(a) + Shape(b)
  {
    assert forall i :: 0 <= i < |a + b| ==> Shape(a + b)[i] == (Shape(a) + Shape(b))[i];
  }

  /** The keys and field names of a batch do not depend on the clock. */
  lemma BuildOpsShape(d1: seq<Doc>, d2: seq<Doc>, field: string, t1: int, t2: int)
    requires UnstampedAll(d1) == UnstampedAll(d2)
    requires field != SyncedAt
    ensures Shape(BuildOps(d1, field, t1)) == Shape(BuildOps(d2, field, t2))
  {
    var o1, o2 := BuildOps(d1, field, t1), BuildOps(d2, field, t2);
    FieldsAlike(d1, d2, field);
    forall i | 0 <= i < |d1|
      ensures o1[i].update.Keys == o2[i].update.Keys
    {
      assert Unstamped(d1[i]) == Unstamped(d2[i]);
      assert d1[i].Keys + {SyncedAt} == Unstamped(d1[i]).Keys + {SyncedAt};
      assert d2[i].Keys + {SyncedAt} == Unstamped(d2[i]).Keys + {SyncedAt};
    }
  }

  lemma {:induction false} OpsForShape(l1: seq<Write>, l2: seq<Write>, c: Coll, t1: int, t2: int)
    requires UnstampLog(l1) == UnstampLog(l2)
    ensures Shape(OpsFor(l1, c, t1)) == Shape(OpsFor(l2, c, t2))
    decreases |l1|
  {
    if l1 != [] {
      assert Unstamp(l1[0]) == Unstamp(l2[0]);
      assert UnstampLog(l1[1..]) == UnstampLog(l2[1..]);
      OpsForShape(l1[1..], l2[1..], c, t1, t2);
      var h1 := if l1[0].coll == c then BuildOps(l1[0].docs, UniqueField(c), t1) else [];
      var h2 := if l2[0].coll == c then BuildOps(l2[0].docs, UniqueField(c), t2) else [];
      if l1[0].coll == c {
        BuildOpsShape(l1[0].docs, l2[0].docs, UniqueField(c), t1, t2);
      }
      ShapeAppend(h1, OpsFor(l1[1..], c, t1));
      ShapeAppend(h2, OpsFor(l2[1..], c, t2));
    }
  }

  lemma {:induction false} WrittenUnstamped(l1: seq<Write>, l2: seq<Write>)
    requires UnstampLog(l1) == UnstampLog(l2)
    ensures Written(l1) == Written(l2)
    decreases |l1|
  {
    if l1 != [] {
      assert Unstamp(l1[0]) == Unstamp(l2[0]);
      assert |UnstampedAll(l1[0].docs)| == |UnstampedAll(l2[0].docs)|;
      assert UnstampLog(l1[1..]) == UnstampLog(l2[1..]);
      WrittenUnstamped(l1[1..], l2[1..]);
    }
  }

  /** A batch whose keys and field names all come again in a later batch
      leaves no trace once the later batch is written. */
  lemma OverwrittenByShape(m: Collection, field: string, p: seq<UpdateOne>, ops: seq<UpdateOne>)
    requires Shape(p) == Shape(ops)
    ensures BulkWrite(BulkWrite(m, field, p), field, ops) == BulkWrite(m, field, ops)
  {
    forall i | 0 <= i < |p|
      ensures p[i].key in Targets(ops) && p[i].update.Keys <= Covered(ops, p[i].key)
    {
      assert Shape(p)[i] == Shape(ops)[i];
      TargetsMember(ops, i);
    }
    Overwrite(m, field, p, ops);
  }

  /** Writing the calls of a sync over the calls of an earlier sync that
      differ from them only in `syncedAt` leaves the store as the later calls
      alone would. */
  lemma CommitAgain(s: Store, l1: seq<Write>, l2: seq<Write>, t1: int, t2: int)
    requires UnstampLog(l1) == UnstampLog(l2)
    ensures Commit(Commit(s, l1, t1), l2, t2) == Commit(s, l2, t2)
  {
    var s1 := Commit(s, l1, t1);
    var s2 := Commit(s1, l2, t2);
    var s3 := Commit(s, l2, t2);
    WrittenUnstamped(l1, l2);
    forall c: Coll
      ensures c in s2 <==> c in s3
    {
      CommitDomain(s, l1, t1, c);
      CommitDomain(s1, l2, t2, c);
      CommitDomain(s, l2, t2, c);
    }
    forall c | c in s2
      ensures s2[c] == s3[c]
    {
      CommitProjects(s, l1, t1, c);
      CommitProjects(s1, l2, t2, c);
      CommitProjects(s, l2, t2, c);
      OpsForShape(l1, l2, c, t1, t2);
      OverwrittenByShape(CollOf(s, c), UniqueField(c), OpsFor(l1, c, t1), OpsFor(l2, c, t2));
    }
    StoresEqual(s2, s3);
  }

  /** Running the sync a second time, against the same upstream, at the
      same or any later clock reading, gives the same answer as the first
      run and leaves the process state exactly as that second run alone
      would have: no record is duplicated, no collection grows, and all that
      moves is `syncedAt` and `lastSyncTimestamp`. */
  lemma ResyncConverges(up: Upstream, w: World, t1: int, t2: int)
    ensures Resync(up, Resync(up, w, t1).world, t2) == Resync(up, w, t2)
  {
    var first := Resync(up, w, t1);
    match GetApiClient(w.cache, w.integrations)
    case Failure(_) =>
    case Success(got) =>
      CacheIsSticky(w.cache, w.integrations, first.world.integrations);
      WalkAlike(up, t1, t2);
      CommitAgain(w.store, Walk(up, t1).log, Walk(up, t2).log, t1, t2);
      if Walk(up, t1).result.Success? {
        MarkSyncedTwice(w.integrations, t1, t2);
      }
  }

  /** In particular a second run at the same clock reading changes nothing. */
  lemma ResyncIdempotent(up: Upstream, w: World, now: int)
    ensures var first := Resync(up, w, now);
            Resync(up, first.world, now) == first
  {
    ResyncConverges(up, w, now, now);
  }

  // ---------------------------------------------------------------------
  // One record per key
  // ---------------------------------------------------------------------

  /** Every collection files each record under the value of its unique field. */
  ghost predicate StoreWellKeyed(s: Store)
  {
    forall c :: c in s ==> WellKeyed(s[c], UniqueField(c))
  }

  lemma {:induction false} CommitKeepsKeys(s: Store, log: seq<Write>, now: int)
    requires StoreWellKeyed(s)
    ensures StoreWellKeyed(Commit(s, log, now))
    decreases |log|
  {
    if log != [] {
      var w := log[0];
      UpsertKeepsKeys(CollOf(s, w.coll), w.docs, UniqueField(w.coll), now);
      CommitKeepsKeys(Apply(s, w, now), log[1..], now);
    }
  }

  /** A sync, successful or not, never files a record under a key other than
      its own: re-ingesting a record updates it instead of duplicating it. */
  lemma ResyncKeepsKeys(up: Upstream, w: World, now: int)
    requires StoreWellKeyed(w.store)
    ensures StoreWellKeyed(Resync(up, w, now).world.store)
  {
    match GetApiClient(w.cache, w.integrations)
    case Failure(_) =>
    case Success(got) =>
      CommitKeepsKeys(w.store, Walk(up, now).log, now);
  }
}
