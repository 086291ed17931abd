/** What a sync fetches and writes depends on the clock only through the
    `syncedAt` stamp: two walks of the same upstream at different clock
    readings return the same result and make the same bulkUpsert calls, in
    the same order, once that one field is set aside. */
module ClockIndependence {
  import opened Results
  import opened Documents
  import opened Collections
  import opened Upsert
  import opened Sync

  /** A record without its `syncedAt` field. */
  function Unstamped(d: Doc): (r: Doc)
    ensures SyncedAt !in r
    ensures forall f :: f != SyncedAt ==> Get(r, f) == Get(d, f)
  {
    d - {SyncedAt}
  }

  function UnstampedAll(docs: seq<Doc>): (r: seq<Doc>)
    ensures |r| == |docs|
    ensures forall i :: 0 <= i < |docs| ==> r[i] == Unstamped(docs[i])
  {
    seq(|docs|, i requires 0 <= i < |docs| => Unstamped(docs[i]))
  }

  /** A bulkUpsert call with the stamps of its batch set aside. */
  function Unstamp(w: Write): Write
  {
    Write(w.coll, UnstampedAll(w.docs))
  }

  function UnstampLog(log: seq<Write>): (r: seq<Write>)
    ensures |r| == |log|
    ensures forall i :: 0 <= i < |log| ==> r[i] == Unstamp(log[i])
  {
    seq(|log|, i requires 0 <= i < |log| => Unstamp(log[i]))
  }

  lemma UnstampLogAppend(a: seq<Write>, b: seq<Write>)
    ensures UnstampLog(a + b) == UnstampLog(a) + UnstampLog(b)
  {
    assert forall i :: 0 <= i < |a + b| ==> UnstampLog(a + b)[i] == (UnstampLog(a) + UnstampLog(b))[i];
  }

  /** Two fetches that agree up to their stamps: the same outcome, the same
      documents apart from `syncedAt`, the same calls. */
  predicate FetchesAlike(a: Step<seq<Doc>>, b: Step<seq<Doc>>)
  {
    && a.result.Success? == b.result.Success?
    && (a.result.Failure? ==> a.result == b.result)
    && (a.result.Success? ==> UnstampedAll(a.result.value) == UnstampedAll(b.result.value))
    && UnstampLog(a.log) == UnstampLog(b.log)
  }

  /** Two runs that return the same result and make the same calls up to
      their stamps. */
  predicate RunsAlike<T(==)>(a: Step<T>, b: Step<T>)
  {
    a.result == b.result && UnstampLog(a.log) == UnstampLog(b.log)
  }

  /** Documents that agree apart from `syncedAt` agree on every other field. */
  lemma FieldsAlike(a: seq<Doc>, b: seq<Doc>, f: string)
    requires UnstampedAll(a) == UnstampedAll(b)
    requires f != SyncedAt
    ensures |a| == |b|
    ensures forall i :: 0 <= i < |a| ==> Get(a[i], f) == Get(b[i], f)
  {
    forall i | 0 <= i < |a|
      ensures Get(a[i], f) == Get(b[i], f)
    {
      assert Unstamped(a[i]) == Unstamped(b[i]);
    }
  }

  // ---------------------------------------------------------------------
  // Stamps
  // ---------------------------------------------------------------------

  /** Stamping with stamps that differ only in `syncedAt` gives records that
      differ only in `syncedAt`. */
  lemma StampedAlike(x: Doc, s1: Doc, s2: Doc)
    requires Unstamped(s1) == Unstamped(s2)
    ensures Unstamped(x + s1) == Unstamped(x + s2)
  {
    var a, b := Unstamped(x + s1), Unstamped(x + s2);
    forall f
      ensures f in a <==> f in b
      ensures f in a ==> a[f] == b[f]
    {
      if f != SyncedAt {
        assert f in s1 <==> f in Unstamped(s1);
        assert f in s2 <==> f in Unstamped(s2);
        if f in s1 {
          assert s1[f] == Unstamped(s1)[f];
          assert s2[f] == Unstamped(s2)[f];
        }
      }
    }
  }

  lemma NormalizeAlike(items: seq<Doc>, s1: Doc, s2: Doc)
    requires Unstamped(s1) == Unstamped(s2)
    ensures UnstampedAll(Normalize(items, s1)) == UnstampedAll(Normalize(items, s2))
  {
    forall i | 0 <= i < |items|
      ensures Unstamped(Normalize(items, s1)[i]) == Unstamped(Normalize(items, s2)[i])
    {
      StampedAlike(items[i], s1, s2);
    }
  }

  lemma WriteStampAlike(t1: int, t2: int)
    ensures Unstamped(WriteStamp(t1)) == Unstamped(WriteStamp(t2))
  {
    assert Unstamped(WriteStamp(t1)) == map[];
    assert Unstamped(WriteStamp(t2)) == map[];
  }

  lemma RepoStampAlike(ref: RepoRef, t1: int, t2: int)
    ensures Unstamped(RepoStamp(ref, t1)) == Unstamped(RepoStamp(ref, t2))
  {
    var m := map["repo" := NameValue(ref), "repo_full_name" := Str(FullName(ref))];
    assert Unstamped(RepoStamp(ref, t1)) == m;
    assert Unstamped(RepoStamp(ref, t2)) == m;
  }

  lemma ChangelogStampAlike(ref: RepoRef, n: Value, t1: int, t2: int)
    ensures Unstamped(ChangelogStamp(ref, n, t1)) == Unstamped(ChangelogStamp(ref, n, t2))
  {
    var m := map["repo" := NameValue(ref), "repo_full_name" := Str(FullName(ref)), "issue_number" := n];
    assert Unstamped(ChangelogStamp(ref, n, t1)) == m;
    assert Unstamped(ChangelogStamp(ref, n, t2)) == m;
  }

  lemma UserStampAlike(org: Value, t1: int, t2: int)
    ensures Unstamped(UserStamp(org, t1)) == Unstamped(UserStamp(org, t2))
  {
    assert Unstamped(UserStamp(org, t1)) == map["organization" := org];
    assert Unstamped(UserStamp(org, t2)) == map["organization" := org];
  }

  // ---------------------------------------------------------------------
  // Fetch operations
  // ---------------------------------------------------------------------

  lemma ListingAlike(coll: Coll, raw: Option<seq<Doc>>, s1: Doc, s2: Doc)
    requires Unstamped(s1) == Unstamped(s2)
    ensures FetchesAlike(Listing(coll, raw, s1), Listing(coll, raw, s2))
  {
    if raw.Some? {
      NormalizeAlike(raw.value, s1, s2);
    }
  }

  lemma {:induction false} FollowAlike(up: Upstream, ref: RepoRef, issues: seq<Doc>, t1: int, t2: int)
    ensures RunsAlike(FollowChangelogs(up, ref, issues, t1), FollowChangelogs(up, ref, issues, t2))
    decreases |issues|
  {
    if issues != [] {
      var n := Get(issues[0], "number");
      FollowAlike(up, ref, issues[1..], t1, t2);
      if Truthy(n) {
        ChangelogStampAlike(ref, n, t1, t2);
        ListingAlike(Changelogs, PagedAt(up.events, IssueRef(ref, n)), ChangelogStamp(ref, n, t1), ChangelogStamp(ref, n, t2));
        var c1, c2 := FetchChangelogs(up, ref, n, t1), FetchChangelogs(up, ref, n, t2);
        var r1, r2 := FollowChangelogs(up, ref, issues[1..], t1), FollowChangelogs(up, ref, issues[1..], t2);
        UnstampLogAppend(c1.log, r1.log);
        UnstampLogAppend(c2.log, r2.log);
      }
    }
  }

  lemma FetchIssuesAlike(up: Upstream, ref: RepoRef, t1: int, t2: int)
    ensures FetchesAlike(FetchIssues(up, ref, t1), FetchIssues(up, ref, t2))
  {
    if ref in up.issues {
      var issues := Paged(up.issues[ref]);
      RepoStampAlike(ref, t1, t2);
      NormalizeAlike(issues, RepoStamp(ref, t1), RepoStamp(ref, t2));
      FollowAlike(up, ref, issues, t1, t2);
      var d1, d2 := Normalize(issues, RepoStamp(ref, t1)), Normalize(issues, RepoStamp(ref, t2));
      var f1, f2 := FollowChangelogs(up, ref, issues, t1), FollowChangelogs(up, ref, issues, t2);
      UnstampLogAppend([Write(Issues, d1)], f1.log);
      UnstampLogAppend([Write(Issues, d2)], f2.log);
    }
  }

  // ---------------------------------------------------------------------
  // The walk
  // ---------------------------------------------------------------------

  lemma SyncRepoAlike(up: Upstream, r1: Doc, r2: Doc, acc: Counts, t1: int, t2: int)
    requires Get(r1, "full_name") == Get(r2, "full_name")
    ensures RunsAlike(SyncRepo(up, r1, acc, t1), SyncRepo(up, r2, acc, t2))
  {
    match SplitFullName(Get(r1, "full_name"))
    case Failure(_) =>
    case Success(ref) =>
      RepoStampAlike(ref, t1, t2);
      ListingAlike(Commits, PagedAt(up.commits, ref), RepoStamp(ref, t1), RepoStamp(ref, t2));
      ListingAlike(Pulls, PagedAt(up.pulls, ref), RepoStamp(ref, t1), RepoStamp(ref, t2));
      FetchIssuesAlike(up, ref, t1, t2);
      var c1, p1, i1 := FetchCommits(up, ref, t1), FetchPulls(up, ref, t1), FetchIssues(up, ref, t1);
      var c2, p2, i2 := FetchCommits(up, ref, t2), FetchPulls(up, ref, t2), FetchIssues(up, ref, t2);
      UnstampLogAppend(c1.log, p1.log);
      UnstampLogAppend(c1.log + p1.log, i1.log);
      UnstampLogAppend(c2.log, p2.log);
      UnstampLogAppend(c2.log + p2.log, i2.log);
  }

  lemma {:induction false} SyncReposAlike(up: Upstream, rs1: seq<Doc>, rs2: seq<Doc>, acc: Counts, t1: int, t2: int)
    requires |rs1| == |rs2|
    requires forall i :: 0 <= i < |rs1| ==> Get(rs1[i], "full_name") == Get(rs2[i], "full_name")
    ensures RunsAlike(SyncRepos(up, rs1, acc, t1), SyncRepos(up, rs2, acc, t2))
    decreases |rs1|
  {
    if rs1 != [] {
      var s1, s2 := SyncRepo(up, rs1[0], acc, t1), SyncRepo(up, rs2[0], acc, t2);
      SyncRepoAlike(up, rs1[0], rs2[0], acc, t1, t2);
      if s1.result.Success? {
        SyncReposAlike(up, rs1[1..], rs2[1..], s1.result.value, t1, t2);
        UnstampLogAppend(s1.log, SyncRepos(up, rs1[1..], s1.result.value, t1).log);
        UnstampLogAppend(s2.log, SyncRepos(up, rs2[1..], s2.result.value, t2).log);
      }
    }
  }

  lemma SyncOrgAlike(up: Upstream, o1: Doc, o2: Doc, acc: Counts, t1: int, t2: int)
    requires Get(o1, "login") == Get(o2, "login")
    ensures RunsAlike(SyncOrg(up, o1, acc, t1), SyncOrg(up, o2, acc, t2))
  {
    var login := Get(o1, "login");
    WriteStampAlike(t1, t2);
    UserStampAlike(login, t1, t2);
    ListingAlike(Repos, if login in up.repos then Some(up.repos[login]) else None, WriteStamp(t1), WriteStamp(t2));
    ListingAlike(Users, PagedAt(up.members, login), UserStamp(login, t1), UserStamp(login, t2));
    var rs1, us1 := FetchRepos(up, login, t1), FetchUsers(up, login, t1);
    var rs2, us2 := FetchRepos(up, login, t2), FetchUsers(up, login, t2);
    UnstampLogAppend(rs1.log, us1.log);
    UnstampLogAppend(rs2.log, us2.log);
    if rs1.result.Success? && us1.result.Success? {
      var repos1, repos2 := rs1.result.value, rs2.result.value;
      FieldsAlike(repos1, repos2, "full_name");
      assert |us1.result.value| == |us2.result.value| by {
        assert |UnstampedAll(us1.result.value)| == |UnstampedAll(us2.result.value)|;
      }
      var acc' := Plus(acc, Counts(0, |repos1|, 0, 0, 0, 0, |us1.result.value|));
      SyncReposAlike(up, repos1, repos2, acc', t1, t2);
      UnstampLogAppend(rs1.log + us1.log, SyncRepos(up, repos1, acc', t1).log);
      UnstampLogAppend(rs2.log + us2.log, SyncRepos(up, repos2, acc', t2).log);
    }
  }

  lemma {:induction false} SyncOrgsAlike(up: Upstream, os1: seq<Doc>, os2: seq<Doc>, acc: Counts, t1: int, t2: int)
    requires |os1| == |os2|
    requires forall i :: 0 <= i < |os1| ==> Get(os1[i], "login") == Get(os2[i], "login")
    ensures RunsAlike(SyncOrgs(up, os1, acc, t1), SyncOrgs(up, os2, acc, t2))
    decreases |os1|
  {
    if os1 != [] {
      var s1, s2 := SyncOrg(up, os1[0], acc, t1), SyncOrg(up, os2[0], acc, t2);
      SyncOrgAlike(up, os1[0], os2[0], acc, t1, t2);
      if s1.result.Success? {
        SyncOrgsAlike(up, os1[1..], os2[1..], s1.result.value, t1, t2);
        UnstampLogAppend(s1.log, SyncOrgs(up, os1[1..], s1.result.value, t1).log);
        UnstampLogAppend(s2.log, SyncOrgs(up, os2[1..], s2.result.value, t2).log);
      }
    }
  }

  /** Two walks of the same upstream, at any two clock readings, return the
      same result and make the same bulkUpsert calls up to `syncedAt`. */
  lemma WalkAlike(up: Upstream, t1: int, t2: int)
    ensures Walk(up, t1).result == Walk(up, t2).result
    ensures UnstampLog(Walk(up, t1).log) == UnstampLog(Walk(up, t2).log)
  {
    WriteStampAlike(t1, t2);
    ListingAlike(Organizations, up.orgs, WriteStamp(t1), WriteStamp(t2));
    var o1, o2 := FetchOrganizations(up, t1), FetchOrganizations(up, t2);
    if o1.result.Success? {
      var orgs1, orgs2 := o1.result.value, o2.result.value;
      FieldsAlike(orgs1, orgs2, "login");
      var acc := Counts(|orgs1|, 0, 0, 0, 0, 0, 0);
      SyncOrgsAlike(up, orgs1, orgs2, acc, t1, t2);
      UnstampLogAppend(o1.log, SyncOrgs(up, orgs1, acc, t1).log);
      UnstampLogAppend(o2.log, SyncOrgs(up, orgs2, acc, t2).log);
    }
  }
}
