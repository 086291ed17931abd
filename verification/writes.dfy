/** What a full sync writes. The reference below lists, straight from the
    upstream, the bulkUpsert calls `resyncAllData` should make: the
    organisations, then per organisation its repositories and members, then
    per repository its commits, pull requests, issues and each followed
    issue's events. When everything is served, the traversal's log is this
    list, and the store after a successful sync is its effect. */
module SyncWrites {
  import opened Results
  import opened Documents
  import opened Collections
  import opened Upsert
  import opened ApiClient
  import opened Sync

  // ---------------------------------------------------------------------
  // The reference log
  // ---------------------------------------------------------------------

  /** One repository: commits, pull requests and issues, each stamped with
      the repository, then the events of every followed issue. */
  function RepoWrites(up: Upstream, repo: Doc, now: int): seq<Write>
  {
    match SplitFullName(Get(repo, "full_name"))
    case Failure(_) => []
    case Success(ref) =>
      var stamp := RepoStamp(ref, now);
      var issues := PagedOr(up.issues, ref);
      [Write(Commits, Normalize(PagedOr(up.commits, ref), stamp)),
       Write(Pulls, Normalize(PagedOr(up.pulls, ref), stamp)),
       Write(Issues, Normalize(issues, stamp))]
      + EventWrites(up, ref, ChangelogNumbers(issues), now)
  }

  /** The repositories of a list, in order. */
  function ReposWrites(up: Upstream, repos: seq<Doc>, now: int): seq<Write>
  {
    if repos == [] then [] else RepoWrites(up, repos[0], now) + ReposWrites(up, repos[1..], now)
  }

  /** One organisation: its stamped repositories, its stamped members, then
      each repository. */
  function OrgWrites(up: Upstream, login: Value, now: int): seq<Write>
  {
    var repos := ReposOf(up, login);
    [Write(Repos, Normalize(repos, WriteStamp(now))),
     Write(Users, Normalize(PagedOr(up.members, login), UserStamp(login, now)))]
    + ReposWrites(up, repos, now)
  }

  /** The organisations of a list, in order, by login. */
  function OrgsWrites(up: Upstream, orgs: seq<Doc>, now: int): seq<Write>
  {
    if orgs == [] then [] else OrgWrites(up, Get(orgs[0], "login"), now) + OrgsWrites(up, orgs[1..], now)
  }

  /** A full sync: the stamped organisations, then each organisation. */
  function WalkWrites(up: Upstream, now: int): seq<Write>
  {
    if up.orgs.None? then []
    else [Write(Organizations, Normalize(up.orgs.value, WriteStamp(now)))] + OrgsWrites(up, up.orgs.value, now)
  }

  // ---------------------------------------------------------------------
  // The traversal writes the reference log
  // ---------------------------------------------------------------------

  /** A served repository's sync makes exactly the reference calls. */
  lemma SyncRepoWrites(up: Upstream, repo: Doc, acc: Counts, now: int)
    requires RepoServed(up, repo)
    ensures SyncRepo(up, repo, acc, now).log == RepoWrites(up, repo, now)
  {
    var ref := SplitFullName(Get(repo, "full_name")).value;
    var stamp := RepoStamp(ref, now);
    var issues := PagedOr(up.issues, ref);
    SyncRepoLog(up, repo, acc, now);
    RepoFetchesLog(up, repo, ref, now);
    RepoWritesOf(up, repo, ref, now);
    ThreeThen(Write(Commits, Normalize(PagedOr(up.commits, ref), stamp)),
              Write(Pulls, Normalize(PagedOr(up.pulls, ref), stamp)),
              Write(Issues, Normalize(issues, stamp)),
              EventWrites(up, ref, ChangelogNumbers(issues), now));
  }

  lemma ThreeThen<T>(a: T, b: T, c: T, rest: seq<T>)
    ensures [a] + [b] + ([c] + rest) == [a, b, c] + rest
  {
  }

  lemma RepoWritesOf(up: Upstream, repo: Doc, ref: RepoRef, now: int)
    requires SplitFullName(Get(repo, "full_name")) == Success(ref)
    ensures var stamp := RepoStamp(ref, now);
            var issues := PagedOr(up.issues, ref);
            RepoWrites(up, repo, now)
              == [Write(Commits, Normalize(PagedOr(up.commits, ref), stamp)),
                  Write(Pulls, Normalize(PagedOr(up.pulls, ref), stamp)),
                  Write(Issues, Normalize(issues, stamp))]
                 + EventWrites(up, ref, ChangelogNumbers(issues), now)
  {
  }

  lemma SyncRepoLog(up: Upstream, repo: Doc, acc: Counts, now: int)
    requires SplitFullName(Get(repo, "full_name")).Success?
    ensures var ref := SplitFullName(Get(repo, "full_name")).value;
            SyncRepo(up, repo, acc, now).log == FetchCommits(up, ref, now).log + FetchPulls(up, ref, now).log + FetchIssues(up, ref, now).log
  {
  }

  /** The three fetches of a served repository write their stamped listings,
      the issues followed by the events of every followed issue. */
  lemma RepoFetchesLog(up: Upstream, repo: Doc, ref: RepoRef, now: int)
    requires RepoServed(up, repo) && SplitFullName(Get(repo, "full_name")) == Success(ref)
    ensures var stamp := RepoStamp(ref, now);
            var issues := PagedOr(up.issues, ref);
            && FetchCommits(up, ref, now).log == [Write(Commits, Normalize(PagedOr(up.commits, ref), stamp))]
            && FetchPulls(up, ref, now).log == [Write(Pulls, Normalize(PagedOr(up.pulls, ref), stamp))]
            && FetchIssues(up, ref, now).log
               == [Write(Issues, Normalize(issues, stamp))] + EventWrites(up, ref, ChangelogNumbers(issues), now)
  {
    var issues := Paged(up.issues[ref]);
    ChangelogsSucceed(up, ref, issues, now);
    ChangelogsInOrder(up, ref, issues, now);
    var i := FetchIssues(up, ref, now);
    assert i.log == [i.log[0]] + i.log[1..];
  }

  lemma SyncReposLog(up: Upstream, repos: seq<Doc>, acc: Counts, now: int)
    requires repos != [] && SyncRepo(up, repos[0], acc, now).result.Success?
    ensures var s := SyncRepo(up, repos[0], acc, now);
            SyncRepos(up, repos, acc, now).log == s.log + SyncRepos(up, repos[1..], s.result.value, now).log
  {
  }

  /** Served repositories are synced with exactly the reference calls. */
  lemma {:induction false} SyncReposWrites(up: Upstream, repos: seq<Doc>, acc: Counts, now: int)
    requires ReposServed(up, repos)
    ensures SyncRepos(up, repos, acc, now).log == ReposWrites(up, repos, now)
    decreases |repos|
  {
    if repos != [] {
      ReposServedCons(up, repos);
      SyncRepoServed(up, repos[0], acc, now);
      SyncRepoWrites(up, repos[0], acc, now);
      SyncReposLog(up, repos, acc, now);
      var s := SyncRepo(up, repos[0], acc, now);
      SyncReposWrites(up, repos[1..], s.result.value, now);
    }
  }

  /** The reference reads only the full names of the repositories. */
  lemma {:induction false} ReposWritesByName(up: Upstream, a: seq<Doc>, b: seq<Doc>, now: int)
    requires |a| == |b|
    requires forall i :: 0 <= i < |a| ==> Get(a[i], "full_name") == Get(b[i], "full_name")
    ensures ReposWrites(up, a, now) == ReposWrites(up, b, now)
    decreases |a|
  {
    if a != [] {
      assert Get(a[0], "full_name") == Get(b[0], "full_name");
      ReposWritesByName(up, a[1..], b[1..], now);
    }
  }

  /** A served organisation's sync makes exactly the reference calls. */
  lemma SyncOrgWrites(up: Upstream, org: Doc, acc: Counts, now: int)
    requires OrgServed(up, Get(org, "login"))
    ensures SyncOrg(up, org, acc, now).log == OrgWrites(up, Get(org, "login"), now)
  {
    var login := Get(org, "login");
    var rs := FetchRepos(up, login, now);
    var us := FetchUsers(up, login, now);
    OrgFetchesLog(up, login, now);
    SyncOrgLog(up, org, acc, now);
    OrgReposWrites(up, login, Plus(acc, Counts(0, |rs.result.value|, 0, 0, 0, 0, |us.result.value|)), now);
  }

  /** The two fetches of a served organisation write its stamped
      repositories and members. */
  lemma OrgFetchesLog(up: Upstream, login: Value, now: int)
    requires login in up.repos && login in up.members
    ensures FetchRepos(up, login, now).result.Success? && FetchUsers(up, login, now).result.Success?
    ensures FetchRepos(up, login, now).log == [Write(Repos, Normalize(ReposOf(up, login), WriteStamp(now)))]
    ensures FetchUsers(up, login, now).log == [Write(Users, Normalize(PagedOr(up.members, login), UserStamp(login, now)))]
  {
  }

  /** The repositories of a served organisation, stamped as fetched, are
      synced with the reference calls of its listed repositories. */
  lemma OrgReposWrites(up: Upstream, login: Value, acc: Counts, now: int)
    requires OrgServed(up, login)
    ensures FetchRepos(up, login, now).result.Success?
    ensures SyncRepos(up, FetchRepos(up, login, now).result.value, acc, now).log == ReposWrites(up, ReposOf(up, login), now)
  {
    OrgFetchesLog(up, login, now);
    var repos := FetchRepos(up, login, now).result.value;
    FetchedReposTally(up, login, now);
    ReposServedByName(up, repos, up.repos[login]);
    SyncReposWrites(up, repos, acc, now);
    ReposWritesByName(up, repos, up.repos[login], now);
  }

  lemma SyncOrgLog(up: Upstream, org: Doc, acc: Counts, now: int)
    requires var login := Get(org, "login");
             FetchRepos(up, login, now).result.Success? && FetchUsers(up, login, now).result.Success?
    ensures var login := Get(org, "login");
            var rs := FetchRepos(up, login, now);
            var us := FetchUsers(up, login, now);
            var repos := rs.result.value;
            SyncOrg(up, org, acc, now).log
              == rs.log + us.log + SyncRepos(up, repos, Plus(acc, Counts(0, |repos|, 0, 0, 0, 0, |us.result.value|)), now).log
  {
  }

  lemma SyncOrgsLog(up: Upstream, orgs: seq<Doc>, acc: Counts, now: int)
    requires orgs != [] && SyncOrg(up, orgs[0], acc, now).result.Success?
    ensures var s := SyncOrg(up, orgs[0], acc, now);
            SyncOrgs(up, orgs, acc, now).log == s.log + SyncOrgs(up, orgs[1..], s.result.value, now).log
  {
  }

  /** Served organisations are synced with exactly the reference calls. */
  lemma {:induction false} SyncOrgsWrites(up: Upstream, orgs: seq<Doc>, acc: Counts, now: int)
    requires OrgsServed(up, orgs)
    ensures SyncOrgs(up, orgs, acc, now).log == OrgsWrites(up, orgs, now)
    decreases |orgs|
  {
    if orgs != [] {
      OrgsServedCons(up, orgs);
      SyncOrgServed(up, orgs[0], acc, now);
      SyncOrgWrites(up, orgs[0], acc, now);
      SyncOrgsLog(up, orgs, acc, now);
      var s := SyncOrg(up, orgs[0], acc, now);
      SyncOrgsWrites(up, orgs[1..], s.result.value, now);
    }
  }

  /** The reference reads only the logins of the organisations. */
  lemma {:induction false} OrgsWritesByLogin(up: Upstream, a: seq<Doc>, b: seq<Doc>, now: int)
    requires |a| == |b|
    requires forall i :: 0 <= i < |a| ==> Get(a[i], "login") == Get(b[i], "login")
    ensures OrgsWrites(up, a, now) == OrgsWrites(up, b, now)
    decreases |a|
  {
    if a != [] {
      assert Get(a[0], "login") == Get(b[0], "login");
      OrgsWritesByLogin(up, a[1..], b[1..], now);
    }
  }

  lemma WalkLog(up: Upstream, now: int)
    requires FetchOrganizations(up, now).result.Success?
    ensures var o := FetchOrganizations(up, now);
            var orgs := o.result.value;
            Walk(up, now).log == o.log + SyncOrgs(up, orgs, Counts(|orgs|, 0, 0, 0, 0, 0, 0), now).log
  {
  }

  /** When everything is served, the walk makes exactly the reference calls. */
  lemma WalkWritesServed(up: Upstream, now: int)
    requires Served(up)
    ensures Walk(up, now).log == WalkWrites(up, now)
  {
    var o := FetchOrganizations(up, now);
    var orgs := o.result.value;
    WalkLog(up, now);
    FetchedOrgsServed(up, now);
    FetchedOrgsLogins(up, now);
    SyncOrgsWrites(up, orgs, Counts(|orgs|, 0, 0, 0, 0, 0, 0), now);
    OrgsWritesByLogin(up, orgs, up.orgs.value, now);
  }

  // ---------------------------------------------------------------------
  // What a successful sync leaves in the store
  // ---------------------------------------------------------------------

  /** After a successful `resyncAllData` the store is the old store with the
      reference calls applied in order. */
  lemma ResyncStore(up: Upstream, w: World, now: int)
    ensures var r := Resync(up, w, now);
            r.result.Success? ==> r.world.store == Commit(w.store, WalkWrites(up, now), now)
  {
    ResyncLog(up, w, now);
    if Resync(up, w, now).result.Success? {
      WalkServed(up, now);
      WalkWritesServed(up, now);
    }
  }

  lemma ResyncLog(up: Upstream, w: World, now: int)
    ensures var r := Resync(up, w, now);
            r.result.Success? ==> Walk(up, now).result.Success? && r.world.store == Commit(w.store, Walk(up, now).log, now)
  {
    var r := Resync(up, w, now);
    match GetApiClient(w.cache, w.integrations)
    case Failure(_) =>
      assert r.result.Failure?;
    case Success(_) =>
      var t := Walk(up, now);
      assert r.world.store == Commit(w.store, t.log, now);
      assert r.result.Success? ==> t.result.Success?;
  }

  /** Every key of every batch in a sequence of calls is in its collection
      afterwards. */
  lemma {:induction false} WrittenKeysStored(s: Store, log: seq<Write>, now: int, k: nat)
    requires k < |log|
    ensures KeysOf(log[k].docs, UniqueField(log[k].coll)) <= CollOf(Commit(s, log, now), log[k].coll).Keys
    decreases |log|
  {
    var s' := Apply(s, log[0], now);
    if k == 0 {
      ApplyEffect(s, log[0], now);
      CommitEffect(s', log[1..], now);
    } else {
      WrittenKeysStored(s', log[1..], now, k - 1);
    }
  }

  /** A call that appears anywhere in a log has its keys stored. */
  lemma WriteStored(s: Store, log: seq<Write>, now: int, x: Write)
    requires x in log
    ensures KeysOf(x.docs, UniqueField(x.coll)) <= CollOf(Commit(s, log, now), x.coll).Keys
  {
    var k :| 0 <= k < |log| && log[k] == x;
    WrittenKeysStored(s, log, now, k);
  }

  lemma {:induction false} RepoWritesIn(up: Upstream, repos: seq<Doc>, k: nat, now: int, x: Write)
    requires k < |repos| && x in RepoWrites(up, repos[k], now)
    ensures x in ReposWrites(up, repos, now)
    decreases k
  {
    if k > 0 {
      assert repos[k] == repos[1..][k - 1];
      RepoWritesIn(up, repos[1..], k - 1, now, x);
    }
  }

  lemma {:induction false} OrgWritesIn(up: Upstream, orgs: seq<Doc>, j: nat, now: int, x: Write)
    requires j < |orgs| && x in OrgWrites(up, Get(orgs[j], "login"), now)
    ensures x in OrgsWrites(up, orgs, now)
    decreases j
  {
    if j > 0 {
      assert orgs[j] == orgs[1..][j - 1];
      OrgWritesIn(up, orgs[1..], j - 1, now, x);
    }
  }

  /** The commits batch of a repository of a listed organisation is one of
      the reference calls. */
  lemma CommitsWritten(up: Upstream, now: int, j: nat, k: nat, ref: RepoRef)
    requires up.orgs.Some? && j < |up.orgs.value|
    requires k < |ReposOf(up, Get(up.orgs.value[j], "login"))|
    requires SplitFullName(Get(ReposOf(up, Get(up.orgs.value[j], "login"))[k], "full_name")) == Success(ref)
    ensures Write(Commits, Normalize(PagedOr(up.commits, ref), RepoStamp(ref, now))) in WalkWrites(up, now)
  {
    var login := Get(up.orgs.value[j], "login");
    var repos := ReposOf(up, login);
    var x := Write(Commits, Normalize(PagedOr(up.commits, ref), RepoStamp(ref, now)));
    assert x == RepoWrites(up, repos[k], now)[0];
    RepoWritesIn(up, repos, k, now, x);
    assert x in OrgWrites(up, login, now);
    OrgWritesIn(up, up.orgs.value, j, now, x);
  }

  /** After a successful sync, every commit the upstream lists for a
      repository of a listed organisation is stored under its `sha`. */
  lemma CommitsStored(up: Upstream, w: World, now: int, j: nat, k: nat, ref: RepoRef, i: nat)
    requires Resync(up, w, now).result.Success?
    requires up.orgs.Some? && j < |up.orgs.value|
    requires k < |ReposOf(up, Get(up.orgs.value[j], "login"))|
    requires SplitFullName(Get(ReposOf(up, Get(up.orgs.value[j], "login"))[k], "full_name")) == Success(ref)
    requires i < |PagedOr(up.commits, ref)|
    ensures Get(PagedOr(up.commits, ref)[i], "sha") in CollOf(Resync(up, w, now).world.store, Commits)
  {
    ResyncStore(up, w, now);
    WalkCommitsStored(w.store, up, now, j, k, ref, i);
  }

  /** Applying the reference calls to any store leaves every such commit
      stored under its `sha`. */
  lemma WalkCommitsStored(s: Store, up: Upstream, now: int, j: nat, k: nat, ref: RepoRef, i: nat)
    requires up.orgs.Some? && j < |up.orgs.value|
    requires k < |ReposOf(up, Get(up.orgs.value[j], "login"))|
    requires SplitFullName(Get(ReposOf(up, Get(up.orgs.value[j], "login"))[k], "full_name")) == Success(ref)
    requires i < |PagedOr(up.commits, ref)|
    ensures Get(PagedOr(up.commits, ref)[i], "sha") in CollOf(Commit(s, WalkWrites(up, now), now), Commits)
  {
    var docs := Normalize(PagedOr(up.commits, ref), RepoStamp(ref, now));
    CommitsWritten(up, now, j, k, ref);
    WriteStored(s, WalkWrites(up, now), now, Write(Commits, docs));
    NormalizeKeeps(PagedOr(up.commits, ref), RepoStamp(ref, now), i, "sha");
    assert Get(docs[i], "sha") in KeysOf(docs, "sha");
  }

  /** Stamping leaves every field the stamp does not carry as it was. */
  lemma NormalizeKeeps(items: seq<Doc>, stamp: Doc, i: nat, f: string)
    requires i < |items| && f !in stamp
    ensures Get(Normalize(items, stamp)[i], f) == Get(items[i], f)
  {
    assert Stamped(Normalize(items, stamp)[i], items[i], stamp);
  }
}
