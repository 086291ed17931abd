/** The synchronisation engine of the GitHub controller: the fetch
    operations that page through the upstream, stamp each item and hand the
    batch to bulkUpsert, and `resyncAllData`, which walks organisations,
    their repositories and members, and each repository's commits, pull
    requests, issues and issue events.

    The upstream is finite data. Each listing the engine asks for is either
    present (as the pages it would serve) or absent, which stands for the
    API call failing. The traversal is described by the result it returns
    and the sequence of bulkUpsert calls it makes; `Commit` gives their
    effect on the store. */
module Sync {
  import opened Results
  import opened Documents
  import opened Collections
  import opened Pagination
  import opened Upsert
  import opened ApiClient

  type Pages = seq<seq<Doc>>

  /** The two halves of `repo.full_name.split('/')`; the name is `undefined`
      when the full name holds no slash. */
  datatype RepoRef = RepoRef(owner: string, name: Option<string>)

  /** The issue a changelog listing belongs to. */
  datatype IssueRef = IssueRef(repo: RepoRef, number: Value)

  /** What the upstream serves. Organisations and an organisation's
      repositories come from single calls; every other listing is paged. */
  datatype Upstream = Upstream(
    orgs: Option<seq<Doc>>,
    repos: map<Value, seq<Doc>>,
    members: map<Value, Pages>,
    commits: map<RepoRef, Pages>,
    pulls: map<RepoRef, Pages>,
    issues: map<RepoRef, Pages>,
    events: map<IssueRef, Pages>)

  // ---------------------------------------------------------------------
  // Repository names
  // ---------------------------------------------------------------------

  /** The longest prefix of `s` without `c`. */
  function TakeUntil(s: string, c: char): (r: string)
    ensures r <= s
    ensures c !in r
    ensures |r| == |s| || s[|r|] == c
  {
    if s == [] || s[0] == c then [] else [s[0]] + TakeUntil(s[1..], c)
  }

  /** `const [owner, repoName] = repo.full_name.split('/')`; anything but a
      string has no `split` and throws. */
  function SplitFullName(v: Value): (r: Result<RepoRef>)
    ensures !v.Str? <==> r == Failure(MalformedRecord)
    ensures r.Success? ==> r.value.owner <= v.s && '/' !in r.value.owner
    ensures r.Success? ==> (r.value.name.None? <==> '/' !in v.s)
    ensures r.Success? ==> |r.value.owner| == |v.s| || v.s[|r.value.owner|] == '/'
    ensures r.Success? && r.value.name.Some? ==>
              && |r.value.owner| < |v.s|
              && var rest := v.s[|r.value.owner| + 1..];
                 && r.value.name.value <= rest && '/' !in r.value.name.value
                 && (|r.value.name.value| == |rest| || rest[|r.value.name.value|] == '/')
  {
    if !v.Str? then Failure(MalformedRecord)
    else
      var s := v.s;
      var owner := TakeUntil(s, '/');
      if |owner| == |s| then
        assert owner == s;
        Success(RepoRef(owner, None))
      else
        assert s[|owner|] == '/';
        Success(RepoRef(owner, Some(TakeUntil(s[|owner| + 1..], '/'))))
  }

  /** The template `${owner}/${repoName}`. */
  function FullName(ref: RepoRef): string
  {
    ref.owner + "/" + (if ref.name.Some? then ref.name.value else "undefined")
  }

  /** The stored `repo` field: the name, or `undefined`. */
  function NameValue(ref: RepoRef): Value
  {
    if ref.name.Some? then Str(ref.name.value) else Undef
  }

  /** Splitting the full name that the stamp writes recovers the repository
      it was built from, provided neither part holds a slash. */
  lemma SplitFullNameInverse(ref: RepoRef)
    requires '/' !in ref.owner
    requires ref.name.Some? && '/' !in ref.name.value
    ensures SplitFullName(Str(FullName(ref))) == Success(ref)
  {
    var s := FullName(ref);
    TakeUntilStops(ref.owner, "/" + ref.name.value, '/');
    assert s == ref.owner + ("/" + ref.name.value);
    assert s[|ref.owner| + 1..] == ref.name.value;
    TakeUntilAll(ref.name.value, '/');
  }

  lemma {:induction false} TakeUntilStops(a: string, b: string, c: char)
    requires c !in a
    requires b != [] && b[0] == c
    ensures TakeUntil(a + b, c) == a
  {
    if a == [] {
      assert a + b == b;
    } else {
      assert (a + b)[1..] == a[1..] + b;
      TakeUntilStops(a[1..], b, c);
    }
  }

  lemma {:induction false} TakeUntilAll(a: string, c: char)
    requires c !in a
    ensures TakeUntil(a, c) == a
  {
    if a != [] {
      TakeUntilAll(a[1..], c);
    }
  }

  // ---------------------------------------------------------------------
  // Normalisation stamps
  // ---------------------------------------------------------------------

  /** The stamp on commits, pull requests and issues. */
  function RepoStamp(ref: RepoRef, now: int): Doc
  {
    map["repo" := NameValue(ref), "repo_full_name" := Str(FullName(ref)), SyncedAt := Date(now)]
  }

  /** The stamp on issue events. */
  function ChangelogStamp(ref: RepoRef, number: Value, now: int): Doc
  {
    RepoStamp(ref, now)["issue_number" := number]
  }

  /** The stamp on organisation members. */
  function UserStamp(org: Value, now: int): Doc
  {
    map["organization" := org, SyncedAt := Date(now)]
  }

  // ---------------------------------------------------------------------
  // Fetch operations
  // ---------------------------------------------------------------------

  /** One bulkUpsert call: the collection and the batch. */
  datatype Write = Write(coll: Coll, docs: seq<Doc>)

  /** What a part of the traversal returns, and the bulkUpsert calls it made
      in order, including those made before it failed. */
  datatype Step<T> = Step(result: Result<T>, log: seq<Write>)

  /** The items `fetchAllPages` collects from a paged listing. */
  function Paged(pages: Pages): seq<Doc>
  {
    FetchAllPages(pages, DefaultPerPage).items
  }

  /** A paged listing as `fetchAllPages` sees it: its items, or the failure of
      the API call. */
  function PagedAt<K>(m: map<K, Pages>, k: K): Option<seq<Doc>>
  {
    if k in m then Some(Paged(m[k])) else None
  }

  /** What every fetch operation does with a listing: fail without writing
      when the call failed; otherwise stamp every item, upsert the stamped
      batch once into `coll`, and return it. */
  ghost predicate Normalized(r: Step<seq<Doc>>, coll: Coll, raw: Option<seq<Doc>>, stamp: Doc)
  {
    && (raw.None? ==> r == Step(Failure(UpstreamError), []))
    && (raw.Some? ==>
          && r.result.Success?
          && |r.result.value| == |raw.value|
          && (forall i :: 0 <= i < |raw.value| ==> Stamped(r.result.value[i], raw.value[i], stamp))
          && r.log == [Write(coll, r.result.value)])
  }

  function Listing(coll: Coll, raw: Option<seq<Doc>>, stamp: Doc): (r: Step<seq<Doc>>)
    ensures Normalized(r, coll, raw, stamp)
  {
    match raw
    case None => Step(Failure(UpstreamError), [])
    case Some(items) =>
      var docs := Normalize(items, stamp);
      Step(Success(docs), [Write(coll, docs)])
  }

  /** `fetchOrganizations()`: one call, upserted by `id`. */
  function FetchOrganizations(up: Upstream, now: int): (r: Step<seq<Doc>>)
    ensures Normalized(r, Organizations, up.orgs, WriteStamp(now))
  {
    Listing(Organizations, up.orgs, WriteStamp(now))
  }

  /** `fetchRepos(orgName)`: one call, upserted by `id`. */
  function FetchRepos(up: Upstream, org: Value, now: int): (r: Step<seq<Doc>>)
    ensures Normalized(r, Repos, if org in up.repos then Some(up.repos[org]) else None, WriteStamp(now))
  {
    Listing(Repos, if org in up.repos then Some(up.repos[org]) else None, WriteStamp(now))
  }

  /** `fetchUsers(orgName)`: members stamped with their organisation. */
  function FetchUsers(up: Upstream, org: Value, now: int): (r: Step<seq<Doc>>)
    ensures Normalized(r, Users, PagedAt(up.members, org), UserStamp(org, now))
  {
    Listing(Users, PagedAt(up.members, org), UserStamp(org, now))
  }

  /** `fetchCommits(owner, repoName)`: upserted by `sha`. */
  function FetchCommits(up: Upstream, ref: RepoRef, now: int): (r: Step<seq<Doc>>)
    ensures Normalized(r, Commits, PagedAt(up.commits, ref), RepoStamp(ref, now))
  {
    Listing(Commits, PagedAt(up.commits, ref), RepoStamp(ref, now))
  }

  /** `fetchPulls(owner, repoName)`. */
  function FetchPulls(up: Upstream, ref: RepoRef, now: int): (r: Step<seq<Doc>>)
    ensures Normalized(r, Pulls, PagedAt(up.pulls, ref), RepoStamp(ref, now))
  {
    Listing(Pulls, PagedAt(up.pulls, ref), RepoStamp(ref, now))
  }

  /** `fetchChangelogs(owner, repoName, issueNumber)`. */
  function FetchChangelogs(up: Upstream, ref: RepoRef, number: Value, now: int): (r: Step<seq<Doc>>)
    ensures Normalized(r, Changelogs, PagedAt(up.events, IssueRef(ref, number)), ChangelogStamp(ref, number, now))
  {
    Listing(Changelogs, PagedAt(up.events, IssueRef(ref, number)), ChangelogStamp(ref, number, now))
  }

  /** The issue numbers `fetchIssues` follows, in listing order: those that
      are truthy. */
  function ChangelogNumbers(issues: seq<Doc>): (ns: seq<Value>)
    ensures forall n :: n in ns ==> Truthy(n)
    ensures |ns| <= |issues|
    ensures forall i :: 0 <= i < |issues| && Truthy(Get(issues[i], "number")) ==> Get(issues[i], "number") in ns
  {
    if issues == [] then []
    else
      var n := Get(issues[0], "number");
      (if Truthy(n) then [n] else []) + ChangelogNumbers(issues[1..])
  }

  /** An issue whose changelog `fetchIssues` follows: its number is truthy. */
  predicate Numbered(issue: Doc)
  {
    Truthy(Get(issue, "number"))
  }

  /** The positions, from `lo` on, of the issues whose number is truthy. */
  function NumberedFrom(issues: seq<Doc>, lo: nat): seq<nat>
    requires lo <= |issues|
    decreases |issues| - lo
  {
    if lo == |issues| then []
    else (if Numbered(issues[lo]) then [lo] else []) + NumberedFrom(issues, lo + 1)
  }

  /** Each position holds an issue with a truthy number. */
  lemma {:induction false} NumberedFromSound(issues: seq<Doc>, lo: nat)
    requires lo <= |issues|
    ensures forall k :: 0 <= k < |NumberedFrom(issues, lo)| ==>
              lo <= NumberedFrom(issues, lo)[k] < |issues| && Numbered(issues[NumberedFrom(issues, lo)[k]])
    decreases |issues| - lo
  {
    if lo < |issues| {
      NumberedFromSound(issues, lo + 1);
      var idx, after := NumberedFrom(issues, lo), NumberedFrom(issues, lo + 1);
      if Numbered(issues[lo]) {
        assert idx == [lo] + after;
        forall k | 0 < k < |idx|
          ensures lo <= idx[k] < |issues| && Numbered(issues[idx[k]])
        {
          assert idx[k] == after[k - 1];
        }
      } else {
        assert idx == after;
      }
    }
  }

  /** The positions increase. */
  lemma {:induction false} NumberedFromIncreasing(issues: seq<Doc>, lo: nat)
    requires lo <= |issues|
    ensures forall k, l :: 0 <= k < l < |NumberedFrom(issues, lo)| ==> NumberedFrom(issues, lo)[k] < NumberedFrom(issues, lo)[l]
    decreases |issues| - lo
  {
    if lo < |issues| {
      NumberedFromIncreasing(issues, lo + 1);
      NumberedFromSound(issues, lo + 1);
      var idx, after := NumberedFrom(issues, lo), NumberedFrom(issues, lo + 1);
      if Numbered(issues[lo]) {
        assert idx == [lo] + after;
        forall k, l | 0 <= k < l < |idx|
          ensures idx[k] < idx[l]
        {
          assert idx[l] == after[l - 1];
          if k > 0 {
            assert idx[k] == after[k - 1];
          }
        }
      }
    }
  }

  /** Every issue from `lo` on with a truthy number has its position. */
  lemma {:induction false} NumberedFromComplete(issues: seq<Doc>, lo: nat)
    requires lo <= |issues|
    ensures forall i :: lo <= i < |issues| && Numbered(issues[i]) ==> i in NumberedFrom(issues, lo)
    decreases |issues| - lo
  {
    if lo < |issues| {
      NumberedFromComplete(issues, lo + 1);
      var idx, after := NumberedFrom(issues, lo), NumberedFrom(issues, lo + 1);
      if Numbered(issues[lo]) {
        assert idx == [lo] + after;
      }
    }
  }

  /** The followed numbers are, in order, the numbers of exactly the issues
      whose number is truthy: one per such issue, and nothing else. */
  lemma ChangelogNumbersExact(issues: seq<Doc>)
    ensures var ns := ChangelogNumbers(issues);
            var idx := NumberedFrom(issues, 0);
            && (forall k :: 0 <= k < |idx| ==> idx[k] < |issues| && Numbered(issues[idx[k]]))
            && (forall k, l :: 0 <= k < l < |idx| ==> idx[k] < idx[l])
            && (forall i :: 0 <= i < |issues| && Numbered(issues[i]) ==> i in idx)
            && |ns| == |idx|
            && forall k :: 0 <= k < |ns| ==> idx[k] < |issues| && ns[k] == Get(issues[idx[k]], "number")
  {
    assert issues[0..] == issues;
    NumberedFromSound(issues, 0);
    NumberedFromIncreasing(issues, 0);
    NumberedFromComplete(issues, 0);
    ChangelogNumbersFrom(issues, 0);
  }

  lemma {:induction false} ChangelogNumbersFrom(issues: seq<Doc>, lo: nat)
    requires lo <= |issues|
    ensures |ChangelogNumbers(issues[lo..])| == |NumberedFrom(issues, lo)|
    ensures forall k :: 0 <= k < |ChangelogNumbers(issues[lo..])| ==>
              && NumberedFrom(issues, lo)[k] < |issues|
              && ChangelogNumbers(issues[lo..])[k] == Get(issues[NumberedFrom(issues, lo)[k]], "number")
    decreases |issues| - lo
  {
    NumberedFromSound(issues, lo);
    if lo < |issues| {
      ChangelogNumbersFrom(issues, lo + 1);
      var s := issues[lo..];
      assert s[0] == issues[lo] && s[1..] == issues[lo + 1..];
      var n := Get(issues[lo], "number");
      var ns, rest := ChangelogNumbers(s), ChangelogNumbers(issues[lo + 1..]);
      var idx, after := NumberedFrom(issues, lo), NumberedFrom(issues, lo + 1);
      assert ns == (if Truthy(n) then [n] else []) + rest;
      if Truthy(n) {
        assert ns == [n] + rest && idx == [lo] + after;
        forall k | 0 < k < |ns|
          ensures ns[k] == Get(issues[idx[k]], "number")
        {
          assert ns[k] == rest[k - 1] && idx[k] == after[k - 1];
        }
      } else {
        assert ns == rest && idx == after;
      }
    }
  }

  /** The loop over the issues: one `fetchChangelogs` per truthy number,
      sequentially, stopping at the first failure. */
  function FollowChangelogs(up: Upstream, ref: RepoRef, issues: seq<Doc>, now: int): (r: Step<()>)
    ensures r.result.Failure? ==> r.result == Failure(UpstreamError)
    ensures forall i :: 0 <= i < |r.log| ==> r.log[i].coll == Changelogs
    ensures r.result.Success? ==> |r.log| == |ChangelogNumbers(issues)|
    ensures |r.log| <= |ChangelogNumbers(issues)|
    decreases |issues|
  {
    if issues == [] then Step(Success(()), [])
    else
      var n := Get(issues[0], "number");
      if !Truthy(n) then FollowChangelogs(up, ref, issues[1..], now)
      else
        var c := FetchChangelogs(up, ref, n, now);
        if c.result.Failure? then Step(Failure(c.result.error), c.log)
        else
          var rest := FollowChangelogs(up, ref, issues[1..], now);
          Step(rest.result, c.log + rest.log)
  }

  /** `fetchIssues(owner, repoName)`: upsert the stamped issues first, then
      follow their changelogs; return the issue documents. */
  function FetchIssues(up: Upstream, ref: RepoRef, now: int): (r: Step<seq<Doc>>)
    ensures ref !in up.issues ==> r == Step(Failure(UpstreamError), [])
    ensures ref in up.issues ==>
              var issues := Paged(up.issues[ref]);
              var follow := FollowChangelogs(up, ref, issues, now);
              && |r.log| >= 1
              && r.log[0] == Write(Issues, Normalize(issues, RepoStamp(ref, now)))
              && r.log[1..] == follow.log
              && (r.result.Success? <==> follow.result.Success?)
              && (r.result.Success? ==> r.result.value == r.log[0].docs)
  {
    if ref !in up.issues then Step(Failure(UpstreamError), [])
    else
      var issues := Paged(up.issues[ref]);
      var docs := Normalize(issues, RepoStamp(ref, now));
      var follow := FollowChangelogs(up, ref, issues, now);
      var log := [Write(Issues, docs)] + follow.log;
      assert log[1..] == follow.log;
      Step(if follow.result.Success? then Success(docs) else Failure(follow.result.error), log)
  }

  /** The changelog write for one issue number. */
  function EventWrite(up: Upstream, ref: RepoRef, n: Value, now: int): Write
  {
    var key := IssueRef(ref, n);
    Write(Changelogs, Normalize(if key in up.events then Paged(up.events[key]) else [], ChangelogStamp(ref, n, now)))
  }

  /** The changelog writes for a list of issue numbers, in order. */
  function EventWrites(up: Upstream, ref: RepoRef, ns: seq<Value>, now: int): (ws: seq<Write>)
    ensures |ws| == |ns|
  {
    if ns == [] then [] else [EventWrite(up, ref, ns[0], now)] + EventWrites(up, ref, ns[1..], now)
  }

  /** The changelog loop succeeds exactly when every truthy issue number has
      an events listing. */
  lemma {:induction false} ChangelogsSucceed(up: Upstream, ref: RepoRef, issues: seq<Doc>, now: int)
    ensures FollowChangelogs(up, ref, issues, now).result.Success?
            <==> forall n :: n in ChangelogNumbers(issues) ==> IssueRef(ref, n) in up.events
    decreases |issues|
  {
    if issues != [] {
      ChangelogsSucceed(up, ref, issues[1..], now);
      var n := Get(issues[0], "number");
      if Truthy(n) {
        assert ChangelogNumbers(issues) == [n] + ChangelogNumbers(issues[1..]);
      }
    }
  }

  /** When it succeeds, the changelog loop writes one batch per truthy issue
      number, in listing order, each stamped with that number. */
  lemma {:induction false} ChangelogsInOrder(up: Upstream, ref: RepoRef, issues: seq<Doc>, now: int)
    requires FollowChangelogs(up, ref, issues, now).result.Success?
    ensures FollowChangelogs(up, ref, issues, now).log == EventWrites(up, ref, ChangelogNumbers(issues), now)
    decreases |issues|
  {
    if issues != [] {
      var n := Get(issues[0], "number");
      if Truthy(n) {
        var ns := ChangelogNumbers(issues);
        assert ns == [n] + ChangelogNumbers(issues[1..]);
        assert ns[1..] == ChangelogNumbers(issues[1..]);
        var c := FetchChangelogs(up, ref, n, now);
        assert c.result.Success?;
        assert IssueRef(ref, n) in up.events;
        assert c.log == [EventWrite(up, ref, n, now)];
        ChangelogsInOrder(up, ref, issues[1..], now);
        assert FollowChangelogs(up, ref, issues, now).log == c.log + FollowChangelogs(up, ref, issues[1..], now).log;
        assert EventWrites(up, ref, ns, now) == [EventWrite(up, ref, n, now)] + EventWrites(up, ref, ns[1..], now);
      } else {
        ChangelogsInOrder(up, ref, issues[1..], now);
        assert ChangelogNumbers(issues) == [] + ChangelogNumbers(issues[1..]);
        assert ChangelogNumbers(issues) == ChangelogNumbers(issues[1..]);
        assert FollowChangelogs(up, ref, issues, now) == FollowChangelogs(up, ref, issues[1..], now);
      }
    }
  }

  // ---------------------------------------------------------------------
  // resyncAllData
  // ---------------------------------------------------------------------

  /** The `results` record of resyncAllData. */
  datatype Counts = Counts(organizations: nat, repos: nat, commits: nat, pulls: nat, issues: nat, changelogs: nat, users: nat)

  const NoCounts: Counts := Counts(0, 0, 0, 0, 0, 0, 0)

  function Plus(a: Counts, b: Counts): Counts
  {
    Counts(a.organizations + b.organizations, a.repos + b.repos, a.commits + b.commits, a.pulls + b.pulls,
           a.issues + b.issues, a.changelogs + b.changelogs, a.users + b.users)
  }

  lemma PlusAssoc(a: Counts, b: Counts, c: Counts)
    ensures Plus(Plus(a, b), c) == Plus(a, Plus(b, c))
  {
  }

  // The counters, summed bottom-up over the upstream: the reference the
  // traversal's running counters are checked against.

  /** The items a paged listing yields, none when it is missing. */
  function PagedOr<K>(m: map<K, Pages>, k: K): seq<Doc>
  {
    if k in m then Paged(m[k]) else []
  }

  function RepoTally(up: Upstream, repo: Doc): Counts
  {
    match SplitFullName(Get(repo, "full_name"))
    case Failure(_) => NoCounts
    case Success(ref) =>
      Counts(0, 0, |PagedOr(up.commits, ref)|, |PagedOr(up.pulls, ref)|, |PagedOr(up.issues, ref)|, 0, 0)
  }

  function ReposTally(up: Upstream, repos: seq<Doc>): (c: Counts)
    ensures c.changelogs == 0
  {
    if repos == [] then NoCounts else Plus(RepoTally(up, repos[0]), ReposTally(up, repos[1..]))
  }

  function ReposOf(up: Upstream, login: Value): seq<Doc>
  {
    if login in up.repos then up.repos[login] else []
  }

  function OrgTally(up: Upstream, login: Value): Counts
  {
    var repos := ReposOf(up, login);
    Plus(Counts(0, |repos|, 0, 0, 0, 0, |PagedOr(up.members, login)|), ReposTally(up, repos))
  }

  function OrgsTally(up: Upstream, orgs: seq<Doc>): (c: Counts)
    ensures c.changelogs == 0
  {
    if orgs == [] then NoCounts else Plus(OrgTally(up, Get(orgs[0], "login")), OrgsTally(up, orgs[1..]))
  }

  /** The counters a full sync of `up` should report: the number of
      organisations, then per organisation its repositories and members, and
      per repository its commits, pull requests and issues. */
  function Tally(up: Upstream): Counts
  {
    if up.orgs.None? then NoCounts
    else Plus(Counts(|up.orgs.value|, 0, 0, 0, 0, 0, 0), OrgsTally(up, up.orgs.value))
  }

  /** The tallies read only one field of each record, so the clock stamp does
      not change them. */
  lemma {:induction false} ReposTallyByName(up: Upstream, a: seq<Doc>, b: seq<Doc>)
    requires |a| == |b|
    requires forall i :: 0 <= i < |a| ==> Get(a[i], "full_name") == Get(b[i], "full_name")
    ensures ReposTally(up, a) == ReposTally(up, b)
  {
    if a != [] {
      ReposTallyByName(up, a[1..], b[1..]);
    }
  }

  /** Whether a repository is served depends only on its full name. */
  lemma ReposServedByName(up: Upstream, a: seq<Doc>, b: seq<Doc>)
    requires |a| == |b|
    requires forall i :: 0 <= i < |a| ==> Get(a[i], "full_name") == Get(b[i], "full_name")
    ensures ReposServed(up, a) <==> ReposServed(up, b)
  {
    assert forall i :: 0 <= i < |a| ==> (RepoServed(up, a[i]) <==> RepoServed(up, b[i]));
  }

  /** Stamping an organisation's repositories with the clock leaves their
      tally alone. */
  lemma FetchedReposTally(up: Upstream, login: Value, now: int)
    requires FetchRepos(up, login, now).result.Success?
    ensures var repos := FetchRepos(up, login, now).result.value;
            && |repos| == |ReposOf(up, login)| && ReposTally(up, repos) == ReposTally(up, ReposOf(up, login))
            && forall i :: 0 <= i < |repos| ==> Get(repos[i], "full_name") == Get(ReposOf(up, login)[i], "full_name")
  {
    var repos := FetchRepos(up, login, now).result.value;
    assert forall i :: 0 <= i < |repos| ==> Stamped(repos[i], ReposOf(up, login)[i], WriteStamp(now));
    ReposTallyByName(up, repos, ReposOf(up, login));
  }

  /** Stamping the organisations with the clock leaves their logins alone. */
  lemma FetchedOrgsLogins(up: Upstream, now: int)
    requires FetchOrganizations(up, now).result.Success?
    ensures var orgs := FetchOrganizations(up, now).result.value;
            && up.orgs.Some? && |orgs| == |up.orgs.value|
            && forall i :: 0 <= i < |orgs| ==> Get(orgs[i], "login") == Get(up.orgs.value[i], "login")
  {
    var orgs := FetchOrganizations(up, now).result.value;
    assert forall i :: 0 <= i < |orgs| ==> Stamped(orgs[i], up.orgs.value[i], WriteStamp(now));
  }

  lemma {:induction false} OrgsTallyByLogin(up: Upstream, a: seq<Doc>, b: seq<Doc>)
    requires |a| == |b|
    requires forall i :: 0 <= i < |a| ==> Get(a[i], "login") == Get(b[i], "login")
    ensures OrgsTally(up, a) == OrgsTally(up, b)
  {
    if a != [] {
      OrgsTallyByLogin(up, a[1..], b[1..]);
    }
  }

  // When the walk succeeds: every listing it asks for is served.

  /** Everything a repository's sync asks for is served: its full name is a
      string, its commits, pull requests and issues are listed, and so are
      the events of every issue with a truthy number. */
  predicate RepoServed(up: Upstream, repo: Doc)
  {
    match SplitFullName(Get(repo, "full_name"))
    case Failure(_) => false
    case Success(ref) =>
      && ref in up.commits && ref in up.pulls && ref in up.issues
      && forall n :: n in ChangelogNumbers(Paged(up.issues[ref])) ==> IssueRef(ref, n) in up.events
  }

  /** Everything an organisation's sync asks for is served: its repositories
      and members, and everything each of its repositories asks for. */
  predicate OrgServed(up: Upstream, login: Value)
  {
    login in up.repos && login in up.members && ReposServed(up, up.repos[login])
  }

  /** Every repository of the list is served. */
  predicate ReposServed(up: Upstream, repos: seq<Doc>)
  {
    forall i :: 0 <= i < |repos| ==> RepoServed(up, repos[i])
  }

  /** Every organisation of the list is served, by its login. */
  predicate OrgsServed(up: Upstream, orgs: seq<Doc>)
  {
    forall i :: 0 <= i < |orgs| ==> OrgServed(up, Get(orgs[i], "login"))
  }

  /** Everything a full sync asks for is served. */
  predicate Served(up: Upstream)
  {
    up.orgs.Some? && OrgsServed(up, up.orgs.value)
  }

  /** One repository: split its full name, then commits, pulls and issues as
      one `Promise.all` group. Every member of the group runs to the end, so
      all their writes land; the group fails if any member failed. */
  function SyncRepo(up: Upstream, repo: Doc, acc: Counts, now: int): (r: Step<Counts>)
    ensures r.result.Success? ==> r.result.value == Plus(acc, RepoTally(up, repo))
  {
    match SplitFullName(Get(repo, "full_name"))
    case Failure(e) => Step(Failure(e), [])
    case Success(ref) =>
      var c := FetchCommits(up, ref, now);
      var p := FetchPulls(up, ref, now);
      var i := FetchIssues(up, ref, now);
      var log := c.log + p.log + i.log;
      if c.result.Failure? then Step(Failure(c.result.error), log)
      else if p.result.Failure? then Step(Failure(p.result.error), log)
      else if i.result.Failure? then Step(Failure(i.result.error), log)
      else
        Step(Success(Plus(acc, Counts(0, 0, |c.result.value|, |p.result.value|, |i.result.value|, 0, 0))), log)
  }

  /** The repositories of one organisation, one after the other. */
  function SyncRepos(up: Upstream, repos: seq<Doc>, acc: Counts, now: int): (r: Step<Counts>)
    ensures r.result.Success? ==> r.result.value == Plus(acc, ReposTally(up, repos))
    decreases |repos|
  {
    if repos == [] then Step(Success(acc), [])
    else
      var s := SyncRepo(up, repos[0], acc, now);
      if s.result.Failure? then s
      else
        var rest := SyncRepos(up, repos[1..], s.result.value, now);
        PlusAssoc(acc, RepoTally(up, repos[0]), ReposTally(up, repos[1..]));
        Step(rest.result, s.log + rest.log)
  }

  /** One organisation: repositories and members as one `Promise.all`
      group, then its repositories. */
  function SyncOrg(up: Upstream, org: Doc, acc: Counts, now: int): (r: Step<Counts>)
    ensures r.result.Success? ==> r.result.value == Plus(acc, OrgTally(up, Get(org, "login")))
  {
    var login := Get(org, "login");
    var rs := FetchRepos(up, login, now);
    var us := FetchUsers(up, login, now);
    var log := rs.log + us.log;
    if rs.result.Failure? then Step(Failure(rs.result.error), log)
    else if us.result.Failure? then Step(Failure(us.result.error), log)
    else
      var repos := rs.result.value;
      var own := Counts(0, |repos|, 0, 0, 0, 0, |us.result.value|);
      var acc' := Plus(acc, own);
      var t := SyncRepos(up, repos, acc', now);
      FetchedReposTally(up, login, now);
      assert |us.result.value| == |PagedOr(up.members, login)|;
      PlusAssoc(acc, own, ReposTally(up, repos));
      Step(t.result, log + t.log)
  }

  /** The organisations, one after the other. */
  function SyncOrgs(up: Upstream, orgs: seq<Doc>, acc: Counts, now: int): (r: Step<Counts>)
    ensures r.result.Success? ==> r.result.value == Plus(acc, OrgsTally(up, orgs))
    decreases |orgs|
  {
    if orgs == [] then Step(Success(acc), [])
    else
      var s := SyncOrg(up, orgs[0], acc, now);
      if s.result.Failure? then s
      else
        var rest := SyncOrgs(up, orgs[1..], s.result.value, now);
        PlusAssoc(acc, OrgTally(up, Get(orgs[0], "login")), OrgsTally(up, orgs[1..]));
        Step(rest.result, s.log + rest.log)
  }

  /** A repository's sync succeeds exactly when everything it asks for is
      served. */
  lemma SyncRepoServed(up: Upstream, repo: Doc, acc: Counts, now: int)
    ensures SyncRepo(up, repo, acc, now).result.Success? <==> RepoServed(up, repo)
  {
    match SplitFullName(Get(repo, "full_name"))
    case Failure(_) =>
    case Success(ref) =>
      ChangelogsSucceed(up, ref, PagedOr(up.issues, ref), now);
  }

  lemma {:induction false} SyncReposServed(up: Upstream, repos: seq<Doc>, acc: Counts, now: int)
    ensures SyncRepos(up, repos, acc, now).result.Success? <==> ReposServed(up, repos)
    decreases |repos|
  {
    if repos != [] {
      var s := SyncRepo(up, repos[0], acc, now);
      SyncReposUnfold(up, repos, acc, now);
      SyncRepoServed(up, repos[0], acc, now);
      ReposServedCons(up, repos);
      if s.result.Success? {
        SyncReposServed(up, repos[1..], s.result.value, now);
      }
    }
  }

  lemma SyncReposUnfold(up: Upstream, repos: seq<Doc>, acc: Counts, now: int)
    requires repos != []
    ensures var s := SyncRepo(up, repos[0], acc, now);
            SyncRepos(up, repos, acc, now).result
              == if s.result.Failure? then s.result else SyncRepos(up, repos[1..], s.result.value, now).result
  {
  }

  lemma ReposServedCons(up: Upstream, repos: seq<Doc>)
    requires repos != []
    ensures ReposServed(up, repos) <==> RepoServed(up, repos[0]) && ReposServed(up, repos[1..])
  {
    if RepoServed(up, repos[0]) && ReposServed(up, repos[1..]) {
      forall i | 0 <= i < |repos|
        ensures RepoServed(up, repos[i])
      {
        if i > 0 {
          assert repos[i] == repos[1..][i - 1];
        }
      }
    }
  }

  /** An organisation's sync succeeds exactly when everything it asks for is
      served. */
  lemma SyncOrgServed(up: Upstream, org: Doc, acc: Counts, now: int)
    ensures SyncOrg(up, org, acc, now).result.Success? <==> OrgServed(up, Get(org, "login"))
  {
    var login := Get(org, "login");
    var rs := FetchRepos(up, login, now);
    var us := FetchUsers(up, login, now);
    if rs.result.Success? && us.result.Success? {
      var repos := rs.result.value;
      var acc' := Plus(acc, Counts(0, |repos|, 0, 0, 0, 0, |us.result.value|));
      FetchedReposTally(up, login, now);
      ReposServedByName(up, repos, up.repos[login]);
      SyncReposServed(up, repos, acc', now);
    }
  }

  lemma {:induction false} SyncOrgsServed(up: Upstream, orgs: seq<Doc>, acc: Counts, now: int)
    ensures SyncOrgs(up, orgs, acc, now).result.Success? <==> OrgsServed(up, orgs)
    decreases |orgs|
  {
    if orgs != [] {
      var s := SyncOrg(up, orgs[0], acc, now);
      SyncOrgsUnfold(up, orgs, acc, now);
      SyncOrgServed(up, orgs[0], acc, now);
      OrgsServedCons(up, orgs);
      if s.result.Success? {
        SyncOrgsServed(up, orgs[1..], s.result.value, now);
      }
    }
  }

  lemma SyncOrgsUnfold(up: Upstream, orgs: seq<Doc>, acc: Counts, now: int)
    requires orgs != []
    ensures var s := SyncOrg(up, orgs[0], acc, now);
            SyncOrgs(up, orgs, acc, now).result
              == if s.result.Failure? then s.result else SyncOrgs(up, orgs[1..], s.result.value, now).result
  {
  }

  lemma OrgsServedCons(up: Upstream, orgs: seq<Doc>)
    requires orgs != []
    ensures OrgsServed(up, orgs) <==> OrgServed(up, Get(orgs[0], "login")) && OrgsServed(up, orgs[1..])
  {
    if OrgServed(up, Get(orgs[0], "login")) && OrgsServed(up, orgs[1..]) {
      forall i | 0 <= i < |orgs|
        ensures OrgServed(up, Get(orgs[i], "login"))
      {
        if i > 0 {
          assert orgs[i] == orgs[1..][i - 1];
        }
      }
    }
  }

  /** The synced collections. */
  type Store = map<Coll, Collection>

  function CollOf(s: Store, c: Coll): Collection
  {
    if c in s then s[c] else map[]
  }

  /** The effect of one bulkUpsert call on the store, keyed by its
      collection's unique field; an empty batch does not touch the store. */
  function Apply(s: Store, w: Write, now: int): Store
  {
    var u := BulkUpsert(CollOf(s, w.coll), w.docs, UniqueField(w.coll), now);
    if u.writes == 0 then s else s[w.coll := u.coll]
  }

  /** One call touches only its own collection, where it adds the keys of its
      batch and removes nothing; an empty batch changes nothing. */
  lemma ApplyEffect(s: Store, w: Write, now: int)
    ensures var r := Apply(s, w, now);
            && (w.docs == [] ==> r == s)
            && (forall c :: c != w.coll ==> CollOf(r, c) == CollOf(s, c))
            && CollOf(r, w.coll).Keys == CollOf(s, w.coll).Keys + KeysOf(w.docs, UniqueField(w.coll))
            && s.Keys <= r.Keys
  {
    if w.docs == [] {
      assert KeysOf(w.docs, UniqueField(w.coll)) == {};
    }
  }

  /** The effect of a sequence of bulkUpsert calls on the store. */
  function Commit(s: Store, log: seq<Write>, now: int): Store
    decreases |log|
  {
    if log == [] then s else Commit(Apply(s, log[0], now), log[1..], now)
  }

  /** A sequence of calls never removes a collection or a record, and leaves
      every collection it does not address as it was. */
  lemma {:induction false} CommitEffect(s: Store, log: seq<Write>, now: int)
    ensures var r := Commit(s, log, now);
            && s.Keys <= r.Keys
            && (forall c :: CollOf(s, c).Keys <= CollOf(r, c).Keys)
            && (forall c :: (forall i :: 0 <= i < |log| ==> log[i].coll != c) ==> CollOf(r, c) == CollOf(s, c))
    decreases |log|
  {
    if log != [] {
      ApplyEffect(s, log[0], now);
      CommitEffect(Apply(s, log[0], now), log[1..], now);
    }
  }

  /** The process state a sync reads and writes. */
  datatype World = World(cache: Cache, integrations: seq<Integration>, store: Store)

  datatype Synced = Synced(result: Result<Counts>, world: World)

  /** The walk of `resyncAllData`: the organisations, then each in turn.
      When it succeeds its counters are the upstream's tally. */
  function Walk(up: Upstream, now: int): (r: Step<Counts>)
    ensures up.orgs.None? ==> r == Step(Failure(UpstreamError), [])
    ensures r.result.Success? ==> up.orgs.Some? && r.result.value == Tally(up) && r.result.value.changelogs == 0
  {
    var o := FetchOrganizations(up, now);
    if o.result.Failure? then Step(Failure(o.result.error), o.log)
    else
      var orgs := o.result.value;
      var t := SyncOrgs(up, orgs, Counts(|orgs|, 0, 0, 0, 0, 0, 0), now);
      FetchedOrgsLogins(up, now);
      OrgsTallyByLogin(up, orgs, up.orgs.value);
      Step(t.result, o.log + t.log)
  }

  /** Whether an organisation is served depends only on its login. */
  lemma OrgsServedByLogin(up: Upstream, a: seq<Doc>, b: seq<Doc>)
    requires |a| == |b|
    requires forall i :: 0 <= i < |a| ==> Get(a[i], "login") == Get(b[i], "login")
    ensures OrgsServed(up, a) <==> OrgsServed(up, b)
  {
  }

  /** The walk succeeds exactly when everything it asks for is served. */
  lemma WalkServed(up: Upstream, now: int)
    ensures Walk(up, now).result.Success? <==> Served(up)
  {
    if FetchOrganizations(up, now).result.Success? {
      var orgs := FetchOrganizations(up, now).result.value;
      WalkUnfold(up, now);
      FetchedOrgsServed(up, now);
      SyncOrgsServed(up, orgs, Counts(|orgs|, 0, 0, 0, 0, 0, 0), now);
    } else {
      assert up.orgs.None?;
    }
  }

  lemma WalkUnfold(up: Upstream, now: int)
    requires FetchOrganizations(up, now).result.Success?
    ensures var orgs := FetchOrganizations(up, now).result.value;
            Walk(up, now).result == SyncOrgs(up, orgs, Counts(|orgs|, 0, 0, 0, 0, 0, 0), now).result
  {
  }

  /** Stamping the organisations does not change which are served. */
  lemma FetchedOrgsServed(up: Upstream, now: int)
    requires FetchOrganizations(up, now).result.Success?
    ensures OrgsServed(up, FetchOrganizations(up, now).result.value) <==> Served(up)
  {
    var orgs := FetchOrganizations(up, now).result.value;
    FetchedOrgsLogins(up, now);
    OrgsServedByLogin(up, orgs, up.orgs.value);
  }

  /** `resyncAllData()`. The client is resolved by the first fetch; every
      later `getApiClient` call finds it cached. `lastSyncTimestamp` is
      written only after the whole walk succeeded, and only if an active
      integration exists then. */
  function Resync(up: Upstream, w: World, now: int): (r: Synced)
    ensures GetApiClient(w.cache, w.integrations).Failure? ==> r == Synced(Failure(NoActiveIntegration), w)
    ensures r.result.Success? ==> r.world.integrations == MarkSynced(w.integrations, now)
    ensures r.result.Failure? ==> r.world.integrations == w.integrations
    ensures r.world.cache.Empty? ==> r.result == Failure(NoActiveIntegration)
    ensures GetApiClient(w.cache, w.integrations).Success? ==> (r.result.Success? <==> Served(up))
  {
    match GetApiClient(w.cache, w.integrations)
    case Failure(e) => Synced(Failure(e), w)
    case Success(got) =>
      var cache := got.1;
      var t := Walk(up, now);
      WalkServed(up, now);
      var store := Commit(w.store, t.log, now);
      if t.result.Failure? then Synced(Failure(t.result.error), World(cache, w.integrations, store))
      else Synced(Success(t.result.value), World(cache, MarkSynced(w.integrations, now), store))
  }
}
