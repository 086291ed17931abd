/** The integration records and the module-level API client cache
    (`getApiClient`), plus the end-of-sync `lastSyncTimestamp` update. */
module ApiClient {
  import opened Results

  /** A GithubIntegration record, reduced to what the sync engine reads and
      writes. */
  datatype Integration = Integration(oauthToken: string, integrationStatus: string, lastSyncTimestamp: Option<int>)

  predicate IsActive(i: Integration)
  {
    i.integrationStatus == "active"
  }

  /** `findOne({ integrationStatus: 'active' })`: the first active record. */
  function FindActive(ints: seq<Integration>): (r: Option<nat>)
    ensures r.Some? ==> r.value < |ints| && IsActive(ints[r.value])
    ensures r.Some? ==> forall j :: 0 <= j < r.value ==> !IsActive(ints[j])
    ensures r.None? ==> forall j :: 0 <= j < |ints| ==> !IsActive(ints[j])
  {
    if ints == [] then None
    else if IsActive(ints[0]) then Some(0)
    else match FindActive(ints[1..])
      case None => None
      case Some(k) => Some(k + 1)
  }

  /** A client built from an OAuth token. */
  datatype Client = Client(token: string)

  /** The module-level `apiClient` variable: null, or a client. */
  datatype Cache = Empty | Cached(client: Client)

  /** `getApiClient()`: hand out the cached client; when there is none, build
      one from the active integration and cache it, or fail when no
      integration is active. Returns the client and the new cache. */
  function GetApiClient(cache: Cache, ints: seq<Integration>): (r: Result<(Client, Cache)>)
    ensures cache.Cached? ==> r == Success((cache.client, cache))
    ensures cache.Empty? && FindActive(ints).None? ==> r == Failure(NoActiveIntegration)
    ensures cache.Empty? && FindActive(ints).Some? ==>
              r.Success? && r.value.0.token == ints[FindActive(ints).value].oauthToken && r.value.1 == Cached(r.value.0)
  {
    match cache
    case Cached(c) => Success((c, cache))
    case Empty =>
      match FindActive(ints)
      case None => Failure(NoActiveIntegration)
      case Some(k) => var c := Client(ints[k].oauthToken); Success((c, Cached(c)))
  }

  /** Once a client is cached every later call returns it, whatever the
      integration records say by then: the cache is never invalidated. */
  lemma CacheIsSticky(cache: Cache, ints: seq<Integration>, later: seq<Integration>)
    requires GetApiClient(cache, ints).Success?
    ensures var (c, cache') := GetApiClient(cache, ints).value;
            GetApiClient(cache', later) == Success((c, cache'))
  {
  }

  /** The only way `getApiClient` fails: nothing cached and nothing active. */
  lemma FailsOnlyWithoutIntegration(cache: Cache, ints: seq<Integration>)
    ensures GetApiClient(cache, ints).Failure? <==> cache.Empty? && forall j :: 0 <= j < |ints| ==> !IsActive(ints[j])
  {
    if cache.Empty? && FindActive(ints).Some? {
      var k := FindActive(ints).value;
      assert IsActive(ints[k]);
    }
  }

  /** The end of `resyncAllData`: stamp `lastSyncTimestamp` on the active
      integration, if there is one; leave every record alone otherwise. */
  function MarkSynced(ints: seq<Integration>, now: int): (r: seq<Integration>)
    ensures |r| == |ints|
    ensures FindActive(ints).None? ==> r == ints
    ensures FindActive(ints).Some? ==>
              var k := FindActive(ints).value;
              && r[k] == ints[k].(lastSyncTimestamp := Some(now))
              && forall j :: 0 <= j < |ints| && j != k ==> r[j] == ints[j]
  {
    match FindActive(ints)
    case None => ints
    case Some(k) => ints[k := ints[k].(lastSyncTimestamp := Some(now))]
  }

  /** Stamping twice is stamping once with the later clock reading: the
      active record is found again, since stamping does not change any
      status. */
  lemma MarkSyncedTwice(ints: seq<Integration>, t1: int, t2: int)
    ensures MarkSynced(MarkSynced(ints, t1), t2) == MarkSynced(ints, t2)
  {
    SameStatusSameActive(ints, MarkSynced(ints, t1));
  }

  lemma {:induction false} SameStatusSameActive(a: seq<Integration>, b: seq<Integration>)
    requires |a| == |b|
    requires forall j :: 0 <= j < |a| ==> a[j].integrationStatus == b[j].integrationStatus
    ensures FindActive(a) == FindActive(b)
  {
    if a != [] {
      SameStatusSameActive(a[1..], b[1..]);
    }
  }
}
