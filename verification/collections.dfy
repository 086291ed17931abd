/** The seven synced collections, their route names, the unique field each
    is upserted by, and the fields the read API searches. */
module Collections {
  import opened Results

  datatype Coll = Organizations | Repos | Commits | Pulls | Issues | Changelogs | Users

  /** The collections in the declaration order of the `models` table. */
  const AllColls: seq<Coll> := [Organizations, Repos, Commits, Pulls, Issues, Changelogs, Users]

  /** The key under which the `models` table lists a collection. */
  function Name(c: Coll): string
  {
    match c
    case Organizations => "organizations"
    case Repos => "repos"
    case Commits => "commits"
    case Pulls => "pulls"
    case Issues => "issues"
    case Changelogs => "changelogs"
    case Users => "users"
  }

  /** `models[name]`: the collection a route name denotes, if any. */
  function Lookup(name: string): (r: Option<Coll>)
    ensures r.Some? ==> Name(r.value) == name
    ensures r.None? ==> forall c: Coll :: Name(c) != name
  {
    if name == "organizations" then Some(Organizations)
    else if name == "repos" then Some(Repos)
    else if name == "commits" then Some(Commits)
    else if name == "pulls" then Some(Pulls)
    else if name == "issues" then Some(Issues)
    else if name == "changelogs" then Some(Changelogs)
    else if name == "users" then Some(Users)
    else None
  }

  /** Every collection is found again under its own name. */
  lemma LookupName(c: Coll)
    ensures Lookup(Name(c)) == Some(c)
  {
  }

  /** The `uniqueField` the sync engine passes to bulkUpsert for a collection. */
  function UniqueField(c: Coll): (f: string)
    ensures f != "syncedAt"
    ensures f == "sha" <==> c == Commits
    ensures f != "sha" ==> f == "id"
  {
    if c == Commits then "sha" else "id"
  }

  /** The `searchFields` table. */
  function SearchFields(c: Coll): (fs: seq<string>)
    ensures |fs| > 0
  {
    match c
    case Organizations => ["login", "name", "description"]
    case Repos => ["name", "full_name", "description"]
    case Commits => ["sha"]
    case Pulls => ["title", "state"]
    case Issues => ["title", "state"]
    case Changelogs => ["event"]
    case Users => ["login", "name", "email"]
  }
}
