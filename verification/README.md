# GitHub integration backend: sync engine and read API, in Dafny

This project models the two controllers at the heart of the GitHub
integration backend.

- **The sync engine** (`controllers/githubController.js`) has several parts:
  - `getApiClient` keeps the API client in a module-level cache.
  - `fetchAllPages` pages through a listing until it gets a short or empty page.
  - `bulkUpsert` turns a batch of documents into one `bulkWrite` of keyed `updateOne` upserts, each stamped with `syncedAt`.
  - Seven `fetchX` operations stamp the items they fetch and upsert them. `fetchIssues` also fetches the event log of every issue that has a number.
  - `resyncAllData` walks organisations, then their repositories and members, then each repository's commits, pull requests and issues. It counts what it stored and stamps `lastSyncTimestamp` on the active integration.
- **The read API** (`controllers/dataRouteController.js`) has these parts:
  - `buildOptions` computes paging and sorting.
  - `buildFilter` reads the client's JSON filter.
  - `buildSearchFilter` builds the case-insensitive `$or` search clause.
  - `formatResponse` builds the pagination block.
  - `getCollection` merges filter and search into one query.
  - `search` looks a keyword up across all collections.

The model is purely functional. It has these parts:

- **Documents** are maps from property names to JSON-like values. A missing property reads as `undefined`.
- **The upstream GitHub API** is finite data. A listing that is absent stands for the API call failing.
- **The traversal** returns its result together with the sequence of `bulkUpsert` calls it made. `Commit` replays that log against a store of keyed collections.
- **MongoDB** stands in two ways. On the sync side it is the `bulkWrite` fold, which never fails: the sync's database calls (`findOne`, `bulkWrite`, `save`) always succeed in the model. On the read side it is a `find` and a `count` passed as parameters, either of which may reject a query, plus a small query evaluator (`Matches`) that gives the read API's queries their meaning. Regular-expression matching is a parameter of the evaluator.

| file | module | what it holds |
|---|---|---|
| `results.dfy` | `Results` | `Option`, `Result` and the error cases the controllers throw |
| `documents.dfy` | `Documents` | values, documents, the `{ ...x, ...stamp }` spread |
| `collections.dfy` | `Collections` | the seven collections, the `models` and `searchFields` tables, the unique field of each |
| `pagination.dfy` | `Pagination` | `fetchAllPages`, as a recursive function and as the `while (true)` loop |
| `upsert.dfy` | `Upsert` | `bulkUpsert` and the `bulkWrite` it issues |
| `apiclient.dfy` | `ApiClient` | integration records, the client cache, the `lastSyncTimestamp` stamp |
| `sync.dfy` | `Sync` | the fetch operations, the changelog fan-out, `resyncAllData` |
| `writes.dfy` | `SyncWrites` | the `bulkUpsert` calls a full sync makes, and what a successful sync leaves stored |
| `sync_props.dfy` | `SyncProperties` | counters, convergence of a re-sync, one record per key |
| `clock.dfy` | `ClockIndependence` | a walk depends on the clock only through `syncedAt` |
| `numbers.dfy` | `Numbers` | `Number(string)` on decimal numerals and `String(n)` |
| `queries.dfy` | `Queries` | `buildOptions`, `buildFilter`, the spread of the filter, `buildSearchFilter`, the query evaluator |
| `dataroutes.dfy` | `DataRoutes` | `formatResponse`, `getCollection`, `search` |

`resyncAllData` initialises the `changelogs` counter to 0 and never adds to it, although `fetchIssues` stores every issue's event log. The model keeps that behaviour. `SyncProperties.ResyncCounts` proves that a successful sync always reports 0 changelogs.

The issue loop follows an issue's events only when its `number` is truthy (`controllers/githubController.js:121`). An issue numbered 0 is therefore skipped, just like one without a number. The model uses that same test (`Sync.ChangelogNumbers`).

## Model

| member | source | states |
|---|---|---|
| `ApiClient.FindActive` | controllers/githubController.js:16 | the index of the first integration whose status is `active`, or none when no record is active |
| `ApiClient.GetApiClient` | controllers/githubController.js:14-23 | a cached client is returned unchanged. With an empty cache the client is built from the first active integration's token and cached. With no active integration the call fails |
| `ApiClient.CacheIsSticky` | controllers/githubController.js:15-22 | once a call has succeeded, every later call returns the same client, whatever the integration records say by then |
| `ApiClient.FailsOnlyWithoutIntegration` | controllers/githubController.js:15-19 | the call fails exactly when nothing is cached and no integration record is active |
| `ApiClient.MarkSynced` | controllers/githubController.js:201-205 | only the first active integration gets `lastSyncTimestamp` set to the clock; every other record is unchanged, and nothing changes when none is active |
| `ApiClient.MarkSyncedTwice` | controllers/githubController.js:201-205 | stamping twice is stamping once with the later clock reading: the same record is found active both times |
| `Pagination.FetchAllPages` | controllers/githubController.js:25-38 | the number of calls is fixed by the first empty or short page; the result is the requested pages concatenated in order; at most one call more than the listing has pages |
| `Pagination.FetchAllPagesLoop` | controllers/githubController.js:25-38 | the loop requests pages 1, 2, … with `perPage` each, stops at the first empty or short page, and returns the requested pages concatenated |
| `Pagination.CallsUnique` | controllers/githubController.js:29-35 | the stopping rule admits one number of calls only |
| `Pagination.ThreePages` | controllers/githubController.js:25-38 | pages of 100, 100 and 37 items take 3 calls and yield the 237 items in order |
| `Pagination.EmptyFirstPage` | controllers/githubController.js:31 | an empty first page yields nothing after one call |
| `Documents.Normalize` | controllers/githubController.js:58 | every fetched item is kept, in order, with the stamp's properties written over it and all its other properties intact |
| `Upsert.BuildOps` | controllers/githubController.js:43-49 | one `updateOne` per document, filtered on that document's unique-field value (`undefined` when missing), setting the document plus the `syncedAt` stamp |
| `Upsert.BulkWrite` | controllers/githubController.js:51 | the store ends up holding every filtered key; records under other keys are unchanged |
| `Upsert.BulkUpsert` | controllers/githubController.js:40-53 | an empty batch issues no write. Otherwise one `bulkWrite` runs: every document's key is present afterwards and holds at least that document's fields, and other records are untouched. The batch is returned as given |
| `Upsert.BulkWriteAppend` | controllers/githubController.js:51 | applying two batches of operations in a row is applying their concatenation |
| `Upsert.BulkWriteIdempotent` | controllers/githubController.js:43-51 | replaying a batch of upserts leaves the collection unchanged |
| `Upsert.PartialThenFull` | controllers/githubController.js:40-53 | a `bulkWrite` cut short after any prefix of its operations, followed by a full re-run, leaves the collection exactly as one full run at the later clock would |
| `Upsert.UpsertIdempotent` | controllers/githubController.js:40-53 | re-running the same batch, even at a later clock, gives exactly what one run at the later clock gives: re-ingesting never duplicates |
| `Upsert.LastOpWins` | controllers/githubController.js:44-48 | the record under a key is the last operation on that key's `$set` over what the earlier operations left |
| `Upsert.LastWins` | controllers/githubController.js:43-51 | among documents of a batch sharing a key, the last one's fields hold its values, and `syncedAt` holds the batch clock |
| `Upsert.FieldsStay` | controllers/githubController.js:46 | every field a batch sets is present on its record after the whole batch |
| `Upsert.UpsertKeepsKeys` | controllers/githubController.js:45 | when every record is filed under the value of its own unique field, it stays so after an upsert |
| `Sync.SplitFullName` | controllers/githubController.js:187 | a non-string full name throws. Otherwise the owner is the slash-free prefix that ends at the first slash or at the end. The repository name is missing exactly when there is no slash, and otherwise is the slash-free run right after the first slash |
| `Sync.SplitFullNameInverse` | controllers/githubController.js:77-82 | splitting the `${owner}/${repoName}` a stamp writes gives back the owner and the name when neither holds a slash |
| `Sync.FetchOrganizations` | controllers/githubController.js:55-61 | a failed call writes nothing. Otherwise every organisation is stamped with `syncedAt`, the batch is upserted once into organisations, and the batch is returned |
| `Sync.FetchRepos` | controllers/githubController.js:63-69 | the same for the repositories of one organisation login |
| `Sync.FetchCommits` | controllers/githubController.js:71-86 | all pages of commits are stamped with `repo`, `repo_full_name` and `syncedAt`, upserted once into commits, and returned |
| `Sync.FetchPulls` | controllers/githubController.js:88-103 | the same for pull requests |
| `Sync.FetchChangelogs` | controllers/githubController.js:129-145 | the same for the events of one issue, stamped also with `issue_number` |
| `Sync.FetchUsers` | controllers/githubController.js:147-161 | all pages of members are stamped with `organization` and `syncedAt`, upserted once into users, and returned |
| `Sync.FetchIssues` | controllers/githubController.js:105-127 | the stamped issues are upserted first; then the changelog writes follow. The call succeeds exactly when the changelog loop does, and it returns the issue documents |
| `Sync.ChangelogNumbers` | controllers/githubController.js:120-124 | every followed number is truthy, there are no more of them than issues, and every truthy issue number is among them |
| `Sync.ChangelogNumbersExact` | controllers/githubController.js:120-124 | the followed numbers are, in issue order, the numbers of exactly the issues whose number is truthy: one per such issue and nothing else |
| `Sync.FollowChangelogs` | controllers/githubController.js:120-124 | the loop writes only to the changelogs collection, at most one batch per truthy issue number and exactly one each when it succeeds; a failure is the failed listing's |
| `Sync.ChangelogsSucceed` | controllers/githubController.js:120-124 | the changelog loop succeeds exactly when every truthy issue number has an events listing |
| `Sync.ChangelogsInOrder` | controllers/githubController.js:120-124 | a successful loop writes one stamped events batch per truthy issue number, in issue order |
| `Sync.SyncRepo` | controllers/githubController.js:186-198 | for one repository, a success adds exactly its commits, pull requests and issues to the counters (its calls: `SyncWrites.SyncRepoWrites`) |
| `Sync.SyncRepoServed` | controllers/githubController.js:186-198 | one repository's sync succeeds exactly when its full name is a string and its commits, pull requests, issues and every truthy-numbered issue's events are served |
| `Sync.SyncRepos` | controllers/githubController.js:186-198 | a success adds the tally of every repository, in any grouping (its calls: `SyncWrites.SyncReposWrites`) |
| `Sync.SyncReposServed` | controllers/githubController.js:186-198 | the repositories' loop succeeds exactly when every repository is served |
| `Sync.SyncOrg` | controllers/githubController.js:177-199 | for one organisation, a success adds its repositories, its members and all its repositories' tallies (its calls: `SyncWrites.SyncOrgWrites`) |
| `Sync.SyncOrgServed` | controllers/githubController.js:177-199 | one organisation's sync succeeds exactly when its repositories and members are listed and each of its repositories is served |
| `Sync.SyncOrgs` | controllers/githubController.js:177-199 | a success adds the tally of every organisation (its calls: `SyncWrites.SyncOrgsWrites`) |
| `Sync.SyncOrgsServed` | controllers/githubController.js:177-199 | the organisations' loop succeeds exactly when every organisation is served |
| `Sync.Walk` | controllers/githubController.js:174-199 | a failed organisations call fails with no writes. A successful walk reports exactly the upstream's tally, with 0 changelogs (its calls: `SyncWrites.WalkWritesServed`) |
| `Sync.WalkServed` | controllers/githubController.js:174-199 | the walk succeeds exactly when the organisations are listed and every one of them is served |
| `Sync.ApplyEffect` | controllers/githubController.js:40-53 | one `bulkUpsert` call changes only its own collection: it adds its batch's keys there and removes nothing, and an empty batch changes nothing |
| `Sync.CommitEffect` | controllers/githubController.js:40-53 | a sequence of `bulkUpsert` calls never removes a collection or a record, and leaves every collection it does not address unchanged |
| `Sync.Resync` | controllers/githubController.js:163-208 | without a client the sync fails and changes nothing. With a client it succeeds exactly when every listing the walk asks for is served. `lastSyncTimestamp` is stamped only after a successful walk, and an empty cache after the sync means it failed (its store: `SyncWrites.ResyncStore`) |
| `SyncWrites.SyncRepoWrites` | controllers/githubController.js:186-193 | a served repository's sync upserts, in this order, its commits, pull requests and issues, each stamped with the repository, then the events of every truthy-numbered issue in issue order, and nothing else |
| `SyncWrites.SyncReposWrites` | controllers/githubController.js:186-198 | served repositories are synced with exactly their reference calls, one repository after the other |
| `SyncWrites.ReposWritesByName` | controllers/githubController.js:187 | the calls made for a repository depend only on its `full_name` |
| `SyncWrites.SyncOrgWrites` | controllers/githubController.js:177-198 | a served organisation's sync upserts its stamped repositories, then its members stamped with the organisation, then makes each listed repository's reference calls |
| `SyncWrites.SyncOrgsWrites` | controllers/githubController.js:177-199 | served organisations are synced with exactly their reference calls, one organisation after the other |
| `SyncWrites.WalkWritesServed` | controllers/githubController.js:174-199 | when everything is served, the walk upserts the stamped organisations and then makes each organisation's reference calls, and nothing else |
| `SyncWrites.ResyncStore` | controllers/githubController.js:163-208 | after a successful sync the store is the old store with the reference calls applied in order |
| `SyncWrites.WrittenKeysStored` | controllers/githubController.js:40-53 | after a sequence of `bulkUpsert` calls, every unique-field value of every batch is a key of its collection |
| `SyncWrites.CommitsStored` | controllers/githubController.js:163-199 | after a successful sync, every commit the upstream lists for a repository of a listed organisation is stored under its `sha` |
| `SyncProperties.MembersFailureStopsSync` | controllers/githubController.js:177-181 | when the members listing of the first organisation fails, that organisation's repositories are still written and the sync fails before any later organisation |
| `SyncProperties.ResyncCounts` | controllers/githubController.js:163-199 | with a client and every listing served, the sync succeeds with the upstream's tally. A successful sync reports one organisation per organisation, and per organisation its repositories and members, and per repository its commits, pull requests and issues; changelogs stay 0 |
| `SyncProperties.CommitDomain` | controllers/githubController.js:41 | a sync creates exactly the collections it writes a non-empty batch to |
| `SyncProperties.CommitProjects` | controllers/githubController.js:51 | each collection ends up as the bulk write of the upserts addressed to it, in order |
| `SyncProperties.CommitIdempotent` | controllers/githubController.js:40-53 | replaying all the writes of a sync leaves the store as it was |
| `SyncProperties.CommitAgain` | controllers/githubController.js:40-53 | writing a sync's calls over those of an earlier sync that differ only in `syncedAt` leaves the store as the later calls alone would |
| `SyncProperties.ResyncConverges` | controllers/githubController.js:163-208 | a second sync against the same upstream, at the same or any later clock reading, returns what a single sync at that reading returns and leaves the cache, the integrations and every collection exactly as that single sync would |
| `SyncProperties.ResyncIdempotent` | controllers/githubController.js:163-208 | a second sync at the same clock reading changes nothing |
| `ClockIndependence.FollowAlike` | controllers/githubController.js:120-124 | the changelog loop at two clock readings returns the same result and makes the same calls up to `syncedAt` |
| `ClockIndependence.SyncRepoAlike` | controllers/githubController.js:186-198 | the same for one repository, given only its full name |
| `ClockIndependence.WalkAlike` | controllers/githubController.js:174-199 | two walks of the same upstream at any two clock readings return the same result and make the same `bulkUpsert` calls, in the same order, up to `syncedAt` |
| `SyncProperties.ResyncKeepsKeys` | controllers/githubController.js:45 | a sync, successful or not, keeps every record filed under its own unique-field value |
| `Collections.Lookup` | controllers/dataRouteController.js:10-18 | the collection a route name denotes, found exactly when some collection has that name |
| `Collections.LookupName` | controllers/dataRouteController.js:10-18 | every collection is found again under its own name |
| `Collections.UniqueField` | controllers/githubController.js:59-159 | commits are upserted by `sha`, every other collection by `id`; never by `syncedAt` |
| `Collections.SearchFields` | controllers/dataRouteController.js:20-28 | every collection has at least one searched field |
| `Numbers.ParseNumber` | controllers/dataRouteController.js:32-33 | `Number(s)` is defined exactly for the empty string and for optionally signed decimal numerals; a numeral with `+`, `-` or no sign has its value |
| `Numbers.ParseShow` | controllers/dataRouteController.js:32-33 | reading back any integer written in decimal gives the integer |
| `Queries.NumberOr` | controllers/dataRouteController.js:32-33 | a parameter that is missing, not a number, or 0 falls back to the default; any other numeral gives its value |
| `Queries.BuildOptions` | controllers/dataRouteController.js:31-45 | page and limit are the `page` and `limit` parameters read as numbers, falling back to 1 and 10, so never 0. Skip is `(page - 1) * limit`. The sort has one field: `sort_by` when given, else `createdAt`. The order is ascending only for `sort_order=asc` |
| `Queries.OptionsRoundTrip` | controllers/dataRouteController.js:32-33 | a page and a limit sent as decimal numerals come back unchanged, 0 falling back to the defaults |
| `Queries.OptionsDefaults` | controllers/dataRouteController.js:31-45 | without parameters: page 1, ten per page, nothing skipped, newest `createdAt` first |
| `Queries.BuildFilter` | controllers/dataRouteController.js:47-55 | a missing, empty or unparsable filter means no condition; otherwise the parsed value, of whatever JSON type |
| `Queries.Spread` | controllers/dataRouteController.js:94 | an object spreads its own properties and an array or string its elements under decimal index keys; anything else spreads to nothing |
| `Queries.BuildSearchFilter` | controllers/dataRouteController.js:57-65 | empty exactly when the term or the field list is missing or empty. Otherwise an `$or` with one case-insensitive `$regex` clause per field, in field order |
| `Queries.SearchMeaning` | controllers/dataRouteController.js:57-65 | the search clause selects exactly the documents in which some searched field holds a string the term matches case-insensitively |
| `Queries.MergeMeaning` | controllers/dataRouteController.js:94 | merging two queries whose keys do not clash selects what both select |
| `DataRoutes.CeilDiv` | controllers/dataRouteController.js:74 | `Math.ceil(a / b)` is the least integer at or above the quotient (greatest sign-adjusted for a negative divisor) and is not finite for a zero divisor |
| `DataRoutes.FormatResponse` | controllers/dataRouteController.js:67-79 | the data and paging arguments are passed through. `totalPages` is the number of pages the total needs. There is a next page exactly when `page * limit < total`, and a previous one exactly when `page > 1` |
| `DataRoutes.NextIffBelowPageCount` | controllers/dataRouteController.js:74-75 | with a positive limit, there is a next page exactly when the page is below `totalPages` |
| `DataRoutes.OptionsAgreeWithPaging` | controllers/dataRouteController.js:31-79 | for a positive page and limit, `hasPrev` holds exactly when records are skipped, and `hasNext` exactly when records remain after the page |
| `DataRoutes.CollectionQuery` | controllers/dataRouteController.js:89-94 | the merged query has the filter's keys and the search keys. The search clause wins on a clash, and a scalar filter contributes nothing |
| `DataRoutes.GetCollection` | controllers/dataRouteController.js:81-106 | an unknown collection fails with `Collection not found`. Otherwise the request succeeds exactly when the database answers both `find` and `count`; a rejection fails it with the first rejection, `find` before `count`. On success the page is what `find` returns for the merged query and the options, the total is the count of the same query, and the page count is finite |
| `DataRoutes.CollectionQueryMeaning` | controllers/dataRouteController.js:89-96 | with a search term and an object filter without `$or`, the listing selects the filter's documents that also match the term in a searched field |
| `DataRoutes.Take` | controllers/dataRouteController.js:124 | a prefix of the hits of length the smaller of the limit and the number of hits |
| `DataRoutes.Gather` | controllers/dataRouteController.js:117-129 | the loop succeeds exactly when the database answers every collection's query, and then never drops a name it has already listed |
| `DataRoutes.GatherFails` | controllers/dataRouteController.js:117-124 | a failed loop carries the rejection of the first collection, in loop order, whose query the database rejected |
| `DataRoutes.GatherKeys` | controllers/dataRouteController.js:117-129 | a successful loop lists a name exactly when it was listed before or a collection of that name has hits |
| `DataRoutes.GatherValue` | controllers/dataRouteController.js:123-128 | after a successful loop, a collection with hits is listed with its first hits |
| `DataRoutes.Search` | controllers/dataRouteController.js:108-132 | a missing or empty keyword fails with `Search query missing`. Otherwise the search succeeds exactly when the database answers every collection's query, and fails with the rejection of the first collection in table order that it rejects. On success exactly the collections with hits are listed, each under its name with at most its first ten hits, and there are no other keys |

## Left out

- `helpers/githubApi.js`, `helpers/response.js` and the Mongoose models are not part of this model. The upstream listings are data, `find` and `count` are parameters, and `Response.paginated`/`Response.success` are the returned values.
- Concurrency: each `Promise.all` group is modelled as all its members running to completion, all their writes landing in the order commits, pulls, issues (or repositories, members), and the group failing when any member failed. The error reported is the first in that order, not the first in time. Interleavings of the writes are not modelled.
- The clock: every `new Date()` of one sync reads the same `now`. The source reads it once per document, so its stamps within one sync may differ by milliseconds.
- An upstream listing with infinitely many full pages, on which `fetchAllPages` would not terminate: the upstream is a finite sequence of pages.
- The kind of an API failure: any failing call is `UpstreamError`. The HTTP status, retries and rate limits live in the API helper.
- The second `findOne` of `resyncAllData` (`controllers/githubController.js:201`) reads the same integration records as the first `getApiClient`. Records changing during a sync are not modelled.
- Sync.Resync: the database calls of a sync never fail in the model. In the source, `GithubIntegration.findOne` (`controllers/githubController.js:16`, `:201`), each `Model.bulkWrite` (`:51`) and `integration.save()` (`:204`) can reject. A rejected `bulkWrite` aborts the sync after the earlier batches, and possibly a prefix of its own operations, have landed (`Upsert.PartialThenFull` states that a re-run still converges). A rejected `save` leaves all the data written but no `lastSyncTimestamp`. "Succeeds exactly when every listing is served" holds only under that assumption.
- ApiClient.FailsOnlyWithoutIntegration: a rejected `findOne` (`controllers/githubController.js:16`) is not modelled, so "fails exactly when nothing is cached and no record is active" holds only when the database answers.
- SyncWrites.ResyncStore: states the store after a successful sync only. A failed sync keeps the calls it made before failing, including those of every member of a failed `Promise.all` group; no reference log is stated for that case, only `SyncProperties.ResyncKeepsKeys`.
- Numbers.ParseNumber: JavaScript's `Number` also accepts surrounding whitespace, decimals, exponents, the `0x`, `0o` and `0b` prefixes and `Infinity`. The model treats these as NaN, so their fallback to the default is modelled where the source would use the value.
- Numbers.ParseNumber: values are exact integers, not IEEE doubles. Past 2^53 the source rounds, and a numeral too large for a double is `Infinity`, which makes `skip` `Infinity` or `NaN`. The model keeps the exact value.
- Queries.Spread: JavaScript indexes a string by UTF-16 code units; the model indexes it by Dafny characters (Unicode scalar values). The two differ for characters outside the Basic Multilingual Plane.
- Queries.BuildOptions: a page or limit outside the numerals above, and array-valued query parameters (`?page=1&page=2`), are not modelled. Neither is MongoDB's handling of a negative value: a negative `skip` is refused, while the driver turns a negative `limit` into a single batch of its absolute size.
- Which queries the database rejects: `find` and `count` are parameters that may fail, and a failure ends the request with their error. That an invalid `$regex` (a search term such as `(`) or an unknown `$` operator in a parsed filter is rejected lives in MongoDB, not in the controllers.
- The regular-expression engine: `$regex` matching is a parameter of the evaluator. Only field equality, `$regex` with `$options`, and a top-level `$or` are given a meaning.
- DataRoutes.CollectionQueryMeaning: when the client's filter has its own `$or`, the search `$or` replaces it. `DataRoutes.CollectionQuery` states that override; its meaning as a query is stated only for filters without `$or`.
- Inherited object properties: `models['constructor']` and other prototype keys are truthy in JavaScript; the model's `Lookup` knows only the seven collection names.
- DataRoutes.Search: the key order of the result object is not modelled, only its keys and values.
- Authentication, the integration routes and server start-up (`authController.js`, `integrationController.js`, `index.js`, the middleware) are outside the core.
