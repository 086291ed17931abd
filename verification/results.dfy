/** Failure-carrying wrappers shared by the model: an optional value, and the
    outcome of an operation that either produces a value or throws one of the
    errors the controllers raise. */
module Results {

  datatype Option<+T> = None | Some(value: T)

  /** The errors the two controllers throw. */
  datatype Error =
    | NoActiveIntegration   // getApiClient: no cached client and no active integration
    | UpstreamError         // any failure of an external API call
    | MalformedRecord       // a repository whose full_name cannot be split
    | CollectionNotFound    // getCollection: unknown collection name
    | SearchQueryMissing    // search: empty or absent keyword
    | DatabaseError         // a query the database rejects, e.g. an invalid `$regex`

  datatype Result<+T> = Success(value: T) | Failure(error: Error)
}
