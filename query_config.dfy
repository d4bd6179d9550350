/**
  The caching and retry settings shared by the asset queries, and the number
  of timeline buckets fetched per page of the infinite timeline.
 */
module QueryConfig {
  import opened Wrappers

  /** Five minutes, in milliseconds. */
  const StaleTimeMs: nat := 5 * 60 * 1000
  /** Ten minutes, in milliseconds. */
  const GcTimeMs: nat := 10 * 60 * 1000
  const BucketsPerPage: nat := 3

  /**
    What a failed query threw: an API error, whose status is a number for
    an HTTP failure and absent for a network failure, or anything else.
   */
  datatype QueryError = ApiError(status: Option<int>) | OtherError

  /** `isAPIError`: an API error that carries a numeric status. */
  predicate IsApiErrorWithStatus(error: QueryError) {
    error.ApiError? && error.status.Some?
  }

  /** Whether to try again after `failureCount` earlier failures and this `error`. */
  function Retry(failureCount: nat, error: QueryError): (r: bool)
    ensures error == ApiError(Some(401)) ==> !r
    ensures error != ApiError(Some(401)) ==> (r <==> failureCount < 2)
  {
    if IsApiErrorWithStatus(error) && error.status.value == 401 then false
    else failureCount < 2
  }

  /**
    How many times a query that always fails with `error` is run, when the
    query library asks `Retry` after each failure, counting earlier failures
    from 0.
   */
  function Attempts(failureCount: nat, error: QueryError): nat
    decreases 2 - failureCount
  {
    1 + if Retry(failureCount, error) then Attempts(failureCount + 1, error) else 0
  }

  /** An authentication failure is run once; any other failure three times, that is, retried twice. */
  lemma AttemptsTotal(error: QueryError)
    ensures Attempts(0, error) == if error == ApiError(Some(401)) then 1 else 3
  {
    if error != ApiError(Some(401)) {
      assert Attempts(2, error) == 1;
      assert Attempts(1, error) == 2;
    }
  }

  /** A network failure carries no status, so it is retried like any other failure. */
  lemma NetworkErrorRetried(failureCount: nat)
    ensures !IsApiErrorWithStatus(ApiError(None))
    ensures Retry(failureCount, ApiError(None)) <==> failureCount < 2
  {
  }
}
