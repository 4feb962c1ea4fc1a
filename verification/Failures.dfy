/** Errors as the retry logic sees them, and the retry filter of connector.go. */
module Failures {
  import opened Prelude

  /** `query`, `deadline` and `noResults` are what errors.Is finds in the chain. */
  datatype Error = Error(message: string, query: bool, deadline: bool, noResults: bool, downstream: bool)

  /** Wrapping as a downstream error changes neither the message nor the chain. */
  function Downstream(e: Error): (r: Error)
    ensures r.downstream && r.message == e.message
    ensures r.query == e.query && r.deadline == e.deadline && r.noResults == e.noResults
  {
    e.(downstream := true)
  }

  const MISSING_MULTIPLE_CONNECTIONS_CONFIG: Error :=
    Error("received connection arguments but the feature is not enabled", false, false, false, false)

  const MISSING_DB_CONNECTION: Error :=
    Error("unable to get default db connection", false, false, false, false)

  predicate Retryable(retryOn: seq<string>, e: Error) {
    exists i :: 0 <= i < |retryOn| && Contains(e.message, retryOn[i])
  }

  method ShouldRetry(retryOn: seq<string>, e: Error) returns (retry: bool)
    ensures retry <==> Retryable(retryOn, e)
  {
    for i := 0 to |retryOn|
      invariant forall j :: 0 <= j < i ==> !Contains(e.message, retryOn[j])
    {
      if Contains(e.message, retryOn[i]) {
        return true;
      }
    }
    return false;
  }
}
