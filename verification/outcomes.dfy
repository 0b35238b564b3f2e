/**
 * Values shared by the SEO helper: an optional value, the errors the helper
 * throws or rethrows, and the outcome of an asynchronous call (it either
 * resolves with a value or rejects with an error).
 */
module Outcomes {

  datatype Option<+T> = None | Some(value: T)

  /** A thrown JavaScript error: its message and, for errors raised by the
      completion client, an optional numeric HTTP status. */
  datatype Error = Error(message: string, status: Option<int>)

  /** How an awaited call ends: it returns a value or throws an error. */
  datatype Outcome<+T> = Returned(value: T) | Threw(error: Error)

  /** HTTP status that the completion service uses for "too many requests". */
  const RATE_LIMITED_STATUS: int := 429

  /** The test `error?.status === 429`. */
  predicate IsRateLimited(e: Error)
    ensures IsRateLimited(e) ==> e.status.Some? && e.status.value == 429
    ensures e.status.None? ==> !IsRateLimited(e)
  {
    e.status == Some(RATE_LIMITED_STATUS)
  }

  /** An outcome the retry policy may retry: a rejection carrying status 429. */
  predicate IsRetryable<T>(o: Outcome<T>) {
    o.Threw? && IsRateLimited(o.error)
  }
}
