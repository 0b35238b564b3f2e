/**
 * The bounded retry policy `tryWithRetry`: call an operation up to `retries`
 * times, retry only on a rate-limited failure that is not on the last
 * attempt, waiting the scheduled delay before each retry.
 *
 * The operation is given as `fn: nat -> Outcome<T>`, the outcome of its i-th
 * call (counting from 0). Waiting is not performed; each requested delay is
 * recorded, in milliseconds, in the order requested.
 */
module Retry {
  import opened Outcomes

  /** The backoff schedule, in milliseconds. */
  const RETRY_DELAYS: seq<int> := [1000, 2000, 4000]

  /** The default number of attempts, `RETRY_DELAYS.length`. */
  const DEFAULT_RETRIES: int := |RETRY_DELAYS|

  /** The error thrown when the loop runs no attempt at all. */
  const ALL_RETRIES_FAILED: Error := Error("All retries failed", None)

  /** The wait requested before retrying after attempt `i`. Reading past the
      end of the schedule yields `undefined`, which the timer treats as a
      zero delay. */
  function DelayAt(i: nat): (d: int)
    ensures i < |RETRY_DELAYS| ==> d == RETRY_DELAYS[i]
    ensures i >= |RETRY_DELAYS| ==> d == 0
  {
    if i < |RETRY_DELAYS| then RETRY_DELAYS[i] else 0
  }

  /** The delays requested by the first `n` retries, in order. */
  function Backoff(n: nat): (ds: seq<int>)
    ensures |ds| == n
    ensures forall j :: 0 <= j < n ==> ds[j] == DelayAt(j)
  {
    if n == 0 then [] else Backoff(n - 1) + [DelayAt(n - 1)]
  }

  /** Total waiting time of a list of delays. */
  function Total(ds: seq<int>): int {
    if ds == [] then 0 else Total(ds[..|ds| - 1]) + ds[|ds| - 1]
  }

  /**
   * What a run of `tryWithRetry(fn, retries)` does: it returns `r` after
   * calling `fn` exactly `calls` times and requesting `delays`.
   * - With `retries <= 0` the loop never runs: no call, no delay, and the
   *   error "All retries failed".
   * - Otherwise between 1 and `retries` calls are made; every call but the
   *   last failed with status 429 and was followed by the scheduled delay;
   *   the outcome of the last call is passed through unchanged; and the run
   *   stops early only at an outcome that is not retryable.
   */
  ghost predicate IsRetryRun<T>(fn: nat -> Outcome<T>, retries: int, r: Outcome<T>, calls: nat, delays: seq<int>)
  {
    if retries <= 0 then
      calls == 0 && delays == [] && r == Threw(ALL_RETRIES_FAILED)
    else
      && 1 <= calls <= retries
      && (forall j :: 0 <= j < calls - 1 ==> IsRetryable(fn(j)))
      && delays == Backoff(calls - 1)
      && r == fn(calls - 1)
      && (calls < retries ==> !IsRetryable(fn(calls - 1)))
  }

  /** `tryWithRetry`: the loop with its early return, rethrow and continue. */
  method TryWithRetry<T>(fn: nat -> Outcome<T>, retries: int) returns (r: Outcome<T>, calls: nat, delays: seq<int>)
    ensures IsRetryRun(fn, retries, r, calls, delays)
  {
    calls, delays := 0, [];
    var i := 0;
    while i < retries
      invariant 0 <= i && (i > 0 ==> i < retries)
      invariant calls == i && delays == Backoff(i)
      invariant forall j :: 0 <= j < i ==> IsRetryable(fn(j))
    {
      var o := fn(i);
      calls := calls + 1;
      match o
      case Returned(v) =>
        r := Returned(v);
        return;
      case Threw(e) =>
        if IsRateLimited(e) && i < retries - 1 {
          delays := delays + [DelayAt(i)];
          i := i + 1;
          continue;
        }
        r := Threw(e);
        return;
    }
    r := Threw(ALL_RETRIES_FAILED);
  }

  /** A run is determined by the operation and the attempt ceiling. */
  lemma RetryRunIsUnique<T>(fn: nat -> Outcome<T>, retries: int,
                            r1: Outcome<T>, calls1: nat, delays1: seq<int>,
                            r2: Outcome<T>, calls2: nat, delays2: seq<int>)
    requires IsRetryRun(fn, retries, r1, calls1, delays1)
    requires IsRetryRun(fn, retries, r2, calls2, delays2)
    ensures r1 == r2 && calls1 == calls2 && delays1 == delays2
  {
  }

  /**
   * The run stops at the first attempt `k` whose outcome is final: a
   * success, a failure without status 429, or any outcome of the last
   * attempt. That outcome is returned unchanged, after exactly `k + 1`
   * calls, and no delay follows it.
   */
  lemma StopsAtFirstFinalOutcome<T>(fn: nat -> Outcome<T>, retries: int, k: nat,
                                    r: Outcome<T>, calls: nat, delays: seq<int>)
    requires k < retries
    requires forall j :: 0 <= j < k ==> IsRetryable(fn(j))
    requires !IsRetryable(fn(k)) || k == retries - 1
    requires IsRetryRun(fn, retries, r, calls, delays)
    ensures calls == k + 1 && r == fn(k) && delays == Backoff(k)
  {
  }

  /** A success on attempt `k` is returned unchanged and ends the run. */
  lemma SuccessIsReturnedUnchanged<T>(fn: nat -> Outcome<T>, retries: int, k: nat,
                                      r: Outcome<T>, calls: nat, delays: seq<int>)
    requires k < retries && fn(k).Returned?
    requires forall j :: 0 <= j < k ==> IsRetryable(fn(j))
    requires IsRetryRun(fn, retries, r, calls, delays)
    ensures r == Returned(fn(k).value) && calls == k + 1 && |delays| == k
  {
  }

  /** A failure without status 429 is rethrown on the attempt where it
      occurs, with no delay for it and no later call. */
  lemma OtherFailureIsRethrownAtOnce<T>(fn: nat -> Outcome<T>, retries: int, k: nat,
                                        r: Outcome<T>, calls: nat, delays: seq<int>)
    requires k < retries && fn(k).Threw? && !IsRateLimited(fn(k).error)
    requires forall j :: 0 <= j < k ==> IsRetryable(fn(j))
    requires IsRetryRun(fn, retries, r, calls, delays)
    ensures r == Threw(fn(k).error) && calls == k + 1 && |delays| == k
  {
  }

  /** A 429 on an attempt `k` that is not the last is followed by exactly
      the delay `RETRY_DELAYS[k]` and by another call. */
  lemma RateLimitIsRetriedAfterDelay<T>(fn: nat -> Outcome<T>, retries: int, k: nat,
                                        r: Outcome<T>, calls: nat, delays: seq<int>)
    requires k < retries - 1
    requires forall j :: 0 <= j <= k ==> IsRetryable(fn(j))
    requires IsRetryRun(fn, retries, r, calls, delays)
    ensures calls > k + 1 && k < |delays| && delays[k] == DelayAt(k)
    ensures k < |RETRY_DELAYS| ==> delays[k] == RETRY_DELAYS[k]
  {
  }

  /** When every attempt is rate limited, the 429 of the last attempt is
      itself rethrown, after `retries` calls. */
  lemma ExhaustedRateLimitIsRethrown<T>(fn: nat -> Outcome<T>, retries: int,
                                        r: Outcome<T>, calls: nat, delays: seq<int>)
    requires retries > 0
    requires forall j :: 0 <= j < retries ==> IsRetryable(fn(j))
    requires IsRetryRun(fn, retries, r, calls, delays)
    ensures calls == retries && r == fn(retries - 1)
    ensures delays == Backoff(retries - 1)
  {
  }

  /** With the default of three attempts only the first two entries of the
      schedule are used: at most 1000 ms then 2000 ms, 3000 ms in all, and
      the 4000 ms entry is never requested. */
  lemma DefaultScheduleBound<T>(fn: nat -> Outcome<T>, r: Outcome<T>, calls: nat, delays: seq<int>)
    requires IsRetryRun(fn, DEFAULT_RETRIES, r, calls, delays)
    ensures delays == [] || delays == [1000] || delays == [1000, 2000]
    ensures Total(delays) <= 3000
    ensures 4000 !in delays
  {
    assert calls - 1 <= 2;
    if calls == 1 {
      assert delays == [];
    } else if calls == 2 {
      assert delays == [1000];
    } else {
      assert delays == [1000, 2000];
      assert delays[..1] == [1000];
    }
  }

  /** With at most one attempt more than the schedule has entries, every
      requested delay is the schedule entry for its attempt. */
  lemma DelaysComeFromSchedule<T>(fn: nat -> Outcome<T>, retries: int, r: Outcome<T>, calls: nat, delays: seq<int>)
    requires retries <= |RETRY_DELAYS| + 1
    requires IsRetryRun(fn, retries, r, calls, delays)
    ensures |delays| <= |RETRY_DELAYS|
    ensures forall j :: 0 <= j < |delays| ==> delays[j] == RETRY_DELAYS[j]
  {
  }
}
