# SEO suggestion helper — Dafny model

This project models the one piece of logic in the landing-page repository
that is not presentation: `project/src/utils/seo.ts`, the client-side helper
`generateSEOSuggestions(content)` that asks a hosted language model for SEO
advice about a piece of text. It has three parts, each a module here:

- **Retry policy** (`retry.dfy`, module `Retry`): `tryWithRetry(fn, retries)`
  calls an asynchronous operation up to `retries` times (default 3, the length
  of `RETRY_DELAYS = [1000, 2000, 4000]`). A success is returned at once. A
  failure with status 429 that is not on the last attempt is followed by the
  delay `RETRY_DELAYS[i]` and a retry. Any other failure is rethrown at once.
  If the loop never runs, the error "All retries failed" is thrown.
  `TryWithRetry` is the loop itself. `IsRetryRun` states declaratively what a
  run does. The lemmas derive each rule of the policy from it.
- **Freshness cache** (`cache.dfy`, module `Cache`): the class
  `SuggestionCache` holds the mutable map from the exact input text to
  `{data, timestamp}`. `Lookup` hits only when `now - timestamp` is under one
  hour (3 600 000 ms). `Store` overwrites one key. Nothing is ever removed.
- **Generator** (`generator.dfy`, module `Generator`):
  `GenerateSuggestions` runs the cache check, then the retry-wrapped
  completion request. An absent or empty reply raises "No suggestions
  received from AI". A usable reply is built into the templated suggestion
  (`suggestions.dfy`, module `Suggestions`) and stored in the cache. A 429
  that survives the retries becomes "Rate limit exceeded. Please try again
  later."; every other error is rethrown unchanged. `IsGeneration` states
  what one call does. The lemmas derive the caching, retry and error
  behaviour from it.

Shared values (`Option`, the thrown `Error` with its optional status, the
`Outcome` of an awaited call) are in `outcomes.dfy`, module `Outcomes`.

How the environment is modelled:

- The retried operation is a function `nat -> Outcome<T>`: the outcome of its
  i-th call. The method returns how many calls it made and the delays it
  requested, in milliseconds. It does not wait.
- The completion service is a function `nat -> Outcome<Option<string>>`: the
  i-th request either returns the first choice's content (absent or present)
  or throws an error with an optional status.
- The clock is passed in as two readings. `now` is the reading used by the
  freshness test (line 51). `writeTime` is the reading stored with a new
  entry (line 84). The source calls `Date.now()` once at each of these places.
- In the source the cache write sits inside the retried closure, just before
  it returns its success. The Dafny model stores the suggestion right after the
  retry policy returns that success. This is the same behaviour: a success is
  the last call, and nothing runs between the write and the return.
- `RETRY_DELAYS[i]` past the end of the array is `undefined` in JavaScript,
  and the timer treats an undefined delay as zero. `DelayAt` models that, so
  `TryWithRetry` needs no bound on `retries`. `DelaysComeFromSchedule` shows
  that up to 4 attempts only ever use table entries.

`RETRY_DELAYS` has three entries. With the default of 3 attempts, the guard
`i < retries - 1` (seo.ts:38) only ever requests 1000 ms and then 2000 ms,
3000 ms in all. The 4000 ms entry is never used (`DefaultScheduleBound`).
The suggestion's title, description and keywords are fixed templates that
ignore the language model's reply. Only `improvements` carries the reply.
This Dafny model keeps both exactly as the code has them.

## Model

| member | source | states |
|---|---|---|
| `Outcomes.IsRateLimited` | project/src/utils/seo.ts:38 | definition of the test `error?.status === 429`: an error counts as rate limited only when it carries the status 429; an error without a status never does |
| `Retry.DelayAt` | project/src/utils/seo.ts:17 | definition of the wait: the wait before retrying after attempt `i` is `RETRY_DELAYS[i]` while `i` is inside the schedule, and zero past it |
| `Retry.Backoff` | project/src/utils/seo.ts:38-40 | the delays of the first `n` retries: exactly `n` of them, the `j`-th being the wait for attempt `j` |
| `Retry.TryWithRetry` | project/src/utils/seo.ts:30-46 | the loop's result, call count and delays satisfy `IsRetryRun`: with `retries <= 0` there is no call and "All retries failed" is thrown; otherwise there are 1 to `retries` calls, every call but the last was a 429 followed by its scheduled delay, the last outcome is passed through unchanged, and the run ends early only at an outcome that is not a 429 |
| `Retry.RetryRunIsUnique` | project/src/utils/seo.ts:34-45 | the outcome, the number of calls and the delays are determined by the operation and the ceiling |
| `Retry.StopsAtFirstFinalOutcome` | project/src/utils/seo.ts:34-42 | if attempts before `k` were all 429s and attempt `k` is a success, a non-429 failure or the last attempt, the run makes exactly `k + 1` calls, returns attempt `k`'s outcome and requests no delay after it |
| `Retry.SuccessIsReturnedUnchanged` | project/src/utils/seo.ts:34-36 | the first success is returned unchanged and no further call follows it |
| `Retry.OtherFailureIsRethrownAtOnce` | project/src/utils/seo.ts:37-42 | a failure whose status is not 429 is rethrown on its own attempt, with no delay for it and no later call |
| `Retry.RateLimitIsRetriedAfterDelay` | project/src/utils/seo.ts:38-40 | a 429 on an attempt `k < retries - 1` is followed by the delay `RETRY_DELAYS[k]` and another call |
| `Retry.ExhaustedRateLimitIsRethrown` | project/src/utils/seo.ts:38-42 | when every attempt is a 429, exactly `retries` calls are made and the last attempt's own 429, `fn(retries - 1)`, is rethrown unchanged |
| `Retry.DefaultScheduleBound` | project/src/utils/seo.ts:32-39 | with the default ceiling of 3 the delays are a prefix of `[1000, 2000]`, total at most 3000 ms, and never include 4000 |
| `Retry.DelaysComeFromSchedule` | project/src/utils/seo.ts:38-39 | with a ceiling of at most 4, every requested delay is the schedule entry of its attempt |
| `Suggestions.ContentOf` | project/src/utils/seo.ts:77 | the input text read back from a templated title is what follows the "Optimized " prefix |
| `Suggestions.ResponseOf` | project/src/utils/seo.ts:80 | the reply read back from a templated suggestion is its single improvement |
| `Suggestions.MakeSuggestion` | project/src/utils/seo.ts:76-81 | the object literal has the template's shape, and its input text and the reply can be read back from it, so building it loses nothing |
| `Suggestions.TemplatedIsMade` | project/src/utils/seo.ts:76-81 | every suggestion of the template's shape is the literal built from its own text and reply |
| `Cache.IsFresh` | project/src/utils/seo.ts:51 | definition of the freshness test: an entry is fresh exactly before its expiry instant, one hour (`CACHE_DURATION`) after its timestamp |
| `Cache.HasFresh` | project/src/utils/seo.ts:50-51 | definition of a cache hit: a lookup never hits a missing key, and hits a present key exactly when its entry is fresh |
| `Cache.SuggestionCache.constructor` | project/src/utils/seo.ts:15 | the cache starts empty |
| `Cache.SuggestionCache.Lookup` | project/src/utils/seo.ts:50-51 | a lookup hits exactly when an entry exists and `now - timestamp < CACHE_DURATION`, and then yields the stored suggestion |
| `Cache.SuggestionCache.Store` | project/src/utils/seo.ts:84 | the entry for the key becomes the new suggestion and timestamp, and every other key is unchanged |
| `Cache.StoreThenLookup` | project/src/utils/seo.ts:51 | after a store at time `t`, a lookup of that key hits exactly while `now - t` is under an hour and yields what was stored; lookups of other keys are unaffected |
| `Cache.StalenessIsPermanent` | project/src/utils/seo.ts:16 | freshness only runs out: stale at one time means stale at every later time |
| `Generator.HasText` | project/src/utils/seo.ts:71-72 | definition of `!response`: the reply is unusable (`!response`) exactly when it is absent or the empty string |
| `Generator.Attempt` | project/src/utils/seo.ts:71-81 | one attempt succeeds exactly when the request returned a non-empty reply, and then yields the template filled with the input and that reply; a failed attempt throws the request's own error, or "No suggestions received from AI" for an absent or empty reply; it is retryable exactly when the request failed with 429, so the empty-reply error is never retried |
| `Generator.Translate` | project/src/utils/seo.ts:91-94 | the thrown error is never a 429: a 429 becomes the rate-limit message and any other error is kept as it is |
| `Generator.Surface` | project/src/utils/seo.ts:88-95 | a success is passed to the caller as it is; a failure is thrown as its translated error, which is never a 429 |
| `Generator.GenerateSuggestions` | project/src/utils/seo.ts:48-96 | one call satisfies `IsGeneration`: a fresh hit returns the stored suggestion with no request and no change; otherwise the default retry policy runs over the attempts, a success is returned and stored under the input text with the write time, and a failure is translated and leaves the cache unchanged |
| `Generator.GenerationIsUnique` | project/src/utils/seo.ts:48-96 | a call's result, requests, delays and new cache are determined by the cache, the input, the service and the clock |
| `Generator.EmptyResponseIsNotRetried` | project/src/utils/seo.ts:71-74 | an absent or empty reply to request `k`, after `k` rate-limited requests, raises "No suggestions received from AI" after exactly `k + 1` requests, with only the earlier retries' delays and no cache change |
| `Generator.SuccessIsTemplatedAndCached` | project/src/utils/seo.ts:76-85 | a success is the template filled with the input and the usable reply of the last request; the cache then maps the input to it with the write time, and every other key is unchanged |
| `Generator.FailureLeavesCacheUnchanged` | project/src/utils/seo.ts:89-95 | no failing call writes the cache; when the last request failed, the error thrown is that request's error translated (the rate-limit message for a 429, the error itself otherwise); when it returned an unusable reply, it is "No suggestions received from AI" |
| `Generator.PersistentRateLimitIsTranslated` | project/src/utils/seo.ts:89-93 | three 429s give three requests, delays 1000 and 2000, the rate-limit message, and no cache write |
| `Generator.RateLimitedTwiceThenSuccess` | project/src/utils/seo.ts:56-88 | two 429s and then a usable reply give three requests, 3000 ms of delays, and the suggestion for that reply |
| `Generator.HelloExample` | project/src/utils/seo.ts:76-81 | input "hello" with reply "Use more keywords" gives exactly `{title: "Optimized hello", description: "SEO-optimized version of your content", keywords: ["viral","content","optimization"], improvements: ["Use more keywords"]}` after one request |
| `Generator.RepeatWithinWindowIsCached` | project/src/utils/seo.ts:50-53 | a second call for the same text inside the freshness window makes no request, changes nothing and returns the first result |
| `Generator.RepeatAfterWindowRegenerates` | project/src/utils/seo.ts:50-84 | once the entry is an hour old, the next call for that text makes a new request, and a success overwrites the entry with the new timestamp |
| `Generator.KeysAreNeverRemoved` | project/src/utils/seo.ts:84 | a call only adds or overwrites the input text's key; stale entries are never removed |

## Left out

- Creating the OpenAI client, and the module-load check that throws when the API key is missing (lines 1-12). This is configuration and a foreign library. The completion service is an input function.
- The request payload: the system and user messages and the model name (lines 57-69). Only the request's outcome is modelled.
- Real waiting (`delay`/`setTimeout`, lines 26-28) and the wall clock (`Date.now()`). Delays are recorded as values, and the clock readings are parameters.
- `console.error` logging in the catch block (line 90). This is I/O.
- Overlapping asynchronous calls for the same text. The source does not coalesce them, and their interleaving is a concurrency matter. Each call is modelled as running to completion on its own.
- Object identity. A cache hit in the source returns the stored object itself. The Dafny model returns an equal value. Nothing in the helper mutates a suggestion, so no behaviour is lost.
- Thrown values that are not objects, and non-integer or non-numeric `retries`. The ceiling is an integer, and every error is an `Error` with an optional integer status.
- The React components (`project/src/components/HeroSection.tsx`, `src/components/HeroSection.tsx`, `src/components/FeatureHighlights.tsx`, `project/src/components/TrustedCompanies.tsx`). They are presentational UI: static lists rendered as markup, plus form state.
