/**
 * `generateSEOSuggestions`: look the text up in the cache, otherwise ask the
 * completion service through the retry policy, turn a non-empty reply into
 * the templated suggestion, store it, and translate a rate limit that
 * survives the retries into a user-facing error.
 *
 * The completion service is given as `completion: nat -> Outcome<Option<string>>`,
 * the outcome of its i-th request: either the content of the first choice
 * (absent or present) or an error with an optional status. The clock is read
 * twice by the source: `now` is the reading used for the freshness test and
 * `writeTime` the one stored with a new entry.
 */
module Generator {
  import opened Outcomes
  import opened Retry
  import opened Suggestions
  import opened Cache

  const NO_SUGGESTIONS: Error := Error("No suggestions received from AI", None)
  const RATE_LIMIT_EXCEEDED: Error := Error("Rate limit exceeded. Please try again later.", None)

  /** The reply is usable: `completion.choices[0]?.message?.content` is
      present and not the empty string. */
  predicate HasText(response: Option<string>)
    ensures !HasText(response) <==> response == None || response == Some("")
  {
    response.Some? && response.value != ""
  }

  /** One run of the retried closure, apart from its cache write: a failed
      request rethrows, an unusable reply throws the empty-response error,
      and a usable one becomes the templated suggestion. */
  function Attempt(content: string, reply: Outcome<Option<string>>): (o: Outcome<Suggestion>)
    ensures o.Returned? <==> reply.Returned? && HasText(reply.value)
    ensures o.Returned? ==> IsTemplated(o.value) && ContentOf(o.value) == content && ResponseOf(o.value) == reply.value.value
    ensures IsRetryable(o) <==> IsRetryable(reply)
    ensures o.Threw? ==> o.error == if reply.Threw? then reply.error else NO_SUGGESTIONS
  {
    match reply
    case Threw(e) => Threw(e)
    case Returned(response) =>
      if HasText(response) then
        Returned(MakeSuggestion(content, response.value))
      else Threw(NO_SUGGESTIONS)
  }

  /** The operation handed to the retry policy, call by call. */
  function AttemptsFor(content: string, completion: nat -> Outcome<Option<string>>): nat -> Outcome<Suggestion> {
    (i: nat) => Attempt(content, completion(i))
  }

  /** The catch block: a surviving 429 becomes the user-facing rate-limit
      error; any other error is rethrown as it is. */
  function Translate(e: Error): (t: Error)
    ensures !IsRateLimited(t)
    ensures !IsRateLimited(e) ==> t == e
    ensures IsRateLimited(e) ==> t == RATE_LIMIT_EXCEEDED
  {
    if IsRateLimited(e) then RATE_LIMIT_EXCEEDED else e
  }

  /** What the caller sees of the retry policy's outcome. */
  function Surface(o: Outcome<Suggestion>): (r: Outcome<Suggestion>)
    ensures r.Returned? <==> o.Returned?
    ensures r.Returned? ==> r == o
    ensures r.Threw? ==> r.error == Translate(o.error) && !IsRateLimited(r.error)
  {
    match o
    case Returned(_) => o
    case Threw(e) => Threw(Translate(e))
  }

  /**
   * One call of `generateSEOSuggestions(content)` against the cache
   * `entries`: it returns `r`, makes `calls` completion requests, requests
   * `delays`, and leaves the cache as `entries'`.
   * - A fresh entry is returned as it is, with no request and no change.
   * - Otherwise the retry policy runs with its default ceiling over the
   *   attempts; the last attempt's outcome is what it produced. A success
   *   is returned and stored under `content` with `writeTime`; a failure is
   *   translated and leaves the cache alone.
   */
  ghost predicate IsGeneration(entries: map<string, Entry>, content: string,
                               completion: nat -> Outcome<Option<string>>, now: int, writeTime: int,
                               r: Outcome<Suggestion>, calls: nat, delays: seq<int>,
                               entries': map<string, Entry>)
  {
    if HasFresh(entries, content, now) then
      r == Returned(entries[content].data) && calls == 0 && delays == [] && entries' == entries
    else
      var attempts := AttemptsFor(content, completion);
      && 1 <= calls
      && IsRetryRun(attempts, DEFAULT_RETRIES, attempts(calls - 1), calls, delays)
      && r == Surface(attempts(calls - 1))
      && entries' == if attempts(calls - 1).Returned?
                     then entries[content := Entry(attempts(calls - 1).value, writeTime)]
                     else entries
  }

  /** `generateSEOSuggestions`, with the cache passed in. */
  method GenerateSuggestions(cache: SuggestionCache, content: string,
                             completion: nat -> Outcome<Option<string>>, now: int, writeTime: int)
    returns (r: Outcome<Suggestion>, calls: nat, delays: seq<int>)
    modifies cache
    ensures IsGeneration(old(cache.entries), content, completion, now, writeTime, r, calls, delays, cache.entries)
  {
    var hit := cache.Lookup(content, now);
    if hit.Some? {
      return Returned(hit.value), 0, [];
    }
    var attempts := AttemptsFor(content, completion);
    var outcome;
    outcome, calls, delays := TryWithRetry(attempts, DEFAULT_RETRIES);
    match outcome
    case Returned(suggestion) =>
      cache.Store(content, suggestion, writeTime);
      r := Returned(suggestion);
    case Threw(e) =>
      r := Threw(Translate(e));
  }

  /** A call is determined by the cache, the input, the service and the clock. */
  lemma GenerationIsUnique(entries: map<string, Entry>, content: string,
                           completion: nat -> Outcome<Option<string>>, now: int, writeTime: int,
                           r1: Outcome<Suggestion>, calls1: nat, delays1: seq<int>, entries1: map<string, Entry>,
                           r2: Outcome<Suggestion>, calls2: nat, delays2: seq<int>, entries2: map<string, Entry>)
    requires IsGeneration(entries, content, completion, now, writeTime, r1, calls1, delays1, entries1)
    requires IsGeneration(entries, content, completion, now, writeTime, r2, calls2, delays2, entries2)
    ensures r1 == r2 && calls1 == calls2 && delays1 == delays2 && entries1 == entries2
  {
  }

  /** A missing or empty reply to request `k`, after `k` rate-limited
      requests, fails at once with the empty-response error: `k + 1`
      requests, only the delays of the earlier retries, no retry of its own,
      and the cache is unchanged. */
  lemma EmptyResponseIsNotRetried(entries: map<string, Entry>, content: string,
                                  completion: nat -> Outcome<Option<string>>, now: int, writeTime: int,
                                  k: nat,
                                  r: Outcome<Suggestion>, calls: nat, delays: seq<int>, entries': map<string, Entry>)
    requires !HasFresh(entries, content, now)
    requires k < DEFAULT_RETRIES
    requires forall j :: 0 <= j < k ==> IsRetryable(completion(j))
    requires completion(k).Returned? && !HasText(completion(k).value)
    requires IsGeneration(entries, content, completion, now, writeTime, r, calls, delays, entries')
    ensures r == Threw(NO_SUGGESTIONS) && calls == k + 1 && delays == Backoff(k) && entries' == entries
  {
    var attempts := AttemptsFor(content, completion);
    forall j | 0 <= j < k
      ensures IsRetryable(attempts(j))
    {
      assert IsRetryable(completion(j));
    }
    assert !IsRetryable(attempts(k));
    StopsAtFirstFinalOutcome(attempts, DEFAULT_RETRIES, k, attempts(calls - 1), calls, delays);
  }

  /** A successful call returns the template filled in with the input text
      and the reply of its last request, which was usable; the cache then
      maps `content` to that suggestion stamped `writeTime`, and every other
      key is as before. */
  lemma SuccessIsTemplatedAndCached(entries: map<string, Entry>, content: string,
                                    completion: nat -> Outcome<Option<string>>, now: int, writeTime: int,
                                    r: Outcome<Suggestion>, calls: nat, delays: seq<int>, entries': map<string, Entry>)
    requires !HasFresh(entries, content, now)
    requires IsGeneration(entries, content, completion, now, writeTime, r, calls, delays, entries')
    requires r.Returned?
    ensures 1 <= calls && completion(calls - 1).Returned? && HasText(completion(calls - 1).value)
    ensures r.value == MakeSuggestion(content, completion(calls - 1).value.value)
    ensures content in entries' && entries'[content] == Entry(r.value, writeTime)
    ensures forall k :: k != content ==> (k in entries' <==> k in entries)
    ensures forall k :: k != content && k in entries ==> entries'[k] == entries[k]
  {
  }

  /** No failing call writes the cache, and what it throws is never the raw
      429: a surviving rate limit becomes the user-facing message, every
      other error is the one the last attempt threw. */
  lemma FailureLeavesCacheUnchanged(entries: map<string, Entry>, content: string,
                                    completion: nat -> Outcome<Option<string>>, now: int, writeTime: int,
                                    r: Outcome<Suggestion>, calls: nat, delays: seq<int>, entries': map<string, Entry>)
    requires IsGeneration(entries, content, completion, now, writeTime, r, calls, delays, entries')
    requires r.Threw?
    ensures entries' == entries
    ensures !IsRateLimited(r.error)
    ensures 1 <= calls
    ensures var raw := AttemptsFor(content, completion)(calls - 1);
            raw.Threw? && r.error == (if IsRateLimited(raw.error) then RATE_LIMIT_EXCEEDED else raw.error)
    ensures completion(calls - 1).Threw? ==> r.error == Translate(completion(calls - 1).error)
    ensures !completion(calls - 1).Threw? ==> r.error == NO_SUGGESTIONS
  {
  }

  /** Rate limited on all three attempts: three requests, delays of 1000 ms
      and 2000 ms, the user-facing rate-limit error, and no cache write. */
  lemma PersistentRateLimitIsTranslated(entries: map<string, Entry>, content: string,
                                        completion: nat -> Outcome<Option<string>>, now: int, writeTime: int,
                                        r: Outcome<Suggestion>, calls: nat, delays: seq<int>, entries': map<string, Entry>)
    requires !HasFresh(entries, content, now)
    requires forall j :: 0 <= j < 3 ==> IsRetryable(completion(j))
    requires IsGeneration(entries, content, completion, now, writeTime, r, calls, delays, entries')
    ensures r == Threw(RATE_LIMIT_EXCEEDED) && calls == 3 && delays == [1000, 2000] && entries' == entries
  {
  }

  /** Rate limited twice, then a usable reply: three requests, delays of
      1000 ms and 2000 ms, and the templated suggestion for that reply. */
  lemma RateLimitedTwiceThenSuccess(entries: map<string, Entry>, content: string,
                                    completion: nat -> Outcome<Option<string>>, now: int, writeTime: int,
                                    r: Outcome<Suggestion>, calls: nat, delays: seq<int>, entries': map<string, Entry>)
    requires !HasFresh(entries, content, now)
    requires IsRetryable(completion(0)) && IsRetryable(completion(1))
    requires completion(2).Returned? && HasText(completion(2).value)
    requires IsGeneration(entries, content, completion, now, writeTime, r, calls, delays, entries')
    ensures r == Returned(MakeSuggestion(content, completion(2).value.value))
    ensures calls == 3 && delays == [1000, 2000] && Total(delays) == 3000
  {
    var attempts := AttemptsFor(content, completion);
    assert IsRetryable(attempts(0)) && IsRetryable(attempts(1));
    StopsAtFirstFinalOutcome(attempts, DEFAULT_RETRIES, 2, attempts(calls - 1), calls, delays);
    assert delays == Backoff(2) == [1000, 2000];
    assert Total(delays) == Total([1000]) + 2000;
  }

  /** The reply "Use more keywords" for the text "hello" gives exactly the
      templated record. */
  lemma HelloExample(entries: map<string, Entry>,
                     completion: nat -> Outcome<Option<string>>, now: int, writeTime: int,
                     r: Outcome<Suggestion>, calls: nat, delays: seq<int>, entries': map<string, Entry>)
    requires !HasFresh(entries, "hello", now)
    requires completion(0) == Returned(Some("Use more keywords"))
    requires IsGeneration(entries, "hello", completion, now, writeTime, r, calls, delays, entries')
    ensures r == Returned(Suggestion("Optimized hello", "SEO-optimized version of your content",
                                     ["viral", "content", "optimization"], ["Use more keywords"]))
    ensures calls == 1 && delays == []
  {
    var attempts := AttemptsFor("hello", completion);
    assert !IsRetryable(attempts(0));
    StopsAtFirstFinalOutcome(attempts, DEFAULT_RETRIES, 0, attempts(calls - 1), calls, delays);
    assert TITLE_PREFIX + "hello" == "Optimized hello";
  }

  /** Two calls for the same text within the freshness window: the second
      makes no request, changes nothing and returns the first result. */
  lemma RepeatWithinWindowIsCached(entries0: map<string, Entry>, content: string,
                                   completion1: nat -> Outcome<Option<string>>, now1: int, writeTime1: int,
                                   r1: Outcome<Suggestion>, calls1: nat, delays1: seq<int>, entries1: map<string, Entry>,
                                   completion2: nat -> Outcome<Option<string>>, now2: int, writeTime2: int,
                                   r2: Outcome<Suggestion>, calls2: nat, delays2: seq<int>, entries2: map<string, Entry>)
    requires IsGeneration(entries0, content, completion1, now1, writeTime1, r1, calls1, delays1, entries1)
    requires r1.Returned?
    requires !HasFresh(entries0, content, now1) ==> now2 - writeTime1 < CACHE_DURATION
    requires HasFresh(entries0, content, now1) ==> now2 - entries0[content].timestamp < CACHE_DURATION
    requires IsGeneration(entries1, content, completion2, now2, writeTime2, r2, calls2, delays2, entries2)
    ensures r2 == r1 && calls2 == 0 && delays2 == [] && entries2 == entries1
  {
  }

  /** Once the stored entry is an hour old the next call for that text
      issues a new request, and if it succeeds the entry is overwritten with
      the new timestamp. */
  lemma RepeatAfterWindowRegenerates(entries1: map<string, Entry>, content: string, stored: Suggestion, storedAt: int,
                                     completion: nat -> Outcome<Option<string>>, now: int, writeTime: int,
                                     r: Outcome<Suggestion>, calls: nat, delays: seq<int>, entries2: map<string, Entry>)
    requires content in entries1 && entries1[content] == Entry(stored, storedAt)
    requires now - storedAt >= CACHE_DURATION
    requires IsGeneration(entries1, content, completion, now, writeTime, r, calls, delays, entries2)
    ensures calls >= 1
    ensures r.Returned? ==> entries2[content] == Entry(r.value, writeTime)
  {
  }

  /** Stale entries are never removed: a call only ever adds or overwrites. */
  lemma KeysAreNeverRemoved(entries: map<string, Entry>, content: string,
                            completion: nat -> Outcome<Option<string>>, now: int, writeTime: int,
                            r: Outcome<Suggestion>, calls: nat, delays: seq<int>, entries': map<string, Entry>)
    requires IsGeneration(entries, content, completion, now, writeTime, r, calls, delays, entries')
    ensures entries.Keys <= entries'.Keys
    ensures entries'.Keys <= entries.Keys + {content}
  {
  }
}
