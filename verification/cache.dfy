/**
 * The in-memory suggestion cache: a mutable map from the exact input text
 * to the suggestion made for it and the time it was stored. An entry is
 * used only while it is less than an hour old; stale entries stay in the
 * map until the same text is generated again.
 */
module Cache {
  import opened Outcomes
  import opened Suggestions

  /** One hour, in milliseconds. */
  const CACHE_DURATION: int := 1000 * 60 * 60

  datatype Entry = Entry(data: Suggestion, timestamp: int)

  /** The freshness rule `now - timestamp < CACHE_DURATION`. */
  predicate IsFresh(e: Entry, now: int)
    ensures IsFresh(e, now) <==> now < e.timestamp + CACHE_DURATION
  {
    now - e.timestamp < CACHE_DURATION
  }

  /** A lookup of `content` at time `now` hits. */
  predicate HasFresh(entries: map<string, Entry>, content: string, now: int)
    ensures content !in entries ==> !HasFresh(entries, content, now)
    ensures content in entries ==> (HasFresh(entries, content, now) <==> IsFresh(entries[content], now))
  {
    content in entries && IsFresh(entries[content], now)
  }

  class SuggestionCache {
    var entries: map<string, Entry>

    constructor ()
      ensures entries == map[]
    {
      entries := map[];
    }

    /** `cache.get(content)` followed by the freshness test. */
    method Lookup(content: string, now: int) returns (hit: Option<Suggestion>)
      ensures hit.Some? <==> HasFresh(entries, content, now)
      ensures hit.Some? ==> hit.value == entries[content].data
    {
      if content in entries {
        var cached := entries[content];
        if now - cached.timestamp < CACHE_DURATION {
          return Some(cached.data);
        }
      }
      return None;
    }

    /** `cache.set(content, {data, timestamp})`: overwrite one key. */
    method Store(content: string, data: Suggestion, timestamp: int)
      modifies this
      ensures entries == old(entries)[content := Entry(data, timestamp)]
    {
      entries := entries[content := Entry(data, timestamp)];
    }
  }

  /** After storing at time `t`, a lookup of that key at `now` hits exactly
      while `now - t` is under an hour, and returns what was stored; lookups
      of every other key behave as before. */
  lemma StoreThenLookup(entries: map<string, Entry>, content: string, data: Suggestion, t: int,
                        key: string, now: int)
    ensures key == content ==>
      (HasFresh(entries[content := Entry(data, t)], key, now) <==> now - t < CACHE_DURATION)
    ensures key == content ==> entries[content := Entry(data, t)][key].data == data
    ensures key != content ==>
      (HasFresh(entries[content := Entry(data, t)], key, now) <==> HasFresh(entries, key, now))
  {
  }

  /** Freshness only runs out: an entry stale at `now` is stale later too,
      and one fresh at `now` was fresh at every earlier time. */
  lemma StalenessIsPermanent(e: Entry, now: int, later: int)
    requires now <= later
    ensures !IsFresh(e, now) ==> !IsFresh(e, later)
    ensures IsFresh(e, later) ==> IsFresh(e, now)
  {
  }
}
