/**
 * Cache: the entry the cache stores for a key (payload plus freshness
 * metadata), its two freshness tests against the clock, and the key/value
 * store contract the dispatchers use (get, put, initialize, remove, clear).
 */
module Cache {
  import opened Base

  /**
   * Cache.Entry. Times are Java `long` milliseconds since the epoch; the
   * header map is a value, so it can never be null.
   */
  datatype Entry = Entry(
    data: Option<Bytes>,
    etag: Option<string>,
    serverDate: int64,
    ttl: int64,
    softTtl: int64,
    responseHeaders: Headers)

  /** A freshly constructed Entry: every field at its Java default, headers empty. */
  function NewEntry(): (e: Entry)
    ensures e.responseHeaders == map[] && e.data.None? && e.etag.None?
    ensures e.ttl == 0 && e.softTtl == 0 && e.serverDate == 0
  {
    Entry(None, None, 0, 0, 0, map[])
  }

  /** isExpired, with the clock reading passed in as `now`. */
  predicate IsExpired(e: Entry, now: int64) {
    e.ttl < now
  }

  /** refreshNeeded, with the clock reading passed in as `now`. */
  predicate RefreshNeeded(e: Entry, now: int64) {
    e.softTtl < now
  }

  /** With the expected ordering softTtl <= ttl, an expired entry also needs a refresh. */
  lemma ExpiredNeedsRefresh(e: Entry, now: int64)
    requires e.softTtl <= e.ttl
    ensures IsExpired(e, now) ==> RefreshNeeded(e, now)
  {
  }

  /** Both tests are strict: an entry is still unexpired at the very instant ttl. */
  lemma ExpiryIsStrict(e: Entry)
    ensures !IsExpired(e, e.ttl) && !RefreshNeeded(e, e.softTtl)
    ensures e.ttl < MaxInt64 ==> IsExpired(e, e.ttl + 1)
  {
  }

  /** Once expired (or in need of refresh), an entry stays so as the clock advances. */
  lemma FreshnessIsMonotone(e: Entry, now: int64, later: int64)
    requires now <= later
    ensures IsExpired(e, now) ==> IsExpired(e, later)
    ensures RefreshNeeded(e, now) ==> RefreshNeeded(e, later)
  {
  }

  /**
   * The Cache interface, with its contents as a map. Whatever the backing
   * store does on disk, the engine only relies on this contract.
   */
  class CacheStore {
    var entries: map<string, Entry>
    var initialized: bool

    constructor ()
      ensures entries == map[] && !initialized
    {
      entries := map[];
      initialized := false;
    }

    /** initialize: may be slow; afterwards the store is ready to serve lookups. */
    method Initialize()
      modifies this`initialized
      ensures initialized
    {
      initialized := true;
    }

    /** get: the entry stored under key, or None on a miss. */
    method Get(key: string) returns (e: Option<Entry>)
      ensures e == MapGet(entries, key)
    {
      if key in entries {
        e := Some(entries[key]);
      } else {
        e := None;
      }
    }

    /** put: adds or replaces; a following get of key returns exactly this entry. */
    method Put(key: string, entry: Entry)
      modifies this`entries
      ensures entries == old(entries)[key := entry]
      ensures MapGet(entries, key) == Some(entry)
      ensures forall k | k != key :: MapGet(entries, k) == MapGet(old(entries), k)
    {
      entries := entries[key := entry];
    }

    /** remove: a following get of key misses; other keys are untouched. */
    method Remove(key: string)
      modifies this`entries
      ensures entries == old(entries) - {key}
      ensures MapGet(entries, key) == None
      ensures forall k | k != key :: MapGet(entries, k) == MapGet(old(entries), k)
    {
      entries := entries - {key};
    }

    /** clear: every following get misses. */
    method Clear()
      modifies this`entries
      ensures entries == map[]
      ensures forall k :: MapGet(entries, k) == None
    {
      entries := map[];
    }
  }
}
