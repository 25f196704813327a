/**
 * HttpResponseHeaderParser: builds the entry with the ordinary caching
 * rules, then overrides both lifetimes with fixed windows measured from a
 * second clock reading: a soft expiry 3 minutes ahead and a hard expiry
 * 3 hours ahead.
 */
module HttpResponseHeaderParser {
  import opened Base
  import opened Cache
  import opened Messages
  import opened HttpHeaderParser

  /** Fresh window: 3 * 60 * 1000 ms. */
  const CACHE_HIT_BUT_REFRESHED: int64 := 3 * 60 * 1000
  /** Hard window: 3 * 60 * 60 * 1000 ms (3 hours). */
  const CACHE_EXPIRED: int64 := 3 * 60 * 60 * 1000

  /** The entry with both lifetimes replaced, in `long` arithmetic. */
  function WithSpecifiedTimes(e: Entry, now: int64): (r: Entry)
    ensures r.data == e.data && r.etag == e.etag && r.serverDate == e.serverDate
    ensures r.responseHeaders == e.responseHeaders
    ensures now <= MaxInt64 - CACHE_EXPIRED ==>
              r.softTtl == now + CACHE_HIT_BUT_REFRESHED && r.ttl == now + CACHE_EXPIRED
  {
    e.(softTtl := Wrap64(now + CACHE_HIT_BUT_REFRESHED), ttl := Wrap64(now + CACHE_EXPIRED))
  }

  /**
   * parseSpecifiedTimeCacheHeaders. `headerNow` is the clock reading taken
   * inside parseCacheHeaders and `now` the one taken afterwards. When the
   * ordinary rules reject the response (no-cache / no-store), the field
   * writes dereference null: the model returns that failure.
   */
  method ParseSpecifiedTimeCacheHeaders(response: NetworkResponse, headerNow: int64, now: int64,
                                        parseDate: string -> Option<int64>)
    returns (r: Result<Entry, RuntimeFailure>)
    ensures r.Failure? <==> CacheHeaders(response, headerNow, parseDate).None?
    ensures r.Failure? ==> r.error == NullDereference
    ensures r.Success? ==> r.value == WithSpecifiedTimes(CacheHeaders(response, headerNow, parseDate).value, now)
  {
    var entry := ParseCacheHeaders(response, headerNow, parseDate);
    var softExpire := Wrap64(now + CACHE_HIT_BUT_REFRESHED);
    var ttl := Wrap64(now + CACHE_EXPIRED);
    if entry.None? {
      return Failure(NullDereference);
    }
    var e := entry.value.(softTtl := softExpire);
    e := e.(ttl := ttl);
    return Success(e);
  }

  /**
   * Away from the end of the `long` range, an entry built this way is fresh
   * for 3 minutes, then stale but usable until 3 hours, then expired; and
   * the clock reading inside parseCacheHeaders no longer matters.
   */
  lemma SpecifiedWindows(e: Entry, now: int64, later: int64)
    requires now <= MaxInt64 - CACHE_EXPIRED
    ensures var f := WithSpecifiedTimes(e, now);
            f.softTtl < f.ttl &&
            (RefreshNeeded(f, later) <==> later > now + CACHE_HIT_BUT_REFRESHED) &&
            (IsExpired(f, later) <==> later > now + CACHE_EXPIRED)
  {
  }

  lemma IgnoresHeaderLifetimes(response: NetworkResponse, headerNow1: int64, headerNow2: int64, now: int64,
                               parseDate: string -> Option<int64>)
    requires CacheHeaders(response, headerNow1, parseDate).Some?
    ensures CacheHeaders(response, headerNow2, parseDate).Some?
    ensures WithSpecifiedTimes(CacheHeaders(response, headerNow1, parseDate).value, now) ==
            WithSpecifiedTimes(CacheHeaders(response, headerNow2, parseDate).value, now)
  {
  }
}
