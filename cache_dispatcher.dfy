/**
 * CacheDispatcher: the single thread that triages the cache queue. Each
 * pass takes the head request and, by the cache entry for its key and
 * the clock, discards it, sends it to the network, or answers it from the
 * cache (and, for a soft-expired hit, sends it to the network after the
 * cached answer is delivered).
 */
module CacheDispatcher {
  import opened Base
  import opened Cache
  import opened Messages
  import opened Request
  import opened RequestQueue
  import opened ExecutorDelivery

  /** The branch one pass takes; Idle is an empty queue, on which take() blocks. */
  datatype Route = Idle | Discarded | Missed | Expired | Fresh | Refreshing

  /** The branch for a request taken from the cache queue. */
  function CacheRoute(canceled: bool, entry: Option<Entry>, now: int64): Route {
    if canceled then Discarded
    else if entry.None? then Missed
    else if IsExpired(entry.value, now) then Expired
    else if !RefreshNeeded(entry.value, now) then Fresh
    else Refreshing
  }

  /**
   * For a live request: it is answered from the cache exactly when an
   * unexpired entry exists, and (for entries with softTtl <= ttl) it goes
   * to the network, now or after the cached answer, exactly when there is
   * no entry or the entry needs a refresh.
   */
  lemma RoutesFollowFreshness(entry: Option<Entry>, now: int64)
    requires entry.Some? ==> entry.value.softTtl <= entry.value.ttl
    ensures CacheRoute(false, entry, now) in {Fresh, Refreshing} <==> entry.Some? && !IsExpired(entry.value, now)
    ensures CacheRoute(false, entry, now) in {Missed, Expired, Refreshing} <==>
              entry.None? || RefreshNeeded(entry.value, now)
  {
    if entry.Some? {
      ExpiredNeedsRefresh(entry.value, now);
    }
  }

  /** A canceled request is discarded whatever the cache holds. */
  lemma CanceledIsDiscarded(entry: Option<Entry>, now: int64)
    ensures CacheRoute(true, entry, now) == Discarded
  {
  }

  class CacheDispatcher {
    const queue: RequestQueue
    const cache: CacheStore
    const delivery: ExecutorDelivery

    constructor (queue: RequestQueue, cache: CacheStore, delivery: ExecutorDelivery)
      ensures this.queue == queue && this.cache == cache && this.delivery == delivery
    {
      this.queue := queue;
      this.cache := cache;
      this.delivery := delivery;
    }

    /** The prologue of run(): the cache is initialized before the first take. */
    method Start()
      modifies cache`initialized
      ensures cache.initialized
    {
      cache.Initialize();
    }

    /** One pass of run()'s loop, with the clock reading passed in as now; it only runs once Start has initialized the cache. */
    method Step(now: int64) returns (route: Route, m: nat)
      requires cache.initialized
      modifies queue, delivery`tasks
      modifies Requests(queue.cacheQueue)`cacheEntry, Requests(queue.cacheQueue)`responseDelivered
      ensures route == Idle <==> old(|queue.cacheQueue|) == 0
      ensures route == Idle ==> queue.State() == old(queue.State()) && delivery.tasks == old(delivery.tasks)
      ensures route != Idle ==> IsHead(old(queue.cacheQueue), m)
      ensures forall x | x in old(Requests(queue.cacheQueue)) :: old(x.responseDelivered) ==> x.responseDelivered
      ensures route != Idle ==>
        var t := old(queue.cacheQueue)[m];
        route == CacheRoute(t.req.canceled, MapGet(cache.entries, t.req.CacheKey()), now) &&
        forall x | x in old(Requests(queue.cacheQueue)) && x != t.req ::
          x.cacheEntry == old(x.cacheEntry) && x.responseDelivered == old(x.responseDelivered)
      ensures route == Discarded ==>
        var t := old(queue.cacheQueue)[m];
        var rest := old(queue.State()).(cacheQueue := Without(old(queue.cacheQueue), m));
        queue.State() == (if t.req.attached then Finished(rest, t.req, t.req.shouldCache) else rest) &&
        delivery.tasks == old(delivery.tasks) && t.req.cacheEntry == old(t.req.cacheEntry) &&
        t.req.responseDelivered == old(t.req.responseDelivered)
      ensures route == Missed || route == Expired ==>
        var t := old(queue.cacheQueue)[m];
        queue.State() == old(queue.State()).(cacheQueue := Without(old(queue.cacheQueue), m),
                                             networkQueue := old(queue.networkQueue) + [t]) &&
        delivery.tasks == old(delivery.tasks) && t.req.responseDelivered == old(t.req.responseDelivered) &&
        t.req.cacheEntry == (if route == Expired then MapGet(cache.entries, t.req.CacheKey()) else old(t.req.cacheEntry))
      ensures route == Fresh || route == Refreshing ==>
        var t := old(queue.cacheQueue)[m];
        var e := cache.entries[t.req.CacheKey()];
        var response := t.req.ParseNetworkResponse(CachedResponse(e.data, e.responseHeaders));
        queue.State() == old(queue.State()).(cacheQueue := Without(old(queue.cacheQueue), m)) &&
        t.req.responseDelivered &&
        (route == Fresh ==>
           delivery.tasks == old(delivery.tasks) + [Task(t.req, response, None)] &&
           t.req.cacheEntry == old(t.req.cacheEntry)) &&
        (route == Refreshing ==>
           delivery.tasks == old(delivery.tasks) + [Task(t.req, response.(intermediate := true), Some(PutOnNetworkQueue(t)))] &&
           t.req.cacheEntry == Some(e))
    {
      if |queue.cacheQueue| == 0 {
        return Idle, 0;
      }
      var t;
      t, m := queue.TakeCache();
      var r := t.req;
      assert r in old(Requests(queue.cacheQueue));
      if r.canceled {
        FinishRequest(queue, r);
        return Discarded, m;
      }
      var entry := cache.Get(r.CacheKey());
      if entry.None? {
        queue.PutNetwork(t);
        return Missed, m;
      }
      var e := entry.value;
      if IsExpired(e, now) {
        r.SetCacheEntry(entry);
        queue.PutNetwork(t);
        return Expired, m;
      }
      var response := r.ParseNetworkResponse(CachedResponse(e.data, e.responseHeaders));
      if !RefreshNeeded(e, now) {
        delivery.PostResponse(r, response);
        return Fresh, m;
      }
      r.SetCacheEntry(entry);
      delivery.PostResponseThen(r, response.(intermediate := true), Some(PutOnNetworkQueue(t)));
      return Refreshing, m;
    }
  }
}
