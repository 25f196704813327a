/**
 * NetworkDispatcher: a worker that takes the head of the network queue,
 * performs it, writes a cacheable parsed response to the cache, and posts
 * the response or the error for delivery. A 304 for a request that has
 * already had a response delivered (a refreshed cache hit whose data did
 * not change) just finishes it.
 */
module NetworkDispatcher {
  import opened Base
  import opened Cache
  import opened Messages
  import opened Request
  import opened RequestQueue
  import opened ExecutorDelivery
  import opened BasicNetwork

  /** The branch one pass takes; Idle is an empty queue, on which take() blocks. */
  datatype NetworkRoute = Idle | Discarded | NotModifiedAgain | Delivered | ErrorPosted

  /** The branch for a live request, from what performRequest ended with and whether a response was already delivered. */
  function NetworkRouteOf(result: NetworkResult, delivered: bool): NetworkRoute {
    match result
    case Ok(response) => if response.notModified && delivered then NotModifiedAgain else Delivered
    case Err(_) => ErrorPosted
    case Crash(_) => ErrorPosted
  }

  /** The cache after a parsed response: written under the cache key only when the request caches and the parser produced an entry. */
  function CacheAfter(entries: map<string, Entry>, key: string, shouldCache: bool, response: Response): map<string, Entry> {
    if shouldCache && response.cacheEntry.Some? then entries[key := response.cacheEntry.value] else entries
  }

  /** The error a failed pass posts: the VolleyError itself (parseNetworkError returns it unchanged), or a VolleyError wrapping an unchecked exception. */
  function PostedError(result: NetworkResult): VolleyError
    requires !result.Ok?
  {
    if result.Err? then result.error else Wrapped(result.failure)
  }

  /**
   * A 304 that answers a request whose cached copy was already delivered
   * ends it without a second delivery; a 304 for a request that has had
   * nothing delivered is delivered like any response.
   */
  lemma NotModifiedDeliveredOnce(response: NetworkResponse, delivered: bool)
    requires response.notModified
    ensures NetworkRouteOf(Ok(response), delivered) == (if delivered then NotModifiedAgain else Delivered)
  {
  }

  /** Writing to the cache never loses another key, and a written entry is what a following get returns. */
  lemma CacheWriteIsExact(entries: map<string, Entry>, key: string, shouldCache: bool, response: Response)
    ensures forall k | k != key :: MapGet(CacheAfter(entries, key, shouldCache, response), k) == MapGet(entries, k)
    ensures shouldCache && response.cacheEntry.Some? ==>
              MapGet(CacheAfter(entries, key, shouldCache, response), key) == response.cacheEntry
    ensures !shouldCache ==> CacheAfter(entries, key, shouldCache, response) == entries
  {
  }

  class NetworkDispatcher {
    const queue: RequestQueue
    const cache: CacheStore
    const delivery: ExecutorDelivery

    constructor (queue: RequestQueue, cache: CacheStore, delivery: ExecutorDelivery)
      ensures this.queue == queue && this.cache == cache && this.delivery == delivery
    {
      this.queue := queue;
      this.cache := cache;
      this.delivery := delivery;
    }

    /** Everything after a live request was performed: the not-modified shortcut, the cache write, the posting. */
    method Complete(r: Request, result: NetworkResult) returns (route: NetworkRoute)
      modifies queue, delivery`tasks, cache`entries, r`responseDelivered
      ensures route == NetworkRouteOf(result, old(r.responseDelivered))
      ensures route == NotModifiedAgain ==>
        queue.State() == (if r.attached then Finished(old(queue.State()), r, r.shouldCache) else old(queue.State())) &&
        delivery.tasks == old(delivery.tasks) && cache.entries == old(cache.entries) && r.responseDelivered
      ensures route == Delivered ==>
        var response := r.ParseNetworkResponse(result.response);
        queue.State() == old(queue.State()) &&
        cache.entries == CacheAfter(old(cache.entries), r.CacheKey(), r.shouldCache, response) &&
        r.responseDelivered && delivery.tasks == old(delivery.tasks) + [Task(r, response, None)]
      ensures route == ErrorPosted ==>
        queue.State() == old(queue.State()) && cache.entries == old(cache.entries) &&
        r.responseDelivered == old(r.responseDelivered) &&
        delivery.tasks == old(delivery.tasks) + [Task(r, ErrorResponse(PostedError(result)), None)]
    {
      match result {
        case Ok(networkResponse) =>
          if networkResponse.notModified && r.responseDelivered {
            FinishRequest(queue, r);
            return NotModifiedAgain;
          }
          var response := r.ParseNetworkResponse(networkResponse);
          if r.shouldCache && response.cacheEntry.Some? {
            cache.Put(r.CacheKey(), response.cacheEntry.value);
          }
          r.MarkDelivered();
          delivery.PostResponse(r, response);
          return Delivered;
        case Err(e) =>
          delivery.PostError(r, e);
          return ErrorPosted;
        case Crash(f) =>
          delivery.PostError(r, Wrapped(f));
          return ErrorPosted;
      }
    }

    /** One pass of run()'s loop, with the HTTP stack's behaviour for the taken request and the date formatter as parameters. */
    method Step(stack: (Headers, nat) -> Exchange, formatDate: int64 -> string) returns (route: NetworkRoute, m: nat)
      modifies queue, delivery`tasks, cache`entries
      modifies Requests(queue.networkQueue)`responseDelivered, Requests(queue.networkQueue)`retryPolicy,
               Requests(queue.networkQueue)`notices
      ensures route == Idle <==> old(|queue.networkQueue|) == 0
      ensures route == Idle ==>
        queue.State() == old(queue.State()) && delivery.tasks == old(delivery.tasks) && cache.entries == old(cache.entries)
      ensures route != Idle ==> IsHead(old(queue.networkQueue), m)
      ensures forall x | x in old(Requests(queue.networkQueue)) :: old(x.responseDelivered) ==> x.responseDelivered
      ensures route != Idle ==>
        var r := old(queue.networkQueue)[m].req;
        (route == Discarded <==> r.canceled) &&
        forall x | x in old(Requests(queue.networkQueue)) && x != r ::
          x.responseDelivered == old(x.responseDelivered) && x.retryPolicy == old(x.retryPolicy) && x.notices == old(x.notices)
      ensures route == Discarded ==>
        var r := old(queue.networkQueue)[m].req;
        var rest := old(queue.State()).(networkQueue := Without(old(queue.networkQueue), m));
        queue.State() == (if r.attached then Finished(rest, r, r.shouldCache) else rest) &&
        delivery.tasks == old(delivery.tasks) && cache.entries == old(cache.entries) &&
        r.responseDelivered == old(r.responseDelivered) && r.retryPolicy == old(r.retryPolicy) && r.notices == old(r.notices)
      ensures route != Idle && route != Discarded ==>
        var r := old(queue.networkQueue)[m].req;
        var p := Perform(stack, formatDate, ContextOf(r), old(r.retryPolicy), 0);
        var rest := old(queue.State()).(networkQueue := Without(old(queue.networkQueue), m));
        r.retryPolicy == p.policy && r.notices == old(r.notices) + p.progress &&
        route == NetworkRouteOf(p.result, old(r.responseDelivered)) &&
        (route == NotModifiedAgain ==>
           queue.State() == (if r.attached then Finished(rest, r, r.shouldCache) else rest) &&
           delivery.tasks == old(delivery.tasks) && cache.entries == old(cache.entries) && r.responseDelivered) &&
        (route == Delivered ==>
           var response := r.ParseNetworkResponse(p.result.response);
           queue.State() == rest && r.responseDelivered &&
           cache.entries == CacheAfter(old(cache.entries), r.CacheKey(), r.shouldCache, response) &&
           delivery.tasks == old(delivery.tasks) + [Task(r, response, None)]) &&
        (route == ErrorPosted ==>
           queue.State() == rest && cache.entries == old(cache.entries) &&
           r.responseDelivered == old(r.responseDelivered) &&
           delivery.tasks == old(delivery.tasks) + [Task(r, ErrorResponse(PostedError(p.result)), None)])
    {
      if |queue.networkQueue| == 0 {
        return Idle, 0;
      }
      var t;
      t, m := queue.TakeNetwork();
      var r := t.req;
      assert r in old(Requests(queue.networkQueue));
      if r.canceled {
        FinishRequest(queue, r);
        return Discarded, m;
      }
      var result := PerformRequest(r, stack, formatDate);
      route := Complete(r, result);
    }
  }
}
