/**
 * RequestQueue: admission, single-flight staging of duplicate cacheable
 * requests, the two priority queues the dispatchers take from, release
 * on finish, and cancellation.
 *
 * A queue entry is a Ticket: the request with the priority and sequence
 * it was given when added, which are the keys the priority queues order
 * by. The queue's state is also available as a QueueState value, and
 * each method is proved against the pure transition on that value.
 */
module RequestQueue {
  import opened Base
  import opened Messages
  import opened Request

  datatype Ticket = Ticket(req: Request, priority: Priority, sequence: int32)

  /** a orders strictly before b: higher priority, or equal priority and an earlier sequence. */
  predicate Before(a: Ticket, b: Ticket) {
    Ordinal(a.priority) > Ordinal(b.priority) || (a.priority == b.priority && a.sequence < b.sequence)
  }

  lemma BeforeIsStrictOrder(a: Ticket, b: Ticket, c: Ticket)
    ensures !Before(a, a)
    ensures Before(a, b) ==> !Before(b, a)
    ensures Before(a, b) && Before(b, c) ==> Before(a, c)
  {
  }

  /** For assigned (positive) sequences, Request.compareTo is negative exactly when Before holds. */
  lemma CompareToMatchesBefore(a: Ticket, b: Ticket)
    requires a.sequence > 0 && b.sequence > 0
    ensures CompareTo(a.priority, a.sequence, b.priority, b.sequence) < 0 <==> Before(a, b)
    ensures CompareTo(a.priority, a.sequence, b.priority, b.sequence) > 0 <==> Before(b, a)
  {
    if a.priority == b.priority {
      FifoWithinPriority(a.priority, a.sequence, b.sequence);
      FifoWithinPriority(a.priority, b.sequence, a.sequence);
    } else if Ordinal(a.priority) > Ordinal(b.priority) {
      HigherPriorityFirst(a.priority, a.sequence, b.priority, b.sequence);
    } else {
      assert Ordinal(a.priority) != Ordinal(b.priority);
      HigherPriorityFirst(b.priority, b.sequence, a.priority, a.sequence);
    }
  }

  /** m is a head of q: no ticket of q orders strictly before q[m]. */
  predicate IsHead(q: seq<Ticket>, m: int) {
    0 <= m < |q| && forall j | 0 <= j < |q| :: !Before(q[j], q[m])
  }

  /** The requests holding tickets in q. */
  function Requests(q: seq<Ticket>): set<Request> {
    set t | t in q :: t.req
  }

  /** q without its m-th ticket, the rest in their order. */
  function Without(q: seq<Ticket>, m: nat): (r: seq<Ticket>)
    requires m < |q|
    ensures |r| == |q| - 1
    ensures multiset(r) + multiset{q[m]} == multiset(q)
  {
    assert q == q[..m] + [q[m]] + q[m + 1..];
    q[..m] + q[m + 1..]
  }

  /** What PriorityBlockingQueue.take hands out: a ticket that is least under compareTo. */
  method HeadIndex(q: seq<Ticket>) returns (m: nat)
    requires |q| > 0
    ensures IsHead(q, m)
  {
    m := 0;
    for i := 1 to |q|
      invariant m < i
      invariant forall j | 0 <= j < i :: !Before(q[j], q[m])
    {
      if Before(q[i], q[m]) {
        forall j | 0 <= j < i
          ensures !Before(q[j], q[i])
        {
          BeforeIsStrictOrder(q[j], q[i], q[m]);
        }
        BeforeIsStrictOrder(q[i], q[i], q[i]);
        m := i;
      }
    }
  }

  /**
   * The head has the highest priority present and, within it, the
   * earliest sequence; with positive sequences, compareTo never puts
   * another ticket ahead of it.
   */
  lemma HeadComesFirst(q: seq<Ticket>, m: nat)
    requires IsHead(q, m)
    ensures forall j | 0 <= j < |q| :: Ordinal(q[j].priority) <= Ordinal(q[m].priority)
    ensures forall j | 0 <= j < |q| && q[j].priority == q[m].priority :: q[m].sequence <= q[j].sequence
    ensures (forall j | 0 <= j < |q| :: q[j].sequence > 0) ==>
              forall j | 0 <= j < |q| :: CompareTo(q[m].priority, q[m].sequence, q[j].priority, q[j].sequence) <= 0
  {
    if forall j | 0 <= j < |q| :: q[j].sequence > 0 {
      forall j | 0 <= j < |q|
        ensures CompareTo(q[m].priority, q[m].sequence, q[j].priority, q[j].sequence) <= 0
      {
        CompareToMatchesBefore(q[m], q[j]);
      }
    }
  }

  /** A ticket ordered before every other ticket of q is its only head. */
  lemma SoleHead(q: seq<Ticket>, h: nat)
    requires h < |q|
    requires forall j | 0 <= j < |q| && j != h :: Before(q[h], q[j])
    ensures forall m :: IsHead(q, m) <==> m == h
  {
    forall m ensures IsHead(q, m) <==> m == h {
      if m == h {
        forall j | 0 <= j < |q| ensures !Before(q[j], q[h]) {
          BeforeIsStrictOrder(q[h], q[j], q[h]);
        }
      } else if 0 <= m < |q| {
        assert Before(q[h], q[m]);
      }
    }
  }

  /** HIGH#1, NORMAL#2, HIGH#3 are taken as #1, then #3, then #2. */
  lemma PriorityThenFifoExample(a: Request, b: Request, c: Request)
    ensures var q := [Ticket(a, High, 1), Ticket(b, Normal, 2), Ticket(c, High, 3)];
      (forall m :: IsHead(q, m) <==> m == 0) &&
      (forall m :: IsHead(Without(q, 0), m) <==> m == 1) &&
      (forall m :: IsHead(Without(Without(q, 0), 1), m) <==> m == 0)
  {
    var q := [Ticket(a, High, 1), Ticket(b, Normal, 2), Ticket(c, High, 3)];
    SoleHead(q, 0);
    var q1 := Without(q, 0);
    assert q1 == [q[1], q[2]];
    SoleHead(q1, 1);
    var q2 := Without(q1, 1);
    assert q2 == [q[1]];
    SoleHead(q2, 0);
  }

  // ----- The queue as a value -----

  /**
   * mSequenceGenerator, mWaitingRequests (None is the null list that marks
   * a key in flight with nobody waiting), mCurrentRequests, mCacheQueue
   * and mNetworkQueue.
   */
  datatype QueueState = QueueState(
    counter: int32,
    waiting: map<string, Option<seq<Ticket>>>,
    current: set<Request>,
    cacheQueue: seq<Ticket>,
    networkQueue: seq<Ticket>)

  /** The requests waiting behind the in-flight one for key (none when the list is null or absent). */
  function Staged(s: QueueState, key: string): seq<Ticket> {
    if key in s.waiting && s.waiting[key].Some? then s.waiting[key].value else []
  }

  /** add(request) with the request's shouldCache flag. */
  function Admitted(s: QueueState, r: Request, shouldCache: bool): (s2: QueueState)
    ensures s2.counter == Wrap32(s.counter + 1) && s2.current == s.current + {r}
    ensures var t := Ticket(r, r.RequestPriority(), s2.counter);
            var key := r.CacheKey();
            (!shouldCache ==>
               s2.networkQueue == s.networkQueue + [t] && s2.cacheQueue == s.cacheQueue && s2.waiting == s.waiting) &&
            (shouldCache && key in s.waiting ==>
               Staged(s2, key) == Staged(s, key) + [t] && key in s2.waiting &&
               s2.cacheQueue == s.cacheQueue && s2.networkQueue == s.networkQueue) &&
            (shouldCache && key !in s.waiting ==>
               s2.cacheQueue == s.cacheQueue + [t] && key in s2.waiting && Staged(s2, key) == [] &&
               s2.networkQueue == s.networkQueue)
    ensures forall k | k != r.CacheKey() :: (k in s2.waiting <==> k in s.waiting) && Staged(s2, k) == Staged(s, k)
  {
    var t := Ticket(r, r.RequestPriority(), Wrap32(s.counter + 1));
    var s1 := s.(counter := t.sequence, current := s.current + {r});
    var key := r.CacheKey();
    if !shouldCache then s1.(networkQueue := s.networkQueue + [t])
    else if key in s.waiting then s1.(waiting := s.waiting[key := Some(Staged(s, key) + [t])])
    else s1.(waiting := s.waiting[key := None], cacheQueue := s.cacheQueue + [t])
  }

  /** finish(request) with the request's shouldCache flag. */
  function Finished(s: QueueState, r: Request, shouldCache: bool): (s2: QueueState)
    ensures s2.current == s.current - {r} && s2.counter == s.counter && s2.networkQueue == s.networkQueue
    ensures shouldCache ==> r.CacheKey() !in s2.waiting && s2.cacheQueue == s.cacheQueue + Staged(s, r.CacheKey())
    ensures !shouldCache ==> s2.waiting == s.waiting && s2.cacheQueue == s.cacheQueue
    ensures forall k | k != r.CacheKey() :: (k in s2.waiting <==> k in s.waiting) && Staged(s2, k) == Staged(s, k)
  {
    var s1 := s.(current := s.current - {r});
    if !shouldCache then s1
    else s1.(waiting := s.waiting - {r.CacheKey()}, cacheQueue := s.cacheQueue + Staged(s, r.CacheKey()))
  }

  predicate Issued(s: QueueState, t: Ticket) {
    0 < t.sequence <= s.counter
  }

  /**
   * What add and finish keep: every staged list is non-empty and holds
   * requests of its own key, and every queued or staged ticket carries a
   * sequence already handed out.
   */
  predicate Valid(s: QueueState) {
    0 <= s.counter
    && (forall k | k in s.waiting && s.waiting[k].Some? ::
          |s.waiting[k].value| > 0 && forall t | t in s.waiting[k].value :: t.req.CacheKey() == k && Issued(s, t))
    && (forall t | t in s.cacheQueue :: Issued(s, t))
    && (forall t | t in s.networkQueue :: Issued(s, t))
  }

  /** Until the counter reaches Integer.MAX_VALUE, add keeps Valid and issues a sequence above every queued one. */
  lemma AdmittedKeepsValid(s: QueueState, r: Request, shouldCache: bool)
    requires Valid(s) && s.counter < MaxInt32
    ensures Valid(Admitted(s, r, shouldCache))
    ensures Admitted(s, r, shouldCache).counter == s.counter + 1
    ensures forall t | t in s.cacheQueue + s.networkQueue :: t.sequence < Admitted(s, r, shouldCache).counter
  {
    var s2 := Admitted(s, r, shouldCache);
    var key := r.CacheKey();
    forall k | k in s2.waiting && s2.waiting[k].Some?
      ensures |s2.waiting[k].value| > 0 && forall t | t in s2.waiting[k].value :: t.req.CacheKey() == k && Issued(s2, t)
    {
      if shouldCache && k == key && key in s.waiting {
        assert s2.waiting[k].value == Staged(s, key) + [Ticket(r, r.RequestPriority(), s2.counter)];
      }
    }
  }

  lemma FinishedKeepsValid(s: QueueState, r: Request, shouldCache: bool)
    requires Valid(s)
    ensures Valid(Finished(s, r, shouldCache))
  {
  }

  /** Taking a head out of either priority queue keeps Valid. */
  lemma TakingKeepsValid(s: QueueState, m: nat, n: nat)
    requires Valid(s)
    ensures m < |s.cacheQueue| ==> Valid(s.(cacheQueue := Without(s.cacheQueue, m)))
    ensures n < |s.networkQueue| ==> Valid(s.(networkQueue := Without(s.networkQueue, n)))
    ensures m < |s.cacheQueue| ==>
              Valid(s.(cacheQueue := Without(s.cacheQueue, m), networkQueue := s.networkQueue + [s.cacheQueue[m]]))
  {
    if m < |s.cacheQueue| {
      assert s.cacheQueue[m] in s.cacheQueue;
      var q := Without(s.cacheQueue, m);
      forall t | t in q ensures Issued(s, t) {
        assert t in multiset(q);
        assert t in multiset(s.cacheQueue);
      }
    }
    if n < |s.networkQueue| {
      var q := Without(s.networkQueue, n);
      forall t | t in q ensures Issued(s, t) {
        assert t in multiset(q);
        assert t in multiset(s.networkQueue);
      }
    }
  }

  /** A request that does not cache goes straight to the network queue; finishing it only drops it from the current set. */
  lemma UncachedBypassesStaging(s: QueueState, r: Request)
    ensures var s2 := Admitted(s, r, false);
      s2.waiting == s.waiting && s2.cacheQueue == s.cacheQueue &&
      s2.networkQueue == s.networkQueue + [Ticket(r, r.RequestPriority(), s2.counter)] &&
      r in s2.current
    ensures Finished(s, r, false) == s.(current := s.current - {r})
  {
  }

  /** The tickets successive adds issue for rs, starting from counter. */
  function TicketsFrom(rs: seq<Request>, counter: int32): (ts: seq<Ticket>)
    ensures |ts| == |rs|
    ensures forall i | 0 <= i < |rs| :: ts[i].req == rs[i] && ts[i].priority == rs[i].RequestPriority()
    decreases |rs|
  {
    if |rs| == 0 then []
    else
      var t := Ticket(rs[0], rs[0].RequestPriority(), Wrap32(counter + 1));
      [t] + TicketsFrom(rs[1..], t.sequence)
  }

  /** Without wrap-around, successive adds are numbered counter+1, counter+2, ... */
  lemma {:induction false} TicketsCountUp(rs: seq<Request>, counter: int32)
    requires counter + |rs| <= MaxInt32
    ensures forall i | 0 <= i < |rs| :: TicketsFrom(rs, counter)[i].sequence == counter + i + 1
    decreases |rs|
  {
    if |rs| > 0 {
      TicketsCountUp(rs[1..], counter + 1);
    }
  }

  function AdmitAll(s: QueueState, rs: seq<Request>, shouldCache: bool): QueueState
    decreases |rs|
  {
    if |rs| == 0 then s else AdmitAll(Admitted(s, rs[0], shouldCache), rs[1..], shouldCache)
  }

  /**
   * While key is in flight, further cacheable requests for it are staged
   * in arrival order and neither priority queue changes.
   */
  lemma {:induction false} DuplicatesAreStaged(s: QueueState, rs: seq<Request>, key: string)
    requires key in s.waiting
    requires forall i | 0 <= i < |rs| :: rs[i].CacheKey() == key
    ensures var s2 := AdmitAll(s, rs, true);
      key in s2.waiting &&
      Staged(s2, key) == Staged(s, key) + TicketsFrom(rs, s.counter) &&
      s2.cacheQueue == s.cacheQueue && s2.networkQueue == s.networkQueue
    decreases |rs|
  {
    if |rs| > 0 {
      var s1 := Admitted(s, rs[0], true);
      var t := Ticket(rs[0], rs[0].RequestPriority(), s1.counter);
      var s2 := AdmitAll(s1, rs[1..], true);
      var later := TicketsFrom(rs[1..], s1.counter);
      assert AdmitAll(s, rs, true) == s2;
      assert TicketsFrom(rs, s.counter) == [t] + later;
      assert Staged(s2, key) == (Staged(s, key) + [t]) + later by {
        DuplicateIsStaged(s, rs[0]);
        DuplicatesAreStaged(s1, rs[1..], key);
      }
      assert s2.cacheQueue == s.cacheQueue && s2.networkQueue == s.networkQueue && key in s2.waiting by {
        DuplicateIsStaged(s, rs[0]);
        DuplicatesAreStaged(s1, rs[1..], key);
      }
    }
  }

  /** One cacheable request whose key is in flight joins the end of that key's staged list. */
  lemma DuplicateIsStaged(s: QueueState, r: Request)
    requires r.CacheKey() in s.waiting
    ensures var s1 := Admitted(s, r, true);
      r.CacheKey() in s1.waiting &&
      Staged(s1, r.CacheKey()) == Staged(s, r.CacheKey()) + [Ticket(r, r.RequestPriority(), s1.counter)] &&
      s1.cacheQueue == s.cacheQueue && s1.networkQueue == s.networkQueue
  {
  }

  /**
   * Single flight: the first cacheable request for a key goes to the cache
   * queue; the duplicates added after it wait, and finishing the first
   * releases all of them onto the cache queue, in arrival order, and
   * takes the key out of flight.
   */
  lemma DuplicatesReleasedInOrder(s: QueueState, first: Request, rs: seq<Request>)
    requires first.CacheKey() !in s.waiting
    requires forall i | 0 <= i < |rs| :: rs[i].CacheKey() == first.CacheKey()
    ensures var s1 := Admitted(s, first, true);
      var s2 := AdmitAll(s1, rs, true);
      var s3 := Finished(s2, first, true);
      s1.cacheQueue == s.cacheQueue + [Ticket(first, first.RequestPriority(), s1.counter)] &&
      s2.cacheQueue == s1.cacheQueue && s2.networkQueue == s.networkQueue &&
      s3.cacheQueue == s1.cacheQueue + TicketsFrom(rs, s1.counter) &&
      first.CacheKey() !in s3.waiting
  {
    var key := first.CacheKey();
    var s1 := Admitted(s, first, true);
    assert s1.waiting == s.waiting[key := None];
    assert Staged(s1, key) == [];
    DuplicatesAreStaged(s1, rs, key);
    var s2 := AdmitAll(s1, rs, true);
    assert Staged(s2, key) == TicketsFrom(rs, s1.counter);
    var s3 := Finished(s2, first, true);
    assert s3.cacheQueue == s2.cacheQueue + Staged(s2, key);
    assert s3.waiting == s2.waiting - {key};
  }

  /** Adding a cacheable request for a key not in flight and then finishing it leaves only the counter and the cache queue changed. */
  lemma AddThenFinish(s: QueueState, r: Request)
    requires r.CacheKey() !in s.waiting && r !in s.current
    ensures var s1 := Admitted(s, r, true);
      Finished(s1, r, true) == s.(counter := s1.counter, cacheQueue := s.cacheQueue + [Ticket(r, r.RequestPriority(), s1.counter)])
  {
    var s1 := Admitted(s, r, true);
    var s2 := Finished(s1, r, true);
    assert s2.waiting == s.waiting;
    assert s2.current == s.current;
  }

  // ----- The queue object -----

  /** RequestQueue.RequestFilter and the anonymous tag filter of cancelAll(tag). */
  datatype RequestFilter = Matching(apply: Request -> bool) | TaggedWith(tag: object)

  predicate Applies(filter: RequestFilter, r: Request)
    reads r`tag
  {
    match filter
    case Matching(apply) => apply(r)
    case TaggedWith(tag) => r.tag == tag
  }

  class RequestQueue {
    var counter: int32
    var waiting: map<string, Option<seq<Ticket>>>
    var current: set<Request>
    var cacheQueue: seq<Ticket>
    var networkQueue: seq<Ticket>

    function State(): QueueState
      reads this
    {
      QueueState(counter, waiting, current, cacheQueue, networkQueue)
    }

    constructor ()
      ensures State() == QueueState(0, map[], {}, [], [])
      ensures Valid(State())
    {
      counter := 0;
      waiting := map[];
      current := {};
      cacheQueue := [];
      networkQueue := [];
    }

    /** getSequenceNumber: AtomicInteger.incrementAndGet, which wraps. */
    method GetSequenceNumber() returns (n: int32)
      modifies this`counter
      ensures n == counter == Wrap32(old(counter) + 1)
    {
      counter := Wrap32(counter + 1);
      n := counter;
    }

    /** add: returns the request it was given. */
    method Add(r: Request) returns (added: Request)
      modifies this, r`attached, r`sequence
      ensures added == r && r.attached && r.sequence == Some(counter)
      ensures State() == Admitted(old(State()), r, r.shouldCache)
    {
      r.Attach();
      current := current + {r};
      var n := GetSequenceNumber();
      r.SetSequence(n);
      var t := Ticket(r, r.RequestPriority(), n);
      if !r.shouldCache {
        networkQueue := networkQueue + [t];
        return r;
      }
      var key := r.CacheKey();
      if key in waiting {
        var staged := waiting[key];
        var list := if staged.None? then [] else staged.value;
        waiting := waiting[key := Some(list + [t])];
      } else {
        waiting := waiting[key := None];
        cacheQueue := cacheQueue + [t];
      }
      return r;
    }

    /** finish: drop from the current set and release the requests staged behind it. */
    method Finish(r: Request)
      modifies this
      ensures State() == Finished(old(State()), r, r.shouldCache)
    {
      current := current - {r};
      if r.shouldCache {
        var key := r.CacheKey();
        var staged := MapGet(waiting, key);
        waiting := waiting - {key};
        if staged.Some? && staged.value.Some? {
          cacheQueue := cacheQueue + staged.value.value;
        }
      }
    }

    /** mCacheQueue.take() once the queue is non-empty (an empty queue blocks). */
    method TakeCache() returns (t: Ticket, m: nat)
      requires |cacheQueue| > 0
      modifies this`cacheQueue
      ensures IsHead(old(cacheQueue), m) && t == old(cacheQueue)[m]
      ensures cacheQueue == Without(old(cacheQueue), m)
    {
      m := HeadIndex(cacheQueue);
      t := cacheQueue[m];
      cacheQueue := Without(cacheQueue, m);
    }

    /** mNetworkQueue.take() once the queue is non-empty. */
    method TakeNetwork() returns (t: Ticket, m: nat)
      requires |networkQueue| > 0
      modifies this`networkQueue
      ensures IsHead(old(networkQueue), m) && t == old(networkQueue)[m]
      ensures networkQueue == Without(old(networkQueue), m)
    {
      m := HeadIndex(networkQueue);
      t := networkQueue[m];
      networkQueue := Without(networkQueue, m);
    }

    /** mNetworkQueue.put(request) for a ticket taken from the cache queue. */
    method PutNetwork(t: Ticket)
      modifies this`networkQueue
      ensures networkQueue == old(networkQueue) + [t]
    {
      networkQueue := networkQueue + [t];
    }

    /** cancelAll(filter): cancels every current request the filter applies to, and no other. */
    method CancelAll(filter: RequestFilter)
      modifies current`canceled
      ensures forall r | r in current :: r.canceled == (old(r.canceled) || Applies(filter, r))
    {
      var todo := current;
      while todo != {}
        invariant todo <= current
        invariant forall r | r in current && r !in todo :: r.canceled == (old(r.canceled) || Applies(filter, r))
        invariant forall r | r in todo :: r.canceled == old(r.canceled)
        decreases todo
      {
        var r :| r in todo;
        if Applies(filter, r) {
          r.Cancel();
        }
        todo := todo - {r};
      }
    }

    /** cancelAll(tag): IllegalArgumentException for a null tag; otherwise cancels the current requests whose tag is that very object. */
    method CancelAllTagged(tag: object?) returns (r: Result<(), RuntimeFailure>)
      modifies current`canceled
      ensures tag == null <==> r == Failure(IllegalArgument)
      ensures tag == null ==> forall q | q in current :: q.canceled == old(q.canceled)
      ensures tag != null ==> forall q | q in current :: q.canceled == (old(q.canceled) || q.tag == tag)
    {
      if tag == null {
        return Failure(IllegalArgument);
      }
      CancelAll(TaggedWith(tag));
      return Success(());
    }
  }

  /** Request.finish: tells the queue the request was added to, if any. */
  method FinishRequest(q: RequestQueue, r: Request)
    modifies q
    ensures r.attached ==> q.State() == Finished(old(q.State()), r, r.shouldCache)
    ensures !r.attached ==> q.State() == old(q.State())
  {
    if r.attached {
      q.Finish(r);
    }
  }
}
