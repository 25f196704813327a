/**
 * BasicNetwork.performRequest: sends the request through the HTTP stack
 * with the conditional headers of its cache entry, turns what comes back
 * into a NetworkResponse or a VolleyError, and retries timeouts and
 * authentication failures while the request's retry policy allows.
 *
 * The HTTP stack is a parameter: a function from the headers sent and
 * the attempt number to what the exchange produced (a response whose
 * body arrives as a stream of chunks, or an exception).
 */
module BasicNetwork {
  import opened Base
  import opened Cache
  import opened Messages
  import opened RetryPolicy
  import opened Request
  import opened DownloadRequest

  const IF_NONE_MATCH: string := "If-None-Match"
  const IF_MODIFIED_SINCE: string := "If-Modified-Since"

  datatype Header = Header(name: string, value: string)

  /** How reading a body stream ends: at end of stream, or with a read timeout or another I/O error. */
  datatype StreamEnd = Complete | ReadTimeout | ReadError

  /** The chunks successive read(buffer) calls return, then how the stream ends. */
  datatype Stream = Stream(chunks: seq<Bytes>, end: StreamEnd)

  /** HttpEntity: getContent (null when None) and getContentLength. */
  datatype Entity = Entity(content: Option<Stream>, contentLength: int64)

  /** What HttpStack.performRequest produced for one attempt. */
  datatype Exchange =
    | Responded(status: int, headers: seq<Header>, entity: Option<Entity>)
    | SocketTimeout     // SocketTimeoutException
    | ConnectTimeout    // ConnectTimeoutException
    | MalformedUrl      // MalformedURLException
    | NoResponse        // any other IOException before a response existed

  /** What performRequest ends with: a response, a thrown VolleyError, or an unchecked exception. */
  datatype NetworkResult = Ok(response: NetworkResponse) | Err(error: VolleyError) | Crash(failure: RuntimeFailure)

  /** One pass of the loop: a result, an error thrown out, or an error handed to the retry policy. */
  datatype Attempt =
    | Returned(response: NetworkResponse)
    | Thrown(error: VolleyError)
    | Crashed(failure: RuntimeFailure)
    | Retryable(error: VolleyError)

  // ----- Conditional request headers -----

  /**
   * The headers addCacheHeaders adds for an entry: If-None-Match with the
   * etag when there is one, If-Modified-Since with the formatted server
   * date when it is positive, nothing without an entry.
   */
  function ConditionalHeaders(entry: Option<Entry>, formatDate: int64 -> string): (hs: Headers)
    ensures forall k | k in hs :: k == IF_NONE_MATCH || k == IF_MODIFIED_SINCE
    ensures MapGet(hs, IF_NONE_MATCH) == (if entry.Some? then entry.value.etag else None)
    ensures IF_MODIFIED_SINCE in hs <==> entry.Some? && entry.value.serverDate > 0
    ensures IF_MODIFIED_SINCE in hs ==> hs[IF_MODIFIED_SINCE] == formatDate(entry.value.serverDate)
  {
    if entry.None? then map[]
    else
      var e := entry.value;
      var withTag := if e.etag.Some? then map[IF_NONE_MATCH := e.etag.value] else map[];
      if e.serverDate > 0 then withTag[IF_MODIFIED_SINCE := formatDate(e.serverDate)] else withTag
  }

  /** addCacheHeaders: puts the conditional headers into the map, leaving its other keys alone. */
  method AddCacheHeaders(headers: Headers, entry: Option<Entry>, formatDate: int64 -> string) returns (hs: Headers)
    ensures hs == headers + ConditionalHeaders(entry, formatDate)
    ensures forall k | k != IF_NONE_MATCH && k != IF_MODIFIED_SINCE :: MapGet(hs, k) == MapGet(headers, k)
  {
    hs := headers;
    if entry.None? {
      return;
    }
    if entry.value.etag.Some? {
      hs := hs[IF_NONE_MATCH := entry.value.etag.value];
    }
    if entry.value.serverDate > 0 {
      hs := hs[IF_MODIFIED_SINCE := formatDate(entry.value.serverDate)];
    }
  }

  // ----- Response headers -----

  /** The map convertHeaders builds: each header put in turn, so a later value for a name replaces an earlier one. */
  function HeaderMap(hs: seq<Header>): (m: Headers)
    ensures forall name :: name in m <==> exists i | 0 <= i < |hs| :: hs[i].name == name
    decreases |hs|
  {
    if |hs| == 0 then map[]
    else
      var front := hs[..|hs| - 1];
      var m := HeaderMap(front);
      assert forall i | 0 <= i < |front| :: front[i] == hs[i];
      m[hs[|hs| - 1].name := hs[|hs| - 1].value]
  }

  /** The value kept for a name is that of its last occurrence. */
  lemma {:induction false} LastHeaderWins(hs: seq<Header>, i: nat)
    requires i < |hs|
    requires forall j | i < j < |hs| :: hs[j].name != hs[i].name
    ensures HeaderMap(hs)[hs[i].name] == hs[i].value
    decreases |hs|
  {
    if i < |hs| - 1 {
      LastHeaderWins(hs[..|hs| - 1], i);
    }
  }

  /** convertHeaders. */
  method ConvertHeaders(hs: seq<Header>) returns (m: Headers)
    ensures m == HeaderMap(hs)
  {
    m := map[];
    for i := 0 to |hs|
      invariant m == HeaderMap(hs[..i])
    {
      assert hs[..i + 1][..i] == hs[..i];
      m := m[hs[i].name := hs[i].value];
    }
    assert hs[..|hs|] == hs;
  }

  // ----- Reading the body -----

  /** The number of bytes in chunks. */
  function Total(chunks: seq<Bytes>): (n: nat)
    decreases |chunks|
  {
    if |chunks| == 0 then 0 else Total(chunks[..|chunks| - 1]) + |chunks[|chunks| - 1]|
  }

  function Concat(chunks: seq<Bytes>): (bytes: Bytes)
    ensures |bytes| == Total(chunks)
    decreases |chunks|
  {
    if |chunks| == 0 then [] else Concat(chunks[..|chunks| - 1]) + chunks[|chunks| - 1]
  }

  /** What reading an entity's body yields. */
  datatype BodyRead = Read(bytes: Bytes) | NoStream | ReadTimedOut | ReadFailed

  /** The body bytes of a stream that ends normally; the failure otherwise. */
  function StreamBody(s: Stream): BodyRead {
    match s.end
    case Complete => Read(Concat(s.chunks))
    case ReadTimeout => ReadTimedOut
    case ReadError => ReadFailed
  }

  /** entityToBytes: ServerError for a null stream, otherwise every chunk in order until the stream ends. */
  method EntityToBytes(entity: Entity) returns (r: BodyRead)
    ensures entity.content.None? ==> r == NoStream
    ensures entity.content.Some? ==> r == StreamBody(entity.content.value)
  {
    if entity.content.None? {
      return NoStream;
    }
    var s := entity.content.value;
    var bytes: Bytes := [];
    for i := 0 to |s.chunks|
      invariant bytes == Concat(s.chunks[..i])
    {
      assert s.chunks[..i + 1][..i] == s.chunks[..i];
      bytes := bytes + s.chunks[i];
    }
    assert s.chunks[..|s.chunks|] == s.chunks;
    match s.end {
      case Complete => r := Read(bytes);
      case ReadTimeout => r := ReadTimedOut;
      case ReadError => r := ReadFailed;
    }
  }

  // ----- Download -----

  /** The progress values deliverProgress hears, one per chunk: the percentage received so far, truncated. */
  function ProgressNotices(chunks: seq<Bytes>, fileLength: int): (ns: seq<Notice>)
    requires fileLength > 0
    ensures |ns| == |chunks|
    ensures forall i | 0 <= i < |chunks| :: ns[i] == ProgressHeard(Total(chunks[..i + 1]) * 100 / fileLength)
    decreases |chunks|
  {
    if |chunks| == 0 then []
    else
      var front := chunks[..|chunks| - 1];
      var ns := ProgressNotices(front, fileLength);
      assert forall i | 1 <= i <= |front| :: front[..i] == chunks[..i];
      assert chunks[..|chunks|] == chunks;
      ns + [ProgressHeard(Total(chunks) * 100 / fileLength)]
  }

  lemma {:induction false} TotalOfPrefixes(chunks: seq<Bytes>, i: nat, j: nat)
    requires i <= j <= |chunks|
    ensures Total(chunks[..i]) <= Total(chunks[..j])
    decreases j - i
  {
    if i < j {
      TotalOfPrefixes(chunks, i, j - 1);
      assert chunks[..j][..j - 1] == chunks[..j - 1];
    }
  }

  lemma PercentMonotone(a: nat, b: nat, f: int)
    requires a <= b && f > 0
    ensures a * 100 / f <= b * 100 / f
  {
    var qa, qb := a * 100 / f, b * 100 / f;
    assert f * qa <= a * 100;
    assert b * 100 < f * qb + f;
    assert f * qa < f * (qb + 1);
    FactorCancels(f, qa, qb + 1);
  }

  lemma FactorCancels(f: int, x: int, y: int)
    requires f > 0 && f * x < f * y
    ensures x < y
  {
    assert f * (y - x) > 0;
  }

  lemma PercentAtMost100(a: nat, f: int)
    requires a <= f && f > 0
    ensures 0 <= a * 100 / f <= 100
  {
  }

  /** Each progress value is the truncated percentage of the bytes received so far. */
  function PercentOf(chunks: seq<Bytes>, i: nat, fileLength: int): int
    requires i < |chunks| && fileLength > 0
  {
    Total(chunks[..i + 1]) * 100 / fileLength
  }

  lemma ProgressWithinBounds(chunks: seq<Bytes>, fileLength: int, i: nat)
    requires fileLength > 0 && Total(chunks) <= fileLength && i < |chunks|
    ensures 0 <= PercentOf(chunks, i, fileLength) <= 100
  {
    TotalOfPrefixes(chunks, i + 1, |chunks|);
    assert chunks[..|chunks|] == chunks;
    PercentAtMost100(Total(chunks[..i + 1]), fileLength);
  }

  lemma ProgressNeverFalls(chunks: seq<Bytes>, fileLength: int, i: nat, j: nat)
    requires fileLength > 0 && i <= j < |chunks|
    ensures PercentOf(chunks, i, fileLength) <= PercentOf(chunks, j, fileLength)
  {
    TotalOfPrefixes(chunks, i + 1, j + 1);
    PercentMonotone(Total(chunks[..i + 1]), Total(chunks[..j + 1]), fileLength);
  }

  /**
   * When the content length is honest, progress never goes backwards,
   * stays within 0..100, and the last chunk reports 100.
   */
  lemma ProgressClimbsTo100(chunks: seq<Bytes>, fileLength: int)
    requires fileLength > 0 && Total(chunks) <= fileLength
    ensures var ns := ProgressNotices(chunks, fileLength);
      (forall i | 0 <= i < |ns| :: 0 <= ns[i].progress <= 100) &&
      (forall i, j | 0 <= i <= j < |ns| :: ns[i].progress <= ns[j].progress) &&
      (|ns| > 0 && Total(chunks) == fileLength ==> ns[|ns| - 1] == ProgressHeard(100))
  {
    ProgressNoticesBounded(chunks, fileLength);
    ProgressNoticesRise(chunks, fileLength);
    if |chunks| > 0 && Total(chunks) == fileLength {
      ProgressNoticesEnd(chunks, fileLength);
    }
  }

  lemma ProgressNoticesBounded(chunks: seq<Bytes>, fileLength: int)
    requires fileLength > 0 && Total(chunks) <= fileLength
    ensures forall i | 0 <= i < |chunks| :: 0 <= ProgressNotices(chunks, fileLength)[i].progress <= 100
  {
    var ns := ProgressNotices(chunks, fileLength);
    forall i | 0 <= i < |chunks|
      ensures 0 <= ns[i].progress <= 100
    {
      assert ns[i].progress == PercentOf(chunks, i, fileLength);
      ProgressWithinBounds(chunks, fileLength, i);
    }
  }

  lemma ProgressNoticesRise(chunks: seq<Bytes>, fileLength: int)
    requires fileLength > 0
    ensures forall i, j | 0 <= i <= j < |chunks| ::
              ProgressNotices(chunks, fileLength)[i].progress <= ProgressNotices(chunks, fileLength)[j].progress
  {
    var ns := ProgressNotices(chunks, fileLength);
    forall i, j | 0 <= i <= j < |chunks|
      ensures ns[i].progress <= ns[j].progress
    {
      assert ns[i].progress == PercentOf(chunks, i, fileLength);
      assert ns[j].progress == PercentOf(chunks, j, fileLength);
      ProgressNeverFalls(chunks, fileLength, i, j);
    }
  }

  lemma ProgressNoticesEnd(chunks: seq<Bytes>, fileLength: int)
    requires fileLength > 0 && |chunks| > 0 && Total(chunks) == fileLength
    ensures ProgressNotices(chunks, fileLength)[|chunks| - 1] == ProgressHeard(100)
  {
    assert chunks[..|chunks|] == chunks;
    WholeIsHundred(fileLength);
  }

  lemma WholeIsHundred(f: int)
    requires f > 0
    ensures f * 100 / f == 100
  {
    var q := f * 100 / f;
    assert f * q <= f * 100 < f * q + f;
    FactorCancels(f, q, 101);
    FactorCancels(f, 99, q);
  }

  /**
   * writeFileStreamIfExist: a null entity or stream dereferences null; a
   * canceled request gives up at the first chunk; a complete stream gives
   * a 200 with an empty body (the bytes went to the file).
   */
  function DownloadAttempt(headers: Headers, entity: Option<Entity>, canceled: bool): Attempt {
    if entity.None? || entity.value.content.None? then Crashed(NullDereference)
    else
      var s := entity.value.content.value;
      if canceled && |s.chunks| > 0 then Thrown(NetworkError(None))
      else match s.end
        case Complete => Returned(NetworkResponse(SC_OK, Some([]), headers, false))
        case ReadTimeout => Retryable(TimeoutError)
        case ReadError => Thrown(NetworkError(None))
  }

  /** The progress a download attempt reports to a progress listener. */
  function DownloadProgress(entity: Option<Entity>, canceled: bool, hasProgressListener: bool): seq<Notice> {
    if entity.None? || entity.value.content.None? || canceled || !hasProgressListener || entity.value.contentLength <= 0
    then []
    else ProgressNotices(entity.value.content.value.chunks, entity.value.contentLength)
  }

  method WriteFileStream(r: Request, headers: Headers, entity: Option<Entity>) returns (a: Attempt)
    requires r.kind.Download?
    modifies r`notices
    ensures a == DownloadAttempt(headers, entity, r.canceled)
    ensures r.notices == old(r.notices) + DownloadProgress(entity, r.canceled, r.kind.hasProgressListener)
  {
    if entity.None? || entity.value.content.None? {
      return Crashed(NullDereference);
    }
    var s := entity.value.content.value;
    var fileLength := entity.value.contentLength;
    var total := 0;
    for i := 0 to |s.chunks|
      invariant total == Total(s.chunks[..i])
      invariant !r.canceled || i == 0
      invariant r.notices == old(r.notices) +
        (if r.canceled || !r.kind.hasProgressListener || fileLength <= 0 then [] else ProgressNotices(s.chunks[..i], fileLength))
    {
      if r.canceled {
        return Thrown(NetworkError(None));
      }
      assert s.chunks[..i + 1][..i] == s.chunks[..i];
      total := total + |s.chunks[i]|;
      if fileLength > 0 {
        DeliverProgress(r, total * 100 / fileLength);
      }
    }
    assert s.chunks[..|s.chunks|] == s.chunks;
    match s.end {
      case Complete => a := Returned(NetworkResponse(SC_OK, Some([]), headers, false));
      case ReadTimeout => a := Retryable(TimeoutError);
      case ReadError => a := Thrown(NetworkError(None));
    }
  }

  // ----- One attempt -----

  /** The request's state one attempt depends on. */
  datatype Context = Context(
    url: string,
    isDownload: bool,
    hasProgressListener: bool,
    canceled: bool,
    cacheEntry: Option<Entry>)

  function ContextOf(r: Request): Context
    reads r`canceled, r`cacheEntry
  {
    Context(r.url, r.kind.Download?, r.kind.Download? && r.kind.hasProgressListener, r.canceled, r.cacheEntry)
  }

  /** A response that has a body: 2xx is returned; 401/403 go to the retry policy; anything else is a ServerError. */
  function StatusAttempt(response: NetworkResponse): Attempt {
    if 200 <= response.statusCode <= 299 then Returned(response)
    else if response.statusCode == SC_UNAUTHORIZED || response.statusCode == SC_FORBIDDEN then Retryable(AuthFailureError(response))
    else Thrown(ServerError(Some(response)))
  }

  /** The body-reading branch for any status but 304 (and 200 on a download). */
  function BodyAttempt(status: int, headers: Headers, entity: Option<Entity>): Attempt {
    var read := if entity.None? then Read([]) else StreamBody'(entity.value);
    match read
    case NoStream => Thrown(ServerError(None))
    case ReadTimedOut => Retryable(TimeoutError)
    case ReadFailed => Thrown(NetworkError(None))
    case Read(bytes) => StatusAttempt(NetworkResponse(status, Some(bytes), headers, false))
  }

  function StreamBody'(entity: Entity): BodyRead {
    if entity.content.None? then NoStream else StreamBody(entity.content.value)
  }

  /** The outcome of one pass of performRequest's loop for what the stack produced. */
  function Classify(x: Exchange, ctx: Context): Attempt {
    match x
    case SocketTimeout => Retryable(TimeoutError)
    case ConnectTimeout => Retryable(TimeoutError)
    case MalformedUrl => Crashed(BadUrl(ctx.url))
    case NoResponse => Thrown(NoConnectionError)
    case Responded(status, hs, entity) =>
      var headers := HeaderMap(hs);
      if status == SC_OK && ctx.isDownload then DownloadAttempt(headers, entity, ctx.canceled)
      else if status == SC_NOT_MODIFIED then
        Returned(NetworkResponse(SC_NOT_MODIFIED, if ctx.cacheEntry.Some? then ctx.cacheEntry.value.data else None, headers, true))
      else BodyAttempt(status, headers, entity)
  }

  /** The progress notices one pass produces. */
  function Progressed(x: Exchange, ctx: Context): seq<Notice> {
    if x.Responded? && x.status == SC_OK && ctx.isDownload
    then DownloadProgress(x.entity, ctx.canceled, ctx.hasProgressListener)
    else []
  }

  /** The try block of performRequest's loop, with its catch clauses. */
  method RunAttempt(r: Request, x: Exchange) returns (a: Attempt)
    modifies r`notices
    ensures a == Classify(x, ContextOf(r))
    ensures r.notices == old(r.notices) + Progressed(x, ContextOf(r))
  {
    match x {
      case SocketTimeout => return Retryable(TimeoutError);
      case ConnectTimeout => return Retryable(TimeoutError);
      case MalformedUrl => return Crashed(BadUrl(r.url));
      case NoResponse => return Thrown(NoConnectionError);
      case Responded(status, hs, entity) =>
        var headers := ConvertHeaders(hs);
        if status == SC_OK && r.kind.Download? {
          a := WriteFileStream(r, headers, entity);
          return;
        }
        if status == SC_NOT_MODIFIED {
          var data := if r.cacheEntry.None? then None else r.cacheEntry.value.data;
          return Returned(NetworkResponse(SC_NOT_MODIFIED, data, headers, true));
        }
        var read: BodyRead := Read([]);
        if entity.Some? {
          read := EntityToBytes(entity.value);
        }
        match read {
          case NoStream => a := Thrown(ServerError(None));
          case ReadTimedOut => a := Retryable(TimeoutError);
          case ReadFailed => a := Thrown(NetworkError(None));
          case Read(bytes) => a := StatusAttempt(NetworkResponse(status, Some(bytes), headers, false));
        }
    }
  }

  // ----- The retry loop -----

  /**
   * What performRequest ends with, the policy it leaves on the request,
   * the progress heard on the way, and how many times it called the stack.
   */
  datatype Performed = Performed(result: NetworkResult, policy: Policy, progress: seq<Notice>, attempts: nat)

  /** What one pass decides: a final result, or another attempt under the policy retry returned. */
  datatype Step = Done(result: NetworkResult) | Again(next: Policy)

  function StepOf(a: Attempt, policy: Policy): (step: Step)
    ensures step.Again? ==> Remaining(step.next) < Remaining(policy)
  {
    match a
    case Returned(response) => Done(Ok(response))
    case Thrown(e) => Done(Err(e))
    case Crashed(f) => Done(Crash(f))
    case Retryable(e) =>
      match Retry(policy, e)
      case Failure(thrown) => Done(Err(thrown))
      case Success(next) => Again(next)
  }

  /** What the stack produces on the given attempt, sent the entry's conditional headers. */
  function Sent(stack: (Headers, nat) -> Exchange, formatDate: int64 -> string, ctx: Context, attempt: nat): Exchange {
    stack(ConditionalHeaders(ctx.cacheEntry, formatDate), attempt)
  }

  /** performRequest from the given attempt on. */
  function Perform(stack: (Headers, nat) -> Exchange, formatDate: int64 -> string, ctx: Context,
                   policy: Policy, attempt: nat): Performed
    decreases Remaining(policy)
  {
    var x := Sent(stack, formatDate, ctx, attempt);
    var heard := Progressed(x, ctx);
    match StepOf(Classify(x, ctx), policy)
    case Done(result) => Performed(result, policy, heard, 1)
    case Again(next) =>
      var rest := Perform(stack, formatDate, ctx, next, attempt + 1);
      rest.(progress := heard + rest.progress, attempts := rest.attempts + 1)
  }

  /**
   * The stack is called at most once more than the policy allows
   * retries, and every call but the first used up one retry.
   */
  lemma {:induction false} AttemptsBounded(stack: (Headers, nat) -> Exchange, formatDate: int64 -> string, ctx: Context,
                                          policy: Policy, attempt: nat)
    ensures var p := Perform(stack, formatDate, ctx, policy, attempt);
      1 <= p.attempts <= Remaining(policy) + 1 &&
      p.policy.retryCount == policy.retryCount + p.attempts - 1 && p.policy.maxRetries == policy.maxRetries
    decreases Remaining(policy)
  {
    var step := StepOf(Classify(Sent(stack, formatDate, ctx, attempt), ctx), policy);
    if step.Again? {
      AttemptsBounded(stack, formatDate, ctx, step.next, attempt + 1);
    }
  }

  /**
   * A server that never answers in time: every retry the policy allows
   * is spent, then the TimeoutError is thrown.
   */
  lemma {:induction false} TimeoutsExhaustPolicy(stack: (Headers, nat) -> Exchange, formatDate: int64 -> string, ctx: Context,
                                                policy: Policy, attempt: nat)
    requires forall hs, n :: stack(hs, n) == SocketTimeout
    ensures var p := Perform(stack, formatDate, ctx, policy, attempt);
      p.result == Err(TimeoutError) && p.attempts == Remaining(policy) + 1 && p.progress == []
    decreases Remaining(policy)
  {
    if Remaining(policy) > 0 {
      var next := Retry(policy, TimeoutError).value;
      TimeoutsExhaustPolicy(stack, formatDate, ctx, next, attempt + 1);
    }
  }

  /**
   * For a response that is neither a 304 nor a download's 200 and whose
   * body reads completely: 2xx is returned with the body, 401 and 403 go
   * to the retry policy as an AuthFailureError, anything else is thrown
   * as a ServerError carrying the response.
   */
  lemma StatusDecidesOutcome(status: int, hs: seq<Header>, entity: Option<Entity>, ctx: Context)
    requires status != SC_NOT_MODIFIED && !(status == SC_OK && ctx.isDownload)
    requires entity.None? || (entity.value.content.Some? && entity.value.content.value.end == Complete)
    ensures var bytes := if entity.None? then [] else Concat(entity.value.content.value.chunks);
      var response := NetworkResponse(status, Some(bytes), HeaderMap(hs), false);
      var a := Classify(Responded(status, hs, entity), ctx);
      (200 <= status <= 299 ==> a == Returned(response)) &&
      (status == SC_UNAUTHORIZED || status == SC_FORBIDDEN ==> a == Retryable(AuthFailureError(response))) &&
      (!(200 <= status <= 299) && status != SC_UNAUTHORIZED && status != SC_FORBIDDEN ==>
         a == Thrown(ServerError(Some(response))))
  {
  }

  /** A 304 is returned as not-modified, carrying the cached body of the request's entry (null without one). */
  lemma NotModifiedCarriesCachedData(status: int, hs: seq<Header>, entity: Option<Entity>, ctx: Context)
    requires status == SC_NOT_MODIFIED
    ensures Classify(Responded(status, hs, entity), ctx) ==
      Returned(NetworkResponse(SC_NOT_MODIFIED, if ctx.cacheEntry.Some? then ctx.cacheEntry.value.data else None, HeaderMap(hs), true))
  {
  }

  /** attemptRetryOnException: asks the policy for another attempt; what it throws is rethrown. */
  method AttemptRetryOnException(r: Request, error: VolleyError) returns (thrown: Option<VolleyError>)
    modifies r`retryPolicy
    ensures Retry(old(r.retryPolicy), error).Failure? ==>
              thrown == Some(Retry(old(r.retryPolicy), error).error) && r.retryPolicy == old(r.retryPolicy)
    ensures Retry(old(r.retryPolicy), error).Success? ==>
              thrown.None? && r.retryPolicy == Retry(old(r.retryPolicy), error).value
  {
    match Retry(r.retryPolicy, error) {
      case Failure(e) => thrown := Some(e);
      case Success(next) =>
        r.SetRetryPolicy(next);
        thrown := None;
    }
  }

  /** One pass of performRequest's loop: a final result, or a retry the policy granted. */
  method TryOnce(r: Request, stack: (Headers, nat) -> Exchange, formatDate: int64 -> string, attempt: nat)
    returns (done: Option<NetworkResult>)
    modifies r`retryPolicy, r`notices
    ensures var x := Sent(stack, formatDate, ContextOf(r), attempt);
      var step := StepOf(Classify(x, ContextOf(r)), old(r.retryPolicy));
      r.notices == old(r.notices) + Progressed(x, ContextOf(r)) &&
      (step.Done? ==> done == Some(step.result) && r.retryPolicy == old(r.retryPolicy)) &&
      (step.Again? ==> done.None? && r.retryPolicy == step.next)
  {
    var sent := AddCacheHeaders(map[], r.cacheEntry, formatDate);
    assert sent == ConditionalHeaders(r.cacheEntry, formatDate);
    var x := stack(sent, attempt);
    var a := RunAttempt(r, x);
    match a {
      case Returned(response) => return Some(Ok(response));
      case Thrown(e) => return Some(Err(e));
      case Crashed(f) => return Some(Crash(f));
      case Retryable(e) =>
        var thrown := AttemptRetryOnException(r, e);
        if thrown.Some? {
          return Some(Err(thrown.value));
        }
        return None;
    }
  }

  /** Perform after one pass that the policy let retry: that pass's progress, then the rest. */
  lemma PerformRetries(stack: (Headers, nat) -> Exchange, formatDate: int64 -> string, ctx: Context,
                       policy: Policy, attempt: nat, next: Policy)
    requires StepOf(Classify(Sent(stack, formatDate, ctx, attempt), ctx), policy) == Again(next)
    ensures var here := Perform(stack, formatDate, ctx, policy, attempt);
      var rest := Perform(stack, formatDate, ctx, next, attempt + 1);
      here.result == rest.result && here.policy == rest.policy &&
      here.progress == Progressed(Sent(stack, formatDate, ctx, attempt), ctx) + rest.progress
  {
  }

  /** Perform after a pass that ended the loop. */
  lemma PerformStops(stack: (Headers, nat) -> Exchange, formatDate: int64 -> string, ctx: Context,
                     policy: Policy, attempt: nat, result: NetworkResult)
    requires StepOf(Classify(Sent(stack, formatDate, ctx, attempt), ctx), policy) == Done(result)
    ensures var here := Perform(stack, formatDate, ctx, policy, attempt);
      here.result == result && here.policy == policy &&
      here.progress == Progressed(Sent(stack, formatDate, ctx, attempt), ctx)
  {
  }

  lemma AppendAssociates(a: seq<Notice>, b: seq<Notice>, c: seq<Notice>)
    ensures (a + b) + c == a + (b + c)
  {
  }

  /** performRequest. */
  method PerformRequest(r: Request, stack: (Headers, nat) -> Exchange, formatDate: int64 -> string)
    returns (result: NetworkResult)
    modifies r`retryPolicy, r`notices
    ensures var p := Perform(stack, formatDate, ContextOf(r), old(r.retryPolicy), 0);
      result == p.result && r.retryPolicy == p.policy && r.notices == old(r.notices) + p.progress
  {
    ghost var ctx := ContextOf(r);
    var attempt: nat := 0;
    ghost var goal := Perform(stack, formatDate, ctx, r.retryPolicy, 0);
    while true
      invariant ContextOf(r) == ctx
      invariant var p := Perform(stack, formatDate, ctx, r.retryPolicy, attempt);
        p.result == goal.result && p.policy == goal.policy && r.notices + p.progress == old(r.notices) + goal.progress
      decreases Remaining(r.retryPolicy)
    {
      ghost var policy := r.retryPolicy;
      ghost var before := r.notices;
      var done := TryOnce(r, stack, formatDate, attempt);
      assert ContextOf(r) == ctx;
      ghost var heard := Progressed(Sent(stack, formatDate, ctx, attempt), ctx);
      assert r.notices == before + heard;
      ghost var step := StepOf(Classify(Sent(stack, formatDate, ctx, attempt), ctx), policy);
      if done.Some? {
        PerformStops(stack, formatDate, ctx, policy, attempt, step.result);
        return done.value;
      }
      PerformRetries(stack, formatDate, ctx, policy, attempt, step.next);
      ghost var rest := Perform(stack, formatDate, ctx, step.next, attempt + 1);
      AppendAssociates(before, heard, rest.progress);
      attempt := attempt + 1;
    }
  }
}
