# Volley request engine, modelled in Dafny

This project models the request scheduling and caching engine of a fork of
Android's Volley HTTP library (`VolleyLib`):

- A **RequestQueue** admits requests. It gives each one a sequence number and
  holds back duplicate cacheable requests for a URL while one is in flight
  ("single flight"). It then releases those duplicates when the first one
  finishes.
- The **CacheDispatcher** takes the head of the cache priority queue. It
  answers the request from the **Cache** when the entry is fresh. It sends
  the request to the network when the entry is missing or expired. When
  the entry is only soft-expired, it answers from the cache first and then
  sends the request to the network.
- A **NetworkDispatcher** takes the head of the network priority queue. It
  performs the request through **BasicNetwork**, with retries governed by
  the request's **RetryPolicy**. It writes cacheable responses to the cache
  and posts the outcome to the **ExecutorDelivery**.
- The delivery runs posted tasks in order on the main thread. It invokes
  exactly one listener callback, finishes the request, and runs any
  follow-up work.
- **HttpHeaderParser** turns response headers into a cache entry. The
  alternative **HttpResponseHeaderParser** imposes fixed 3-minute and
  3-hour lifetimes.
- The request variants are **FormRequest** (form-encoded body),
  **GsonRequest** (JSON text body) and **DownloadRequest** (a body streamed
  to a file with percentage progress). **FileUtils** extracts a file name.

Objects the source updates in place are classes:

- `Request.Request`;
- `RequestQueue.RequestQueue`;
- `Cache.CacheStore`;
- `ExecutorDelivery.ExecutorDelivery`;
- the two dispatchers.

Their methods are proved against pure specification functions on values:

- `QueueState` is a snapshot of the queue, with `Admitted`, `Finished`
  and `AfterRun`;
- `CacheRoute` and `NetworkRouteOf` are the dispatchers' branches;
- `Perform` is the whole retry loop;
- `CacheHeaders` is the header parser.

The lemmas state what the source promises about those functions.

The clock, the HTTP stack, the date parser and formatter, and the string
encoders are parameters. These are the `now` value, a `(Headers, nat) ->
Exchange` function, `string -> Option<int64>` and `int64 -> string`
functions, and a `Codec` value.

Where the code and the library's own documentation differ, the model
follows the code:

- A failed attempt is retried inside `performRequest`'s loop. The request
  is never put back on a queue.
- An `IOException` without a response becomes a `NoConnectionError`, which
  is not retried.
- `postError` does not mark the request delivered. Only `postResponse`
  does.
- The follow-up runnable of a soft-expired cache hit runs inside the
  delivery task. It runs after the callback and after the decision whether
  to finish the request.
- `add` records a new cacheable key with a null staged list.
- `HttpResponseHeaderParser`'s comments speak of 24 and 12 hours. Its
  constants are 3 hours and 3 minutes, and the model uses those.

## Model

| member | source | states |
|---|---|---|
| FileUtils.GetFileName | VolleyLib/src/main/java/com/xingen/volleylib/utils/FileUtils.java:14-16 | the result is the suffix of the path after its last '/': a suffix, free of '/', and preceded by a '/' whenever it is shorter than the path |
| FileUtils.NoSlashIsWholePath | VolleyLib/src/main/java/com/xingen/volleylib/utils/FileUtils.java:15 | a path without '/' is its own file name |
| FileUtils.TrailingSlashIsEmpty | VolleyLib/src/main/java/com/xingen/volleylib/utils/FileUtils.java:15 | a path ending in '/' has the empty file name |
| FileUtils.DirectoryAndName | VolleyLib/src/main/java/com/xingen/volleylib/utils/FileUtils.java:15 | the directory part followed by the file name gives back the path |
| Cache.NewEntry | VolleyLib/src/main/java/com/xingen/volleylib/volley/Cache.java:74-91 | a new entry has no data or ETag, zero times and an empty (never null) header map |
| Cache.ExpiredNeedsRefresh | VolleyLib/src/main/java/com/xingen/volleylib/volley/Cache.java:96-105 | with softTtl <= ttl, an expired entry also needs a refresh |
| Cache.ExpiryIsStrict | VolleyLib/src/main/java/com/xingen/volleylib/volley/Cache.java:96-105 | both tests are strict comparisons: an entry is not expired at the instant ttl and is one millisecond later |
| Cache.FreshnessIsMonotone | VolleyLib/src/main/java/com/xingen/volleylib/volley/Cache.java:96-105 | once expired or in need of refresh, an entry stays so as the clock advances |
| Cache.CacheStore.constructor | VolleyLib/src/main/java/com/xingen/volleylib/volley/Cache.java:32-70 | a new store is empty and not yet initialized |
| Cache.CacheStore.Initialize | VolleyLib/src/main/java/com/xingen/volleylib/volley/Cache.java:51 | afterwards the store is initialized |
| Cache.CacheStore.Get | VolleyLib/src/main/java/com/xingen/volleylib/volley/Cache.java:38 | the entry stored under the key, None (null) on a miss |
| Cache.CacheStore.Put | VolleyLib/src/main/java/com/xingen/volleylib/volley/Cache.java:45 | a following get of the key returns exactly this entry; every other key is unchanged |
| Cache.CacheStore.Remove | VolleyLib/src/main/java/com/xingen/volleylib/volley/Cache.java:64 | a following get of the key misses; every other key is unchanged |
| Cache.CacheStore.Clear | VolleyLib/src/main/java/com/xingen/volleylib/volley/Cache.java:69 | every following get misses |
| Messages.CachedResponse | VolleyLib/src/main/java/com/xingen/volleylib/volley/CacheDispatcher.java:114 | a cache hit is replayed as a non-304 response with the entry's data and headers |
| Messages.SuccessResponse | VolleyLib/src/main/java/com/xingen/volleylib/request/DownloadRequest.java:37 | Response.success carries the value and the cache entry and is final |
| Messages.ErrorResponse | VolleyLib/src/main/java/com/xingen/volleylib/volley/ExecutorDelivery.java:77 | Response.error carries the error, no cache entry, and is final |
| RetryPolicy.Retry | VolleyLib/src/main/java/com/xingen/volleylib/volley/RetryPolicy.java:41-48 | retry throws the very error it was given exactly when no retry is left; otherwise it uses up one retry |
| RetryPolicy.ExactlyMaxRetries | VolleyLib/src/main/java/com/xingen/volleylib/volley/RetryPolicy.java:41-48 | a policy allows exactly its remaining retries: that many in a row succeed, one more throws the error |
| Request.CompareTo | VolleyLib/src/main/java/com/xingen/volleylib/volley/Request.java:610-619 | negative when the left priority is higher, positive when it is lower; at equal priority and positive sequences, negative exactly for the earlier sequence and zero exactly for the same one |
| Request.HigherPriorityFirst | VolleyLib/src/main/java/com/xingen/volleylib/volley/Request.java:610-619 | a higher priority compares before a lower one whatever the sequences, in both argument orders |
| Request.FifoWithinPriority | VolleyLib/src/main/java/com/xingen/volleylib/volley/Request.java:614-618 | within one priority, positive sequences compare first-come first-served, and equal only when equal |
| Request.CompareToAntisymmetric | VolleyLib/src/main/java/com/xingen/volleylib/volley/Request.java:610-619 | for positive sequences compareTo is antisymmetric and zero exactly on equal priority and sequence |
| Request.WrappedSequencesNotAntisymmetric | VolleyLib/src/main/java/com/xingen/volleylib/volley/Request.java:617 | the int subtraction overflows for sequences 2^31 apart, so each compares before the other |
| Request.FormEncodedFailureSticks | VolleyLib/src/main/java/com/xingen/volleylib/volley/Request.java:462-475 | once one key or value fails to encode, encoding the whole parameter list fails |
| Request.EncodeParameters | VolleyLib/src/main/java/com/xingen/volleylib/volley/Request.java:462-475 | the bytes of the encoded text, or the rethrown encoding failure exactly when a pair or the byte conversion fails |
| Request.FormRoundTrip | VolleyLib/src/main/java/com/xingen/volleylib/volley/Request.java:465-470 | for URL-safe encodings, splitting the text on '&' gives one piece per pair plus a trailing empty piece, and each piece splits on '=' into the encoded key and value |
| Request.FormTextEndsWithSeparator | VolleyLib/src/main/java/com/xingen/volleylib/volley/Request.java:469 | a non-empty parameter list encodes to text ending in '&' |
| Request.Request.Init | VolleyLib/src/main/java/com/xingen/volleylib/volley/Request.java:142-148 | the identity fields as given, every flag at its default, the cache key the URL |
| Request.Request.RequestPriority | VolleyLib/src/main/java/com/xingen/volleylib/volley/Request.java:511-513 | NORMAL for every variant that does not override getPriority |
| Request.Request.GetHeaders | VolleyLib/src/main/java/com/xingen/volleylib/request/FormRequest.java:47-50 | the variant's own header map for form and JSON requests, otherwise the empty map |
| Request.Request.GetParams | VolleyLib/src/main/java/com/xingen/volleylib/request/FormRequest.java:59-62 | the form body for a form request, null for any other |
| Request.Request.BodyContentType | VolleyLib/src/main/java/com/xingen/volleylib/request/GsonRequest.java:69-72 | the JSON content type for a JSON request, the form content type otherwise |
| Request.Request.ParseNetworkResponse | VolleyLib/src/main/java/com/xingen/volleylib/request/DownloadRequest.java:35-38 | a download always succeeds with no result and no cache entry; the others apply their parser |
| Request.Request.GetBody | VolleyLib/src/main/java/com/xingen/volleylib/volley/Request.java:449-455 | null for missing or empty parameters, else the encoded parameters; a JSON request's text in its charset, null when absent or unconvertible |
| Request.Request.SetTag | VolleyLib/src/main/java/com/xingen/volleylib/volley/Request.java:164-167 | the tag is the given object |
| Request.Request.Attach | VolleyLib/src/main/java/com/xingen/volleylib/volley/Request.java:251-254 | the request is attached to the queue |
| Request.Request.SetRetryPolicy | VolleyLib/src/main/java/com/xingen/volleylib/volley/Request.java:190-193 | the policy is the given one |
| Request.Request.SetSequence | VolleyLib/src/main/java/com/xingen/volleylib/volley/Request.java:263-266 | the sequence is set to the given value |
| Request.Request.GetSequence | VolleyLib/src/main/java/com/xingen/volleylib/volley/Request.java:271-276 | IllegalStateException before any setSequence, the stored value after |
| Request.Request.SetCacheEntry | VolleyLib/src/main/java/com/xingen/volleylib/volley/Request.java:302-305 | the cache entry is the given one |
| Request.Request.SetShouldCache | VolleyLib/src/main/java/com/xingen/volleylib/volley/Request.java:484-487 | shouldCache is the given flag |
| Request.Request.Cancel | VolleyLib/src/main/java/com/xingen/volleylib/volley/Request.java:321-323 | the request is canceled |
| Request.Request.MarkDelivered | VolleyLib/src/main/java/com/xingen/volleylib/volley/Request.java:537-539 | the request is marked delivered |
| Request.Request.SetHeader | VolleyLib/src/main/java/com/xingen/volleylib/request/FormRequest.java:52-57 | key -> content is stored only when both are non-empty; the returned map is what getHeaders returns |
| Request.Request.DeliverResponse | VolleyLib/src/main/java/com/xingen/volleylib/request/DownloadRequest.java:40-44 | a download's listener, if any, hears that the file is complete; other variants' listener hears the result |
| Request.Request.DeliverError | VolleyLib/src/main/java/com/xingen/volleylib/volley/Request.java:599-603 | only an existing error listener hears the error (a download reports the failure with its URL) |
| FormRequest.NewFormRequest | VolleyLib/src/main/java/com/xingen/volleylib/request/FormRequest.java:29-35 | the method, URL and body as given, an empty header map, the default retry policy, the flags at their defaults |
| FormRequest.NewPostFormRequest | VolleyLib/src/main/java/com/xingen/volleylib/request/FormRequest.java:26-28 | the same request with POST |
| GsonRequest.NewGsonRequest | VolleyLib/src/main/java/com/xingen/volleylib/request/GsonRequest.java:40-45 | the JSON text as body, an empty header map, the JSON content type, the flags at their defaults |
| GsonRequest.NewGetGsonRequest | VolleyLib/src/main/java/com/xingen/volleylib/request/GsonRequest.java:31-33 | a GET with a null body |
| GsonRequest.NewPostGsonRequest | VolleyLib/src/main/java/com/xingen/volleylib/request/GsonRequest.java:34-39 | a POST of the given JSON text |
| DownloadRequest.NewDownloadRequest | VolleyLib/src/main/java/com/xingen/volleylib/request/DownloadRequest.java:27-34 | a GET to the file path with caching switched off, no headers or parameters, and a parse step that always succeeds |
| DownloadRequest.DeliverProgress | VolleyLib/src/main/java/com/xingen/volleylib/request/DownloadRequest.java:56-68 | nothing once canceled or without a progress listener; otherwise the listener hears the value |
| RequestQueue.BeforeIsStrictOrder | VolleyLib/src/main/java/com/xingen/volleylib/volley/Request.java:610-619 | the queue order (priority, then sequence) is irreflexive, asymmetric and transitive |
| RequestQueue.CompareToMatchesBefore | VolleyLib/src/main/java/com/xingen/volleylib/volley/Request.java:610-619 | for positive sequences compareTo is negative exactly when the first ticket orders first, positive exactly when the second does |
| RequestQueue.Without | VolleyLib/src/main/java/com/xingen/volleylib/volley/CacheDispatcher.java:87 | taking a ticket out leaves every other ticket, as a multiset |
| RequestQueue.HeadIndex | VolleyLib/src/main/java/com/xingen/volleylib/volley/CacheDispatcher.java:87 | take hands out a ticket no other ticket orders before |
| RequestQueue.HeadComesFirst | VolleyLib/src/main/java/com/xingen/volleylib/volley/Request.java:610-619 | the head has the highest priority present and the earliest sequence within it; with positive sequences compareTo puts nothing before it |
| RequestQueue.SoleHead | VolleyLib/src/main/java/com/xingen/volleylib/volley/Request.java:610-619 | a ticket ordered before every other ticket of a queue is the only one take can hand out |
| RequestQueue.PriorityThenFifoExample | VolleyLib/src/main/java/com/xingen/volleylib/volley/Request.java:614-618 | HIGH#1, NORMAL#2, HIGH#3 are taken in the order #1, #3, #2 |
| RequestQueue.Admitted | VolleyLib/src/main/java/com/xingen/volleylib/volley/RequestQueue.java:232-275 | add bumps the counter (wrapping), makes the request current and gives it a ticket with the new sequence; an uncached request goes to the network queue, a cacheable one whose key is in flight joins the end of that key's staged list, and a cacheable one with a new key goes to the cache queue and puts the key in flight; no other key's staging changes |
| RequestQueue.Finished | VolleyLib/src/main/java/com/xingen/volleylib/volley/RequestQueue.java:286-307 | finish drops the request from the current set; for a cacheable request the requests staged under its key move to the end of the cache queue in order and the key leaves flight; the counter, the network queue and other keys are unchanged |
| RequestQueue.AdmittedKeepsValid | VolleyLib/src/main/java/com/xingen/volleylib/volley/RequestQueue.java:232-275 | until the counter reaches Integer.MAX_VALUE, add keeps the queue's invariant and issues a sequence above every queued one |
| RequestQueue.FinishedKeepsValid | VolleyLib/src/main/java/com/xingen/volleylib/volley/RequestQueue.java:286-307 | finish keeps the queue's invariant |
| RequestQueue.TakingKeepsValid | VolleyLib/src/main/java/com/xingen/volleylib/volley/CacheDispatcher.java:87 | taking a head out of either priority queue keeps the invariant |
| RequestQueue.UncachedBypassesStaging | VolleyLib/src/main/java/com/xingen/volleylib/volley/RequestQueue.java:244-247 | a request that does not cache goes straight to the network queue without staging, and finishing it only drops it from the current set |
| RequestQueue.TicketsFrom | VolleyLib/src/main/java/com/xingen/volleylib/volley/RequestQueue.java:234-240 | successive adds issue one ticket per request, with that request and its priority |
| RequestQueue.TicketsCountUp | VolleyLib/src/main/java/com/xingen/volleylib/volley/RequestQueue.java:176-178 | without wrap-around successive adds are numbered counter+1, counter+2, ... |
| RequestQueue.DuplicatesAreStaged | VolleyLib/src/main/java/com/xingen/volleylib/volley/RequestQueue.java:256-263 | while a key is in flight, further cacheable requests for it join its staged list in arrival order and neither priority queue changes |
| RequestQueue.DuplicateIsStaged | VolleyLib/src/main/java/com/xingen/volleylib/volley/RequestQueue.java:256-263 | one such request joins the end of the staged list |
| RequestQueue.DuplicatesReleasedInOrder | VolleyLib/src/main/java/com/xingen/volleylib/volley/RequestQueue.java:286-307 | the first cacheable request goes to the cache queue; its duplicates wait, and finishing it moves them all to the cache queue in arrival order and takes the key out of flight |
| RequestQueue.AddThenFinish | VolleyLib/src/main/java/com/xingen/volleylib/volley/RequestQueue.java:267-272 | adding a new-key cacheable request and finishing it changes only the counter and the cache queue |
| RequestQueue.RequestQueue.constructor | VolleyLib/src/main/java/com/xingen/volleylib/volley/RequestQueue.java:108-115 | a new queue is empty, with counter 0, and satisfies the invariant |
| RequestQueue.RequestQueue.GetSequenceNumber | VolleyLib/src/main/java/com/xingen/volleylib/volley/RequestQueue.java:176-178 | incrementAndGet: the counter plus one, wrapping as a Java int |
| RequestQueue.RequestQueue.Add | VolleyLib/src/main/java/com/xingen/volleylib/volley/RequestQueue.java:232-275 | the request is attached and numbered with the new counter, and the queue moves to the add transition |
| RequestQueue.RequestQueue.Finish | VolleyLib/src/main/java/com/xingen/volleylib/volley/RequestQueue.java:286-307 | the queue moves to the finish transition |
| RequestQueue.RequestQueue.TakeCache | VolleyLib/src/main/java/com/xingen/volleylib/volley/CacheDispatcher.java:87 | a head of the cache queue is removed and returned |
| RequestQueue.RequestQueue.TakeNetwork | VolleyLib/src/main/java/com/xingen/volleylib/volley/NetworkDispatcher.java:97 | a head of the network queue is removed and returned |
| RequestQueue.RequestQueue.PutNetwork | VolleyLib/src/main/java/com/xingen/volleylib/volley/CacheDispatcher.java:100 | the ticket is added to the network queue |
| RequestQueue.RequestQueue.CancelAll | VolleyLib/src/main/java/com/xingen/volleylib/volley/RequestQueue.java:200-208 | every current request the filter applies to is canceled, and no other changes |
| RequestQueue.RequestQueue.CancelAllTagged | VolleyLib/src/main/java/com/xingen/volleylib/volley/RequestQueue.java:214-224 | IllegalArgumentException exactly for a null tag; otherwise cancels the current requests whose tag is that very object |
| RequestQueue.FinishRequest | VolleyLib/src/main/java/com/xingen/volleylib/volley/Request.java:212-215 | an attached request finishes in its queue; an unattached one changes nothing |
| ExecutorDelivery.CallFor | VolleyLib/src/main/java/com/xingen/volleylib/volley/ExecutorDelivery.java:108-112 | a successful response is delivered with its value, anything else as deliverError with its error, on the task's request |
| ExecutorDelivery.Heard | VolleyLib/src/main/java/com/xingen/volleylib/request/DownloadRequest.java:40-50 | a delivery gives a listener at most one notice: none for an error without a listener, the value for a non-download success |
| ExecutorDelivery.CanceledTaskSkipsRunnable | VolleyLib/src/main/java/com/xingen/volleylib/volley/ExecutorDelivery.java:103-106 | a canceled request's task finishes it and never runs the runnable |
| ExecutorDelivery.IntermediateKeepsRequestInFlight | VolleyLib/src/main/java/com/xingen/volleylib/volley/ExecutorDelivery.java:118-126 | an intermediate response does not finish the request, and its runnable puts it on the network queue |
| ExecutorDelivery.FinalResponseFinishes | VolleyLib/src/main/java/com/xingen/volleylib/volley/ExecutorDelivery.java:118-122 | a final response finishes the request in its queue |
| ExecutorDelivery.ExecutorDelivery.constructor | VolleyLib/src/main/java/com/xingen/volleylib/volley/ExecutorDelivery.java:58-60 | nothing posted, nothing run |
| ExecutorDelivery.ExecutorDelivery.PostResponseThen | VolleyLib/src/main/java/com/xingen/volleylib/volley/ExecutorDelivery.java:67-72 | marks the request delivered, then posts the task with its runnable |
| ExecutorDelivery.ExecutorDelivery.PostResponse | VolleyLib/src/main/java/com/xingen/volleylib/volley/ExecutorDelivery.java:62-65 | the same with no runnable |
| ExecutorDelivery.ExecutorDelivery.PostError | VolleyLib/src/main/java/com/xingen/volleylib/volley/ExecutorDelivery.java:74-79 | posts Response.error(error) without marking the request delivered |
| ExecutorDelivery.ExecutorDelivery.RunNext | VolleyLib/src/main/java/com/xingen/volleylib/volley/ExecutorDelivery.java:101-127 | the oldest task runs: a canceled request is finished silently; otherwise exactly the callback of CallFor, then finish unless intermediate, then the runnable |
| CacheDispatcher.RoutesFollowFreshness | VolleyLib/src/main/java/com/xingen/volleylib/volley/CacheDispatcher.java:96-137 | a live request is answered from the cache exactly when an unexpired entry exists, and goes to the network exactly when there is no entry or it needs a refresh |
| CacheDispatcher.CanceledIsDiscarded | VolleyLib/src/main/java/com/xingen/volleylib/volley/CacheDispatcher.java:91-94 | a canceled request is finished whatever the cache holds |
| CacheDispatcher.CacheDispatcher.constructor | VolleyLib/src/main/java/com/xingen/volleylib/volley/CacheDispatcher.java:60-67 | the dispatcher holds the given queue, cache and delivery |
| CacheDispatcher.CacheDispatcher.Start | VolleyLib/src/main/java/com/xingen/volleylib/volley/CacheDispatcher.java:82 | the cache is initialized before the first take |
| CacheDispatcher.CacheDispatcher.Step | VolleyLib/src/main/java/com/xingen/volleylib/volley/CacheDispatcher.java:84-138 | one pass takes the head ticket; a canceled one is finished, a miss or expired hit goes to the network queue (an expired one with its entry), a hit is posted from the cache, and a soft-expired hit is posted with an intermediate flag and a runnable that re-queues it; no callback runs, and no request's delivered flag is ever cleared |
| NetworkDispatcher.NotModifiedDeliveredOnce | VolleyLib/src/main/java/com/xingen/volleylib/volley/NetworkDispatcher.java:125-144 | a 304 for an already delivered request ends it with no second delivery; otherwise it is delivered |
| NetworkDispatcher.CacheWriteIsExact | VolleyLib/src/main/java/com/xingen/volleylib/volley/NetworkDispatcher.java:136-140 | the cache write never touches another key, stores exactly the parsed entry, and does nothing for a request that does not cache |
| NetworkDispatcher.NetworkDispatcher.constructor | VolleyLib/src/main/java/com/xingen/volleylib/volley/NetworkDispatcher.java:63-70 | the dispatcher holds the given queue, cache and delivery |
| NetworkDispatcher.NetworkDispatcher.Complete | VolleyLib/src/main/java/com/xingen/volleylib/volley/NetworkDispatcher.java:125-162 | after a live request is performed: the not-modified shortcut finishes it, a parsed response is cached as required and posted, an error is posted |
| NetworkDispatcher.NetworkDispatcher.Step | VolleyLib/src/main/java/com/xingen/volleylib/volley/NetworkDispatcher.java:94-151 | one pass takes the head ticket; a canceled one is finished, otherwise it is performed and completed as above; no request's delivered flag is ever cleared |
| BasicNetwork.ConditionalHeaders | VolleyLib/src/main/java/com/xingen/volleylib/volley/toolbox/BasicNetwork.java:227-239 | If-None-Match with the entry's ETag if any; If-Modified-Since with the formatted server date exactly when it is positive; nothing else |
| BasicNetwork.AddCacheHeaders | VolleyLib/src/main/java/com/xingen/volleylib/volley/toolbox/BasicNetwork.java:227-239 | the conditional headers are put into the map and every other key is kept |
| BasicNetwork.HeaderMap | VolleyLib/src/main/java/com/xingen/volleylib/volley/toolbox/BasicNetwork.java:281-287 | the map has exactly the names that occur among the headers |
| BasicNetwork.LastHeaderWins | VolleyLib/src/main/java/com/xingen/volleylib/volley/toolbox/BasicNetwork.java:281-287 | a repeated header name keeps the value of its last occurrence |
| BasicNetwork.ConvertHeaders | VolleyLib/src/main/java/com/xingen/volleylib/volley/toolbox/BasicNetwork.java:281-287 | the loop builds that map |
| BasicNetwork.EntityToBytes | VolleyLib/src/main/java/com/xingen/volleylib/volley/toolbox/BasicNetwork.java:249-276 | a ServerError for a null stream; otherwise every chunk in order, or the I/O failure that ended the stream |
| BasicNetwork.ProgressNotices | VolleyLib/src/main/java/com/xingen/volleylib/volley/toolbox/BasicNetwork.java:301-313 | one progress value per chunk, the truncated percentage of the bytes received so far |
| BasicNetwork.ProgressWithinBounds | VolleyLib/src/main/java/com/xingen/volleylib/volley/toolbox/BasicNetwork.java:310-312 | when the stream is no longer than its declared length, every percentage is between 0 and 100 |
| BasicNetwork.ProgressNeverFalls | VolleyLib/src/main/java/com/xingen/volleylib/volley/toolbox/BasicNetwork.java:309-312 | the percentage never decreases |
| BasicNetwork.ProgressClimbsTo100 | VolleyLib/src/main/java/com/xingen/volleylib/volley/toolbox/BasicNetwork.java:301-314 | with the exact integer quotient, the reported values stay within 0..100, never fall, and end at exactly 100 when the whole length arrives (the source's float computation can end at 99, see Left out) |
| BasicNetwork.WriteFileStream | VolleyLib/src/main/java/com/xingen/volleylib/volley/toolbox/BasicNetwork.java:289-319 | the download attempt's outcome, and progress notices only for a live request with a progress listener |
| BasicNetwork.RunAttempt | VolleyLib/src/main/java/com/xingen/volleylib/volley/toolbox/BasicNetwork.java:116-180 | one pass of the loop's try block with its catch clauses, as the classification of what the stack produced |
| BasicNetwork.StepOf | VolleyLib/src/main/java/com/xingen/volleylib/volley/toolbox/BasicNetwork.java:206-216 | another attempt is only granted when the policy's remaining retries drop |
| BasicNetwork.AttemptsBounded | VolleyLib/src/main/java/com/xingen/volleylib/volley/toolbox/BasicNetwork.java:112-181 | the stack is called at least once and at most once more than the retries allowed, and every call after the first used up one retry |
| BasicNetwork.TimeoutsExhaustPolicy | VolleyLib/src/main/java/com/xingen/volleylib/volley/toolbox/BasicNetwork.java:154-157 | a stack that always times out is called once per allowed retry plus one, then TimeoutError is thrown |
| BasicNetwork.StatusDecidesOutcome | VolleyLib/src/main/java/com/xingen/volleylib/volley/toolbox/BasicNetwork.java:137-176 | with a fully read body, 2xx is returned with it, 401/403 go to the retry policy as AuthFailureError, and anything else is thrown as ServerError with the response |
| BasicNetwork.NotModifiedCarriesCachedData | VolleyLib/src/main/java/com/xingen/volleylib/volley/toolbox/BasicNetwork.java:132-135 | a 304 is returned as not-modified with the cached body of the request's entry (null without one) |
| BasicNetwork.AttemptRetryOnException | VolleyLib/src/main/java/com/xingen/volleylib/volley/toolbox/BasicNetwork.java:206-216 | the request's policy becomes the retried one, or the error the policy threw is rethrown |
| BasicNetwork.TryOnce | VolleyLib/src/main/java/com/xingen/volleylib/volley/toolbox/BasicNetwork.java:113-180 | one pass of the loop ends in a final result or a granted retry |
| BasicNetwork.PerformRequest | VolleyLib/src/main/java/com/xingen/volleylib/volley/toolbox/BasicNetwork.java:109-182 | the whole retry loop: the result, the final policy and the progress notices |
| HttpHeaderParser.ParseLong | VolleyLib/src/main/java/com/xingen/volleylib/volley/toolbox/HttpHeaderParser.java:86 | Long.parseLong accepts only an optional sign followed by digits, is non-negative without a '-', and reads a plain digit string in the long range as its decimal value |
| HttpHeaderParser.ParseLongDecimal | VolleyLib/src/main/java/com/xingen/volleylib/volley/toolbox/HttpHeaderParser.java:86 | Long.parseLong reads back every long written in decimal, with or without a sign |
| HttpHeaderParser.MaxAgeLastSetting | VolleyLib/src/main/java/com/xingen/volleylib/volley/toolbox/HttpHeaderParser.java:79-93 | the last max-age / must-revalidate / proxy-revalidate token decides maxAge |
| HttpHeaderParser.MaxAgeNoSetting | VolleyLib/src/main/java/com/xingen/volleylib/volley/toolbox/HttpHeaderParser.java:79-93 | without such a token maxAge stays 0 |
| HttpHeaderParser.BadMaxAgeIgnored | VolleyLib/src/main/java/com/xingen/volleylib/volley/toolbox/HttpHeaderParser.java:84-88 | a max-age whose number does not parse leaves maxAge unchanged |
| HttpHeaderParser.ScanCacheControl | VolleyLib/src/main/java/com/xingen/volleylib/volley/toolbox/HttpHeaderParser.java:76-93 | the loop stops exactly on a no-cache or no-store token and otherwise ends with the maxAge the tokens set |
| HttpHeaderParser.ParseCacheHeaders | VolleyLib/src/main/java/com/xingen/volleylib/volley/toolbox/HttpHeaderParser.java:45-139 | the entry the header rules give, null for an uncacheable response |
| HttpHeaderParser.UncacheableExactly | VolleyLib/src/main/java/com/xingen/volleylib/volley/toolbox/HttpHeaderParser.java:76-83 | no-cache or no-store anywhere in Cache-Control makes the response uncacheable, and nothing else does |
| HttpHeaderParser.EntryCopiesResponse | VolleyLib/src/main/java/com/xingen/volleylib/volley/toolbox/HttpHeaderParser.java:130-137 | the entry carries the body, the ETag, the parsed Date and the headers unchanged, with equal hard and soft expiry |
| HttpHeaderParser.CacheControlLifetime | VolleyLib/src/main/java/com/xingen/volleylib/volley/toolbox/HttpHeaderParser.java:120-122 | with Cache-Control, the entry expires at now + maxAge * 1000 in long arithmetic, whatever Expires says |
| HttpHeaderParser.CacheControlWithoutMaxAge | VolleyLib/src/main/java/com/xingen/volleylib/volley/toolbox/HttpHeaderParser.java:120-122 | Cache-Control without a lifetime token makes the entry expire at now |
| HttpHeaderParser.MaxAgeFreshWindow | VolleyLib/src/main/java/com/xingen/volleylib/volley/toolbox/HttpHeaderParser.java:122 | a non-overflowing max-age of N seconds keeps the entry fresh for exactly N * 1000 ms |
| HttpHeaderParser.ExpiresLifetime | VolleyLib/src/main/java/com/xingen/volleylib/volley/toolbox/HttpHeaderParser.java:123-128 | without Cache-Control the lifetime is Expires - Date when Date is positive and Expires is not before it, otherwise the entry has expiry 0 |
| HttpHeaderParser.ParseCharset | VolleyLib/src/main/java/com/xingen/volleylib/volley/toolbox/HttpHeaderParser.java:162-177 | the loop over the Content-Type parameters computes the charset the header names |
| HttpHeaderParser.CharsetFirstMatch | VolleyLib/src/main/java/com/xingen/volleylib/volley/toolbox/HttpHeaderParser.java:165-172 | the first parameter after the media type that names a charset decides the result |
| HttpHeaderParser.CharsetDefault | VolleyLib/src/main/java/com/xingen/volleylib/volley/toolbox/HttpHeaderParser.java:163-176 | without Content-Type or a charset parameter the result is ISO-8859-1 |
| HttpResponseHeaderParser.WithSpecifiedTimes | VolleyLib/src/main/java/com/xingen/volleylib/header/HttpResponseHeaderParser.java:26-34 | only the two lifetimes change: 3 minutes soft and 3 hours hard from now, when that does not overflow |
| HttpResponseHeaderParser.ParseSpecifiedTimeCacheHeaders | VolleyLib/src/main/java/com/xingen/volleylib/header/HttpResponseHeaderParser.java:22-36 | a NullPointerException exactly for an uncacheable response; otherwise the standard entry with the fixed lifetimes |
| HttpResponseHeaderParser.SpecifiedWindows | VolleyLib/src/main/java/com/xingen/volleylib/header/HttpResponseHeaderParser.java:30-34 | such an entry is fresh for 3 minutes, then needs a refresh, and expires after 3 hours |
| HttpResponseHeaderParser.IgnoresHeaderLifetimes | VolleyLib/src/main/java/com/xingen/volleylib/header/HttpResponseHeaderParser.java:23-34 | the result does not depend on the lifetimes the headers gave |

## Left out

- Threads, blocking and shutdown are not modelled: the dispatcher threads, `start`/`stop`, `quit`, interrupts and the blocking `take`. Each dispatcher pass is one method call. A pass on an empty queue is the `Idle` route, where the source would block.
- Markers, debug logging, `TrafficStats` tagging and `logSlowRequests` are diagnostics only.
- The Looper/Handler hop to the main thread in `Request.finish` and `deliverProgress` is not modelled. Its effect happens in place.
- The clock, the HTTP stack, and `DateUtils` parsing and formatting are parameters. `URLEncoder.encode` and `String.getBytes` are a `Codec` value.
- File I/O in `writeFileStreamIfExist` is not modelled: opening the file, `FileNotFoundException`, `delete`/`deleteOnExit`. Only the chunks read and the progress reported are.
- `entityToBytes`'s byte-array pool is not modelled. It affects only allocation.
- BasicNetwork.ProgressNotices: the percentage is the exact integer quotient `received * 100 / length`. The source computes `(int) ((float) received * 100 / length)`, and its float rounding is not modelled.
- ProgressClimbsTo100 (BasicNetwork.ProgressClimbsTo100): "ends at exactly 100" holds for the exact quotient only. With the source's float arithmetic, a complete download whose length exceeds 2^24 bytes can report 99 last; 1,000,001,953 bytes is one such length.
- Parser exceptions are not modelled: a request's parser is a total function to a `Response`. Null parser or listener dereferences in `deliverResponse` of FormRequest and GsonRequest are also out.
- RetryPolicy.Retry: the policy is a counting model. `DefaultRetryPolicy`'s timeout growth and backoff multiplier are not part of this model.
- `Cache.invalidate` and the disk-backed cache implementation are not part of this model. The store is its get/put/remove/clear contract.
- Adding the same request object twice is not modelled.
- GsonUtils serialisation is not part of this model. The GsonRequest constructors receive the JSON text.
- HttpHeaderParser.ParseLongDecimal: `Long.parseLong` accepts only ASCII digits here. Other Unicode decimal digits are not modelled.
- RequestQueue.TicketsCountUp: the sequence counter wraps after 2^31 adds. The ordering lemmas assume positive sequences. `WrappedSequencesNotAntisymmetric` shows why they need that. The model's take always follows the priority-then-sequence order `Before`. After the counter wraps, the source's queue orders by an inconsistent comparator, and its order is not modelled.
- HashMap iteration order is a given sequence of pairs, the order `getParams` hands out.
- Request subclasses outside the core, such as image and string requests, and their priority overrides are a `Plain(priority)` variant.
- The `mRequestQueue` reference is the request's `attached` flag. The model has a single queue.
