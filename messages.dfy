/**
 * The values that flow between the stages: the raw NetworkResponse an HTTP
 * exchange (or a cache hit) produces, the VolleyError family, and the
 * parsed Response a request's parser returns. Only the fields the core
 * reads are modelled.
 */
module Messages {
  import opened Base
  import opened Cache

  /** NetworkResponse: status, body bytes (null when absent), headers, and the 304 flag. */
  datatype NetworkResponse = NetworkResponse(
    statusCode: int,
    data: Option<Bytes>,
    headers: Headers,
    notModified: bool)

  const SC_OK: int := 200
  const SC_NOT_MODIFIED: int := 304
  const SC_UNAUTHORIZED: int := 401
  const SC_FORBIDDEN: int := 403

  /**
   * The two-argument NetworkResponse(data, headers) used to replay a cache
   * hit through a request's parser: status 200, not a 304.
   */
  function CachedResponse(data: Option<Bytes>, headers: Headers): (r: NetworkResponse)
    ensures r.data == data && r.headers == headers && !r.notModified
  {
    NetworkResponse(SC_OK, data, headers, false)
  }

  /** Unchecked Java exceptions the core can raise or wrap. */
  datatype RuntimeFailure =
    | BadUrl(url: string)          // MalformedURLException rethrown as RuntimeException
    | NullDereference              // NullPointerException
    | EncodingUnsupported          // UnsupportedEncodingException rethrown as RuntimeException
    | IllegalState                 // IllegalStateException
    | IllegalArgument              // IllegalArgumentException

  /** VolleyError and its subclasses. */
  datatype VolleyError =
    | TimeoutError
    | NoConnectionError
    | AuthFailureError(authResponse: NetworkResponse)
    | ServerError(serverResponse: Option<NetworkResponse>)
    | NetworkError(networkResponse: Option<NetworkResponse>)
    | ParseError
    | Wrapped(cause: RuntimeFailure)  // new VolleyError(e) around any other exception

  /** An opaque parsed result object; Null is Java's null. */
  datatype Value = Null | Obj(id: nat)

  datatype Outcome = Succeeded(value: Value) | Failed(error: VolleyError)

  /** Response<T>: a result or an error, the cache entry to store, and the intermediate flag. */
  datatype Response = Response(outcome: Outcome, cacheEntry: Option<Entry>, intermediate: bool) {
    predicate IsSuccess() { outcome.Succeeded? }
  }

  /** Response.success(result, cacheEntry). */
  function SuccessResponse(value: Value, entry: Option<Entry>): (r: Response)
    ensures r.IsSuccess() && r.outcome.value == value && r.cacheEntry == entry && !r.intermediate
  {
    Response(Succeeded(value), entry, false)
  }

  /** Response.error(error): no result, no cache entry, final. */
  function ErrorResponse(error: VolleyError): (r: Response)
    ensures !r.IsSuccess() && r.outcome.error == error && r.cacheEntry.None? && !r.intermediate
  {
    Response(Failed(error), None, false)
  }
}
