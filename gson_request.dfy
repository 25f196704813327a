/**
 * GsonRequest: a request whose body is JSON text sent as UTF-8, with its
 * own (initially empty) header map. Building the text from an object or a
 * JSON object is the caller's serialiser and is not part of this model:
 * the constructors here receive the text.
 */
module GsonRequest {
  import opened Base
  import opened Messages
  import opened RetryPolicy
  import opened Request

  /** GsonRequest(method, url, body, listener). The base retry policy is kept. */
  method NewGsonRequest(httpMethod: int, url: string, json: Option<string>, hasListener: bool,
                        parse: NetworkResponse -> Response, basePolicy: Policy)
    returns (r: Request)
    ensures fresh(r)
    ensures r.httpMethod == httpMethod && r.url == url && r.kind == Gson(json) && r.hasListener == hasListener
    ensures r.parse == parse && r.retryPolicy == basePolicy
    ensures r.headers == map[] && r.GetHeaders() == map[]
    ensures r.BodyContentType() == "application/json; charset=utf-8"
    ensures r.shouldCache && !r.canceled && !r.responseDelivered && r.sequence.None? && !r.attached
    ensures r.cacheEntry.None? && r.tag == null && r.notices == []
  {
    r := new Request.Init(httpMethod, url, Gson(json), hasListener, parse, basePolicy);
  }

  /** GsonRequest(url, listener): a GET with a null body. */
  method NewGetGsonRequest(url: string, hasListener: bool, parse: NetworkResponse -> Response, basePolicy: Policy)
    returns (r: Request)
    ensures fresh(r)
    ensures r.httpMethod == GET && r.url == url && r.kind == Gson(None)
    ensures r.hasListener == hasListener && r.parse == parse && r.retryPolicy == basePolicy
    ensures r.headers == map[] && r.shouldCache && !r.canceled && !r.responseDelivered && r.sequence.None?
    ensures !r.attached && r.cacheEntry.None? && r.tag == null && r.notices == []
  {
    r := NewGsonRequest(GET, url, None, hasListener, parse, basePolicy);
  }

  /**
   * GsonRequest(url, Object body, listener) and GsonRequest(url, JSONObject
   * body, listener): a POST of the body's JSON text.
   */
  method NewPostGsonRequest(url: string, jsonText: string, hasListener: bool,
                            parse: NetworkResponse -> Response, basePolicy: Policy)
    returns (r: Request)
    ensures fresh(r)
    ensures r.httpMethod == POST && r.url == url && r.kind == Gson(Some(jsonText))
    ensures r.hasListener == hasListener && r.parse == parse && r.retryPolicy == basePolicy
    ensures r.headers == map[] && r.shouldCache && !r.canceled && !r.responseDelivered && r.sequence.None?
    ensures !r.attached && r.cacheEntry.None? && r.tag == null && r.notices == []
  {
    r := NewGsonRequest(POST, url, Some(jsonText), hasListener, parse, basePolicy);
  }
}
