/**
 * FormRequest: a form-encoded request whose parameters are the body map
 * given at construction, with its own (initially empty) header map.
 */
module FormRequest {
  import opened Base
  import opened Messages
  import opened RetryPolicy
  import opened Request

  /**
   * FormRequest(method, url, body, listener): a new empty header map, the
   * body as getParams, and the library's default retry policy installed
   * over the base one.
   */
  method NewFormRequest(httpMethod: int, url: string, body: Option<seq<(string, string)>>, hasListener: bool,
                        parse: NetworkResponse -> Response, defaultPolicy: Policy)
    returns (r: Request)
    ensures fresh(r)
    ensures r.httpMethod == httpMethod && r.url == url && r.kind == Form(body) && r.hasListener == hasListener
    ensures r.parse == parse && r.retryPolicy == defaultPolicy
    ensures r.headers == map[] && r.GetHeaders() == map[] && r.GetParams() == body
    ensures r.shouldCache && !r.canceled && !r.responseDelivered && r.sequence.None? && !r.attached
    ensures r.cacheEntry.None? && r.tag == null && r.notices == []
  {
    r := new Request.Init(httpMethod, url, Form(body), hasListener, parse, defaultPolicy);
  }

  /** FormRequest(url, body, listener): the same with POST. */
  method NewPostFormRequest(url: string, body: Option<seq<(string, string)>>, hasListener: bool,
                            parse: NetworkResponse -> Response, defaultPolicy: Policy)
    returns (r: Request)
    ensures fresh(r)
    ensures r.httpMethod == POST && r.url == url && r.kind == Form(body) && r.hasListener == hasListener
    ensures r.parse == parse && r.retryPolicy == defaultPolicy
    ensures r.headers == map[] && r.shouldCache && !r.canceled && !r.responseDelivered && r.sequence.None?
    ensures !r.attached && r.cacheEntry.None? && r.tag == null && r.notices == []
  {
    r := NewFormRequest(POST, url, body, hasListener, parse, defaultPolicy);
  }
}
