/**
 * DownloadRequest: a GET whose body is streamed to a file. It is never
 * cached, its parse step always succeeds with no result, and its
 * listeners are told only when they exist.
 */
module DownloadRequest {
  import opened Base
  import opened Messages
  import opened RetryPolicy
  import opened Request

  /**
   * DownloadRequest(url, filePath, progressListener, downloadListener): a
   * GET whose download listener doubles as the error listener, with
   * shouldCache switched off.
   */
  method NewDownloadRequest(url: string, filePath: string, hasProgressListener: bool, hasDownloadListener: bool,
                            basePolicy: Policy)
    returns (r: Request)
    ensures fresh(r)
    ensures r.httpMethod == GET && r.url == url && r.kind == Download(filePath, hasProgressListener)
    ensures r.hasListener == hasDownloadListener && r.retryPolicy == basePolicy
    ensures !r.shouldCache && !r.canceled && !r.responseDelivered && r.sequence.None? && !r.attached
    ensures r.cacheEntry.None? && r.tag == null && r.notices == [] && r.GetHeaders() == map[]
    ensures r.GetParams().None?
    ensures forall response :: r.ParseNetworkResponse(response) == SuccessResponse(Null, None)
  {
    var unused := (response: NetworkResponse) => SuccessResponse(Null, None);
    r := new Request.Init(GET, url, Download(filePath, hasProgressListener), hasDownloadListener, unused, basePolicy);
    r.SetShouldCache(false);
  }

  /**
   * deliverProgress: nothing once the request is canceled; otherwise the
   * progress listener, if any, hears the value (the hop to the main thread
   * is not modelled).
   */
  method DeliverProgress(r: Request, progress: int)
    requires r.kind.Download?
    modifies r`notices
    ensures r.canceled || !r.kind.hasProgressListener ==> r.notices == old(r.notices)
    ensures !r.canceled && r.kind.hasProgressListener ==> r.notices == old(r.notices) + [ProgressHeard(progress)]
  {
    if r.canceled {
      return;
    }
    if r.kind.hasProgressListener {
      r.notices := r.notices + [ProgressHeard(progress)];
    }
  }
}
