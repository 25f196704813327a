/**
 * RetryPolicy: `retry(error)` either prepares the next attempt or throws
 * the very error it was given. The model is a counting policy: each
 * successful retry uses up one of a fixed number of allowed retries, so
 * the network's retry loop always ends.
 */
module RetryPolicy {
  import opened Base
  import opened Messages

  /** A policy that has made retryCount retries of at most maxRetries. */
  datatype Policy = Policy(retryCount: nat, maxRetries: nat)

  /** The retries still allowed. */
  function Remaining(p: Policy): nat {
    if p.retryCount >= p.maxRetries then 0 else p.maxRetries - p.retryCount
  }

  /**
   * retry(error): counts one more retry; when that exceeds the allowance,
   * the given error is thrown instead.
   */
  function Retry(p: Policy, error: VolleyError): (r: Result<Policy, VolleyError>)
    ensures r.Failure? <==> Remaining(p) == 0
    ensures r.Failure? ==> r.error == error
    ensures r.Success? ==> Remaining(r.value) == Remaining(p) - 1 && r.value.maxRetries == p.maxRetries
    ensures r.Success? ==> r.value.retryCount == p.retryCount + 1
  {
    var next := p.(retryCount := p.retryCount + 1);
    if next.retryCount <= next.maxRetries then Success(next) else Failure(error)
  }

  /** Retrying k times in a row: the policy after k successful retries, or the error that stopped it. */
  function RetryTimes(p: Policy, error: VolleyError, k: nat): Result<Policy, VolleyError>
    decreases k
  {
    if k == 0 then Success(p)
    else
      match Retry(p, error) {
        case Failure(e) => Failure(e)
        case Success(q) => RetryTimes(q, error, k - 1)
      }
  }

  /** A fresh policy allows exactly maxRetries retries: that many succeed, one more throws. */
  lemma {:induction false} ExactlyMaxRetries(p: Policy, error: VolleyError, k: nat)
    requires p.retryCount <= p.maxRetries
    ensures k <= Remaining(p) ==> RetryTimes(p, error, k) == Success(p.(retryCount := p.retryCount + k))
    ensures k > Remaining(p) ==> RetryTimes(p, error, k) == Failure(error)
    decreases k
  {
    if k > 0 {
      var r := Retry(p, error);
      if r.Success? {
        ExactlyMaxRetries(r.value, error, k - 1);
      }
    }
  }
}
