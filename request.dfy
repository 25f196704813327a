/**
 * Request: the unit of work. Its identity is fixed at construction
 * (method, URL, variant, listener, parser); the engine then updates a few
 * flags in place: the sequence number assigned on admission, the
 * cancellation and delivery flags (which only ever go from false to true),
 * the attached cache entry, the retry policy and, for the form and JSON
 * variants, their own header map.
 *
 * The request variants (FormRequest, GsonRequest, DownloadRequest, and any
 * subclass that keeps the base behaviour) are the `Kind` of a request; the
 * methods they override dispatch on it here, and their constructors live
 * in their own modules.
 */
module Request {
  import opened Base
  import opened Cache
  import opened Messages
  import opened RetryPolicy

  // ----- Request.Method -----
  const DEPRECATED_GET_OR_POST: int := -1
  const GET: int := 0
  const POST: int := 1
  const PUT: int := 2
  const DELETE: int := 3
  const HEAD: int := 4
  const OPTIONS: int := 5
  const TRACE: int := 6
  const PATCH: int := 7

  const DEFAULT_PARAMS_ENCODING: string := "UTF-8"
  /** The base content type: form encoding in the parameter charset. */
  const FORM_CONTENT_TYPE: string := "application/x-www-form-urlencoded; charset=" + DEFAULT_PARAMS_ENCODING
  /** GsonRequest's body charset and content type. */
  const PROTOCOL_CHARSET: string := "utf-8"
  const PROTOCOL_CONTENT_TYPE: string := "application/json; charset=" + PROTOCOL_CHARSET

  // ----- Priority and ordering -----

  datatype Priority = Low | Normal | High | Immediate

  /** Enum.ordinal(): declaration order. */
  function Ordinal(p: Priority): nat {
    match p
    case Low => 0
    case Normal => 1
    case High => 2
    case Immediate => 3
  }

  /**
   * compareTo: with equal priorities, the `int` difference of the
   * sequences (earlier first); otherwise the difference of the ordinals
   * (higher priority first). A negative result orders left first.
   */
  function CompareTo(left: Priority, leftSequence: int32, right: Priority, rightSequence: int32): (c: int32)
    ensures Ordinal(left) > Ordinal(right) ==> c < 0
    ensures Ordinal(left) < Ordinal(right) ==> c > 0
    ensures left == right && leftSequence > 0 && rightSequence > 0 ==>
      (c < 0 <==> leftSequence < rightSequence) && (c == 0 <==> leftSequence == rightSequence)
  {
    if left == right then Wrap32(leftSequence - rightSequence) else Ordinal(right) - Ordinal(left)
  }

  /** A higher priority orders first whatever the sequences. */
  lemma HigherPriorityFirst(left: Priority, leftSequence: int32, right: Priority, rightSequence: int32)
    requires Ordinal(left) > Ordinal(right)
    ensures CompareTo(left, leftSequence, right, rightSequence) < 0
    ensures CompareTo(right, rightSequence, left, leftSequence) > 0
  {
  }

  /** Within one priority, positive sequences order first-come first-served. */
  lemma FifoWithinPriority(p: Priority, leftSequence: int32, rightSequence: int32)
    requires leftSequence > 0 && rightSequence > 0
    ensures CompareTo(p, leftSequence, p, rightSequence) < 0 <==> leftSequence < rightSequence
    ensures CompareTo(p, leftSequence, p, rightSequence) == 0 <==> leftSequence == rightSequence
  {
  }

  /** For assigned (positive) sequences, compareTo is antisymmetric and zero only on equal keys. */
  lemma CompareToAntisymmetric(left: Priority, leftSequence: int32, right: Priority, rightSequence: int32)
    requires leftSequence > 0 && rightSequence > 0
    ensures CompareTo(left, leftSequence, right, rightSequence) ==
            -CompareTo(right, rightSequence, left, leftSequence)
    ensures CompareTo(left, leftSequence, right, rightSequence) == 0 <==>
            left == right && leftSequence == rightSequence
  {
    if left != right {
      assert Ordinal(left) != Ordinal(right);
    }
  }

  /**
   * Why the sequences must be positive: once the counter has wrapped, two
   * sequences 2^31 apart each compare as "before" the other.
   */
  lemma WrappedSequencesNotAntisymmetric()
    ensures CompareTo(Normal, MinInt32, Normal, 0) < 0
    ensures CompareTo(Normal, 0, Normal, MinInt32) < 0
  {
  }

  // ----- Variants -----

  /**
   * What the subclass overrides. Plain is a subclass that keeps the base
   * getHeaders/getParams/getBody and answers `priority` from getPriority
   * (Normal in the base class, Low for an image request); Form carries the
   * body map as its entries in iteration order; Gson carries the JSON body
   * text; Download carries the target path and whether a progress listener
   * was given.
   */
  datatype Kind =
    | Plain(priority: Priority)
    | Form(body: Option<seq<(string, string)>>)
    | Gson(json: Option<string>)
    | Download(filePath: string, hasProgressListener: bool)

  /** What a listener hears. */
  datatype Notice =
    | ResponseHeard(value: Value)
    | ErrorHeard(error: VolleyError)
    | DownloadFinished(url: string, filePath: string)
    | DownloadFailed(url: string, error: VolleyError)
    | ProgressHeard(progress: int)

  // ----- encodeParameters -----

  /** One pair as encodeParameters writes it: enc(key) '=' enc(value) '&', or None if encoding fails. */
  function EncodePair(pair: (string, string), codec: Codec): Option<string> {
    var k := codec.urlEncode(pair.0);
    var v := codec.urlEncode(pair.1);
    if k.Some? && v.Some? then Some(k.value + "=" + v.value + "&") else None
  }

  /** The form text of params in iteration order, or None if any key or value fails to encode. */
  function FormEncoded(params: seq<(string, string)>, codec: Codec): Option<string> {
    if |params| == 0 then Some("")
    else
      var front := FormEncoded(params[..|params| - 1], codec);
      var last := EncodePair(params[|params| - 1], codec);
      if front.Some? && last.Some? then Some(front.value + last.value) else None
  }

  /** Once a pair fails to encode, the whole text fails. */
  lemma {:induction false} FormEncodedFailureSticks(params: seq<(string, string)>, n: nat, codec: Codec)
    requires n <= |params| && FormEncoded(params[..n], codec).None?
    ensures FormEncoded(params, codec).None?
    decreases |params| - n
  {
    if n < |params| {
      assert params[..n + 1][..n] == params[..n];
      FormEncodedFailureSticks(params, n + 1, codec);
    } else {
      assert params[..n] == params;
    }
  }

  /**
   * encodeParameters: the loop appending each pair, then the conversion of
   * the text to bytes; an unsupported encoding is rethrown as a
   * RuntimeException.
   */
  method EncodeParameters(params: seq<(string, string)>, codec: Codec) returns (r: Result<Bytes, RuntimeFailure>)
    ensures r.Failure? <==> FormEncoded(params, codec).None? || codec.getBytes(FormEncoded(params, codec).value).None?
    ensures r.Failure? ==> r.error == EncodingUnsupported
    ensures r.Success? ==> r.value == codec.getBytes(FormEncoded(params, codec).value).value
  {
    var encoded := "";
    for i := 0 to |params|
      invariant FormEncoded(params[..i], codec) == Some(encoded)
    {
      assert params[..i + 1][..i] == params[..i];
      var key := codec.urlEncode(params[i].0);
      if key.None? {
        FormEncodedFailureSticks(params, i + 1, codec);
        return Failure(EncodingUnsupported);
      }
      encoded := encoded + key.value + "=";
      var value := codec.urlEncode(params[i].1);
      if value.None? {
        FormEncodedFailureSticks(params, i + 1, codec);
        return Failure(EncodingUnsupported);
      }
      assert EncodePair(params[..i + 1][i], codec) == Some(key.value + "=" + value.value + "&");
      assert encoded + value.value + "&" == FormEncoded(params[..i], codec).value + (key.value + "=" + value.value + "&");
      encoded := encoded + value.value + "&";
    }
    assert params[..|params|] == params;
    var bytes := codec.getBytes(encoded);
    if bytes.None? {
      return Failure(EncodingUnsupported);
    }
    return Success(bytes.value);
  }

  /** Every key and value encodes, and no encoded text contains a separator. */
  predicate UrlSafe(params: seq<(string, string)>, codec: Codec) {
    forall i | 0 <= i < |params| ::
      codec.urlEncode(params[i].0).Some? && codec.urlEncode(params[i].1).Some? &&
      '&' !in codec.urlEncode(params[i].0).value && '=' !in codec.urlEncode(params[i].0).value &&
      '&' !in codec.urlEncode(params[i].1).value && '=' !in codec.urlEncode(params[i].1).value
  }

  /** The pieces between the '&' separators: enc(key) '=' enc(value) for each pair. */
  function Pieces(params: seq<(string, string)>, codec: Codec): (ps: seq<string>)
    requires UrlSafe(params, codec)
    ensures |ps| == |params|
    ensures forall i | 0 <= i < |params| ::
              ps[i] == codec.urlEncode(params[i].0).value + "=" + codec.urlEncode(params[i].1).value
  {
    if |params| == 0 then []
    else
      var last := params[|params| - 1];
      Pieces(params[..|params| - 1], codec) + [codec.urlEncode(last.0).value + "=" + codec.urlEncode(last.1).value]
  }

  /** Each piece followed by '&'. */
  function Terminated(ps: seq<string>): string {
    if |ps| == 0 then "" else Terminated(ps[..|ps| - 1]) + ps[|ps| - 1] + "&"
  }

  lemma {:induction false} FormEncodedIsTerminated(params: seq<(string, string)>, codec: Codec)
    requires UrlSafe(params, codec)
    ensures FormEncoded(params, codec) == Some(Terminated(Pieces(params, codec)))
  {
    if |params| > 0 {
      var front := params[..|params| - 1];
      assert UrlSafe(front, codec) by {
        forall i | 0 <= i < |front| ensures front[i] == params[i] { }
      }
      FormEncodedIsTerminated(front, codec);
      var ps := Pieces(params, codec);
      assert ps[..|ps| - 1] == Pieces(front, codec);
      var last := params[|params| - 1];
      var piece := codec.urlEncode(last.0).value + "=" + codec.urlEncode(last.1).value;
      assert ps[|ps| - 1] == piece;
      assert EncodePair(last, codec) == Some(piece + "&");
      assert Terminated(ps) == Terminated(Pieces(front, codec)) + piece + "&";
      assert Terminated(Pieces(front, codec)) + piece + "&" == Terminated(Pieces(front, codec)) + (piece + "&");
      assert FormEncoded(params, codec) == Some(FormEncoded(front, codec).value + EncodePair(last, codec).value);
    }
  }

  lemma {:induction false} TerminatedFront(ps: seq<string>)
    requires |ps| > 0
    ensures Terminated(ps) == ps[0] + "&" + Terminated(ps[1..])
  {
    if |ps| > 1 {
      TerminatedFront(ps[..|ps| - 1]);
      assert ps[..|ps| - 1][1..] == ps[1..][..|ps[1..]| - 1];
    }
  }

  lemma {:induction false} SplitTerminated(ps: seq<string>)
    requires forall i | 0 <= i < |ps| :: '&' !in ps[i]
    ensures SplitOn(Terminated(ps), '&') == ps + [""]
  {
    if |ps| > 0 {
      TerminatedFront(ps);
      SplitTerminated(ps[1..]);
      SplitOnPrefix(ps[0], Terminated(ps[1..]), '&');
      assert ps == [ps[0]] + ps[1..];
    }
  }

  /**
   * The form text decodes back: splitting on '&' gives one piece per pair
   * plus the empty piece after the trailing '&', and each piece splits on
   * '=' into the encoded key and value.
   */
  lemma FormRoundTrip(params: seq<(string, string)>, codec: Codec)
    requires UrlSafe(params, codec)
    ensures FormEncoded(params, codec).Some?
    ensures var pieces := SplitOn(FormEncoded(params, codec).value, '&');
            |pieces| == |params| + 1 && pieces[|params|] == "" &&
            forall i | 0 <= i < |params| ::
              SplitOn(pieces[i], '=') == [codec.urlEncode(params[i].0).value, codec.urlEncode(params[i].1).value]
  {
    FormEncodedIsTerminated(params, codec);
    var ps := Pieces(params, codec);
    SplitTerminated(ps);
    forall i | 0 <= i < |params|
      ensures SplitOn(ps[i], '=') ==
              [codec.urlEncode(params[i].0).value, codec.urlEncode(params[i].1).value]
    {
      var kv := [codec.urlEncode(params[i].0).value, codec.urlEncode(params[i].1).value];
      SplitOnJoin(kv, '=');
      assert Join(kv, '=') == ps[i];
    }
  }

  /** A non-empty parameter list always encodes to text ending in '&'. */
  lemma FormTextEndsWithSeparator(params: seq<(string, string)>, codec: Codec)
    requires |params| > 0 && FormEncoded(params, codec).Some?
    ensures var text := FormEncoded(params, codec).value;
            |text| > 0 && text[|text| - 1] == '&'
  {
  }

  // ----- The request object -----

  class Request {
    const httpMethod: int
    const url: string
    const kind: Kind
    /** Whether the listener handed to the constructor was non-null. */
    const hasListener: bool
    /** parseNetworkResponse of a subclass that delegates to a parser. */
    const parse: NetworkResponse -> Response

    var tag: object?
    /** Whether setRequestQueue has been called (mRequestQueue != null). */
    var attached: bool
    var sequence: Option<int32>
    var shouldCache: bool
    var canceled: bool
    var responseDelivered: bool
    var cacheEntry: Option<Entry>
    var retryPolicy: Policy
    /** The header map of the form and JSON variants. */
    var headers: Headers
    /** What this request's listeners have heard, in order. */
    var notices: seq<Notice>

    /**
     * Request(method, url, listener), with the retry policy the subclass
     * installs. Every flag starts at its declared default.
     */
    constructor Init(httpMethod: int, url: string, kind: Kind, hasListener: bool,
                     parse: NetworkResponse -> Response, policy: Policy)
      ensures this.httpMethod == httpMethod && this.url == url && this.kind == kind
      ensures this.hasListener == hasListener && this.parse == parse
      ensures tag == null && !attached && sequence.None?
      ensures shouldCache && !canceled && !responseDelivered && cacheEntry.None?
      ensures retryPolicy == policy && headers == map[] && notices == []
      ensures CacheKey() == url
    {
      this.httpMethod := httpMethod;
      this.url := url;
      this.kind := kind;
      this.hasListener := hasListener;
      this.parse := parse;
      tag := null;
      attached := false;
      sequence := None;
      shouldCache := true;
      canceled := false;
      responseDelivered := false;
      cacheEntry := None;
      retryPolicy := policy;
      headers := map[];
      notices := [];
    }

    /** getCacheKey: the URL. */
    function CacheKey(): string {
      url
    }

    /** getPriority: Normal unless the subclass overrides it. */
    function RequestPriority(): (p: Priority)
      ensures !kind.Plain? ==> p == Normal
    {
      if kind.Plain? then kind.priority else Normal
    }

    /** getHeaders: the variant's own map for Form and Gson, otherwise the empty map. */
    function GetHeaders(): (hs: Headers)
      reads this`headers
      ensures (kind.Form? || kind.Gson?) ==> hs == headers
      ensures !(kind.Form? || kind.Gson?) ==> hs == map[]
    {
      if kind.Form? || kind.Gson? then headers else map[]
    }

    /** getParams: the form body, null for every other variant. */
    function GetParams(): (params: Option<seq<(string, string)>>)
      ensures kind.Form? ==> params == kind.body
      ensures !kind.Form? ==> params.None?
    {
      if kind.Form? then kind.body else None
    }

    /** getBodyContentType. */
    function BodyContentType(): (ct: string)
      ensures kind.Gson? ==> ct == PROTOCOL_CONTENT_TYPE
      ensures !kind.Gson? ==> ct == FORM_CONTENT_TYPE
    {
      if kind.Gson? then PROTOCOL_CONTENT_TYPE else FORM_CONTENT_TYPE
    }

    /** parseNetworkResponse: a download always succeeds with no result and no cache entry. */
    function ParseNetworkResponse(response: NetworkResponse): (r: Response)
      ensures kind.Download? ==> r == SuccessResponse(Null, None)
      ensures !kind.Download? ==> r == parse(response)
    {
      if kind.Download? then SuccessResponse(Null, None) else parse(response)
    }

    /**
     * getBody. The form-encoding variants encode getParams when it is
     * non-null and non-empty, else null; the JSON variant converts its text
     * to bytes in its charset, null when the text is null or the
     * conversion fails.
     */
    method GetBody(codec: Codec) returns (r: Result<Option<Bytes>, RuntimeFailure>)
      ensures kind.Gson? ==> r == Success(if kind.json.Some? then codec.getBytes(kind.json.value) else None)
      ensures !kind.Gson? && (GetParams().None? || |GetParams().value| == 0) ==> r == Success(None)
      ensures !kind.Gson? && GetParams().Some? && |GetParams().value| > 0 ==>
                var text := FormEncoded(GetParams().value, codec);
                if text.None? || codec.getBytes(text.value).None? then r == Failure(EncodingUnsupported)
                else r == Success(Some(codec.getBytes(text.value).value))
    {
      if kind.Gson? {
        var bytes: Option<Bytes> := None;
        if kind.json.Some? {
          bytes := codec.getBytes(kind.json.value);
        }
        return Success(bytes);
      }
      var params := GetParams();
      if params.Some? && |params.value| > 0 {
        var encoded := EncodeParameters(params.value, codec);
        if encoded.Failure? {
          return Failure(encoded.error);
        }
        return Success(Some(encoded.value));
      }
      return Success(None);
    }

    /** setTag. */
    method SetTag(t: object?)
      modifies this`tag
      ensures tag == t
    {
      tag := t;
    }

    /** setRequestQueue. */
    method Attach()
      modifies this`attached
      ensures attached
    {
      attached := true;
    }

    /** setRetryPolicy. */
    method SetRetryPolicy(policy: Policy)
      modifies this`retryPolicy
      ensures retryPolicy == policy
    {
      retryPolicy := policy;
    }

    /** setSequence. */
    method SetSequence(s: int32)
      modifies this`sequence
      ensures sequence == Some(s)
    {
      sequence := Some(s);
    }

    /** getSequence: IllegalStateException before any setSequence. */
    method GetSequence() returns (r: Result<int32, RuntimeFailure>)
      ensures sequence.None? ==> r == Failure(IllegalState)
      ensures sequence.Some? ==> r == Success(sequence.value)
    {
      if sequence.None? {
        return Failure(IllegalState);
      }
      return Success(sequence.value);
    }

    /** setCacheEntry. */
    method SetCacheEntry(entry: Option<Entry>)
      modifies this`cacheEntry
      ensures cacheEntry == entry
    {
      cacheEntry := entry;
    }

    /** setShouldCache. */
    method SetShouldCache(b: bool)
      modifies this`shouldCache
      ensures shouldCache == b
    {
      shouldCache := b;
    }

    /** cancel: sets the flag; nothing ever clears it. */
    method Cancel()
      modifies this`canceled
      ensures canceled
    {
      canceled := true;
    }

    /** markDelivered: sets the flag; nothing ever clears it. */
    method MarkDelivered()
      modifies this`responseDelivered
      ensures responseDelivered
    {
      responseDelivered := true;
    }

    /**
     * setHeader of the form and JSON variants: stores key -> content only
     * when both are non-empty (a null string is modelled as empty), and
     * returns the map getHeaders returns.
     */
    method SetHeader(key: string, content: string) returns (hs: Headers)
      requires kind.Form? || kind.Gson?
      modifies this`headers
      ensures key != "" && content != "" ==> headers == old(headers)[key := content]
      ensures key == "" || content == "" ==> headers == old(headers)
      ensures hs == headers == GetHeaders()
    {
      if key != "" && content != "" {
        headers := headers[key := content];
      }
      return headers;
    }

    /**
     * deliverResponse: a download tells its listener, if any, that the file
     * is complete; the other variants hand the result to their listener.
     */
    method DeliverResponse(value: Value)
      modifies this`notices
      ensures kind.Download? && hasListener ==> notices == old(notices) + [DownloadFinished(url, kind.filePath)]
      ensures kind.Download? && !hasListener ==> notices == old(notices)
      ensures !kind.Download? ==> notices == old(notices) + [ResponseHeard(value)]
    {
      if kind.Download? {
        if hasListener {
          notices := notices + [DownloadFinished(url, kind.filePath)];
        }
      } else {
        notices := notices + [ResponseHeard(value)];
      }
    }

    /** deliverError: reaches the error listener only when there is one. */
    method DeliverError(error: VolleyError)
      modifies this`notices
      ensures !hasListener ==> notices == old(notices)
      ensures hasListener && kind.Download? ==> notices == old(notices) + [DownloadFailed(url, error)]
      ensures hasListener && !kind.Download? ==> notices == old(notices) + [ErrorHeard(error)]
    {
      if hasListener {
        if kind.Download? {
          notices := notices + [DownloadFailed(url, error)];
        } else {
          notices := notices + [ErrorHeard(error)];
        }
      }
    }
  }
}
