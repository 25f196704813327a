/**
 * HttpHeaderParser: the simplified HTTP/1.1 caching rules that turn a
 * response's headers into a cache Entry (Cache-Control, RFC 2616 section
 * 14.9; Expires, section 14.21; Date, section 14.18; ETag, section 14.19),
 * and the Content-Type charset lookup with the ISO-8859-1 default of
 * section 3.7.1.
 *
 * Each Java method is a `method` with the source's loop, proved equal to a
 * specification function; the caching rules are then lemmas about that
 * function.
 */
module HttpHeaderParser {
  import opened Base
  import opened Cache
  import opened Messages

  const DATE: string := "Date"
  const CACHE_CONTROL: string := "Cache-Control"
  const EXPIRES: string := "Expires"
  const ETAG: string := "ETag"
  const CONTENT_TYPE: string := "Content-Type"
  const DEFAULT_CONTENT_CHARSET: string := "ISO-8859-1"
  const MAX_AGE_PREFIX: string := "max-age="

  // ----- Long.parseLong -----

  predicate IsDigit(ch: char) { '0' <= ch <= '9' }

  predicate AllDigits(s: string) { forall i | 0 <= i < |s| :: IsDigit(s[i]) }

  function DigitsValue(s: string): nat
    requires AllDigits(s)
  {
    if |s| == 0 then 0 else DigitsValue(s[..|s| - 1]) * 10 + (s[|s| - 1] as int - '0' as int)
  }

  /**
   * Long.parseLong on ASCII decimal text: an optional '+' or '-', at least
   * one digit, and a value inside the `long` range; anything else fails.
   */
  function ParseLong(s: string): (r: Option<int64>)
    ensures r.Some? ==> |s| > 0 && (IsDigit(s[0]) || s[0] == '-' || s[0] == '+')
    ensures r.Some? ==> forall i | 0 < i < |s| :: IsDigit(s[i])
    ensures r.Some? && s[0] != '-' ==> r.value >= 0
    ensures |s| > 0 && AllDigits(s) && DigitsValue(s) <= MaxInt64 ==> r == Some(DigitsValue(s))
  {
    if |s| == 0 then None
    else
      var digits := if s[0] == '-' || s[0] == '+' then s[1..] else s;
      if |digits| == 0 || !AllDigits(digits) then None
      else
        var v: int := if s[0] == '-' then -(DigitsValue(digits) as int) else DigitsValue(digits);
        if MinInt64 <= v <= MaxInt64 then Some(v) else None
  }

  function DigitChar(d: nat): char
    requires d < 10
  {
    ('0' as int + d) as char
  }

  /** The decimal spelling of n, the inverse of ParseLong on non-negative values. */
  function Decimal(n: nat): (s: string)
    decreases n
  {
    if n < 10 then [DigitChar(n)] else Decimal(n / 10) + [DigitChar(n % 10)]
  }

  lemma {:induction false} DecimalDigits(n: nat)
    ensures |Decimal(n)| > 0 && AllDigits(Decimal(n)) && DigitsValue(Decimal(n)) == n
    decreases n
  {
    var s := Decimal(n);
    if n >= 10 {
      DecimalDigits(n / 10);
      assert s[..|s| - 1] == Decimal(n / 10);
    }
  }

  /** ParseLong reads back every long written in decimal, with or without a sign. */
  lemma ParseLongDecimal(n: nat)
    ensures n <= MaxInt64 ==> ParseLong(Decimal(n)) == Some(n)
    ensures n <= MaxInt64 ==> ParseLong("+" + Decimal(n)) == Some(n)
    ensures n <= -MinInt64 ==> ParseLong("-" + Decimal(n)).Some? && ParseLong("-" + Decimal(n)).value == -(n as int)
  {
    DecimalDigits(n);
    assert ("+" + Decimal(n))[1..] == Decimal(n);
    assert ("-" + Decimal(n))[1..] == Decimal(n);
  }

  // ----- Cache-Control -----

  /** Trimmed directives that make the response uncacheable. */
  predicate Forbidding(token: string) {
    token == "no-cache" || token == "no-store"
  }

  /**
   * The new maxAge a trimmed directive sets, if any: `max-age=N` sets N when
   * N parses (an unparseable N leaves maxAge as it was), and
   * must-revalidate / proxy-revalidate set 0.
   */
  function Directive(token: string): Option<int64> {
    if StartsWith(token, MAX_AGE_PREFIX) then ParseLong(token[|MAX_AGE_PREFIX|..])
    else if token == "must-revalidate" || token == "proxy-revalidate" then Some(0)
    else None
  }

  predicate AnyForbidding(tokens: seq<string>) {
    exists i | 0 <= i < |tokens| :: Forbidding(Trim(tokens[i]))
  }

  /** maxAge after scanning tokens in order, starting from 0: the last directive wins. */
  function MaxAgeAfter(tokens: seq<string>): int64 {
    if |tokens| == 0 then 0
    else
      match Directive(Trim(tokens[|tokens| - 1])) {
        case Some(v) => v
        case None => MaxAgeAfter(tokens[..|tokens| - 1])
      }
  }

  /** The last token that sets maxAge decides it, whatever came before. */
  lemma {:induction false} MaxAgeLastSetting(tokens: seq<string>, i: nat)
    requires i < |tokens| && Directive(Trim(tokens[i])).Some?
    requires forall j | i < j < |tokens| :: Directive(Trim(tokens[j])).None?
    ensures MaxAgeAfter(tokens) == Directive(Trim(tokens[i])).value
  {
    if i < |tokens| - 1 {
      var prefix := tokens[..|tokens| - 1];
      assert prefix[i] == tokens[i];
      MaxAgeLastSetting(prefix, i);
    }
  }

  /** Without any max-age / must-revalidate / proxy-revalidate token, maxAge stays 0. */
  lemma {:induction false} MaxAgeNoSetting(tokens: seq<string>)
    requires forall j | 0 <= j < |tokens| :: Directive(Trim(tokens[j])).None?
    ensures MaxAgeAfter(tokens) == 0
  {
    if |tokens| > 0 {
      MaxAgeNoSetting(tokens[..|tokens| - 1]);
    }
  }

  /** A `max-age=` token whose number does not parse leaves maxAge unchanged. */
  lemma BadMaxAgeIgnored(tokens: seq<string>, n: string)
    requires ParseLong(n).None? && Trim(n) == n
    ensures MaxAgeAfter(tokens + [MAX_AGE_PREFIX + n]) == MaxAgeAfter(tokens)
  {
    var t := MAX_AGE_PREFIX + n;
    var all := tokens + [t];
    TrimOfNonBlank(t);
    assert t[..|MAX_AGE_PREFIX|] == MAX_AGE_PREFIX && t[|MAX_AGE_PREFIX|..] == n;
    assert all[..|all| - 1] == tokens;
  }

  /** A token that starts and ends with a visible character is unchanged by trim. */
  lemma TrimOfNonBlank(s: string)
    requires |s| > 0 && !IsTrimmed(s[0]) && !IsTrimmed(s[|s| - 1])
    ensures Trim(s) == s
  {
  }

  // ----- parseCacheHeaders -----

  /**
   * parseDateAsEpoch: the RFC 1123 date parser itself is a parameter
   * (None when the text is not a date); a failed parse counts as 0.
   */
  function ParseDateAsEpoch(parseDate: string -> Option<int64>, text: string): int64 {
    match parseDate(text) {
      case Some(t) => t
      case None => 0
    }
  }

  /** A date-valued header: 0 when absent or unparseable. */
  function DateHeader(headers: Headers, name: string, parseDate: string -> Option<int64>): int64 {
    if name in headers then ParseDateAsEpoch(parseDate, headers[name]) else 0
  }

  function CacheControlTokens(value: string): seq<string> {
    JavaSplit(value, ',')
  }

  /**
   * The soft expiry: with Cache-Control, now + maxAge * 1000 in `long`
   * arithmetic; without it, the Expires - Date lifetime added to now when
   * Date is positive and Expires is not before it (that difference always
   * fits in a `long`); otherwise 0.
   */
  function SoftExpire(hasCacheControl: bool, maxAge: int64, serverDate: int64, serverExpires: int64, now: int64): int64 {
    if hasCacheControl then Wrap64(now + Wrap64(maxAge * 1000))
    else if serverDate > 0 && serverExpires >= serverDate then Wrap64(now + (serverExpires - serverDate))
    else 0
  }

  /**
   * The entry parseCacheHeaders builds for response at clock reading now,
   * or None when a Cache-Control directive forbids caching.
   */
  function CacheHeaders(response: NetworkResponse, now: int64, parseDate: string -> Option<int64>): Option<Entry> {
    var headers := response.headers;
    var hasCacheControl := CACHE_CONTROL in headers;
    var tokens := if hasCacheControl then CacheControlTokens(headers[CACHE_CONTROL]) else [];
    if AnyForbidding(tokens) then None
    else
      var serverDate := DateHeader(headers, DATE, parseDate);
      var softExpire := SoftExpire(hasCacheControl, MaxAgeAfter(tokens), serverDate,
                                   DateHeader(headers, EXPIRES, parseDate), now);
      Some(Entry(response.data, MapGet(headers, ETAG), serverDate, softExpire, softExpire, headers))
  }

  /**
   * The Cache-Control loop of parseCacheHeaders: stops at the first
   * no-cache / no-store token, and otherwise leaves maxAge at the value the
   * last lifetime directive set.
   */
  method ScanCacheControl(tokens: seq<string>) returns (forbidden: bool, maxAge: int64)
    ensures forbidden == AnyForbidding(tokens)
    ensures !forbidden ==> maxAge == MaxAgeAfter(tokens)
  {
    maxAge := 0;
    for i := 0 to |tokens|
      invariant maxAge == MaxAgeAfter(tokens[..i])
      invariant !AnyForbidding(tokens[..i])
    {
      var token := Trim(tokens[i]);
      if Forbidding(token) {
        assert Forbidding(Trim(tokens[i]));
        return true, maxAge;
      }
      ScanStep(tokens, i);
      var setting := Directive(token);
      if setting.Some? {
        maxAge := setting.value;
      }
    }
    assert tokens[..|tokens|] == tokens;
    return false, maxAge;
  }

  /**
   * One more token of the scan: it forbids caching iff it or an earlier one
   * does; a lifetime directive replaces maxAge, anything else keeps it.
   */
  lemma ScanStep(tokens: seq<string>, i: nat)
    requires i < |tokens|
    ensures AnyForbidding(tokens[..i + 1]) <==> AnyForbidding(tokens[..i]) || Forbidding(Trim(tokens[i]))
    ensures MaxAgeAfter(tokens[..i + 1]) ==
            match Directive(Trim(tokens[i])) { case Some(v) => v case None => MaxAgeAfter(tokens[..i]) }
  {
    var front, next := tokens[..i], tokens[..i + 1];
    assert next[..i] == front;
    assert next[i] == tokens[i];
    assert forall j | 0 <= j < i :: next[j] == front[j];
  }

  /**
   * parseCacheHeaders, with the clock reading and the date parser passed in:
   * Date, then the Cache-Control scan (which may reject the response), then
   * Expires and ETag, then the soft expiry and the entry, whose hard expiry
   * is set equal to the soft one.
   */
  method ParseCacheHeaders(response: NetworkResponse, now: int64, parseDate: string -> Option<int64>)
    returns (entry: Option<Entry>)
    ensures entry == CacheHeaders(response, now, parseDate)
  {
    var headers := response.headers;
    var maxAge: int64 := 0;
    var serverDate := DateHeader(headers, DATE, parseDate);
    var hasCacheControl := CACHE_CONTROL in headers;
    if hasCacheControl {
      var forbidden;
      forbidden, maxAge := ScanCacheControl(CacheControlTokens(headers[CACHE_CONTROL]));
      if forbidden {
        return None;
      }
    }
    var serverExpires := DateHeader(headers, EXPIRES, parseDate);
    var serverEtag := MapGet(headers, ETAG);
    var softExpire := SoftExpire(hasCacheControl, maxAge, serverDate, serverExpires, now);
    var e := NewEntry();
    e := e.(data := response.data, etag := serverEtag, softTtl := softExpire);
    e := e.(ttl := e.softTtl, serverDate := serverDate, responseHeaders := headers);
    return Some(e);
  }

  /** no-cache or no-store anywhere in Cache-Control makes the response uncacheable, and nothing else does. */
  lemma UncacheableExactly(response: NetworkResponse, now: int64, parseDate: string -> Option<int64>)
    ensures CacheHeaders(response, now, parseDate).None? <==>
            (CACHE_CONTROL in response.headers &&
             AnyForbidding(CacheControlTokens(response.headers[CACHE_CONTROL])))
  {
  }

  /**
   * A cacheable response yields an entry whose hard and soft expiry agree
   * and which carries the body, the ETag, the parsed Date and the headers
   * unchanged.
   */
  lemma EntryCopiesResponse(response: NetworkResponse, now: int64, parseDate: string -> Option<int64>)
    requires CacheHeaders(response, now, parseDate).Some?
    ensures var e := CacheHeaders(response, now, parseDate).value;
            e.ttl == e.softTtl && e.data == response.data &&
            e.etag == MapGet(response.headers, ETAG) &&
            e.serverDate == DateHeader(response.headers, DATE, parseDate) &&
            e.responseHeaders == response.headers
  {
  }

  /**
   * With Cache-Control present and cacheable, the last max-age /
   * must-revalidate / proxy-revalidate token decides the lifetime, and any
   * Expires header is ignored.
   */
  lemma CacheControlLifetime(response: NetworkResponse, now: int64, parseDate: string -> Option<int64>, i: nat)
    requires CACHE_CONTROL in response.headers
    requires var tokens := CacheControlTokens(response.headers[CACHE_CONTROL]);
             !AnyForbidding(tokens) && i < |tokens| && Directive(Trim(tokens[i])).Some? &&
             forall j | i < j < |tokens| :: Directive(Trim(tokens[j])).None?
    ensures var tokens := CacheControlTokens(response.headers[CACHE_CONTROL]);
            var maxAge := Directive(Trim(tokens[i])).value;
            CacheHeaders(response, now, parseDate).Some? &&
            CacheHeaders(response, now, parseDate).value.softTtl == Wrap64(now + Wrap64(maxAge * 1000))
  {
    MaxAgeLastSetting(CacheControlTokens(response.headers[CACHE_CONTROL]), i);
  }

  /** Cache-Control without any lifetime directive makes the entry expire at now. */
  lemma CacheControlWithoutMaxAge(response: NetworkResponse, now: int64, parseDate: string -> Option<int64>)
    requires CACHE_CONTROL in response.headers
    requires var tokens := CacheControlTokens(response.headers[CACHE_CONTROL]);
             !AnyForbidding(tokens) && forall j | 0 <= j < |tokens| :: Directive(Trim(tokens[j])).None?
    ensures CacheHeaders(response, now, parseDate).Some?
    ensures CacheHeaders(response, now, parseDate).value.softTtl == now
    ensures CacheHeaders(response, now, parseDate).value.ttl == now
  {
    MaxAgeNoSetting(CacheControlTokens(response.headers[CACHE_CONTROL]));
  }

  /** A lifetime of N seconds that does not overflow gives an entry fresh for exactly N * 1000 ms. */
  lemma MaxAgeFreshWindow(maxAge: int64, now: int64, later: int64)
    requires 0 <= maxAge && now + maxAge * 1000 <= MaxInt64
    ensures var soft := SoftExpire(true, maxAge, 0, 0, now);
            soft == now + maxAge * 1000 &&
            (RefreshNeeded(NewEntry().(softTtl := soft), later) <==> later > now + maxAge * 1000)
  {
  }

  /**
   * Without Cache-Control, the Expires - Date lifetime applies when Date is
   * positive and Expires is not before it; otherwise the entry has expiry 0.
   */
  lemma ExpiresLifetime(response: NetworkResponse, now: int64, parseDate: string -> Option<int64>)
    requires CACHE_CONTROL !in response.headers
    ensures CacheHeaders(response, now, parseDate).Some?
    ensures var date := DateHeader(response.headers, DATE, parseDate);
            var expires := DateHeader(response.headers, EXPIRES, parseDate);
            CacheHeaders(response, now, parseDate).value.softTtl ==
              if date > 0 && expires >= date then Wrap64(now + (expires - date)) else 0
  {
  }

  // ----- parseCharset -----

  /** The charset named by one ';'-parameter: trimmed, split on '=' into exactly ["charset", value]. */
  function CharsetParam(param: string): Option<string> {
    var pair := JavaSplit(Trim(param), '=');
    if |pair| == 2 && pair[0] == "charset" then Some(pair[1]) else None
  }

  /** The charset each ';'-parameter names, if any. */
  function CharsetNames(params: seq<string>): (names: seq<Option<string>>)
    ensures |names| == |params|
    ensures forall j | 0 <= j < |params| :: names[j] == CharsetParam(params[j])
  {
    if |params| == 0 then []
    else CharsetNames(params[..|params| - 1]) + [CharsetParam(params[|params| - 1])]
  }

  /** The first charset named at index from or later, else the default. */
  function FirstNamed(names: seq<Option<string>>, from: nat): string
    decreases |names| - from
  {
    if from >= |names| then DEFAULT_CONTENT_CHARSET
    else
      match names[from] {
        case Some(cs) => cs
        case None => FirstNamed(names, from + 1)
      }
  }

  /** The charset of a header map: searched among the parameters after the media type. */
  function Charset(headers: Headers): string {
    if CONTENT_TYPE in headers then FirstNamed(CharsetNames(JavaSplit(headers[CONTENT_TYPE], ';')), 1)
    else DEFAULT_CONTENT_CHARSET
  }

  /** parseCharset: the loop over the ';'-parameters, skipping the media type at index 0. */
  method ParseCharset(headers: Headers) returns (charset: string)
    ensures charset == Charset(headers)
  {
    if CONTENT_TYPE in headers {
      var params := JavaSplit(headers[CONTENT_TYPE], ';');
      ghost var names := CharsetNames(params);
      var i := 1;
      while i < |params|
        invariant 1 <= i
        invariant FirstNamed(names, 1) == FirstNamed(names, i)
        decreases |params| - i
      {
        var pair := JavaSplit(Trim(params[i]), '=');
        assert names[i] == CharsetParam(params[i]);
        if |pair| == 2 {
          if pair[0] == "charset" {
            return pair[1];
          }
        }
        i := i + 1;
      }
    }
    return DEFAULT_CONTENT_CHARSET;
  }

  /** Entries that name no charset are skipped. */
  lemma {:induction false} FirstNamedSkips(names: seq<Option<string>>, from: nat, until: nat)
    requires from <= until <= |names|
    requires forall j | from <= j < until :: names[j].None?
    ensures FirstNamed(names, from) == FirstNamed(names, until)
    decreases until - from
  {
    if from < until {
      FirstNamedSkips(names, from + 1, until);
    }
  }

  /** The first parameter (after the media type) that names a charset decides the result. */
  lemma CharsetFirstMatch(headers: Headers, i: nat)
    requires CONTENT_TYPE in headers
    requires var params := JavaSplit(headers[CONTENT_TYPE], ';');
             1 <= i < |params| && CharsetParam(params[i]).Some? &&
             forall j | 1 <= j < i :: CharsetParam(params[j]).None?
    ensures Charset(headers) == CharsetParam(JavaSplit(headers[CONTENT_TYPE], ';')[i]).value
  {
    var names := CharsetNames(JavaSplit(headers[CONTENT_TYPE], ';'));
    FirstNamedSkips(names, 1, i);
  }

  /** Without Content-Type, or without a charset parameter, the result is ISO-8859-1. */
  lemma CharsetDefault(headers: Headers)
    requires CONTENT_TYPE in headers ==>
             var params := JavaSplit(headers[CONTENT_TYPE], ';');
             forall j | 1 <= j < |params| :: CharsetParam(params[j]).None?
    ensures Charset(headers) == DEFAULT_CONTENT_CHARSET
  {
    if CONTENT_TYPE in headers {
      var names := CharsetNames(JavaSplit(headers[CONTENT_TYPE], ';'));
      if |names| > 1 {
        FirstNamedSkips(names, 1, |names|);
      }
    }
  }
}
