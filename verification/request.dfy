/**
 One simulated request: the URL and header map that are sent, and the outcome
 record built from what the transport reported. The transport itself is not
 modelled; its answer arrives as a `Reply` value.
 */
module Request {
  import opened Optional
  import opened Catalog

  /** What the transport reported for one GET: a response or an exception. */
  datatype Reply = Response(status: int, elapsedMs: real) | TransportError(message: string)

  /** The GET that is issued: the full URL and the header map. */
  datatype HttpRequest = HttpRequest(url: string, headers: map<string, string>)

  /**
   The outcome dictionary of one request. Keys that the source leaves out of a
   dictionary are `None` here; the timestamp is not modelled.
   */
  datatype Record = Record(
    requestId: int,
    url: string,
    category: string,
    userAgent: string,
    status: int,
    elapsedMs: Option<real>,
    error: Option<string>,
    success: bool)

  /** What one call produces: the request sent and the record returned. */
  datatype Exchange = Exchange(sent: HttpRequest, record: Record)

  const UserAgentHeader := "User-Agent"
  const DisplayLimit := 50
  const Ellipsis := "..."

  /** `s.rstrip(c)` for a single character: drops every trailing `c`. */
  function RStrip(s: string, c: char): (r: string)
    ensures |r| <= |s| && r == s[..|r|]
    ensures |r| == 0 || r[|r| - 1] != c
    ensures forall i :: |r| <= i < |s| ==> s[i] == c
    decreases |s|
  {
    if |s| > 0 && s[|s| - 1] == c then RStrip(s[..|s| - 1], c) else s
  }

  /** A prefix of `s` without a trailing `c` after which only `c` follows is exactly `RStrip(s, c)`. */
  lemma RStripUnique(s: string, c: char, t: string)
    requires |t| <= |s| && t == s[..|t|]
    requires |t| == 0 || t[|t| - 1] != c
    requires forall i :: |t| <= i < |s| ==> s[i] == c
    ensures t == RStrip(s, c)
  {
  }

  /** Stripping twice strips nothing more. */
  lemma RStripIdempotent(s: string, c: char)
    ensures RStrip(RStrip(s, c), c) == RStrip(s, c)
  {
  }

  /** Extra trailing `c` characters make no difference. */
  lemma RStripTrailing(s: string, c: char, n: nat)
    ensures RStrip(s + seq(n, _ => c), c) == RStrip(s, c)
  {
    var t := s + seq(n, _ => c);
    var r := RStrip(s, c);
    assert t[..|s|] == s;
    assert r == t[..|r|];
    RStripUnique(t, c, r);
  }

  /** The URL requested: the base with its trailing slashes removed, then the endpoint. */
  function JoinUrl(baseUrl: string, endpoint: string): string
  {
    RStrip(baseUrl, '/') + endpoint
  }

  /**
   For every endpoint of the table the joined URL ends with that endpoint, and
   the base part before it is the base URL minus only slashes, so that the
   junction never holds two slashes.
   */
  lemma JoinUrlShape(baseUrl: string, e: nat)
    requires e < |Endpoints|
    ensures var url := JoinUrl(baseUrl, Endpoints[e]);
            var k := |url| - |Endpoints[e]|;
            && 0 <= k < |url|
            && url[k..] == Endpoints[e]
            && url[k] == '/'
            && (k == 0 || url[k - 1] != '/')
            && url[..k] == baseUrl[..k]
            && forall i :: k <= i < |baseUrl| ==> baseUrl[i] == '/'
  {
  }

  /** The header map sent: a single `User-Agent` entry for a non-empty User-Agent, no entry otherwise. */
  function Headers(ua: string): (h: map<string, string>)
    ensures UserAgentHeader in h <==> ua != ""
    ensures h.Keys <= {UserAgentHeader}
    ensures UserAgentHeader in h ==> h[UserAgentHeader] == ua
  {
    if ua != "" then map[UserAgentHeader := ua] else map[]
  }

  /** The User-Agent as stored in the record: cut to 50 characters plus an ellipsis. */
  function DisplayUserAgent(ua: string): (d: string)
    ensures |ua| <= DisplayLimit ==> d == ua
    ensures |ua| > DisplayLimit ==> |d| == DisplayLimit + |Ellipsis| && d[..DisplayLimit] == ua[..DisplayLimit] && d[DisplayLimit..] == Ellipsis
  {
    if |ua| > DisplayLimit then ua[..DisplayLimit] + Ellipsis else ua
  }

  /**
   The displayed string never exceeds 53 characters and always starts with the
   original's first (up to) 50 characters.
   */
  lemma DisplayUserAgentBounds(ua: string)
    ensures |DisplayUserAgent(ua)| <= DisplayLimit + |Ellipsis|
    ensures var n := if |ua| <= DisplayLimit then |ua| else DisplayLimit;
            n <= |DisplayUserAgent(ua)| && DisplayUserAgent(ua)[..n] == ua[..n]
  {
  }

  /** Displaying an already displayed User-Agent changes nothing. */
  lemma DisplayUserAgentIdempotent(ua: string)
    ensures DisplayUserAgent(DisplayUserAgent(ua)) == DisplayUserAgent(ua)
  {
  }

  /** Two long User-Agents that share their first 50 characters display identically. */
  lemma DisplayUserAgentForgetsTail(a: string, b: string)
    requires |a| > DisplayLimit && |b| > DisplayLimit
    requires a[..DisplayLimit] == b[..DisplayLimit]
    ensures DisplayUserAgent(a) == DisplayUserAgent(b)
  {
  }

  /** A success record: marked successful, with a latency and without an error text. */
  predicate SuccessShape(r: Record)
  {
    r.success && r.elapsedMs.Some? && r.error.None?
  }

  /** A failure record: marked unsuccessful, status 0, with an error text and without a latency. */
  predicate FailureShape(r: Record)
  {
    !r.success && r.status == 0 && r.error.Some? && r.elapsedMs.None?
  }

  /** An outcome record has one of the two shapes. */
  predicate WellFormed(r: Record)
  {
    SuccessShape(r) || FailureShape(r)
  }

  /** No record has both shapes. */
  lemma ShapesExclusive(r: Record)
    ensures !(SuccessShape(r) && FailureShape(r))
  {
  }

  /**
   `make_request` with the random endpoint choice given as index `endpoint`
   into the endpoint table and the transport's answer given as `reply`.
   */
  function MakeRequest(baseUrl: string, userAgent: string, category: string, requestId: int, endpoint: nat, reply: Reply): (x: Exchange)
    requires endpoint < |Endpoints|
    ensures x.sent.url == JoinUrl(baseUrl, Endpoints[endpoint])
    ensures x.sent.headers == Headers(userAgent)
    ensures x.record.requestId == requestId && x.record.category == category && x.record.url == x.sent.url
    ensures x.record.userAgent == DisplayUserAgent(userAgent)
    ensures WellFormed(x.record)
    ensures x.record.success <==> reply.Response?
    ensures reply.Response? ==> x.record.status == reply.status && x.record.elapsedMs == Some(reply.elapsedMs)
    ensures reply.TransportError? ==> x.record.status == 0 && x.record.error == Some(reply.message)
  {
    var url := JoinUrl(baseUrl, Endpoints[endpoint]);
    var shown := DisplayUserAgent(userAgent);
    var record := match reply
      case Response(status, elapsed) =>
        Record(requestId, url, category, shown, status, Some(elapsed), None, true)
      case TransportError(message) =>
        Record(requestId, url, category, shown, 0, None, Some(message), false);
    Exchange(HttpRequest(url, Headers(userAgent)), record)
  }
}
