/** The request, the response and the context one logical request carries through the stack. */
module Requests {
  import opened Codes
  import opened Text

  datatype Header = Header(name: string, value: string)

  datatype Request = Request(
    host: string, connectHost: string, port: nat, method_: string, path: string, body: string,
    headers: seq<Header>, timeoutMs: int, idempotent: bool, retrySafe: bool, caCertPem: string,
    maxResponseBodyBytes: nat, networkEpoch: nat)

  datatype Context = Context(
    request: Request, policy: int, requestId: nat, networkEpoch: nat, attempts: nat, maxRetries: int,
    deadlineMs: int, weakNetwork: bool, deduplicated: bool, dnsCacheHit: bool)

  datatype Response = Response(
    errCode: int, httpStatus: int, protocol: nat, degraded: bool, body: string, attempts: nat,
    dnsMs: int, connectMs: int, tlsMs: int, ttfbMs: int, totalMs: int, reused: bool, failureStage: string)

  const EMPTY_RESPONSE := Response(0, 0, 0, false, [], 1, -1, -1, -1, -1, -1, false, [])

  // ---- what the C entry point lets through ------------------------------

  predicate Printable(s: string) {
    forall i :: 0 <= i < |s| ==> s[i] as int > 0x20 && s[i] as int != 0x7f
  }

  predicate ValidHost(s: string) { s != [] && Printable(s) }

  predicate ValidPath(s: string) { s != [] && s[0] == '/' && Printable(s) }

  predicate TokenChar(c: char) {
    '0' <= c <= '9' || 'a' <= c <= 'z' || 'A' <= c <= 'Z' || c in "!#$%&'*+-.^_`|~"
  }

  predicate ValidToken(s: string) { s != [] && forall i :: 0 <= i < |s| ==> TokenChar(s[i]) }

  predicate ProtectedHeader(name: string) {
    Lower(name) == "host" || Lower(name) == "content-length" || Lower(name) == "transfer-encoding"
    || Lower(name) == "connection"
  }

  predicate ValidHeader(h: Header) {
    ValidToken(h.name) && Without(h.value, '\r') && Without(h.value, '\n') && !ProtectedHeader(h.name)
  }

  /** The checks of asternet_client_request_sync. */
  predicate Accepted(r: Request) {
    && ValidHost(r.host) && ValidToken(r.method_) && ValidPath(r.path) && r.port != 0
    && forall i :: 0 <= i < |r.headers| ==> ValidHeader(r.headers[i])
  }

  // ---- may the request be sent more than once ---------------------------

  predicate SafeMethod(method_: string) { method_ == "GET" || method_ == "HEAD" || method_ == "OPTIONS" }

  predicate HasVisibleChar(s: string) { exists i :: 0 <= i < |s| && !IsSpace(s[i]) }

  predicate HasIdempotencyKey(headers: seq<Header>) {
    exists i :: 0 <= i < |headers| && Lower(headers[i].name) == "idempotency-key" && HasVisibleChar(headers[i].value)
  }

  /** A request may be replayed when the caller vouched for it, when it has no body and a safe method,
      or when it is idempotent and carries a visible idempotency key. */
  predicate Replayable(r: Request) {
    r.retrySafe || (r.body == [] && SafeMethod(r.method_)) || (r.idempotent && HasIdempotencyKey(r.headers))
  }

  /** An `idempotency-key` header in whose value something can be seen: not a blank, and none of the characters
      9 to 13. */
  ghost predicate ShowsKey(headers: seq<Header>) {
    exists i, j :: 0 <= i < |headers| && Lower(headers[i].name) == "idempotency-key" && 0 <= j < |headers[i].value|
                   && headers[i].value[j] != ' ' && !(9 <= headers[i].value[j] as int <= 13)
  }

  lemma {:induction false} KeyIsShown(headers: seq<Header>)
    ensures HasIdempotencyKey(headers) <==> ShowsKey(headers)
  {
    if HasIdempotencyKey(headers) {
      var i :| 0 <= i < |headers| && Lower(headers[i].name) == "idempotency-key" && HasVisibleChar(headers[i].value);
      var j :| 0 <= j < |headers[i].value| && !IsSpace(headers[i].value[j]);
      assert headers[i].value[j] != ' ' && !(9 <= headers[i].value[j] as int <= 13);
    }
    if i, j :| 0 <= i < |headers| && Lower(headers[i].name) == "idempotency-key" && 0 <= j < |headers[i].value|
               && headers[i].value[j] != ' ' && !(9 <= headers[i].value[j] as int <= 13) {
      assert HasVisibleChar(headers[i].value);
    }
  }

  function NormalizeRetrySafety(c: Context): (n: Context)
    ensures n.request.retrySafe <==> Replayable(c.request)
    ensures n.request.retrySafe ==> n.maxRetries >= 1 && n.maxRetries >= c.maxRetries
    ensures !n.request.retrySafe ==> n.maxRetries == 0
  {
    var safe := Replayable(c.request);
    c.(request := c.request.(retrySafe := safe),
       maxRetries := if safe then (if c.maxRetries < 1 then 1 else c.maxRetries) else 0)
  }

  /** What the client presets before the orchestrator normalises: it does not know of idempotency keys. */
  function Preset(c: Context): Context {
    var safe := c.request.retrySafe || (c.request.body == [] && SafeMethod(c.request.method_));
    c.(request := c.request.(retrySafe := safe), maxRetries := if safe then 1 else 0)
  }

  /** Deciding twice decides nothing new: what the client presets leaves the orchestrator's answer as if
      nobody had, and a normalised context stays as it is, so a request that goes through the stack again is
      not replayed more often for it. */
  lemma {:induction false} NormalizedOnce(c: Context)
    ensures NormalizeRetrySafety(Preset(c)) == NormalizeRetrySafety(c.(maxRetries := 0))
    ensures NormalizeRetrySafety(NormalizeRetrySafety(c)) == NormalizeRetrySafety(c)
    ensures Preset(c).request.retrySafe ==> NormalizeRetrySafety(c).request.retrySafe
  {
    assert Replayable(Preset(c).request) <==> Replayable(c.request);
  }

  /** The decision rests on the caller's word, the body, the method and the idempotency keys alone: contexts that
      agree on those get the same answer, whatever their other headers and in whatever order. */
  lemma {:induction false} SameDecision(c: Context, d: Context)
    requires c.request.retrySafe == d.request.retrySafe && c.request.method_ == d.request.method_
    requires (c.request.body == [] <==> d.request.body == []) && c.request.idempotent == d.request.idempotent
    requires Keys(c.request.headers) == Keys(d.request.headers) && c.maxRetries == d.maxRetries
    ensures NormalizeRetrySafety(c).request.retrySafe == NormalizeRetrySafety(d).request.retrySafe
    ensures NormalizeRetrySafety(c).maxRetries == NormalizeRetrySafety(d).maxRetries
  {
    KeysDecide(c.request.headers);
    KeysDecide(d.request.headers);
  }

  ghost function Keys(headers: seq<Header>): set<string> {
    set h | h in headers && Lower(h.name) == "idempotency-key" :: h.value
  }

  lemma {:induction false} KeysDecide(headers: seq<Header>)
    ensures HasIdempotencyKey(headers) <==> exists v :: v in Keys(headers) && HasVisibleChar(v)
  {
    if HasIdempotencyKey(headers) {
      var i :| 0 <= i < |headers| && Lower(headers[i].name) == "idempotency-key" && HasVisibleChar(headers[i].value);
      assert headers[i] in headers && headers[i].value in Keys(headers);
    }
    if v :| v in Keys(headers) && HasVisibleChar(v) {
      var h :| h in headers && Lower(h.name) == "idempotency-key" && h.value == v;
      var i :| 0 <= i < |headers| && headers[i] == h;
      assert Lower(headers[i].name) == "idempotency-key" && HasVisibleChar(headers[i].value);
    }
  }
}
