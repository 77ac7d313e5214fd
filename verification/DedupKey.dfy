/** Which requests may share one transport call, and the text key that decides it. */
module DedupKey {
  import opened Text
  import opened Requests

  const MAX_DEDUP_PATH_BYTES := 4096
  const MAX_DEDUP_HEADER_VALUE_BYTES := 1024

  predicate IsDedupHeader(name: string) {
    name == "accept" || name == "accept-encoding" || name == "accept-language"
    || name == "content-type" || name == "range"
  }

  /** is_shareable: a replayable, bodyless GET or HEAD with the default trust and no other headers. */
  predicate Shareable(c: Context) {
    var r := c.request;
    && r.retrySafe && (r.method_ == "GET" || r.method_ == "HEAD") && r.body == []
    && r.connectHost == [] && r.caCertPem == [] && |r.path| <= MAX_DEDUP_PATH_BYTES
    && forall i :: 0 <= i < |r.headers| ==>
         IsDedupHeader(Lower(r.headers[i].name)) && |r.headers[i].value| <= MAX_DEDUP_HEADER_VALUE_BYTES
  }

  /** Fields, each followed by a newline. */
  function Lines(fields: seq<string>): string {
    if fields == [] then [] else fields[0] + ['\n'] + Lines(fields[1..])
  }

  function FixedFields(c: Context): seq<string> {
    [c.request.host, Decimal(c.request.port), c.request.method_, c.request.path, Decimal(c.policy),
     Decimal(c.networkEpoch), Decimal(c.request.maxResponseBodyBytes), Decimal(c.request.timeoutMs),
     Decimal(c.maxRetries)]
  }

  function HeaderLine(h: Header): string { Lower(h.name) + [':'] + h.value }

  function HeaderLines(headers: seq<Header>): seq<string> {
    if headers == [] then []
    else (if IsDedupHeader(Lower(headers[0].name)) then [HeaderLine(headers[0])] else []) + HeaderLines(headers[1..])
  }

  function Key(c: Context): string { Lines(FixedFields(c) + HeaderLines(c.request.headers)) }

  lemma {:induction false} LinesAppend(a: seq<string>, b: seq<string>)
    ensures Lines(a + b) == Lines(a) + Lines(b)
    decreases |a|
  {
    if a == [] {
      assert a + b == b;
    } else {
      assert (a + b)[1..] == a[1..] + b;
      LinesAppend(a[1..], b);
    }
  }

  lemma {:induction false} OneLine(line: string)
    ensures Lines([line]) == line + ['\n']
  {
    assert [line][1..] == [];
  }

  lemma {:induction false} HeaderStep(out: string, headers: seq<Header>, i: nat)
    requires i < |headers|
    ensures var more, h := Lines(HeaderLines(headers[i + 1..])), headers[i];
            out + Lines(HeaderLines(headers[i..])) ==
            if IsDedupHeader(Lower(h.name)) then (out + (HeaderLine(h) + ['\n'])) + more else out + more
  {
    var rest, h := HeaderLines(headers[i + 1..]), headers[i];
    assert headers[i..][1..] == headers[i + 1..];
    if IsDedupHeader(Lower(h.name)) {
      LinesAppend([HeaderLine(h)], rest);
      OneLine(HeaderLine(h));
    } else {
      assert [] + rest == rest;
    }
  }

  /** dedup_key: the fixed fields, then the lines of the headers that matter. */
  method BuildKey(c: Context) returns (out: string)
    ensures out == Key(c)
  {
    out := Lines(FixedFields(c));
    var headers := c.request.headers;
    LinesAppend(FixedFields(c), HeaderLines(headers));
    for i := 0 to |headers|
      invariant Key(c) == out + Lines(HeaderLines(headers[i..]))
    {
      HeaderStep(out, headers, i);
      var h := headers[i];
      var name := Lower(h.name);
      if !IsDedupHeader(name) { continue; }
      out := out + (name + [':'] + h.value + ['\n']);
    }
  }

  // ---- the key is injective ---------------------------------------------

  predicate NoNewlines(fields: seq<string>) { forall i :: 0 <= i < |fields| ==> Without(fields[i], '\n') }

  /** Text made of newline-terminated fields can be split back into them. */
  lemma {:induction false} LinesUnique(a: seq<string>, b: seq<string>)
    requires NoNewlines(a) && NoNewlines(b) && Lines(a) == Lines(b)
    ensures a == b
    decreases |a|
  {
    if a != [] && b != [] {
      FirstFieldUnique(a[0], Lines(a[1..]), b[0], Lines(b[1..]), '\n');
      LinesUnique(a[1..], b[1..]);
      assert a == [a[0]] + a[1..] && b == [b[0]] + b[1..];
    }
  }

  /** The same header list, names compared without case. */
  predicate SameHeaders(a: seq<Header>, b: seq<Header>) {
    |a| == |b| && forall i :: 0 <= i < |a| ==> Lower(a[i].name) == Lower(b[i].name) && a[i].value == b[i].value
  }

  /** Everything about a shareable request that the transport can see. */
  predicate SameRequest(a: Context, b: Context) {
    && a.request.host == b.request.host && a.request.port == b.request.port
    && a.request.method_ == b.request.method_ && a.request.path == b.request.path
    && a.policy == b.policy && a.networkEpoch == b.networkEpoch
    && a.request.maxResponseBodyBytes == b.request.maxResponseBodyBytes
    && a.request.timeoutMs == b.request.timeoutMs && a.maxRetries == b.maxRetries
    && SameHeaders(a.request.headers, b.request.headers)
  }

  lemma {:induction false} FixedWithoutNewlines(c: Context)
    requires Accepted(c.request)
    ensures NoNewlines(FixedFields(c))
  {
    assert !TokenChar('\n');
    DecimalWithout(c.request.port, '\n');
    DecimalWithout(c.policy, '\n');
    DecimalWithout(c.networkEpoch, '\n');
    DecimalWithout(c.request.maxResponseBodyBytes, '\n');
    DecimalWithout(c.request.timeoutMs, '\n');
    DecimalWithout(c.maxRetries, '\n');
  }

  /** Headers whose lines can be told apart: names without a colon, no newline in the value. */
  predicate Plain(headers: seq<Header>) {
    forall i :: 0 <= i < |headers| ==>
      Without(Lower(headers[i].name), ':') && Without(HeaderLine(headers[i]), '\n')
  }

  lemma {:induction false} DedupNamePlain(name: string)
    requires IsDedupHeader(name)
    ensures Without(name, ':') && Without(name, '\n')
  {}

  lemma {:induction false} ShareableHeaders(c: Context)
    requires Shareable(c) && Accepted(c.request)
    ensures Plain(c.request.headers) && HeaderLines(c.request.headers) == AllLines(c.request.headers)
  {
    var hs := c.request.headers;
    forall i | 0 <= i < |hs| ensures Without(Lower(hs[i].name), ':') && Without(HeaderLine(hs[i]), '\n') {
      assert ValidHeader(hs[i]);
      DedupNamePlain(Lower(hs[i].name));
    }
    NoneSkipped(hs);
  }

  function AllLines(headers: seq<Header>): seq<string> {
    seq(|headers|, i requires 0 <= i < |headers| => HeaderLine(headers[i]))
  }

  lemma {:induction false} NoneSkipped(headers: seq<Header>)
    requires forall i :: 0 <= i < |headers| ==> IsDedupHeader(Lower(headers[i].name))
    ensures HeaderLines(headers) == AllLines(headers)
    decreases |headers|
  {
    if headers != [] {
      NoneSkipped(headers[1..]);
      assert IsDedupHeader(Lower(headers[0].name));
      assert AllLines(headers) == [HeaderLine(headers[0])] + AllLines(headers[1..]);
    }
  }

  lemma {:induction false} HeadersUnique(a: seq<Header>, b: seq<Header>)
    requires Plain(a) && Plain(b)
    ensures AllLines(a) == AllLines(b) <==> SameHeaders(a, b)
  {
    if AllLines(a) == AllLines(b) {
      assert |a| == |AllLines(a)| == |AllLines(b)| == |b|;
      forall i | 0 <= i < |a| ensures Lower(a[i].name) == Lower(b[i].name) && a[i].value == b[i].value {
        assert AllLines(a)[i] == AllLines(b)[i];
        FirstFieldUnique(Lower(a[i].name), a[i].value, Lower(b[i].name), b[i].value, ':');
      }
    }
  }

  lemma {:induction false} FixedUnique(a: Context, b: Context, x: seq<string>, y: seq<string>)
    requires FixedFields(a) + x == FixedFields(b) + y
    ensures FixedFields(a) == FixedFields(b) && x == y
    ensures a.request.port == b.request.port && a.policy == b.policy && a.networkEpoch == b.networkEpoch
    ensures a.request.maxResponseBodyBytes == b.request.maxResponseBodyBytes
    ensures a.request.timeoutMs == b.request.timeoutMs && a.maxRetries == b.maxRetries
    ensures a.request.host == b.request.host && a.request.method_ == b.request.method_
    ensures a.request.path == b.request.path
  {
    var f, g := FixedFields(a), FixedFields(b);
    assert f == (f + x)[..9] && g == (g + y)[..9] && x == (f + x)[9..] && y == (g + y)[9..];
    assert f[0] == g[0] && f[2] == g[2] && f[3] == g[3];
    DecimalInjective(a.request.port, b.request.port);
    DecimalInjective(a.policy, b.policy);
    DecimalInjective(a.networkEpoch, b.networkEpoch);
    DecimalInjective(a.request.maxResponseBodyBytes, b.request.maxResponseBodyBytes);
    DecimalInjective(a.request.timeoutMs, b.request.timeoutMs);
    DecimalInjective(a.maxRetries, b.maxRetries);
  }

  /** Two shareable requests that passed the C entry point have one key exactly when they are the
      same request, header names compared without case. */
  lemma {:induction false} KeyExactly(a: Context, b: Context)
    requires Shareable(a) && Shareable(b) && Accepted(a.request) && Accepted(b.request)
    ensures Key(a) == Key(b) <==> SameRequest(a, b)
  {
    var ha, hb := a.request.headers, b.request.headers;
    ShareableHeaders(a);
    ShareableHeaders(b);
    HeadersUnique(ha, hb);
    if Key(a) == Key(b) {
      FixedWithoutNewlines(a);
      FixedWithoutNewlines(b);
      LinesUnique(FixedFields(a) + AllLines(ha), FixedFields(b) + AllLines(hb));
      FixedUnique(a, b, AllLines(ha), AllLines(hb));
    }
  }

  /** Without the CR/LF check one header can pass for two: the check is needed. */
  lemma {:induction false} KeyNeedsValidation(a: Context) returns (b: Context, c: Context)
    requires Shareable(a) && a.request.headers == []
    ensures Shareable(b) && Shareable(c) && Key(b) == Key(c) && !SameRequest(b, c)
  {
    var h := Header("accept", "x");
    var both := Header("accept", "x" + ['\n'] + HeaderLine(h));
    LowerAccept();
    b := a.(request := a.request.(headers := [both]));
    c := a.(request := a.request.(headers := [h, h]));
    NoneSkipped([both]);
    NoneSkipped([h, h]);
    assert AllLines([both]) == [HeaderLine(both)] && AllLines([h, h]) == [HeaderLine(h)] + [HeaderLine(h)];
    SameText(FixedFields(a), HeaderLine(h), HeaderLine(both));
    assert FixedFields(b) == FixedFields(a) == FixedFields(c);
  }

  /** A line with a newline in it reads like two lines. */
  lemma {:induction false} SameText(fields: seq<string>, line: string, double: string)
    requires double == line + ['\n'] + line
    ensures Lines(fields + [double]) == Lines(fields + ([line] + [line]))
  {
    OneLine(double);
    OneLine(line);
    LinesAppend([line], [line]);
    LinesAppend(fields, [double]);
    LinesAppend(fields, [line] + [line]);
  }

  lemma {:induction false} LowerAccept()
    ensures IsDedupHeader(Lower("accept"))
  {
    assert Lower("accept") == "accept";
  }
}
