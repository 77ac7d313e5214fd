/** Reading one HTTP/1.1 response off a connection: interim heads, the final head, its framing
    (section 6.3 of RFC 9112), the body, and whether the connection may serve another request. */
module Http1Response {
  import opened Codes
  import opened Text
  import opened Chunked
  import opened StatusLine

  const MAX_HEADERS: nat := 65536
  const BUFFER_SIZE: nat := 4096

  /** size_t's npos, which the core uses for "no Content-Length seen". */
  const NPOS: nat := TWO_TO_THE_64 - 1

  /** The TLS stream. The peer's bytes arrive in pieces of any size, and may stop at any time. */
  class Transport {
    var incoming: string
    ghost var taken: string
    ghost var ended: bool     // a read has returned nothing

    constructor (stream: string)
      ensures incoming == stream && taken == [] && !ended
    {
      incoming, taken, ended := stream, [], false;
    }

    /** SSL_read: the next bytes, at most `limit`; none at end of stream or on an error. */
    method Read(limit: nat) returns (piece: string)
      modifies this
      ensures |piece| <= limit
      ensures old(incoming) == piece + incoming && taken == old(taken) + piece
      ensures ended == (old(ended) || piece == [])
    {
      var n: nat :| n <= limit && n <= |incoming|;
      piece := incoming[..n];
      incoming, taken := incoming[n..], taken + piece;
      ended := ended || piece == [];
    }
  }

  // ---- heads -------------------------------------------------------------

  /** A buffer after reads into it: nothing of the stream is lost or made up. */
  ghost predicate TookOn(start: string, all: string, tookBefore: string, took: string, leftBefore: string,
                         left: string) {
    start <= all && took == tookBefore + all[|start|..] && leftBefore == all[|start|..] + left
  }

  lemma {:induction false} TookMore(start: string, all: string, piece: string, tookBefore: string, took: string,
                                    leftBefore: string, left: string, leftAfter: string)
    requires TookOn(start, all, tookBefore, took, leftBefore, left) && left == piece + leftAfter
    ensures TookOn(start, all + piece, tookBefore, took + piece, leftBefore, leftAfter)
  {
    assert (all + piece)[|start|..] == all[|start|..] + piece;
  }

  /** The last read brought the blank line: before it, with `n` bytes, there was none. */
  ghost predicate HeadBefore(start: string, raw: string, n: nat) {
    |start| <= n < |raw| <= n + BUFFER_SIZE && Find(raw[..n], BLANK_LINE, 0).None?
  }

  /** That, or the buffer was not read into at all. */
  ghost predicate HeadJustIn(start: string, raw: string) { raw == start || exists n: nat :: HeadBefore(start, raw, n) }

  /** So less than one read lies behind the blank line. */
  lemma {:induction false} LittleBehind(start: string, raw: string, e: nat)
    requires HeadJustIn(start, raw) && Find(raw, BLANK_LINE, 0) == Some(e) && |start| < BUFFER_SIZE
    ensures e + 4 <= |raw| < e + 4 + BUFFER_SIZE
  {
    FindFirst(raw, BLANK_LINE, 0);
    if raw != start {
      var n: nat :| HeadBefore(start, raw, n);
      if e + 4 <= n {
        FindFirst(raw[..n], BLANK_LINE, 0);
        assert raw[..n][e..e + 4] == raw[e..e + 4];
        assert OccursAt(raw[..n], BLANK_LINE, e);
      }
    }
  }

  /** One more piece into a buffer. */
  method ReadMore(t: Transport, buffer: string) returns (more: string, piece: string)
    modifies t
    ensures more == buffer + piece && more[..|buffer|] == buffer && |piece| <= BUFFER_SIZE
    ensures t.taken == old(t.taken) + piece && t.taken[..|t.taken| - |piece|] == old(t.taken)
    ensures old(t.incoming) == piece + t.incoming && (t.ended <==> old(t.ended) || piece == [])
  {
    piece := t.Read(BUFFER_SIZE);
    more := buffer + piece;
  }

  /** Reads until the buffer holds a blank line, the stream ends, or the buffer is too large. */
  method ReadHead(t: Transport, start: string) returns (raw: string, headerEnd: Option<nat>)
    modifies t
    ensures start <= raw && t.taken == old(t.taken) + raw[|start|..] && old(t.incoming) == raw[|start|..] + t.incoming
    ensures headerEnd == Find(raw, BLANK_LINE, 0)
    ensures |raw| + |t.incoming| == |start| + old(|t.incoming|)
    // It stops for a blank line, for too large a head, or for the end of the stream, and for nothing else.
    ensures headerEnd.None? && |raw| <= MAX_HEADERS ==> t.ended
    // And it does not read on once it has the blank line.
    ensures headerEnd.Some? ==> HeadJustIn(start, raw)
  {
    raw := start;
    headerEnd := Find(raw, BLANK_LINE, 0);
    while headerEnd.None? && |raw| <= MAX_HEADERS
      invariant TookOn(start, raw, old(t.taken), t.taken, old(t.incoming), t.incoming)
      invariant headerEnd == Find(raw, BLANK_LINE, 0) && HeadJustIn(start, raw)
      decreases |t.incoming|
    {
      var more, piece := ReadMore(t, raw);
      if piece == [] { break; }
      TookMore(start, raw, piece, old(t.taken), t.taken[..|t.taken| - |piece|], old(t.incoming), piece + t.incoming,
               t.incoming);
      assert HeadBefore(start, more, |raw|);
      raw := more;
      headerEnd := Find(raw, BLANK_LINE, 0);
    }
  }

  /** How a buffer's status is read, given the previous one. ParseStatus is the core's way. */
  type StatusReader = (string, int) -> int

  predicate Interim(status: int) { 100 <= status < 200 }

  /** The status after looking at the buffers in turn. */
  ghost function StatusOf(statusIn: StatusReader, buffers: seq<string>): int {
    if buffers == [] then 0
    else statusIn(buffers[|buffers| - 1], StatusOf(statusIn, buffers[..|buffers| - 1]))
  }

  /** The buffers in which heads were recognised: each interim head is cut off the front of its
      buffer after the first blank line, and the next buffer starts with what was left over. */
  ghost predicate HeadChain(statusIn: StatusReader, buffers: seq<string>, cuts: seq<string>)
    decreases |cuts|
  {
    && |buffers| == |cuts| + 1
    && (cuts != [] ==>
          var n := |cuts| - 1;
          && HeadChain(statusIn, buffers[..n + 1], cuts[..n])
          && Interim(StatusOf(statusIn, buffers[..n + 1]))
          && Find(buffers[n], BLANK_LINE, 0) == Some(|cuts[n]| - 4)
          && cuts[n] <= buffers[n] && buffers[n][|cuts[n]|..] <= buffers[n + 1])
  }

  ghost function Flatten(parts: seq<string>): string {
    if parts == [] then [] else Flatten(parts[..|parts| - 1]) + parts[|parts| - 1]
  }

  lemma {:induction false} ChainStep(statusIn: StatusReader, buffers: seq<string>, cuts: seq<string>, cut: string,
                                     next: string)
    requires HeadChain(statusIn, buffers, cuts) && Interim(StatusOf(statusIn, buffers))
    requires Find(buffers[|cuts|], BLANK_LINE, 0) == Some(|cut| - 4)
    requires cut <= buffers[|cuts|] && buffers[|cuts|][|cut|..] <= next
    ensures HeadChain(statusIn, buffers + [next], cuts + [cut])
    ensures StatusOf(statusIn, buffers + [next]) == statusIn(next, StatusOf(statusIn, buffers))
    ensures Flatten(cuts + [cut]) == Flatten(cuts) + cut
  {
    assert (cuts + [cut])[..|cuts|] == cuts && (buffers + [next])[..|buffers|] == buffers;
  }

  /** Cutting a head off the buffer and reading on loses and repeats nothing. */
  lemma {:induction false} Regroup(before: string, cuts: string, cut: string, left: string, next: string)
    requires left <= next
    ensures before + cuts + (cut + left) + next[|left|..] == before + (cuts + cut) + next
  {}

  /** Reads heads until one that is not interim. Fails when the stream ends or a head is too large. */
  method ReadFinalHead(t: Transport, statusIn: StatusReader)
    returns (ok: bool, raw: string, headerEnd: nat, status: int, ghost buffers: seq<string>, ghost cuts: seq<string>)
    modifies t
    ensures ok ==> t.taken == old(t.taken) + Flatten(cuts) + raw
    ensures ok ==> HeadChain(statusIn, buffers, cuts) && buffers[|cuts|] == raw
    ensures ok ==> StatusOf(statusIn, buffers) == status && !Interim(status)
    ensures ok ==>
              Find(raw, BLANK_LINE, 0) == Some(headerEnd) && |raw| <= MAX_HEADERS && |raw| < headerEnd + 4 + BUFFER_SIZE
    ensures !ok ==> |raw| > MAX_HEADERS || (t.ended && Find(raw, BLANK_LINE, 0).None?)
  {
    buffers, cuts, headerEnd, status := [], [], 0, 0;
    var found;
    raw, found := ReadHead(t, []);
    if found.None? || |raw| > MAX_HEADERS { ok := false; return; }
    headerEnd := found.value;
    LittleBehind([], raw, headerEnd);
    status := statusIn(raw, status);
    buffers := [raw];
    while Interim(status)
      invariant t.taken == old(t.taken) + Flatten(cuts) + raw
      invariant Find(raw, BLANK_LINE, 0) == Some(headerEnd) && |raw| <= MAX_HEADERS
      invariant |raw| < headerEnd + 4 + BUFFER_SIZE
      invariant HeadChain(statusIn, buffers, cuts) && buffers[|cuts|] == raw
      invariant status == StatusOf(statusIn, buffers)
      decreases |raw| + |t.incoming|
    {
      ghost var cut := raw[..headerEnd + 4];
      var left := raw[headerEnd + 4..];
      assert raw == cut + left;
      var next;
      next, found := ReadHead(t, left);
      Regroup(old(t.taken), Flatten(cuts), cut, left, next);
      ChainStep(statusIn, buffers, cuts, cut, next);
      buffers, cuts := buffers + [next], cuts + [cut];
      raw := next;
      if found.None? || |raw| > MAX_HEADERS { ok := false; return; }
      headerEnd := found.value;
      LittleBehind(left, raw, headerEnd);
      status := statusIn(raw, status);
    }
    ok := true;
  }

  // ---- header fields -----------------------------------------------------

  datatype Fields = Fields(chunked: bool, close: bool, length: nat, invalid: bool)

  const NO_FIELDS := Fields(false, false, NPOS, false)

  function TrimFront(s: string): (r: string)
    ensures |r| <= |s|
  {
    if s != [] && (s[0] == ' ' || s[0] == '\t') then TrimFront(s[1..]) else s
  }

  function TrimBack(s: string): string {
    if s != [] && (s[|s| - 1] == ' ' || s[|s| - 1] == '\t') then TrimBack(s[..|s| - 1]) else s
  }

  function Name(line: string): string {
    match Find(line, ":", 0) case None => [] case Some(colon) => Lower(line[..colon])
  }

  function Value(line: string): string {
    match Find(line, ":", 0) case None => [] case Some(colon) => TrimBack(TrimFront(line[colon + 1..]))
  }

  predicate IsChunked(line: string) {
    Name(line) == "transfer-encoding" && Find(Lower(Value(line)), "chunked", 0).Some?
  }

  predicate IsClose(line: string) {
    Name(line) == "connection" && Find(Lower(Value(line)), "close", 0).Some?
  }

  predicate IsLength(line: string) { Name(line) == "content-length" }

  /** The number a Content-Length value stands for; blanks may follow it, a NUL ends it. */
  function LengthOf(value: string): Option<nat> {
    match Strtoull(value, 10)
    case Converted(n, end) =>
      var stop := end + (|value[end..]| - |TrimFront(value[end..])|);
      if stop < |value| && value[stop] != '\0' then None else Some(n)
    case NoDigits => if value != [] && value[0] == '\0' then Some(0) else None
    case OutOfRange => None
  }

  /** What a header line contributes to the framing decision. */
  datatype Kind = ChunkedLine | CloseLine | LengthLine(length: Option<nat>) | OtherLine

  function Classify(line: string): Kind {
    if IsChunked(line) then ChunkedLine
    else if IsClose(line) then CloseLine
    else if IsLength(line) then LengthLine(LengthOf(Value(line)))
    else OtherLine
  }

  /** How a header line is read. Classify is the core's way. */
  type LineReader = string -> Kind

  /** The lines of a head, classified. Nothing follows a final CRLF. */
  function Kinds(kindOf: LineReader, headers: string): seq<Kind>
    decreases |headers|
  {
    if headers == [] then []
    else match Find(headers, CRLF, 0)
         case None => [kindOf(headers)]
         case Some(e) => [kindOf(headers[..e])] + Kinds(kindOf, headers[e + 2..])
  }

  function ScanLine(f: Fields, kind: Kind): Fields {
    match kind
    case ChunkedLine => f.(chunked := true)
    case CloseLine => f.(close := true)
    case LengthLine(None) => f.(invalid := true)
    case LengthLine(Some(n)) =>
      if f.length != NPOS && f.length != n then f.(invalid := true) else f.(length := n)
    case OtherLine => f
  }

  function Scan(kinds: seq<Kind>, f: Fields): Fields
    decreases |kinds|
  {
    if kinds == [] then f else Scan(kinds[1..], ScanLine(f, kinds[0]))
  }

  lemma {:induction false} KindsCons(kindOf: LineReader, s: string, e: nat, line: string, rest: string)
    requires s != [] && Find(s, CRLF, 0) == Some(e) && s[..e] == line && s[e + 2..] == rest
    ensures Kinds(kindOf, s) == [kindOf(line)] + Kinds(kindOf, rest)
  {}

  lemma {:induction false} ScanCons(kind: Kind, kinds: seq<Kind>, f: Fields)
    ensures Scan([kind] + kinds, f) == Scan(kinds, ScanLine(f, kind))
  {}

  /** The scan of a suffix that has a whole line. */
  lemma {:induction false} ScanAt(kindOf: LineReader, headers: string, pos: nat, e: nat, f: Fields)
    requires pos < |headers| && Find(headers, CRLF, pos) == Some(e)
    ensures Scan(Kinds(kindOf, headers[pos..]), f) ==
            Scan(Kinds(kindOf, headers[e + 2..]), ScanLine(f, kindOf(headers[pos..e])))
  {
    FrontLine(headers, pos, e);
    KindsCons(kindOf, headers[pos..], e - pos, headers[pos..e], headers[e + 2..]);
    ScanCons(kindOf(headers[pos..e]), Kinds(kindOf, headers[e + 2..]), f);
  }

  /** The scan of a suffix that is one line without an end. */
  lemma {:induction false} ScanLast(kindOf: LineReader, headers: string, pos: nat, f: Fields)
    requires pos < |headers| && Find(headers, CRLF, pos).None?
    ensures Scan(Kinds(kindOf, headers[pos..]), f) == ScanLine(f, kindOf(headers[pos..]))
  {
    NoLine(headers, pos);
    ScanCons(kindOf(headers[pos..]), [], f);
  }

  method ScanHeaders(kindOf: LineReader, headers: string) returns (f: Fields)
    ensures f == Scan(Kinds(kindOf, headers), NO_FIELDS)
  {
    f := NO_FIELDS;
    var lineStart := 0;
    assert headers[0..] == headers;
    while lineStart < |headers|
      invariant lineStart <= |headers|
      invariant Scan(Kinds(kindOf, headers), NO_FIELDS) == Scan(Kinds(kindOf, headers[lineStart..]), f)
    {
      match Find(headers, CRLF, lineStart)
      case None =>
        ScanLast(kindOf, headers, lineStart, f);
        f := ScanLine(f, kindOf(headers[lineStart..]));
        return;
      case Some(lineEnd) =>
        ScanAt(kindOf, headers, lineStart, lineEnd, f);
        f := ScanLine(f, kindOf(headers[lineStart..lineEnd]));
        lineStart := lineEnd + 2;
    }
    assert headers[lineStart..] == [];
  }

  lemma {:induction false} ScanAppend(kinds: seq<Kind>, kind: Kind, f: Fields)
    ensures Scan(kinds + [kind], f) == ScanLine(Scan(kinds, f), kind)
    decreases |kinds|
  {
    if kinds == [] {
      assert Scan([kind], f) == Scan([kind][1..], ScanLine(f, kind));
    } else {
      assert (kinds + [kind])[1..] == kinds[1..] + [kind];
      ScanAppend(kinds[1..], kind, ScanLine(f, kinds[0]));
    }
  }

  lemma {:induction false} ScanFlags(kinds: seq<Kind>)
    ensures Scan(kinds, NO_FIELDS).chunked <==> ChunkedLine in kinds
    ensures Scan(kinds, NO_FIELDS).close <==> CloseLine in kinds
    decreases |kinds|
  {
    if kinds != [] {
      var init, last := kinds[..|kinds| - 1], kinds[|kinds| - 1];
      assert kinds == init + [last];
      ScanFlags(init);
      ScanAppend(init, last, NO_FIELDS);
    }
  }

  /** What the Content-Length lines stand for, in order. */
  ghost function Lengths(kinds: seq<Kind>): seq<Option<nat>> {
    if kinds == [] then []
    else Lengths(kinds[..|kinds| - 1]) +
         (match kinds[|kinds| - 1] case LengthLine(n) => [n] case _ => [])
  }

  /** Each is a number and, from the first that is not NPOS on, all are the same number. */
  ghost predicate LengthsAgree(ns: seq<Option<nat>>) {
    && (forall i :: 0 <= i < |ns| ==> ns[i].Some?)
    && (forall i, j :: 0 <= i < j < |ns| && ns[i] != Some(NPOS) ==> ns[j] == ns[i])
  }

  /** The Content-Length lines are accepted exactly when they agree, and the length is the one they
      agree on; without any, or with nothing but NPOS, there is no length. */
  lemma {:induction false} ScanLengths(kinds: seq<Kind>)
    ensures !Scan(kinds, NO_FIELDS).invalid <==> LengthsAgree(Lengths(kinds))
    ensures LengthsAgree(Lengths(kinds)) ==>
              Scan(kinds, NO_FIELDS).length ==
              if Lengths(kinds) == [] then NPOS else Lengths(kinds)[|Lengths(kinds)| - 1].value
    decreases |kinds|
  {
    if kinds != [] {
      var init, last := kinds[..|kinds| - 1], kinds[|kinds| - 1];
      assert kinds == init + [last];
      ScanLengths(init);
      ScanAppend(init, last, NO_FIELDS);
      if last.LengthLine? {
        assert Lengths(kinds) == Lengths(init) + [last.length];
        AgreeStep(Lengths(init), last.length);
      } else {
        assert Lengths(kinds) == Lengths(init);
      }
    }
  }

  lemma {:induction false} AgreeStep(ns: seq<Option<nat>>, n: Option<nat>)
    ensures LengthsAgree(ns + [n]) <==>
            LengthsAgree(ns) && n.Some? && (ns == [] || ns[|ns| - 1] == Some(NPOS) || ns[|ns| - 1] == n)
  {
    var all := ns + [n];
    assert all[|ns|] == n && forall i :: 0 <= i < |ns| ==> all[i] == ns[i];
  }

  // ---- bodies ------------------------------------------------------------

  lemma {:induction false} Rejoin(a: string, b: string, c: string)
    ensures a + b + c == a + (b + c)
  {}

  /** The last read brought the verdict: before it, with `n` bytes, there was none. */
  ghost predicate BodyBefore(start: string, body: string, n: nat) {
    |start| <= n < |body| <= n + BUFFER_SIZE && Decode(ChunkSize, body[..n]).verdict == Incomplete
  }

  /** That, or the buffer was not read into at all. */
  ghost predicate BodyJustIn(start: string, body: string) {
    body == start || exists n: nat :: BodyBefore(start, body, n)
  }

  /** The chunked loop: decode what has arrived, read more while undecided and within the budget. */
  method ReadUntilDecided(t: Transport, start: string, maxBody: nat)
    returns (decoded: string, body: string, verdict: Verdict)
    modifies t
    ensures start <= body && t.taken == old(t.taken) + body[|start|..]
    ensures old(t.incoming) == body[|start|..] + t.incoming
    ensures verdict != Incomplete ==>
              && Decode(ChunkSize, body) == Decoded(verdict, decoded) && BodyJustIn(start, body)
              && |body| <= maxBody + MAX_HEADERS
    ensures verdict == Incomplete && |body| <= maxBody + MAX_HEADERS ==>
              t.ended && Decode(ChunkSize, body).verdict == Incomplete
  {
    body, decoded, verdict := start, [], Incomplete;
    while verdict == Incomplete && |body| <= maxBody + MAX_HEADERS
      invariant TookOn(start, body, old(t.taken), t.taken, old(t.incoming), t.incoming)
      invariant verdict == Incomplete && BodyJustIn(start, body)
      decreases |t.incoming|
    {
      verdict, decoded := DecodeChunked(ChunkSize, body);
      if verdict != Incomplete { break; }
      var more, piece := ReadMore(t, body);
      if piece == [] { break; }
      TookMore(start, body, piece, old(t.taken), t.taken[..|t.taken| - |piece|], old(t.incoming), piece + t.incoming,
               t.incoming);
      assert BodyBefore(start, more, |body|);
      body := more;
    }
  }

  /** The chunked branch: the loop and what becomes of its verdict. */
  method ReadChunked(t: Transport, start: string, maxBody: nat)
    returns (err: int, decoded: string, body: string, verdict: Verdict)
    modifies t
    ensures start <= body && t.taken == old(t.taken) + body[|start|..]
    ensures old(t.incoming) == body[|start|..] + t.incoming
    // A verdict reached on a part of the stream is the verdict on all of it, however it was cut up.
    ensures verdict != Incomplete ==>
              && Decode(ChunkSize, body) == Decoded(verdict, decoded) && BodyJustIn(start, body)
              && |body| <= maxBody + MAX_HEADERS
    ensures verdict != Incomplete ==> Decode(ChunkSize, start + old(t.incoming)) == Decoded(verdict, decoded)
    ensures verdict == Incomplete && |body| <= maxBody + MAX_HEADERS ==>
              t.ended && Decode(ChunkSize, body).verdict == Incomplete
    ensures err == OK <==> verdict == Complete && |decoded| <= maxBody
    ensures err != OK ==> err == (if verdict == Complete || |body| > maxBody + MAX_HEADERS
                                  then ERR_BUFFER_TOO_SMALL else ERR_PROTOCOL)
  {
    decoded, body, verdict := ReadUntilDecided(t, start, maxBody);
    if verdict != Incomplete {
      Rejoin(start, body[|start|..], t.incoming);
      assert start + body[|start|..] == body;
      DecodeStable(ChunkSize, body, t.incoming);
    }
    if verdict != Complete {
      err := if |body| > maxBody + MAX_HEADERS then ERR_BUFFER_TOO_SMALL else ERR_PROTOCOL;
    } else if |decoded| > maxBody {
      err := ERR_BUFFER_TOO_SMALL;
    } else {
      err := OK;
    }
  }

  /** The Content-Length loop: it never asks for more than is missing. */
  method ReadSized(t: Transport, start: string, length: nat, maxBody: nat) returns (err: int, body: string)
    modifies t
    ensures start <= body && t.taken == old(t.taken) + body[|start|..]
    ensures old(t.incoming) == body[|start|..] + t.incoming
    ensures |body| <= |start| || |body| <= length
    ensures err == OK <==> |body| == length && length <= maxBody
    ensures length > maxBody ==> err == ERR_BUFFER_TOO_SMALL && body == start
    ensures err != OK && length <= maxBody ==> err == ERR_PROTOCOL && (t.ended || |start| > length)
  {
    body := start;
    if length > maxBody { return ERR_BUFFER_TOO_SMALL, body; }
    ghost var read := [];
    while |body| < length
      invariant body == start + read && t.taken == old(t.taken) + read && old(t.incoming) == read + t.incoming
      invariant |body| <= |start| || |body| <= length
      decreases |t.incoming|
    {
      var remaining := length - |body|;
      var piece := t.Read(if remaining < BUFFER_SIZE then remaining else BUFFER_SIZE);
      if piece == [] { break; }
      body := body + piece;
      read := read + piece;
    }
    err := if |body| == length then OK else ERR_PROTOCOL;
  }

  /** Without framing the body is what arrives until the stream ends. */
  method ReadToEnd(t: Transport, start: string, maxBody: nat) returns (err: int, body: string)
    modifies t
    ensures start <= body && t.taken == old(t.taken) + body[|start|..]
    ensures old(t.incoming) == body[|start|..] + t.incoming
    ensures err == (if |body| <= maxBody then OK else ERR_BUFFER_TOO_SMALL) && (err == OK ==> t.ended)
    ensures |body| <= |start| || |body| <= maxBody + 1
  {
    body := start;
    ghost var read := [];
    while |body| <= maxBody
      invariant body == start + read && t.taken == old(t.taken) + read && old(t.incoming) == read + t.incoming
      invariant |body| <= |start| || |body| <= maxBody + 1
      decreases |t.incoming|
    {
      var remaining := maxBody - |body|;
      var piece := t.Read(if remaining + 1 < BUFFER_SIZE then remaining + 1 else BUFFER_SIZE);
      if piece == [] { break; }
      body := body + piece;
      read := read + piece;
    }
    err := if |body| <= maxBody then OK else ERR_BUFFER_TOO_SMALL;
  }

  // ---- the whole response ------------------------------------------------

  predicate NoBody(method_: string, status: int) { method_ == "HEAD" || status == 204 || status == 304 }

  /** What was read, as the bytes it was read from: interim heads, the final head up to its blank
      line, and the bytes after it. */
  datatype Reading = Reading(
    buffers: seq<string>, cuts: seq<string>, head: string, after: string, status: int, fields: Fields)

  ghost predicate Read(statusIn: StatusReader, r: Reading, bytes: string) {
    && bytes == Flatten(r.cuts) + r.head + BLANK_LINE + r.after
    && HeadChain(statusIn, r.buffers, r.cuts)
    && r.head + BLANK_LINE <= r.buffers[|r.cuts|] <= r.head + BLANK_LINE + r.after
    && Find(r.buffers[|r.cuts|], BLANK_LINE, 0) == Some(|r.head|)
    && r.status == StatusOf(statusIn, r.buffers) && !Interim(r.status)
    && r.fields == Scan(Kinds(Classify, r.head), NO_FIELDS)
  }

  /** What a body of this framing is, given the bytes after the head. */
  ghost predicate Framed(fields: Fields, noBody: bool, after: string, body: string) {
    if noBody then body == [] && after == []
    else if fields.chunked then Decode(ChunkSize, after) == Decoded(Complete, body)
    else body == after && (fields.length != NPOS ==> |after| == fields.length)
  }

  /** What makes a body fail although the stream goes on: more bytes than the framing allows for, chunks
      that are none, or a body over the limit. */
  ghost predicate Spoilt(fields: Fields, noBody: bool, start: string, after: string, maxBody: nat) {
    if noBody then start != []
    else if fields.chunked then
      |after| > maxBody + MAX_HEADERS || Decode(ChunkSize, after).verdict == Invalid
      || |Decode(ChunkSize, after).out| > maxBody
    else if fields.length != NPOS then fields.length > maxBody || |start| > fields.length
    else |after| > maxBody
  }

  method ReadBody(t: Transport, start: string, fields: Fields, noBody: bool, maxBody: nat)
    returns (err: int, body: string, ghost after: string)
    modifies t
    ensures start <= after && t.taken == old(t.taken) + after[|start|..]
    ensures old(t.incoming) == after[|start|..] + t.incoming
    ensures err == OK <==> Framed(fields, noBody, after, body) && !Spoilt(fields, noBody, start, after, maxBody)
    ensures err == OK ==> |body| <= maxBody && (!noBody && fields.chunked ==> BodyJustIn(start, after))
    ensures noBody ==> body == [] && after == start
    // While the stream goes on only these things spoil a body.
    ensures !t.ended ==> (err == OK <==> !Spoilt(fields, noBody, start, after, maxBody))
    ensures err == OK || err == ERR_PROTOCOL || err == ERR_BUFFER_TOO_SMALL
  {
    if noBody {
      body, after := [], start;
      err := if start != [] then ERR_PROTOCOL else OK;
    } else if fields.chunked {
      var received, verdict;
      err, body, received, verdict := ReadChunked(t, start, maxBody);
      after := received;
    } else if fields.length != NPOS {
      err, body := ReadSized(t, start, fields.length, maxBody);
      after := body;
    } else {
      err, body := ReadToEnd(t, start, maxBody);
      after := body;
    }
  }

  lemma {:induction false} ReadIs(statusIn: StatusReader, r: Reading, raw: string, headerEnd: nat, start: string)
    requires HeadChain(statusIn, r.buffers, r.cuts) && r.buffers[|r.cuts|] == raw
    requires Find(raw, BLANK_LINE, 0) == Some(headerEnd)
    requires r.status == StatusOf(statusIn, r.buffers) && !Interim(r.status)
    requires r.head == raw[..headerEnd] && start == raw[headerEnd + 4..] && start <= r.after
    requires r.fields == Scan(Kinds(Classify, r.head), NO_FIELDS)
    ensures Read(statusIn, r, Flatten(r.cuts) + r.head + BLANK_LINE + r.after)
    ensures raw == r.head + BLANK_LINE + start
  {
    FindFirst(raw, BLANK_LINE, 0);
    SplitAt(raw, headerEnd, headerEnd + 4);
    Extends(r.head + BLANK_LINE, start, r.after);
  }

  lemma {:induction false} SplitAt(s: string, a: nat, b: nat)
    requires a <= b <= |s|
    ensures s == s[..a] + s[a..b] + s[b..]
  {}

  lemma {:induction false} Extends(front: string, start: string, after: string)
    requires start <= after
    ensures front <= front + start <= front + after
  {}

  /** What a reading that succeeded says, and when the connection outlives it. */
  ghost predicate Success(statusIn: StatusReader, r: Reading, noBody: bool, body: string, maxBody: nat) {
    && Read(statusIn, r, Flatten(r.cuts) + r.head + BLANK_LINE + r.after)
    && !r.fields.invalid && Framed(r.fields, noBody, r.after, body) && |body| <= maxBody
  }

  lemma {:induction false} TakenIs(before: string, cuts: string, raw: string, all: string)
    requires raw <= all
    ensures before + cuts + raw + all[|raw|..] == before + (cuts + all)
    ensures |before + (cuts + all)| == |before| + |cuts| + |all|
  {}

  lemma {:induction false} TailIs(head: string, start: string, after: string)
    requires start <= after
    ensures head + start <= head + after && (head + after)[|head + start|..] == after[|start|..]
  {}

  /** From the final head on: the header fields, the body, and the keep or close decision. */
  method ReadMessage(t: Transport, statusIn: StatusReader, noBody: bool, maxBody: nat, raw: string, headerEnd: nat,
                     status: int, ghost buffers: seq<string>, ghost cuts: seq<string>)
    returns (err: int, body: string, kept: bool, ghost r: Reading)
    requires HeadChain(statusIn, buffers, cuts) && buffers[|cuts|] == raw
    requires Find(raw, BLANK_LINE, 0) == Some(headerEnd)
    requires status == StatusOf(statusIn, buffers) && !Interim(status)
    modifies t
    ensures err == OK ==> Success(statusIn, r, noBody, body, maxBody) && r.cuts == cuts && r.status == status
    ensures err == OK ==> raw <= r.head + BLANK_LINE + r.after
    ensures err == OK ==> t.taken == old(t.taken) + (r.head + BLANK_LINE + r.after)[|raw|..]
    ensures kept <==> err == OK && !r.fields.close && !noBody && (r.fields.chunked || r.fields.length != NPOS)
    ensures r.head == raw[..headerEnd] && r.fields == Scan(Kinds(Classify, r.head), NO_FIELDS)
    ensures err == OK <==>
              !r.fields.invalid && Framed(r.fields, noBody, r.after, body)
              && !Spoilt(r.fields, noBody, raw[headerEnd + 4..], r.after, maxBody)
    ensures err == OK && !noBody && r.fields.chunked ==> BodyJustIn(raw[headerEnd + 4..], r.after)
    ensures noBody && !r.fields.invalid ==> body == [] && r.after == raw[headerEnd + 4..]
    ensures !t.ended ==>
              (err == OK <==> !r.fields.invalid && !Spoilt(r.fields, noBody, raw[headerEnd + 4..], r.after, maxBody))
    ensures err == OK || err == ERR_PROTOCOL || err == ERR_BUFFER_TOO_SMALL
  {
    body, kept := [], false;
    var fields := ScanHeaders(Classify, raw[..headerEnd]);
    r := Reading(buffers, cuts, raw[..headerEnd], [], status, fields);
    if fields.invalid { return ERR_PROTOCOL, body, kept, r; }
    var start := raw[headerEnd + 4..];
    ghost var after;
    err, body, after := ReadBody(t, start, fields, noBody, maxBody);
    r := Reading(buffers, cuts, raw[..headerEnd], after, status, fields);
    ReadIs(statusIn, r, raw, headerEnd, start);
    TailIs(r.head + BLANK_LINE, start, after);
    kept := err == OK;
    if fields.close || noBody || (!fields.chunked && fields.length == NPOS) { kept := false; }
  }

  /** Whether a response is accepted, given the buffer that held its final head. */
  ghost predicate Accepted(r: Reading, noBody: bool, buffer: string, body: string, maxBody: nat) {
    && NothingWrong(r, noBody, buffer, maxBody) && Find(buffer, BLANK_LINE, 0) == Some(|r.head|)
    && Framed(r.fields, noBody, r.after, body)
  }

  /** The head fits, the Content-Length lines agree, and the body is not spoilt. */
  ghost predicate NothingWrong(r: Reading, noBody: bool, buffer: string, maxBody: nat) {
    && |buffer| <= MAX_HEADERS && r.head + BLANK_LINE <= buffer && !r.fields.invalid
    && !Spoilt(r.fields, noBody, buffer[|r.head| + 4..], r.after, maxBody)
  }

  /** Reading stopped as soon as the message was there. */
  lemma {:induction false} SurplusOf(start: string, after: string, body: string) returns (m: Message, surplus: string)
    requires Decode(ChunkSize, after) == Decoded(Complete, body) && BodyJustIn(start, after) && |start| < BUFFER_SIZE
    ensures InFront(ChunkSize, after, m, surplus, body) && |surplus| < BUFFER_SIZE
  {
    m, surplus := DecodeSound(ChunkSize, after);
    if after != start { LastRead(m, surplus, start, after); }
  }

  lemma {:induction false} LastRead(m: Message, surplus: string, start: string, after: string)
    requires GoodMessage(ChunkSize, m) && after == Wire(m) + surplus && BodyJustIn(start, after) && after != start
    ensures |surplus| < BUFFER_SIZE
  {
    var n: nat :| BodyBefore(start, after, n);
    if |Wire(m)| <= n { WholeIn(m, surplus, n); }
  }

  lemma {:induction false} WholeIn(m: Message, surplus: string, n: nat)
    requires GoodMessage(ChunkSize, m) && |Wire(m)| <= n <= |Wire(m) + surplus|
    ensures Decode(ChunkSize, (Wire(m) + surplus)[..n]).verdict == Complete
  {
    var part := surplus[..n - |Wire(m)|];
    assert (Wire(m) + surplus)[..n] == Wire(m) + part;
    DecodeWire(ChunkSize, m, part);
  }

  lemma {:induction false} TakenWithout(before: string, cuts: string, head: string, wire: string, surplus: string,
                                        after: string)
    requires after == wire + surplus
    ensures before + (cuts + (head + after)) == before + (cuts + (head + wire)) <==> surplus == []
  {
    assert |before + (cuts + (head + after))| == |before + (cuts + (head + wire))| + |surplus|;
  }

  /** The head fits, ends in a blank line, and its Content-Length lines agree. */
  ghost predicate Plain(r: Reading, buffer: string) {
    && |buffer| <= MAX_HEADERS && r.head + BLANK_LINE <= buffer && Find(buffer, BLANK_LINE, 0) == Some(|r.head|)
    && !r.fields.invalid
  }

  /** The body the fields announce: chunks that decode to it, or as many bytes as they say, or all there is; and within
      its limit. Bytes beyond the length must not have come with the head. */
  ghost predicate HasBody(r: Reading, buffer: string, body: string, maxBody: nat)
    requires Plain(r, buffer)
  {
    if r.fields.chunked then
      && Decode(ChunkSize, r.after) == Decoded(Complete, body) && |body| <= maxBody
      && |r.after| <= maxBody + MAX_HEADERS
    else if r.fields.length != NPOS then
      body == r.after && |body| == r.fields.length <= maxBody && |buffer| - |r.head| - 4 <= r.fields.length
    else body == r.after && |body| <= maxBody
  }

  /** With and without a body. */
  lemma {:induction false} AcceptedExactly(r: Reading, buffer: string, body: string, maxBody: nat)
    ensures Accepted(r, true, buffer, body, maxBody) <==>
              Plain(r, buffer) && buffer == r.head + BLANK_LINE && body == [] && r.after == []
    ensures Accepted(r, false, buffer, body, maxBody) <==> Plain(r, buffer) && HasBody(r, buffer, body, maxBody)
  {
    if r.head + BLANK_LINE <= buffer {
      assert buffer == r.head + BLANK_LINE + buffer[|r.head| + 4..];
    }
  }

  /** The response part of Http1Engine::request. `kept` tells whether the connection stays open. */
  method ReadResponse(t: Transport, statusIn: StatusReader, method_: string, maxBody: nat)
    returns (err: int, status: int, body: string, kept: bool, ghost r: Reading, ghost buffer: string)
    modifies t
    // Success: the bytes taken are the interim heads, the final head and the bytes of the body.
    ensures err == OK ==> Success(statusIn, r, NoBody(method_, status), body, maxBody) && r.status == status
    ensures err == OK ==> t.taken == old(t.taken) + (Flatten(r.cuts) + (r.head + BLANK_LINE + r.after))
    // The connection is kept exactly when the message ended by itself and nobody asked to close.
    ensures kept <==>
              err == OK && !r.fields.close && !NoBody(method_, status) && (r.fields.chunked || r.fields.length != NPOS)
    // Framed by Content-Length, not a byte beyond the message was taken.
    ensures kept && !r.fields.chunked ==>
              |t.taken| == |old(t.taken)| + |Flatten(r.cuts)| + |r.head| + 4 + r.fields.length && body == r.after
    // Framed by chunks, the bytes taken are those of the message exactly when nothing had arrived behind it; and
    // what had is less than one read.
    ensures kept && r.fields.chunked ==>
              exists m, surplus :: InFront(ChunkSize, r.after, m, surplus, body) && |surplus| < BUFFER_SIZE
                && (t.taken == old(t.taken) + (Flatten(r.cuts) + (r.head + BLANK_LINE + Wire(m))) <==> surplus == [])
    // A response is accepted exactly when its head fits, its Content-Length lines agree and its body is framed and not
    // spoilt; while the stream goes on, when nothing of that is wrong.
    ensures err == OK <==> Accepted(r, NoBody(method_, status), buffer, body, maxBody)
    ensures !t.ended ==> (err == OK <==> NothingWrong(r, NoBody(method_, status), buffer, maxBody))
    // A response to HEAD, or with status 204 or 304, has no body, whatever its fields say of one: it is accepted
    // exactly
    // when nothing came with its head, nothing behind that is taken, and the connection is closed.
    ensures method_ == "HEAD" || status == 204 || status == 304 ==>
              && (err == OK <==> Plain(r, buffer) && buffer == r.head + BLANK_LINE)
              && (err == OK ==> body == [] && t.taken == old(t.taken) + (Flatten(r.cuts) + (r.head + BLANK_LINE)))
              && !kept
    // For every other one the fields decide.
    ensures method_ != "HEAD" && status != 204 && status != 304 ==>
              && (err == OK <==> Plain(r, buffer) && HasBody(r, buffer, body, maxBody))
              && (kept <==> err == OK && !r.fields.close && (r.fields.chunked || r.fields.length != NPOS))
    ensures err == OK || err == ERR_PROTOCOL || err == ERR_BUFFER_TOO_SMALL
  {
    body, kept := [], false;
    var ok, raw, headerEnd;
    ghost var buffers, cuts;
    ok, raw, headerEnd, status, buffers, cuts := ReadFinalHead(t, statusIn);
    r, buffer := Reading(buffers, cuts, [], [], status, NO_FIELDS), raw;
    if !ok { return ERR_PROTOCOL, status, body, kept, r, buffer; }
    FindFirst(raw, BLANK_LINE, 0);
    SplitAt(raw, headerEnd, headerEnd + 4);
    err, body, kept, r := ReadMessage(t, statusIn, NoBody(method_, status), maxBody, raw, headerEnd, status, buffers,
                                      cuts);
    AcceptedExactly(r, buffer, body, maxBody);
    if err == OK { TakenIs(old(t.taken), Flatten(cuts), raw, r.head + BLANK_LINE + r.after); }
    if kept && r.fields.chunked {
      var m, surplus := SurplusOf(buffer[|r.head| + 4..], r.after, body);
      TakenWithout(old(t.taken), Flatten(cuts), r.head + BLANK_LINE, Wire(m), surplus, r.after);
    }
  }

  // ---- the response does not depend on how the stream was cut into reads --

  /** The part of a buffer up to and including its first blank line. */
  ghost function HeadOf(buffer: string): string {
    match Find(buffer, BLANK_LINE, 0) case None => buffer case Some(e) => buffer[..e + 4]
  }

  /** Bytes behind the head do not change its status. */
  ghost predicate Settles(statusIn: StatusReader, head: string) {
    forall more, previous :: statusIn(head + more, previous) == statusIn(head, previous)
  }

  /** The heads of a run settle their status. */
  ghost predicate Settled(statusIn: StatusReader, buffers: seq<string>) {
    forall i :: 0 <= i < |buffers| ==> Settles(statusIn, HeadOf(buffers[i]))
  }

  lemma {:induction false} StatusOfHead(statusIn: StatusReader, buffer: string, previous: int)
    requires Settles(statusIn, HeadOf(buffer)) && Find(buffer, BLANK_LINE, 0).Some?
    ensures statusIn(buffer, previous) == statusIn(HeadOf(buffer), previous)
  {
    FindFirst(buffer, BLANK_LINE, 0);
    assert buffer == HeadOf(buffer) + buffer[|HeadOf(buffer)|..];
  }

  lemma {:induction false} ChainAt(statusIn: StatusReader, buffers: seq<string>, cuts: seq<string>, i: nat)
    requires HeadChain(statusIn, buffers, cuts) && i < |cuts|
    ensures Interim(StatusOf(statusIn, buffers[..i + 1])) && Find(buffers[i], BLANK_LINE, 0) == Some(|cuts[i]| - 4)
    ensures cuts[i] <= buffers[i] && buffers[i][|cuts[i]|..] <= buffers[i + 1]
    decreases |cuts|
  {
    var n := |cuts| - 1;
    if i < n {
      ChainAt(statusIn, buffers[..n + 1], cuts[..n], i);
      assert buffers[..n + 1][..i + 1] == buffers[..i + 1];
    }
  }

  lemma {:induction false} MoveCut(before: string, buffer: string, cut: string, next: string)
    requires cut <= buffer && buffer[|cut|..] <= next
    ensures before + buffer <= before + cut + next
  {
    assert buffer == cut + buffer[|cut|..];
  }

  /** Every buffer, put after the heads cut off before it, is a prefix of everything read. */
  lemma {:induction false} BufferPrefix(statusIn: StatusReader, buffers: seq<string>, cuts: seq<string>, i: nat)
    requires HeadChain(statusIn, buffers, cuts) && i <= |cuts|
    ensures Flatten(cuts[..i]) + buffers[i] <= Flatten(cuts) + buffers[|cuts|]
    decreases |cuts| - i
  {
    if i == |cuts| {
      assert cuts[..i] == cuts;
    } else {
      ChainAt(statusIn, buffers, cuts, i);
      assert cuts[..i + 1][..i] == cuts[..i];
      MoveCut(Flatten(cuts[..i]), buffers[i], cuts[i], buffers[i + 1]);
      BufferPrefix(statusIn, buffers, cuts, i + 1);
    }
  }

  /** Two buffers taken from the same place of one stream have the same head. */
  lemma {:induction false} SameHead(a: string, b: string, before: string, stream: string)
    requires before + a <= stream && before + b <= stream
    requires Find(a, BLANK_LINE, 0).Some? && Find(b, BLANK_LINE, 0).Some?
    ensures HeadOf(a) == HeadOf(b)
  {
    var rest := stream[|before|..];
    assert a <= rest && b <= rest;
    FindStable(a, BLANK_LINE, 0, rest[|a|..]);
    FindStable(b, BLANK_LINE, 0, rest[|b|..]);
    assert a + rest[|a|..] == rest && b + rest[|b|..] == rest;
  }

  ghost predicate ReadFrom(statusIn: StatusReader, buffers: seq<string>, cuts: seq<string>, stream: string) {
    && HeadChain(statusIn, buffers, cuts)
    && Flatten(cuts) + buffers[|cuts|] <= stream
    && Find(buffers[|cuts|], BLANK_LINE, 0).Some?
  }

  lemma {:induction false} PlaceAt(statusIn: StatusReader, buffers: seq<string>, cuts: seq<string>, stream: string,
                                   k: nat)
    requires ReadFrom(statusIn, buffers, cuts, stream) && k <= |cuts|
    ensures Flatten(cuts[..k]) + buffers[k] <= stream && Find(buffers[k], BLANK_LINE, 0).Some?
    ensures k < |cuts| ==> cuts[k] == HeadOf(buffers[k]) && Interim(StatusOf(statusIn, buffers[..k + 1]))
    ensures Settles(statusIn, HeadOf(buffers[k])) ==>
              StatusOf(statusIn, buffers[..k + 1]) == statusIn(HeadOf(buffers[k]), StatusOf(statusIn, buffers[..k]))
  {
    BufferPrefix(statusIn, buffers, cuts, k);
    if k < |cuts| { ChainAt(statusIn, buffers, cuts, k); }
    assert buffers[..k + 1][..k] == buffers[..k];
    if Settles(statusIn, HeadOf(buffers[k])) { StatusOfHead(statusIn, buffers[k], StatusOf(statusIn, buffers[..k])); }
  }

  lemma {:induction false} OneMore(a: seq<string>, b: seq<string>, k: nat)
    requires k < |a| && k < |b| && a[..k] == b[..k] && a[k] == b[k]
    ensures a[..k + 1] == b[..k + 1]
  {
    assert a[..k + 1] == a[..k] + [a[k]] && b[..k + 1] == b[..k] + [b[k]];
  }

  /** Two runs over one stream agree, head by head and status by status, as far as both go. */
  lemma {:induction false} SameSteps(statusIn: StatusReader, b1: seq<string>, c1: seq<string>, b2: seq<string>,
                                     c2: seq<string>, stream: string, k: nat)
    requires ReadFrom(statusIn, b1, c1, stream) && ReadFrom(statusIn, b2, c2, stream)
    requires Settled(statusIn, b1) || Settled(statusIn, b2)
    requires k <= |c1| && k <= |c2|
    ensures c1[..k] == c2[..k] && StatusOf(statusIn, b1[..k]) == StatusOf(statusIn, b2[..k])
    decreases k
  {
    if k > 0 {
      SameSteps(statusIn, b1, c1, b2, c2, stream, k - 1);
      PlaceAt(statusIn, b1, c1, stream, k - 1);
      PlaceAt(statusIn, b2, c2, stream, k - 1);
      SameHead(b1[k - 1], b2[k - 1], Flatten(c1[..k - 1]), stream);
      OneMore(c1, c2, k - 1);
    }
  }

  lemma {:induction false} NotFewer(statusIn: StatusReader, b1: seq<string>, c1: seq<string>, b2: seq<string>,
                                    c2: seq<string>, stream: string)
    requires ReadFrom(statusIn, b1, c1, stream) && ReadFrom(statusIn, b2, c2, stream)
    requires Settled(statusIn, b1) || Settled(statusIn, b2)
    requires !Interim(StatusOf(statusIn, b1))
    ensures |c1| >= |c2|
  {
    if |c1| < |c2| {
      var k := |c1|;
      assert b1[..k + 1] == b1;
      SameSteps(statusIn, b1, c1, b2, c2, stream, k);
      PlaceAt(statusIn, b1, c1, stream, k);
      PlaceAt(statusIn, b2, c2, stream, k);
      SameHead(b1[k], b2[k], Flatten(c1[..k]), stream);
    }
  }

  lemma {:induction false} SameHeads(statusIn: StatusReader, b1: seq<string>, c1: seq<string>, b2: seq<string>,
                                     c2: seq<string>, stream: string)
    requires ReadFrom(statusIn, b1, c1, stream) && ReadFrom(statusIn, b2, c2, stream)
    requires Settled(statusIn, b1) || Settled(statusIn, b2)
    requires !Interim(StatusOf(statusIn, b1)) && !Interim(StatusOf(statusIn, b2))
    ensures c1 == c2 && HeadOf(b1[|c1|]) == HeadOf(b2[|c2|]) && StatusOf(statusIn, b1) == StatusOf(statusIn, b2)
  {
    NotFewer(statusIn, b1, c1, b2, c2, stream);
    NotFewer(statusIn, b2, c2, b1, c1, stream);
    var k := |c1|;
    SameSteps(statusIn, b1, c1, b2, c2, stream, k);
    assert c1[..k] == c1 && c2[..k] == c2;
    PlaceAt(statusIn, b1, c1, stream, k);
    PlaceAt(statusIn, b2, c2, stream, k);
    SameHead(b1[k], b2[k], Flatten(c1), stream);
    assert b1[..k + 1] == b1 && b2[..k + 1] == b2;
  }

  lemma {:induction false} HeadOfIs(buffer: string, head: string)
    requires head + BLANK_LINE <= buffer && Find(buffer, BLANK_LINE, 0) == Some(|head|)
    ensures HeadOf(buffer) == head + BLANK_LINE
  {}

  lemma {:induction false} FrontOf(before: string, buffer: string, all: string, stream: string)
    requires buffer <= all && before + all <= stream
    ensures before + buffer <= stream
  {}

  lemma {:induction false} ReadingFrom(statusIn: StatusReader, r: Reading, bytes: string, stream: string)
    requires Read(statusIn, r, bytes) && bytes <= stream
    ensures ReadFrom(statusIn, r.buffers, r.cuts, stream)
    ensures HeadOf(r.buffers[|r.cuts|]) == r.head + BLANK_LINE
    ensures Flatten(r.cuts) + r.head + BLANK_LINE + r.after <= stream
  {
    var before, all := Flatten(r.cuts), r.head + BLANK_LINE + r.after;
    Rebracket4(before, r.head, BLANK_LINE, r.after);
    FrontOf(before, r.buffers[|r.cuts|], all, stream);
    HeadOfIs(r.buffers[|r.cuts|], r.head);
  }

  lemma {:induction false} Rebracket4(a: string, b: string, c: string, d: string)
    ensures a + b + c + d == a + (b + c + d)
  {}

  /** Two successful readings of one stream, however it was cut into reads, find the same heads,
      status and header fields; and the same body when the message is framed by chunks or by
      Content-Length. */
  lemma {:induction false} SplitIndependent(statusIn: StatusReader, r1: Reading, bytes1: string, body1: string,
                                            r2: Reading, bytes2: string, body2: string, noBody: bool, stream: string)
    requires Read(statusIn, r1, bytes1) && Framed(r1.fields, noBody, r1.after, body1)
    requires Read(statusIn, r2, bytes2) && Framed(r2.fields, noBody, r2.after, body2)
    requires bytes1 <= stream && bytes2 <= stream
    requires Settled(statusIn, r1.buffers)
    ensures r1.cuts == r2.cuts && r1.head == r2.head && r1.status == r2.status && r1.fields == r2.fields
    ensures noBody || r1.fields.chunked || r1.fields.length != NPOS ==> body1 == body2
  {
    ReadingFrom(statusIn, r1, bytes1, stream);
    ReadingFrom(statusIn, r2, bytes2, stream);
    SameHeads(statusIn, r1.buffers, r1.cuts, r2.buffers, r2.cuts, stream);
    assert r1.head == (r1.head + BLANK_LINE)[..|r1.head + BLANK_LINE| - 4];
    assert r2.head == (r2.head + BLANK_LINE)[..|r2.head + BLANK_LINE| - 4];
    SameBody(Flatten(r1.cuts) + r1.head + BLANK_LINE, r1.fields, noBody, r1.after, body1, r2.after, body2, stream);
  }

  lemma {:induction false} SameBody(before: string, fields: Fields, noBody: bool, after1: string, body1: string,
                                    after2: string, body2: string, stream: string)
    requires Framed(fields, noBody, after1, body1) && Framed(fields, noBody, after2, body2)
    requires before + after1 <= stream && before + after2 <= stream
    ensures noBody || fields.chunked || fields.length != NPOS ==> body1 == body2
  {
    var rest := stream[|before|..];
    assert after1 <= rest && after2 <= rest;
    if !noBody && fields.chunked {
      DecodeStable(ChunkSize, after1, rest[|after1|..]);
      DecodeStable(ChunkSize, after2, rest[|after2|..]);
      assert after1 + rest[|after1|..] == rest && after2 + rest[|after2|..] == rest;
    }
  }

  // ---- the core's way of reading the status -------------------------------

  /** The head of a buffer, without its blank line. */
  ghost function HeadText(buffer: string): string {
    match Find(buffer, BLANK_LINE, 0) case None => buffer case Some(e) => buffer[..e]
  }

  lemma {:induction false} HeadSplits(buffer: string)
    requires Find(buffer, BLANK_LINE, 0).Some?
    ensures HeadOf(buffer) == HeadText(buffer) + BLANK_LINE && HeadOf(buffer) <= buffer
  {
    var e := Find(buffer, BLANK_LINE, 0).value;
    FindFirst(buffer, BLANK_LINE, 0);
    SplitAt(buffer, e, e + 4);
  }

  /** Heads that hold their status settle it. */
  lemma {:induction false} SettledByHeads(buffers: seq<string>)
    requires forall i :: 0 <= i < |buffers| ==>
              Find(buffers[i], BLANK_LINE, 0).Some? && StatusInside(HeadText(buffers[i]))
    ensures Settled(ParseStatus, buffers)
  {
    forall i | 0 <= i < |buffers| ensures Settles(ParseStatus, HeadOf(buffers[i])) {
      HeadSplits(buffers[i]);
      forall more, previous
        ensures ParseStatus(HeadOf(buffers[i]) + more, previous) == ParseStatus(HeadOf(buffers[i]), previous)
      {
        InsideSettles(HeadText(buffers[i]), more, previous);
      }
    }
  }

  /** The heads of a run, interim ones first, each without its blank line, hold their status. */
  ghost predicate HeadsInside(cuts: seq<string>, head: string) {
    (forall i :: 0 <= i < |cuts| ==> |cuts[i]| >= 4 && StatusInside(cuts[i][..|cuts[i]| - 4])) && StatusInside(head)
  }

  lemma {:induction false} ReadingSettled(r: Reading, bytes: string)
    requires Read(ParseStatus, r, bytes) && HeadsInside(r.cuts, r.head)
    ensures Settled(ParseStatus, r.buffers)
  {
    LastText(ParseStatus, r, bytes);
    forall i | 0 <= i < |r.buffers|
      ensures Find(r.buffers[i], BLANK_LINE, 0).Some? && StatusInside(HeadText(r.buffers[i]))
    {
      HeadInsideAt(r.buffers, r.cuts, r.head, i);
    }
    SettledByHeads(r.buffers);
  }

  lemma {:induction false} HeadInsideAt(buffers: seq<string>, cuts: seq<string>, head: string, i: nat)
    requires HeadChain(ParseStatus, buffers, cuts) && HeadsInside(cuts, head) && i <= |cuts|
    requires Find(buffers[|cuts|], BLANK_LINE, 0).Some? && HeadText(buffers[|cuts|]) == head
    ensures Find(buffers[i], BLANK_LINE, 0).Some? && StatusInside(HeadText(buffers[i]))
  {
    if i < |cuts| { CutText(ParseStatus, buffers, cuts, i); }
  }

  lemma {:induction false} CutText(statusIn: StatusReader, buffers: seq<string>, cuts: seq<string>, i: nat)
    requires HeadChain(statusIn, buffers, cuts) && i < |cuts| && |cuts[i]| >= 4
    ensures Find(buffers[i], BLANK_LINE, 0).Some? && HeadText(buffers[i]) == cuts[i][..|cuts[i]| - 4]
  {
    ChainAt(statusIn, buffers, cuts, i);
  }

  lemma {:induction false} LastText(statusIn: StatusReader, r: Reading, bytes: string)
    requires Read(statusIn, r, bytes)
    ensures |r.buffers| == |r.cuts| + 1 && Find(r.buffers[|r.cuts|], BLANK_LINE, 0).Some?
    ensures HeadText(r.buffers[|r.cuts|]) == r.head
  {
    assert (r.head + BLANK_LINE)[..|r.head|] == r.head;
  }

  /** With the core's way of reading the status: when every head that a successful reading went through holds
      its status, every other one of the same stream agrees with it, however that was cut. */
  lemma {:induction false} SplitIndependentStatus(r1: Reading, bytes1: string, body1: string, r2: Reading,
                                                  bytes2: string, body2: string, noBody: bool, stream: string)
    requires Read(ParseStatus, r1, bytes1) && Framed(r1.fields, noBody, r1.after, body1)
    requires HeadsInside(r1.cuts, r1.head)
    requires Read(ParseStatus, r2, bytes2) && Framed(r2.fields, noBody, r2.after, body2)
    requires bytes1 <= stream && bytes2 <= stream
    ensures r1.cuts == r2.cuts && r1.head == r2.head && r1.status == r2.status && r1.fields == r2.fields
    ensures noBody || r1.fields.chunked || r1.fields.length != NPOS ==> body1 == body2
  {
    ReadingSettled(r1, bytes1);
    SplitIndependent(ParseStatus, r1, bytes1, body1, r2, bytes2, body2, noBody, stream);
  }

  /** What a kept connection has lost after a chunked body: exactly the bytes that had arrived behind the message. They
      are determined by what was read, in whatever way that is taken for a message and a rest. */
  lemma {:induction false} SurplusLost(r: Reading, body: string, m: Message, surplus: string, m': Message,
                                       surplus': string)
    requires InFront(ChunkSize, r.after, m, surplus, body) && GoodMessage(ChunkSize, m')
    requires r.after == Wire(m') + surplus'
    ensures m' == m && surplus' == surplus == r.after[|Wire(m)|..] && Body(m') == body
  {
    MessageUnique(ChunkSize, m, surplus, m', surplus');
  }
}
