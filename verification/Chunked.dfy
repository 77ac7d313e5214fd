/** The chunked body decoder of the HTTP/1.1 engine (section 7.1 of RFC 9112). */
module Chunked {
  import opened Text

  const CRLF: string := "\r\n"

  datatype Verdict = Incomplete | Invalid | Complete

  datatype Decoded = Decoded(verdict: Verdict, out: string)

  /** The size on a chunk-size line; a NUL ends the line as a C string, a ';' starts extensions. */
  function ChunkSize(line: string): (n: Option<nat>)
    ensures n.Some? ==> n.value < TWO_TO_THE_64
  {
    match Strtoull(line, 16)
    case Converted(value, end) =>
      if end < |line| && line[end] != '\0' && line[end] != ';' then None else Some(value)
    case _ => None
  }

  /** The trailer section after the zero chunk: lines up to an empty one. */
  function Trailers(s: string): (v: Verdict)
    ensures v != Invalid
    decreases |s|
  {
    match Find(s, CRLF, 0)
    case None => Incomplete
    case Some(e) => if e == 0 then Complete else Trailers(s[e + 2..])
  }

  /** How a size line is read; the decoder is correct for any such reading. ChunkSize is the core's. */
  type SizeReader = string -> Option<nat>

  function Prepend(out: string, d: Decoded): Decoded { Decoded(d.verdict, out + d.out) }

  /** What the decoder makes of a buffer, read chunk by chunk from its front. */
  function Decode(sizeOf: SizeReader, s: string): Decoded
    decreases |s|
  {
    match Find(s, CRLF, 0)
    case None => Decoded(Incomplete, [])
    case Some(e) =>
      match sizeOf(s[..e])
      case None => Decoded(Invalid, [])
      case Some(n) => Round(sizeOf, s[e + 2..], n)
  }

  /** A round of the decoder at the front of its input. */
  function Round(sizeOf: SizeReader, rest: string, n: nat): Decoded
    decreases |rest|
  {
    if n == 0 then Decoded(Trailers(rest), [])
    else if |rest| < n + 2 then Decoded(Incomplete, [])
    else if rest[n..n + 2] != CRLF then Decoded(Invalid, [])
    else Prepend(rest[..n], Decode(sizeOf, rest[n + 2..]))
  }

  /** A round, given the line and what follows it. */
  lemma {:induction false} DecodeRound(sizeOf: SizeReader, s: string, e: nat, line: string, rest: string)
    requires Find(s, CRLF, 0) == Some(e) && s[..e] == line && s[e + 2..] == rest
    ensures Decode(sizeOf, s) ==
            match sizeOf(line) case None => Decoded(Invalid, []) case Some(n) => Round(sizeOf, rest, n)
  {}

  /** The first line of a suffix, in positions of the whole buffer. */
  lemma {:induction false} FrontLine(raw: string, pos: nat, e: nat)
    requires pos <= |raw| && Find(raw, CRLF, pos) == Some(e)
    ensures Find(raw[pos..], CRLF, 0) == Some(e - pos)
    ensures raw[pos..][..e - pos] == raw[pos..e] && raw[pos..][e - pos + 2..] == raw[e + 2..]
  {
    FindInDrop(raw, CRLF, pos);
    DropTake(raw, pos, e - pos);
    DropDrop(raw, pos, e - pos + 2);
  }

  lemma {:induction false} DecodeAt(sizeOf: SizeReader, raw: string, pos: nat, e: nat)
    requires pos <= |raw| && Find(raw, CRLF, pos) == Some(e)
    ensures Decode(sizeOf, raw[pos..]) ==
            match sizeOf(raw[pos..e]) case None => Decoded(Invalid, []) case Some(n) => Round(sizeOf, raw[e + 2..], n)
  {
    FrontLine(raw, pos, e);
    DecodeRound(sizeOf, raw[pos..], e - pos, raw[pos..e], raw[e + 2..]);
  }

  lemma {:induction false} NoLine(raw: string, pos: nat)
    requires pos <= |raw| && Find(raw, CRLF, pos).None?
    ensures Find(raw[pos..], CRLF, 0).None?
  {
    FindInDrop(raw, CRLF, pos);
  }

  lemma {:induction false} RoundAt(sizeOf: SizeReader, raw: string, pos: nat, n: nat)
    requires pos <= |raw| && 0 < n
    ensures Round(sizeOf, raw[pos..], n) ==
            if |raw| < pos + n + 2 then Decoded(Incomplete, [])
            else if raw[pos + n..pos + n + 2] != CRLF then Decoded(Invalid, [])
            else Prepend(raw[pos..pos + n], Decode(sizeOf, raw[pos + n + 2..]))
  {
    if pos + n + 2 <= |raw| {
      DropSlice(raw, pos, n, n + 2);
      DropTake(raw, pos, n);
      DropDrop(raw, pos, n + 2);
    }
  }

  lemma {:induction false} PrependTwice(out: string, data: string, d: Decoded)
    ensures Prepend(out, Prepend(data, d)) == Prepend(out + data, d)
  {}

  /** How a pass of the decoder's loop ends: with a verdict, or with a chunk's data. */
  datatype Pass = Stop(verdict: Verdict) | Data(start: nat, end: nat)

  predicate Inside(raw: string, pos: nat, pass: Pass) {
    pass.Data? ==> pos <= pass.start <= pass.end && pass.end + 2 <= |raw|
  }

  /** What a pass means for the decoding of everything from its start on. */
  ghost function Meant(sizeOf: SizeReader, raw: string, pass: Pass): Decoded
    requires Inside(raw, 0, pass)
  {
    match pass
    case Stop(v) => Decoded(v, [])
    case Data(a, b) => Prepend(raw[a..b], Decode(sizeOf, raw[b + 2..]))
  }

  /** What follows a size line: the trailers, or a chunk's data and its CRLF. */
  method OneRound(sizeOf: SizeReader, raw: string, pos: nat, chunkSize: nat) returns (pass: Pass)
    requires pos <= |raw|
    ensures Inside(raw, pos, pass) && Round(sizeOf, raw[pos..], chunkSize) == Meant(sizeOf, raw, pass)
  {
    if chunkSize == 0 {
      var verdict := SkipTrailers(raw, pos);
      return Stop(verdict);
    }
    RoundAt(sizeOf, raw, pos, chunkSize);
    if chunkSize > |raw| - pos { return Stop(Incomplete); }
    var bodyEnd := pos + chunkSize;
    if |raw| < bodyEnd + 2 { return Stop(Incomplete); }
    if raw[bodyEnd..bodyEnd + 2] != CRLF { return Stop(Invalid); }
    return Data(pos, bodyEnd);
  }

  /** One pass of the outer loop of decode_chunked. */
  method OneChunk(sizeOf: SizeReader, raw: string, start: nat) returns (pass: Pass)
    requires start <= |raw|
    ensures Inside(raw, start, pass) && Decode(sizeOf, raw[start..]) == Meant(sizeOf, raw, pass)
  {
    var lineEnd := Find(raw, CRLF, start);
    if lineEnd.None? { NoLine(raw, start); return Stop(Incomplete); }
    DecodeAt(sizeOf, raw, start, lineEnd.value);
    var size := sizeOf(raw[start..lineEnd.value]);
    if size.None? { return Stop(Invalid); }
    pass := OneRound(sizeOf, raw, lineEnd.value + 2, size.value);
  }

  /** decode_chunked: one buffer, an advancing position, an output that grows. */
  method DecodeChunked(sizeOf: SizeReader, raw: string) returns (verdict: Verdict, out: string)
    ensures Decoded(verdict, out) == Decode(sizeOf, raw)
  {
    out := [];
    var pos := 0;
    assert raw[0..] == raw;
    while true
      invariant 0 <= pos <= |raw|
      invariant Decode(sizeOf, raw) == Prepend(out, Decode(sizeOf, raw[pos..]))
      decreases |raw| - pos
    {
      var pass := OneChunk(sizeOf, raw, pos);
      match pass
      case Stop(v) => return v, out;
      case Data(start, end) =>
        PrependTwice(out, raw[start..end], Decode(sizeOf, raw[end + 2..]));
        out := out + raw[start..end];
        pos := end + 2;
    }
  }

  lemma {:induction false} TrailersAt(raw: string, pos: nat, e: nat)
    requires pos <= |raw| && Find(raw, CRLF, pos) == Some(e)
    ensures Trailers(raw[pos..]) == if e == pos then Complete else Trailers(raw[e + 2..])
  {
    FrontLine(raw, pos, e);
  }

  /** The inner loop of decode_chunked, from the byte after the zero chunk's line. */
  method SkipTrailers(raw: string, start: nat) returns (verdict: Verdict)
    requires start <= |raw|
    ensures verdict == Trailers(raw[start..])
  {
    var pos := start;
    while true
      invariant start <= pos <= |raw|
      invariant Trailers(raw[start..]) == Trailers(raw[pos..])
      decreases |raw| - pos
    {
      var trailerEnd := Find(raw, CRLF, pos);
      if trailerEnd.None? { NoLine(raw, pos); return Incomplete; }
      TrailersAt(raw, pos, trailerEnd.value);
      if trailerEnd.value == pos { return Complete; }
      pos := trailerEnd.value + 2;
    }
  }

  // ---- a decided buffer stays decided -----------------------------------

  lemma {:induction false} TrailersStable(s: string, more: string)
    requires Trailers(s) == Complete
    ensures Trailers(s + more) == Complete
    decreases |s|
  {
    var e := Find(s, CRLF, 0).value;
    FindStable(s, CRLF, 0, more);
    if e != 0 {
      assert (s + more)[e + 2..] == s[e + 2..] + more;
      TrailersStable(s[e + 2..], more);
    }
  }

  /** Bytes that arrive after a Complete or Invalid verdict change neither the verdict nor the output. */
  lemma {:induction false} DecodeStable(sizeOf: SizeReader, s: string, more: string)
    requires Decode(sizeOf, s).verdict != Incomplete
    ensures Decode(sizeOf, s + more) == Decode(sizeOf, s)
    decreases |s|
  {
    var e := Find(s, CRLF, 0).value;
    FindStable(s, CRLF, 0, more);
    FrontStable(s, more, e);
    DecodeRound(sizeOf, s, e, s[..e], s[e + 2..]);
    DecodeRound(sizeOf, s + more, e, s[..e], s[e + 2..] + more);
    if sizeOf(s[..e]).Some? { RoundStable(sizeOf, s[e + 2..], more, sizeOf(s[..e]).value); }
  }

  lemma {:induction false} RoundStable(sizeOf: SizeReader, rest: string, more: string, n: nat)
    requires Round(sizeOf, rest, n).verdict != Incomplete
    ensures Round(sizeOf, rest + more, n) == Round(sizeOf, rest, n)
    decreases |rest|
  {
    if n == 0 {
      TrailersStable(rest, more);
    } else {
      DataStable(rest, more, n);
      if rest[n..n + 2] == CRLF { DecodeStable(sizeOf, rest[n + 2..], more); }
    }
  }

  lemma {:induction false} FrontStable(s: string, more: string, e: nat)
    requires e + 2 <= |s|
    ensures (s + more)[..e] == s[..e] && (s + more)[e + 2..] == s[e + 2..] + more
  {}

  lemma {:induction false} DataStable(rest: string, more: string, n: nat)
    requires n + 2 <= |rest|
    ensures (rest + more)[..n] == rest[..n] && (rest + more)[n..n + 2] == rest[n..n + 2]
    ensures (rest + more)[n + 2..] == rest[n + 2..] + more
  {}

  // ---- the grammar the decoder accepts ----------------------------------

  datatype Chunk = Chunk(line: string, data: string)

  datatype Message = Message(chunks: seq<Chunk>, last: string, trailers: seq<string>)

  ghost predicate IsLine(line: string) { forall i :: !OccursAt(line, CRLF, i) }

  ghost predicate GoodChunk(sizeOf: SizeReader, c: Chunk) {
    IsLine(c.line) && sizeOf(c.line) == Some(|c.data|) && c.data != []
  }

  ghost predicate GoodMessage(sizeOf: SizeReader, m: Message) {
    && (forall i :: 0 <= i < |m.chunks| ==> GoodChunk(sizeOf, m.chunks[i]))
    && IsLine(m.last) && sizeOf(m.last) == Some(0)
    && GoodTrailers(m.trailers)
  }

  ghost predicate GoodTrailers(trailers: seq<string>) {
    forall i :: 0 <= i < |trailers| ==> trailers[i] != [] && IsLine(trailers[i])
  }

  function TrailerWire(trailers: seq<string>): string {
    if trailers == [] then CRLF else trailers[0] + CRLF + TrailerWire(trailers[1..])
  }

  function Wire(m: Message): string
    decreases |m.chunks|
  {
    if m.chunks == [] then m.last + CRLF + TrailerWire(m.trailers)
    else m.chunks[0].line + CRLF + m.chunks[0].data + CRLF + Wire(m.(chunks := m.chunks[1..]))
  }

  function Body(m: Message): string
    decreases |m.chunks|
  {
    if m.chunks == [] then [] else m.chunks[0].data + Body(m.(chunks := m.chunks[1..]))
  }

  lemma {:induction false} CrlfAt(s: string, i: nat)
    ensures OccursAt(s, CRLF, i) <==> i + 2 <= |s| && s[i] == '\r' && s[i + 1] == '\n'
  {
    if i + 2 <= |s| { assert s[i..i + 2] == [s[i], s[i + 1]]; }
  }

  lemma {:induction false} NoCrlfInLine(line: string, after: string, i: nat)
    requires IsLine(line) && i < |line|
    ensures !OccursAt(line + CRLF + after, CRLF, i)
  {
    CrlfAt(line, i);
    CrlfAt(line + CRLF + after, i);
    assert !OccursAt(line, CRLF, i);
  }

  /** A line is what precedes the first CRLF, even when it ends in a lone CR. */
  lemma {:induction false} LineEnd(line: string, after: string)
    requires IsLine(line)
    ensures Find(line + CRLF + after, CRLF, 0) == Some(|line|)
  {
    var s := line + CRLF + after;
    CrlfAt(s, |line|);
    forall i | 0 <= i < |line| ensures !OccursAt(s, CRLF, i) { NoCrlfInLine(line, after, i); }
    FindIs(s, CRLF, 0, |line|);
  }

  lemma {:induction false} SplitAtLine(s: string)
    requires Find(s, CRLF, 0).Some?
    ensures var e := Find(s, CRLF, 0).value;
            IsLine(s[..e]) && s == s[..e] + CRLF + s[e + 2..]
  {
    var e := Find(s, CRLF, 0).value;
    FindFirst(s, CRLF, 0);
    assert s[e..e + 2] == CRLF;
    assert s == s[..e] + s[e..e + 2] + s[e + 2..];
    forall i ensures !OccursAt(s[..e], CRLF, i) {
      if OccursAt(s[..e], CRLF, i) {
        assert s[i..i + 2] == s[..e][i..i + 2];
        assert OccursAt(s, CRLF, i);
      }
    }
  }

  lemma {:induction false} TrailersAccept(trailers: seq<string>, more: string)
    requires GoodTrailers(trailers)
    ensures Trailers(TrailerWire(trailers) + more) == Complete
    decreases |trailers|
  {
    if trailers == [] {
      LineEnd([], more);
      assert CRLF + more == [] + CRLF + more;
    } else {
      var after := TrailerWire(trailers[1..]) + more;
      var s := TrailerWire(trailers) + more;
      assert s == trailers[0] + CRLF + after;
      LineEnd(trailers[0], after);
      assert s[|trailers[0]| + 2..] == after;
      TrailersAccept(trailers[1..], more);
    }
  }

  /** Every well-formed message, whatever follows it, decodes to its body. */
  lemma {:induction false} DecodeWire(sizeOf: SizeReader, m: Message, more: string)
    requires GoodMessage(sizeOf, m)
    ensures Decode(sizeOf, Wire(m) + more) == Decoded(Complete, Body(m))
    decreases |m.chunks|
  {
    var s := Wire(m) + more;
    if m.chunks == [] {
      var after := TrailerWire(m.trailers) + more;
      assert s == m.last + CRLF + after;
      LineEnd(m.last, after);
      assert s[..|m.last|] == m.last && s[|m.last| + 2..] == after;
      TrailersAccept(m.trailers, more);
    } else {
      var c := m.chunks[0];
      var tail := m.(chunks := m.chunks[1..]);
      var after := c.data + CRLF + (Wire(tail) + more);
      assert s == c.line + CRLF + after;
      LineEnd(c.line, after);
      assert s[..|c.line|] == c.line && s[|c.line| + 2..] == after;
      var n := |c.data|;
      assert GoodChunk(sizeOf, c);
      assert after[n..n + 2] == CRLF && after[..n] == c.data && after[n + 2..] == Wire(tail) + more;
      DecodeWire(sizeOf, tail, more);
    }
  }

  ghost predicate TrailersInFront(s: string, ts: seq<string>, more: string) {
    GoodTrailers(ts) && s == TrailerWire(ts) + more
  }

  lemma {:induction false} GrowTrailers(s: string, line: string, rest: string, ts: seq<string>, more: string)
    requires s == line + CRLF + rest && line != [] && IsLine(line) && TrailersInFront(rest, ts, more)
    ensures TrailersInFront(s, [line] + ts, more)
  {
    var all := [line] + ts;
    assert all[1..] == ts;
    assert TrailerWire(all) == line + CRLF + TrailerWire(ts);
    assert s == TrailerWire(all) + more;
  }

  lemma {:induction false} TrailersSound(s: string) returns (ts: seq<string>, more: string)
    requires Trailers(s) == Complete
    ensures TrailersInFront(s, ts, more)
    decreases |s|
  {
    SplitAtLine(s);
    var e := Find(s, CRLF, 0).value;
    if e == 0 {
      ts, more := [], s[2..];
      assert s == TrailerWire([]) + s[2..];
    } else {
      ts, more := TrailersSound(s[e + 2..]);
      GrowTrailers(s, s[..e], s[e + 2..], ts, more);
      ts := [s[..e]] + ts;
    }
  }

  lemma {:induction false} GrowMessage(sizeOf: SizeReader, c: Chunk, m: Message)
    requires GoodChunk(sizeOf, c) && GoodMessage(sizeOf, m)
    ensures var all := m.(chunks := [c] + m.chunks);
            && GoodMessage(sizeOf, all) && Body(all) == c.data + Body(m)
            && Wire(all) == c.line + CRLF + c.data + CRLF + Wire(m)
  {
    var all := m.(chunks := [c] + m.chunks);
    assert all.(chunks := all.chunks[1..]) == m;
  }

  /** A well-formed message with this body stands at the front. */
  ghost predicate InFront(sizeOf: SizeReader, s: string, m: Message, more: string, body: string) {
    GoodMessage(sizeOf, m) && s == Wire(m) + more && Body(m) == body
  }

  lemma {:induction false} LastChunk(sizeOf: SizeReader, s: string, line: string, rest: string, ts: seq<string>,
                                     more: string)
    requires s == line + CRLF + rest && TrailersInFront(rest, ts, more) && GoodMessage(sizeOf, Message([], line, ts))
    ensures InFront(sizeOf, s, Message([], line, ts), more, [])
  {
    assert Wire(Message([], line, ts)) == line + CRLF + TrailerWire(ts);
  }

  lemma {:induction false} OneMoreChunk(sizeOf: SizeReader, s: string, line: string, rest: string, n: nat, m: Message,
                                        more: string, body: string)
    requires s == line + CRLF + rest && n + 2 <= |rest| && rest[n..n + 2] == CRLF
    requires GoodChunk(sizeOf, Chunk(line, rest[..n])) && InFront(sizeOf, rest[n + 2..], m, more, body)
    ensures InFront(sizeOf, s, m.(chunks := [Chunk(line, rest[..n])] + m.chunks), more, rest[..n] + body)
  {
    JoinParts(s, line, rest, n, Wire(m), more);
    GrowMessage(sizeOf, Chunk(line, rest[..n]), m);
  }

  /** And only such a message is decoded completely. */
  lemma {:induction false} DecodeSound(sizeOf: SizeReader, s: string) returns (m: Message, more: string)
    requires Decode(sizeOf, s).verdict == Complete
    ensures InFront(sizeOf, s, m, more, Decode(sizeOf, s).out)
    decreases |s|
  {
    SplitAtLine(s);
    var e := Find(s, CRLF, 0).value;
    var line, rest := s[..e], s[e + 2..];
    var n := sizeOf(line).value;
    if n == 0 {
      var ts;
      ts, more := TrailersSound(rest);
      LastChunk(sizeOf, s, line, rest, ts, more);
      m := Message([], line, ts);
    } else {
      m, more := DecodeSound(sizeOf, rest[n + 2..]);
      OneMoreChunk(sizeOf, s, line, rest, n, m, more, Decode(sizeOf, rest[n + 2..]).out);
      m := m.(chunks := [Chunk(line, rest[..n])] + m.chunks);
    }
  }

  lemma {:induction false} JoinParts(s: string, line: string, rest: string, n: nat, wire: string, more: string)
    requires s == line + CRLF + rest
    requires n + 2 <= |rest| && rest[n..n + 2] == CRLF && rest[n + 2..] == wire + more
    ensures s == line + CRLF + rest[..n] + CRLF + wire + more
  {
    assert rest == rest[..n] + rest[n..n + 2] + rest[n + 2..];
  }

  /** Complete, with this body, means exactly: a well-formed message with this body stands at the front. */
  lemma {:induction false} CompleteExactly(sizeOf: SizeReader, s: string, body: string)
    ensures Decode(sizeOf, s) == Decoded(Complete, body) <==>
            exists m, more :: InFront(sizeOf, s, m, more, body)
  {
    if Decode(sizeOf, s) == Decoded(Complete, body) { var m, more := DecodeSound(sizeOf, s); }
    if m, more :| InFront(sizeOf, s, m, more, body) { DecodeWire(sizeOf, m, more); }
  }

  // ---- where a message ends ----------------------------------------------

  lemma {:induction false} SameLine(a: string, x: string, b: string, y: string)
    requires IsLine(a) && IsLine(b) && a + CRLF + x == b + CRLF + y
    ensures a == b && x == y
  {
    var s := a + CRLF + x;
    LineEnd(a, x);
    LineEnd(b, y);
    assert a == s[..|a|] && b == s[..|b|] && x == s[|a| + 2..] && y == s[|b| + 2..];
  }

  lemma {:induction false} SameData(a: string, x: string, b: string, y: string)
    requires |a| == |b| && a + CRLF + x == b + CRLF + y
    ensures a == b && x == y
  {
    var s := a + CRLF + x;
    assert a == s[..|a|] && b == s[..|b|] && x == s[|a| + 2..] && y == s[|b| + 2..];
  }

  /** A trailer section, from its first line. */
  lemma {:induction false} TrailerFront(ts: seq<string>, x: string) returns (line: string, rest: string)
    requires GoodTrailers(ts)
    ensures TrailerWire(ts) + x == line + CRLF + rest && IsLine(line) && (line == [] <==> ts == [])
    ensures if ts == [] then rest == x else line == ts[0] && rest == TrailerWire(ts[1..]) + x
  {
    if ts == [] {
      line, rest := [], x;
    } else {
      line, rest := ts[0], TrailerWire(ts[1..]) + x;
      assert TrailerWire(ts) + x == line + CRLF + rest;
    }
  }

  lemma {:induction false} TrailersUnique(a: seq<string>, x: string, b: seq<string>, y: string)
    requires GoodTrailers(a) && GoodTrailers(b) && TrailerWire(a) + x == TrailerWire(b) + y
    ensures a == b && x == y
    decreases |a|
  {
    var line, rest := TrailerFront(a, x);
    var line', rest' := TrailerFront(b, y);
    SameLine(line, rest, line', rest');
    if a != [] {
      TrailersUnique(a[1..], x, b[1..], y);
      assert a == [a[0]] + a[1..] && b == [b[0]] + b[1..];
    }
  }

  /** A message, from its first size line. */
  lemma {:induction false} MessageFront(sizeOf: SizeReader, m: Message, x: string) returns (line: string, rest: string)
    requires GoodMessage(sizeOf, m)
    ensures Wire(m) + x == line + CRLF + rest && IsLine(line)
    ensures sizeOf(line) == Some(if m.chunks == [] then 0 else |m.chunks[0].data|)
    ensures (sizeOf(line) == Some(0) <==> m.chunks == [])
    ensures if m.chunks == [] then line == m.last && rest == TrailerWire(m.trailers) + x
            else
              && line == m.chunks[0].line && GoodMessage(sizeOf, m.(chunks := m.chunks[1..]))
              && rest == m.chunks[0].data + CRLF + (Wire(m.(chunks := m.chunks[1..])) + x)
  {
    if m.chunks == [] {
      line, rest := m.last, TrailerWire(m.trailers) + x;
      assert Wire(m) + x == line + CRLF + rest;
    } else {
      assert GoodChunk(sizeOf, m.chunks[0]);
      line, rest := m.chunks[0].line, m.chunks[0].data + CRLF + (Wire(m.(chunks := m.chunks[1..])) + x);
      assert Wire(m) + x == line + CRLF + rest;
    }
  }

  /** No two messages stand at the front of one buffer: what follows the message is determined. */
  lemma {:induction false} MessageUnique(sizeOf: SizeReader, a: Message, x: string, b: Message, y: string)
    requires GoodMessage(sizeOf, a) && GoodMessage(sizeOf, b) && Wire(a) + x == Wire(b) + y
    ensures a == b && x == y
    decreases |a.chunks|
  {
    var line, rest := MessageFront(sizeOf, a, x);
    var line', rest' := MessageFront(sizeOf, b, y);
    SameLine(line, rest, line', rest');
    if a.chunks == [] {
      TrailersUnique(a.trailers, x, b.trailers, y);
    } else {
      var tail, tail' := a.(chunks := a.chunks[1..]), b.(chunks := b.chunks[1..]);
      SameData(a.chunks[0].data, Wire(tail) + x, b.chunks[0].data, Wire(tail') + y);
      MessageUnique(sizeOf, tail, x, tail', y);
      assert a.chunks == [a.chunks[0]] + tail.chunks && b.chunks == [b.chunks[0]] + tail'.chunks;
      assert a.chunks[0] == b.chunks[0];
    }
  }

  // ---- an encoder --------------------------------------------------------

  /** A piece of the body with the extensions a sender puts on its size line. */
  datatype Piece = Piece(data: string, extension: string)

  predicate GoodExtension(x: string) { (x == [] || x[0] == ';') && Find(x, CRLF, 0).None? }

  function SizeLine(n: nat, extension: string): string { Digits(n, 16) + extension }

  lemma {:induction false} DigitsEnd(digits: string, x: string)
    requires AllDigits(digits, 16) && (x == [] || x[0] == ';')
    ensures SkipDigits(digits + x, 0, 16) == |digits|
  {
    var s := digits + x;
    var j := SkipDigits(s, 0, 16);
    assert forall k :: 0 <= k < j ==> s[0..j][k] == s[k];
    assert forall k :: 0 <= k < |digits| ==> s[k] == digits[k];
    assert |digits| < |s| ==> !IsDigit(s[|digits|], 16);
  }

  /** Digits that start with no 0x prefix are converted whole and stop at a ';' or the end. */
  lemma {:induction false} StrtoullReads(d: string, x: string)
    requires d != [] && AllDigits(d, 16) && (x == [] || x[0] == ';')
    ensures Strtoull(d + x, 16) ==
            if Number(d, 16) >= TWO_TO_THE_64 then OutOfRange else Converted(Number(d, 16), |d|)
  {
    PlainStart(d, x);
    DigitsEnd(d, x);
    assert (d + x)[0..|d|] == d;
  }

  lemma {:induction false} PlainStart(d: string, x: string)
    requires d != [] && AllDigits(d, 16) && (x == [] || x[0] == ';')
    ensures DigitsStart(d + x, 16) == (false, 0)
  {
    assert IsDigit(d[0], 16);
    if |d| > 1 { assert IsDigit(d[1], 16); }
  }

  lemma {:induction false} SizeLineIsLine(d: string, x: string)
    requires AllDigits(d, 16) && GoodExtension(x)
    ensures IsLine(d + x)
  {
    FindFirst(x, CRLF, 0);
    var line := d + x;
    forall i ensures !OccursAt(line, CRLF, i) {
      if OccursAt(line, CRLF, i) {
        assert line[i] == line[i..i + 2][0] == '\r';
        assert i >= |d|;
        assert line[i..i + 2] == x[i - |d|..i - |d| + 2];
        assert OccursAt(x, CRLF, i - |d|);
      }
    }
  }

  /** A size line printed in hexadecimal is read back as the size. */
  lemma {:induction false} SizeLineReads(n: nat, x: string)
    requires n < TWO_TO_THE_64 && GoodExtension(x)
    ensures ChunkSize(SizeLine(n, x)) == Some(n) && IsLine(SizeLine(n, x))
  {
    var d := Digits(n, 16);
    StrtoullReads(d, x);
    SizeLineIsLine(d, x);
    assert x != [] ==> (d + x)[|d|] == ';';
  }

  function Encode(pieces: seq<Piece>, lastExtension: string, trailers: seq<string>): Message {
    Message(seq(|pieces|,
                i requires 0 <= i < |pieces| => Chunk(SizeLine(|pieces[i].data|, pieces[i].extension), pieces[i].data)),
            SizeLine(0, lastExtension), trailers)
  }

  function Join(pieces: seq<Piece>): string {
    if pieces == [] then [] else pieces[0].data + Join(pieces[1..])
  }

  lemma {:induction false} EncodeBody(pieces: seq<Piece>, x: string, trailers: seq<string>)
    ensures Body(Encode(pieces, x, trailers)) == Join(pieces)
    decreases |pieces|
  {
    if pieces != [] {
      var m := Encode(pieces, x, trailers);
      assert m.(chunks := m.chunks[1..]) == Encode(pieces[1..], x, trailers);
      EncodeBody(pieces[1..], x, trailers);
    }
  }

  /** For every body and every way to cut it into non-empty pieces, with any extensions and trailer
      lines, decoding the encoding gives the body back. The pieces may hold any bytes, CRLF included. */
  lemma {:induction false} RoundTrip(body: string, pieces: seq<Piece>, x: string, trailers: seq<string>, more: string)
    requires Join(pieces) == body
    requires forall i :: 0 <= i < |pieces| ==>
               0 < |pieces[i].data| < TWO_TO_THE_64 && GoodExtension(pieces[i].extension)
    requires GoodExtension(x) && GoodTrailers(trailers)
    ensures Decode(ChunkSize, Wire(Encode(pieces, x, trailers)) + more) == Decoded(Complete, body)
  {
    forall i | 0 <= i < |pieces| ensures GoodChunk(ChunkSize, Encode(pieces, x, trailers).chunks[i]) {
      SizeLineReads(|pieces[i].data|, pieces[i].extension);
    }
    SizeLineReads(0, x);
    EncodeBody(pieces, x, trailers);
    DecodeWire(ChunkSize, Encode(pieces, x, trailers), more);
  }
}
