/** Responses as bytes: what the reader of HTTP/1.1 responses makes of plain heads with any status, whatever comes
    behind them. */
module Http1Cases {
  import opened Text
  import opened Chunked
  import opened StatusLine
  import opened Http1Response

  // ---- a head -----------------------------------------------------------

  /** A status line, as in "HTTP/1.1 304 Not Modified". */
  function Line(status: nat, reason: string): string { "HTTP/1.1 " + (Digits(status, 10) + (" " + reason)) }

  predicate Readable(reason: string) { Without(reason, '\r') && Without(reason, ':') }

  /** Header fields, each behind a line end. */
  function Tail(fields: seq<string>): string {
    if fields == [] then [] else CRLF + (fields[0] + Tail(fields[1..]))
  }

  predicate GoodFields(fields: seq<string>) {
    forall i :: 0 <= i < |fields| ==> fields[i] != [] && Without(fields[i], '\r')
  }

  function Head(status: nat, reason: string, fields: seq<string>): string { Line(status, reason) + Tail(fields) }

  lemma {:induction false} DigitsPlain(n: nat)
    ensures Digits(n, 10) != [] && forall i :: 0 <= i < |Digits(n, 10)| ==> '0' <= Digits(n, 10)[i] <= '9'
  {
    forall i | 0 <= i < |Digits(n, 10)| ensures '0' <= Digits(n, 10)[i] <= '9' { assert IsDigit(Digits(n, 10)[i], 10); }
  }

  lemma {:induction false} VersionPlain()
    ensures Without("HTTP/1.1 ", '\r') && Without("HTTP/1.1 ", ':')
    ensures "HTTP/1.1 "[8] == ' ' && forall i :: 0 <= i < 8 ==> "HTTP/1.1 "[i] != ' '
  {}

  lemma {:induction false} LinePlain(status: nat, reason: string)
    requires Readable(reason)
    ensures Without(Line(status, reason), '\r') && Without(Line(status, reason), ':')
  {
    VersionPlain();
    DigitsPlain(status);
  }

  lemma {:induction false} CrlfNeedsCr(s: string, i: nat)
    requires OccursAt(s, CRLF, i) || OccursAt(s, BLANK_LINE, i)
    ensures s[i] == '\r' && (OccursAt(s, BLANK_LINE, i) ==> s[i + 2] == '\r')
  {
    if OccursAt(s, CRLF, i) { assert s[i..i + 2][0] == s[i]; }
    if OccursAt(s, BLANK_LINE, i) { assert s[i..i + 4][0] == s[i] && s[i..i + 4][2] == s[i + 2]; }
  }

  /** There is no blank line in header fields that have no blank line in them. */
  lemma {:induction false} TailEnds(fields: seq<string>, more: string, i: nat)
    requires GoodFields(fields) && i < |Tail(fields)|
    ensures !OccursAt(Tail(fields) + (BLANK_LINE + more), BLANK_LINE, i)
    decreases |fields|
  {
    var field, rest := fields[0], Tail(fields[1..]) + (BLANK_LINE + more);
    var s, n := Tail(fields) + (BLANK_LINE + more), |field| + 2;
    assert s == CRLF + (field + rest);
    assert s[1] == '\n' && s[2] == field[0] && forall k :: 2 <= k < n ==> s[k] == field[k - 2];
    if OccursAt(s, BLANK_LINE, i) {
      CrlfNeedsCr(s, i);
      assert i >= n;
      assert s[n..] == rest && s[i..i + 4] == rest[i - n..i - n + 4];
      TailEnds(fields[1..], more, i - n);
    }
  }

  /** The blank line of such a head is behind its last line. */
  lemma {:induction false} HeadEnds(line: string, fields: seq<string>, more: string)
    requires Without(line, '\r') && GoodFields(fields)
    ensures Find(line + Tail(fields) + BLANK_LINE + more, BLANK_LINE, 0) == Some(|line + Tail(fields)|)
  {
    var n, m := |line|, |line + Tail(fields)|;
    var rest := Tail(fields) + (BLANK_LINE + more);
    var s := line + Tail(fields) + BLANK_LINE + more;
    assert s == line + rest && s[m..m + 4] == BLANK_LINE;
    assert forall i :: 0 <= i < n ==> s[i] == line[i];
    forall i | 0 <= i < m ensures !OccursAt(s, BLANK_LINE, i) {
      if OccursAt(s, BLANK_LINE, i) {
        CrlfNeedsCr(s, i);
        assert i >= n;
        assert s[n..] == rest && s[i..i + 4] == rest[i - n..i - n + 4];
        TailEnds(fields, more, i - n);
      }
    }
    FindIs(s, BLANK_LINE, 0, m);
  }

  lemma {:induction false} LineWithout(s: string)
    requires Without(s, '\r')
    ensures Find(s, CRLF, 0).None?
  {
    FindFirst(s, CRLF, 0);
    if Find(s, CRLF, 0).Some? { CrlfNeedsCr(s, Find(s, CRLF, 0).value); }
  }

  lemma {:induction false} LineOf(s: string)
    requires Without(s, '\r')
    ensures IsLine(s)
  {
    forall i ensures !OccursAt(s, CRLF, i) { if OccursAt(s, CRLF, i) { CrlfNeedsCr(s, i); } }
  }

  lemma {:induction false} NoColon(line: string)
    requires Without(line, ':')
    ensures Find(line, ":", 0).None?
  {
    FindFirst(line, ":", 0);
    forall i | 0 <= i < |line| ensures !OccursAt(line, ":", i) { assert line[i..i + 1][0] == line[i]; }
  }

  /** The fields, classified. */
  function Classified(fields: seq<string>): (r: seq<Kind>)
    ensures |r| == |fields| && forall i :: 0 <= i < |r| ==> r[i] == Classify(fields[i])
  {
    if fields == [] then [] else [Classify(fields[0])] + Classified(fields[1..])
  }

  lemma {:induction false} KindsOf(line: string, fields: seq<string>)
    requires Without(line, '\r') && line != [] && GoodFields(fields)
    ensures Kinds(Classify, line + Tail(fields)) == [Classify(line)] + Classified(fields)
    decreases |fields|
  {
    if fields == [] {
      LineWithout(line);
      assert line + Tail(fields) == line;
    } else {
      var rest := fields[0] + Tail(fields[1..]);
      assert line + Tail(fields) == line + CRLF + rest;
      FirstLine(line, rest);
      KindsOf(fields[0], fields[1..]);
      assert Classified(fields) == [Classify(fields[0])] + Classified(fields[1..]);
    }
  }

  lemma {:induction false} FirstLine(line: string, rest: string)
    requires Without(line, '\r')
    ensures Kinds(Classify, line + CRLF + rest) == [Classify(line)] + Kinds(Classify, rest)
  {
    var head := line + CRLF + rest;
    LineOf(line);
    LineEnd(line, rest);
    assert head[..|line|] == line && head[|line| + 2..] == rest;
    KindsCons(Classify, head, |line|, line, rest);
  }

  /** What a head says of the body is what its fields say. */
  lemma {:induction false} HeadFields(status: nat, reason: string, fields: seq<string>)
    requires Readable(reason) && GoodFields(fields)
    ensures Scan(Kinds(Classify, Head(status, reason, fields)), NO_FIELDS) == Scan(Classified(fields), NO_FIELDS)
  {
    var line := Line(status, reason);
    LinePlain(status, reason);
    KindsOf(line, fields);
    NoColon(line);
    assert Classify(line) == OtherLine;
    ScanCons(OtherLine, Classified(fields), NO_FIELDS);
  }

  lemma {:induction false} OneField(field: string)
    ensures Scan(Classified([field]), NO_FIELDS) == ScanLine(NO_FIELDS, Classify(field))
    ensures field != [] && Without(field, '\r') ==> GoodFields([field])
  {
    ScanCons(Classify(field), [], NO_FIELDS);
    assert Classified([field]) == [Classify(field)] + [];
  }

  // ---- its status ------------------------------------------------------------

  lemma {:induction false} DigitsEnd(s: string, n: nat)
    requires n < |s| && !IsDigit(s[n], 10) && forall k :: 0 <= k < n ==> IsDigit(s[k], 10)
    ensures SkipDigits(s, 0, 10) == n
  {
    var j := SkipDigits(s, 0, 10);
    assert forall k :: 0 <= k < j ==> s[0..j][k] == s[k] && IsDigit(s[k], 10);
  }

  /** Digits with a blank behind them. */
  lemma {:induction false} AtoiReads(n: nat, more: string)
    ensures Atoi(Digits(n, 10) + (" " + more)) == n
  {
    var d := Digits(n, 10);
    var s := d + (" " + more);
    DigitsPlain(n);
    assert s[0] == d[0] && s[|d|] == ' ' && s[0..|d|] == d;
    DigitsEnd(s, |d|);
    assert DigitsStart(s, 10) == (false, 0);
  }

  /** The status is the number in the first line, whatever comes behind it. */
  lemma {:induction false} HeadStatus(status: nat, reason: string, fields: seq<string>, more: string, previous: int)
    ensures ParseStatus(Head(status, reason, fields) + more, previous) == status
  {
    var d, s := Digits(status, 10), Head(status, reason, fields) + more;
    DigitsPlain(status);
    VersionPlain();
    FrontOfHead(status, reason, Tail(fields), more);
    var rest := reason + Tail(fields) + more;
    var v := "HTTP/1.1 ";
    assert Head(status, reason, fields) == Line(status, reason) + Tail(fields);
    assert s == v + (d + (" " + rest));
    assert |v| == 9 && forall i :: 0 <= i < 9 ==> s[i] == v[i];
    assert forall i :: 0 <= i < |d| ==> s[9 + i] == d[i];
    assert s[9 + |d|] == ' ';
    BlankAt(s, 0, 8);
    BlankAt(s, 9, 9 + |d|);
    assert s[9..] == d + (" " + rest);
    AtoiReads(status, rest);
  }

  lemma {:induction false} FrontOfHead(status: nat, reason: string, fields: string, more: string)
    ensures Line(status, reason) + fields + more ==
            "HTTP/1.1 " + (Digits(status, 10) + (" " + (reason + fields + more)))
  {}

  // ---- its field -----------------------------------------------------------

  lemma {:induction false} ColonAt(name: string, rest: string)
    requires Without(name, ':')
    ensures Find(name + ":" + rest, ":", 0) == Some(|name|)
  {
    var s := name + ":" + rest;
    assert s[|name|..|name| + 1] == ":";
    forall i | 0 <= i < |name| ensures !OccursAt(s, ":", i) { assert s[i..i + 1][0] == name[i]; }
    FindIs(s, ":", 0, |name|);
  }

  /** A field with one blank behind its colon and none around its value. */
  function Field(name: string, value: string): string { name + ":" + (" " + value) }

  predicate Solid(c: char) { c != ' ' && c != '\t' }

  lemma {:induction false} FieldParts(name: string, value: string)
    requires Without(name, ':') && value != [] && Solid(value[0]) && Solid(value[|value| - 1])
    ensures Name(Field(name, value)) == Lower(name) && Value(Field(name, value)) == value
  {
    ColonAt(name, " " + value);
    var line := Field(name, value);
    assert line[..|name|] == name && line[|name| + 1..] == " " + value;
    assert (" " + value)[1..] == value;
    assert TrimFront(value) == value && TrimFront(" " + value) == value && TrimBack(value) == value;
  }

  /** A field as one writes it: no colon in the name, no line end anywhere, no blank at the ends of the value. */
  predicate Written(name: string, value: string) {
    && Without(name, ':') && Without(name, '\r') && Without(value, '\r')
    && value != [] && Solid(value[0]) && Solid(value[|value| - 1])
  }

  ghost predicate Contains(s: string, word: string) { exists i: int :: OccursAt(s, word, i) }

  lemma {:induction false} FindContains(s: string, word: string)
    ensures Find(s, word, 0).Some? <==> Contains(s, word)
  {
    FindFirst(s, word, 0);
  }

  ghost predicate SaysChunked(name: string, value: string) {
    Lower(name) == "transfer-encoding" && Contains(Lower(value), "chunked")
  }

  ghost predicate SaysClose(name: string, value: string) {
    Lower(name) == "connection" && Contains(Lower(value), "close")
  }

  lemma {:induction false} FieldSays(name: string, value: string)
    requires Written(name, value)
    ensures Classify(Field(name, value)) == ChunkedLine <==> SaysChunked(name, value)
    ensures Classify(Field(name, value)) == CloseLine <==> SaysClose(name, value)
    ensures Classify(Field(name, value)).LengthLine? <==> Lower(name) == "content-length"
    ensures Field(name, value) != [] && Without(Field(name, value), '\r')
  {
    FieldParts(name, value);
    FieldWithout(name, value);
    FindContains(Lower(value), "chunked");
    FindContains(Lower(value), "close");
  }

  datatype Header = Header(name: string, value: string)

  function FieldsOf(headers: seq<Header>): (r: seq<string>)
    ensures |r| == |headers| && forall i :: 0 <= i < |r| ==> r[i] == Field(headers[i].name, headers[i].value)
  {
    seq(|headers|, i requires 0 <= i < |headers| => Field(headers[i].name, headers[i].value))
  }

  /** From the text of the head: a response is chunked, or closes, exactly when one of its fields says so, whatever the
      case of its letters; and without a Content-Length field it has no length. */
  lemma {:induction false} FieldsDecide(status: nat, reason: string, headers: seq<Header>)
    requires Readable(reason) && forall i :: 0 <= i < |headers| ==> Written(headers[i].name, headers[i].value)
    ensures var f := Scan(Kinds(Classify, Head(status, reason, FieldsOf(headers))), NO_FIELDS);
            && (f.chunked <==> exists i :: 0 <= i < |headers| && SaysChunked(headers[i].name, headers[i].value))
            && (f.close <==> exists i :: 0 <= i < |headers| && SaysClose(headers[i].name, headers[i].value))
            && ((forall i :: 0 <= i < |headers| ==> Lower(headers[i].name) != "content-length") ==>
                  f.length == NPOS && !f.invalid)
  {
    var fields := FieldsOf(headers);
    var kinds := Classified(fields);
    forall i | 0 <= i < |headers|
      ensures kinds[i] == ChunkedLine <==> SaysChunked(headers[i].name, headers[i].value)
      ensures kinds[i] == CloseLine <==> SaysClose(headers[i].name, headers[i].value)
      ensures kinds[i].LengthLine? <==> Lower(headers[i].name) == "content-length"
      ensures fields[i] != [] && Without(fields[i], '\r')
    {
      FieldSays(headers[i].name, headers[i].value);
    }
    HeadFields(status, reason, fields);
    ScanFlags(kinds);
    if forall i :: 0 <= i < |headers| ==> Lower(headers[i].name) != "content-length" { NoLengths(kinds); }
  }

  lemma {:induction false} NoLengths(kinds: seq<Kind>)
    requires forall i :: 0 <= i < |kinds| ==> !kinds[i].LengthLine?
    ensures Scan(kinds, NO_FIELDS).length == NPOS && !Scan(kinds, NO_FIELDS).invalid
  {
    LengthsNone(kinds);
    ScanLengths(kinds);
  }

  lemma {:induction false} LengthsNone(kinds: seq<Kind>)
    requires forall i :: 0 <= i < |kinds| ==> !kinds[i].LengthLine?
    ensures Lengths(kinds) == []
    decreases |kinds|
  {
    if kinds != [] { LengthsNone(kinds[..|kinds| - 1]); }
  }

  lemma {:induction false} FindWhole(s: string)
    ensures Find(s, s, 0) == Some(0)
  {
    assert s[0..0 + |s|] == s;
  }

  const CHUNKED_FIELD: string := Field("Transfer-Encoding", "chunked")

  lemma {:induction false} ChunkedWords()
    ensures Lower("Transfer-Encoding") == "transfer-encoding" && Lower("chunked") == "chunked"
    ensures Without("Transfer-Encoding", ':') && Without("Transfer-Encoding", '\r') && Without("chunked", '\r')
  {}

  lemma {:induction false} LengthWord()
    ensures Lower("Content-Length") == "content-length"
    ensures Without("Content-Length", ':') && Without("Content-Length", '\r')
  {}

  lemma {:induction false} FieldWithout(name: string, value: string)
    requires Without(name, '\r') && Without(value, '\r')
    ensures Without(Field(name, value), '\r')
  {}

  lemma {:induction false} ChunkedField()
    ensures Classify(CHUNKED_FIELD) == ChunkedLine && Without(CHUNKED_FIELD, '\r') && CHUNKED_FIELD != []
  {
    ChunkedWords();
    FieldParts("Transfer-Encoding", "chunked");
    FieldWithout("Transfer-Encoding", "chunked");
    FindWhole("chunked");
  }

  function LengthField(n: nat): string { Field("Content-Length", Digits(n, 10)) }

  lemma {:induction false} DigitsRead(n: nat)
    ensures LengthOf(Digits(n, 10)) == if n < TWO_TO_THE_64 then Some(n) else None
  {
    var d := Digits(n, 10);
    assert IsDigit(d[0], 10);
    assert DigitsStart(d, 10) == (false, 0);
    assert forall k :: 0 <= k < |d| ==> IsDigit(d[k], 10);
    assert SkipDigits(d, 0, 10) == |d|;
    assert d[0..|d|] == d && d[|d|..] == [];
  }

  lemma {:induction false} LengthLineReads(n: nat)
    ensures Classify(LengthField(n)) == LengthLine(if n < TWO_TO_THE_64 then Some(n) else None)
    ensures Without(LengthField(n), '\r') && LengthField(n) != []
  {
    var d := Digits(n, 10);
    assert IsDigit(d[0], 10) && IsDigit(d[|d| - 1], 10);
    LengthWord();
    FieldParts("Content-Length", d);
    FieldWithout("Content-Length", d);
    DigitsRead(n);
  }

  /** A printed Content-Length is read back, and refused from 2^64 on. The one number before that is accepted, and
      counts as no Content-Length at all. */
  lemma {:induction false} AnnouncedLength(status: nat, reason: string, n: nat)
    requires Readable(reason)
    ensures Scan(Kinds(Classify, Head(status, reason, [LengthField(n)])), NO_FIELDS) ==
            if n == TWO_TO_THE_64 - 1 then NO_FIELDS
            else if n < TWO_TO_THE_64 then NO_FIELDS.(length := n)
            else NO_FIELDS.(invalid := true)
  {
    LengthLineReads(n);
    OneField(LengthField(n));
    HeadFields(status, reason, [LengthField(n)]);
  }

  // ---- whole responses -------------------------------------------------------

  /** All that was read in one go. */
  function AllAtOnce(status: nat, reason: string, fields: seq<string>, buffer: string, after: string): Reading {
    Reading([buffer], [], Head(status, reason, fields), after, status, Scan(Classified(fields), NO_FIELDS))
  }

  lemma {:induction false} Slices(head: string, start: string, after: string)
    requires start <= after
    ensures var buffer := head + BLANK_LINE + start;
            && buffer[..|head|] == head && buffer[|head| + 4..] == start && head + (BLANK_LINE + start) == buffer
            && head + BLANK_LINE <= buffer <= head + BLANK_LINE + after
            && [] + head + BLANK_LINE + after == head + BLANK_LINE + after
            && (buffer == head + BLANK_LINE <==> start == [])
  {}

  lemma {:induction false} OneBuffer(buffer: string, status: nat)
    requires ParseStatus(buffer, 0) == status
    ensures HeadChain(ParseStatus, [buffer], []) && StatusOf(ParseStatus, [buffer]) == status && Flatten([]) == []
  {
    assert [buffer][..0] == [];
  }

  lemma {:induction false} OneRead(buffer: string)
    requires |buffer| <= BUFFER_SIZE
    ensures HeadJustIn([], buffer)
  {
    assert buffer[..0] == [];
    if buffer != [] { assert HeadBefore([], buffer, 0); }
  }

  function Buffer(status: nat, reason: string, fields: seq<string>, start: string): string {
    Head(status, reason, fields) + BLANK_LINE + start
  }

  lemma {:induction false} ReadAtOnce(status: nat, reason: string, fields: seq<string>, start: string, after: string)
    requires Readable(reason) && !Interim(status) && GoodFields(fields) && start <= after
    requires |Buffer(status, reason, fields, start)| <= BUFFER_SIZE
    ensures var buffer := Buffer(status, reason, fields, start);
            var r := AllAtOnce(status, reason, fields, buffer, after);
            && HeadJustIn([], buffer) && buffer[|r.head| + 4..] == start && r.head + BLANK_LINE <= buffer
            && (buffer == r.head + BLANK_LINE <==> start == [])
            && Find(buffer, BLANK_LINE, 0) == Some(|r.head|)
            && Read(ParseStatus, r, Flatten(r.cuts) + r.head + BLANK_LINE + r.after)
  {
    var head := Head(status, reason, fields);
    var buffer := head + BLANK_LINE + start;
    LinePlain(status, reason);
    HeadEnds(Line(status, reason), fields, start);
    HeadFields(status, reason, fields);
    HeadStatus(status, reason, fields, BLANK_LINE + start, 0);
    Slices(head, start, after);
    OneBuffer(buffer, status);
    OneRead(buffer);
  }

  /** The response to this method is accepted when its head came with these bytes behind it, and those were read in
      all. */
  ghost predicate AcceptedWith(method_: string, status: nat, reason: string, fields: seq<string>, start: string,
                               after: string, body: string, maxBody: nat) {
    var buffer := Buffer(status, reason, fields, start);
    Accepted(AllAtOnce(status, reason, fields, buffer, after), NoBody(method_, status), buffer, body, maxBody)
  }

  /** A status and a method whose response may have a body. */
  predicate MayHaveBody(method_: string, status: nat) {
    method_ != "HEAD" && !(100 <= status <= 199) && status != 204 && status != 304
  }

  /** For every chunked message and every rest, if one read brings it all: the response is accepted, its body is right,
      its connection is kept, and the rest is lost. */
  lemma {:induction false} RestLost(method_: string, status: nat, reason: string, pieces: seq<Piece>, x: string,
                                    trailers: seq<string>, rest: string, maxBody: nat)
    requires Readable(reason) && MayHaveBody(method_, status)
    requires forall i :: 0 <= i < |pieces| ==>
              0 < |pieces[i].data| < TWO_TO_THE_64 && GoodExtension(pieces[i].extension)
    requires GoodExtension(x) && GoodTrailers(trailers) && |Join(pieces)| <= maxBody
    requires |Buffer(status, reason, [CHUNKED_FIELD], Wire(Encode(pieces, x, trailers)) + rest)| <= BUFFER_SIZE
    ensures var m := Encode(pieces, x, trailers); var after := Wire(m) + rest;
            var buffer := Buffer(status, reason, [CHUNKED_FIELD], after);
            var r := AllAtOnce(status, reason, [CHUNKED_FIELD], buffer, after);
            && HeadJustIn([], buffer) && BodyJustIn(after, after)
            && Success(ParseStatus, r, NoBody(method_, status), Join(pieces), maxBody)
            && AcceptedWith(method_, status, reason, [CHUNKED_FIELD], after, after, Join(pieces), maxBody)
            && !r.fields.close && r.fields.chunked && InFront(ChunkSize, r.after, m, rest, Join(pieces))
  {
    var m := Encode(pieces, x, trailers);
    ChunkedField();
    OneField(CHUNKED_FIELD);
    RoundTrip(Join(pieces), pieces, x, trailers, rest);
    EncodeBody(pieces, x, trailers);
    GoodEncode(pieces, x, trailers);
    ChunkedAtOnce(method_, status, reason, [CHUNKED_FIELD], m, rest, Join(pieces), maxBody);
  }

  lemma {:induction false} ChunkedAtOnce(method_: string, status: nat, reason: string, fields: seq<string>, m: Message,
                                         rest: string, body: string, maxBody: nat)
    requires Readable(reason) && MayHaveBody(method_, status) && GoodFields(fields) && |body| <= maxBody
    requires Scan(Classified(fields), NO_FIELDS).chunked && !Scan(Classified(fields), NO_FIELDS).invalid
    requires Decode(ChunkSize, Wire(m) + rest) == Decoded(Complete, body)
    requires |Buffer(status, reason, fields, Wire(m) + rest)| <= BUFFER_SIZE
    ensures var after := Wire(m) + rest;
            var buffer := Buffer(status, reason, fields, after);
            var r := AllAtOnce(status, reason, fields, buffer, after);
            && HeadJustIn([], buffer) && BodyJustIn(after, after)
            && Success(ParseStatus, r, NoBody(method_, status), body, maxBody)
            && AcceptedWith(method_, status, reason, fields, after, after, body, maxBody)
            && r.fields == Scan(Classified(fields), NO_FIELDS) && r.after == after
  {
    var after := Wire(m) + rest;
    var buffer := Buffer(status, reason, fields, after);
    var r := AllAtOnce(status, reason, fields, buffer, after);
    ReadAtOnce(status, reason, fields, after, after);
    ChunkedDecides(ParseStatus, r, buffer, body, maxBody);
  }

  /** What is enough for a response framed by chunks, whatever its head. */
  lemma {:induction false} ChunkedDecides(statusIn: StatusReader, r: Reading, buffer: string, body: string,
                                          maxBody: nat)
    requires Read(statusIn, r, Flatten(r.cuts) + r.head + BLANK_LINE + r.after)
    requires Find(buffer, BLANK_LINE, 0) == Some(|r.head|) && r.head + BLANK_LINE <= buffer
    requires |r.after| <= |buffer| <= BUFFER_SIZE && r.fields.chunked && !r.fields.invalid
    requires Decode(ChunkSize, r.after) == Decoded(Complete, body) && |body| <= maxBody
    ensures Accepted(r, false, buffer, body, maxBody) && Success(statusIn, r, false, body, maxBody)
  {
    AcceptedExactly(r, buffer, body, maxBody);
  }

  lemma {:induction false} GoodEncode(pieces: seq<Piece>, x: string, trailers: seq<string>)
    requires forall i :: 0 <= i < |pieces| ==>
              0 < |pieces[i].data| < TWO_TO_THE_64 && GoodExtension(pieces[i].extension)
    requires GoodExtension(x) && GoodTrailers(trailers)
    ensures GoodMessage(ChunkSize, Encode(pieces, x, trailers))
  {
    forall i | 0 <= i < |pieces| ensures GoodChunk(ChunkSize, Encode(pieces, x, trailers).chunks[i]) {
      SizeLineReads(|pieces[i].data|, pieces[i].extension);
    }
    SizeLineReads(0, x);
  }

  /** A response with a printed Content-Length. When it may have a body, it is accepted exactly with that many bytes,
      none of which is one too many in the read that brought the head. A response to HEAD, or with status 204 or 304,
      is accepted exactly when nothing came with its head, and that is all of it, whatever the length says. */
  lemma {:induction false} LengthDecides(method_: string, status: nat, reason: string, n: nat, start: string,
                                         after: string, body: string, maxBody: nat)
    requires Readable(reason) && !(100 <= status <= 199) && n < NPOS && start <= after
    requires |Buffer(status, reason, [LengthField(n)], start)| <= BUFFER_SIZE
    ensures HeadJustIn([], Buffer(status, reason, [LengthField(n)], start))
    ensures AcceptedWith(method_, status, reason, [LengthField(n)], start, after, body, maxBody) <==>
              if method_ == "HEAD" || status == 204 || status == 304 then start == after == body == []
              else |start| <= n <= maxBody && n == |after| && body == after
  {
    var fields := [LengthField(n)];
    var buffer := Buffer(status, reason, fields, start);
    LengthLineReads(n);
    OneField(LengthField(n));
    ReadAtOnce(status, reason, fields, start, after);
    AcceptedExactly(AllAtOnce(status, reason, fields, buffer, after), buffer, body, maxBody);
  }

  /** For every body and every rest behind it: when the head comes with just the body, the response is accepted; when it
      comes with any of the rest as well, it is refused, whatever is read after that. */
  lemma {:induction false} CutDecides(method_: string, status: nat, reason: string, body: string, rest: string,
                                      after: string, maxBody: nat, claimed: string)
    requires Readable(reason) && MayHaveBody(method_, status)
    requires rest != [] && |body| <= maxBody && body + rest <= after
    requires |Buffer(status, reason, [LengthField(|body|)], body + rest)| <= BUFFER_SIZE
    ensures var fields := [LengthField(|body|)];
            && HeadJustIn([], Buffer(status, reason, fields, body))
            && AcceptedWith(method_, status, reason, fields, body, body, body, maxBody)
            && HeadJustIn([], Buffer(status, reason, fields, body + rest))
            && !AcceptedWith(method_, status, reason, fields, body + rest, after, claimed, maxBody)
  {
    LengthDecides(method_, status, reason, |body|, body, body, body, maxBody);
    LengthDecides(method_, status, reason, |body|, body + rest, after, claimed, maxBody);
  }
}
