/** The JSON string escaper of the Android bridge, over all byte strings.
    JSON strings are section 7 of RFC 8259, UTF-8 is section 4 of RFC 3629. */
module JsonEscape {
  import opened Text

  type byte = b: int | 0 <= b < 256

  const QUOTE: byte := 0x22
  const BACKSLASH: byte := 0x5c

  // ---- UTF-8, defined from code points ----------------------------------

  predicate Scalar(c: int) { 0 <= c < 0x11_0000 && !(0xd800 <= c < 0xe000) }

  /** The bytes of one code point. */
  function Utf8(c: int): (s: seq<byte>)
    requires Scalar(c)
    ensures 1 <= |s| <= 4
  {
    if c < 0x80 then [c]
    else if c < 0x800 then [0xc0 + c / 64, 0x80 + c % 64]
    else if c < 0x1_0000 then [0xe0 + c / 4096, 0x80 + c / 64 % 64, 0x80 + c % 64]
    else [0xf0 + c / 262144, 0x80 + c / 4096 % 64, 0x80 + c / 64 % 64, 0x80 + c % 64]
  }

  /** Well-formed UTF-8: the bytes of a sequence of code points. */
  ghost predicate WellFormed(s: seq<byte>)
    decreases |s|
  {
    s == [] || exists c :: Scalar(c) && Utf8(c) <= s && WellFormed(s[|Utf8(c)|..])
  }

  // ---- the code's own test ----------------------------------------------

  predicate Continuation(b: byte) { 0x80 <= b <= 0xbf }

  /** utf8_length: how many bytes the sequence at `i` has, 0 when it is not one. */
  function Utf8Length(data: seq<byte>, i: nat): (n: nat)
    requires i < |data|
    ensures n <= 4 && i + n <= |data|
  {
    var first := data[i];
    if 0xc2 <= first <= 0xdf then
      if i + 1 < |data| && Continuation(data[i + 1]) then 2 else 0
    else if 0xe0 <= first <= 0xef && i + 2 < |data| then
      var second := data[i + 1];
      var secondOk := if first == 0xe0 then 0xa0 <= second <= 0xbf
                      else if first == 0xed then 0x80 <= second <= 0x9f
                      else Continuation(second);
      if secondOk && Continuation(data[i + 2]) then 3 else 0
    else if 0xf0 <= first <= 0xf4 && i + 3 < |data| then
      var second := data[i + 1];
      var secondOk := if first == 0xf0 then 0x90 <= second <= 0xbf
                      else if first == 0xf4 then 0x80 <= second <= 0x8f
                      else Continuation(second);
      if secondOk && Continuation(data[i + 2]) && Continuation(data[i + 3]) then 4 else 0
    else if first < 0x80 then 1 else 0
  }

  /** The code point a sequence of that length stands for. */
  function CodePoint(s: seq<int>, n: nat): int
    requires 1 <= n <= 4 && n <= |s|
  {
    if n == 1 then s[0]
    else if n == 2 then (s[0] - 0xc0) * 64 + (s[1] - 0x80)
    else if n == 3 then (s[0] - 0xe0) * 4096 + (s[1] - 0x80) * 64 + (s[2] - 0x80)
    else (s[0] - 0xf0) * 262144 + (s[1] - 0x80) * 4096 + (s[2] - 0x80) * 64 + (s[3] - 0x80)
  }

  lemma {:induction false} SixBits(high: nat, low: nat)
    requires low < 64
    ensures (high * 64 + low) / 64 == high && (high * 64 + low) % 64 == low
  {}

  lemma {:induction false} Groups(high: nat, b: nat, c: nat, d: nat)
    requires b < 64 && c < 64 && d < 64
    ensures var v := ((high * 64 + b) * 64 + c) * 64 + d;
            v % 64 == d && v / 64 % 64 == c && v / 4096 % 64 == b && v / 4096 == high * 64 + b && v / 262144 == high
  {
    SixBits(high, b);
    SixBits(high * 64 + b, c);
    SixBits((high * 64 + b) * 64 + c, d);
  }

  lemma {:induction false} ThreeBytes(a: byte, b: byte, c: byte)
    requires 0xe0 <= a <= 0xef && Continuation(b) && Continuation(c) && (a == 0xe0 ==> b >= 0xa0)
    requires (a == 0xed ==> b <= 0x9f)
    ensures var v := CodePoint([a, b, c], 3); Scalar(v) && Utf8(v) == [a, b, c]
  {
    Groups(0, a - 0xe0, b - 0x80, c - 0x80);
  }

  lemma {:induction false} FourBytes(a: byte, b: byte, c: byte, d: byte)
    requires 0xf0 <= a <= 0xf4 && Continuation(b) && Continuation(c) && Continuation(d)
    requires (a == 0xf0 ==> b >= 0x90) && (a == 0xf4 ==> b <= 0x8f)
    ensures var v := CodePoint([a, b, c, d], 4); Scalar(v) && Utf8(v) == [a, b, c, d]
  {
    Groups(a - 0xf0, b - 0x80, c - 0x80, d - 0x80);
  }

  /** The code's byte tables accept exactly the encodings of code points. */
  lemma {:induction false} Utf8LengthSound(s: seq<byte>)
    requires s != [] && Utf8Length(s, 0) > 0
    ensures var n := Utf8Length(s, 0); var c := CodePoint(s, n);
            Scalar(c) && Utf8(c) == s[..n]
  {
    match Utf8Length(s, 0)
    case 1 =>
    case 2 => SixBits(s[0] - 0xc0, s[1] - 0x80);
    case 3 => ThreeBytes(s[0], s[1], s[2]);
    case 4 => FourBytes(s[0], s[1], s[2], s[3]);
  }

  lemma {:induction false} FirstStays(a: seq<byte>, b: seq<byte>)
    requires a != [] && Utf8Length(a, 0) > 0
    ensures Utf8Length(a + b, 0) == Utf8Length(a, 0)
    ensures (a + b)[Utf8Length(a, 0)..] == a[Utf8Length(a, 0)..] + b
  {}

  /** The top group of a code point and the one below it. */
  lemma {:induction false} TopGroups(c: nat)
    ensures c / 64 % 64 == c / 64 - c / 4096 * 64 && c / 4096 % 64 == c / 4096 - c / 262144 * 64
  {}

  lemma {:induction false} AcceptedAlone(c: int)
    requires Scalar(c)
    ensures Utf8Length(Utf8(c), 0) == |Utf8(c)|
  {
    TopGroups(c);
  }

  lemma {:induction false} Utf8LengthComplete(c: int, s: seq<byte>)
    requires Scalar(c) && Utf8(c) <= s
    ensures Utf8Length(s, 0) == |Utf8(c)|
  {
    var u := Utf8(c);
    AcceptedAlone(c);
    FirstStays(u, s[|u|..]);
    assert s == u + s[|u|..];
  }

  /** A non-empty well-formed text goes on with a sequence the code accepts, and stays well-formed after it. */
  lemma {:induction false} WellFormedStep(s: seq<byte>)
    requires s != []
    ensures WellFormed(s) <==> Utf8Length(s, 0) > 0 && WellFormed(s[Utf8Length(s, 0)..])
  {
    if WellFormed(s) {
      var c :| Scalar(c) && Utf8(c) <= s && WellFormed(s[|Utf8(c)|..]);
      Utf8LengthComplete(c, s);
    }
    if Utf8Length(s, 0) > 0 && WellFormed(s[Utf8Length(s, 0)..]) {
      Utf8LengthSound(s);
      var c := CodePoint(s, Utf8Length(s, 0));
      assert Utf8(c) <= s;
    }
  }

  lemma {:induction false} WellFormedAppend(a: seq<byte>, b: seq<byte>)
    requires WellFormed(a) && WellFormed(b)
    ensures WellFormed(a + b)
    decreases |a|
  {
    if a == [] {
      assert a + b == b;
    } else {
      WellFormedStep(a);
      FirstStays(a, b);
      var n := Utf8Length(a, 0);
      WellFormedAppend(a[n..], b);
      WellFormedStep(a + b);
    }
  }

  lemma {:induction false} AsciiWellFormed(s: seq<byte>)
    requires forall k :: 0 <= k < |s| ==> s[k] < 0x80
    ensures WellFormed(s)
    decreases |s|
  {
    if s != [] {
      AsciiWellFormed(s[1..]);
      assert Utf8(s[0]) == [s[0]] && Utf8(s[0]) <= s;
    }
  }

  // ---- the escaper -------------------------------------------------------

  function HexDigit(d: nat): byte
    requires d < 16
  {
    if d < 10 then 0x30 + d else 0x61 + d - 10
  }

  /** The letter after the backslash of a short escape. */
  function Short(b: byte): (letter: byte)
  {
    if b == 0x22 then 0x22 else if b == 0x5c then 0x5c
    else if b == 0x08 then 0x62 else if b == 0x0c then 0x66 else if b == 0x0a then 0x6e
    else if b == 0x0d then 0x72 else if b == 0x09 then 0x74 else 0
  }

  function UnicodeEscape(b: byte): seq<byte> {
    [BACKSLASH, 0x75, 0x30, 0x30, HexDigit(b / 16), HexDigit(b % 16)]
  }

  /** How many input bytes the step at `i` consumes, and what it writes. */
  function Taken(s: seq<byte>, i: nat): (n: nat)
    requires i < |s|
    ensures 1 <= n && i + n <= |s|
  {
    if s[i] >= 0x80 && Utf8Length(s, i) > 0 then Utf8Length(s, i) else 1
  }

  function Written(s: seq<byte>, i: nat): seq<byte>
    requires i < |s|
  {
    var b := s[i];
    if Short(b) != 0 then [BACKSLASH, Short(b)]
    else if b < 0x20 then UnicodeEscape(b)
    else if b < 0x80 then [b]
    else if Utf8Length(s, i) > 0 then s[i..i + Utf8Length(s, i)]
    else UnicodeEscape(b)
  }

  function Escape(s: seq<byte>): seq<byte> {
    if s == [] then [] else Written(s, 0) + Escape(s[Taken(s, 0)..])
  }

  /** What json_escape has written after the bytes before `i`. */
  ghost predicate Midway(s: seq<byte>, i: nat, escaped: seq<byte>) {
    i <= |s| && Escape(s) == escaped + Escape(s[i..])
  }

  lemma {:induction false} EscapeStep(before: seq<byte>, s: seq<byte>, i: nat)
    requires i < |s| && Midway(s, i, before)
    ensures Midway(s, i + Taken(s, i), before + Written(s, i))
  {
    var t, n := s[i..], Taken(s, i);
    StepInDrop(s, i);
    assert t[n..] == s[i + n..];
    Regroup(before, Written(s, i), Escape(s[i + n..]));
  }

  lemma {:induction false} Regroup(a: seq<byte>, b: seq<byte>, c: seq<byte>)
    ensures a + (b + c) == a + b + c
  {}

  lemma {:induction false} StepInDrop(s: seq<byte>, i: nat)
    requires i < |s|
    ensures Taken(s[i..], 0) == Taken(s, i) && Written(s[i..], 0) == Written(s, i)
  {
    var t := s[i..];
    assert Utf8Length(s, i) == Utf8Length(t, 0);
    assert t[0..Taken(s, i)] == s[i..i + Taken(s, i)];
  }

  /** One round of json_escape's loop: what is appended, and where the next round starts. */
  method EscapeOne(data: seq<byte>, i: nat) returns (piece: seq<byte>, next: nat)
    requires i < |data|
    ensures piece == Written(data, i) && next == i + Taken(data, i)
  {
    var ch := data[i];
    next := i;
    if Short(ch) != 0 {
      piece := [BACKSLASH, Short(ch)];
    } else if ch < 0x20 {
      piece := UnicodeEscape(ch);
    } else if ch >= 0x80 {
      var length := Utf8Length(data, i);
      if length > 0 {
        piece := data[i..i + length];
        next := i + length - 1;
      } else {
        piece := UnicodeEscape(ch);
      }
    } else {
      piece := [ch];
    }
    next := next + 1;
  }

  /** json_escape: one pass over the bytes, skipping the tail of each accepted sequence. */
  method JsonEscape(data: seq<byte>) returns (escaped: seq<byte>)
    ensures escaped == Escape(data)
  {
    escaped := [];
    var i := 0;
    assert Midway(data, 0, []) by { assert data[0..] == data; }
    while i < |data|
      invariant Midway(data, i, escaped)
    {
      EscapeStep(escaped, data, i);
      var piece, next := EscapeOne(data, i);
      escaped := escaped + piece;
      i := next;
    }
    assert data[i..] == [];
  }

  // ---- what a JSON reader makes of it ------------------------------------

  datatype Token = Raw(b: byte) | Escaped(b: byte) | CodeUnit(v: nat)

  function HexValue(b: byte): int {
    if 0x30 <= b <= 0x39 then b - 0x30
    else if 0x61 <= b <= 0x66 then b - 0x61 + 10
    else if 0x41 <= b <= 0x46 then b - 0x41 + 10
    else -1
  }

  /** What the letter after a backslash stands for. */
  function Unshort(letter: byte): Option<byte> {
    if letter == 0x22 || letter == 0x5c || letter == 0x2f then Some(letter)
    else if letter == 0x62 then Some(0x08) else if letter == 0x66 then Some(0x0c)
    else if letter == 0x6e then Some(0x0a) else if letter == 0x72 then Some(0x0d)
    else if letter == 0x74 then Some(0x09) else None
  }

  /** The token at the front of a string's contents with its length; none at a quote, at a raw
      control byte or at a malformed escape. */
  function Next(t: seq<byte>): (r: Option<(Token, nat)>)
    requires t != []
    ensures r.Some? ==> 1 <= r.value.1 <= |t|
  {
    if t[0] == QUOTE || t[0] < 0x20 then None
    else if t[0] != BACKSLASH then Some((Raw(t[0]), 1))
    else if |t| < 2 then None
    else if Unshort(t[1]).Some? then Some((Escaped(Unshort(t[1]).value), 2))
    else if t[1] == 0x75 && |t| >= 6
            && HexValue(t[2]) >= 0 && HexValue(t[3]) >= 0 && HexValue(t[4]) >= 0 && HexValue(t[5]) >= 0 then
      Some((CodeUnit(HexValue(t[2]) * 4096 + HexValue(t[3]) * 256 + HexValue(t[4]) * 16 + HexValue(t[5])), 6))
    else None
  }

  /** Reads a string's contents up to the closing quote: its tokens and what follows the quote. */
  function Lex(t: seq<byte>): Option<(seq<Token>, seq<byte>)>
    decreases |t|
  {
    if t == [] then None
    else if t[0] == QUOTE then Some(([], t[1..]))
    else match Next(t)
         case None => None
         case Some((token, n)) =>
           match Lex(t[n..])
           case None => None
           case Some((tokens, rest)) => Some(([token] + tokens, rest))
  }

  /** The tokens the escaper's output consists of. */
  function Tokens(s: seq<byte>): seq<Token> {
    if s == [] then [] else StepTokens(s) + Tokens(s[Taken(s, 0)..])
  }

  function RawTokens(s: seq<byte>): seq<Token> {
    if s == [] then [] else [Raw(s[0])] + RawTokens(s[1..])
  }

  function StepTokens(s: seq<byte>): seq<Token>
    requires s != []
  {
    var b := s[0];
    if Short(b) != 0 then [Escaped(b)]
    else if b < 0x20 then [CodeUnit(b)]
    else if b < 0x80 then [Raw(b)]
    else if Utf8Length(s, 0) > 0 then RawTokens(s[..Utf8Length(s, 0)])
    else [CodeUnit(b)]
  }

  function Prepend(tokens: seq<Token>, r: Option<(seq<Token>, seq<byte>)>): Option<(seq<Token>, seq<byte>)> {
    match r case None => None case Some((more, rest)) => Some((tokens + more, rest))
  }

  lemma {:induction false} PrependTwice(a: seq<Token>, b: seq<Token>, r: Option<(seq<Token>, seq<byte>)>)
    ensures Prepend(a, Prepend(b, r)) == Prepend(a + b, r) && Prepend([], r) == r
  {
    if r.Some? {
      assert a + (b + r.value.0) == (a + b) + r.value.0;
      assert [] + r.value.0 == r.value.0;
    }
  }

  lemma {:induction false} LexOne(token: Token, front: seq<byte>, t: seq<byte>)
    requires front != [] && front[0] != QUOTE && Next(front + t) == Some((token, |front|))
    ensures Lex(front + t) == Prepend([token], Lex(t))
  {
    assert (front + t)[|front|..] == t;
  }

  lemma {:induction false} LexRaw(s: seq<byte>, t: seq<byte>)
    requires forall k :: 0 <= k < |s| ==> s[k] >= 0x80
    ensures Lex(s + t) == Prepend(RawTokens(s), Lex(t))
    decreases |s|
  {
    if s == [] {
      assert s + t == t;
      PrependTwice([], [], Lex(t));
    } else {
      LexRaw(s[1..], t);
      assert s + t == [s[0]] + (s[1..] + t);
      LexOne(Raw(s[0]), [s[0]], s[1..] + t);
      PrependTwice([Raw(s[0])], RawTokens(s[1..]), Lex(t));
    }
  }

  lemma {:induction false} LexUnicode(b: byte, t: seq<byte>)
    ensures Lex(UnicodeEscape(b) + t) == Prepend([CodeUnit(b)], Lex(t))
  {
    var e := UnicodeEscape(b);
    assert forall k :: 0 <= k < 6 ==> (e + t)[k] == e[k];
    LexOne(CodeUnit(b), e, t);
  }

  lemma {:induction false} LexStep(s: seq<byte>, t: seq<byte>)
    requires s != []
    ensures Lex(Written(s, 0) + t) == Prepend(StepTokens(s), Lex(t))
  {
    var b := s[0];
    if Short(b) != 0 {
      assert ([BACKSLASH, Short(b)] + t)[1] == Short(b);
      LexOne(Escaped(b), [BACKSLASH, Short(b)], t);
    } else if b < 0x20 || (b >= 0x80 && Utf8Length(s, 0) == 0) {
      LexUnicode(b, t);
    } else if b < 0x80 {
      LexOne(Raw(b), [b], t);
    } else {
      LexRaw(s[..Utf8Length(s, 0)], t);
    }
  }

  /** A JSON lexer stops exactly at the closing quote, for every input and whatever follows. */
  lemma {:induction false} LexEscape(s: seq<byte>, rest: seq<byte>)
    ensures Lex(Escape(s) + [QUOTE] + rest) == Some((Tokens(s), rest))
    decreases |s|
  {
    if s == [] {
      assert Escape(s) + [QUOTE] + rest == [QUOTE] + rest;
    } else {
      var tail := s[Taken(s, 0)..];
      LexEscape(tail, rest);
      LexStep(s, Escape(tail) + [QUOTE] + rest);
      assert Escape(s) + [QUOTE] + rest == Written(s, 0) + (Escape(tail) + [QUOTE] + rest);
    }
  }

  /** A reader that takes code units below 256 as bytes. */
  function Bytes(tokens: seq<Token>): Option<seq<byte>> {
    if tokens == [] then Some([])
    else
      var b := match tokens[0] case Raw(b) => b case Escaped(b) => b case CodeUnit(v) => v;
      if b >= 256 then None
      else match Bytes(tokens[1..]) case None => None case Some(more) => Some([b as byte] + more)
  }

  lemma {:induction false} RawBytes(s: seq<byte>)
    ensures Bytes(RawTokens(s)) == Some(s)
    decreases |s|
  {
    if s != [] {
      RawBytes(s[1..]);
      assert RawTokens(s)[1..] == RawTokens(s[1..]);
      assert s == [s[0]] + s[1..];
    }
  }

  lemma {:induction false} BytesSplit(a: seq<Token>, x: seq<byte>)
    requires Bytes(a) == Some(x) && a != []
    ensures x != [] && Bytes(a[1..]) == Some(x[1..])
  {}

  lemma {:induction false} BytesJoin(t: Token, a: seq<Token>, b: byte, x: seq<byte>)
    requires Bytes(a) == Some(x)
    requires (match t case Raw(v) => v == b case Escaped(v) => v == b case CodeUnit(v) => v == b as nat)
    ensures Bytes([t] + a) == Some([b] + x)
  {
    assert ([t] + a)[1..] == a;
  }

  lemma {:induction false} FirstAndRest<T>(a: seq<T>, b: seq<T>)
    requires a != []
    ensures a + b == [a[0]] + (a[1..] + b)
  {}

  lemma {:induction false} BytesAppend(a: seq<Token>, b: seq<Token>, x: seq<byte>, y: seq<byte>)
    requires Bytes(a) == Some(x) && Bytes(b) == Some(y)
    ensures Bytes(a + b) == Some(x + y)
    decreases |a|
  {
    if a == [] {
      assert a + b == b && x + y == y;
    } else {
      BytesSplit(a, x);
      BytesAppend(a[1..], b, x[1..], y);
      BytesJoin(a[0], a[1..] + b, x[0], x[1..] + y);
      FirstAndRest(a, b);
      FirstAndRest(x, y);
    }
  }

  lemma {:induction false} BytesOfStep(s: seq<byte>)
    requires s != []
    ensures Bytes(StepTokens(s)) == Some(s[..Taken(s, 0)])
  {
    if s[0] >= 0x80 && Utf8Length(s, 0) > 0 {
      RawBytes(s[..Utf8Length(s, 0)]);
    } else {
      BytesJoin(StepTokens(s)[0], [], s[0], []);
      assert s[..1] == [s[0]] + [];
    }
  }

  /** Read back byte by byte, the escaped text is the input: nothing is lost or confused. */
  lemma {:induction false} BytesOfTokens(s: seq<byte>)
    ensures Bytes(Tokens(s)) == Some(s)
    decreases |s|
  {
    if s != [] {
      var n := Taken(s, 0);
      BytesOfTokens(s[n..]);
      BytesOfStep(s);
      BytesGlue(StepTokens(s), Tokens(s[n..]), s, n);
    }
  }

  lemma {:induction false} BytesGlue(a: seq<Token>, b: seq<Token>, s: seq<byte>, n: nat)
    requires n <= |s| && Bytes(a) == Some(s[..n]) && Bytes(b) == Some(s[n..])
    ensures Bytes(a + b) == Some(s)
  {
    BytesAppend(a, b, s[..n], s[n..]);
    assert s[..n] + s[n..] == s;
  }

  /** So the escaper is injective. */
  lemma {:induction false} EscapeInjective(a: seq<byte>, b: seq<byte>)
    requires Escape(a) == Escape(b)
    ensures a == b
  {
    LexEscape(a, []);
    LexEscape(b, []);
    BytesOfTokens(a);
    BytesOfTokens(b);
  }

  // ---- the standard reading ----------------------------------------------

  /** Code units are UTF-16; a lone surrogate has no meaning. Other bytes stand for themselves. */
  function Standard(tokens: seq<Token>): Option<seq<byte>>
    decreases |tokens|
  {
    if tokens == [] then Some([])
    else
      match tokens[0]
      case Raw(b) => Cons([b], Standard(tokens[1..]))
      case Escaped(b) => Cons([b], Standard(tokens[1..]))
      case CodeUnit(v) =>
        if Scalar(v) then Cons(Utf8(v), Standard(tokens[1..]))
        else if 0xd800 <= v < 0xdc00 && |tokens| > 1 && tokens[1].CodeUnit? && 0xdc00 <= tokens[1].v < 0xe000 then
          Cons(Utf8(0x1_0000 + (v - 0xd800) * 1024 + (tokens[1].v - 0xdc00)), Standard(tokens[2..]))
        else None
  }

  function Cons(front: seq<byte>, r: Option<seq<byte>>): Option<seq<byte>> {
    match r case None => None case Some(more) => Some(front + more)
  }

  lemma {:induction false} ConsTwice(a: seq<byte>, b: seq<byte>, r: Option<seq<byte>>)
    ensures Cons(a, Cons(b, r)) == Cons(a + b, r) && Cons([], r) == r
  {
    if r.Some? { assert a + (b + r.value) == (a + b) + r.value && [] + r.value == r.value; }
  }

  lemma {:induction false} StandardRawOne(b: byte, tokens: seq<Token>)
    ensures Standard([Raw(b)] + tokens) == Cons([b], Standard(tokens))
  {
    assert ([Raw(b)] + tokens)[1..] == tokens;
  }

  lemma {:induction false} RawCons(s: seq<byte>, tokens: seq<Token>)
    requires s != []
    ensures RawTokens(s) + tokens == [Raw(s[0])] + (RawTokens(s[1..]) + tokens)
    ensures [s[0]] + s[1..] == s
  {}

  lemma {:induction false} StandardRaw(s: seq<byte>, tokens: seq<Token>)
    ensures Standard(RawTokens(s) + tokens) == Cons(s, Standard(tokens))
    decreases |s|
  {
    if s == [] {
      assert RawTokens(s) + tokens == tokens;
      ConsTwice([], [], Standard(tokens));
    } else {
      StandardRaw(s[1..], tokens);
      RawCons(s, tokens);
      StandardRawOne(s[0], RawTokens(s[1..]) + tokens);
      ConsTwice([s[0]], s[1..], Standard(tokens));
    }
  }

  /** What the standard reading makes of the bytes a step consumes. */
  function Repaired(s: seq<byte>): seq<byte>
    requires s != []
  {
    if s[0] < 0x80 then [s[0]]
    else if Utf8Length(s, 0) > 0 then s[..Utf8Length(s, 0)]
    else Utf8(s[0])
  }

  lemma {:induction false} StandardStep(s: seq<byte>)
    requires s != []
    ensures Standard(Tokens(s)) == Cons(Repaired(s), Standard(Tokens(s[Taken(s, 0)..])))
  {
    var rest := Tokens(s[Taken(s, 0)..]);
    if s[0] >= 0x80 && Utf8Length(s, 0) > 0 {
      StandardRaw(s[..Utf8Length(s, 0)], rest);
    } else {
      assert Tokens(s)[1..] == rest;
    }
  }

  lemma {:induction false} StepWellFormed(s: seq<byte>)
    requires s != []
    ensures WellFormed(Repaired(s)) && WellFormed(Written(s, 0))
  {
    if s[0] >= 0x80 && Utf8Length(s, 0) > 0 {
      Utf8LengthSound(s);
      OneWellFormed(CodePoint(s, Utf8Length(s, 0)));
    } else {
      OneWellFormed(s[0]);
      AsciiWellFormed(Written(s, 0));
    }
  }

  lemma {:induction false} OneWellFormed(c: int)
    requires Scalar(c)
    ensures WellFormed(Utf8(c))
  {
    assert Utf8(c)[|Utf8(c)|..] == [];
  }

  /** Whatever the input bytes, the output is well-formed UTF-8. */
  lemma {:induction false} EscapeWellFormed(s: seq<byte>)
    ensures WellFormed(Escape(s))
    decreases |s|
  {
    if s != [] {
      EscapeWellFormed(s[Taken(s, 0)..]);
      StepWellFormed(s);
      WellFormedAppend(Written(s, 0), Escape(s[Taken(s, 0)..]));
    }
  }

  /** The standard reading always succeeds with well-formed text, and gives well-formed input back. */
  lemma {:induction false} StandardReads(s: seq<byte>)
    ensures Standard(Tokens(s)).Some? && WellFormed(Standard(Tokens(s)).value)
    ensures WellFormed(s) ==> Standard(Tokens(s)).value == s
    decreases |s|
  {
    if s != [] {
      var n := Taken(s, 0);
      StandardReads(s[n..]);
      StandardStep(s);
      StepWellFormed(s);
      WellFormedAppend(Repaired(s), Standard(Tokens(s[n..])).value);
      if WellFormed(s) {
        WellFormedStep(s);
        NothingRepaired(s);
      }
    }
  }

  lemma {:induction false} NothingRepaired(s: seq<byte>)
    requires s != [] && Utf8Length(s, 0) > 0
    ensures Taken(s, 0) == Utf8Length(s, 0) && Repaired(s) + s[Taken(s, 0)..] == s
  {}

  /** The standard JSON reading recovers the input exactly when the input is well-formed UTF-8. */
  lemma {:induction false} StandardExactly(s: seq<byte>)
    ensures Standard(Tokens(s)) == Some(s) <==> WellFormed(s)
  {
    StandardReads(s);
  }
}
