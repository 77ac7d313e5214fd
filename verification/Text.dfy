/** Byte strings and the C library text routines the core relies on.
    A std::string is a `string`; only the value of a character matters. */
module Text {

  datatype Option<+T> = None | Some(value: T)

  const TWO_TO_THE_64: nat := 0x1_0000_0000_0000_0000

  // ---- searching ---------------------------------------------------------

  predicate OccursAt(s: string, word: string, i: int) {
    0 <= i && i + |word| <= |s| && s[i..i + |word|] == word
  }

  /** std::string::find: the first occurrence of `word` at or after `pos`. */
  function Find(s: string, word: string, pos: nat): (r: Option<nat>)
    ensures r.Some? ==> pos <= r.value && r.value + |word| <= |s|
    decreases |s| - pos
  {
    if pos + |word| > |s| then None
    else if s[pos..pos + |word|] == word then Some(pos)
    else Find(s, word, pos + 1)
  }

  /** What Find means: it names an occurrence, and there is none before it. */
  lemma {:induction false} FindFirst(s: string, word: string, pos: nat)
    ensures match Find(s, word, pos)
            case Some(at) => OccursAt(s, word, at) && forall i :: pos <= i < at ==> !OccursAt(s, word, i)
            case None => forall i :: pos <= i ==> !OccursAt(s, word, i)
    decreases |s| - pos
  {
    if pos + |word| <= |s| && s[pos..pos + |word|] != word { FindFirst(s, word, pos + 1); }
  }

  /** The first occurrence is what Find returns. */
  lemma {:induction false} FindIs(s: string, word: string, pos: nat, at: nat)
    requires pos <= at && OccursAt(s, word, at) && forall i :: pos <= i < at ==> !OccursAt(s, word, i)
    ensures Find(s, word, pos) == Some(at)
    decreases at - pos
  {
    if pos < at {
      assert !OccursAt(s, word, pos);
      FindIs(s, word, pos + 1, at);
    }
  }

  /** Searching a suffix is searching the whole string from an offset. */
  lemma {:induction false} FindInSuffix(s: string, word: string, pos: nat, k: nat)
    requires pos <= |s|
    ensures Find(s[pos..], word, k) ==
            (match Find(s, word, pos + k) case None => None case Some(i) => Some(i - pos))
    decreases |s| - k
  {
    if pos + k + |word| <= |s| {
      assert s[pos..][k..k + |word|] == s[pos + k..pos + k + |word|];
      if s[pos + k..pos + k + |word|] != word { FindInSuffix(s, word, pos, k + 1); }
    }
  }

  lemma {:induction false} FindInDrop(s: string, word: string, pos: nat)
    requires pos <= |s|
    ensures Find(s[pos..], word, 0) == match Find(s, word, pos) case None => None case Some(i) => Some(i - pos)
  {
    FindInSuffix(s, word, pos, 0);
  }

  /** An occurrence that was found stays the first one when text is appended. */
  lemma {:induction false} FindStable(s: string, word: string, pos: nat, more: string)
    requires Find(s, word, pos).Some?
    ensures Find(s + more, word, pos) == Find(s, word, pos)
  {
    var at := Find(s, word, pos).value;
    FindFirst(s, word, pos);
    forall i | 0 <= i <= at ensures OccursAt(s + more, word, i) == OccursAt(s, word, i) {
      assert (s + more)[i..i + |word|] == s[i..i + |word|];
    }
    FindIs(s + more, word, pos, at);
  }

  // ---- slices of slices --------------------------------------------------

  lemma {:induction false} DropDrop(s: string, a: nat, b: nat)
    requires a + b <= |s|
    ensures s[a..][b..] == s[a + b..]
  {}

  lemma {:induction false} DropSlice(s: string, a: nat, b: nat, c: nat)
    requires b <= c && a + c <= |s|
    ensures s[a..][b..c] == s[a + b..a + c]
  {}

  lemma {:induction false} DropTake(s: string, a: nat, c: nat)
    requires a + c <= |s|
    ensures s[a..][..c] == s[a..a + c]
  {}

  // ---- character classes -------------------------------------------------

  predicate IsSpace(c: char) { c == ' ' || 9 <= c as int <= 13 }

  function DigitValue(c: char): (v: int)
    ensures -1 <= v < 16
  {
    if '0' <= c <= '9' then c as int - '0' as int
    else if 'a' <= c <= 'f' then c as int - 'a' as int + 10
    else if 'A' <= c <= 'F' then c as int - 'A' as int + 10
    else -1
  }

  predicate IsDigit(c: char, base: nat) { 0 <= DigitValue(c) < base }

  /** std::tolower in the C locale. */
  function LowerChar(c: char): char {
    if 'A' <= c <= 'Z' then (c as int + 32) as char else c
  }

  function Lower(s: string): (r: string)
    ensures |r| == |s| && forall i :: 0 <= i < |s| ==> r[i] == LowerChar(s[i])
  {
    seq(|s|, i requires 0 <= i < |s| => LowerChar(s[i]))
  }

  // ---- strtoull ----------------------------------------------------------

  function SkipSpaces(s: string, i: nat): (j: nat)
    requires i <= |s|
    ensures i <= j <= |s| && (j < |s| ==> !IsSpace(s[j]))
    ensures forall k :: i <= k < j ==> IsSpace(s[k])
    decreases |s| - i
  {
    if i < |s| && IsSpace(s[i]) then SkipSpaces(s, i + 1) else i
  }

  function SkipDigits(s: string, i: nat, base: nat): (j: nat)
    requires i <= |s|
    ensures i <= j <= |s| && (j < |s| ==> !IsDigit(s[j], base))
    ensures AllDigits(s[i..j], base)
    decreases |s| - i
  {
    if i < |s| && IsDigit(s[i], base) then
      var j := SkipDigits(s, i + 1, base);
      assert s[i..j] == [s[i]] + s[i + 1..j];
      j
    else i
  }

  predicate AllDigits(s: string, base: nat) {
    forall k :: 0 <= k < |s| ==> IsDigit(s[k], base)
  }

  function Number(digits: string, base: nat): nat
    requires AllDigits(digits, base)
  {
    if digits == [] then 0
    else Number(digits[..|digits| - 1], base) * base + DigitValue(digits[|digits| - 1])
  }

  /** What strtoull reports: nothing converted, out of range, or a value and the index it stopped at. */
  datatype Conversion = NoDigits | OutOfRange | Converted(value: nat, end: nat)

  /** Where the digits start: after blanks, one sign and, for base 16, a 0x that digits follow. */
  function DigitsStart(s: string, base: nat): (r: (bool, nat))
    ensures r.1 <= |s|
  {
    var i := SkipSpaces(s, 0);
    var negative := i < |s| && s[i] == '-';
    var j := if i < |s| && (s[i] == '-' || s[i] == '+') then i + 1 else i;
    if base == 16 && j + 2 < |s| && s[j] == '0' && LowerChar(s[j + 1]) == 'x' && IsDigit(s[j + 2], 16)
    then (negative, j + 2) else (negative, j)
  }

  /** strtoull over s.c_str(). A minus sign negates modulo 2^64. */
  function Strtoull(s: string, base: nat): (r: Conversion)
    requires base == 10 || base == 16
    ensures r.Converted? ==> r.value < TWO_TO_THE_64 && 0 < r.end <= |s|
  {
    var (negative, start) := DigitsStart(s, base);
    var end := SkipDigits(s, start, base);
    if end == start then NoDigits
    else
      var v := Number(s[start..end], base);
      if v >= TWO_TO_THE_64 then OutOfRange
      else Converted(if negative then (TWO_TO_THE_64 - v) % TWO_TO_THE_64 else v, end)
  }

  // ---- printing numbers --------------------------------------------------

  function DigitChar(d: nat): (c: char)
    requires d < 16
    ensures DigitValue(c) == d
  {
    if d < 10 then ('0' as int + d) as char else ('a' as int + d - 10) as char
  }

  function Digits(n: nat, base: nat): (s: string)
    requires base == 10 || base == 16
    ensures s != [] && AllDigits(s, base)
    ensures Number(s, base) == n
    decreases n
  {
    if n < base then [DigitChar(n)]
    else
      var head := Digits(n / base, base);
      var s := head + [DigitChar(n % base)];
      assert s[..|s| - 1] == head;
      assert n / base * base + n % base == n;
      s
  }

  /** std::to_string and operator<< of an integer. */
  function Decimal(n: int): (s: string) {
    if n < 0 then "-" + Digits(-n, 10) else Digits(n, 10)
  }

  predicate Without(s: string, c: char) { forall i :: 0 <= i < |s| ==> s[i] != c }

  lemma {:induction false} DecimalInjective(a: int, b: int)
    requires Decimal(a) == Decimal(b)
    ensures a == b
  {
    assert IsDigit(Digits(if a < 0 then -a else a, 10)[0], 10);
    assert IsDigit(Digits(if b < 0 then -b else b, 10)[0], 10);
    if a < 0 && b < 0 { assert Decimal(a)[1..] == Digits(-a, 10); assert Decimal(b)[1..] == Digits(-b, 10); }
  }

  lemma {:induction false} DecimalWithout(n: int, c: char)
    requires c != '-' && !IsDigit(c, 10)
    ensures Without(Decimal(n), c)
  {}

  // ---- fields joined by a separator -------------------------------------

  /** A field free of the separator can be read back from the front of the text. */
  lemma {:induction false} FirstFieldUnique(a: string, x: string, b: string, y: string, sep: char)
    requires Without(a, sep) && Without(b, sep)
    requires a + [sep] + x == b + [sep] + y
    ensures a == b && x == y
  {
    var t := a + [sep] + x;
    assert t[|a|] == sep && t[|b|] == sep;
    assert forall i :: 0 <= i < |a| ==> t[i] == a[i];
    assert forall i :: 0 <= i < |b| ==> t[i] == b[i];
    assert |a| == |b|;
    assert a == t[..|a|] && b == t[..|b|];
    assert x == t[|a| + 1..] && y == t[|b| + 1..];
  }

  /** The same from the back. */
  lemma {:induction false} LastFieldUnique(x: string, a: string, y: string, b: string, sep: char)
    requires Without(a, sep) && Without(b, sep)
    requires x + [sep] + a == y + [sep] + b
    ensures a == b && x == y
  {
    var t := x + [sep] + a;
    assert t[|x|] == sep && t[|y|] == sep;
    assert forall i :: |x| < i < |t| ==> t[i] == a[i - |x| - 1];
    assert forall i :: |y| < i < |t| ==> t[i] == b[i - |y| - 1];
    assert |x| == |y|;
    assert x == t[..|x|] && y == t[..|y|];
    assert a == t[|x| + 1..] && b == t[|y| + 1..];
  }
}
