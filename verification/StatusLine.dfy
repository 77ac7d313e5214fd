/** How the HTTP/1.1 engine reads the status code: from its whole buffer, between the first two blanks. */
module StatusLine {
  import opened Text

  const BLANK_LINE: string := "\r\n\r\n"

  /** atoi: blanks, a sign, decimal digits. */
  function Atoi(s: string): int {
    var (negative, start) := DigitsStart(s, 10);
    var n: int := Number(s[start..SkipDigits(s, start, 10)], 10);
    if negative then -n else n
  }

  /** The status code in the buffer, or the previous one when the buffer has fewer than two blanks. */
  function ParseStatus(raw: string, previous: int): int {
    match Find(raw, " ", 0)
    case None => previous
    case Some(first) =>
      if Find(raw, " ", first + 1).None? then previous else Atoi(raw[first + 1..])
  }

  /** The head holds all of its status: two blanks, and after the first something that is not space. */
  predicate StatusInside(head: string) {
    match Find(head, " ", 0)
    case None => false
    case Some(first) => Find(head, " ", first + 1).Some? && SkipSpaces(head, first + 1) < |head|
  }

  // ---- blanks ------------------------------------------------------------

  lemma {:induction false} SpaceThere(s: string, at: nat)
    requires OccursAt(s, " ", at)
    ensures s[at] == ' '
  {
    assert s[at..at + 1][0] == ' ';
  }

  lemma {:induction false} BlankAt(s: string, pos: nat, at: nat)
    requires pos <= at < |s| && s[at] == ' ' && forall i :: pos <= i < at ==> s[i] != ' '
    ensures Find(s, " ", pos) == Some(at)
  {
    assert OccursAt(s, " ", at);
    forall i | pos <= i < at ensures !OccursAt(s, " ", i) { assert s[i..i + 1][0] == s[i]; }
    FindIs(s, " ", pos, at);
  }

  lemma {:induction false} BlankIs(s: string, pos: nat)
    ensures match Find(s, " ", pos)
            case Some(at) => pos <= at < |s| && s[at] == ' ' && forall i :: pos <= i < at ==> s[i] != ' '
            case None => forall i :: pos <= i < |s| ==> s[i] != ' '
  {
    FindFirst(s, " ", pos);
    if Find(s, " ", pos).Some? { SpaceThere(s, Find(s, " ", pos).value); }
    forall i | pos <= i < |s| && !OccursAt(s, " ", i) ensures s[i] != ' ' { assert s[i..i + 1] == [s[i]]; }
  }

  lemma {:induction false} NoBlank(s: string, pos: nat)
    requires forall i :: pos <= i < |s| ==> s[i] != ' '
    ensures Find(s, " ", pos).None?
  {
    BlankIs(s, pos);
  }

  // ---- atoi --------------------------------------------------------------

  lemma {:induction false} SkipSpacesStable(s: string, i: nat, more: string)
    requires i <= |s| && SkipSpaces(s, i) < |s|
    ensures SkipSpaces(s + more, i) == SkipSpaces(s, i)
    decreases |s| - i
  {
    if i < |s| && IsSpace(s[i]) { SkipSpacesStable(s, i + 1, more); }
  }

  lemma {:induction false} SkipSpacesAll(s: string, i: nat, more: string)
    requires i <= |s| && SkipSpaces(s, i) == |s| && more != [] && !IsSpace(more[0])
    ensures SkipSpaces(s + more, i) == |s|
    decreases |s| - i
  {
    if i < |s| { SkipSpacesAll(s, i + 1, more); }
  }

  lemma {:induction false} SkipSpacesIn(s: string, from: nat, i: nat)
    requires from <= i <= |s|
    ensures SkipSpaces(s[from..], i - from) == SkipSpaces(s, i) - from
    decreases |s| - i
  {
    if i < |s| && IsSpace(s[i]) { SkipSpacesIn(s, from, i + 1); }
  }

  lemma {:induction false} SkipDigitsStable(s: string, i: nat, more: string)
    requires i <= |s| && SkipDigits(s, i, 10) < |s|
    ensures SkipDigits(s + more, i, 10) == SkipDigits(s, i, 10)
    decreases |s| - i
  {
    if i < |s| && IsDigit(s[i], 10) { SkipDigitsStable(s, i + 1, more); }
  }

  lemma {:induction false} SkipDigitsStops(s: string, i: nat, at: nat)
    requires i <= at < |s| && !IsDigit(s[at], 10)
    ensures SkipDigits(s, i, 10) <= at
    decreases at - i
  {
    if i < at && IsDigit(s[i], 10) { SkipDigitsStops(s, i + 1, at); }
  }

  /** A text with something that is not space before its last character, which is no digit, has a value
      that more text does not change. */
  lemma {:induction false} AtoiStable(s: string, more: string)
    requires SkipSpaces(s, 0) + 1 < |s| && !IsDigit(s[|s| - 1], 10)
    ensures Atoi(s + more) == Atoi(s)
  {
    SkipSpacesStable(s, 0, more);
    var start := DigitsStart(s, 10).1;
    assert DigitsStart(s + more, 10) == DigitsStart(s, 10);
    SkipDigitsStops(s, start, |s| - 1);
    SkipDigitsStable(s, start, more);
    SameSlice(s, more, start, SkipDigits(s, start, 10));
  }

  lemma {:induction false} SameSlice(s: string, more: string, a: nat, b: nat)
    requires a <= b <= |s|
    ensures (s + more)[a..b] == s[a..b]
  {}

  lemma {:induction false} DropAppend(s: string, more: string, a: nat)
    requires a <= |s|
    ensures (s + more)[a..] == s[a..] + more
  {}

  /** A text of nothing but space has the value 0, until a digit follows it. */
  lemma {:induction false} AtoiOfSpace(s: string)
    requires SkipSpaces(s, 0) == |s|
    ensures Atoi(s) == 0 && Atoi(s + "7") == 7
  {
    assert s[|s|..|s|] == [];
    var t := s + "7";
    SkipSpacesAll(s, 0, "7");
    assert DigitsStart(t, 10) == (false, |s|);
    assert SkipDigits(t, |s|, 10) == |t| by { assert SkipDigits(t, |s| + 1, 10) == |t|; }
    assert t[|s|..|t|] == "7";
    Seven();
  }

  lemma {:induction false} Seven()
    ensures AllDigits("7", 10) && Number("7", 10) == 7
  {
    assert "7"[..0] == [] && Number([], 10) == 0;
  }

  // ---- when the status is settled ----------------------------------------

  ghost predicate SettledByHead(head: string) {
    forall more, previous :: ParseStatus(head + BLANK_LINE + more, previous) == ParseStatus(head + BLANK_LINE, previous)
  }

  lemma {:induction false} StatusAt(s: string, first: nat, previous: int)
    requires Find(s, " ", 0) == Some(first) && Find(s, " ", first + 1).Some?
    ensures first < |s| && ParseStatus(s, previous) == Atoi(s[first + 1..])
  {}

  /** The blanks of a head stay where they are whatever follows it. */
  lemma {:induction false} BlanksStay(head: string, more: string, first: nat, previous: int)
    requires Find(head, " ", 0) == Some(first) && Find(head, " ", first + 1).Some?
    ensures Find(head + more, " ", 0) == Some(first) && Find(head + more, " ", first + 1).Some? && first < |head|
    ensures ParseStatus(head + more, previous) == Atoi(head[first + 1..] + more)
  {
    FindStable(head, " ", 0, more);
    FindStable(head, " ", first + 1, more);
    StatusAt(head, first, previous);
    StatusAt(head + more, first, previous);
    DropAppend(head, more, first + 1);
  }

  lemma {:induction false} TailStable(tail: string, more: string)
    requires SkipSpaces(tail, 0) < |tail|
    ensures Atoi(tail + BLANK_LINE + more) == Atoi(tail + BLANK_LINE)
  {
    SkipSpacesStable(tail, 0, BLANK_LINE);
    var s := tail + BLANK_LINE;
    assert s[|s| - 1] == '\n';
    AtoiStable(s, more);
  }

  /** A head that holds its status settles it: nothing behind the blank line matters. */
  lemma {:induction false} InsideSettles(head: string, more: string, previous: int)
    requires StatusInside(head)
    ensures ParseStatus(head + BLANK_LINE + more, previous) == ParseStatus(head + BLANK_LINE, previous)
  {
    var first := Find(head, " ", 0).value;
    BlanksStay(head, BLANK_LINE, first, previous);
    BlanksStay(head + BLANK_LINE, more, first, previous);
    DropAppend(head, BLANK_LINE, first + 1);
    SkipSpacesIn(head, first + 1, first + 1);
    TailStable(head[first + 1..], more);
  }

  lemma {:induction false} NoBlankInHead(head: string)
    requires Find(head, " ", 0).None?
    ensures ParseStatus(head + BLANK_LINE, 1) == 1 && ParseStatus(head + BLANK_LINE + "  ", 1) == 0
  {
    var full := head + BLANK_LINE;
    BlankIs(head, 0);
    NoBlank(full, 0);
    var s := full + "  ";
    BlankAt(s, 0, |full|);
    BlankAt(s, |full| + 1, |full| + 1);
    assert s[|full| + 1..] == " ";
    AtoiOfSpace(" ");
  }

  lemma {:induction false} OneBlank(s: string, first: nat, previous: int)
    requires first < |s| && s[first] == ' ' && forall i :: 0 <= i < |s| && i != first ==> s[i] != ' '
    ensures ParseStatus(s, previous) == previous
  {
    BlankAt(s, 0, first);
    NoBlank(s, first + 1);
  }

  lemma {:induction false} TwoBlanks(s: string, first: nat, previous: int)
    requires first < |s| && s[first] == ' ' && forall i :: 0 <= i < |s| && i != first ==> s[i] != ' '
    ensures ParseStatus(s + " ", previous) == Atoi((s + " ")[first + 1..])
  {
    BlankAt(s + " ", 0, first);
    BlankAt(s + " ", first + 1, |s|);
  }

  lemma {:induction false} OneBlankInHead(head: string, first: nat)
    requires Find(head, " ", 0) == Some(first) && Find(head, " ", first + 1).None?
    ensures var v := Atoi((head + BLANK_LINE + " ")[first + 1..]);
            ParseStatus(head + BLANK_LINE, v + 1) == v + 1 && ParseStatus(head + BLANK_LINE + " ", v + 1) == v
  {
    var full := head + BLANK_LINE;
    var v := Atoi((full + " ")[first + 1..]);
    BlankIs(head, 0);
    BlankIs(head, first + 1);
    OneBlank(full, first, v + 1);
    TwoBlanks(full, first, v + 1);
  }

  lemma {:induction false} SpaceTail(tail: string)
    requires SkipSpaces(tail, 0) == |tail|
    ensures Atoi(tail + BLANK_LINE) == 0 && Atoi(tail + BLANK_LINE + "7") == 7
  {
    AllSpace(tail + BLANK_LINE, 0);
    AtoiOfSpace(tail + BLANK_LINE);
  }

  lemma {:induction false} OnlySpaceInHead(head: string, first: nat)
    requires Find(head, " ", 0) == Some(first) && Find(head, " ", first + 1).Some?
    requires SkipSpaces(head, first + 1) == |head|
    ensures ParseStatus(head + BLANK_LINE, 0) == 0 && ParseStatus(head + BLANK_LINE + "7", 0) == 7
  {
    BlanksStay(head, BLANK_LINE, first, 0);
    BlanksStay(head + BLANK_LINE, "7", first, 0);
    DropAppend(head, BLANK_LINE, first + 1);
    SkipSpacesIn(head, first + 1, first + 1);
    SpaceTail(head[first + 1..]);
  }

  lemma {:induction false} AllSpace(s: string, i: nat)
    requires i <= |s| && forall k :: i <= k < |s| ==> IsSpace(s[k])
    ensures SkipSpaces(s, i) == |s|
  {}

  /** Exactly when the bytes behind a head cannot change its status. Otherwise they can: with fewer than two
      blanks the status is looked for in the body, and with nothing but space after the first blank atoi
      reads on across the blank line. */
  lemma {:induction false} SettledExactly(head: string)
    ensures SettledByHead(head) <==> StatusInside(head)
  {
    if StatusInside(head) {
      forall more, previous
        ensures ParseStatus(head + BLANK_LINE + more, previous) == ParseStatus(head + BLANK_LINE, previous)
      {
        InsideSettles(head, more, previous);
      }
    } else {
      var more, previous := Unsettled(head);
    }
  }

  /** For every other head, what to put behind it and the status that went before. */
  lemma {:induction false} Unsettled(head: string) returns (more: string, previous: int)
    requires !StatusInside(head)
    ensures ParseStatus(head + BLANK_LINE + more, previous) != ParseStatus(head + BLANK_LINE, previous)
  {
    if Find(head, " ", 0).None? {
      NoBlankInHead(head);
      more, previous := "  ", 1;
    } else {
      var first := Find(head, " ", 0).value;
      if Find(head, " ", first + 1).None? {
        OneBlankInHead(head, first);
        more, previous := " ", Atoi((head + BLANK_LINE + " ")[first + 1..]) + 1;
      } else {
        OnlySpaceInHead(head, first);
        more, previous := "7", 0;
      }
    }
  }
}
