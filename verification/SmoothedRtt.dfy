/** The integer moving average used for round-trip times: seven parts old, three parts new. */
module SmoothedRtt {

  const INT_MAX: int := 0x7fff_ffff

  /** A negative average means "none yet"; a negative observation is ignored. */
  function Smooth(average: int, rtt: int): int {
    if rtt < 0 then average
    else if average < 0 then rtt
    else (average * 7 + rtt * 3) / 10
  }

  function Fold(average: int, rtts: seq<int>): int {
    if rtts == [] then average else Smooth(Fold(average, rtts[..|rtts| - 1]), rtts[|rtts| - 1])
  }

  lemma {:induction false} FoldAppend(average: int, rtts: seq<int>, rtt: int)
    ensures Fold(average, rtts + [rtt]) == Smooth(Fold(average, rtts), rtt)
  {
    assert (rtts + [rtt])[..|rtts|] == rtts;
  }

  predicate Within(lo: int, hi: int, rtts: seq<int>) {
    forall i :: 0 <= i < |rtts| ==> rtts[i] < 0 || lo <= rtts[i] <= hi
  }

  /** The average never leaves the range of what was observed. */
  lemma {:induction false} StaysInRange(rtts: seq<int>, lo: nat, hi: nat)
    requires Within(lo, hi, rtts)
    ensures var a := Fold(-1, rtts);
            (a == -1 && forall i :: 0 <= i < |rtts| ==> rtts[i] < 0) || lo <= a <= hi
    decreases |rtts|
  {
    if rtts != [] {
      StaysInRange(rtts[..|rtts| - 1], lo, hi);
      var rtt := rtts[|rtts| - 1];
      assert rtt < 0 || lo <= rtt <= hi;
    }
  }

  /** With round-trip times up to a tenth of the int range, no intermediate value overflows an int. */
  lemma {:induction false} NoOverflow(rtts: seq<int>, next: int)
    requires Within(0, INT_MAX / 10, rtts) && 0 <= next <= INT_MAX / 10
    ensures var a := Fold(-1, rtts);
            -1 <= a <= INT_MAX / 10
            && (a >= 0 ==> a * 7 <= INT_MAX && next * 3 <= INT_MAX && a * 7 + next * 3 <= INT_MAX)
  {
    StaysInRange(rtts, 0, INT_MAX / 10);
  }

  /** The average stands still under a constant round-trip time exactly when it is at most 3 below it. */
  lemma {:induction false} FixedPoint(a: nat, r: nat)
    ensures Smooth(a, r) == a <==> r - 3 <= a <= r
  {}

  function Constant(r: int, n: nat): seq<int> { seq(n, _ => r) }

  /** Under a constant round-trip time the average comes down to it exactly, and comes up to within 3
      of it; it takes no more steps than the distance was, and does not overshoot on the way. */
  lemma {:induction false} Converges(a: nat, r: nat, n: nat)
    ensures var b := Fold(a, Constant(r, n));
            && (a >= r ==> r <= b <= a && (n >= a - r ==> b == r))
            && (a <= r ==> a <= b <= r && (n >= r - a ==> r - 3 <= b))
            && (a > r && n < a - r ==> b <= a - n || b == r)
            && (a < r && n < r - a ==> b >= a + n || r - 3 <= b)
    decreases n
  {
    var rtts := Constant(r, n);
    if n > 0 {
      Converges(a, r, n - 1);
      assert rtts[..n - 1] == Constant(r, n - 1);
      var before := Fold(a, Constant(r, n - 1));
      FixedPoint(before, r);
    }
  }
}
