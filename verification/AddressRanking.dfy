/** How the resolver scores addresses and puts the best one first. */
module AddressRanking {
  import Quality = QualityProber

  datatype Source = HttpDns | LocalDns | Backup | Literal

  datatype Address = Address(ip: string, rttMs: int, lossRate: int, score: int, ipv6: bool, source: Source)

  /** What real connections to an address have shown. */
  datatype Health = Health(rttMs: int, failures: nat, successes: nat, updatedAtMs: int)

  const UNTRIED := Health(-1, 0, 0, 0)

  // ---- the score ---------------------------------------------------------

  function QualityPenalty(q: Quality.Quality, rtt: int): int {
    match q
    case Good => 0
    case Degraded => if rtt < 0 then 300 else 100
    case Bad => if rtt < 0 then 700 else 250
    case Offline => if rtt < 0 then 1000 else 500
    case Unknown => 50
  }

  function Score(q: Quality.Quality, rtt: int, loss: int, failures: nat, successes: nat): int {
    10000 - (if rtt < 0 then 500 else Quality.Min(8000, rtt * 2))
    - Quality.Min(2000, (if loss < 0 then 0 else loss) * 2) - Quality.Min(4000, failures * 500)
    - QualityPenalty(q, rtt) + (if q.Good? then 0 else Quality.Min(500, successes * 100))
  }

  /** The measured round-trip time where there is one, and the score with it. */
  function Scored(q: Quality.Quality, health: Health, a: Address): Address {
    var rtt := if health.rttMs >= 0 then health.rttMs else a.rttMs;
    a.(rttMs := rtt, score := Score(q, rtt, a.lossRate, health.failures, health.successes))
  }

  /** The round-trip time an address without one is ranked like. */
  function AsMeasured(q: Quality.Quality, rtt: int): nat {
    if rtt >= 0 then rtt
    else match q
         case Good => 250
         case Degraded => 350
         case Bad => 475
         case Offline => 500
         case Unknown => 250
  }

  lemma {:induction false} UnmeasuredRanks(q: Quality.Quality, rtt: int, loss: int, failures: nat, successes: nat)
    ensures Score(q, rtt, loss, failures, successes) == Score(q, AsMeasured(q, rtt), loss, failures, successes)
  {}

  /** Every score lies between these two, and worse measurements never raise one. */
  lemma {:induction false} ScoreBehaves(q: Quality.Quality, rtt: int, rtt': int, loss: int, loss': int, failures: nat,
                                        failures': nat, successes: nat, successes': nat)
    requires AsMeasured(q, rtt) <= AsMeasured(q, rtt') && loss <= loss' && failures <= failures'
    requires successes' <= successes
    ensures -4500 <= Score(q, rtt', loss', failures', successes') <= Score(q, rtt, loss, failures, successes) <= 10500
  {
    UnmeasuredRanks(q, rtt, loss, failures, successes);
    UnmeasuredRanks(q, rtt', loss', failures', successes');
  }

  /** What failures weigh: each of up to eight in a row outweighs a quarter of a second of round-trip time, of
      which no more than four seconds count. So an address that just failed may still rank above a slower one
      that never did. */
  lemma {:induction false} FailureWeighs(q: Quality.Quality, r: int, s: int, loss: int, failures: nat, successes: nat)
    ensures Score(q, r, loss, failures, successes) < Score(q, s, loss, 0, successes)
            <==> Quality.Min(4000, AsMeasured(q, s)) <
                 Quality.Min(4000, AsMeasured(q, r)) + 250 * Quality.Min(8, failures)
  {
    UnmeasuredRanks(q, r, loss, failures, successes);
    UnmeasuredRanks(q, s, loss, 0, successes);
  }

  /** What loss weighs: each of up to 1000 thousandths as much as a millisecond of round-trip time. */
  lemma {:induction false} LossWeighs(q: Quality.Quality, r: int, s: int, loss: int, failures: nat, successes: nat)
    ensures Score(q, r, loss, failures, successes) < Score(q, s, 0, failures, successes)
            <==> Quality.Min(4000, AsMeasured(q, s)) <
                 Quality.Min(4000, AsMeasured(q, r)) + Quality.Min(1000, Quality.Max(0, loss))
  {
    UnmeasuredRanks(q, r, loss, failures, successes);
    UnmeasuredRanks(q, s, 0, failures, successes);
  }

  /** Five successes in the past make up for a failure, unless the network is good; there they count
      for nothing. */
  lemma {:induction false} SuccessesForgive(q: Quality.Quality, rtt: int, loss: int, successes: nat)
    requires successes >= 5
    ensures Score(q, rtt, loss, 1, successes) == Score(q, rtt, loss, 0, 0) - (if q.Good? then 500 else 0)
  {}

  // ---- the order ---------------------------------------------------------

  predicate StringLess(a: string, b: string) {
    b != [] && (a == [] || a[0] < b[0] || (a[0] == b[0] && StringLess(a[1..], b[1..])))
  }

  lemma {:induction false} StringTotal(a: string, b: string)
    ensures a == b || StringLess(a, b) || StringLess(b, a)
    decreases |a|
  {
    if a != [] && b != [] && a[0] == b[0] {
      StringTotal(a[1..], b[1..]);
      if a[1..] == b[1..] { assert a == [a[0]] + a[1..] && b == [b[0]] + b[1..]; }
    }
  }

  lemma {:induction false} StringStrict(a: string, b: string)
    requires StringLess(a, b)
    ensures !StringLess(b, a)
    decreases |a|
  {
    if a != [] && a[0] == b[0] { StringStrict(a[1..], b[1..]); }
  }

  lemma {:induction false} StringTransitive(a: string, b: string, c: string)
    requires StringLess(a, b) && StringLess(b, c)
    ensures StringLess(a, c)
    decreases |a|
  {
    if a != [] && a[0] == b[0] == c[0] { StringTransitive(a[1..], b[1..], c[1..]); }
  }

  /** Higher scores first; equal scores by address. */
  predicate Before(l: Address, r: Address) { l.score > r.score || (l.score == r.score && StringLess(l.ip, r.ip)) }

  predicate Same(l: Address, r: Address) { l.score == r.score && l.ip == r.ip }

  lemma {:induction false} Total(l: Address, r: Address)
    ensures Same(l, r) || Before(l, r) || Before(r, l)
  {
    StringTotal(l.ip, r.ip);
  }

  lemma {:induction false} Strict(l: Address, r: Address)
    requires Before(l, r)
    ensures !Before(r, l) && !Same(l, r)
  {
    if l.score == r.score { StringStrict(l.ip, r.ip); }
  }

  /** If `y` is not before `x` and `z` is not before `y`, then `z` is not before `x`. */
  lemma {:induction false} Chain(x: Address, y: Address, z: Address)
    requires !Before(y, x) && !Before(z, y)
    ensures !Before(z, x)
  {
    Total(x, y);
    Total(y, z);
    if Before(z, x) {
      if Before(x, y) {
        if z.score == x.score == y.score { StringTransitive(z.ip, x.ip, y.ip); }
      }
    }
  }

  ghost predicate Ordered(s: seq<Address>) { forall i, j :: 0 <= i < j < |s| ==> !Before(s[j], s[i]) }

  // ---- the stable sort ---------------------------------------------------

  function Insert(x: Address, s: seq<Address>): (r: seq<Address>)
    ensures |r| == |s| + 1 && (r[0] == x || (s != [] && r[0] == s[0]))
  {
    if s == [] || !Before(s[0], x) then [x] + s else [s[0]] + Insert(x, s[1..])
  }

  function Rank(s: seq<Address>): (r: seq<Address>)
    ensures |r| == |s|
  {
    if s == [] then [] else Insert(s[0], Rank(s[1..]))
  }

  lemma {:induction false} OrderedCons(x: Address, s: seq<Address>)
    requires Ordered(s) && (s != [] ==> !Before(s[0], x))
    ensures Ordered([x] + s)
  {
    forall j | 0 <= j < |s| ensures !Before(s[j], x) {
      if j > 0 { Chain(x, s[0], s[j]); }
    }
  }

  lemma {:induction false} InsertOrdered(x: Address, s: seq<Address>)
    requires Ordered(s)
    ensures Ordered(Insert(x, s)) && multiset(Insert(x, s)) == multiset(s) + multiset{x}
    decreases |s|
  {
    if s == [] || !Before(s[0], x) {
      OrderedCons(x, s);
    } else {
      InsertOrdered(x, s[1..]);
      Strict(s[0], x);
      OrderedCons(s[0], Insert(x, s[1..]));
      assert s == [s[0]] + s[1..];
    }
  }

  /** The ranking is a permutation in order. */
  lemma {:induction false} RankOrdered(s: seq<Address>)
    ensures Ordered(Rank(s)) && multiset(Rank(s)) == multiset(s)
    decreases |s|
  {
    if s != [] {
      RankOrdered(s[1..]);
      InsertOrdered(s[0], Rank(s[1..]));
      assert s == [s[0]] + s[1..];
    }
  }

  ghost function Ips(s: seq<Address>): (r: seq<string>)
    ensures |r| == |s|
  {
    if s == [] then [] else [s[0].ip] + Ips(s[1..])
  }

  lemma {:induction false} InsertIps(x: Address, s: seq<Address>)
    ensures multiset(Ips(Insert(x, s))) == multiset(Ips(s)) + multiset{x.ip}
    decreases |s|
  {
    if s == [] || !Before(s[0], x) {
      assert ([x] + s)[1..] == s;
    } else {
      InsertIps(x, s[1..]);
      assert ([s[0]] + Insert(x, s[1..]))[1..] == Insert(x, s[1..]);
    }
  }

  lemma {:induction false} RankIps(s: seq<Address>)
    ensures multiset(Ips(Rank(s))) == multiset(Ips(s))
    decreases |s|
  {
    if s != [] {
      RankIps(s[1..]);
      InsertIps(s[0], Rank(s[1..]));
    }
  }

  lemma {:induction false} IpsAgree(s: seq<Address>, t: seq<Address>)
    requires |s| == |t| && forall i :: 0 <= i < |s| ==> s[i].ip == t[i].ip
    ensures Ips(s) == Ips(t)
    decreases |s|
  {
    if s != [] { IpsAgree(s[1..], t[1..]); }
  }

  /** The entries that compare equal to `k`, as they stand. */
  ghost function Alike(s: seq<Address>, k: Address): (r: seq<Address>)
  {
    if s == [] then [] else (if Same(s[0], k) then [s[0]] else []) + Alike(s[1..], k)
  }

  lemma {:induction false} AlikeCons(x: Address, s: seq<Address>, k: Address)
    ensures Alike([x] + s, k) == (if Same(x, k) then [x] else []) + Alike(s, k)
  {
    assert ([x] + s)[1..] == s;
  }

  lemma {:induction false} InsertAlike(x: Address, s: seq<Address>, k: Address)
    ensures Alike(Insert(x, s), k) == (if Same(x, k) then [x] else []) + Alike(s, k)
    decreases |s|
  {
    if s == [] || !Before(s[0], x) {
      AlikeCons(x, s, k);
    } else {
      InsertAlike(x, s[1..], k);
      AlikeCons(s[0], Insert(x, s[1..]), k);
      Strict(s[0], x);
    }
  }

  /** The sort is stable: entries that compare equal keep their order. */
  lemma {:induction false} RankStable(s: seq<Address>, k: Address)
    ensures Alike(Rank(s), k) == Alike(s, k)
    decreases |s|
  {
    if s != [] {
      RankStable(s[1..], k);
      InsertAlike(s[0], Rank(s[1..]), k);
    }
  }

  lemma {:induction false} AlikeFinds(s: seq<Address>, i: nat)
    requires i < |s|
    ensures Alike(s, s[i]) != []
    decreases |s|
  {
    if i > 0 { AlikeFinds(s[1..], i - 1); }
  }

  lemma {:induction false} AlikeIn(s: seq<Address>, k: Address) returns (i: nat)
    requires Alike(s, k) != []
    ensures i < |s| && Same(s[i], k)
    decreases |s|
  {
    if Same(s[0], k) { i := 0; }
    else {
      i := AlikeIn(s[1..], k);
      i := i + 1;
    }
  }

  lemma {:induction false} HeadIsLeast(s: seq<Address>, i: nat)
    requires Ordered(s) && i < |s|
    ensures !Before(s[i], s[0])
  {
    if i == 0 && Before(s[0], s[0]) { Strict(s[0], s[0]); }
  }

  /** Two ordered lists with the same runs of equal entries have the same head. */
  lemma {:induction false} SameHead(a: seq<Address>, b: seq<Address>)
    requires Ordered(a) && Ordered(b) && a != [] && forall k :: Alike(a, k) == Alike(b, k)
    ensures b != [] && a[0] == b[0]
  {
    AlikeFinds(a, 0);
    assert Alike(b, a[0]) != [];
    AlikeFinds(b, 0);
    assert Alike(a, b[0]) != [];
    var i := AlikeIn(a, b[0]);
    var j := AlikeIn(b, a[0]);
    HeadIsLeast(a, i);
    HeadIsLeast(b, j);
    Total(a[0], b[0]);
    assert Alike(a, a[0])[0] == a[0] && Alike(b, a[0])[0] == b[0];
  }

  /** There is only one stable ordering, so `Rank` is it. */
  lemma {:induction false} OrderedUnique(a: seq<Address>, b: seq<Address>)
    requires Ordered(a) && Ordered(b) && forall k :: Alike(a, k) == Alike(b, k)
    ensures a == b
    decreases |a|
  {
    if a == [] {
      if b != [] { AlikeFinds(b, 0); }
    } else {
      SameHead(a, b);
      forall k ensures Alike(a[1..], k) == Alike(b[1..], k) {
        var head := if Same(a[0], k) then [a[0]] else [];
        assert Alike(a, k) == head + Alike(a[1..], k);
        assert Alike(b, k) == head + Alike(b[1..], k);
        assert Alike(a, k)[|head|..] == Alike(a[1..], k) && Alike(b, k)[|head|..] == Alike(b[1..], k);
      }
      OrderedUnique(a[1..], b[1..]);
      assert a == [a[0]] + a[1..] && b == [b[0]] + b[1..];
    }
  }

  /** `t` is a stable ordering of `s`. */
  ghost predicate StablyOrders(t: seq<Address>, s: seq<Address>) {
    Ordered(t) && forall k :: Alike(t, k) == Alike(s, k)
  }

  lemma {:induction false} RankStablyOrders(s: seq<Address>)
    ensures StablyOrders(Rank(s), s)
  {
    RankOrdered(s);
    forall k ensures Alike(Rank(s), k) == Alike(s, k) { RankStable(s, k); }
  }

  /** There is exactly one, so `Rank` is what any stable sort gives. */
  lemma {:induction false} RankIsTheStableSort(s: seq<Address>, t: seq<Address>)
    ensures StablyOrders(t, s) <==> t == Rank(s)
  {
    RankStablyOrders(s);
    if StablyOrders(t, s) { OrderedUnique(t, Rank(s)); }
  }

  // ---- the order of the lookup's answer does not matter -------------------

  ghost predicate DistinctIps(s: seq<Address>) { forall i, j :: 0 <= i < j < |s| ==> s[i].ip != s[j].ip }

  lemma {:induction false} SameElements(s: seq<Address>, t: seq<Address>, x: Address)
    requires multiset(s) == multiset(t) && x in s
    ensures x in t
  {
    assert x in multiset(s);
  }

  /** With no address twice, at most one entry compares equal to a given one. */
  lemma {:induction false} AlikeOfDistinct(s: seq<Address>, i: nat)
    requires DistinctIps(s) && i < |s|
    ensures Alike(s, s[i]) == [s[i]]
    decreases |s|
  {
    if i > 0 {
      AlikeOfDistinct(s[1..], i - 1);
    } else {
      assert forall j :: 0 <= j < |s[1..]| ==> s[1..][j] == s[j + 1];
      NoneAlike(s[1..], s[0]);
    }
  }

  lemma {:induction false} NoneAlike(s: seq<Address>, k: Address)
    requires forall j :: 0 <= j < |s| ==> s[j].ip != k.ip
    ensures Alike(s, k) == []
    decreases |s|
  {
    if s != [] { NoneAlike(s[1..], k); }
  }

  lemma {:induction false} AlikeDetermined(s: seq<Address>, t: seq<Address>, k: Address)
    requires multiset(s) == multiset(t) && DistinctIps(s) && DistinctIps(t)
    ensures Alike(s, k) == Alike(t, k)
  {
    if Alike(s, k) != [] {
      var i := AlikeIn(s, k);
      SameElements(s, t, s[i]);
      AlikeTransfers(s, t, i, k);
    } else if Alike(t, k) != [] {
      var j := AlikeIn(t, k);
      SameElements(t, s, t[j]);
      AlikeTransfers(t, s, j, k);
    }
  }

  lemma {:induction false} AlikeTransfers(s: seq<Address>, t: seq<Address>, i: nat, k: Address)
    requires i < |s| && s[i] in t && Same(s[i], k) && DistinctIps(s) && DistinctIps(t)
    ensures Alike(s, k) == [s[i]] == Alike(t, k)
  {
    var j :| 0 <= j < |t| && t[j] == s[i];
    AlikeOfDistinct(s, i);
    AlikeOfDistinct(t, j);
    AlikeSameKey(s, s[i], k);
    AlikeSameKey(t, s[i], k);
  }

  lemma {:induction false} AlikeSameKey(s: seq<Address>, k: Address, l: Address)
    requires Same(k, l)
    ensures Alike(s, k) == Alike(s, l)
    decreases |s|
  {
    if s != [] { AlikeSameKey(s[1..], k, l); }
  }

  /** Two answers with the same distinct addresses rank the same, however they were ordered. */
  lemma {:induction false} OrderDoesNotMatter(s: seq<Address>, t: seq<Address>)
    requires multiset(s) == multiset(t) && DistinctIps(s) && DistinctIps(t)
    ensures Rank(s) == Rank(t)
  {
    RankStablyOrders(s);
    forall k ensures Alike(Rank(s), k) == Alike(t, k) { AlikeDetermined(s, t, k); }
    RankIsTheStableSort(t, Rank(s));
  }

  /** The first in the ranking is one that no other beats. */
  lemma {:induction false} BestFirst(s: seq<Address>, i: nat)
    requires i < |s|
    ensures Rank(s) != [] && Rank(s)[0] in s && Rank(s)[0].score >= s[i].score
  {
    RankOrdered(s);
    assert s[i] in multiset(Rank(s));
    var j :| 0 <= j < |Rank(s)| && Rank(s)[j] == s[i];
    HeadIsLeast(Rank(s), j);
    assert Rank(s)[0] in multiset(s);
  }
}
