/** The retry loop and the interceptors around it: rounds under one deadline, each a run of the transport. */
module RetryRounds {
  import opened Codes
  import opened Text
  import opened Requests
  import opened CircuitBreaker
  import opened EngineChain
  import opened Transport

  datatype Interceptor = WeakNet | Retry

  const INT_RANGE: int := 0x1_0000_0000

  /** static_cast<int> of a 64-bit value. */
  function Int32(x: int): (r: int)
    ensures -INT_RANGE / 2 <= r < INT_RANGE / 2
    ensures -INT_RANGE / 2 <= x < INT_RANGE / 2 ==> r == x
  {
    (x + INT_RANGE / 2) % INT_RANGE - INT_RANGE / 2
  }

  /** Time seems left exactly when the clock, read modulo 2^32, is more than 2^31 ms past the deadline: so
      before the deadline, up to 2^31 ms ahead, and again from 2^31 ms after it. */
  lemma {:induction false} TimeLeftExactly(deadline: int, now: int)
    ensures Int32(deadline - now) > 0 <==> (now - deadline) % INT_RANGE > INT_RANGE / 2
    ensures -INT_RANGE / 2 < now - deadline <= INT_RANGE / 2 ==> (Int32(deadline - now) > 0 <==> now < deadline)
  {
    var d := deadline - now;
    var m, q := (0 - d) % INT_RANGE, (0 - d) / INT_RANGE;
    assert 0 - d == q * INT_RANGE + m;
    var shifted := if m > INT_RANGE / 2 then INT_RANGE - m + INT_RANGE / 2 else INT_RANGE / 2 - m;
    var turns := if m > INT_RANGE / 2 then 0 - q - 1 else 0 - q;
    assert d + INT_RANGE / 2 == turns * INT_RANGE + shifted;
    Remainder(d + INT_RANGE / 2, turns, shifted);
  }

  lemma {:induction false} Remainder(x: int, q: int, m: int)
    requires x == q * INT_RANGE + m && 0 <= m < INT_RANGE
    ensures x % INT_RANGE == m
  {}

  function Max0(x: int): nat { if x < 0 then 0 else x }

  function Backoff(attempt: nat, requestId: nat): nat {
    var base := if attempt == 0 then 50 else if attempt == 1 then 100 else if attempt == 2 then 200 else 400;
    base + requestId % 31
  }

  /** The backoff starts at 50 ms and doubles up to 400, and each request adds its own 0 to 30 ms. */
  lemma {:induction false} BackoffDoubles(attempt: nat, requestId: nat)
    ensures var own := Backoff(0, requestId) - 50;
            && 0 <= own <= 30 && own == requestId % 31
            && Backoff(attempt + 1, requestId) - own ==
               (if Backoff(attempt, requestId) - own >= 200 then 400 else 2 * (Backoff(attempt, requestId) - own))
  {}

  function Retries(interceptors: seq<Interceptor>, index: nat): nat
    requires index <= |interceptors|
    decreases |interceptors| - index
  {
    if index == |interceptors| then 0
    else Retries(interceptors, index + 1) + (if interceptors[index] == Retry then 1 else 0)
  }

  /** The most engine calls of a repeatable request: two addresses by three protocols, for every retry. */
  function Bound(retryLoops: nat, maxRetries: nat): nat {
    if retryLoops == 0 then 6 else (maxRetries + 1) * Bound(retryLoops - 1, maxRetries)
  }

  function MaxCalls(interceptors: seq<Interceptor>, index: nat, c: Context): nat
    requires index <= |interceptors|
  {
    if c.request.retrySafe then Bound(Retries(interceptors, index), Max0(c.maxRetries)) else 1
  }

  lemma {:induction false} BoundMonotone(n: nat, a: nat, b: nat)
    requires a <= b
    ensures Bound(n, a) <= Bound(n, b)
    decreases n
  {
    if n > 0 {
      BoundMonotone(n - 1, a, b);
      Product(a + 1, Bound(n - 1, a), b + 1, Bound(n - 1, b));
    }
  }

  lemma {:induction false} Product(a: nat, x: nat, b: nat, y: nat)
    requires a <= b && x <= y
    ensures a * x <= b * y
  {
    assert a * x <= b * x;
    assert b * x <= b * y;
  }

  const SHIPPED: seq<Interceptor> := [WeakNet, Retry]

  /** The shipped stack has one retry loop. */
  lemma {:induction false} ShippedStack(c: Context)
    ensures MaxCalls(SHIPPED, 0, c) == if c.request.retrySafe then 6 * (1 + Max0(c.maxRetries)) else 1
  {
    assert Retries(SHIPPED, 2) == 0 && Retries(SHIPPED, 1) == 1 && Retries(SHIPPED, 0) == 1;
    assert Bound(0, Max0(c.maxRetries)) == 6;
  }

  /** What the loops may change in a context on the way through. */
  predicate Carried(before: Context, after: Context) {
    && after == before.(request := before.request.(timeoutMs := after.request.timeoutMs), attempts := after.attempts,
                        maxRetries := after.maxRetries, weakNetwork := after.weakNetwork,
                        dnsCacheHit := after.dnsCacheHit)
    && Max0(after.maxRetries) <= Max0(before.maxRetries)
  }

  /** The retries a request is allowed. */
  function Limit(c: Context): nat { if c.request.retrySafe then Max0(c.maxRetries) else 0 }

  // ---- the retry loop ----------------------------------------------------

  /** One round of the retry loop: the reading it began with, what the transport did, the calls it made, how it
      ended, and the reading before its backoff (or, without one, the end). */
  datatype Round = Round(readAt: nat, pass: Pass, calls: seq<Call>, result: int, napAt: nat)

  /** A round with time left ran the transport once, with just that time; any other did nothing. */
  ghost predicate RoundRan(k: Kit, c: Context, left: int, pass: Pass, calls: seq<Call>, result: int) {
    if left <= 0 then pass == NO_PASS && calls == [] && result == ERR_TIMEOUT
    else Ran(k, c.request.(timeoutMs := left), c.policy, EMPTY_RESPONSE, pass, calls, result)
  }

  ghost predicate ItRan(k: Kit, c: Context, deadline: int, r: Round) {
    RoundRan(k, c, Left(deadline, r), r.pass, r.calls, r.result)
  }

  ghost function LookupsIn(rounds: seq<Round>): seq<Lookup> {
    if rounds == [] then [] else LookupsIn(rounds[..|rounds| - 1]) + rounds[|rounds| - 1].pass.lookups
  }

  ghost predicate RoundsSeen(trace: seq<Event>, c: Context, rounds: seq<Round>) {
    forall i :: 0 <= i < |rounds| ==> PassSeen(trace, c.request, c.policy, rounds[i].pass)
  }

  lemma {:induction false} RoundsSeenMore(trace: seq<Event>, later: seq<Event>, c: Context, rounds: seq<Round>,
                                          r: Round)
    requires RoundsSeen(trace, c, rounds) && trace <= later && PassSeen(later, c.request, c.policy, r.pass)
    ensures RoundsSeen(later, c, rounds + [r])
  {
    var all := rounds + [r];
    forall i | 0 <= i < |all| ensures PassSeen(later, c.request, c.policy, all[i].pass) {
      if i < |rounds| { PassSeenLater(trace, later, c.request, c.request, c.policy, rounds[i].pass); }
    }
  }

  /** How a pass of the retry loop ends: with another, with its result, or with no time left to start. */
  datatype Turn = Again | Done | Expired

  datatype Outcome = Outcome(turn: Turn, result: int, timeoutMs: int)

  /** What is left to the deadline when a pass begins. */
  function Left(deadline: int, r: Round): int { Int32(deadline - r.readAt) }

  function TurnOf(deadline: int, limit: nat, requestId: nat, attempt: nat, r: Round): Turn {
    if Left(deadline, r) <= 0 then Expired
    else if r.result == OK || !IsRetryable(r.result) || attempt == limit then Done
    else if r.napAt + Backoff(attempt, requestId) >= deadline then Done
    else Again
  }

  /** What the retry loop makes of its passes: how it stands, its result, and the timeout the request is
      left with, which is the caller's again only when the loop ends with a result. */
  function RetryLoop(deadline: int, limit: nat, requestId: nat, callers: int, rounds: seq<Round>): Outcome {
    if rounds == [] then Outcome(Again, ERR_INTERNAL, callers)
    else
      var before := RetryLoop(deadline, limit, requestId, callers, rounds[..|rounds| - 1]);
      var last := rounds[|rounds| - 1];
      match TurnOf(deadline, limit, requestId, |rounds| - 1, last)
      case Expired => Outcome(Expired, ERR_TIMEOUT, before.timeoutMs)
      case Done => Outcome(Done, last.result, callers)
      case Again => Outcome(Again, last.result, Left(deadline, last))
  }

  /** Every pass but the last led to another. */
  ghost predicate Running(deadline: int, limit: nat, requestId: nat, rounds: seq<Round>) {
    forall i :: 0 <= i < |rounds| ==> TurnOf(deadline, limit, requestId, i, rounds[i]) == Again
  }

  ghost function CallsIn(rounds: seq<Round>): seq<Call> {
    if rounds == [] then [] else CallsIn(rounds[..|rounds| - 1]) + rounds[|rounds| - 1].calls
  }

  /** The backoffs after these passes. */
  ghost function Slept(requestId: nat, rounds: seq<Round>): seq<Nap> {
    if rounds == [] then []
    else Slept(requestId, rounds[..|rounds| - 1]) + [Nap(rounds[|rounds| - 1].napAt, Backoff(|rounds| - 1, requestId))]
  }

  /** How many of these rounds began. */
  ghost function Begun(deadline: int, rounds: seq<Round>): nat {
    if rounds == [] then 0
    else Begun(deadline, rounds[..|rounds| - 1]) + (if Left(deadline, rounds[|rounds| - 1]) > 0 then 1 else 0)
  }

  /** The response after these rounds: a round that begins starts with an empty one and leaves the transport's, with
      the number of the round; one without time left marks what it finds. */
  ghost function Given(deadline: int, incoming: Response, attempts: nat, rounds: seq<Round>): Response {
    if rounds == [] then incoming
    else if Left(deadline, rounds[|rounds| - 1]) > 0 then
      rounds[|rounds| - 1].pass.response.(attempts := attempts + Begun(deadline, rounds))
    else
      Given(deadline, incoming, attempts, rounds[..|rounds| - 1]).(errCode := ERR_TIMEOUT, failureStage := "deadline")
  }

  /** A response as the client hands it out: the number of rounds, the total time and the stage of a failure are
      filled in, where they are missing. */
  ghost predicate Finished(given: Response, begun: nat, result: int, response: Response) {
    && response == given.(attempts := if given.attempts < begun then begun else given.attempts,
                          totalMs := response.totalMs, failureStage := Explained(given, result).failureStage)
    && response.totalMs >= 0 && (given.totalMs >= 0 ==> response.totalMs == given.totalMs)
  }

  /** What the innermost loop gives its caller after these rounds. */
  ghost predicate Gave(innermost: bool, c: Context, incoming: Response, t: Trail, after: Context, response: Response) {
    innermost ==>
      && response == Given(t.deadline, incoming, c.attempts, t.rounds)
      && after.attempts == c.attempts + Begun(t.deadline, t.rounds)
  }

  /** What one round gives the next. */
  ghost predicate RoundGave(innermost: bool, before: Context, stale: Response, deadline: int, r: Round, after: Context,
                            response: Response) {
    innermost ==>
      if Left(deadline, r) > 0 then
        after.attempts == before.attempts + 1 && response == r.pass.response.(attempts := after.attempts)
      else after == before && response == stale.(errCode := ERR_TIMEOUT, failureStage := "deadline")
  }

  lemma {:induction false} GaveMore(innermost: bool, c: Context, incoming: Response, t: Trail, before: Context,
                                    stale: Response, r: Round, after: Context, response: Response)
    requires Gave(innermost, c, incoming, t, before, stale)
    requires RoundGave(innermost, before, stale, t.deadline, r, after, response)
    ensures Gave(innermost, c, incoming, t.(rounds := t.rounds + [r]), after, response)
  {
    assert (t.rounds + [r])[..|t.rounds|] == t.rounds;
  }

  /** When the next pass may begin: not before the backoff after the last one. */
  ghost function Earliest(from: nat, requestId: nat, rounds: seq<Round>): nat {
    if rounds == [] then from else rounds[|rounds| - 1].napAt + Backoff(|rounds| - 1, requestId)
  }

  /** A pass in its place in time: its calls are made between its two readings, and under what was left
      when it began; with no time left it makes none. */
  ghost predicate InPlace(k: Kit, innermost: bool, c: Context, earliest: nat, deadline: int, r: Round) {
    && earliest <= r.readAt <= r.napAt && (Left(deadline, r) <= 0 ==> r.calls == [])
    && (innermost ==> Within(r.calls, r.readAt, r.napAt, Left(deadline, r)) && ItRan(k, c, deadline, r))
  }

  ghost predicate Paced(k: Kit, innermost: bool, c: Context, from: nat, deadline: int, rounds: seq<Round>)
  {
    rounds == [] ||
    (Paced(k, innermost, c, from, deadline, rounds[..|rounds| - 1])
     && InPlace(k, innermost, c, Earliest(from, c.requestId, rounds[..|rounds| - 1]), deadline, rounds[|rounds| - 1]))
  }

  /** The deadline, the limit and the passes of a retry loop. */
  datatype Trail = Trail(deadline: int, limit: nat, rounds: seq<Round>)

  /** What the outcome of the loop says about its passes, and the other way round. */
  lemma {:induction false} LoopMeans(deadline: int, limit: nat, requestId: nat, callers: int, rounds: seq<Round>)
    requires rounds != [] && Running(deadline, limit, requestId, rounds[..|rounds| - 1])
    ensures var out := RetryLoop(deadline, limit, requestId, callers, rounds); var n := |rounds| - 1;
            && out.turn == TurnOf(deadline, limit, requestId, n, rounds[n])
            && out.timeoutMs == (if out.turn.Done? then callers
                                 else if out.turn.Again? then Left(deadline, rounds[n])
                                 else if n > 0 then Left(deadline, rounds[n - 1]) else callers)
            && out.result == (if out.turn.Expired? then ERR_TIMEOUT else rounds[n].result)
  {
    var n := |rounds| - 1;
    var init := rounds[..n];
    if n > 0 {
      assert TurnOf(deadline, limit, requestId, n - 1, init[n - 1]) == Again;
      assert init[..n - 1] == rounds[..n - 1];
    }
  }

  /** The request keeps a timeout other than the caller's exactly when the deadline had passed before a
      round after the first, and the last round that ran had another. */
  lemma {:induction false} TimeoutLeftExactly(deadline: int, limit: nat, requestId: nat, callers: int,
                                              rounds: seq<Round>)
    requires rounds != [] && Running(deadline, limit, requestId, rounds[..|rounds| - 1])
    requires !RetryLoop(deadline, limit, requestId, callers, rounds).turn.Again?
    ensures RetryLoop(deadline, limit, requestId, callers, rounds).timeoutMs != callers <==>
            && |rounds| > 1 && Left(deadline, rounds[|rounds| - 1]) <= 0
            && Left(deadline, rounds[|rounds| - 2]) != callers
  {
    LoopMeans(deadline, limit, requestId, callers, rounds);
  }

  /** It happens: a request with a timeout of 100 ms starts its first round 10 ms late, its name is not found, and
      the client sleeps past the deadline. The context is left with 90 ms. */
  lemma {:induction false} TimeoutLeftBehind(k: Kit, c: Context) returns (rounds: seq<Round>)
    requires k.probed && c.requestId == 0
    ensures |rounds| == 2 && Paced(k, true, c, 0, 100, rounds) && Running(100, 1, 0, rounds[..1])
    ensures RetryLoop(100, 1, 0, 100, rounds) == Outcome(Expired, ERR_TIMEOUT, 90)
  {
    var pass := Pass([Lookup(c.request.host, Resolution(ERR_DNS, [], 5, false))], [],
                     EMPTY_RESPONSE.(dnsMs := 5, errCode := ERR_DNS, failureStage := "dns"));
    var first, second := Round(10, pass, [], ERR_DNS, 20), Round(130, NO_PASS, [], ERR_TIMEOUT, 130);
    rounds := [first, second];
    assert TurnOf(100, 1, 0, 0, first) == Again && TurnOf(100, 1, 0, 1, second) == Expired;
    assert rounds[..|rounds| - 1] == [first] && [first][..|[first]| - 1] == [];
    assert InPlace(k, true, c, 0, 100, first) by { assert Left(100, first) == 90; }
    assert Paced(k, true, c, 0, 100, [first]) by { assert Paced(k, true, c, 0, 100, []); }
    assert InPlace(k, true, c, Earliest(0, 0, [first]), 100, second);
    assert rounds[..1] == [first] && Running(100, 1, 0, [first]);
    LoopMeans(100, 1, 0, 100, rounds);
  }

  lemma {:induction false} PlacedAt(k: Kit, innermost: bool, c: Context, from: nat, deadline: int, rounds: seq<Round>,
                                    i: nat)
    requires Paced(k, innermost, c, from, deadline, rounds) && i < |rounds|
    ensures InPlace(k, innermost, c, Earliest(from, c.requestId, rounds[..i]), deadline, rounds[i])
    decreases |rounds|
  {
    if i < |rounds| - 1 {
      PlacedAt(k, innermost, c, from, deadline, rounds[..|rounds| - 1], i);
      assert rounds[..|rounds| - 1][..i] == rounds[..i];
    } else {
      assert rounds[..i] == rounds[..|rounds| - 1];
    }
  }

  /** Every round is in its place; one that made a call began with time left. */
  lemma {:induction false} RoundsBegun(k: Kit, innermost: bool, c: Context, from: nat, deadline: int,
                                       rounds: seq<Round>, i: nat)
    requires Paced(k, innermost, c, from, deadline, rounds) && i < |rounds|
    ensures InPlace(k, innermost, c, Earliest(from, c.requestId, rounds[..i]), deadline, rounds[i])
    ensures rounds[i].calls != [] ==> (rounds[i].readAt - deadline) % INT_RANGE > INT_RANGE / 2
  {
    PlacedAt(k, innermost, c, from, deadline, rounds, i);
    TimeLeftExactly(deadline, rounds[i].readAt);
  }

  /** Between two passes: all so far failed in a way that may be repeated, and were slept off. */
  ghost predicate Between(k: Kit, innermost: bool, from: nat, clock: nat, c: Context, after: Context, perRound: nat,
                          t: Trail) {
    && Segment(c.policy, CallsIn(t.rounds), false) && |CallsIn(t.rounds)| <= |t.rounds| * perRound && Carried(c, after)
    && Paced(k, innermost, c, from, t.deadline, t.rounds) && Running(t.deadline, t.limit, c.requestId, t.rounds)
    && Earliest(from, c.requestId, t.rounds) <= clock
    && (innermost ==> OutcomeOf(c, t).timeoutMs == after.request.timeoutMs)
  }

  function OutcomeOf(c: Context, t: Trail): Outcome {
    RetryLoop(t.deadline, t.limit, c.requestId, c.request.timeoutMs, t.rounds)
  }

  /** The end of a retry loop: all passes in their places, each but the last leading to the next. */
  ghost predicate Ended(k: Kit, innermost: bool, from: nat, clock: nat, c: Context, t: Trail) {
    && t.rounds != [] && |t.rounds| <= t.limit + 1 && t.limit <= Limit(c)
    && Paced(k, innermost, c, from, t.deadline, t.rounds)
    && Running(t.deadline, t.limit, c.requestId, t.rounds[..|t.rounds| - 1])
    && t.rounds[|t.rounds| - 1].napAt <= clock && !OutcomeOf(c, t).turn.Again?
  }

  /** The deadline of a retry loop: the caller's, or the caller's timeout after a reading at its start. */
  ghost predicate DeadlineOf(c: Context, from: nat, t: Trail) {
    if c.deadlineMs > 0 then t.deadline == c.deadlineMs
    else t.rounds != [] && from <= t.deadline - c.request.timeoutMs <= t.rounds[0].readAt
  }

  /** What a part of the chain of interceptors does: engine calls, sleeps, and its run of the transport or the rounds
      of its retry loop. */
  datatype Effect = Effect(calls: seq<Call>, naps: seq<Nap>, pass: Pass, trail: Trail)

  /** What any part of the chain keeps. With no retry loop in it, it runs the transport once, its calls share the
      request's timeout and nothing sleeps; with one, calls and sleeps are those of its rounds, and so are its
      result and the timeout it leaves. */
  ghost predicate Kept(k: Kit, interceptors: seq<Interceptor>, index: nat, c: Context, incoming: Response, from: nat,
                       clock: nat, result: int, after: Context, e: Effect)
    requires index <= |interceptors|
  {
    && Segment(c.policy, e.calls, result == OK) && |e.calls| <= MaxCalls(interceptors, index, c) && Carried(c, after)
    && (match Retries(interceptors, index)
        case 0 =>
          && Within(e.calls, from, clock, Configured(c.request)) && e.naps == []
          && after.request.timeoutMs == c.request.timeoutMs
          && Ran(k, c.request, c.policy, incoming, e.pass, e.calls, result)
        case 1 => Looped(k, true, c, from, clock, result, after, e)
        case _ => true)
  }

  /** What a part of the chain gives its caller: the response, and the number of rounds in the context. */
  ghost predicate Replied(interceptors: seq<Interceptor>, index: nat, c: Context, incoming: Response, after: Context,
                           response: Response, e: Effect)
    requires index <= |interceptors|
  {
    match Retries(interceptors, index)
    case 0 => response == e.pass.response && after.attempts == c.attempts
    case 1 => Gave(true, c, incoming, e.trail, after, response)
    case _ => true
  }

  /** The lookups a part of the chain made, and its looks at the circuit breaker. */
  ghost predicate Looked(interceptors: seq<Interceptor>, index: nat, c: Context, was: seq<Lookup>, have: seq<Lookup>,
                         trace: seq<Event>, e: Effect)
    requires index <= |interceptors|
  {
    match Retries(interceptors, index)
    case 0 => have == was + e.pass.lookups && PassSeen(trace, c.request, c.policy, e.pass)
    case 1 => have == was + LookupsIn(e.trail.rounds) && RoundsSeen(trace, c, e.trail.rounds)
    case _ => true
  }

  ghost predicate Looped(k: Kit, innermost: bool, c: Context, from: nat, clock: nat, result: int, after: Context,
                         e: Effect) {
    && Ended(k, innermost, from, clock, c, e.trail) && DeadlineOf(c, from, e.trail)
    && e.calls == CallsIn(e.trail.rounds)
    && result == OutcomeOf(c, e.trail).result
    && (innermost ==>
          && after.request.timeoutMs == OutcomeOf(c, e.trail).timeoutMs
          && e.naps == Slept(c.requestId, e.trail.rounds[..|e.trail.rounds| - 1]))
  }

  /** The retry loop after some passes. */
  ghost predicate Going(k: Kit, innermost: bool, from: nat, clock: nat, c: Context, after: Context, perRound: nat,
                        deadline: int, attempt: nat, t: Trail, turn: Turn, result: int) {
    && t == Trail(deadline, Limit(c), t.rounds) && |t.rounds| == attempt && (turn.Again? || attempt > 0)
    && from <= clock
    && (attempt > 0 ==> from <= t.rounds[0].readAt)
    && Standing(k, innermost, from, clock, c, after, perRound, t, turn, result)
  }

  /** What the world has logged. */
  datatype Record = Record(calls: seq<Call>, lookups: seq<Lookup>, naps: seq<Nap>)

  /** What a retry loop has added to that, and to the circuit breaker's history, so far. */
  ghost predicate Logged(innermost: bool, was: Record, c: Context, t: Trail, turn: Turn, have: Record,
                         trace: seq<Event>) {
    && have.calls == was.calls + CallsIn(t.rounds) && was.naps <= have.naps
    && (innermost ==>
          && have.naps == was.naps + Slept(c.requestId, Napped(t, turn))
          && have.lookups == was.lookups + LookupsIn(t.rounds) && RoundsSeen(trace, c, t.rounds))
  }

  /** The rounds that were slept off. */
  ghost function Napped(t: Trail, turn: Turn): seq<Round> {
    if turn.Again? || t.rounds == [] then t.rounds else t.rounds[..|t.rounds| - 1]
  }

  lemma {:induction false} LoopStarts(k: Kit, innermost: bool, clock: nat, c: Context, perRound: nat, deadline: int,
                                      was: Record, trace: seq<Event>)
    ensures Going(k, innermost, clock, clock, c, c, perRound, deadline, 0, Trail(deadline, Limit(c), []), Again,
                  ERR_INTERNAL)
    ensures Logged(innermost, was, c, Trail(deadline, Limit(c), []), Again, was, trace)
  {
    assert OutcomeOf(c, Trail(deadline, Limit(c), [])).timeoutMs == c.request.timeoutMs;
  }

  lemma {:induction false} OneMorePass(requestId: nat, rounds: seq<Round>, r: Round)
    ensures CallsIn(rounds + [r]) == CallsIn(rounds) + r.calls
    ensures LookupsIn(rounds + [r]) == LookupsIn(rounds) + r.pass.lookups
    ensures Slept(requestId, rounds + [r]) == Slept(requestId, rounds) + [Nap(r.napAt, Backoff(|rounds|, requestId))]
    ensures (rounds + [r])[..|rounds|] == rounds
  {
    assert (rounds + [r])[..|rounds|] == rounds;
  }

  lemma {:induction false} LoopLooks(interceptors: seq<Interceptor>, index: nat, c: Context, turn: Turn, was: Record,
                                     have: Record, trace: seq<Event>, e: Effect)
    requires index < |interceptors| && interceptors[index] == Retry
    requires Logged(Retries(interceptors, index + 1) == 0, was, c, e.trail, turn, have, trace)
    ensures Looked(interceptors, index, c, was.lookups, have.lookups, trace, e)
  {}

  /** What one pass has added. */
  ghost predicate RoundLogged(innermost: bool, c: Context, mid: Record, have: Record, trace: seq<Event>, attempt: nat,
                              r: Round, turn: Turn) {
    && have.calls == mid.calls + r.calls && mid.naps <= have.naps
    && (innermost ==>
          && have.naps == mid.naps + (if turn.Again? then [Nap(r.napAt, Backoff(attempt, c.requestId))] else [])
          && have.lookups == mid.lookups + r.pass.lookups && PassSeen(trace, c.request, c.policy, r.pass))
  }

  /** A round's part of that, and its backoff's. */
  lemma {:induction false} RoundLogs(innermost: bool, c: Context, mid: Record, ran: Record, have: Record,
                                     trace: seq<Event>, attempt: nat, e: Effect, r: Round, turn: Turn)
    requires ran.calls == mid.calls + e.calls && ran.naps == mid.naps + e.naps && r.pass == e.pass && r.calls == e.calls
    requires innermost ==>
               e.naps == [] && ran.lookups == mid.lookups + e.pass.lookups
               && PassSeen(trace, c.request, c.policy, e.pass)
    requires have.calls == ran.calls && have.lookups == ran.lookups
    requires have.naps == ran.naps + (if turn.Again? then [Nap(r.napAt, Backoff(attempt, c.requestId))] else [])
    ensures RoundLogged(innermost, c, mid, have, trace, attempt, r, turn)
  {}

  lemma {:induction false} LogStep(innermost: bool, was: Record, c: Context, t: Trail, mid: Record, have: Record,
                                   trace: seq<Event>, later: seq<Event>, r: Round, turn: Turn)
    requires Logged(innermost, was, c, t, Again, mid, trace) && trace <= later
    requires RoundLogged(innermost, c, mid, have, later, |t.rounds|, r, turn)
    ensures Logged(innermost, was, c, t.(rounds := t.rounds + [r]), turn, have, later)
  {
    var rounds := t.rounds;
    OneMorePass(c.requestId, rounds, r);
    Appended(was.calls, CallsIn(rounds), r.calls, CallsIn(rounds + [r]), mid.calls, have.calls);
    if innermost {
      Appended(was.lookups, LookupsIn(rounds), r.pass.lookups, LookupsIn(rounds + [r]), mid.lookups, have.lookups);
      RoundsSeenMore(trace, later, c, rounds, r);
      var nap := [Nap(r.napAt, Backoff(|rounds|, c.requestId))];
      if turn.Again? {
        Appended(was.naps, Slept(c.requestId, rounds), nap, Slept(c.requestId, rounds + [r]), mid.naps, have.naps);
      }
    }
  }

  /** The log after one more pass. */
  lemma {:induction false} PassCalls(policy: int, perRound: nat, rounds: seq<Round>, r: Round)
    requires Segment(policy, CallsIn(rounds), false) && |CallsIn(rounds)| <= |rounds| * perRound
    requires Segment(policy, r.calls, r.result == OK) && |r.calls| <= perRound
    ensures Segment(policy, CallsIn(rounds + [r]), r.result == OK)
    ensures |CallsIn(rounds + [r])| <= |rounds + [r]| * perRound
  {
    OneMorePass(0, rounds, r);
    SegmentsJoin(policy, CallsIn(rounds), r.calls, r.result == OK);
    NextRound(|rounds|, perRound, |CallsIn(rounds)|, |r.calls|);
  }

  /** The passes after one more, whether it ends the loop or leads to another. */
  lemma {:induction false} PassTimes(k: Kit, innermost: bool, from: nat, clock: nat, later: nat, c: Context,
                                     after: Context, perRound: nat, t: Trail, r: Round)
    requires Between(k, innermost, from, clock, c, after, perRound, t) && |t.rounds| <= t.limit <= Limit(c)
    requires InPlace(k, innermost, c, clock, t.deadline, r) && r.napAt <= later
    ensures var next := t.(rounds := t.rounds + [r]);
            var turn := TurnOf(t.deadline, t.limit, c.requestId, |t.rounds|, r);
            && Paced(k, innermost, c, from, t.deadline, next.rounds)
            && OutcomeOf(c, next) == (match turn
                                      case Expired => Outcome(Expired, ERR_TIMEOUT, OutcomeOf(c, t).timeoutMs)
                                      case Done => Outcome(Done, r.result, c.request.timeoutMs)
                                      case Again => Outcome(Again, r.result, Left(t.deadline, r)))
            && (!turn.Again? ==> Ended(k, innermost, from, later, c, next))
            && (turn.Again? ==> Running(t.deadline, t.limit, c.requestId, next.rounds) && |next.rounds| <= t.limit)
  {
    OneMorePass(c.requestId, t.rounds, r);
  }

  /** How the retry loop stands after a pass: between passes, or at its end. */
  ghost predicate Standing(k: Kit, innermost: bool, from: nat, clock: nat, c: Context, after: Context, perRound: nat,
                           t: Trail, turn: Turn, result: int) {
    if turn.Again? then Between(k, innermost, from, clock, c, after, perRound, t) && |t.rounds| <= t.limit
    else
      && Ended(k, innermost, from, clock, c, t) && OutcomeOf(c, t).turn == turn && result == OutcomeOf(c, t).result
      && Segment(c.policy, CallsIn(t.rounds), result == OK) && |CallsIn(t.rounds)| <= |t.rounds| * perRound
      && Carried(c, after)
      && (turn.Expired? && innermost ==> after.request.timeoutMs == OutcomeOf(c, t).timeoutMs)
  }

  /** A pass as it was made: in its place, with an outcome that its readings and its result determine. */
  ghost predicate Made(k: Kit, innermost: bool, start: nat, later: nat, c: Context, before: Context, after: Context,
                       perRound: nat, deadline: int, attempt: nat, r: Round, turn: Turn) {
    && InPlace(k, innermost, c, start, deadline, r) && r.napAt <= later && Carried(c, after)
    && Segment(c.policy, r.calls, r.result == OK) && |r.calls| <= perRound
    && turn == TurnOf(deadline, Limit(c), c.requestId, attempt, r)
    && (turn.Again? ==> r.napAt + Backoff(attempt, c.requestId) <= later && (innermost ==>
          after.request.timeoutMs == Left(deadline, r)))
    && (turn.Expired? ==> after == before && r.result == ERR_TIMEOUT)
  }

  /** One pass takes the loop from between passes to there again, or to its end. */
  lemma {:induction false} OnePass(k: Kit, innermost: bool, from: nat, start: nat, later: nat, c: Context,
                                   before: Context, after: Context, perRound: nat, t: Trail, r: Round, turn: Turn)
    requires Between(k, innermost, from, start, c, before, perRound, t) && |t.rounds| <= t.limit == Limit(c)
    requires Made(k, innermost, start, later, c, before, after, perRound, t.deadline, |t.rounds|, r, turn)
    ensures Standing(k, innermost, from, later, c, after, perRound, t.(rounds := t.rounds + [r]), turn, r.result)
  {
    PassTimes(k, innermost, from, start, later, c, before, perRound, t, r);
    PassCalls(c.policy, perRound, t.rounds, r);
    OneMorePass(c.requestId, t.rounds, r);
  }

  lemma {:induction false} InPlaceLonger(k: Kit, innermost: bool, c: Context, earliest: nat, deadline: int, r: Round,
                                         napAt: nat)
    requires InPlace(k, innermost, c, earliest, deadline, r) && r.napAt <= napAt
    ensures InPlace(k, innermost, c, earliest, deadline, r.(napAt := napAt))
  {
    if innermost { WithinWider(r.calls, r.readAt, r.readAt, r.napAt, napAt, Left(deadline, r)); }
  }

  /** A round that ran, with what came after it. */
  lemma {:induction false} RoundMade(k: Kit, innermost: bool, now: nat, ran: nat, napAt: nat, later: nat, c: Context,
                                     before: Context, after: Context, perRound: nat, deadline: int, attempt: nat,
                                     pass: Pass, calls: seq<Call>, result: int, turn: Turn)
    requires InPlace(k, innermost, c, now, deadline, Round(now, pass, calls, result, ran)) && ran <= napAt <= later
    requires Int32(deadline - now) > 0
    requires Segment(c.policy, calls, result == OK) && |calls| <= perRound && Carried(c, after)
    requires innermost ==> after.request.timeoutMs == Int32(deadline - now)
    requires turn == TurnOf(deadline, Limit(c), c.requestId, attempt, Round(now, pass, calls, result, napAt))
    requires turn.Again? ==> napAt + Backoff(attempt, c.requestId) <= later
    ensures Made(k, innermost, now, later, c, before, after, perRound, deadline, attempt,
                 Round(now, pass, calls, result, napAt), turn)
  {
    InPlaceLonger(k, innermost, c, now, deadline, Round(now, pass, calls, result, ran), napAt);
  }

  lemma {:induction false} MadeSooner(k: Kit, innermost: bool, sooner: nat, start: nat, later: nat, c: Context,
                                      before: Context, after: Context, perRound: nat, deadline: int, attempt: nat,
                                      r: Round, turn: Turn)
    requires Made(k, innermost, start, later, c, before, after, perRound, deadline, attempt, r, turn) && sooner <= start
    ensures Made(k, innermost, sooner, later, c, before, after, perRound, deadline, attempt, r, turn)
  {}

  lemma {:induction false} ExpiredMade(k: Kit, innermost: bool, start: nat, now: nat, c: Context, before: Context,
                                       perRound: nat, deadline: int, attempt: nat)
    requires start <= now && Int32(deadline - now) <= 0 && Carried(c, before)
    ensures Made(k, innermost, start, now, c, before, before, perRound, deadline, attempt,
                 Round(now, NO_PASS, [], ERR_TIMEOUT, now), Expired)
  {}

  lemma {:induction false} NextRound(rounds: nat, perRound: nat, calls: nat, more: nat)
    requires calls <= rounds * perRound && more <= perRound
    ensures calls + more <= (rounds + 1) * perRound
  {}

  lemma {:induction false} FewerRetries(interceptors: seq<Interceptor>, index: nat, a: Context, b: Context)
    requires index <= |interceptors| && a.request.retrySafe == b.request.retrySafe
    requires Max0(a.maxRetries) <= Max0(b.maxRetries)
    ensures MaxCalls(interceptors, index, a) <= MaxCalls(interceptors, index, b)
  {
    BoundMonotone(Retries(interceptors, index), Max0(a.maxRetries), Max0(b.maxRetries));
  }

  lemma {:induction false} CallsFit(interceptors: seq<Interceptor>, index: nat, c: Context, rounds: nat, calls: nat)
    requires index < |interceptors| && interceptors[index] == Retry
    requires rounds <= (if c.request.retrySafe then Max0(c.maxRetries) else 0) + 1
    requires calls <= rounds * MaxCalls(interceptors, index + 1, c)
    ensures calls <= MaxCalls(interceptors, index, c)
  {
    Product(rounds, MaxCalls(interceptors, index + 1, c),
            (if c.request.retrySafe then Max0(c.maxRetries) else 0) + 1, MaxCalls(interceptors, index + 1, c));
  }

  /** What the prober says of the link, if there is one. */
  datatype Link = Unwatched | Fine | Weak | Down

  /** What the weak-network guard makes of a context: a weak link leaves at most one retry, none when it is down. */
  function Guarded(link: Link, c: Context): Context {
    match link
    case Unwatched => c
    case Fine => c.(weakNetwork := false)
    case Weak => c.(weakNetwork := true, maxRetries := if c.maxRetries < 1 then c.maxRetries else 1)
    case Down => c.(weakNetwork := true, maxRetries := 0)
  }

  /** The retries the first retry loop of a stack is allowed. */
  function LimitAt(interceptors: seq<Interceptor>, index: nat, link: Link, c: Context): nat
    requires index <= |interceptors|
    decreases |interceptors| - index
  {
    if index == |interceptors| then 0
    else if interceptors[index] == Retry then Limit(c)
    else LimitAt(interceptors, index + 1, link, Guarded(link, c))
  }

  /** What a loop says of a context rests on its request, its policy and its number. */
  predicate Alike(c: Context, d: Context) {
    c.request == d.request && c.policy == d.policy && c.requestId == d.requestId
  }

  lemma {:induction false} PacedAlike(k: Kit, innermost: bool, c: Context, d: Context, from: nat, deadline: int,
                                      rounds: seq<Round>)
    requires Paced(k, innermost, c, from, deadline, rounds) && Alike(c, d)
    ensures Paced(k, innermost, d, from, deadline, rounds)
    decreases |rounds|
  {
    if rounds != [] {
      PacedAlike(k, innermost, c, d, from, deadline, rounds[..|rounds| - 1]);
      assert ItRan(k, c, deadline, rounds[|rounds| - 1]) == ItRan(k, d, deadline, rounds[|rounds| - 1]);
    }
  }

  lemma {:induction false} LoopedAlike(k: Kit, c: Context, d: Context, from: nat, clock: nat, result: int,
                                       after: Context, e: Effect)
    requires Looped(k, true, c, from, clock, result, after, e) && Alike(c, d) && c.deadlineMs == d.deadlineMs
    requires Limit(c) <= Limit(d)
    ensures Looped(k, true, d, from, clock, result, after, e)
  {
    PacedAlike(k, true, c, d, from, e.trail.deadline, e.trail.rounds);
    assert OutcomeOf(c, e.trail) == OutcomeOf(d, e.trail);
  }

  /** The weak-network guard passes on what the rest of the chain does. */
  lemma {:induction false} GuardKeeps(k: Kit, interceptors: seq<Interceptor>, index: nat, link: Link, c: Context,
                                      incoming: Response, from: nat, clock: nat, result: int, after: Context, e: Effect)
    requires index < |interceptors| && interceptors[index] == WeakNet
    requires Kept(k, interceptors, index + 1, Guarded(link, c), incoming, from, clock, result, after, e)
    ensures Kept(k, interceptors, index, c, incoming, from, clock, result, after, e)
  {
    var guarded := Guarded(link, c);
    BoundMonotone(Retries(interceptors, index), Max0(guarded.maxRetries), Max0(c.maxRetries));
    if Retries(interceptors, index) == 1 { LoopedAlike(k, guarded, c, from, clock, result, after, e); }
  }

  lemma {:induction false} GuardBounds(k: Kit, interceptors: seq<Interceptor>, index: nat, link: Link, c: Context,
                                       incoming: Response, from: nat, clock: nat, result: int, after: Context,
                                       e: Effect)
    requires index < |interceptors| && interceptors[index] == WeakNet
    requires Kept(k, interceptors, index + 1, Guarded(link, c), incoming, from, clock, result, after, e)
    ensures link.Down? && c.request.retrySafe ==> |e.calls| <= Bound(Retries(interceptors, index), 0)
  {}

  lemma {:induction false} GuardLooks(interceptors: seq<Interceptor>, index: nat, link: Link, c: Context,
                                      was: seq<Lookup>, have: seq<Lookup>, trace: seq<Event>, e: Effect)
    requires index < |interceptors| && interceptors[index] == WeakNet
    requires Looked(interceptors, index + 1, Guarded(link, c), was, have, trace, e)
    ensures Looked(interceptors, index, c, was, have, trace, e)
  {
    var rounds := e.trail.rounds;
    if Retries(interceptors, index) == 1 {
      forall i | 0 <= i < |rounds| ensures PassSeen(trace, c.request, c.policy, rounds[i].pass) {
        assert PassSeen(trace, Guarded(link, c).request, Guarded(link, c).policy, rounds[i].pass);
      }
    }
  }

  lemma {:induction false} GuardReplies(interceptors: seq<Interceptor>, index: nat, link: Link, c: Context,
                                        incoming: Response, after: Context, response: Response, e: Effect)
    requires index < |interceptors| && interceptors[index] == WeakNet
    requires Replied(interceptors, index + 1, Guarded(link, c), incoming, after, response, e)
    ensures Replied(interceptors, index, c, incoming, after, response, e)
  {}

  /** The end of a loop that is over. */
  lemma {:induction false} EndMeans(c: Context, t: Trail)
    requires t.rounds != [] && Running(t.deadline, t.limit, c.requestId, t.rounds[..|t.rounds| - 1])
    ensures OutcomeOf(c, t).turn.Done? ==> OutcomeOf(c, t).timeoutMs == c.request.timeoutMs
  {
    LoopMeans(t.deadline, t.limit, c.requestId, c.request.timeoutMs, t.rounds);
  }

  /** A retry loop that has ended, with the caller's timeout put back after a result. */
  lemma {:induction false} LoopEnds(k: Kit, interceptors: seq<Interceptor>, index: nat, c: Context, incoming: Response,
                                    entered: nat, from: nat, clock: nat, left: Context, after: Context, attempt: nat,
                                    turn: Turn, result: int, was: Record, have: Record, trace: seq<Event>, e: Effect)
    requires index < |interceptors| && interceptors[index] == Retry && entered <= from && !turn.Again?
    requires e.trail.deadline == if c.deadlineMs > 0 then c.deadlineMs else from + c.request.timeoutMs
    requires Going(k, Retries(interceptors, index + 1) == 0, from, clock, c, left, MaxCalls(interceptors, index + 1, c),
                   e.trail.deadline,
                   attempt, e.trail, turn, result)
    requires Logged(Retries(interceptors, index + 1) == 0, was, c, e.trail, turn, have, trace)
    requires e.calls == CallsIn(e.trail.rounds) && e.naps == have.naps[|was.naps|..]
    requires after == if turn.Done? then left.(request := left.request.(timeoutMs := c.request.timeoutMs)) else left
    ensures have.calls == was.calls + e.calls && have.naps == was.naps + e.naps && OutcomeOf(c, e.trail).turn == turn
    ensures Looped(k, Retries(interceptors, index + 1) == 0, c, entered, clock, result, after, e)
    ensures Kept(k, interceptors, index, c, incoming, entered, clock, result, after, e)
  {
    CallsFit(interceptors, index, c, |e.trail.rounds|, |e.calls|);
    EndMeans(c, e.trail);
    PacedSooner(k, Retries(interceptors, index + 1) == 0, c, from, entered, e.trail.deadline, e.trail.rounds);
  }

  lemma {:induction false} PacedSooner(k: Kit, innermost: bool, c: Context, from: nat, sooner: nat, deadline: int,
                                       rounds: seq<Round>)
    requires Paced(k, innermost, c, from, deadline, rounds) && sooner <= from
    ensures Paced(k, innermost, c, sooner, deadline, rounds)
    decreases |rounds|
  {
    if rounds != [] { PacedSooner(k, innermost, c, from, sooner, deadline, rounds[..|rounds| - 1]); }
  }

  /** The context of a new request. */
  function NewContext(req: Request, policy: int, requestId: nat, epoch: nat, timeout: int, started: nat): Context {
    Preset(Context(req.(timeoutMs := timeout, networkEpoch := epoch), policy, requestId, epoch, 0, 0, started + timeout,
                   false, false, false))
  }

  ghost predicate Prepared(context: Context, c: Context) { c == NormalizeRetrySafety(context) && c.maxRetries <= 1 }

  /** And as the orchestrator takes it. */
  lemma {:induction false} NewContextNormalized(req: Request, policy: int, requestId: nat, epoch: nat, timeout: int,
                                                started: nat, link: Link)
    ensures var c := NormalizeRetrySafety(NewContext(req, policy, requestId, epoch, timeout, started));
            && c.request == req.(timeoutMs := timeout, networkEpoch := epoch, retrySafe := c.request.retrySafe)
            && c.policy == policy && c.requestId == requestId && c.deadlineMs == started + timeout
            && c.maxRetries == (if c.request.retrySafe then 1 else 0)
            && Limit(Guarded(link, c)) == (if c.request.retrySafe && !link.Down? then 1 else 0)
            && (c.request.retrySafe <==>
                  || req.retrySafe
                  || (req.body == [] && (req.method_ == "GET" || req.method_ == "HEAD" || req.method_ == "OPTIONS"))
                  || (req.idempotent && ShowsKey(req.headers)))
  {
    KeyIsShown(req.headers);
    var context := NewContext(req, policy, requestId, epoch, timeout, started);
    assert Replayable(context.request) <==> Replayable(req);
  }

  /** The timeout a request gets: its own, the configured one, or 15 seconds. */
  function Budget(r: Request, defaultTimeout: int): (ms: int)
    ensures ms > 0 && (r.timeoutMs > 0 ==> ms == r.timeoutMs)
  {
    if r.timeoutMs > 0 then r.timeoutMs else if defaultTimeout > 0 then defaultTimeout else 15000
  }

  /** A round that made calls began with time left by the 32-bit reading, and every call was made after
      that, with at most that and at least what was still left when it started. */
  ghost predicate BegunInTime(deadline: int, r: Round) {
    && (r.calls != [] ==> Left(deadline, r) > 0 && (r.readAt - deadline) % INT_RANGE > INT_RANGE / 2)
    && Within(r.calls, r.readAt, r.napAt, Left(deadline, r))
  }

  lemma {:induction false} RoundTimes(k: Kit, c: Context, from: nat, deadline: int, rounds: seq<Round>, i: nat)
    requires Paced(k, true, c, from, deadline, rounds) && i < |rounds|
    ensures BegunInTime(deadline, rounds[i]) && ItRan(k, c, deadline, rounds[i])
    ensures i == 0 ==> from <= rounds[i].readAt
  {
    RoundsBegun(k, true, c, from, deadline, rounds, i);
  }

  ghost predicate AllBegunInTime(t: Trail) { forall i :: 0 <= i < |t.rounds| ==> BegunInTime(t.deadline, t.rounds[i]) }

  ghost predicate AllRan(k: Kit, c: Context, t: Trail) {
    forall i :: 0 <= i < |t.rounds| ==> ItRan(k, c, t.deadline, t.rounds[i])
  }

  /** A round follows another exactly while one may. */
  ghost predicate GoesOnRightly(requestId: nat, t: Trail) {
    forall i :: 0 <= i < |t.rounds| ==>
      (TurnOf(t.deadline, t.limit, requestId, i, t.rounds[i]).Again? <==> i < |t.rounds| - 1)
  }

  ghost predicate NapsInTime(deadline: int, naps: seq<Nap>) {
    forall i :: 0 <= i < |naps| ==> naps[i].from + naps[i].ms < deadline
  }

  /** The rounds of a finished loop: each began in time and ran the transport just when it had time left; no sleep
      reaches the deadline. */
  lemma {:induction false} RequestTimes(k: Kit, c: Context, from: nat, clock: nat, result: int, after: Context,
                                        e: Effect)
    requires Looped(k, true, c, from, clock, result, after, e)
    ensures from <= e.trail.rounds[0].readAt && AllBegunInTime(e.trail) && AllRan(k, c, e.trail)
    ensures e.naps == Slept(c.requestId, e.trail.rounds[..|e.trail.rounds| - 1]) && NapsInTime(e.trail.deadline, e.naps)
  {
    var t := e.trail;
    RoundTimes(k, c, from, t.deadline, t.rounds, 0);
    forall i | 0 <= i < |t.rounds| ensures BegunInTime(t.deadline, t.rounds[i]) {
      RoundTimes(k, c, from, t.deadline, t.rounds, i);
    }
    forall i | 0 <= i < |t.rounds| ensures ItRan(k, c, t.deadline, t.rounds[i]) {
      RoundTimes(k, c, from, t.deadline, t.rounds, i);
    }
    SleptInTime(t.deadline, t.limit, c.requestId, t.rounds[..|t.rounds| - 1]);
  }

  lemma {:induction false} LastTurn(c: Context, t: Trail)
    requires t.rounds != [] && Running(t.deadline, t.limit, c.requestId, t.rounds[..|t.rounds| - 1])
    ensures var last := t.rounds[|t.rounds| - 1];
            && OutcomeOf(c, t).turn == TurnOf(t.deadline, t.limit, c.requestId, |t.rounds| - 1, last)
            && (OutcomeOf(c, t).turn.Expired? <==> Left(t.deadline, last) <= 0)
            && OutcomeOf(c, t).result == if OutcomeOf(c, t).turn.Expired? then ERR_TIMEOUT else last.result
  {
    LoopMeans(t.deadline, t.limit, c.requestId, c.request.timeoutMs, t.rounds);
  }

  /** The result of a finished loop is that of its last round, and it went on for exactly as long as it may. */
  lemma {:induction false} RequestResult(k: Kit, c: Context, from: nat, clock: nat, result: int, after: Context,
                                         e: Effect)
    requires Looped(k, true, c, from, clock, result, after, e)
    ensures result == e.trail.rounds[|e.trail.rounds| - 1].result && GoesOnRightly(c.requestId, e.trail)
  {
    var t := e.trail;
    LastTurn(c, t);
    RoundTimes(k, c, from, t.deadline, t.rounds, |t.rounds| - 1);
    assert ItRan(k, c, t.deadline, t.rounds[|t.rounds| - 1]);
    WentOn(c, t);
  }

  /** With at most one retry there are at most two rounds, and the second exactly after a failure that may be repeated
      and a backoff that ends before the deadline. */
  lemma {:induction false} SecondRound(requestId: nat, t: Trail)
    requires GoesOnRightly(requestId, t) && t.rounds != [] && t.limit <= 1
    ensures |t.rounds| <= 2
    ensures |t.rounds| == 2 <==>
              && t.limit == 1 && Left(t.deadline, t.rounds[0]) > 0
              && t.rounds[0].result in {-5, -6, -7, -9, -11, -13}
              && t.rounds[0].napAt + 50 + requestId % 31 < t.deadline
    ensures Slept(requestId, t.rounds[..|t.rounds| - 1]) ==
            if |t.rounds| == 2 then [Nap(t.rounds[0].napAt, 50 + requestId % 31)] else []
  {
    assert TurnOf(t.deadline, t.limit, requestId, 0, t.rounds[0]).Again? <==> 0 < |t.rounds| - 1;
    if |t.rounds| > 1 {
      assert TurnOf(t.deadline, t.limit, requestId, 1, t.rounds[1]).Again? <==> 1 < |t.rounds| - 1;
      assert t.rounds[..1] == [t.rounds[0]] && [t.rounds[0]][..0] == [];
    }
  }

  /** Every round of a loop that ended well began. */
  lemma {:induction false} AllBegun(deadline: int, limit: nat, requestId: nat, rounds: seq<Round>)
    requires Running(deadline, limit, requestId, rounds)
    ensures Begun(deadline, rounds) == |rounds|
    decreases |rounds|
  {
    if rounds != [] {
      AllBegun(deadline, limit, requestId, rounds[..|rounds| - 1]);
      assert TurnOf(deadline, limit, requestId, |rounds| - 1, rounds[|rounds| - 1]) == Again;
    }
  }

  /** A loop that ends well answers what its last call did. */
  lemma {:induction false} LoopSucceeds(k: Kit, c: Context, incoming: Response, t: Trail)
    requires t.rounds != [] && Running(t.deadline, t.limit, c.requestId, t.rounds[..|t.rounds| - 1])
    requires AllRan(k, c, t) && t.rounds[|t.rounds| - 1].result == OK
    ensures CallsIn(t.rounds) != [] && LookupsIn(t.rounds) != [] && t.rounds[|t.rounds| - 1].pass.attempts != []
    ensures var calls := CallsIn(t.rounds); var lookups := LookupsIn(t.rounds);
            var last := calls[|calls| - 1]; var attempts := t.rounds[|t.rounds| - 1].pass.attempts;
            Given(t.deadline, incoming, c.attempts, t.rounds) ==
            last.answer.(protocol := ProtocolOf(last.engine),
                         degraded := DegradedBy(attempts[|attempts| - 1].course.fates),
                         attempts := c.attempts + |t.rounds|,
                         dnsMs := if last.answer.dnsMs < 0 then lookups[|lookups| - 1].found.elapsedMs
                                  else last.answer.dnsMs)
  {
    var n := |t.rounds| - 1;
    var r := t.rounds[n];
    assert ItRan(k, c, t.deadline, r);
    RanSucceeds(k, c.request.(timeoutMs := Left(t.deadline, r)), c.policy, EMPTY_RESPONSE, r.pass, r.calls);
    AllBegun(t.deadline, t.limit, c.requestId, t.rounds[..n]);
  }

  /** A loop whose last round began and failed answers what the last call of that round did. */
  lemma {:induction false} LoopFails(k: Kit, c: Context, incoming: Response, t: Trail)
    requires t.rounds != [] && AllRan(k, c, t) && t.rounds[|t.rounds| - 1].result != OK
    requires Left(t.deadline, t.rounds[|t.rounds| - 1]) > 0
    ensures var g := Given(t.deadline, incoming, c.attempts, t.rounds); var last := t.rounds[|t.rounds| - 1];
            && g == LastOf(last.calls, EMPTY_RESPONSE).(errCode := last.result, attempts := g.attempts,
                                                        dnsMs := g.dnsMs, failureStage := g.failureStage)
            && g.failureStage != []
  {
    var r := t.rounds[|t.rounds| - 1];
    assert ItRan(k, c, t.deadline, r);
    RanFails(k, c.request.(timeoutMs := Left(t.deadline, r)), c.policy, EMPTY_RESPONSE, r.pass, r.calls, r.result);
  }

  /** A success answers what the last engine called did, marked with its protocol and the number of rounds, and with
      the times the engine left out. */
  ghost predicate AnswersLastCall(log: seq<Call>, lookups: seq<Lookup>, t: Trail, response: Response) {
    && log != [] && lookups != [] && t.rounds != [] && t.rounds[|t.rounds| - 1].pass.attempts != []
    && var last, attempts := log[|log| - 1], t.rounds[|t.rounds| - 1].pass.attempts;
       response == last.answer.(protocol := if last.engine.H1? then 1 else if last.engine.H2? then 2 else 3,
                                degraded := DegradedBy(attempts[|attempts| - 1].course.fates),
                                attempts := |t.rounds|,
                                dnsMs := if last.answer.dnsMs >= 0 then last.answer.dnsMs
                                         else lookups[|lookups| - 1].found.elapsedMs,
                                totalMs := if last.answer.totalMs >= 0 then last.answer.totalMs else response.totalMs)
  }

  /** A failure answers, with its error and its stage, what the last engine called in the last round did, if that
      round began. */
  ghost predicate AnswersFailure(t: Trail, result: int, response: Response) {
    && response.errCode == result && response.failureStage != [] && t.rounds != []
    && var last := t.rounds[|t.rounds| - 1];
       Left(t.deadline, last) > 0 ==>
         response == LastOf(last.calls, EMPTY_RESPONSE).(errCode := result, attempts := response.attempts,
                                                         dnsMs := response.dnsMs, totalMs := response.totalMs,
                                                         failureStage := response.failureStage)
  }

  lemma {:induction false} RequestSucceeds(k: Kit, c: Context, incoming: Response, t: Trail, was: seq<Call>,
                                           log: seq<Call>, found: seq<Lookup>, lookups: seq<Lookup>,
                                           response: Response)
    requires t.rounds != [] && Running(t.deadline, t.limit, c.requestId, t.rounds[..|t.rounds| - 1])
    requires AllRan(k, c, t) && t.rounds[|t.rounds| - 1].result == OK && c.attempts == 0
    requires log == was + CallsIn(t.rounds) && lookups == found + LookupsIn(t.rounds)
    requires Finished(Given(t.deadline, incoming, 0, t.rounds), Begun(t.deadline, t.rounds), OK, response)
    ensures AnswersLastCall(log, lookups, t, response)
  {
    LoopSucceeds(k, c, incoming, t);
    LastStays(was, CallsIn(t.rounds), log);
    LastStays(found, LookupsIn(t.rounds), lookups);
    var n := |t.rounds| - 1;
    var attempts := t.rounds[n].pass.attempts;
    AllBegun(t.deadline, t.limit, c.requestId, t.rounds[..n]);
    assert ItRan(k, c, t.deadline, t.rounds[n]);
    Marked(log[|log| - 1], lookups[|lookups| - 1], DegradedBy(attempts[|attempts| - 1].course.fates), |t.rounds|,
           Given(t.deadline, incoming, 0, t.rounds), response);
  }

  lemma {:induction false} LastStays<T>(was: seq<T>, more: seq<T>, have: seq<T>)
    requires have == was + more && more != []
    ensures have != [] && have[|have| - 1] == more[|more| - 1]
  {}

  lemma {:induction false} Marked(last: Call, lookup: Lookup, degraded: bool, rounds: nat, given: Response,
                                  response: Response)
    requires Finished(given, rounds, OK, response)
    requires given == last.answer.(protocol := ProtocolOf(last.engine), degraded := degraded, attempts := rounds,
                                   dnsMs := if last.answer.dnsMs < 0 then lookup.found.elapsedMs else last.answer.dnsMs)
    ensures response == last.answer.(protocol := if last.engine.H1? then 1 else if last.engine.H2? then 2 else 3,
                                     degraded := degraded, attempts := rounds,
                                     dnsMs := if last.answer.dnsMs >= 0 then last.answer.dnsMs
                                              else lookup.found.elapsedMs,
                                     totalMs := if last.answer.totalMs >= 0 then last.answer.totalMs
                                                else response.totalMs)
  {}

  lemma {:induction false} RequestFails(k: Kit, c: Context, incoming: Response, t: Trail, result: int,
                                        response: Response)
    requires t.rounds != [] && AllRan(k, c, t) && t.rounds[|t.rounds| - 1].result == result != OK && c.attempts == 0
    requires Finished(Given(t.deadline, incoming, 0, t.rounds), Begun(t.deadline, t.rounds), result, response)
    ensures AnswersFailure(t, result, response)
  {
    var last := t.rounds[|t.rounds| - 1];
    if Left(t.deadline, last) > 0 {
      LoopFails(k, c, incoming, t);
    } else {
      assert ItRan(k, c, t.deadline, last);
    }
  }

  lemma {:induction false} WentOn(c: Context, t: Trail)
    requires t.rounds != [] && Running(t.deadline, t.limit, c.requestId, t.rounds[..|t.rounds| - 1])
    requires !OutcomeOf(c, t).turn.Again?
    ensures GoesOnRightly(c.requestId, t)
  {
    LastTurn(c, t);
    forall i | 0 <= i < |t.rounds|
      ensures TurnOf(t.deadline, t.limit, c.requestId, i, t.rounds[i]).Again? <==> i < |t.rounds| - 1
    {
      if i < |t.rounds| - 1 { assert t.rounds[..|t.rounds| - 1][i] == t.rounds[i]; }
    }
  }

  /** No backoff of a pass that led to another reaches the deadline. */
  lemma {:induction false} SleptInTime(deadline: int, limit: nat, requestId: nat, rounds: seq<Round>)
    requires Running(deadline, limit, requestId, rounds)
    ensures |Slept(requestId, rounds)| == |rounds|
    ensures forall i :: 0 <= i < |rounds| ==> Slept(requestId, rounds)[i] == Nap(rounds[i].napAt, Backoff(i, requestId))
    ensures forall i :: 0 <= i < |rounds| ==>
              Slept(requestId, rounds)[i].from + Slept(requestId, rounds)[i].ms < deadline
    decreases |rounds|
  {
    if rounds != [] {
      SleptInTime(deadline, limit, requestId, rounds[..|rounds| - 1]);
      assert TurnOf(deadline, limit, requestId, |rounds| - 1, rounds[|rounds| - 1]) == Again;
    }
  }

  /** A run of the transport with the time left is a round. */
  lemma {:induction false} RoundOf(k: Kit, innermost: bool, c: Context, given: Context, readAt: nat, from: nat,
                                   now: nat,
                                   deadline: int, trace: seq<Event>, e: Effect, result: int)
    requires Carried(c, given) && given.request.timeoutMs == Int32(deadline - readAt) > 0 && readAt <= from <= now
    requires innermost ==>
               && Ran(k, given.request, given.policy, EMPTY_RESPONSE, e.pass, e.calls, result)
               && Within(e.calls, from, now, Configured(given.request))
               && PassSeen(trace, given.request, given.policy, e.pass)
    ensures InPlace(k, innermost, c, readAt, deadline, Round(readAt, e.pass, e.calls, result, now))
    ensures innermost ==> PassSeen(trace, c.request, c.policy, e.pass)
  {
    if innermost {
      WithinWider(e.calls, readAt, from, now, now, Int32(deadline - readAt));
      PassSeenLater(trace, trace, given.request, c.request, c.policy, e.pass);
      assert given.request == c.request.(timeoutMs := Left(deadline, Round(readAt, e.pass, e.calls, result, now)));
    }
  }
}
