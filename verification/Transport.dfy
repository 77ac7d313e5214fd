/** One run of the client's transport: a lookup, then at most two addresses, on each a chain of protocols. */
module Transport {
  import opened Codes
  import opened Text
  import opened Requests
  import opened CircuitBreaker
  import opened EngineChain
  import Pool = LeasePool
  import Quality = QualityProber

  /** What a client is made of, as far as its transport goes: the selector, and whether there is a prober. */
  datatype Kit = Kit(selector: ProtocolSelector, probed: bool)

  /** One address tried: the chain of protocols that ran on it, the result and the response. */
  datatype Attempt = Attempt(address: string, course: Course, result: int, response: Response)

  /** One run of the transport: the names looked up, the addresses tried, and the response. */
  datatype Pass = Pass(lookups: seq<Lookup>, attempts: seq<Attempt>, response: Response)

  const NO_PASS := Pass([], [], EMPTY_RESPONSE)

  ghost function CallsBy(attempts: seq<Attempt>): seq<Call> {
    if attempts == [] then [] else CallsBy(attempts[..|attempts| - 1]) + CallsOf(attempts[|attempts| - 1].course.fates)
  }

  /** An address tried with this request: the chain its policy prescribes was run, and ended with this result and
      this response. */
  ghost predicate AttemptMade(k: Kit, r: Request, policy: int, incoming: Response, a: Attempt) {
    if Chain(policy).None? then
      && a.course.fates == [] && a.result == ERR_INVALID_ARGUMENT
      && a.response == incoming.(errCode := ERR_INVALID_ARGUMENT)
    else
      && k.selector.Prescribed(r.(connectHost := a.address), policy, a.course)
      && a.result == (if Succeeds(a.course.fates) then OK else FailureCode(a.course.fates, incoming))
      && a.response == Reported(a.course.fates, incoming)
  }

  /** The first addresses found, in order: the second only after a failed connect to the first, and then if
      there is one and the request may be repeated. */
  ghost predicate Tried(r: Request, addresses: seq<string>, attempts: seq<Attempt>, result: int) {
    && 1 <= |attempts| <= 2 && InOrder(addresses, attempts) && result == attempts[|attempts| - 1].result
    && (|attempts| == 2 ==> r.retrySafe && attempts[0].result == ERR_CONNECT)
    && (|attempts| == 1 && r.retrySafe && |addresses| > 1 ==> result != ERR_CONNECT)
  }

  /** The response after these attempts, which the next one finds. */
  function Latest(incoming: Response, attempts: seq<Attempt>): Response {
    if attempts == [] then incoming else attempts[|attempts| - 1].response
  }

  ghost predicate AllMade(k: Kit, r: Request, policy: int, incoming: Response, attempts: seq<Attempt>) {
    forall i :: 0 <= i < |attempts| ==> AttemptMade(k, r, policy, Latest(incoming, attempts[..i]), attempts[i])
  }

  /** The text for an error no engine has explained. */
  function StageFor(result: int): string {
    if result == ERR_DNS then "dns"
    else if result == ERR_CONNECT then "connect"
    else if result == ERR_TLS then "tls"
    else if result == ERR_TIMEOUT then "timeout"
    else if result == ERR_PROTOCOL then "protocol"
    else if result == ERR_CANCELED then "canceled"
    else "internal"
  }

  function Explained(response: Response, result: int): Response {
    if result != OK && response.failureStage == [] then response.(failureStage := StageFor(result)) else response
  }

  /** What the transport adds to the last attempt's response: the time of the lookup and the stage of a failure,
      where the engine left them out. */
  function Completed(response: Response, elapsedMs: int, result: int): Response {
    Explained(if response.dnsMs < 0 then response.(dnsMs := elapsedMs) else response, result)
  }

  /** A run of the transport: one lookup of the request's host, then the address loop over what it found. */
  ghost predicate Ran(k: Kit, r: Request, policy: int, incoming: Response, p: Pass, calls: seq<Call>, result: int) {
    && calls == CallsBy(p.attempts)
    && if !k.probed then NotStarted(incoming, p, result)
       else
         && |p.lookups| == 1 && p.lookups[0].host == r.host
         && var found := p.lookups[0].found;
            if found.error != OK || found.addresses == [] then NotFound(incoming, found, p, result)
            else Tried(r, found.addresses, p.attempts, result) && Completes(k, r, policy, incoming, found, p, result)
  }

  ghost predicate NotStarted(incoming: Response, p: Pass, result: int) {
    p == Pass([], [], incoming.(errCode := ERR_INTERNAL, failureStage := "initialization")) && result == ERR_INTERNAL
  }

  ghost predicate NotFound(incoming: Response, found: Resolution, p: Pass, result: int) {
    && p.attempts == [] && result == ERR_DNS
    && p.response == incoming.(dnsMs := found.elapsedMs, errCode := ERR_DNS, failureStage := "dns")
  }

  /** Each attempt finds the response the one before it left, the first the caller's with the time of the lookup;
      the last one's is the transport's. */
  ghost predicate Completes(k: Kit, r: Request, policy: int, incoming: Response, found: Resolution, p: Pass,
                            result: int) {
    && AllMade(k, r, policy, incoming.(dnsMs := found.elapsedMs), p.attempts)
    && p.response == Completed(Latest(incoming, p.attempts), found.elapsedMs, result)
  }

  /** Every look at the circuit breaker by these attempts is in its history. */
  ghost predicate PassSeen(trace: seq<Event>, r: Request, policy: int, p: Pass) {
    AttemptsSeen(trace, r, policy, p.attempts)
  }

  ghost predicate AttemptsSeen(trace: seq<Event>, r: Request, policy: int, attempts: seq<Attempt>) {
    forall i :: 0 <= i < |attempts| ==> AttemptSeen(trace, r, policy, attempts[i])
  }

  ghost predicate AttemptSeen(trace: seq<Event>, r: Request, policy: int, a: Attempt) {
    Chain(policy).Some? && |a.course.fates| <= |Chain(policy).value| ==>
      AllSeen(trace, r, Chain(policy).value, a.course.fates)
  }

  lemma {:induction false} AttemptSeenLater(trace: seq<Event>, later: seq<Event>, r: Request, q: Request, policy: int,
                                            a: Attempt)
    requires AttemptSeen(trace, r, policy, a) && trace <= later && StateHostKey(r) == StateHostKey(q)
    ensures AttemptSeen(later, q, policy, a)
  {
    if Chain(policy).Some? && |a.course.fates| <= |Chain(policy).value| {
      var chain, fates := Chain(policy).value, a.course.fates;
      forall i | 0 <= i < |fates| ensures Seen(later, CircuitOf(q, chain[i]), fates[i]) {
        assert Seen(trace, CircuitOf(r, chain[i]), fates[i]);
      }
    }
  }

  lemma {:induction false} PassSeenLater(trace: seq<Event>, later: seq<Event>, r: Request, q: Request, policy: int,
                                         p: Pass)
    requires PassSeen(trace, r, policy, p) && trace <= later && StateHostKey(r) == StateHostKey(q)
    ensures PassSeen(later, q, policy, p)
  {
    forall i | 0 <= i < |p.attempts| ensures AttemptSeen(later, q, policy, p.attempts[i]) {
      AttemptSeenLater(trace, later, r, q, policy, p.attempts[i]);
    }
  }

  /** The address loop after some addresses, each but the last of which failed to connect. */
  ghost predicate Attempted(k: Kit, c: Context, incoming: Response, addresses: seq<string>, from: nat, now: nat,
                            trace: seq<Event>, calls: seq<Call>, attempts: seq<Attempt>, result: int) {
    && from <= now && Segment(c.policy, calls, result == OK) && Within(calls, from, now, Configured(c.request))
    && calls == CallsBy(attempts) && |calls| <= |attempts| * 3 && (!c.request.retrySafe ==> |calls| <= |attempts|)
    && InOrder(addresses, attempts) && AllButLastFailed(attempts)
    && AllMade(k, c.request, c.policy, incoming, attempts) && AttemptsSeen(trace, c.request, c.policy, attempts)
    && result == if attempts == [] then ERR_CONNECT else attempts[|attempts| - 1].result
  }

  lemma {:induction false} CallsByMore(attempts: seq<Attempt>, a: Attempt)
    ensures CallsBy(attempts + [a]) == CallsBy(attempts) + CallsOf(a.course.fates)
  {
    assert (attempts + [a])[..|attempts|] == attempts;
  }

  lemma {:induction false} AllMadeMore(k: Kit, r: Request, policy: int, incoming: Response, attempts: seq<Attempt>,
                                       a: Attempt)
    requires AllMade(k, r, policy, incoming, attempts) && AttemptMade(k, r, policy, Latest(incoming, attempts), a)
    ensures AllMade(k, r, policy, incoming, attempts + [a])
  {
    var all := attempts + [a];
    forall i | 0 <= i < |all| ensures AttemptMade(k, r, policy, Latest(incoming, all[..i]), all[i]) {
      assert all[..i] == attempts[..i];
      if i < |attempts| { assert all[i] == attempts[i]; } else { assert attempts[..i] == attempts; }
    }
  }

  lemma {:induction false} PassSeenMore(trace: seq<Event>, later: seq<Event>, r: Request, policy: int,
                                        attempts: seq<Attempt>, a: Attempt)
    requires AttemptsSeen(trace, r, policy, attempts) && trace <= later && AttemptSeen(later, r, policy, a)
    ensures AttemptsSeen(later, r, policy, attempts + [a])
  {
    var all := attempts + [a];
    forall i | 0 <= i < |all| ensures AttemptSeen(later, r, policy, all[i]) {
      if i < |attempts| { AttemptSeenLater(trace, later, r, r, policy, attempts[i]); }
    }
  }

  lemma {:induction false} AttemptedMore(k: Kit, c: Context, incoming: Response, addresses: seq<string>, from: nat,
                                         mid: nat,
                                         now: nat, trace: seq<Event>, later: seq<Event>, calls: seq<Call>,
                                         attempts: seq<Attempt>, a: Attempt)
    requires Attempted(k, c, incoming, addresses, from, mid, trace, calls, attempts, ERR_CONNECT)
    requires |attempts| < |addresses| && a.address == addresses[|attempts|] && mid <= now && trace <= later
    requires AttemptMade(k, c.request, c.policy, Latest(incoming, attempts), a)
    requires AttemptSeen(later, c.request, c.policy, a)
    requires CallsFine(c, mid, now, CallsOf(a.course.fates), a.result)
    ensures Attempted(k, c, incoming, addresses, from, now, later, calls + CallsOf(a.course.fates), attempts + [a],
                      a.result)
  {
    CallsFineMore(c, from, mid, now, calls, CallsOf(a.course.fates), a.result);
    CallsByMore(attempts, a);
    AllMadeMore(k, c.request, c.policy, incoming, attempts, a);
    PassSeenMore(trace, later, c.request, c.policy, attempts, a);
    AddressesMore(addresses, attempts, a);
  }

  ghost predicate InOrder(addresses: seq<string>, attempts: seq<Attempt>) {
    |attempts| <= |addresses| && forall i :: 0 <= i < |attempts| ==> attempts[i].address == addresses[i]
  }

  ghost predicate AllButLastFailed(attempts: seq<Attempt>) {
    forall i :: 0 <= i < |attempts| - 1 ==> attempts[i].result == ERR_CONNECT
  }

  lemma {:induction false} AddressesMore(addresses: seq<string>, attempts: seq<Attempt>, a: Attempt)
    requires InOrder(addresses, attempts) && AllButLastFailed(attempts)
    requires |attempts| < |addresses| && a.address == addresses[|attempts|]
    requires attempts != [] ==> attempts[|attempts| - 1].result == ERR_CONNECT
    ensures InOrder(addresses, attempts + [a]) && AllButLastFailed(attempts + [a])
  {}

  // ---- what others learn from it -----------------------------------------------

  /** The sample the prober gets of an attempt: whether it succeeded, and the time to the first byte or else the total.
      */
  ghost predicate SampleOf(o: Quality.Observation, result: int, response: Response) {
    && (o.success <==> result == OK)
    && o.sample == Quality.Sample(if response.ttfbMs >= 0 then response.ttfbMs else response.totalMs, -1, -1,
                                  Quality.UnknownNetwork)
  }

  /** One sample for each attempt, in order. */
  ghost predicate Watched(attempts: seq<Attempt>, obs: seq<Quality.Observation>) {
    |obs| == |attempts| && forall i :: 0 <= i < |obs| ==> SampleOf(obs[i], attempts[i].result, attempts[i].response)
  }

  lemma {:induction false} WatchedMore(cfg: Quality.Config, start: Quality.State, attempts: seq<Attempt>,
                                       obs: seq<Quality.Observation>, a: Attempt, o: Quality.Observation)
    requires Watched(attempts, obs) && SampleOf(o, a.result, a.response)
    ensures Watched(attempts + [a], obs + [o])
    ensures Quality.After(cfg, start, obs + [o]) ==
            Quality.Observe(cfg, Quality.After(cfg, start, obs), o.success, o.sample, o.now)
  {
    assert (obs + [o])[..|obs|] == obs;
  }

  /** One failure without a time when there was no address, otherwise one sample for each. */
  ghost predicate PassWatched(p: Pass, obs: seq<Quality.Observation>) {
    if p.attempts == [] then
      |obs| == 1 && !obs[0].success && obs[0].sample == Quality.Sample(-1, -1, -1, Quality.UnknownNetwork)
    else Watched(p.attempts, obs)
  }

  lemma {:induction false} OneSample(cfg: Quality.Config, start: Quality.State, o: Quality.Observation)
    ensures Quality.After(cfg, start, [o]) == Quality.Observe(cfg, start, o.success, o.sample, o.now)
  {
    assert [o][..0] == [];
  }

  /** The pool after a lease on this origin was taken, or refused, and given back with this outcome. */
  ghost predicate Borrowed(p: Pool.Pool, p': Pool.Pool, origin: Pool.Origin, success: bool) {
    exists taken, victim, back :: BorrowedAt(p, p', origin, success, taken, victim, back)
  }

  ghost predicate BorrowedAt(p: Pool.Pool, p': Pool.Pool, origin: Pool.Origin, success: bool, taken: int,
                             victim: Option<string>, back: int) {
    && Pool.ScanDone(p, origin, victim)
    && var (held, lease) := Pool.Acquire(p, origin, taken, victim);
       p' == Pool.Release(held, lease, success, back)
  }

  /** The calls of one attempt. */
  ghost predicate CallsFine(c: Context, from: nat, now: nat, calls: seq<Call>, result: int) {
    && Segment(c.policy, calls, result == OK) && Within(calls, from, now, Configured(c.request))
    && |calls| <= if c.request.retrySafe then 3 else 1
  }

  lemma {:induction false} CallsFineMore(c: Context, from: nat, mid: nat, now: nat, calls: seq<Call>, more: seq<Call>,
                                         result: int)
    requires from <= mid <= now && Segment(c.policy, calls, false) && Within(calls, from, mid, Configured(c.request))
    requires CallsFine(c, mid, now, more, result)
    ensures Segment(c.policy, calls + more, result == OK) && Within(calls + more, from, now, Configured(c.request))
  {
    SegmentsJoin(c.policy, calls, more, result == OK);
    WithinJoin(calls, more, from, mid, now, Configured(c.request));
  }

  lemma {:induction false} AttemptedAll(k: Kit, c: Context, incoming: Response, addresses: seq<string>, from: nat,
                                        now: nat,
                                        trace: seq<Event>, calls: seq<Call>, attempts: seq<Attempt>, result: int)
    requires Attempted(k, c, incoming, addresses, from, now, trace, calls, attempts, result)
    requires 1 <= |attempts| <= MaxAddresses(c, addresses)
    requires (|attempts| < MaxAddresses(c, addresses) ==> result != ERR_CONNECT)
    ensures Tried(c.request, addresses, attempts, result) && |calls| <= if c.request.retrySafe then 6 else 1
  {}

  /** How many addresses a request may try. */
  function MaxAddresses(c: Context, addresses: seq<string>): nat {
    if c.request.retrySafe then (if |addresses| < 2 then |addresses| else 2) else 1
  }

  // ---- from chains to runs ---------------------------------------------------

  lemma {:induction false} CallsFineWider(c: Context, from: nat, mid: nat, until: nat, now: nat, calls: seq<Call>,
                                          result: int)
    requires CallsFine(c, mid, until, calls, result) && from <= mid && until <= now
    ensures CallsFine(c, from, now, calls, result)
  {
    WithinWider(calls, from, mid, until, now, Configured(c.request));
  }

  /** A chain that was followed is an attempt made. */
  lemma {:induction false} ChainFine(k: Kit, c: Context, r: Request, from: nat, now: nat, trace: seq<Event>,
                                     course: Course, result: int, response: Response)
    requires Chain(c.policy).Some? && r == c.request.(connectHost := r.connectHost) && from <= course.start
    requires k.selector.Followed(now, r, c.policy, course, trace) && (result == OK <==> Succeeds(course.fates))
    ensures CallsFine(c, from, now, CallsOf(course.fates), result)
    ensures AttemptSeen(trace, c.request, c.policy, Attempt(r.connectHost, course, result, response))
  {
    StepsCalls(k.selector.built, k.selector.breaker.limits, r, c.policy, course.fates);
    CallsWithin(r, course.start, course.fates);
    WithinWider(CallsOf(course.fates), from, course.start, EndOf(course.start, course.fates), now, Configured(r));
    AttemptSeenLater(trace, trace, r, c.request, c.policy, Attempt(r.connectHost, course, result, response));
  }

  /** A run of the transport in its time, as far as its calls and its looks at the circuit breaker go. */
  ghost predicate Transported(k: Kit, c: Context, incoming: Response, from: nat, now: nat, trace: seq<Event>, p: Pass,
                              result: int) {
    && Ran(k, c.request, c.policy, incoming, p, CallsBy(p.attempts), result) && PassSeen(trace, c.request, c.policy, p)
    && Segment(c.policy, CallsBy(p.attempts), result == OK)
    && Within(CallsBy(p.attempts), from, now, Configured(c.request))
    && |CallsBy(p.attempts)| <= if c.request.retrySafe then 6 else 1
  }

  lemma {:induction false} TransportedWider(k: Kit, c: Context, incoming: Response, from: nat, mid: nat, now: nat,
                                            trace: seq<Event>, p: Pass, result: int)
    requires Transported(k, c, incoming, mid, now, trace, p, result) && from <= mid
    ensures Transported(k, c, incoming, from, now, trace, p, result)
  {
    WithinWider(CallsBy(p.attempts), from, mid, now, now, Configured(c.request));
  }

  /** The address loop, over, is a run of the transport. */
  lemma {:induction false} PassOf(k: Kit, c: Context, incoming: Response, found: Resolution, from: nat, now: nat,
                                  trace: seq<Event>, p: Pass, result: int)
    requires Attempted(k, c, incoming.(dnsMs := found.elapsedMs), found.addresses, from, now, trace,
                       CallsBy(p.attempts), p.attempts, result)
    requires k.probed && p.lookups == [Lookup(c.request.host, found)] && found.addresses != [] && found.error == OK
    requires Tried(c.request, found.addresses, p.attempts, result)
    requires p.response == Completed(Latest(incoming, p.attempts), found.elapsedMs, result)
    requires |CallsBy(p.attempts)| <= if c.request.retrySafe then 6 else 1
    ensures Transported(k, c, incoming, from, now, trace, p, result)
  {}

  // ---- what the response is ---------------------------------------------------

  /** The response of a request so far, if all it does is to pass on the answer of the last of these calls. */
  ghost function LastOf(calls: seq<Call>, incoming: Response): Response {
    if calls == [] then incoming else calls[|calls| - 1].answer
  }

  lemma {:induction false} LastOfMore(calls: seq<Call>, more: seq<Call>, incoming: Response)
    ensures LastOf(calls + more, incoming) == LastOf(more, LastOf(calls, incoming))
  {}

  /** Attempts that all failed leave the last call's answer, with the last error and a count. */
  lemma {:induction false} AttemptsFail(k: Kit, r: Request, policy: int, incoming: Response, attempts: seq<Attempt>)
    requires AllMade(k, r, policy, incoming, attempts) && attempts != []
    requires forall i :: 0 <= i < |attempts| ==> attempts[i].result != OK
    ensures var latest := Latest(incoming, attempts);
            latest == LastOf(CallsBy(attempts), incoming).(errCode := attempts[|attempts| - 1].result,
                                                           attempts := latest.attempts)
    decreases |attempts|
  {
    var n := |attempts| - 1;
    var init, last := attempts[..n], attempts[n];
    AllMadeInit(k, r, policy, incoming, attempts);
    assert AttemptMade(k, r, policy, Latest(incoming, init), last);
    AnswerIsLast(last.course.fates, Latest(incoming, init));
    LastOfMore(CallsBy(init), CallsOf(last.course.fates), incoming);
    if n > 0 { AttemptsFail(k, r, policy, incoming, init); }
  }

  lemma {:induction false} AllMadeInit(k: Kit, r: Request, policy: int, incoming: Response, attempts: seq<Attempt>)
    requires AllMade(k, r, policy, incoming, attempts) && attempts != []
    ensures AllMade(k, r, policy, incoming, attempts[..|attempts| - 1])
  {
    var init := attempts[..|attempts| - 1];
    forall i | 0 <= i < |init| ensures AttemptMade(k, r, policy, Latest(incoming, init[..i]), init[i]) {
      assert init[..i] == attempts[..i] && init[i] == attempts[i];
    }
  }

  /** An attempt that succeeded answers with its last call's answer, marked with its protocol. */
  lemma {:induction false} AttemptSucceeds(k: Kit, r: Request, policy: int, incoming: Response, a: Attempt)
    requires AttemptMade(k, r, policy, incoming, a) && a.result == OK
    ensures Chain(policy).Some? && CallsOf(a.course.fates) != []
    ensures var calls := CallsOf(a.course.fates); var last := calls[|calls| - 1];
            a.response == last.answer.(protocol := ProtocolOf(last.engine), degraded := DegradedBy(a.course.fates),
                                       attempts := |calls|)
  {
    var fates := a.course.fates;
    assert !Succeeds(fates) ==> LastError(fates) != OK;
  }

  /** A run of the transport that succeeds answers what the last call did, with the time of the lookup where the
      engine left that out. */
  lemma {:induction false} RanSucceeds(k: Kit, r: Request, policy: int, incoming: Response, p: Pass, calls: seq<Call>)
    requires Ran(k, r, policy, incoming, p, calls, OK)
    ensures calls != [] && p.attempts != [] && |p.lookups| == 1 && Chain(policy).Some?
    ensures var last := calls[|calls| - 1];
            p.response == last.answer.(protocol := ProtocolOf(last.engine),
                                       degraded := DegradedBy(p.attempts[|p.attempts| - 1].course.fates),
                                       attempts := p.response.attempts,
                                       dnsMs := if last.answer.dnsMs < 0 then p.lookups[0].found.elapsedMs
                                                else last.answer.dnsMs)
  {
    var found := p.lookups[0].found;
    var n := |p.attempts| - 1;
    var given := Latest(incoming.(dnsMs := found.elapsedMs), p.attempts[..n]);
    assert AttemptMade(k, r, policy, given, p.attempts[n]);
    AttemptSucceeds(k, r, policy, given, p.attempts[n]);
  }

  /** One that fails answers what the last call did, or what it was given if there was none, with the error. */
  lemma {:induction false} RanFails(k: Kit, r: Request, policy: int, incoming: Response, p: Pass, calls: seq<Call>,
                                    result: int)
    requires Ran(k, r, policy, incoming, p, calls, result) && result != OK
    ensures p.response == LastOf(calls, incoming).(errCode := result, attempts := p.response.attempts,
                                                   dnsMs := p.response.dnsMs,
                                                   failureStage := p.response.failureStage)
    ensures p.response.failureStage != []
  {
    if p.attempts != [] {
      var found := p.lookups[0].found;
      FailedAll(p.attempts, result);
      AttemptsFail(k, r, policy, incoming.(dnsMs := found.elapsedMs), p.attempts);
      CompletedKeeps(Latest(incoming, p.attempts), found.elapsedMs, result);
    }
  }

  lemma {:induction false} FailedAll(attempts: seq<Attempt>, result: int)
    requires 1 <= |attempts| <= 2 && result == attempts[|attempts| - 1].result != OK
    requires |attempts| == 2 ==> attempts[0].result == ERR_CONNECT
    ensures forall i :: 0 <= i < |attempts| ==> attempts[i].result != OK
  {}

  lemma {:induction false} CompletedKeeps(latest: Response, elapsedMs: int, result: int)
    ensures var c := Completed(latest, elapsedMs, result);
            c == latest.(dnsMs := c.dnsMs, failureStage := c.failureStage) && (result != OK ==> c.failureStage != [])
  {}

  /** A run of the transport that found no address. */
  lemma {:induction false} NoCalls(k: Kit, c: Context, incoming: Response, from: nat, now: nat, trace: seq<Event>,
                                   p: Pass, result: int)
    requires if !k.probed then NotStarted(incoming, p, result)
             else
               && |p.lookups| == 1 && p.lookups[0].host == c.request.host
               && (p.lookups[0].found.error != OK || p.lookups[0].found.addresses == [])
               && NotFound(incoming, p.lookups[0].found, p, result)
    ensures Transported(k, c, incoming, from, now, trace, p, result) && CallsBy(p.attempts) == []
  {}
}
