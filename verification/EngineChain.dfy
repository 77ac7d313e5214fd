/** The protocol selector: one chain of engines for one address. Engines, lookups and time are an
    arbitrary environment, which itself records every engine call, lookup and sleep. */
module EngineChain {
  import opened Clocks
  import opened Codes
  import opened Text
  import opened Requests
  import opened CircuitBreaker

  // ---- the environment ---------------------------------------------------

  /** An engine call as the environment saw it: what it was asked, when, and what it returned and answered. */
  datatype Call = Call(engine: EngineType, connectHost: string, timeoutMs: int, startedAt: nat, endedAt: nat, ret: int,
                       answer: Response)

  datatype Resolution = Resolution(error: int, addresses: seq<string>, elapsedMs: int, cacheHit: bool)

  /** What was looked up, and what came back. */
  datatype Lookup = Lookup(host: string, found: Resolution)

  /** A sleep: when it began and how long it was asked to be. */
  datatype Nap = Nap(from: nat, ms: nat)

  class World {
    const clock: Clock
    ghost var log: seq<Call>
    ghost var lookups: seq<Lookup>
    ghost var naps: seq<Nap>

    constructor (clock: Clock)
      ensures this.clock == clock && log == [] && lookups == [] && naps == []
    {
      this.clock, log, lookups, naps := clock, [], [], [];
    }

    /** NetworkEngine::request: any result, any response, after any time. */
    method Request(engine: EngineType, connectHost: string, timeoutMs: int)
      returns (ret: int, response: Response, ghost call: Call)
      modifies this`log, clock
      ensures log == old(log) + [call]
      ensures call == Call(engine, connectHost, timeoutMs, call.startedAt, clock.now, ret, response)
      ensures old(clock.now) <= call.startedAt <= clock.now
    {
      ret := *;
      response := *;
      var started := clock.Read();
      var ended := clock.Read();
      call := Call(engine, connectHost, timeoutMs, started, ended, ret, response);
      log := log + [call];
    }

    /** resolve_with_metadata: any answer, after any time. */
    method Resolve(host: string) returns (r: Resolution)
      modifies this`lookups, clock
      ensures clock.now >= old(clock.now) && lookups == old(lookups) + [Lookup(host, r)]
    {
      r := *;
      var ended := clock.Read();
      lookups := lookups + [Lookup(host, r)];
    }

    method Sleep(ms: nat)
      modifies this`naps, clock
      ensures clock.now >= old(clock.now) + ms && naps == old(naps) + [Nap(old(clock.now), ms)]
    {
      naps := naps + [Nap(clock.now, ms)];
      clock.Wait(ms);
    }
  }

  // ---- what a stretch of the log shows ----------------------------------

  /** No engine is called after one returned OK. */
  ghost predicate OkOnlyLast(calls: seq<Call>) { forall i :: 0 <= i < |calls| - 1 ==> calls[i].ret != OK }

  ghost predicate EndsOk(calls: seq<Call>) { calls != [] && calls[|calls| - 1].ret == OK }

  /** One call the policy allows: an engine of its chain and a positive timeout. */
  ghost predicate Allowed(policy: int, c: Call) {
    Chain(policy).Some? && c.engine in Chain(policy).value && c.timeoutMs > 0
  }

  ghost predicate Segment(policy: int, calls: seq<Call>, ok: bool) {
    OkOnlyLast(calls) && (ok <==> EndsOk(calls)) && forall i :: 0 <= i < |calls| ==> Allowed(policy, calls[i])
  }

  /** Stretches of a log that only the last may end well join into one. */
  lemma {:induction false} SegmentsJoin(policy: int, a: seq<Call>, b: seq<Call>, ok: bool)
    requires Segment(policy, a, false) && Segment(policy, b, ok)
    ensures Segment(policy, a + b, ok)
  {
    var c := a + b;
    assert forall i :: 0 <= i < |a| ==> c[i] == a[i] && a[i].ret != OK;
    assert forall i :: |a| <= i < |c| ==> c[i] == b[i - |a|];
  }

  lemma {:induction false} Appended<T>(base: seq<T>, a: seq<T>, b: seq<T>, both: seq<T>, mid: seq<T>, end: seq<T>)
    requires mid == base + a && end == mid + b && both == a + b
    ensures end == base + both
  {}

  lemma {:induction false} Rebracket<T>(a: seq<T>, b: seq<T>, c: seq<T>)
    ensures a + b + c == a + (b + c)
  {}

  /** Calls made in an interval of time under one budget that was full at its beginning: each got at most
      the budget, and at least what was left of it when it started. */
  ghost predicate Within(calls: seq<Call>, from: nat, until: nat, budget: int) {
    forall i :: 0 <= i < |calls| ==> WithinOne(calls[i], from, until, budget)
  }

  ghost predicate WithinOne(c: Call, from: nat, until: nat, budget: int) {
    from <= c.startedAt <= c.endedAt <= until && budget - (c.startedAt - from) <= c.timeoutMs <= budget
  }

  /** A budget that was full later was full enough earlier, and intervals join. */
  lemma {:induction false} WithinJoin(a: seq<Call>, b: seq<Call>, from: nat, mid: nat, until: nat, budget: int)
    requires Within(a, from, mid, budget) && Within(b, mid, until, budget) && from <= mid <= until
    ensures Within(a + b, from, until, budget)
  {
    forall i | 0 <= i < |a + b| ensures WithinOne((a + b)[i], from, until, budget) {
      if i < |a| {
        assert WithinOne(a[i], from, mid, budget);
      } else {
        assert WithinOne(b[i - |a|], mid, until, budget);
      }
    }
  }

  lemma {:induction false} WithinWider(a: seq<Call>, from: nat, mid: nat, until: nat, later: nat, budget: int)
    requires Within(a, mid, until, budget) && from <= mid && until <= later
    ensures Within(a, from, later, budget)
  {
    forall i | 0 <= i < |a| ensures WithinOne(a[i], from, later, budget) { assert WithinOne(a[i], mid, until, budget); }
  }

  // ---- chains ------------------------------------------------------------

  function Chain(policy: int): Option<seq<EngineType>> {
    if policy == 0 || policy == 4 then Some([H3, H2, H1])
    else if policy == 5 then Some([H2, H1])
    else if policy == 3 then Some([H3])
    else if policy == 2 then Some([H2])
    else if policy == 1 then Some([H1])
    else None
  }

  /** AUTO and PREFER may fall back and respect the circuit breaker; ONLY does neither. */
  predicate Fallback(policy: int) { policy == 0 || policy == 4 || policy == 5 }

  function ProtocolOf(e: EngineType): nat { match e case H1 => 1 case H2 => 2 case H3 => 3 }

  function Configured(r: Request): int { if r.timeoutMs > 0 then r.timeoutMs else 15000 }

  function CircuitOf(r: Request, e: EngineType): Key { CircuitBreaker.Key(StateHostKey(r), e) }

  /** A look at the circuit breaker: everything done to it before, and the time. */
  datatype Check = Check(before: seq<Event>, now: nat)

  /** What became of a step of the chain; a call comes with what the circuit breaker was told about it. */
  datatype Fate =
    | NotBuilt
    | Skipped(check: Check)
    | Late(look: Option<Check>, at: nat)
    | Called(look: Option<Check>, call: Call, learned: seq<Event>)

  ghost function CallOf(f: Fate): seq<Call> { if f.Called? then [f.call] else [] }

  ghost function CallsOf(fates: seq<Fate>): seq<Call> {
    if fates == [] then [] else CallsOf(fates[..|fates| - 1]) + CallOf(fates[|fates| - 1])
  }

  /** Only a failure that may be repeated counts against the engine, only a success clears it. */
  ghost predicate Taught(key: Key, call: Call, learned: seq<Event>) {
    if call.ret == OK then learned == [Passed(key)]
    else if IsRetryable(call.ret) then
      |learned| == 1 && learned[0].Failed? && learned[0].key == key && learned[0].now >= call.endedAt
    else learned == []
  }

  ghost predicate LooksFine(l: Limits, policy: int, key: Key, look: Option<Check>) {
    (look.Some? <==> Fallback(policy)) && (look.Some? ==> !Refused(l, look.value.before, key, look.value.now))
  }

  /** A step: the engine is not built; or refused by the circuit breaker, which a fallback policy
      respects; or, after a look that did not refuse it, called, unless it was too late. */
  ghost predicate StepTaken(built: set<EngineType>, l: Limits, r: Request, policy: int, engine: EngineType, f: Fate) {
    var key := CircuitOf(r, engine);
    match f
    case NotBuilt => engine !in built
    case Skipped(check) => engine in built && Fallback(policy) && Refused(l, check.before, key, check.now)
    case Late(look, _) => engine in built && LooksFine(l, policy, key, look)
    case Called(look, call, learned) =>
      && engine in built && LooksFine(l, policy, key, look) && call.engine == engine
      && call.connectHost == r.connectHost && Allowed(policy, call)
      && Taught(key, call, learned)
  }

  /** When a step happens, given when the one before it ended: an engine gets at most what was left of the
      request's time then, and at least what is left when it starts. */
  ghost predicate OnTime(r: Request, start: nat, from: nat, f: Fate) {
    match f
    case NotBuilt => true
    case Skipped(check) => from <= check.now
    case Late(look, at) => from <= at && (look.Some? ==> from <= look.value.now <= at) && at - start >= Configured(r)
    case Called(look, call, _) =>
      && from <= call.startedAt <= call.endedAt && (look.Some? ==> from <= look.value.now <= call.startedAt)
      && Configured(r) - (call.startedAt - start) <= call.timeoutMs <= Configured(r) - (from - start)
  }

  ghost function EndOf(start: nat, fates: seq<Fate>): nat {
    if fates == [] then start
    else match fates[|fates| - 1]
         case NotBuilt => EndOf(start, fates[..|fates| - 1])
         case Skipped(check) => check.now
         case Late(_, at) => at
         case Called(_, call, _) => call.endedAt
  }

  ghost predicate Timed(r: Request, start: nat, fates: seq<Fate>) {
    fates == [] || (Timed(r, start, fates[..|fates| - 1])
                    && OnTime(r, start, EndOf(start, fates[..|fates| - 1]), fates[|fates| - 1]))
  }

  ghost function LookOf(key: Key, look: Option<Check>): seq<Event> {
    if look.Some? then [Checked(key, look.value.now)] else []
  }

  /** What a step does to the circuit breaker. */
  ghost function EventsOf(key: Key, f: Fate): seq<Event> {
    match f
    case NotBuilt => []
    case Skipped(check) => [Checked(key, check.now)]
    case Late(look, _) => LookOf(key, look)
    case Called(look, _, learned) => LookOf(key, look) + learned
  }

  ghost function AllEvents(r: Request, chain: seq<EngineType>, fates: seq<Fate>): seq<Event>
    requires |fates| <= |chain|
  {
    if fates == [] then []
    else AllEvents(r, chain, fates[..|fates| - 1]) + EventsOf(CircuitOf(r, chain[|fates| - 1]), fates[|fates| - 1])
  }

  /** The look really took place when it says, in this history of the circuit breaker. */
  ghost predicate Seen(trace: seq<Event>, key: Key, f: Fate) {
    match f
    case NotBuilt => true
    case Skipped(check) => check.before + [Checked(key, check.now)] <= trace
    case Late(look, _) => look.Some? ==> look.value.before + [Checked(key, look.value.now)] <= trace
    case Called(look, _, _) => look.Some? ==> look.value.before + [Checked(key, look.value.now)] <= trace
  }

  ghost predicate AllSeen(trace: seq<Event>, r: Request, chain: seq<EngineType>, fates: seq<Fate>)
    requires |fates| <= |chain|
  {
    forall i :: 0 <= i < |fates| ==> Seen(trace, CircuitOf(r, chain[i]), fates[i])
  }

  /** A step after which the selector goes on to the next one. */
  ghost predicate GoesOn(f: Fate, fallback: bool, retrySafe: bool) {
    fallback && !f.Late? && (f.Called? ==> f.call.ret != OK && IsRetryable(f.call.ret) && retrySafe)
  }

  /** The steps taken: a prefix of the chain, every one but the last allowing the next. */
  ghost predicate Steps(built: set<EngineType>, l: Limits, r: Request, policy: int, fates: seq<Fate>) {
    && Chain(policy).Some? && |fates| <= |Chain(policy).value|
    && (forall i :: 0 <= i < |fates| ==> StepTaken(built, l, r, policy, Chain(policy).value[i], fates[i]))
    && (forall i :: 0 <= i < |fates| - 1 ==> GoesOn(fates[i], Fallback(policy), r.retrySafe))
  }

  ghost predicate Succeeds(fates: seq<Fate>) {
    fates != [] && fates[|fates| - 1].Called? && fates[|fates| - 1].call.ret == OK
  }

  /** An engine that exists was passed over or tried before the last step. */
  ghost predicate DegradedBy(fates: seq<Fate>) { exists i :: 0 <= i < |fates| - 1 && !fates[i].NotBuilt? }

  /** A whole chain: when it began, and its steps. */
  datatype Course = Course(start: nat, fates: seq<Fate>)

  /** The calls of a chain: allowed ones, all failed but perhaps the last, at most one per step; and at
      most one in all when the request must not be repeated. */
  lemma {:induction false} StepsCalls(built: set<EngineType>, l: Limits, r: Request, policy: int, fates: seq<Fate>)
    requires Steps(built, l, r, policy, fates)
    ensures Segment(policy, CallsOf(fates), Succeeds(fates))
    ensures |CallsOf(fates)| <= |fates| && (!r.retrySafe ==> |CallsOf(fates)| <= 1)
    ensures !r.retrySafe && CallsOf(fates) != [] ==> fates[|fates| - 1].Called?
    decreases |fates|
  {
    if fates != [] {
      var init, last := fates[..|fates| - 1], fates[|fates| - 1];
      StepsCalls(built, l, r, policy, init);
      if init != [] { assert GoesOn(fates[|init| - 1], Fallback(policy), r.retrySafe); }
      assert StepTaken(built, l, r, policy, Chain(policy).value[|init|], last);
      if last.Called? { OneMoreCall(policy, CallsOf(init), last.call); }
    }
  }

  lemma {:induction false} OneMoreCall(policy: int, calls: seq<Call>, call: Call)
    requires Segment(policy, calls, false) && Allowed(policy, call)
    ensures Segment(policy, calls + [call], call.ret == OK)
  {
    SegmentsJoin(policy, calls, [call], call.ret == OK);
  }

  /** The engines a policy allows: 0 and 4 all, 5 all but HTTP/3, 3, 2 and 1 only their own. */
  predicate ForPolicy(policy: int, e: EngineType) {
    policy in {0, 4} || (policy == 5 && e != H3) || (policy == 3 && e == H3) || (policy == 2 && e == H2)
    || (policy == 1 && e == H1)
  }

  /** A policy's chain holds exactly the engines it allows, newer protocols first; any other number has none. */
  lemma {:induction false} ChainExactly(policy: int)
    ensures Chain(policy).Some? <==> 0 <= policy <= 5
    ensures Chain(policy).Some? ==> forall e :: e in Chain(policy).value <==> ForPolicy(policy, e)
    ensures Chain(policy).Some? ==>
              forall i, j :: 0 <= i < j < |Chain(policy).value| ==>
                ProtocolOf(Chain(policy).value[i]) > ProtocolOf(Chain(policy).value[j])
    ensures Fallback(policy) <==> Chain(policy).Some? && |Chain(policy).value| > 1
  {
    if Chain(policy).Some? {
      var chain := Chain(policy).value;
      forall e ensures e in chain <==> ForPolicy(policy, e) {
        assert e in chain ==> exists i :: 0 <= i < |chain| && chain[i] == e;
        if policy in {0, 4} {
          assert e == chain[0] || e == chain[1] || e == chain[2];
        } else if policy == 5 {
          assert e == H3 || e == chain[0] || e == chain[1];
        } else {
          assert |chain| == 1 && ForPolicy(policy, chain[0]);
        }
      }
    }
  }

  /** A call with another after it: it failed with a DNS, connect, timeout, protocol, unsupported or degraded
      error, and the other goes to an older protocol. */
  ghost predicate FallsBack(calls: seq<Call>, i: nat)
    requires i + 1 < |calls|
  {
    var e := calls[i + 1].engine;
    calls[i].ret in {-5, -6, -7, -9, -11, -13} && (if calls[i].engine.H3? then !e.H3? else calls[i].engine.H2? && e.H1?)
  }

  ghost predicate AllFallBack(calls: seq<Call>) { forall i :: 0 <= i < |calls| - 1 ==> FallsBack(calls, i) }

  ghost predicate AllForPolicy(policy: int, calls: seq<Call>) {
    forall i :: 0 <= i < |calls| ==> ForPolicy(policy, calls[i].engine)
  }

  /** The calls of one chain: each engine is one the policy allows; a further one is called only after a failure that
      may be repeated, and is an older one. */
  ghost predicate Descends(policy: int, retrySafe: bool, calls: seq<Call>) {
    AllForPolicy(policy, calls) && AllFallBack(calls) && (|calls| > 1 ==> retrySafe && policy in {0, 4, 5})
  }

  lemma {:induction false} DescendsMore(policy: int, retrySafe: bool, calls: seq<Call>, call: Call)
    requires Descends(policy, retrySafe, calls) && ForPolicy(policy, call.engine)
    requires calls != [] ==> retrySafe && policy in {0, 4, 5} && FallsBack([calls[|calls| - 1], call], 0)
    ensures Descends(policy, retrySafe, calls + [call])
  {
    var all := calls + [call];
    forall i | 0 <= i < |all| - 1 ensures FallsBack(all, i) {
      if i < |calls| - 1 { assert FallsBack(calls, i); }
    }
  }

  lemma {:induction false} StepsDescend(built: set<EngineType>, l: Limits, r: Request, policy: int, fates: seq<Fate>)
    requires Steps(built, l, r, policy, fates)
    ensures Descends(policy, r.retrySafe, CallsOf(fates))
    ensures CallsOf(fates) != [] ==>
              exists k :: 0 <= k < |fates| && fates[k].Called? && fates[k].call == CallsOf(fates)[|CallsOf(fates)| - 1]
    decreases |fates|
  {
    if fates != [] {
      var n := |fates| - 1;
      var init, calls, last := fates[..n], CallsOf(fates[..n]), fates[n];
      StepsDescend(built, l, r, policy, init);
      assert StepTaken(built, l, r, policy, Chain(policy).value[n], last);
      if calls != [] {
        var k :| 0 <= k < n && init[k].Called? && init[k].call == calls[|calls| - 1];
        assert fates[k] == init[k] && GoesOn(fates[k], Fallback(policy), r.retrySafe);
        assert StepTaken(built, l, r, policy, Chain(policy).value[k], fates[k]);
      }
      if last.Called? {
        DescendsMore(policy, r.retrySafe, calls, last.call);
        assert fates[n].call == CallsOf(fates)[|CallsOf(fates)| - 1];
      } else {
        assert CallsOf(fates) == calls;
      }
    }
  }

  lemma {:induction false} CallsWithin(r: Request, start: nat, fates: seq<Fate>)
    requires Timed(r, start, fates)
    ensures start <= EndOf(start, fates) && Within(CallsOf(fates), start, EndOf(start, fates), Configured(r))
    decreases |fates|
  {
    if fates != [] {
      var init, last := fates[..|fates| - 1], fates[|fates| - 1];
      CallsWithin(r, start, init);
      WithinWider(CallsOf(init), start, start, EndOf(start, init), EndOf(start, fates), Configured(r));
      if last.Called? {
        var all := CallsOf(init) + [last.call];
        forall i | 0 <= i < |all| ensures WithinOne(all[i], start, EndOf(start, fates), Configured(r)) {
          if i < |all| - 1 { assert all[i] == CallsOf(init)[i]; }
        }
      }
    }
  }

  /** The error a chain ends with when no engine answered: that of the last step that had one. */
  ghost function LastError(fates: seq<Fate>): int {
    if fates == [] then ERR_UNSUPPORTED
    else match fates[|fates| - 1]
         case NotBuilt => ERR_UNSUPPORTED
         case Skipped(_) => ERR_DEGRADED
         case Late(_, _) => ERR_TIMEOUT
         case Called(_, call, _) => call.ret
  }

  /** The response after these steps: what the last engine answered, or what the caller passed in. */
  ghost function Answer(fates: seq<Fate>, incoming: Response): Response {
    if fates == [] then incoming
    else if fates[|fates| - 1].Called? then fates[|fates| - 1].call.answer
    else Answer(fates[..|fates| - 1], incoming)
  }

  lemma {:induction false} AnswerIsLast(fates: seq<Fate>, incoming: Response)
    ensures var calls := CallsOf(fates);
            Answer(fates, incoming) == if calls == [] then incoming else calls[|calls| - 1].answer
    decreases |fates|
  {
    if fates != [] { AnswerIsLast(fates[..|fates| - 1], incoming); }
  }

  /** The response a chain ends with: that answer with the number of calls, and with the protocol and the mark of a
      success or the error code of a failure. */
  ghost function Reported(fates: seq<Fate>, incoming: Response): Response {
    var last := Answer(fates, incoming).(attempts := |CallsOf(fates)|);
    if Succeeds(fates) then
      last.(protocol := ProtocolOf(fates[|fates| - 1].call.engine), degraded := DegradedBy(fates))
    else last.(errCode := FailureCode(fates, incoming))
  }

  /** The whole result of a chain that did not succeed. */
  ghost function FailureCode(fates: seq<Fate>, incoming: Response): int {
    var code := Answer(fates, incoming).errCode;
    if code != OK then code else LastError(fates)
  }

  lemma {:induction false} StepsGrow(built: set<EngineType>, l: Limits, r: Request, policy: int, fates: seq<Fate>,
                                     f: Fate)
    requires Steps(built, l, r, policy, fates) && |fates| < |Chain(policy).value|
    requires StepTaken(built, l, r, policy, Chain(policy).value[|fates|], f)
    requires fates != [] ==> GoesOn(fates[|fates| - 1], Fallback(policy), r.retrySafe)
    ensures Steps(built, l, r, policy, fates + [f])
  {
    var all := fates + [f];
    forall i | 0 <= i < |all| ensures StepTaken(built, l, r, policy, Chain(policy).value[i], all[i]) {
      if i < |fates| { assert all[i] == fates[i]; }
    }
    forall i | 0 <= i < |all| - 1 ensures GoesOn(all[i], Fallback(policy), r.retrySafe) { assert all[i] == fates[i]; }
  }

  lemma {:induction false} SeenGrows(trace: seq<Event>, later: seq<Event>, r: Request, chain: seq<EngineType>,
                                     fates: seq<Fate>, f: Fate)
    requires |fates| < |chain| && trace <= later && AllSeen(trace, r, chain, fates)
    requires Seen(later, CircuitOf(r, chain[|fates|]), f)
    ensures AllSeen(later, r, chain, fates + [f])
  {
    var all := fates + [f];
    forall i | 0 <= i < |all| ensures Seen(later, CircuitOf(r, chain[i]), all[i]) {
      if i < |fates| { assert all[i] == fates[i] && Seen(trace, CircuitOf(r, chain[i]), fates[i]); }
    }
  }

  lemma {:induction false} SeenLater(first: seq<Event>, before: seq<Event>, later: seq<Event>, key: Key,
                                     look: Option<Check>, f: Fate)
    requires (f.Late? || f.Called?) && f.look == look && first <= before <= later
    requires look.Some? ==> look.value.before + [Checked(key, look.value.now)] <= before
    ensures Seen(later, key, f) && first <= later
  {}

  lemma {:induction false} OnTimeSooner(r: Request, start: nat, from: nat, later: nat, f: Fate)
    requires OnTime(r, start, later, f) && from <= later
    ensures OnTime(r, start, from, f)
  {}

  /** The recursive readings of the steps, one step on. */
  lemma {:induction false} OneStepOn(r: Request, chain: seq<EngineType>, start: nat, fates: seq<Fate>, f: Fate)
    requires |fates| < |chain| && Timed(r, start, fates) && OnTime(r, start, EndOf(start, fates), f)
    ensures var all := fates + [f];
            && CallsOf(all) == CallsOf(fates) + CallOf(f) && Timed(r, start, all)
            && AllEvents(r, chain, all) == AllEvents(r, chain, fates) + EventsOf(CircuitOf(r, chain[|fates|]), f)
            && EndOf(start, all) == (if f.NotBuilt? then EndOf(start, fates) else EndOf(start, [f]))
  {
    assert (fates + [f])[..|fates|] == fates;
  }

  /** The variables of the chain loop: `resp`, `last_error`, `degraded`, `attempts`. */
  datatype Vars = Vars(response: Response, lastError: int, degraded: bool, attempts: nat)

  /** In the middle of a chain the variables are what the steps taken so far determine. */
  ghost predicate Holds(incoming: Response, fates: seq<Fate>, v: Vars) {
    && v.lastError == LastError(fates) && v.lastError != OK
    && v.response == Answer(fates, incoming) && v.attempts == |CallsOf(fates)|
    && (v.degraded <==> exists k :: 0 <= k < |fates| && !fates[k].NotBuilt?)
  }

  /** At the end of a chain: a success names the engine of the last step, and is degraded when an engine
      before it was skipped or failed; a failure has the last error. */
  ghost predicate Reports(incoming: Response, chain: seq<EngineType>, c: Course, ok: bool, v: Vars)
    requires |c.fates| <= |chain|
  {
    var last := Answer(c.fates, incoming).(attempts := |CallsOf(c.fates)|);
    && (ok <==> Succeeds(c.fates))
    && (ok ==> v.response == last.(protocol := ProtocolOf(chain[|c.fates| - 1]), degraded := v.degraded)
               && (v.degraded <==> DegradedBy(c.fates)))
    && (!ok ==> v.lastError == LastError(c.fates) && v.lastError != OK && v.response == last)
  }

  /** After a round of the chain loop: in the middle, or at the end. */
  ghost predicate Stands(incoming: Response, chain: seq<EngineType>, c: Course, goOn: bool, ok: bool, v: Vars)
    requires |c.fates| <= |chain|
  {
    if goOn then Holds(incoming, c.fates, v) else Reports(incoming, chain, c, ok, v)
  }

  lemma {:induction false} DegradedStep(fates: seq<Fate>, f: Fate, degraded: bool)
    requires degraded <==> exists k :: 0 <= k < |fates| && !fates[k].NotBuilt?
    ensures DegradedBy(fates + [f]) <==> degraded
    ensures (exists k :: 0 <= k < |fates + [f]| && !(fates + [f])[k].NotBuilt?) <==> degraded || !f.NotBuilt?
  {
    var all := fates + [f];
    assert all[|fates|] == f;
    assert forall k :: 0 <= k < |fates| ==> all[k] == fates[k];
  }

  lemma {:induction false} OneMore(fates: seq<Fate>, f: Fate, incoming: Response)
    ensures var all := fates + [f];
            && CallsOf(all) == CallsOf(fates) + CallOf(f) && |all| == |fates| + 1 && all[|all| - 1] == f
            && Answer(all, incoming) ==
               (if f.Called? then f.call.answer else Answer(fates, incoming))
  {
    assert (fates + [f])[..|fates|] == fates;
  }

  /** `attempts` goes into the response of every failure. */
  function Counted(v: Vars): Vars { v.(response := v.response.(attempts := v.attempts)) }

  /** A chain that went on to its end reports a failure. */
  lemma {:induction false} EndReports(incoming: Response, chain: seq<EngineType>, start: nat, fates: seq<Fate>, v: Vars)
    requires Holds(incoming, fates, v) && |fates| <= |chain|
    ensures Reports(incoming, chain, Course(start, fates), false, Counted(v))
  {}

  /** The rest of a round of the chain loop: what the step does to the variables, and whether it goes on. */
  method TakeIn(retrySafe: bool, policy: int, engine: EngineType, stage: Stage, tmp: Response, v: Vars,
                ghost incoming: Response, ghost chain: seq<EngineType>, ghost start: nat, ghost fates: seq<Fate>,
                ghost f: Fate)
    returns (goOn: bool, ok: bool, w: Vars)
    requires Shows(stage, tmp, f) && Holds(incoming, fates, v)
    requires |fates| < |chain| && chain[|fates|] == engine
    ensures goOn <==> GoesOn(f, Fallback(policy), retrySafe)
    ensures Stands(incoming, chain, Course(start, fates + [f]), goOn, ok, w)
  {
    DegradedStep(fates, f, v.degraded);
    OneMore(fates, f, incoming);
    var allowFallback := Fallback(policy);
    w := v;
    goOn, ok := false, false;
    match stage {
    case Absent =>
      w := w.(lastError := ERR_UNSUPPORTED);
      if allowFallback { return true, false, w; }
    case Banned =>
      w := w.(lastError := ERR_DEGRADED);
      if allowFallback {
        w := w.(degraded := true);
        return true, false, w;
      }
    case NoTime =>
      w := w.(lastError := ERR_TIMEOUT);
    case Answered(ret) =>
      w := w.(attempts := w.attempts + 1);
      if ret == OK {
        w := w.(response := tmp.(protocol := ProtocolOf(engine), degraded := w.degraded, attempts := w.attempts));
        return false, true, w;
      }
      w := w.(response := tmp, lastError := ret);
      if IsRetryable(ret) && allowFallback && retrySafe {
        w := w.(degraded := true);
        return true, false, w;
      }
    }
    w := Counted(w);
  }

  /** What the log shows of a chain. */
  lemma {:induction false} ChainLogged(built: set<EngineType>, l: Limits, r: Request, policy: int, fates: seq<Fate>,
                                       incoming: Response, was: seq<Call>, log: seq<Call>)
    requires Steps(built, l, r, policy, fates) && log == was + CallsOf(fates)
    ensures Descends(policy, r.retrySafe, log[|was|..]) && |log| - |was| == |CallsOf(fates)|
    ensures |was| <= |log| && (Succeeds(fates) ==> |log| > |was|)
    ensures Succeeds(fates) ==>
              var last := log[|log| - 1];
              Reported(fates, incoming) ==
              last.answer.(protocol := ProtocolOf(last.engine), degraded := DegradedBy(fates),
                           attempts := |log| - |was|)
    ensures !Succeeds(fates) ==>
              Reported(fates, incoming) ==
              (if log == was then incoming else log[|log| - 1].answer)
              .(errCode := FailureCode(fates, incoming), attempts := |log| - |was|)
  {
    StepsDescend(built, l, r, policy, fates);
    AnswerIsLast(fates, incoming);
    assert log[|was|..] == CallsOf(fates);
    if CallsOf(fates) != [] { assert log[|log| - 1] == CallsOf(fates)[|CallsOf(fates)| - 1]; }
  }

  /** How a round of the chain loop went, as the code sees it. */
  datatype Stage = Absent | Banned | NoTime | Answered(ret: int)

  ghost predicate Shows(stage: Stage, tmp: Response, f: Fate) {
    match stage
    case Absent => f.NotBuilt?
    case Banned => f.Skipped?
    case NoTime => f.Late?
    case Answered(ret) => f.Called? && f.call.ret == ret && f.call.answer == tmp
  }

  class ProtocolSelector {
    const built: set<EngineType>
    const breaker: Breaker

    constructor (built: set<EngineType>, breaker: Breaker)
      ensures this.built == built && this.breaker == breaker
    {
      this.built, this.breaker := built, breaker;
    }

    /** One round of the chain loop. Other requests may use the circuit breaker in between. */
    method TryEngine(world: World, req: Request, policy: int, engine: EngineType, start: nat)
      returns (stage: Stage, tmp: Response, ghost fate: Fate)
      requires Chain(policy).Some? && engine in Chain(policy).value && start <= world.clock.now && breaker.Valid()
      modifies world`log, world.clock, breaker
      ensures breaker.Valid() && old(breaker.trace) <= breaker.trace && world.clock.now >= old(world.clock.now)
      ensures Shows(stage, tmp, fate)
      ensures StepTaken(built, breaker.limits, req, policy, engine, fate)
      ensures OnTime(req, start, old(world.clock.now), fate) && EndOf(0, [fate]) <= world.clock.now
      ensures world.log == old(world.log) + CallOf(fate)
      ensures breaker.own == old(breaker.own) + EventsOf(CircuitOf(req, engine), fate)
      ensures Seen(breaker.trace, CircuitOf(req, engine), fate)
    {
      stage, tmp, fate := Absent, EMPTY_RESPONSE, NotBuilt;
      if engine !in built { return; }
      ghost var look: Option<Check> := None;
      if Fallback(policy) {
        var available;
        ghost var check;
        available, check := LookUp(world, CircuitOf(req, engine));
        if !available { return Banned, tmp, Skipped(check); }
        look := Some(check);
      }
      stage, tmp, fate := CallEngine(world, req, policy, engine, start, look, old(breaker.own));
    }

    /** is_available, between other requests' use of the circuit breaker. */
    method LookUp(world: World, key: Key) returns (available: bool, ghost check: Check)
      requires breaker.Valid()
      modifies world.clock, breaker
      ensures breaker.Valid() && old(breaker.trace) <= breaker.trace
      ensures breaker.own == old(breaker.own) + [Checked(key, check.now)]
      ensures check.before + [Checked(key, check.now)] <= breaker.trace
      ensures old(world.clock.now) <= check.now == world.clock.now
      ensures available <==> !Refused(breaker.limits, check.before, key, check.now)
    {
      breaker.Others();
      var now := world.clock.Read();
      check := Check(breaker.trace, now);
      available := breaker.Available(key, now);
      breaker.Others();
    }

    /** The budget, the call and what the circuit breaker learns from it. */
    method CallEngine(world: World, req: Request, policy: int, engine: EngineType, start: nat,
                      ghost look: Option<Check>, ghost own: seq<Event>)
      returns (stage: Stage, tmp: Response, ghost fate: Fate)
      requires Chain(policy).Some? && engine in Chain(policy).value && engine in built && start <= world.clock.now
      requires breaker.Valid() && LooksFine(breaker.limits, policy, CircuitOf(req, engine), look)
      requires look.Some? ==> look.value.before + [Checked(CircuitOf(req, engine), look.value.now)] <= breaker.trace
      requires breaker.own == own + LookOf(CircuitOf(req, engine), look)
      modifies world`log, world.clock, breaker
      ensures breaker.Valid() && old(breaker.trace) <= breaker.trace && world.clock.now >= old(world.clock.now)
      ensures Shows(stage, tmp, fate) && (fate.Late? || fate.Called?) && fate.look == look
      ensures StepTaken(built, breaker.limits, req, policy, engine, fate)
      ensures fate.Late? ==> old(world.clock.now) <= fate.at <= world.clock.now && fate.at - start >= Configured(req)
      ensures fate.Called? ==>
                && old(world.clock.now) <= fate.call.startedAt <= fate.call.endedAt <= world.clock.now
                && Configured(req) - (fate.call.startedAt - start) <= fate.call.timeoutMs
                   <= Configured(req) - (old(world.clock.now) - start)
      ensures world.log == old(world.log) + CallOf(fate)
      ensures breaker.own == own + EventsOf(CircuitOf(req, engine), fate)
      ensures Seen(breaker.trace, CircuitOf(req, engine), fate)
    {
      tmp := EMPTY_RESPONSE;
      var now := world.clock.Read();
      var elapsed := now - start;
      var configured := if req.timeoutMs > 0 then req.timeoutMs else 15000;
      var remaining := configured - elapsed;
      if remaining <= 0 { return NoTime, tmp, Late(look, now); }
      var ret;
      ghost var call, learned;
      ret, tmp, call := world.Request(engine, req.connectHost, remaining);
      learned := LearnLater(world, CircuitOf(req, engine), ret, call);
      stage, fate := Answered(ret), Called(look, call, learned);
      Appended(own, LookOf(CircuitOf(req, engine), look), learned, EventsOf(CircuitOf(req, engine), fate),
               old(breaker.own), breaker.own);
      SeenLater(old(breaker.trace), old(breaker.trace), breaker.trace, CircuitOf(req, engine), look, fate);
    }

    /** What the circuit breaker learns, after whatever other requests did to it during the call. */
    method LearnLater(world: World, key: Key, ret: int, ghost call: Call) returns (ghost learned: seq<Event>)
      requires breaker.Valid() && call.ret == ret && call.endedAt <= world.clock.now
      modifies world.clock, breaker
      ensures breaker.Valid() && world.clock.now >= old(world.clock.now)
      ensures Taught(key, call, learned)
      ensures old(breaker.trace) <= breaker.trace && breaker.own == old(breaker.own) + learned
    {
      breaker.Others();
      learned := Learn(world, key, ret, call);
    }

    /** Only a failure that may be repeated counts against the engine; only a success clears it. */
    method Learn(world: World, key: Key, ret: int, ghost call: Call) returns (ghost learned: seq<Event>)
      requires breaker.Valid() && call.ret == ret && call.endedAt <= world.clock.now
      modifies world.clock, breaker
      ensures breaker.Valid() && world.clock.now >= old(world.clock.now)
      ensures Taught(key, call, learned)
      ensures breaker.trace == old(breaker.trace) + learned && breaker.own == old(breaker.own) + learned
    {
      learned := [];
      if ret == OK {
        breaker.Success(key);
        learned := [Passed(key)];
      } else if IsRetryable(ret) {
        var failedAt := world.clock.Read();
        ghost var evicted := breaker.Failure(key, failedAt);
        learned := [Failed(key, failedAt, evicted)];
      }
    }

    /** A chain in the middle: every step so far allowed the next. */
    ghost predicate Underway(clock: nat, r: Request, policy: int, start: nat, fates: seq<Fate>, trace: seq<Event>) {
      && Steps(built, breaker.limits, r, policy, fates) && Timed(r, start, fates)
      && AllSeen(trace, r, Chain(policy).value, fates)
      && start <= EndOf(start, fates) <= clock
      && (fates != [] ==> GoesOn(fates[|fates| - 1], Fallback(policy), r.retrySafe))
    }

    /** A chain as the policy prescribes it, each step on time; it stops early only with a step that does not
        go on. */
    ghost predicate Prescribed(r: Request, policy: int, c: Course) {
      && Steps(built, breaker.limits, r, policy, c.fates) && Timed(r, c.start, c.fates)
      && (|c.fates| < |Chain(policy).value| ==>
            c.fates != [] && !GoesOn(c.fates[|c.fates| - 1], Fallback(policy), r.retrySafe))
    }

    /** Such a chain, over by now, with every look at the circuit breaker in its history. */
    ghost predicate Followed(clock: nat, r: Request, policy: int, c: Course, trace: seq<Event>) {
      && Prescribed(r, policy, c) && AllSeen(trace, r, Chain(policy).value, c.fates)
      && c.start <= EndOf(c.start, c.fates) <= clock
    }

    /** A chain after one more step: still in the middle, or over, or both at its last engine. */
    ghost predicate Moved(clock: nat, r: Request, policy: int, start: nat, fates: seq<Fate>, goOn: bool,
                          trace: seq<Event>)
    {
      && Chain(policy).Some? && (goOn ==> Underway(clock, r, policy, start, fates, trace))
      && (!goOn || |fates| == |Chain(policy).value| ==> Followed(clock, r, policy, Course(start, fates), trace))
    }

    lemma {:induction false} Advance(r: Request, policy: int, start: nat, fates: seq<Fate>, f: Fate,
                                     from: nat, clock: nat, trace: seq<Event>, later: seq<Event>)
      requires Underway(from, r, policy, start, fates, trace) && trace <= later && from <= clock
      requires |fates| < |Chain(policy).value|
      requires StepTaken(built, breaker.limits, r, policy, Chain(policy).value[|fates|], f)
      requires OnTime(r, start, from, f) && EndOf(0, [f]) <= clock
      requires Seen(later, CircuitOf(r, Chain(policy).value[|fates|]), f)
      ensures var all := fates + [f]; var chain := Chain(policy).value;
              && CallsOf(all) == CallsOf(fates) + CallOf(f)
              && AllEvents(r, chain, all) == AllEvents(r, chain, fates) + EventsOf(CircuitOf(r, chain[|fates|]), f)
              && Moved(clock, r, policy, start, all, GoesOn(f, Fallback(policy), r.retrySafe), later)
    {
      OnTimeSooner(r, start, EndOf(start, fates), from, f);
      OneStepOn(r, Chain(policy).value, start, fates, f);
      StepsGrow(built, breaker.limits, r, policy, fates, f);
      SeenGrows(trace, later, r, Chain(policy).value, fates, f);
    }

    /** A step with its place in the chain. */
    method NextStep(world: World, req: Request, policy: int, i: nat, start: nat, ghost fates: seq<Fate>,
                    ghost log: seq<Call>, ghost own: seq<Event>)
      returns (stage: Stage, tmp: Response, ghost fate: Fate)
      requires Chain(policy).Some? && breaker.Valid() && i == |fates| < |Chain(policy).value|
      requires Underway(world.clock.now, req, policy, start, fates, breaker.trace)
      requires world.log == log + CallsOf(fates) && breaker.own == own + AllEvents(req, Chain(policy).value, fates)
      modifies world`log, world.clock, breaker
      ensures breaker.Valid() && old(breaker.trace) <= breaker.trace && world.clock.now >= old(world.clock.now)
      ensures Shows(stage, tmp, fate)
      ensures world.log == log + CallsOf(fates + [fate])
      ensures breaker.own == own + AllEvents(req, Chain(policy).value, fates + [fate])
      ensures Moved(world.clock.now, req, policy, start, fates + [fate],
                    GoesOn(fate, Fallback(policy), req.retrySafe), breaker.trace)
    {
      var chain := Chain(policy).value;
      ghost var before, from := breaker.trace, world.clock.now;
      stage, tmp, fate := TryEngine(world, req, policy, chain[i], start);
      Advance(req, policy, start, fates, fate, from, world.clock.now, before, breaker.trace);
      Appended(log, CallsOf(fates), CallOf(fate), CallsOf(fates + [fate]), old(world.log), world.log);
      Appended(own, AllEvents(req, chain, fates), EventsOf(CircuitOf(req, chain[i]), fate),
               AllEvents(req, chain, fates + [fate]),
               old(breaker.own), breaker.own);
    }

    /** One round of the chain loop. */
    method OneRound(world: World, req: Request, policy: int, i: nat, start: nat, v: Vars, ghost incoming: Response,
                    ghost fates: seq<Fate>, ghost log: seq<Call>, ghost own: seq<Event>)
      returns (goOn: bool, ok: bool, w: Vars, ghost fate: Fate)
      requires Chain(policy).Some? && breaker.Valid() && i == |fates| < |Chain(policy).value|
      requires Underway(world.clock.now, req, policy, start, fates, breaker.trace) && Holds(incoming, fates, v)
      requires world.log == log + CallsOf(fates) && breaker.own == own + AllEvents(req, Chain(policy).value, fates)
      modifies world`log, world.clock, breaker
      ensures breaker.Valid() && old(breaker.trace) <= breaker.trace && world.clock.now >= old(world.clock.now)
      ensures world.log == log + CallsOf(fates + [fate])
      ensures breaker.own == own + AllEvents(req, Chain(policy).value, fates + [fate])
      ensures Moved(world.clock.now, req, policy, start, fates + [fate], goOn, breaker.trace)
      ensures Stands(incoming, Chain(policy).value, Course(start, fates + [fate]), goOn, ok, w)
    {
      var stage, tmp;
      stage, tmp, fate := NextStep(world, req, policy, i, start, fates, log, own);
      goOn, ok, w := TakeIn(req.retrySafe, policy, Chain(policy).value[i], stage, tmp, v, incoming, Chain(policy).value,
                            start, fates, fate);
    }

    /** The chain loop. The response is the last engine's, or the caller's if none was called. */
    method RunChain(world: World, req: Request, policy: int, incoming: Response)
      returns (ok: bool, v: Vars, ghost course: Course)
      requires Chain(policy).Some? && breaker.Valid()
      modifies world`log, world.clock, breaker
      ensures breaker.Valid() && old(breaker.trace) <= breaker.trace && world.clock.now >= old(world.clock.now)
      ensures Followed(world.clock.now, req, policy, course, breaker.trace)
      ensures old(world.clock.now) <= course.start && world.log == old(world.log) + CallsOf(course.fates)
      ensures breaker.own == old(breaker.own) + AllEvents(req, Chain(policy).value, course.fates)
      ensures Reports(incoming, Chain(policy).value, course, ok, v)
    {
      var chain := Chain(policy).value;
      var requestStart := world.clock.Read();
      v := Vars(incoming, ERR_UNSUPPORTED, false, 0);
      course := Course(requestStart, []);
      var i := 0;
      while i < |chain|
        invariant i == |course.fates| <= |chain| && breaker.Valid() && old(breaker.trace) <= breaker.trace
        invariant old(world.clock.now) <= requestStart == course.start
        invariant world.log == old(world.log) + CallsOf(course.fates)
        invariant breaker.own == old(breaker.own) + AllEvents(req, chain, course.fates)
        invariant Underway(world.clock.now, req, policy, requestStart, course.fates, breaker.trace)
        invariant Holds(incoming, course.fates, v)
        invariant i == |chain| ==> Followed(world.clock.now, req, policy, course, breaker.trace)
      {
        var goOn;
        ghost var fate;
        goOn, ok, v, fate :=
          OneRound(world, req, policy, i, requestStart, v, incoming, course.fates, old(world.log),
                   old(breaker.own));
        course := Course(requestStart, course.fates + [fate]);
        if !goOn { return; }
        i := i + 1;
      }
      EndReports(incoming, chain, requestStart, course.fates, v);
      ok, v := false, Counted(v);
    }

    method RequestWithPolicy(world: World, req: Request, policy: int, incoming: Response)
      returns (result: int, response: Response, protocol: nat, degraded: bool, ghost course: Course)
      requires breaker.Valid()
      modifies world`log, world.clock, breaker
      ensures breaker.Valid() && old(breaker.trace) <= breaker.trace && world.clock.now >= old(world.clock.now)
      ensures Chain(policy).None? ==>
                result == ERR_INVALID_ARGUMENT && world.log == old(world.log) && breaker.own == old(breaker.own)
      ensures Chain(policy).Some? ==>
                && Followed(world.clock.now, req, policy, course, breaker.trace)
                && old(world.clock.now) <= course.start && world.log == old(world.log) + CallsOf(course.fates)
                && breaker.own == old(breaker.own) + AllEvents(req, Chain(policy).value, course.fates)
                && response == Reported(course.fates, incoming)
      // The response is what the last engine called answered, or the caller's if none was; only the selector's
      // own marks are set in it. On success the protocol is that of the last engine, and degraded means a built
      // engine before it was skipped or failed; otherwise the error is the last engine's, or that of the last step.
      ensures Chain(policy).Some? ==> (result == OK <==> Succeeds(course.fates))
      ensures result == OK ==>
                && |world.log| > |old(world.log)|
                && response == world.log[|world.log| - 1].answer
                               .(protocol := protocol, degraded := degraded, attempts := |world.log| - |old(world.log)|)
                && protocol == ProtocolOf(world.log[|world.log| - 1].engine)
                && (degraded <==> DegradedBy(course.fates))
      ensures Chain(policy).Some? && result != OK ==>
                && response == (if world.log == old(world.log) then incoming else world.log[|world.log| - 1].answer)
                               .(errCode := result, attempts := |world.log| - |old(world.log)|)
                && result == FailureCode(course.fates, incoming) && protocol == 0
      ensures Chain(policy).None? ==> response == incoming.(errCode := ERR_INVALID_ARGUMENT) && protocol == 0
      ensures |old(world.log)| <= |world.log|
      ensures Descends(policy, req.retrySafe, world.log[|old(world.log)|..])
    {
      response, protocol, degraded, course := incoming, 0, false, Course(0, []);
      if Chain(policy).None? {
        response := response.(errCode := ERR_INVALID_ARGUMENT);
        return ERR_INVALID_ARGUMENT, response, protocol, degraded, course;
      }
      var ok, v;
      ok, v, course := RunChain(world, req, policy, incoming);
      ChainLogged(built, breaker.limits, req, policy, course.fates, incoming, old(world.log), world.log);
      result, response, protocol, degraded := Report(ok, v, incoming, Chain(policy).value, course);
    }

    /** The end of a chain: what is handed out. */
    method Report(ok: bool, v: Vars, ghost incoming: Response, ghost chain: seq<EngineType>, ghost c: Course)
      returns (result: int, response: Response, protocol: nat, degraded: bool)
      requires |c.fates| <= |chain| && Reports(incoming, chain, c, ok, v)
      requires Succeeds(c.fates) ==> c.fates[|c.fates| - 1].call.engine == chain[|c.fates| - 1]
      ensures (result == OK <==> Succeeds(c.fates)) && response == Reported(c.fates, incoming)
      ensures result == OK ==> protocol == response.protocol && (degraded <==> response.degraded)
      ensures result != OK ==> result == FailureCode(c.fates, incoming) && protocol == 0
    {
      response, degraded := v.response, v.degraded;
      if ok { return OK, response, response.protocol, degraded; }
      if response.errCode == OK { response := response.(errCode := v.lastError); }
      result, protocol := response.errCode, 0;
    }
  }
}
