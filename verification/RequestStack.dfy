/** One logical request through its three nested loops: retries, addresses and, inside each address, the
    chain of protocols. */
module RequestStack {
  import opened Codes
  import opened Text
  import opened Requests
  import opened CircuitBreaker
  import opened EngineChain
  import opened Transport
  import opened RetryRounds
  import Pool = LeasePool
  import Quality = QualityProber

  class Client {
    const world: World
    const selector: ProtocolSelector
    const pool: Pool.ConnectionPool
    const prober: Quality.Prober?

    constructor (world: World, selector: ProtocolSelector, pool: Pool.ConnectionPool, prober: Quality.Prober?)
      ensures this.world == world && this.selector == selector && this.pool == pool && this.prober == prober
    {
      this.world, this.selector, this.pool, this.prober := world, selector, pool, prober;
    }

    function Parts(): Kit { Kit(selector, prober != null) }

    /** The shared tables are in order; every method keeps that. */
    ghost predicate Ready() reads pool, selector.breaker { Pool.Inv(pool.Model()) && selector.breaker.Valid() }

    function OriginOf(c: Context): Pool.Origin { Pool.Origin(c.request.host, c.request.port, 0, c.networkEpoch) }

    /** acquire on the pool: a lease under a new id, refused for an empty host or a pool full of others in use. */
    method Lease(c: Context) returns (lease: Pool.Lease, ghost now: int, ghost victim: Option<string>)
      requires Pool.Inv(pool.Model())
      modifies world.clock, pool
      ensures Pool.ScanDone(old(pool.Model()), OriginOf(c), victim)
      ensures (pool.Model(), lease) == Pool.Acquire(old(pool.Model()), OriginOf(c), now, victim)
      ensures Pool.Inv(pool.Model()) && world.clock.now >= old(world.clock.now)
      ensures lease.NoLease? <==> old(Pool.Refuses(pool.Model(), OriginOf(c)))
      ensures lease.NoLease? ==> pool.leases == old(pool.leases) && pool.nextLeaseId == old(pool.nextLeaseId)
      ensures lease.Lease? ==> lease.id in pool.leases && pool.leases - {lease.id} == old(pool.leases)
      ensures lease.Lease? ==> lease.id == old(pool.nextLeaseId) && pool.nextLeaseId == lease.id + 1
    {
      var at := world.clock.Read();
      now := at;
      ghost var before := pool.Model();
      lease, victim := pool.AcquireLease(OriginOf(c), at);
      Pool.AcquireKeeps(before, OriginOf(c), now, victim);
      Pool.AcquireGives(before, OriginOf(c), now, victim);
    }

    method Return(lease: Pool.Lease, success: bool) returns (ghost now: int)
      requires Pool.Inv(pool.Model()) && (lease.Lease? ==> lease.id in pool.leases)
      modifies world.clock, pool
      ensures Pool.Inv(pool.Model()) && world.clock.now >= old(world.clock.now)
      ensures pool.nextLeaseId == old(pool.nextLeaseId)
      ensures pool.Model() == Pool.Release(old(pool.Model()), lease, success, now)
      ensures pool.leases == if lease.Lease? then old(pool.leases) - {lease.id} else old(pool.leases)
    {
      var at := world.clock.Read();
      now := at;
      Pool.ReleaseKeeps(pool.Model(), lease, success, now);
      pool.ReleaseLease(lease, success, at);
    }

    ghost function Logs(): Record reads world { Record(world.log, world.lookups, world.naps) }

    function LinkNow(): Link reads prober {
      if prober == null then Unwatched
      else match prober.current.quality
           case Offline => Down
           case Degraded => Weak
           case Bad => Weak
           case _ => Fine
    }

    /** A lease (unless the pool refuses one), one chain of protocols on one address, the lease back, and
        the observation: pool and prober learn how it went. */
    method TryAddress(c: Context, address: string, incoming: Response)
      returns (result: int, response: Response, ghost a: Attempt, ghost o: Quality.Observation)
      requires prober != null && Ready()
      modifies world`log, world.clock, selector.breaker, pool, prober
      ensures Ready() && pool.leases == old(pool.leases) && old(selector.breaker.trace) <= selector.breaker.trace
      ensures pool.nextLeaseId ==
              old(pool.nextLeaseId) + (if old(Pool.Refuses(pool.Model(), OriginOf(c))) then 0 else 1)
      ensures Borrowed(old(pool.Model()), pool.Model(),
                       Pool.Origin(c.request.host, c.request.port, 0, c.networkEpoch), result == OK)
      ensures SampleOf(o, result, response)
      ensures prober.Model() == Quality.Observe(prober.config, old(prober.Model()), o.success, o.sample, o.now)
      ensures world.clock.now >= old(world.clock.now) && world.log == old(world.log) + CallsOf(a.course.fates)
      ensures a == Attempt(address, a.course, result, response)
      ensures AttemptMade(Parts(), c.request, c.policy, incoming, a)
      ensures AttemptSeen(selector.breaker.trace, c.request, c.policy, a)
      ensures CallsFine(c, old(world.clock.now), world.clock.now, CallsOf(a.course.fates), result)
    {
      result, response, a := RunLeased(c, address, incoming);
      ghost var ended := world.clock.now;
      var rtt := if response.ttfbMs >= 0 then response.ttfbMs else response.totalMs;
      var changed;
      changed, o := Observe(result == OK, rtt);
      CallsFineWider(c, old(world.clock.now), old(world.clock.now), ended, world.clock.now, CallsOf(a.course.fates),
                     result);
    }

    /** The chain of protocols between taking and giving back a lease. */
    method RunLeased(c: Context, address: string, incoming: Response)
      returns (result: int, response: Response, ghost a: Attempt)
      requires Ready()
      modifies world`log, world.clock, selector.breaker, pool
      ensures Ready() && pool.leases == old(pool.leases) && old(selector.breaker.trace) <= selector.breaker.trace
      ensures pool.nextLeaseId ==
              old(pool.nextLeaseId) + (if old(Pool.Refuses(pool.Model(), OriginOf(c))) then 0 else 1)
      ensures Borrowed(old(pool.Model()), pool.Model(), OriginOf(c), result == OK)
      ensures world.clock.now >= old(world.clock.now) && world.log == old(world.log) + CallsOf(a.course.fates)
      ensures a == Attempt(address, a.course, result, response)
      ensures AttemptMade(Parts(), c.request, c.policy, incoming, a)
      ensures AttemptSeen(selector.breaker.trace, c.request, c.policy, a)
      ensures CallsFine(c, old(world.clock.now), world.clock.now, CallsOf(a.course.fates), result)
    {
      var lease;
      ghost var taken, victim;
      lease, taken, victim := Lease(c);
      ghost var course, start := Course(0, []), world.clock.now;
      result, response, course := RunChainFor(c, c.request.(connectHost := address), incoming);
      ghost var ended := world.clock.now;
      a := Attempt(address, course, result, response);
      ghost var back := Return(lease, result == OK);
      assert BorrowedAt(old(pool.Model()), pool.Model(), OriginOf(c), result == OK, taken, victim, back);
      CallsFineWider(c, old(world.clock.now), start, ended, world.clock.now, CallsOf(course.fates), result);
    }

    /** One chain of protocols. */
    method RunChainFor(c: Context, attempt: Request, incoming: Response)
      returns (result: int, response: Response, ghost course: Course)
      requires selector.breaker.Valid() && attempt == c.request.(connectHost := attempt.connectHost)
      modifies world`log, world.clock, selector.breaker
      ensures selector.breaker.Valid() && old(selector.breaker.trace) <= selector.breaker.trace
      ensures world.clock.now >= old(world.clock.now) && world.log == old(world.log) + CallsOf(course.fates)
      ensures AttemptMade(Parts(), c.request, c.policy, incoming,
                          Attempt(attempt.connectHost, course, result, response))
      ensures AttemptSeen(selector.breaker.trace, c.request, c.policy,
                          Attempt(attempt.connectHost, course, result, response))
      ensures CallsFine(c, old(world.clock.now), world.clock.now, CallsOf(course.fates), result)
    {
      var protocol, degraded;
      result, response, protocol, degraded, course := selector.RequestWithPolicy(world, attempt, c.policy, incoming);
      if Chain(c.policy).Some? {
        ChainFine(Parts(), c, attempt, old(world.clock.now), world.clock.now, selector.breaker.trace, course, result,
                  response);
      } else {
        course := Course(0, []);
      }
    }

    method Observe(success: bool, rtt: int) returns (changed: bool, ghost o: Quality.Observation)
      requires prober != null
      modifies world.clock, prober
      ensures world.clock.now >= old(world.clock.now)
      ensures o == Quality.Observation(success, Quality.Sample(rtt, -1, -1, Quality.UnknownNetwork), o.now)
      ensures prober.Model() == Quality.Observe(prober.config, old(prober.Model()), o.success, o.sample, o.now)
    {
      var now := world.clock.Read();
      var sample := Quality.Sample(rtt, -1, -1, Quality.UnknownNetwork);
      changed := prober.ObserveSample(success, sample, now);
      o := Quality.Observation(success, sample, now);
    }

    /** One round of the address loop. */
    method TryNext(c: Context, addresses: seq<string>, index: nat, before: Response, ghost incoming: Response,
                   ghost from: nat, ghost calls: seq<Call>, ghost attempts: seq<Attempt>,
                   ghost start: Quality.State, ghost obs: seq<Quality.Observation>)
      returns (result: int, response: Response, ghost tried: seq<Attempt>, ghost more: seq<Call>,
               ghost seen: seq<Quality.Observation>)
      requires prober != null && Ready() && index == |attempts| < |addresses|
      requires before == Latest(incoming, attempts)
      requires Watched(attempts, obs) && prober.Model() == Quality.After(prober.config, start, obs)
      requires Attempted(Parts(), c, incoming, addresses, from, world.clock.now, selector.breaker.trace, calls,
                         attempts, ERR_CONNECT)
      modifies world`log, world.clock, selector.breaker, pool, prober
      ensures Ready() && pool.leases == old(pool.leases) && old(selector.breaker.trace) <= selector.breaker.trace
      ensures world.clock.now >= old(world.clock.now) && world.log == old(world.log) + more
      ensures |tried| == index + 1 && response == Latest(incoming, tried)
      ensures Attempted(Parts(), c, incoming, addresses, from, world.clock.now, selector.breaker.trace, calls + more,
                        tried, result)
      ensures Watched(tried, seen) && prober.Model() == Quality.After(prober.config, start, seen)
    {
      ghost var a, o;
      ghost var mid, trace := world.clock.now, selector.breaker.trace;
      result, response, a, o := TryAddress(c, addresses[index], before);
      WatchedMore(prober.config, start, attempts, obs, a, o);
      AttemptedMore(Parts(), c, incoming, addresses, from, mid, world.clock.now, trace, selector.breaker.trace, calls,
                    attempts, a);
      tried, more, seen := attempts + [a], CallsOf(a.course.fates), obs + [o];
    }

    /** The address loop over what the lookup found: on each address a chain of protocols is run. The second is
        tried only after a failed connect to the first, and is tried then if there is one and the request may be
        repeated. */
    method TryAddresses(c: Context, addresses: seq<string>, incoming: Response)
      returns (result: int, response: Response, ghost attempts: seq<Attempt>, ghost obs: seq<Quality.Observation>)
      requires prober != null && Ready() && addresses != []
      modifies world`log, world.clock, selector.breaker, pool, prober
      ensures Ready() && pool.leases == old(pool.leases) && old(selector.breaker.trace) <= selector.breaker.trace
      ensures world.clock.now >= old(world.clock.now) && world.log == old(world.log) + CallsBy(attempts)
      ensures Attempted(Parts(), c, incoming, addresses, old(world.clock.now), world.clock.now,
                        selector.breaker.trace,
                        CallsBy(attempts), attempts, result)
      ensures Tried(c.request, addresses, attempts, result) && response == Latest(incoming, attempts)
      ensures |CallsBy(attempts)| <= if c.request.retrySafe then 6 else 1
      ensures Watched(attempts, obs) && prober.Model() == Quality.After(prober.config, old(prober.Model()), obs)
    {
      response, attempts, obs := incoming, [], [];
      result := ERR_CONNECT;
      ghost var from, calls := world.clock.now, [];
      for index := 0 to MaxAddresses(c, addresses)
        invariant Ready() && pool.leases == old(pool.leases) && old(selector.breaker.trace) <= selector.breaker.trace
        invariant world.clock.now >= from && world.log == old(world.log) + calls
        invariant Attempted(Parts(), c, incoming, addresses, from, world.clock.now, selector.breaker.trace,
                            calls, attempts, result)
        invariant result == ERR_CONNECT && response == Latest(incoming, attempts)
        invariant |attempts| == index && Watched(attempts, obs)
        invariant prober.Model() == Quality.After(prober.config, old(prober.Model()), obs)
      {
        ghost var more;
        result, response, attempts, more, obs := TryNext(c, addresses, index, response, incoming, from, calls,
                                                         attempts, old(prober.Model()), obs);
        Rebracket(old(world.log), calls, more);
        calls := calls + more;
        if result == OK || result != ERR_CONNECT { break; }
      }
      AttemptedAll(Parts(), c, incoming, addresses, from, world.clock.now, selector.breaker.trace, calls,
                   attempts, result);
    }

    /** What the transport does with what the lookup found: nothing, or the address loop. */
    method UseFound(c: Context, found: Resolution, incoming: Response, ghost before: Response)
      returns (result: int, response: Response, ghost pass: Pass, ghost obs: seq<Quality.Observation>)
      requires prober != null && Ready() && incoming == before.(dnsMs := found.elapsedMs)
      modifies world`log, world.clock, selector.breaker, pool, prober
      ensures Ready() && pool.leases == old(pool.leases) && old(selector.breaker.trace) <= selector.breaker.trace
      ensures world.clock.now >= old(world.clock.now) && world.log == old(world.log) + CallsBy(pass.attempts)
      ensures pass.lookups == [Lookup(c.request.host, found)] && response == pass.response
      ensures Transported(Parts(), c, before, old(world.clock.now), world.clock.now, selector.breaker.trace,
                          pass, result)
      ensures PassWatched(pass, obs) && prober.Model() == Quality.After(prober.config, old(prober.Model()), obs)
    {
      if found.error != OK || found.addresses == [] {
        result, response, pass, obs := NoAddress(c, found, incoming, before);
        return;
      }
      ghost var attempts;
      result, response, attempts, obs := TryAddresses(c, found.addresses, incoming);
      ghost var latest := response;
      response := Complete(response, found.elapsedMs, result);
      pass := Pass([Lookup(c.request.host, found)], attempts, response);
      PassOf(Parts(), c, before, found, old(world.clock.now), world.clock.now, selector.breaker.trace, pass, result);
    }

    /** Without an address nothing is called; the failure is observed. */
    method NoAddress(c: Context, found: Resolution, incoming: Response, ghost before: Response)
      returns (result: int, response: Response, ghost pass: Pass, ghost obs: seq<Quality.Observation>)
      requires prober != null && Ready() && incoming == before.(dnsMs := found.elapsedMs)
      requires found.error != OK || found.addresses == []
      modifies world.clock, prober
      ensures Ready() && world.clock.now >= old(world.clock.now) && pass.attempts == []
      ensures pass.lookups == [Lookup(c.request.host, found)] && response == pass.response
      ensures Transported(Parts(), c, before, old(world.clock.now), world.clock.now, selector.breaker.trace, pass,
                          result)
      ensures PassWatched(pass, obs) && prober.Model() == Quality.After(prober.config, old(prober.Model()), obs)
    {
      result, response := ERR_DNS, incoming.(errCode := ERR_DNS, failureStage := "dns");
      pass := Pass([Lookup(c.request.host, found)], [], response);
      var changed;
      ghost var o;
      changed, o := Observe(false, -1);
      OneSample(prober.config, old(prober.Model()), o);
      obs := [o];
      NoCalls(Parts(), c, before, old(world.clock.now), world.clock.now, selector.breaker.trace, pass, result);
    }

    /** What the last attempt left out of its response. */
    method Complete(latest: Response, elapsedMs: int, result: int) returns (response: Response)
      ensures response == Completed(latest, elapsedMs, result)
    {
      response := latest;
      if response.dnsMs < 0 { response := response.(dnsMs := elapsedMs); }
      if result != OK && response.failureStage == [] { response := response.(failureStage := StageFor(result)); }
    }

    /** Client::execute_transport: one lookup; without addresses no call, otherwise the address loop. */
    method ExecuteTransport(c: Context, incoming: Response)
      returns (result: int, after: Context, response: Response, ghost pass: Pass, ghost obs: seq<Quality.Observation>)
      requires Ready()
      modifies world`log, world`lookups, world.clock, selector.breaker, pool, prober
      ensures Ready() && pool.leases == old(pool.leases) && old(selector.breaker.trace) <= selector.breaker.trace
      ensures world.clock.now >= old(world.clock.now)
      ensures world.log == old(world.log) + CallsBy(pass.attempts) && world.lookups == old(world.lookups) + pass.lookups
      ensures Transported(Parts(), c, incoming, old(world.clock.now), world.clock.now, selector.breaker.trace,
                          pass, result)
      ensures response == pass.response
      // The prober gets one sample for each address tried, or one failure when there was none.
      ensures prober != null ==>
                PassWatched(pass, obs) && prober.Model() == Quality.After(prober.config, old(prober.Model()), obs)
      ensures after ==
              if prober != null && c.attempts <= 1 then c.(dnsCacheHit := pass.lookups[0].found.cacheHit) else c
    {
      after, response, pass, obs := c, incoming, NO_PASS, [];
      if prober == null {
        response := response.(errCode := ERR_INTERNAL, failureStage := "initialization");
        pass := pass.(response := response);
        NoCalls(Parts(), c, incoming, old(world.clock.now), world.clock.now, selector.breaker.trace, pass,
                ERR_INTERNAL);
        return ERR_INTERNAL, after, response, pass, obs;
      }
      var resolution := world.Resolve(c.request.host);
      if c.attempts <= 1 { after := after.(dnsCacheHit := resolution.cacheHit); }
      response := response.(dnsMs := resolution.elapsedMs);
      ghost var mid := world.clock.now;
      result, response, pass, obs := UseFound(c, resolution, response, incoming);
      TransportedWider(Parts(), c, incoming, old(world.clock.now), mid, world.clock.now, selector.breaker.trace,
                       pass, result);
    }

    /** Chain::proceed: the next interceptor, or the transport behind the last. */
    method Proceed(interceptors: seq<Interceptor>, index: nat, c: Context, incoming: Response)
      returns (result: int, after: Context, response: Response, ghost e: Effect)
      requires index <= |interceptors| && Ready()
      modifies world, world.clock, selector.breaker, pool, prober
      ensures Ready() && pool.leases == old(pool.leases) && old(selector.breaker.trace) <= selector.breaker.trace
      ensures world.clock.now >= old(world.clock.now) && world.log == old(world.log) + e.calls
      ensures world.naps == old(world.naps) + e.naps
      ensures Kept(Parts(), interceptors, index, c, incoming, old(world.clock.now), world.clock.now, result,
                   after, e)
      ensures Looked(interceptors, index, c, old(world.lookups), world.lookups, selector.breaker.trace, e)
      ensures Replied(interceptors, index, c, incoming, after, response, e)
      ensures Retries(interceptors, index) == 1 ==> e.trail.limit == LimitAt(interceptors, index, old(LinkNow()), c)
      decreases |interceptors| - index, 6
    {
      if index >= |interceptors| {
        ghost var pass, obs;
        result, after, response, pass, obs := ExecuteTransport(c, incoming);
        e := Effect(CallsBy(pass.attempts), [], pass, Trail(0, 0, []));
      } else {
        match interceptors[index]
        case WeakNet => result, after, response, e := InterceptWeakNet(interceptors, index, c, incoming);
        case Retry => result, after, response, e := InterceptRetry(interceptors, index, c, incoming);
      }
    }

    /** What the guard does to the context. */
    method Guard(c: Context) returns (guarded: Context)
      ensures guarded == Guarded(LinkNow(), c)
    {
      guarded := c;
      if prober != null {
        var weak := prober.IsWeakNet();
        guarded := guarded.(weakNetwork := weak);
        if weak {
          var quality := prober.current.quality;
          guarded := guarded.(maxRetries := if quality == Quality.Offline then 0
                                            else if guarded.maxRetries < 1 then guarded.maxRetries else 1);
        }
      }
    }

    /** WeakNetInterceptor::intercept: a weak link leaves at most one retry, being offline none. */
    method InterceptWeakNet(interceptors: seq<Interceptor>, index: nat, c: Context, incoming: Response)
      returns (result: int, after: Context, response: Response, ghost e: Effect)
      requires index < |interceptors| && interceptors[index] == WeakNet && Ready()
      modifies world, world.clock, selector.breaker, pool, prober
      ensures Ready() && pool.leases == old(pool.leases) && old(selector.breaker.trace) <= selector.breaker.trace
      ensures world.clock.now >= old(world.clock.now) && world.log == old(world.log) + e.calls
      ensures world.naps == old(world.naps) + e.naps
      ensures Kept(Parts(), interceptors, index, c, incoming, old(world.clock.now), world.clock.now, result,
                   after, e)
      ensures Looked(interceptors, index, c, old(world.lookups), world.lookups, selector.breaker.trace, e)
      ensures Replied(interceptors, index, c, incoming, after, response, e)
      ensures Retries(interceptors, index) == 1 ==> e.trail.limit == LimitAt(interceptors, index, old(LinkNow()), c)
      ensures c.request.retrySafe && old(LinkNow()).Down? ==> |e.calls| <= Bound(Retries(interceptors, index), 0)
      decreases |interceptors| - index, 1
    {
      var guarded := Guard(c);
      ghost var link := LinkNow();
      result, after, response, e := Proceed(interceptors, index + 1, guarded, incoming);
      GuardKeeps(Parts(), interceptors, index, link, c, incoming, old(world.clock.now), world.clock.now, result,
                 after, e);
      GuardBounds(Parts(), interceptors, index, link, c, incoming, old(world.clock.now), world.clock.now,
                  result, after, e);
      GuardReplies(interceptors, index, link, c, incoming, after, response, e);
      GuardLooks(interceptors, index, link, c, old(world.lookups), world.lookups, selector.breaker.trace, e);
    }

    /** One round: what is left of the time goes into the request, and the rest of the chain runs. */
    method RunRound(interceptors: seq<Interceptor>, index: nat, c: Context, before: Context, ghost deadline: int,
                    remaining: int, ghost readAt: nat)
      returns (result: int, after: Context, response: Response, ghost e: Effect)
      requires index < |interceptors| && Ready() && Carried(c, before) && readAt <= world.clock.now && remaining > 0
      requires remaining == Int32(deadline - readAt)
      modifies world, world.clock, selector.breaker, pool, prober
      ensures Ready() && pool.leases == old(pool.leases) && old(selector.breaker.trace) <= selector.breaker.trace
      ensures world.clock.now >= old(world.clock.now) && world.log == old(world.log) + e.calls
      ensures world.naps == old(world.naps) + e.naps
      ensures Segment(c.policy, e.calls, result == OK) && |e.calls| <= MaxCalls(interceptors, index + 1, c)
      ensures Carried(c, after) && response.attempts == after.attempts
      ensures InPlace(Parts(), Retries(interceptors, index + 1) == 0, c, readAt, deadline,
                      Round(readAt, e.pass, e.calls, result, world.clock.now))
      ensures Retries(interceptors, index + 1) == 0 ==>
                && e.naps == [] && after.request.timeoutMs == remaining
                && after.attempts == before.attempts + 1 && response == e.pass.response.(attempts := after.attempts)
                && world.lookups == old(world.lookups) + e.pass.lookups
                && PassSeen(selector.breaker.trace, c.request, c.policy, e.pass)
      decreases |interceptors| - index, 0
    {
      after := before.(request := before.request.(timeoutMs := remaining), attempts := before.attempts + 1);
      FewerRetries(interceptors, index + 1, after, c);
      ghost var given := after;
      result, after, response, e := Proceed(interceptors, index + 1, after, EMPTY_RESPONSE);
      response := response.(attempts := after.attempts);
      RoundOf(Parts(), Retries(interceptors, index + 1) == 0, c, given, readAt, old(world.clock.now), world.clock.now,
              deadline, selector.breaker.trace, e, result);
    }

    /** The backoff after a failed round: exactly that sleep, unless it would reach the deadline. */
    method BackOff(deadline: int, attempt: nat, requestId: nat) returns (slept: bool, ghost napAt: nat)
      modifies world`naps, world.clock
      ensures old(world.clock.now) <= napAt <= world.clock.now
      ensures slept <==> napAt + Backoff(attempt, requestId) < deadline
      ensures slept ==> world.naps == old(world.naps) + [Nap(napAt, Backoff(attempt, requestId))]
                        && world.clock.now >= napAt + Backoff(attempt, requestId)
      ensures !slept ==> world.naps == old(world.naps)
    {
      var delay := Backoff(attempt, requestId);
      var before := world.clock.Read();
      napAt := before;
      slept := before + delay < deadline;
      if slept { world.Sleep(delay); }
    }

    /** A round that has time left, and a backoff if another may follow. */
    method RoundAndBackOff(interceptors: seq<Interceptor>, index: nat, c: Context, before: Context, deadline: int,
                           attempt: nat, now: nat, ghost innermost: bool, ghost perRound: nat)
      returns (turn: Turn, result: int, after: Context, response: Response, ghost r: Round)
      requires index < |interceptors| && innermost == (Retries(interceptors, index + 1) == 0)
      requires perRound == MaxCalls(interceptors, index + 1, c)
      requires Ready() && Carried(c, before) && now <= world.clock.now && Int32(deadline - now) > 0
      modifies world, world.clock, selector.breaker, pool, prober
      ensures Ready() && pool.leases == old(pool.leases) && old(selector.breaker.trace) <= selector.breaker.trace
      ensures RoundLogged(innermost, c, old(Logs()), Logs(), selector.breaker.trace, attempt, r, turn)
      ensures r == Round(now, r.pass, r.calls, result, r.napAt) && world.clock.now >= old(world.clock.now)
      ensures RoundGave(innermost, before, EMPTY_RESPONSE, deadline, r, after, response)
      ensures Made(Parts(), innermost, now, world.clock.now, c, before, after, perRound, deadline, attempt, r, turn)
      decreases |interceptors| - index, 1
    {
      ghost var e;
      result, after, response, e := RunRound(interceptors, index, c, before, deadline, Int32(deadline - now), now);
      ghost var ran, trace := Logs(), selector.breaker.trace;
      ghost var napAt;
      turn, napAt := AfterRound(c, before, after, deadline, attempt, now, innermost, perRound, e.pass, e.calls, result);
      r := Round(now, e.pass, e.calls, result, napAt);
      RoundLogs(innermost, c, old(Logs()), ran, Logs(), trace, attempt, e, r, turn);
    }

    /** What follows a round: its result, or a backoff and another round. */
    method AfterRound(c: Context, ghost before: Context, after: Context, deadline: int, attempt: nat, ghost now: nat,
                      ghost innermost: bool, ghost perRound: nat, ghost pass: Pass, ghost calls: seq<Call>, result: int)
      returns (turn: Turn, ghost napAt: nat)
      requires InPlace(Parts(), innermost, c, now, deadline, Round(now, pass, calls, result, world.clock.now))
      requires Int32(deadline - now) > 0
      requires Segment(c.policy, calls, result == OK) && |calls| <= perRound && Carried(c, after)
      requires innermost ==> after.request.timeoutMs == Int32(deadline - now)
      modifies world`naps, world.clock
      ensures world.clock.now >= old(world.clock.now)
      ensures world.naps == old(world.naps) + (if turn.Again? then [Nap(napAt, Backoff(attempt, c.requestId))] else [])
      ensures Made(Parts(), innermost, now, world.clock.now, c, before, after, perRound, deadline, attempt,
                   Round(now, pass, calls, result, napAt), turn)
    {
      ghost var ran := world.clock.now;
      if result == OK || !IsRetryable(result) || attempt == Limit(c) {
        RoundMade(Parts(), innermost, now, ran, ran, ran, c, before, after, perRound, deadline, attempt, pass, calls,
                  result, Done);
        return Done, ran;
      }
      var slept;
      slept, napAt := BackOff(deadline, attempt, after.requestId);
      turn := if slept then Again else Done;
      RoundMade(Parts(), innermost, now, ran, napAt, world.clock.now, c, before, after, perRound, deadline, attempt,
                pass, calls, result, turn);
    }

    /** One pass of the retry loop: the time left, a round, and perhaps a backoff before the next. */
    method RetryOnce(interceptors: seq<Interceptor>, index: nat, c: Context, before: Context, stale: Response,
                     deadline: int, attempt: nat, ghost innermost: bool, ghost perRound: nat)
      returns (turn: Turn, result: int, after: Context, response: Response, ghost r: Round)
      requires index < |interceptors| && innermost == (Retries(interceptors, index + 1) == 0)
      requires perRound == MaxCalls(interceptors, index + 1, c)
      requires Ready() && Carried(c, before)
      modifies world, world.clock, selector.breaker, pool, prober
      ensures Ready() && pool.leases == old(pool.leases) && old(selector.breaker.trace) <= selector.breaker.trace
      ensures RoundLogged(innermost, c, old(Logs()), Logs(), selector.breaker.trace, attempt, r, turn)
      ensures Made(Parts(), innermost, old(world.clock.now), world.clock.now, c, before, after, perRound, deadline,
                   attempt, r, turn)
      ensures r.result == result && RoundGave(innermost, before, stale, deadline, r, after, response)
      ensures turn.Expired? ==> response.failureStage == "deadline"
      decreases |interceptors| - index, 2
    {
      ghost var start := world.clock.now;
      var now := world.clock.Read();
      if Int32(deadline - now) <= 0 {
        ExpiredMade(Parts(), innermost, start, now, c, before, perRound, deadline, attempt);
        response := stale.(errCode := ERR_TIMEOUT, failureStage := "deadline");
        return Expired, ERR_TIMEOUT, before, response, Round(now, NO_PASS, [], ERR_TIMEOUT, now);
      }
      turn, result, after, response, r := RoundAndBackOff(interceptors, index, c, before, deadline, attempt, now,
                                                          innermost, perRound);
      MadeSooner(Parts(), innermost, start, now, world.clock.now, c, before, after, perRound, deadline, attempt, r,
                 turn);
    }

    /** The same pass in its place in the loop. */
    method NextPass(interceptors: seq<Interceptor>, index: nat, c: Context, before: Context, stale: Response,
                    deadline: int, attempt: nat, ghost innermost: bool, ghost perRound: nat, ghost from: nat,
                    ghost was: Record, ghost t: Trail, ghost last: int, ghost incoming: Response)
      returns (turn: Turn, result: int, after: Context, response: Response, ghost next: Trail)
      requires index < |interceptors| && innermost == (Retries(interceptors, index + 1) == 0)
      requires perRound == MaxCalls(interceptors, index + 1, c)
      requires Ready() && attempt <= Limit(c)
      requires Going(Parts(), innermost, from, world.clock.now, c, before, perRound, deadline, attempt, t, Again, last)
      requires Logged(innermost, was, c, t, Again, Logs(), selector.breaker.trace)
      requires Gave(innermost, c, incoming, t, before, stale)
      modifies world, world.clock, selector.breaker, pool, prober
      ensures Ready() && pool.leases == old(pool.leases) && old(selector.breaker.trace) <= selector.breaker.trace
      ensures world.clock.now >= old(world.clock.now)
      ensures Going(Parts(), innermost, from, world.clock.now, c, after, perRound, deadline, attempt + 1, next, turn,
                    result)
      ensures Logged(innermost, was, c, next, turn, Logs(), selector.breaker.trace)
      ensures Gave(innermost, c, incoming, next, after, response)
      ensures turn.Expired? ==> response.failureStage == "deadline"
      decreases |interceptors| - index, 3
    {
      ghost var start, mid, trace := world.clock.now, Logs(), selector.breaker.trace;
      ghost var r;
      turn, result, after, response, r := RetryOnce(interceptors, index, c, before, stale, deadline, attempt, innermost,
                                                    perRound);
      OnePass(Parts(), innermost, from, start, world.clock.now, c, before, after, perRound, t, r, turn);
      LogStep(innermost, was, c, t, mid, Logs(), trace, selector.breaker.trace, r, turn);
      GaveMore(innermost, c, incoming, t, before, stale, r, after, response);
      next := t.(rounds := t.rounds + [r]);
    }

    /** RetryInterceptor::intercept: rounds under one deadline, with a backoff between them. The caller's
        timeout is put back unless the loop ended for want of time before a round. */
    method InterceptRetry(interceptors: seq<Interceptor>, index: nat, c: Context, incoming: Response)
      returns (result: int, after: Context, response: Response, ghost e: Effect)
      requires index < |interceptors| && interceptors[index] == Retry && Ready()
      modifies world, world.clock, selector.breaker, pool, prober
      ensures Ready() && pool.leases == old(pool.leases) && old(selector.breaker.trace) <= selector.breaker.trace
      ensures world.clock.now >= old(world.clock.now) && world.log == old(world.log) + e.calls
      ensures world.naps == old(world.naps) + e.naps
      ensures Kept(Parts(), interceptors, index, c, incoming, old(world.clock.now), world.clock.now, result,
                   after, e)
      ensures Looked(interceptors, index, c, old(world.lookups), world.lookups, selector.breaker.trace, e)
      ensures Replied(interceptors, index, c, incoming, after, response, e)
      ensures Looped(Parts(), Retries(interceptors, index + 1) == 0, c, old(world.clock.now), world.clock.now, result,
                     after, e)
      ensures e.trail.limit == Limit(c)
      ensures if OutcomeOf(c, e.trail).turn.Expired? then response.failureStage == "deadline"
              else after.request.timeoutMs == c.request.timeoutMs
      decreases |interceptors| - index, 5
    {
      var initialTimeout := c.request.timeoutMs;
      var now := world.clock.Read();
      var deadline := if c.deadlineMs > 0 then c.deadlineMs else now + initialTimeout;
      var turn;
      ghost var t, attempt;
      turn, result, after, response, t, attempt := RunRounds(interceptors, index, c, incoming, deadline);
      e := Effect(CallsIn(t.rounds), world.naps[|old(world.naps)|..], NO_PASS, t);
      LoopLooks(interceptors, index, c, turn, old(Logs()), Logs(), selector.breaker.trace, e);
      ghost var left := after;
      if turn.Done? { after := after.(request := after.request.(timeoutMs := initialTimeout)); }
      LoopEnds(Parts(), interceptors, index, c, incoming, old(world.clock.now), now, world.clock.now, left,
               after, attempt, turn, result,
               old(Logs()), Logs(), selector.breaker.trace, e);
    }

    /** The loop itself, up to its end. */
    method RunRounds(interceptors: seq<Interceptor>, index: nat, c: Context, incoming: Response, deadline: int)
      returns (turn: Turn, result: int, after: Context, response: Response, ghost t: Trail, ghost passes: nat)
      requires index < |interceptors| && Ready()
      modifies world, world.clock, selector.breaker, pool, prober
      ensures Ready() && pool.leases == old(pool.leases) && old(selector.breaker.trace) <= selector.breaker.trace
      ensures world.clock.now >= old(world.clock.now) && !turn.Again?
      ensures Going(Parts(), Retries(interceptors, index + 1) == 0, old(world.clock.now), world.clock.now, c, after,
                    MaxCalls(interceptors, index + 1, c), deadline, passes, t, turn, result)
      ensures Logged(Retries(interceptors, index + 1) == 0, old(Logs()), c, t, turn, Logs(), selector.breaker.trace)
      ensures Gave(Retries(interceptors, index + 1) == 0, c, incoming, t, after, response)
      ensures turn.Expired? ==> response.failureStage == "deadline"
      decreases |interceptors| - index, 4
    {
      ghost var innermost, perRound := Retries(interceptors, index + 1) == 0, MaxCalls(interceptors, index + 1, c);
      t := Trail(deadline, Limit(c), []);
      result, after, response, turn := ERR_INTERNAL, c, incoming, Again;
      var attempt: nat := 0;
      LoopStarts(Parts(), innermost, world.clock.now, c, perRound, deadline, Logs(), selector.breaker.trace);
      while turn.Again?
        invariant Ready() && pool.leases == old(pool.leases) && old(selector.breaker.trace) <= selector.breaker.trace
        invariant Going(Parts(), innermost, old(world.clock.now), world.clock.now, c, after, perRound, deadline,
                        attempt, t, turn, result)
        invariant Logged(innermost, old(Logs()), c, t, turn, Logs(), selector.breaker.trace)
        invariant Gave(innermost, c, incoming, t, after, response)
        invariant turn.Expired? ==> response.failureStage == "deadline"
        invariant turn.Again? ==> attempt <= Limit(c)
        decreases turn.Again?, Limit(c) - attempt
      {
        turn, result, after, response, t := NextPass(interceptors, index, c, after, response, deadline, attempt,
                                                     innermost, perRound,
                                                     old(world.clock.now), old(Logs()), t, result, incoming);
        attempt := attempt + 1;
      }
      passes := attempt;
    }

    /** RequestOrchestrator::execute, for the one that runs the operation and does not wait for another. */
    method Execute(c: Context, incoming: Response)
      returns (result: int, after: Context, response: Response, ghost e: Effect)
      requires Ready()
      modifies world, world.clock, selector.breaker, pool, prober
      ensures Ready() && pool.leases == old(pool.leases) && old(selector.breaker.trace) <= selector.breaker.trace
      ensures world.clock.now >= old(world.clock.now) && world.log == old(world.log) + e.calls
      ensures world.naps == old(world.naps) + e.naps
      ensures Segment(c.policy, e.calls, result == OK)
      ensures |e.calls| <= if Replayable(c.request) then 6 * (1 + NormalizeRetrySafety(c).maxRetries) else 1
      ensures Looped(Parts(), true, NormalizeRetrySafety(c), old(world.clock.now), world.clock.now, result, after, e)
      ensures world.lookups == old(world.lookups) + LookupsIn(e.trail.rounds)
      ensures RoundsSeen(selector.breaker.trace, NormalizeRetrySafety(c), e.trail.rounds)
      ensures e.trail.limit == Limit(Guarded(old(LinkNow()), NormalizeRetrySafety(c)))
      ensures Gave(true, c, incoming, e.trail, after, response)
    {
      var normalized := NormalizeRetrySafety(c);
      ShippedStack(normalized);
      result, after, response, e := Proceed(SHIPPED, 0, normalized, incoming);
    }

    /** Client::request_with_policy: a request that may not be replayed causes at most one engine call in
        all, any other at most 2 rounds by 2 addresses by 3 protocols; the request succeeds exactly when
        the last engine called did, and no engine is called after one that did. All calls belong to rounds
        that began with time left to the one deadline, and got no more than that. */
    method Request(req: Request, policy: int, requestId: nat, epoch: nat, defaultTimeout: int, incoming: Response)
      returns (result: int, response: Response, ghost e: Effect, ghost c: Context)
      requires Ready()
      modifies world, world.clock, selector.breaker, pool, prober
      ensures Ready() && pool.leases == old(pool.leases)
      ensures world.clock.now >= old(world.clock.now) && world.log == old(world.log) + e.calls
      ensures world.naps == old(world.naps) + e.naps
      ensures Segment(policy, e.calls, result == OK)
      // It is repeated only if the caller vouched for it, or it has no body and a safe method, or it is idempotent and
      // carries an idempotency key in which something can be seen; and then there may be one retry, unless the link
      // is down.
      ensures c.request.retrySafe <==>
                || req.retrySafe
                || (req.body == [] && (req.method_ == "GET" || req.method_ == "HEAD" || req.method_ == "OPTIONS"))
                || (req.idempotent && ShowsKey(req.headers))
      ensures |e.calls| <= if c.request.retrySafe then 2 * 2 * 3 else 1
      ensures e.trail.limit ==
              if c.request.retrySafe && !old(prober != null && prober.current.quality.Offline?) then 1 else 0
      ensures e.calls == CallsIn(e.trail.rounds) && 1 <= |e.trail.rounds| <= 2
      ensures old(world.clock.now) <= e.trail.deadline - Budget(req, defaultTimeout) <= e.trail.rounds[0].readAt
      ensures AllBegunInTime(e.trail) && NapsInTime(e.trail.deadline, e.naps)
      // Every round with time left looked the host up once and ran the address loop over what that found, every
      // chain by the circuit breaker's history; the last one's result is the request's.
      ensures c.request == req.(timeoutMs := Budget(req, defaultTimeout), networkEpoch := epoch,
                                retrySafe := c.request.retrySafe)
      ensures c.policy == policy && c.requestId == requestId && AllRan(Parts(), c, e.trail)
      ensures world.lookups == old(world.lookups) + LookupsIn(e.trail.rounds)
      ensures RoundsSeen(selector.breaker.trace, c, e.trail.rounds)
      ensures result == e.trail.rounds[|e.trail.rounds| - 1].result
      // The second round follows exactly after a DNS, connect, timeout, protocol, unsupported or degraded error of the
      // first, when it may and its one sleep ends before the deadline.
      ensures |e.trail.rounds| == 2 <==>
                && e.trail.limit == 1 && Left(e.trail.deadline, e.trail.rounds[0]) > 0
                && e.trail.rounds[0].result in {-5, -6, -7, -9, -11, -13}
                && e.trail.rounds[0].napAt + 50 + requestId % 31 < e.trail.deadline
      ensures e.naps ==
              if |e.trail.rounds| == 2 then [Nap(e.trail.rounds[0].napAt, 50 + requestId % 31)] else []
      // The response is the last engine's answer on success; on failure it carries the error; and it is in any case
      // what the rounds made of what was passed in.
      ensures if result == OK then AnswersLastCall(world.log, world.lookups, e.trail, response)
              else AnswersFailure(e.trail, result, response)
      ensures Finished(Given(e.trail.deadline, incoming, 0, e.trail.rounds), Begun(e.trail.deadline, e.trail.rounds),
                       result, response)
    {
      var started := world.clock.Read();
      var timeout := Budget(req, defaultTimeout);
      var context;
      ghost var link;
      context, c, link := Prepare(req, policy, requestId, epoch, timeout, started);
      result, response, e := Perform(context, c, link, started, incoming);
      SecondRound(requestId, e.trail);
    }

    /** The context of a new request, and what the orchestrator makes of it. */
    method Prepare(req: Request, policy: int, requestId: nat, epoch: nat, timeout: int, started: nat)
      returns (context: Context, ghost c: Context, ghost link: Link)
      ensures Prepared(context, c) && context.attempts == 0 && context.policy == policy
      ensures c.request == req.(timeoutMs := timeout, networkEpoch := epoch, retrySafe := c.request.retrySafe)
      ensures c.policy == policy && c.requestId == requestId && c.deadlineMs == started + timeout
      ensures link == LinkNow()
      ensures Limit(Guarded(link, c)) ==
              if c.request.retrySafe && !(prober != null && prober.current.quality.Offline?) then 1 else 0
      ensures c.request.retrySafe <==>
                || req.retrySafe
                || (req.body == [] && (req.method_ == "GET" || req.method_ == "HEAD" || req.method_ == "OPTIONS"))
                || (req.idempotent && ShowsKey(req.headers))
    {
      context := NewContext(req, policy, requestId, epoch, timeout, started);
      c, link := NormalizeRetrySafety(context), LinkNow();
      NewContextNormalized(req, policy, requestId, epoch, timeout, started, link);
    }

    /** The request in its context, and what is left to fill in at the end. */
    method Perform(context: Context, ghost c: Context, ghost link: Link, started: nat, incoming: Response)
      returns (result: int, response: Response, ghost e: Effect)
      requires Ready() && started <= world.clock.now && context.attempts == 0
      requires Prepared(context, c) && link == LinkNow()
      modifies world, world.clock, selector.breaker, pool, prober
      ensures Ready() && pool.leases == old(pool.leases)
      ensures world.clock.now >= old(world.clock.now) && world.log == old(world.log) + e.calls
      ensures world.naps == old(world.naps) + e.naps && world.lookups == old(world.lookups) + LookupsIn(e.trail.rounds)
      ensures Segment(context.policy, e.calls, result == OK)
      ensures |e.calls| <= if c.request.retrySafe then 12 else 1
      ensures e.calls == CallsIn(e.trail.rounds) && e.trail.rounds != []
      ensures old(world.clock.now) <= e.trail.rounds[0].readAt && DeadlineOf(c, old(world.clock.now), e.trail)
      ensures AllBegunInTime(e.trail) && AllRan(Parts(), c, e.trail)
      ensures RoundsSeen(selector.breaker.trace, c, e.trail.rounds)
      ensures e.naps == Slept(c.requestId, e.trail.rounds[..|e.trail.rounds| - 1])
      ensures NapsInTime(e.trail.deadline, e.naps)
      ensures e.trail.limit == Limit(Guarded(link, c))
      ensures GoesOnRightly(c.requestId, e.trail) && result == e.trail.rounds[|e.trail.rounds| - 1].result
      ensures if result == OK then AnswersLastCall(world.log, world.lookups, e.trail, response)
              else AnswersFailure(e.trail, result, response)
      ensures Finished(Given(e.trail.deadline, incoming, 0, e.trail.rounds), Begun(e.trail.deadline, e.trail.rounds),
                       result, response)
    {
      var after;
      ghost var from := world.clock.now;
      result, after, response, e := Execute(context, incoming);
      RequestTimes(Parts(), c, from, world.clock.now, result, after, e);
      RequestResult(Parts(), c, from, world.clock.now, result, after, e);
      response := Finish(response, result, after.attempts, started);
      if result == OK {
        RequestSucceeds(Parts(), c, incoming, e.trail, old(world.log), world.log, old(world.lookups), world.lookups,
                        response);
      } else {
        RequestFails(Parts(), c, incoming, e.trail, result, response);
      }
    }

    /** What is left to fill in at the end. */
    method Finish(given: Response, result: int, attempts: nat, started: nat) returns (response: Response)
      requires started <= world.clock.now
      modifies world.clock
      ensures world.clock.now >= old(world.clock.now)
      ensures Finished(given, attempts, result, response)
      ensures given.totalMs < 0 ==> response.totalMs <= world.clock.now - started
    {
      response := given;
      if response.totalMs < 0 {
        var ended := world.clock.Read();
        response := response.(totalMs := ended - started);
      }
      if response.failureStage == [] && result != OK { response := response.(failureStage := StageFor(result)); }
      if response.attempts < attempts { response := response.(attempts := attempts); }
    }
  }
}
