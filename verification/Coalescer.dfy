/** Single-flight coalescing: any number of threads enter `execute`; one mutex guards the flights. */
module Coalescer {
  import opened Codes
  import opened Text
  import opened Requests
  import opened DedupKey

  type ThreadId = nat
  type FlightId = nat

  /** What an execution hands back: the result, the response and whether DNS came from the cache. */
  datatype Outcome = Outcome(result: int, response: Response, dnsCacheHit: bool)

  datatype Flight = Flight(key: string, leader: ThreadId, complete: bool, outcome: Outcome)

  const NO_OUTCOME := Outcome(ERR_INTERNAL, EMPTY_RESPONSE, false)

  /** What the mutex guards: the flights by key, and every flight ever made. */
  datatype Shared = Shared(maxFlights: nat, flights: map<string, FlightId>, table: seq<Flight>)

  datatype Seat = Lead(flight: FlightId) | Follow(flight: FlightId) | Full

  /** The first critical section: follow the flight of this key, or lead a new one if there is room. */
  function Join(sh: Shared, t: ThreadId, key: string): (Shared, Seat) {
    if key in sh.flights then (sh, Follow(sh.flights[key]))
    else if |sh.flights| >= sh.maxFlights then (sh, Full)
    else
      (sh.(flights := sh.flights[key := |sh.table|], table := sh.table + [Flight(key, t, false, NO_OUTCOME)]),
       Lead(|sh.table|))
  }

  /** The leader's last critical section: store the outcome, mark the flight complete, remove it. */
  function Land(sh: Shared, f: FlightId, key: string, outcome: Outcome): Shared
    requires f < |sh.table|
  {
    sh.(table := sh.table[f := sh.table[f].(complete := true, outcome := outcome)], flights := sh.flights - {key})
  }

  /** The object behind the mutex; each method body is one critical section. */
  class RequestCoalescer {
    const maxFlights: nat
    var flights: map<string, FlightId>
    var table: seq<Flight>

    ghost function Model(): Shared reads this { Shared(maxFlights, flights, table) }

    constructor (max: nat)
      ensures Model() == Shared(if max == 0 then 1 else max, map[], [])
    {
      maxFlights := if max == 0 then 1 else max;
      flights, table := map[], [];
    }

    method Enter(t: ThreadId, key: string) returns (seat: Seat)
      modifies this
      ensures (Model(), seat) == Join(old(Model()), t, key)
      ensures key in old(flights) ==>
                seat == Follow(old(flights)[key]) && flights == old(flights) && table == old(table)
      ensures key !in old(flights) && |old(flights)| < maxFlights ==>
                && seat == Lead(|old(table)|) && flights == old(flights)[key := |old(table)|]
                && table == old(table) + [Flight(key, t, false, NO_OUTCOME)]
      ensures key !in old(flights) && |old(flights)| >= maxFlights ==>
                seat == Full && flights == old(flights) && table == old(table)
    {
      if key in flights {
        seat := Follow(flights[key]);
      } else if |flights| >= maxFlights {
        seat := Full;
      } else {
        seat := Lead(|table|);
        flights := flights[key := |table|];
        table := table + [Flight(key, t, false, NO_OUTCOME)];
      }
    }

    method Publish(f: FlightId, key: string, outcome: Outcome)
      requires f < |table|
      modifies this
      ensures Model() == Land(old(Model()), f, key, outcome)
    {
      table := table[f := table[f].(outcome := outcome)];
      table := table[f := table[f].(complete := true)];
      flights := flights - {key};
    }
  }

  // ---- the threads -------------------------------------------------------

  datatype Exit = Alone | Led(flight: FlightId) | Followed(flight: FlightId) | TimedOut(flight: FlightId)

  datatype Pc =
    | Unshared                                    // running, not shareable
    | Overflow                                    // running inside the critical section: no room for a flight
    | Leading(flight: FlightId)                   // running for the flight
    | Publishing(flight: FlightId, outcome: Outcome)
    | Following(flight: FlightId, deadline: int)
    | Exited(how: Exit, outcome: Outcome)
    | Raised                                      // the operation's exception left execute

  /** What the coalescer looks at in a request context, and the mark it leaves there. */
  datatype Call = Call(shareable: bool, key: string, deadlineMs: int, timeoutMs: int, deduplicated: bool)

  function CallOf(c: Context): Call {
    Call(Shareable(c), Key(c), c.deadlineMs, c.request.timeoutMs, c.deduplicated)
  }

  datatype State = State(shared: Shared, holder: Option<ThreadId>, pcs: map<ThreadId, Pc>, calls: map<ThreadId, Call>)

  /** How an operation ends. */
  datatype End = Returned(outcome: Outcome) | Threw(dnsCacheHit: bool)

  datatype Event =
    | Enter(t: ThreadId, call: Call, now: int)
    | Finish(t: ThreadId, end: End)
    | Publish(t: ThreadId)
    | Wake(t: ThreadId)
    | Expire(t: ThreadId, now: int)

  /** How long a follower waits. */
  function WaitsUntil(c: Call, now: int): int { if c.deadlineMs > 0 then c.deadlineMs else now + c.timeoutMs }

  predicate Runs(pc: Pc) { pc.Unshared? || pc.Overflow? || pc.Leading? }

  predicate Enabled(s: State, e: Event) {
    match e
    case Enter(t, c, _) => t !in s.pcs && (c.shareable ==> s.holder == None)
    case Finish(t, _) => t in s.pcs && Runs(s.pcs[t])
    case Publish(t) => t in s.pcs && s.pcs[t].Publishing? && s.holder == None
    case Wake(t) => t in s.pcs && s.pcs[t].Following? && s.holder == None
                    && s.pcs[t].flight < |s.shared.table| && s.shared.table[s.pcs[t].flight].complete
    case Expire(t, now) => t in s.pcs && s.pcs[t].Following? && s.holder == None
                           && s.pcs[t].flight < |s.shared.table| && !s.shared.table[s.pcs[t].flight].complete
                           && now >= s.pcs[t].deadline
  }

  /** What the catch-all handler of the leader makes of an exception. */
  function LeaderOutcome(end: End): Outcome {
    match end
    case Returned(o) => o
    case Threw(hit) =>
      Outcome(ERR_INTERNAL, EMPTY_RESPONSE.(errCode := ERR_INTERNAL, failureStage := "orchestrator"), hit)
  }

  function Timeout(): Outcome {
    Outcome(ERR_TIMEOUT, EMPTY_RESPONSE.(errCode := ERR_TIMEOUT, failureStage := "dedup_wait"), false)
  }

  function Step(s: State, e: Event): State
    requires Enabled(s, e)
  {
    match e
    case Enter(t, c, now) =>
      if !c.shareable then s.(pcs := s.pcs[t := Unshared], calls := s.calls[t := c])
      else
        var (shared, seat) := Join(s.shared, t, c.key);
        (match seat
         case Lead(f) => s.(shared := shared, pcs := s.pcs[t := Leading(f)], calls := s.calls[t := c])
         case Follow(f) =>
           s.(pcs := s.pcs[t := Following(f, WaitsUntil(c, now))], calls := s.calls[t := c.(deduplicated := true)])
         case Full => s.(holder := Some(t), pcs := s.pcs[t := Overflow], calls := s.calls[t := c]))
    case Finish(t, end) =>
      (match s.pcs[t]
       case Leading(f) => s.(pcs := s.pcs[t := Publishing(f, LeaderOutcome(end))])
       case _ =>
         var pc := match end case Returned(o) => Exited(Alone, o) case Threw(_) => Raised;
         s.(pcs := s.pcs[t := pc], holder := if s.pcs[t].Overflow? then None else s.holder))
    case Publish(t) =>
      var f, o := s.pcs[t].flight, s.pcs[t].outcome;
      if f < |s.shared.table| && t in s.calls then
        s.(shared := Land(s.shared, f, s.calls[t].key, o), pcs := s.pcs[t := Exited(Led(f), o)])
      else s
    case Wake(t) =>
      var f := s.pcs[t].flight;
      s.(pcs := s.pcs[t := Exited(Followed(f), s.shared.table[f].outcome)])
    case Expire(t, _) =>
      s.(pcs := s.pcs[t := Exited(TimedOut(s.pcs[t].flight), Timeout())])
  }

  predicate Initial(s: State) {
    s.shared.maxFlights >= 1 && s.shared.flights == map[] && s.shared.table == []
    && s.holder == None && s.pcs == map[] && s.calls == map[]
  }

  /** A run: each event was enabled when it happened. Threads interleave in any way. */
  ghost predicate Run(states: seq<State>, events: seq<Event>) {
    && |states| == |events| + 1 && Initial(states[0])
    && forall i :: 0 <= i < |events| ==> Enabled(states[i], events[i]) && states[i + 1] == Step(states[i], events[i])
  }

  // ---- the invariant -----------------------------------------------------

  /** The flight map holds exactly the incomplete flights, each under its own key. */
  ghost predicate MapInv(sh: Shared) {
    && (forall k :: k in sh.flights ==>
          sh.flights[k] < |sh.table| && !sh.table[sh.flights[k]].complete && sh.table[sh.flights[k]].key == k)
    && (forall f :: 0 <= f < |sh.table| && !sh.table[f].complete ==>
          sh.table[f].key in sh.flights && sh.flights[sh.table[f].key] == f)
    && |sh.flights| <= sh.maxFlights
  }

  /** What a thread's program counter promises about its flight. */
  ghost predicate PcInv(s: State, t: ThreadId)
    requires t in s.pcs && t in s.calls
  {
    var table, key := s.shared.table, s.calls[t].key;
    match s.pcs[t]
    case Unshared => !s.calls[t].shareable
    case Overflow => s.holder == Some(t) && s.calls[t].shareable && key !in s.shared.flights
    case Leading(f) =>
      f < |table| && table[f].leader == t && table[f].key == key && !table[f].complete && s.calls[t].shareable
    case Publishing(f, _) =>
      f < |table| && table[f].leader == t && table[f].key == key && !table[f].complete && s.calls[t].shareable
    case Following(f, _) => f < |table| && table[f].key == key && s.calls[t].shareable
    case Exited(Led(f), o) => f < |table| && table[f].leader == t && table[f].key == key
      && table[f].complete && table[f].outcome == o && s.calls[t].shareable
    case Exited(Followed(f), o) =>
      f < |table| && table[f].key == key && table[f].complete && table[f].outcome == o && s.calls[t].shareable
    case Exited(TimedOut(f), o) => f < |table| && table[f].key == key && o == Timeout() && s.calls[t].shareable
    case Exited(Alone, _) => true
    case Raised => true
  }

  /** Every flight has a leader that is still on it, or has published it. */
  ghost predicate LeaderInv(s: State, f: FlightId)
    requires f < |s.shared.table|
  {
    var flight := s.shared.table[f];
    flight.leader in s.pcs &&
    if flight.complete then s.pcs[flight.leader] == Exited(Led(f), flight.outcome)
    else s.pcs[flight.leader] == Leading(f) || (s.pcs[flight.leader].Publishing? && s.pcs[flight.leader].flight == f)
  }

  ghost predicate Inv(s: State) {
    && s.pcs.Keys == s.calls.Keys
    && MapInv(s.shared)
    && (forall t :: t in s.pcs ==> PcInv(s, t))
    && (forall f :: 0 <= f < |s.shared.table| ==> LeaderInv(s, f))
    && (s.holder.Some? ==> s.holder.value in s.pcs && s.pcs[s.holder.value].Overflow?)
  }

  lemma {:induction false} EnterNewFlight(s: State, t: ThreadId, c: Call, now: int)
    requires Inv(s) && Enabled(s, Enter(t, c, now))
    requires c.shareable && c.key !in s.shared.flights && |s.shared.flights| < s.shared.maxFlights
    ensures Inv(Step(s, Enter(t, c, now)))
  {
    var s' := Step(s, Enter(t, c, now));
    assert MapInv(s'.shared);
    forall u | u in s'.pcs ensures PcInv(s', u) { if u != t { assert PcInv(s, u); } }
    forall f | 0 <= f < |s'.shared.table| ensures LeaderInv(s', f) {
      if f < |s.shared.table| { assert LeaderInv(s, f); }
    }
  }

  lemma {:induction false} EnterNoFlight(s: State, t: ThreadId, c: Call, now: int)
    requires Inv(s) && Enabled(s, Enter(t, c, now))
    requires !c.shareable || c.key in s.shared.flights || |s.shared.flights| >= s.shared.maxFlights
    ensures Inv(Step(s, Enter(t, c, now)))
  {
    var s' := Step(s, Enter(t, c, now));
    forall u | u in s'.pcs ensures PcInv(s', u) { if u != t { assert PcInv(s, u); } }
    forall f | 0 <= f < |s'.shared.table| ensures LeaderInv(s', f) { assert LeaderInv(s, f); }
  }

  lemma {:induction false} FinishKeeps(s: State, t: ThreadId, end: End)
    requires Inv(s) && Enabled(s, Finish(t, end))
    ensures Inv(Step(s, Finish(t, end)))
  {
    var s' := Step(s, Finish(t, end));
    assert PcInv(s, t);
    forall u | u in s'.pcs ensures PcInv(s', u) { if u != t { assert PcInv(s, u); } }
    forall f | 0 <= f < |s'.shared.table| ensures LeaderInv(s', f) { assert LeaderInv(s, f); }
  }

  lemma {:induction false} LeaveKeeps(s: State, e: Event)
    requires Inv(s) && Enabled(s, e) && (e.Wake? || e.Expire?)
    ensures Inv(Step(s, e))
  {
    var s' := Step(s, e);
    assert PcInv(s, e.t);
    forall u | u in s'.pcs ensures PcInv(s', u) { if u != e.t { assert PcInv(s, u); } }
    forall f | 0 <= f < |s'.shared.table| ensures LeaderInv(s', f) { assert LeaderInv(s, f); }
  }

  lemma {:induction false} LandKeeps(sh: Shared, f: FlightId, key: string, o: Outcome)
    requires MapInv(sh) && f < |sh.table| && !sh.table[f].complete && sh.table[f].key == key
    ensures MapInv(Land(sh, f, key, o))
  {
    assert Land(sh, f, key, o).flights.Keys == sh.flights.Keys - {key};
  }

  lemma {:induction false} PublishPcs(s: State, t: ThreadId, u: ThreadId)
    requires Inv(s) && Enabled(s, Publish(t)) && u in s.pcs
    ensures var s' := Step(s, Publish(t)); u in s'.pcs && u in s'.calls && PcInv(s', u)
  {
    assert PcInv(s, t);
    assert PcInv(s, u);
  }

  lemma {:induction false} PublishLeaders(s: State, t: ThreadId, g: FlightId)
    requires Inv(s) && Enabled(s, Publish(t)) && g < |s.shared.table|
    ensures var s' := Step(s, Publish(t)); g < |s'.shared.table| && LeaderInv(s', g)
  {
    assert PcInv(s, t);
    assert LeaderInv(s, g);
  }

  lemma {:induction false} PublishKeeps(s: State, t: ThreadId)
    requires Inv(s) && Enabled(s, Publish(t))
    ensures Inv(Step(s, Publish(t)))
  {
    var s' := Step(s, Publish(t));
    assert PcInv(s, t);
    LandKeeps(s.shared, s.pcs[t].flight, s.calls[t].key, s.pcs[t].outcome);
    forall u | u in s'.pcs ensures PcInv(s', u) { PublishPcs(s, t, u); }
    forall g | 0 <= g < |s'.shared.table| ensures LeaderInv(s', g) { PublishLeaders(s, t, g); }
  }

  lemma {:induction false} StepKeeps(s: State, e: Event)
    requires Inv(s) && Enabled(s, e)
    ensures Inv(Step(s, e))
  {
    match e
    case Enter(t, c, now) =>
      if c.shareable && c.key !in s.shared.flights && |s.shared.flights| < s.shared.maxFlights {
        EnterNewFlight(s, t, c, now);
      } else {
        EnterNoFlight(s, t, c, now);
      }
    case Finish(t, end) => FinishKeeps(s, t, end);
    case Publish(t) => PublishKeeps(s, t);
    case _ => LeaveKeeps(s, e);
  }

  /** In every state of every run the flight map holds exactly the incomplete flights, at most
      `maxFlights` of them, each led by one thread that runs its operation or is about to publish. */
  lemma {:induction false} Invariant(states: seq<State>, events: seq<Event>, i: nat)
    requires Run(states, events) && i < |states|
    ensures Inv(states[i])
    decreases i
  {
    if i > 0 {
      Invariant(states, events, i - 1);
      assert Enabled(states[i - 1], events[i - 1]);
      StepKeeps(states[i - 1], events[i - 1]);
      assert states[i - 1 + 1] == Step(states[i - 1], events[i - 1]);
    }
  }

  // ---- who joins, who leads ----------------------------------------------

  /** The flights that are under way. */
  function UnderWay(table: seq<Flight>): set<FlightId> { set f | 0 <= f < |table| && !table[f].complete }

  lemma {:induction false} ValuesOfInjective(m: map<string, FlightId>)
    requires forall k, l :: k in m && l in m && m[k] == m[l] ==> k == l
    ensures |m.Values| == |m|
    decreases |m|
  {
    if m != map[] {
      var k :| k in m;
      var rest := m - {k};
      assert rest.Keys == m.Keys - {k};
      ValuesOfInjective(rest);
      assert m.Values == rest.Values + {m[k]} by {
        forall v | v in m.Values ensures v in rest.Values + {m[k]} {
          var l :| l in m && m[l] == v;
          if l != k { assert l in rest && rest[l] == v; }
        }
        forall v | v in rest.Values ensures v in m.Values { var l :| l in rest && rest[l] == v; assert l in m; }
      }
      assert m[k] !in rest.Values;
      assert |m.Keys| == |rest.Keys| + 1;
    }
  }

  lemma {:induction false} MapCountsFlights(sh: Shared)
    requires MapInv(sh)
    ensures |sh.flights| == |UnderWay(sh.table)|
  {
    ValuesOfInjective(sh.flights);
    assert sh.flights.Values == UnderWay(sh.table) by {
      forall f | f in UnderWay(sh.table) ensures f in sh.flights.Values {
        assert sh.table[f].key in sh.flights && sh.flights[sh.table[f].key] == f;
      }
    }
  }

  /** A shareable request that enters follows the flight under way for its key, if there is one, and waits at most until
      its deadline. Otherwise it leads a new flight for its key, unless as many as there may be are under way: then,
      and only then, it runs without one. */
  lemma {:induction false} EntersExactly(states: seq<State>, events: seq<Event>, i: nat, t: ThreadId, c: Call, now: int)
    requires Run(states, events) && i < |events| && events[i] == Enter(t, c, now) && c.shareable
    ensures var sh, sh' := states[i].shared, states[i + 1].shared;
            && t in states[i + 1].pcs && sh'.maxFlights == sh.maxFlights
            && var pc := states[i + 1].pcs[t];
               && (forall f :: f in UnderWay(sh.table) && sh.table[f].key == c.key ==>
                     && pc == Following(f, if c.deadlineMs > 0 then c.deadlineMs else now + c.timeoutMs)
                     && sh'.table == sh.table)
               && ((forall f :: f in UnderWay(sh.table) ==> sh.table[f].key != c.key) ==>
                     if |UnderWay(sh.table)| < sh.maxFlights then
                       && pc == Leading(|sh.table|) && |sh'.table| == |sh.table| + 1
                       && sh'.table[..|sh.table|] == sh.table && sh'.table[|sh.table|].key == c.key
                       && sh'.table[|sh.table|].leader == t && !sh'.table[|sh.table|].complete
                     else pc == Overflow && sh'.table == sh.table && |UnderWay(sh.table)| == sh.maxFlights)
  {
    var s, s' := states[i], states[i + 1];
    Invariant(states, events, i);
    assert Enabled(s, events[i]) && s' == Step(s, events[i]);
    MapCountsFlights(s.shared);
    if c.key in s.shared.flights {
      var f := s.shared.flights[c.key];
      assert f in UnderWay(s.shared.table) && s.shared.table[f].key == c.key;
    }
  }

  /** A request with a body, a method other than GET and HEAD, a trust anchor or a connect address of its own, a
      longer path or header value, or any header but five harmless ones never takes part: it neither leads nor follows.
      Every other request that may be repeated does take part. */
  lemma {:induction false} TakesPartExactly(states: seq<State>, events: seq<Event>, i: nat, j: nat, t: ThreadId,
                                            a: Context, now: int)
    requires Run(states, events) && i < |events| && events[i] == Enter(t, CallOf(a), now) && i < j < |states|
    ensures t in states[i + 1].pcs && (MayShare(a.request) <==> states[i + 1].pcs[t] != Unshared)
    ensures !MayShare(a.request) ==> t in states[j].pcs && OnItsOwn(states[j].pcs[t])
  {
    Invariant(states, events, i);
    assert Enabled(states[i], events[i]) && states[i + 1] == Step(states[i], events[i]);
    MayShareExactly(a);
    if !MayShare(a.request) { StaysOnItsOwn(states, events, i + 1, j, t); }
  }

  predicate OnItsOwn(pc: Pc) { pc.Unshared? || (pc.Exited? && pc.how.Alone?) || pc.Raised? }

  lemma {:induction false} StaysOnItsOwn(states: seq<State>, events: seq<Event>, i: nat, j: nat, t: ThreadId)
    requires Run(states, events) && i <= j < |states| && t in states[i].pcs && OnItsOwn(states[i].pcs[t])
    ensures t in states[j].pcs && OnItsOwn(states[j].pcs[t])
    decreases j
  {
    if i < j {
      StaysOnItsOwn(states, events, i, j - 1, t);
      Invariant(states, events, j - 1);
      assert Enabled(states[j - 1], events[j - 1]) && states[j - 1 + 1] == Step(states[j - 1], events[j - 1]);
      OwnStep(states[j - 1], events[j - 1], t);
    }
  }

  lemma {:induction false} OwnStep(s: State, e: Event, t: ThreadId)
    requires Inv(s) && Enabled(s, e) && t in s.pcs && OnItsOwn(s.pcs[t])
    ensures t in Step(s, e).pcs && OnItsOwn(Step(s, e).pcs[t])
  {
    if e.t != t { OthersLeaveIt(s, e, t); }
  }

  /** What takes part, in letters. */
  predicate MayShare(r: Request) {
    && r.retrySafe && (r.method_ == "GET" || r.method_ == "HEAD") && r.body == [] && r.connectHost == []
    && r.caCertPem == [] && |r.path| <= 4096
    && forall k :: 0 <= k < |r.headers| ==>
         && Lower(r.headers[k].name) in ["accept", "accept-encoding", "accept-language", "content-type", "range"]
         && |r.headers[k].value| <= 1024
  }

  lemma {:induction false} MayShareExactly(c: Context)
    ensures MayShare(c.request) <==> Shareable(c)
  {}

  // ---- what the callers get ---------------------------------------------

  /** No two operations for one key run at once, not even when one found no room for a flight. */
  lemma {:induction false} OneRunPerKey(states: seq<State>, events: seq<Event>, i: nat, t: ThreadId, u: ThreadId)
    requires Run(states, events) && i < |states|
    requires t in states[i].pcs && u in states[i].pcs && t != u && Runs(states[i].pcs[t]) && Runs(states[i].pcs[u])
    requires states[i].pcs[t] != Unshared && states[i].pcs[u] != Unshared
    ensures t in states[i].calls && u in states[i].calls && states[i].calls[t].key != states[i].calls[u].key
  {
    Invariant(states, events, i);
    assert PcInv(states[i], t) && PcInv(states[i], u);
  }

  /** In terms of requests: threads running shareable requests that passed the C entry point are
      never running the same request. */
  lemma {:induction false} NeverTheSameRequest(states: seq<State>, events: seq<Event>, i: nat, t: ThreadId, u: ThreadId,
                                               a: Context, b: Context)
    requires Run(states, events) && i < |states|
    requires t in states[i].pcs && u in states[i].pcs && t != u && Runs(states[i].pcs[t]) && Runs(states[i].pcs[u])
    requires t in states[i].calls && states[i].calls[t] == CallOf(a) && Accepted(a.request)
    requires u in states[i].calls && states[i].calls[u] == CallOf(b) && Accepted(b.request)
    requires Shareable(a) && Shareable(b)
    ensures !SameRequest(a, b)
  {
    Invariant(states, events, i);
    assert PcInv(states[i], t) && PcInv(states[i], u);
    OneRunPerKey(states, events, i, t, u);
    KeyExactly(a, b);
  }

  /** A follower that was not timed out returns what its own leader returned, for the same key. */
  lemma {:induction false} FollowerReturnsItsLeaders(states: seq<State>, events: seq<Event>, i: nat, t: ThreadId)
    requires Run(states, events) && i < |states|
    requires t in states[i].pcs && states[i].pcs[t].Exited? && states[i].pcs[t].how.Followed?
    ensures var s, f := states[i], states[i].pcs[t].how.flight;
            && f < |s.shared.table| && s.shared.table[f].complete
            && var leader := s.shared.table[f].leader;
               && leader in s.pcs && s.pcs[leader] == Exited(Led(f), s.pcs[t].outcome)
               && leader in s.calls && t in s.calls && s.calls[leader].key == s.calls[t].key
               && s.calls[leader].shareable
  {
    Invariant(states, events, i);
    var s, f := states[i], states[i].pcs[t].how.flight;
    assert PcInv(s, t);
    assert LeaderInv(s, f);
    assert PcInv(s, s.shared.table[f].leader);
  }

  /** A thread's place is its own: no other thread's step moves it. */
  lemma {:induction false} OthersLeaveIt(s: State, e: Event, t: ThreadId)
    requires Inv(s) && Enabled(s, e) && t in s.pcs && e.t != t
    ensures t in Step(s, e).pcs && Step(s, e).pcs[t] == s.pcs[t]
  {}

  /** The step that gave a follower up was taken at or past its deadline, with the flight still under way. */
  ghost predicate GaveUp(s: State, e: Event, t: ThreadId, f: FlightId, deadline: int) {
    && e.Expire? && e.t == t && t in s.pcs && s.pcs[t] == Following(f, deadline) && deadline <= e.now
    && f < |s.shared.table| && !s.shared.table[f].complete
  }

  /** The step by which it had joined set that deadline. */
  ghost predicate Joined(s: State, e: Event, t: ThreadId, f: FlightId, deadline: int) {
    && e.Enter? && e.t == t && e.call.shareable && e.call.key in s.shared.flights && s.shared.flights[e.call.key] == f
    && deadline == WaitsUntil(e.call, e.now)
  }

  lemma {:induction false} JoinedEarlier(states: seq<State>, events: seq<Event>, j: nat, t: ThreadId)
    requires Run(states, events) && j < |states| && t in states[j].pcs && states[j].pcs[t].Following?
    ensures exists i ::
              0 <= i < j && Joined(states[i], events[i], t, states[j].pcs[t].flight, states[j].pcs[t].deadline)
    decreases j
  {
    assert j > 0;
    var s, e := states[j - 1], events[j - 1];
    assert Enabled(s, e) && states[j - 1 + 1] == Step(s, e);
    if t in s.pcs && s.pcs[t] == states[j].pcs[t] {
      JoinedEarlier(states, events, j - 1, t);
    } else {
      if e.t != t {
        Invariant(states, events, j - 1);
        OthersLeaveIt(s, e, t);
      }
      assert Joined(s, e, t, states[j].pcs[t].flight, states[j].pcs[t].deadline);
    }
  }

  /** A follower that timed out had joined a flight, waited for it until the deadline it then set, and left it
      unfinished; it gets a timeout. */
  lemma {:induction false} TimeoutIsLate(states: seq<State>, events: seq<Event>, j: nat, t: ThreadId)
    requires Run(states, events) && j < |states|
    requires t in states[j].pcs && states[j].pcs[t].Exited? && states[j].pcs[t].how.TimedOut?
    ensures states[j].pcs[t].outcome == Timeout()
    ensures exists i, k, deadline ::
              0 <= i < k < j && Joined(states[i], events[i], t, states[j].pcs[t].how.flight, deadline)
              && GaveUp(states[k], events[k], t, states[j].pcs[t].how.flight, deadline)
    decreases j
  {
    assert j > 0;
    var s, e := states[j - 1], events[j - 1];
    assert Enabled(s, e) && states[j - 1 + 1] == Step(s, e);
    if t in s.pcs && s.pcs[t] == states[j].pcs[t] {
      TimeoutIsLate(states, events, j - 1, t);
    } else {
      Invariant(states, events, j - 1);
      if e.t != t && t in s.pcs { OthersLeaveIt(s, e, t); }
      JoinedEarlier(states, events, j - 1, t);
      var i :| 0 <= i < j - 1 && Joined(states[i], events[i], t, s.pcs[t].flight, s.pcs[t].deadline);
      assert GaveUp(states[j - 1], events[j - 1], t, s.pcs[t].flight, s.pcs[t].deadline);
    }
  }

  /** Where a leader's flight stands after its operation ended with this outcome: about to be published, or
      complete with that outcome. */
  ghost predicate Landing(s: State, t: ThreadId, f: FlightId, o: Outcome) {
    && t in s.pcs && f < |s.shared.table|
    && if s.shared.table[f].complete then s.pcs[t] == Exited(Led(f), o) && s.shared.table[f].outcome == o
       else s.pcs[t] == Publishing(f, o)
  }

  ghost predicate FollowersFree(s: State, f: FlightId) {
    forall u :: u in s.pcs && s.pcs[u].Following? && s.pcs[u].flight == f ==> Enabled(s, Wake(u))
  }

  lemma {:induction false} LandingStarts(s: State, t: ThreadId, end: End)
    requires Inv(s) && Enabled(s, Finish(t, end)) && s.pcs[t].Leading?
    ensures var s' := Step(s, Finish(t, end)); var f := s.pcs[t].flight;
            Landing(s', t, f, LeaderOutcome(end)) && !s'.shared.table[f].complete
  {
    assert PcInv(s, t);
  }

  lemma {:induction false} LandingGoesOn(s: State, t: ThreadId, f: FlightId, o: Outcome)
    requires Landing(s, t, f, o)
    ensures s.holder == None ==> if s.shared.table[f].complete then FollowersFree(s, f) else Enabled(s, Publish(t))
  {}

  lemma {:induction false} LandingStep(s: State, e: Event, t: ThreadId, f: FlightId, o: Outcome)
    requires Inv(s) && Enabled(s, e) && Landing(s, t, f, o)
    ensures Landing(Step(s, e), t, f, o)
    ensures Step(s, e).shared.table[f].complete <==> s.shared.table[f].complete || e == Publish(t)
  {
    assert PcInv(s, t);
    StepKeeps(s, e);
    var s' := Step(s, e);
    if e.t != t {
      OthersLeaveIt(s, e, t);
      if e.t in s.pcs { assert PcInv(s, e.t); }
    }
    assert PcInv(s', t);
  }

  lemma {:induction false} LandingAt(states: seq<State>, events: seq<Event>, k: nat, t: ThreadId, f: FlightId,
                                     o: Outcome)
    requires Run(states, events) && k < |events| && Landing(states[k], t, f, o)
    ensures Landing(states[k + 1], t, f, o)
    ensures states[k + 1].shared.table[f].complete <==> states[k].shared.table[f].complete || events[k] == Publish(t)
  {
    Invariant(states, events, k);
    assert Enabled(states[k], events[k]) && states[k + 1] == Step(states[k], events[k]);
    LandingStep(states[k], events[k], t, f, o);
  }

  lemma {:induction false} LandingRun(states: seq<State>, events: seq<Event>, i: nat, j: nat, t: ThreadId, f: FlightId,
                                      o: Outcome)
    requires Run(states, events) && i <= j < |states| && Landing(states[i], t, f, o)
    requires !states[i].shared.table[f].complete
    ensures Landing(states[j], t, f, o) && (states[j].shared.table[f].complete <==> Publish(t) in events[i..j])
    decreases j
  {
    if i < j {
      LandingRun(states, events, i, j - 1, t, f, o);
      LandingAt(states, events, j - 1, t, f, o);
      OneMoreEvent(events, i, j, Publish(t));
    }
  }

  lemma {:induction false} OneMoreEvent(events: seq<Event>, i: nat, j: nat, e: Event)
    requires i < j <= |events|
    ensures e in events[i..j] <==> e in events[i..j - 1] || events[j - 1] == e
  {
    assert events[i..j] == events[i..j - 1] + [events[j - 1]];
  }

  /** However the leader's operation ends, by exception too, and whatever the others do in between: at every later
      moment the flight is complete with that outcome exactly when its leader has published it, which it can do
      whenever nobody holds the lock; from then on it stays so, and every follower can leave with it. */
  lemma {:induction false} LeaderExitLands(states: seq<State>, events: seq<Event>, i: nat, j: nat, t: ThreadId,
                                           end: End)
    requires Run(states, events) && i < |events| && events[i] == Finish(t, end) && i < j < |states|
    requires t in states[i].pcs && states[i].pcs[t].Leading?
    ensures var f, s := states[i].pcs[t].flight, states[j];
            && Landing(s, t, f, LeaderOutcome(end)) && (s.shared.table[f].complete <==> Publish(t) in events[i + 1..j])
            && (s.holder == None ==> if s.shared.table[f].complete then FollowersFree(s, f) else Enabled(s, Publish(t)))
  {
    var f, o := states[i].pcs[t].flight, LeaderOutcome(end);
    Invariant(states, events, i);
    assert Enabled(states[i], events[i]) && states[i + 1] == Step(states[i], events[i]);
    LandingStarts(states[i], t, end);
    LandingRun(states, events, i + 1, j, t, f, o);
    LandingGoesOn(states[j], t, f, o);
  }

  /** Publishing completes the leader's own flight, frees its key and touches no other flight. */
  lemma {:induction false} PublishOnlyItsOwn(states: seq<State>, events: seq<Event>, i: nat, t: ThreadId)
    requires Run(states, events) && i < |events| && events[i] == Publish(t)
    ensures var sh, sh' := states[i].shared, states[i + 1].shared;
            t in states[i].pcs && t in states[i].calls && states[i].pcs[t].Publishing? &&
            var f, key := states[i].pcs[t].flight, states[i].calls[t].key;
            && key in sh.flights && sh.flights[key] == f && sh'.flights == sh.flights - {key}
            && f < |sh.table| == |sh'.table|
            && sh'.table[f] == sh.table[f].(complete := true, outcome := states[i].pcs[t].outcome)
            && forall g :: 0 <= g < |sh.table| && g != f ==> sh'.table[g] == sh.table[g]
  {
    Invariant(states, events, i);
    assert Enabled(states[i], events[i]) && states[i + 1] == Step(states[i], events[i]);
    assert PcInv(states[i], t);
  }

  /** No follower is orphaned: while its flight is incomplete its leader still has a step to take. */
  lemma {:induction false} FollowersHaveALeader(states: seq<State>, events: seq<Event>, i: nat, t: ThreadId)
    requires Run(states, events) && i < |states|
    requires t in states[i].pcs && states[i].pcs[t].Following?
    ensures var s, f := states[i], states[i].pcs[t].flight;
            f < |s.shared.table| && var leader := s.shared.table[f].leader;
            if s.shared.table[f].complete then s.holder == None ==> Enabled(s, Wake(t))
            else leader in s.pcs && leader != t &&
                 (s.pcs[leader] == Leading(f) || (s.holder == None ==> Enabled(s, Publish(leader))))
  {
    Invariant(states, events, i);
    assert PcInv(states[i], t);
    assert LeaderInv(states[i], states[i].pcs[t].flight);
  }

  // ---- the engine calls of one key -----------------------------------------

  /** A thread in the same place of the same call. */
  ghost predicate SamePlace(s: State, s': State, t: ThreadId) {
    t in s.pcs && t in s'.pcs && s.pcs[t] == s'.pcs[t] && t in s.calls && t in s'.calls && s.calls[t] == s'.calls[t]
  }

  lemma {:induction false} RanOne(states: seq<State>, events: seq<Event>, k: nat, t: ThreadId)
    requires Run(states, events) && k < |events| && t in states[k].pcs
    requires t in states[k + 1].pcs && Runs(states[k + 1].pcs[t])
    ensures SamePlace(states[k], states[k + 1], t)
  {
    Invariant(states, events, k);
    assert Enabled(states[k], events[k]) && states[k + 1] == Step(states[k], events[k]);
    RunsUnmoved(states[k], events[k], t);
  }

  /** A thread in its operation: what it was called with stays, and so does its place until the operation ends. */
  lemma {:induction false} RanAllAlong(states: seq<State>, events: seq<Event>, i: nat, j: nat, t: ThreadId)
    requires Run(states, events) && i <= j < |states| && t in states[i].pcs
    requires t in states[j].pcs && Runs(states[j].pcs[t])
    ensures SamePlace(states[i], states[j], t)
    decreases j
  {
    if i == j {
      Invariant(states, events, j);
    } else {
      StaysKnown(states, events, i, j - 1, t);
      RanOne(states, events, j - 1, t);
      RanAllAlong(states, events, i, j - 1, t);
    }
  }

  lemma {:induction false} RunsUnmoved(s: State, e: Event, t: ThreadId)
    requires Inv(s) && Enabled(s, e) && t in s.pcs && t in Step(s, e).pcs && Runs(Step(s, e).pcs[t])
    ensures s.pcs[t] == Step(s, e).pcs[t] && t in s.calls && t in Step(s, e).calls && s.calls[t] == Step(s, e).calls[t]
  {}

  lemma {:induction false} StaysKnown(states: seq<State>, events: seq<Event>, i: nat, j: nat, t: ThreadId)
    requires Run(states, events) && i <= j < |states| && t in states[i].pcs
    ensures t in states[j].pcs
    decreases j
  {
    if i < j {
      StaysKnown(states, events, i, j - 1, t);
      assert Enabled(states[j - 1], events[j - 1]) && states[j - 1 + 1] == Step(states[j - 1], events[j - 1]);
    }
  }

  /** An engine call: which thread made it, and after how many events. */
  datatype Placed = Placed(at: nat, t: ThreadId)

  /** A call is made while its thread runs a shareable operation. */
  predicate MadeBy(states: seq<State>, p: Placed) {
    && p.at < |states| && p.t in states[p.at].pcs && p.t in states[p.at].calls
    && Runs(states[p.at].pcs[p.t]) && states[p.at].pcs[p.t] != Unshared
  }

  function KeyOf(states: seq<State>, p: Placed): string
    requires MadeBy(states, p)
  {
    states[p.at].calls[p.t].key
  }

  /** The engine calls made for one key come in blocks, one leader's after another's: between two calls of one thread no
      other thread makes a call for that key. So the followers of a flight, and everyone who asks while it lasts, add
      none. */
  lemma {:induction false} CallsInBlocks(states: seq<State>, events: seq<Event>, p: Placed, q: Placed, r: Placed)
    requires Run(states, events) && p.at <= q.at <= r.at && p.t == r.t
    requires MadeBy(states, p) && MadeBy(states, q) && MadeBy(states, r)
    requires KeyOf(states, p) == KeyOf(states, q)
    ensures q.t == p.t
  {
    StaysKnown(states, events, p.at, q.at, p.t);
    RanAllAlong(states, events, q.at, r.at, p.t);
    RanAllAlong(states, events, p.at, q.at, p.t);
    if q.t != p.t { OneRunPerKey(states, events, q.at, p.t, q.t); }
  }
}
