/** The circuit breaker of the protocol selector: per host, port, epoch and protocol, failures are
    counted and the protocol is banned for a while once there are too many in a row. */
module CircuitBreaker {
  import opened Text
  import opened Requests

  datatype EngineType = H1 | H2 | H3

  datatype Key = Key(host: string, engine: EngineType)

  function StateHostKey(r: Request): string {
    r.host + ['\n'] + Decimal(r.port) + ['\n'] + Decimal(r.networkEpoch)
  }

  /** Circuits of different hosts, ports or epochs are never mixed up. */
  lemma {:induction false} StateHostKeyInjective(a: Request, b: Request)
    requires StateHostKey(a) == StateHostKey(b)
    ensures a.host == b.host && a.port == b.port && a.networkEpoch == b.networkEpoch
  {
    DecimalWithout(a.port, '\n');
    DecimalWithout(b.port, '\n');
    DecimalWithout(a.networkEpoch, '\n');
    DecimalWithout(b.networkEpoch, '\n');
    LastFieldUnique(a.host + ['\n'] + Decimal(a.port), Decimal(a.networkEpoch),
                    b.host + ['\n'] + Decimal(b.port), Decimal(b.networkEpoch), '\n');
    LastFieldUnique(a.host, Decimal(a.port), b.host, Decimal(b.port), '\n');
    DecimalInjective(a.port, b.port);
    DecimalInjective(a.networkEpoch, b.networkEpoch);
  }

  /** The failures in a row that ban a protocol, for how long, and the size of the table. */
  datatype Settings = Settings(maxFailures: int, cooldownMs: int, maxStates: nat)

  /** The core ships with 3 failures, a minute and 512 entries; the first two can be set. */
  type Limits = l: Settings | l.maxFailures >= 1 && l.cooldownMs >= 1 && l.maxStates >= 1
    witness Settings(3, 60000, 512)

  /** `bannedUntilMs` 0 means not banned. */
  datatype Circuit = Circuit(failures: nat, bannedUntilMs: int)

  type Table = map<Key, Circuit>

  // ---- the operations ----------------------------------------------------

  function IsAvailable(t: Table, key: Key, now: int): (Table, bool) {
    if key !in t || t[key].bannedUntilMs == 0 then (t, true)
    else if now >= t[key].bannedUntilMs then (t[key := Circuit(0, 0)], true)
    else (t, false)
  }

  /** `evicted` is the entry that makes room, when a new key finds the table full. */
  predicate Evicts(l: Limits, t: Table, key: Key, evicted: Option<Key>) {
    if |t| >= l.maxStates && key !in t then evicted.Some? && evicted.value in t else evicted == None
  }

  function RecordFailure(l: Limits, t: Table, key: Key, now: int, evicted: Option<Key>): Table {
    var room := if evicted.Some? then t - {evicted.value} else t;
    var c := if key in room then room[key] else Circuit(0, 0);
    var failures := c.failures + 1;
    room[key := Circuit(failures, if failures >= l.maxFailures then now + l.cooldownMs else c.bannedUntilMs)]
  }

  function RecordSuccess(t: Table, key: Key): Table {
    if key in t then t[key := Circuit(0, 0)] else t
  }

  // ---- every history of operations --------------------------------------

  /** What a request does to the table under its mutex. */
  datatype Event =
    | Checked(key: Key, now: nat)
    | Failed(key: Key, now: nat, evicted: Option<Key>)
    | Passed(key: Key)

  predicate Enabled(l: Limits, t: Table, e: Event) { e.Failed? ==> Evicts(l, t, e.key, e.evicted) }

  function Step(l: Limits, t: Table, e: Event): Table {
    match e
    case Checked(key, now) => IsAvailable(t, key, now).0
    case Failed(key, now, evicted) => RecordFailure(l, t, key, now, evicted)
    case Passed(key) => RecordSuccess(t, key)
  }

  /** The table a history leaves. */
  ghost function After(l: Limits, events: seq<Event>): Table {
    if events == [] then map[] else Step(l, After(l, events[..|events| - 1]), events[|events| - 1])
  }

  ghost predicate Possible(l: Limits, events: seq<Event>) {
    events == []
    || (Possible(l, events[..|events| - 1]) && Enabled(l, After(l, events[..|events| - 1]), events[|events| - 1]))
  }

  lemma {:induction false} AfterOne(l: Limits, events: seq<Event>, e: Event)
    ensures After(l, events + [e]) == Step(l, After(l, events), e)
    ensures Possible(l, events) && Enabled(l, After(l, events), e) ==> Possible(l, events + [e])
  {
    assert (events + [e])[..|events|] == events;
  }

  /** What a history alone says about a key: the failures recorded since its last success, expired
      ban or eviction, and the time of the latest of them. */
  datatype Memory = Memory(failures: nat, lastFailureMs: nat)

  predicate Banned(l: Limits, m: Memory) { m.failures >= l.maxFailures }

  function BanEnd(l: Limits, m: Memory): int { m.lastFailureMs + l.cooldownMs }

  ghost function Remember(l: Limits, m: Memory, e: Event, key: Key): Memory {
    match e
    case Checked(k, now) => if k == key && Banned(l, m) && now >= BanEnd(l, m) then Memory(0, 0) else m
    case Failed(k, now, evicted) =>
      if k == key then Memory(m.failures + 1, now) else if evicted == Some(key) then Memory(0, 0) else m
    case Passed(k) => if k == key then Memory(0, 0) else m
  }

  ghost function Remembered(l: Limits, events: seq<Event>, key: Key): Memory {
    if events == [] then Memory(0, 0)
    else Remember(l, Remembered(l, events[..|events| - 1], key), events[|events| - 1], key)
  }

  /** The failures of this history have earned the protocol a ban that has not run out. */
  ghost predicate Refused(l: Limits, events: seq<Event>, key: Key, now: int) {
    Banned(l, Remembered(l, events, key)) && now < BanEnd(l, Remembered(l, events, key))
  }

  ghost predicate Agrees(l: Limits, t: Table, key: Key, m: Memory) {
    if key in t then
      t[key].failures == m.failures && t[key].bannedUntilMs == (if Banned(l, m) then BanEnd(l, m) else 0)
    else m.failures == 0
  }

  lemma {:induction false} StepAgrees(l: Limits, t: Table, e: Event, key: Key, m: Memory)
    requires Enabled(l, t, e) && Agrees(l, t, key, m)
    ensures Agrees(l, Step(l, t, e), key, Remember(l, m, e, key))
  {}

  lemma {:induction false} Put(t: Table, key: Key, c: Circuit)
    ensures |t[key := c]| == |t| + (if key in t then 0 else 1)
  {
    assert t[key := c].Keys == t.Keys + {key};
    assert |t[key := c]| == |t[key := c].Keys| && |t| == |t.Keys|;
  }

  lemma {:induction false} Drop(t: Table, key: Key)
    requires key in t
    ensures |t - {key}| == |t| - 1
  {
    assert (t - {key}).Keys == t.Keys - {key};
    assert |t - {key}| == |(t - {key}).Keys| && |t| == |t.Keys|;
  }

  lemma {:induction false} SizeKept(l: Limits, t: Table, e: Event)
    requires Enabled(l, t, e) && |t| <= l.maxStates
    ensures |Step(l, t, e)| <= l.maxStates
  {
    match e
    case Checked(key, _) => Put(t, key, Circuit(0, 0));
    case Passed(key) => Put(t, key, Circuit(0, 0));
    case Failed(key, _, evicted) =>
      var room := if evicted.Some? then t - {evicted.value} else t;
      if evicted.Some? { Drop(t, evicted.value); }
      Put(room, key, Step(l, t, e)[key]);
  }

  /** After every history each circuit is what the history says: the count is the run of failures, and
      the ban stands exactly when that run has reached the limit. The table is bounded. */
  lemma {:induction false} RefinesHistory(l: Limits, events: seq<Event>, key: Key)
    requires Possible(l, events)
    ensures Agrees(l, After(l, events), key, Remembered(l, events, key)) && |After(l, events)| <= l.maxStates
    decreases |events|
  {
    if events != [] {
      var before, e := events[..|events| - 1], events[|events| - 1];
      RefinesHistory(l, before, key);
      StepAgrees(l, After(l, before), e, key, Remembered(l, before, key));
      SizeKept(l, After(l, before), e);
    }
  }

  /** A protocol is refused exactly while the ban that its failures earned has not run out. */
  lemma {:induction false} RefusedExactly(l: Limits, events: seq<Event>, key: Key, now: int)
    requires Possible(l, events)
    ensures !IsAvailable(After(l, events), key, now).1 <==> Refused(l, events, key, now)
  {
    RefinesHistory(l, events, key);
  }

  // ---- the object --------------------------------------------------------

  /** The table as the selector has it; each method body runs under its mutex. `trace` is everything
      ever done to it, `own` what the request did that the model follows. */
  class Breaker {
    const limits: Limits
    var states: Table
    ghost var trace: seq<Event>
    ghost var own: seq<Event>

    ghost predicate Valid() reads this { Possible(limits, trace) && states == After(limits, trace) }

    constructor (limits: Limits)
      ensures this.limits == limits && states == map[] && trace == own == [] && Valid()
    {
      this.limits, states, trace, own := limits, map[], [], [];
    }

    /** is_available: refused exactly while the ban that the recorded failures earned has not run out. */
    method Available(key: Key, now: nat) returns (available: bool)
      requires Valid()
      modifies this
      ensures Valid() && trace == old(trace) + [Checked(key, now)] && own == old(own) + [Checked(key, now)]
      ensures (states, available) == IsAvailable(old(states), key, now)
      ensures available <==> !Refused(limits, old(trace), key, now)
    {
      RefusedExactly(limits, trace, key, now);
      AfterOne(limits, trace, Checked(key, now));
      trace, own := trace + [Checked(key, now)], own + [Checked(key, now)];
      if key !in states { return true; }
      if states[key].bannedUntilMs == 0 { return true; }
      if now >= states[key].bannedUntilMs {
        states := states[key := states[key].(bannedUntilMs := 0, failures := 0)];
        return true;
      }
      return false;
    }

    method Failure(key: Key, now: nat) returns (ghost evicted: Option<Key>)
      requires Valid()
      modifies this
      ensures Valid() && trace == old(trace) + [Failed(key, now, evicted)]
      ensures own == old(own) + [Failed(key, now, evicted)]
      ensures Evicts(limits, old(states), key, evicted)
      ensures states == RecordFailure(limits, old(states), key, now, evicted)
    {
      var struck;
      struck, evicted := Strike(key, now);
      AfterOne(limits, trace, Failed(key, now, evicted));
      states := struck;
      trace, own := trace + [Failed(key, now, evicted)], own + [Failed(key, now, evicted)];
    }

    /** The table after a failure: a new key makes room first when the table is full. */
    method Strike(key: Key, now: nat) returns (table: Table, ghost evicted: Option<Key>)
      ensures Evicts(limits, states, key, evicted) && table == RecordFailure(limits, states, key, now, evicted)
    {
      table, evicted := states, None;
      if |table| >= limits.maxStates && key !in table {
        var first :| first in table;
        evicted := Some(first);
        table := table - {first};
      }
      var s := if key in table then table[key] else Circuit(0, 0);
      s := s.(failures := s.failures + 1);
      if s.failures >= limits.maxFailures { s := s.(bannedUntilMs := now + limits.cooldownMs); }
      table := table[key := s];
    }

    method Success(key: Key)
      requires Valid()
      modifies this
      ensures Valid() && trace == old(trace) + [Passed(key)] && own == old(own) + [Passed(key)]
      ensures states == RecordSuccess(old(states), key)
    {
      if key in states {
        states := states[key := states[key].(failures := 0, bannedUntilMs := 0)];
      }
      AfterOne(limits, trace, Passed(key));
      trace, own := trace + [Passed(key)], own + [Passed(key)];
    }

    /** What other requests on the same selector may do meanwhile: any number of operations. */
    method Others()
      requires Valid()
      modifies this
      ensures Valid() && old(trace) <= trace && own == old(own)
    {
      ghost var mine := own;
      var n: nat := *;
      while n > 0
        invariant Valid() && old(trace) <= trace
      {
        var key: Key := *;
        var now: nat := *;
        var op: nat := *;
        if op == 0 { var available := Available(key, now); }
        else if op == 1 { ghost var evicted := Failure(key, now); }
        else { Success(key); }
        n := n - 1;
      }
      own := mine;
    }
  }
}
