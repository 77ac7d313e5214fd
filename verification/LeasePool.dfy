/** The connection pool's accounting: entries per origin, leases on them, LRU eviction of idle ones. */
module LeasePool {
  import opened Text

  datatype Origin = Origin(host: string, port: nat, protocol: int, networkEpoch: nat)

  function KeyFor(o: Origin): string {
    o.host + ['\n'] + Decimal(o.port) + ['\n'] + Decimal(o.protocol) + ['\n'] + Decimal(o.networkEpoch)
  }

  /** Different origins never share an entry, whatever bytes the host has. */
  lemma {:induction false} KeyForInjective(a: Origin, b: Origin)
    requires KeyFor(a) == KeyFor(b)
    ensures a == b
  {
    Newlineless(a);
    Newlineless(b);
    LastFieldUnique(a.host + ['\n'] + Decimal(a.port) + ['\n'] + Decimal(a.protocol), Decimal(a.networkEpoch),
                    b.host + ['\n'] + Decimal(b.port) + ['\n'] + Decimal(b.protocol), Decimal(b.networkEpoch), '\n');
    LastFieldUnique(a.host + ['\n'] + Decimal(a.port), Decimal(a.protocol), b.host + ['\n'] + Decimal(b.port),
                    Decimal(b.protocol), '\n');
    LastFieldUnique(a.host, Decimal(a.port), b.host, Decimal(b.port), '\n');
    DecimalInjective(a.networkEpoch, b.networkEpoch);
    DecimalInjective(a.protocol, b.protocol);
    DecimalInjective(a.port, b.port);
  }

  lemma {:induction false} Newlineless(o: Origin)
    ensures Without(Decimal(o.port), '\n') && Without(Decimal(o.protocol), '\n')
    ensures Without(Decimal(o.networkEpoch), '\n')
  {
    DecimalWithout(o.port, '\n');
    DecimalWithout(o.protocol, '\n');
    DecimalWithout(o.networkEpoch, '\n');
  }

  datatype Entry = Entry(activeLeases: nat, successes: nat, failures: nat, lastUsedMs: int)

  datatype Lease = NoLease | Lease(origin: Origin, id: nat)

  /** `created` counts the entries ever made. */
  datatype Pool = Pool(
    maxOrigins: nat, nextLeaseId: nat, networkEpoch: nat, evictions: nat, created: nat,
    entries: map<string, Entry>, leases: map<nat, string>)

  function Empty(maxOrigins: nat): Pool {
    Pool(if maxOrigins == 0 then 1 else maxOrigins, 1, 0, 0, 0, map[], map[])
  }

  // ---- the operations ----------------------------------------------------

  predicate Full(p: Pool, key: string) { |p.entries| >= p.maxOrigins && key !in p.entries }

  predicate Idle(entries: map<string, Entry>, key: string) { key in entries && entries[key].activeLeases == 0 }

  /** An idle entry unused for at least as long as every other idle entry. */
  predicate OldestIdle(entries: map<string, Entry>, key: string) {
    && Idle(entries, key)
    && forall k :: k in entries && Idle(entries, k) ==> entries[key].lastUsedMs <= entries[k].lastUsedMs
  }

  /** The scan's answer: an oldest idle entry, or none because nothing is idle. */
  predicate GoodVictim(entries: map<string, Entry>, victim: Option<string>) {
    match victim
    case Some(k) => OldestIdle(entries, k)
    case None => forall k :: k in entries ==> !Idle(entries, k)
  }

  /** A victim is looked for only when the pool is full of other origins. */
  predicate ScanDone(p: Pool, origin: Origin, victim: Option<string>) {
    origin.host != [] && Full(p, KeyFor(origin)) ==> GoodVictim(p.entries, victim)
  }

  function Evict(p: Pool, key: string): Pool {
    p.(entries := p.entries - {key}, evictions := p.evictions + 1)
  }

  function Grant(p: Pool, origin: Origin, now: int): (Pool, Lease) {
    var key := KeyFor(origin);
    var entry := if key in p.entries then p.entries[key] else Entry(0, 0, 0, 0);
    (p.(entries := p.entries[key := entry.(activeLeases := entry.activeLeases + 1, lastUsedMs := now)],
        leases := p.leases[p.nextLeaseId := key], nextLeaseId := p.nextLeaseId + 1,
        created := if key in p.entries then p.created else p.created + 1),
     Lease(origin, p.nextLeaseId))
  }

  function Acquire(p: Pool, origin: Origin, now: int, victim: Option<string>): (Pool, Lease) {
    if origin.host == [] then (p, NoLease)
    else if !Full(p, KeyFor(origin)) then Grant(p, origin, now)
    else match victim
         case None => (p, NoLease)
         case Some(v) =>
           var less := Evict(p, v);
           if |less.entries| >= p.maxOrigins then (less, NoLease) else Grant(less, origin, now)
  }

  function Release(p: Pool, lease: Lease, success: bool, now: int): Pool {
    if lease.NoLease? || lease.id !in p.leases then p
    else
      var key := p.leases[lease.id];
      var entries :=
        if key !in p.entries then p.entries
        else
          var e := p.entries[key];
          p.entries[key := Entry(if e.activeLeases > 0 then e.activeLeases - 1 else 0,
                                 if success then e.successes + 1 else e.successes,
                                 if success then e.failures else e.failures + 1, now)];
      p.(entries := entries, leases := p.leases - {lease.id})
  }

  function Clear(p: Pool, networkEpoch: nat): Pool {
    p.(networkEpoch := networkEpoch, evictions := p.evictions + |p.entries|, entries := map[], leases := map[])
  }

  /** The pool as the source has it; each method body runs under the pool's mutex. */
  class ConnectionPool {
    const maxOrigins: nat
    var nextLeaseId: nat
    var networkEpoch: nat
    var evictions: nat
    ghost var created: nat
    var entries: map<string, Entry>
    var leases: map<nat, string>

    ghost function Model(): Pool reads this {
      Pool(maxOrigins, nextLeaseId, networkEpoch, evictions, created, entries, leases)
    }

    constructor (max: nat)
      ensures Model() == Empty(max)
    {
      maxOrigins := if max == 0 then 1 else max;
      nextLeaseId, networkEpoch, evictions, created, entries, leases := 1, 0, 0, 0, map[], map[];
    }

    /** The eviction scan: the entries in any order, keeping the first oldest idle one. */
    method FindOldestIdle() returns (oldest: Option<string>)
      ensures GoodVictim(entries, oldest)
    {
      oldest := None;
      var rest := entries.Keys;
      while rest != {}
        invariant rest <= entries.Keys
        invariant oldest.Some? ==> Idle(entries, oldest.value)
        invariant forall k :: k in entries.Keys - rest && Idle(entries, k) ==>
                    oldest.Some? && entries[oldest.value].lastUsedMs <= entries[k].lastUsedMs
        decreases |rest|
      {
        var k :| k in rest;
        rest := rest - {k};
        if entries[k].activeLeases != 0 { continue; }
        if oldest.None? || entries[k].lastUsedMs < entries[oldest.value].lastUsedMs { oldest := Some(k); }
      }
    }

    method AcquireLease(origin: Origin, now: int) returns (lease: Lease, ghost victim: Option<string>)
      modifies this
      ensures (Model(), lease) == Acquire(old(Model()), origin, now, victim)
      ensures ScanDone(old(Model()), origin, victim)
    {
      victim := None;
      if origin.host == [] { return NoLease, victim; }
      var key := KeyFor(origin);
      if |entries| >= maxOrigins && key !in entries {
        var oldest := FindOldestIdle();
        victim := oldest;
        if oldest.Some? {
          entries := entries - {oldest.value};
          evictions := evictions + 1;
        }
        if |entries| >= maxOrigins { return NoLease, victim; }
      }
      lease := GrantLease(origin, key, now);
    }

    /** The end of acquire: the entry, made if needed, and a lease with the next id. */
    method GrantLease(origin: Origin, key: string, now: int) returns (lease: Lease)
      requires key == KeyFor(origin)
      modifies this
      ensures (Model(), lease) == Grant(old(Model()), origin, now)
    {
      if key !in entries { created := created + 1; }
      var entry := if key in entries then entries[key] else Entry(0, 0, 0, 0);
      entry := entry.(activeLeases := entry.activeLeases + 1);
      entry := entry.(lastUsedMs := now);
      entries := entries[key := entry];
      lease := Lease(origin, nextLeaseId);
      nextLeaseId := nextLeaseId + 1;
      leases := leases[lease.id := key];
    }

    method ReleaseLease(lease: Lease, success: bool, now: int)
      modifies this
      ensures Model() == Release(old(Model()), lease, success, now)
    {
      if lease.NoLease? { return; }
      if lease.id !in leases { return; }
      var key := leases[lease.id];
      if key in entries {
        var entry := entries[key];
        if entry.activeLeases > 0 { entry := entry.(activeLeases := entry.activeLeases - 1); }
        entry := entry.(lastUsedMs := now);
        if success { entry := entry.(successes := entry.successes + 1); }
        else { entry := entry.(failures := entry.failures + 1); }
        entries := entries[key := entry];
      }
      leases := leases - {lease.id};
    }

    method OnNetworkChange(epoch: nat)
      modifies this
      ensures Model() == Clear(old(Model()), epoch)
    {
      networkEpoch := epoch;
      EvictAll();
    }

    method EvictAll()
      modifies this
      ensures Model() == Clear(old(Model()), old(networkEpoch))
    {
      evictions := evictions + |entries|;
      entries := map[];
      leases := map[];
    }
  }

  // ---- every history of operations --------------------------------------

  datatype Event =
    | AcquireEvent(origin: Origin, now: int, victim: Option<string>)
    | ReleaseEvent(lease: Lease, success: bool, now: int)
    | ClearEvent(networkEpoch: nat)

  predicate Enabled(p: Pool, e: Event) { e.AcquireEvent? ==> ScanDone(p, e.origin, e.victim) }

  function Step(p: Pool, e: Event): Pool {
    match e
    case AcquireEvent(origin, now, victim) => Acquire(p, origin, now, victim).0
    case ReleaseEvent(lease, success, now) => Release(p, lease, success, now)
    case ClearEvent(epoch) => Clear(p, epoch)
  }

  ghost predicate Run(pools: seq<Pool>, events: seq<Event>) {
    && |pools| == |events| + 1 && (exists max :: pools[0] == Empty(max))
    && forall i :: 0 <= i < |events| ==> Enabled(pools[i], events[i]) && pools[i + 1] == Step(pools[i], events[i])
  }

  ghost function LeasesOn(leases: map<nat, string>, key: string): set<nat> {
    set id | id in leases && leases[id] == key
  }

  ghost predicate Inv(p: Pool) {
    && p.maxOrigins >= 1 && |p.entries| <= p.maxOrigins
    && (forall k :: k in p.entries ==> p.entries[k].activeLeases == |LeasesOn(p.leases, k)|)
    && (forall id :: id in p.leases ==> 0 < id < p.nextLeaseId && p.leases[id] in p.entries)
    && p.created == |p.entries| + p.evictions && p.nextLeaseId >= 1
  }

  lemma {:induction false} AddLease(leases: map<nat, string>, id: nat, key: string, k: string)
    requires id !in leases
    ensures |LeasesOn(leases[id := key], k)| == |LeasesOn(leases, k)| + (if k == key then 1 else 0)
  {
    if k == key { assert LeasesOn(leases[id := key], k) == LeasesOn(leases, k) + {id}; }
    else { assert LeasesOn(leases[id := key], k) == LeasesOn(leases, k); }
  }

  lemma {:induction false} DropLease(leases: map<nat, string>, id: nat, k: string)
    requires id in leases
    ensures |LeasesOn(leases - {id}, k)| == |LeasesOn(leases, k)| - (if k == leases[id] then 1 else 0)
  {
    if k == leases[id] { assert LeasesOn(leases - {id}, k) == LeasesOn(leases, k) - {id}; }
    else { assert LeasesOn(leases - {id}, k) == LeasesOn(leases, k); }
  }

  lemma {:induction false} EvictKeeps(p: Pool, victim: string)
    requires Inv(p) && Idle(p.entries, victim)
    ensures Inv(Evict(p, victim)) && |Evict(p, victim).entries| == |p.entries| - 1
  {
    var less := Evict(p, victim);
    assert less.entries.Keys == p.entries.Keys - {victim};
    assert LeasesOn(p.leases, victim) == {};
    forall id | id in p.leases ensures p.leases[id] in less.entries {
      assert id in LeasesOn(p.leases, p.leases[id]);
    }
  }

  lemma {:induction false} EntriesPut(entries: map<string, Entry>, key: string, e: Entry)
    ensures |entries[key := e]| == |entries| + (if key in entries then 0 else 1)
  {
    assert entries[key := e].Keys == entries.Keys + {key};
    assert |entries[key := e]| == |entries[key := e].Keys| && |entries| == |entries.Keys|;
  }

  /** Granting a lease counts it on its entry and on no other. */
  lemma {:induction false} GrantCounts(p: Pool, origin: Origin, now: int)
    requires Inv(p)
    ensures var p' := Grant(p, origin, now).0;
            forall k :: k in p'.entries ==> p'.entries[k].activeLeases == |LeasesOn(p'.leases, k)|
  {
    var key := KeyFor(origin);
    var p' := Grant(p, origin, now).0;
    if key !in p.entries { assert LeasesOn(p.leases, key) == {}; }
    forall k | k in p'.entries ensures p'.entries[k].activeLeases == |LeasesOn(p'.leases, k)| {
      AddLease(p.leases, p.nextLeaseId, key, k);
    }
  }

  lemma {:induction false} GrantKeeps(p: Pool, origin: Origin, now: int)
    requires Inv(p) && !Full(p, KeyFor(origin))
    ensures Inv(Grant(p, origin, now).0)
  {
    GrantCounts(p, origin, now);
    EntriesPut(p.entries, KeyFor(origin), Grant(p, origin, now).0.entries[KeyFor(origin)]);
  }

  lemma {:induction false} ReleaseKeeps(p: Pool, lease: Lease, success: bool, now: int)
    requires Inv(p)
    ensures Inv(Release(p, lease, success, now))
  {
    if lease.Lease? && lease.id in p.leases {
      var p' := Release(p, lease, success, now);
      var key := p.leases[lease.id];
      assert lease.id in LeasesOn(p.leases, key);
      assert p'.entries.Keys == p.entries.Keys;
      forall k | k in p'.entries ensures p'.entries[k].activeLeases == |LeasesOn(p'.leases, k)| {
        DropLease(p.leases, lease.id, k);
      }
    }
  }

  lemma {:induction false} StepKeeps(p: Pool, e: Event)
    requires Inv(p) && Enabled(p, e)
    ensures Inv(Step(p, e)) && Step(p, e).nextLeaseId >= p.nextLeaseId
  {
    match e
    case AcquireEvent(origin, now, victim) =>
      if origin.host != [] {
        if !Full(p, KeyFor(origin)) { GrantKeeps(p, origin, now); }
        else if victim.Some? {
          EvictKeeps(p, victim.value);
          GrantKeeps(Evict(p, victim.value), origin, now);
        }
      }
    case ReleaseEvent(lease, success, now) => ReleaseKeeps(p, lease, success, now);
    case ClearEvent(_) =>
  }

  /** Taking a lease adds one new id to the live leases, or none, and keeps the accounting. */
  lemma {:induction false} AcquireKeeps(p: Pool, origin: Origin, now: int, victim: Option<string>)
    requires Inv(p) && ScanDone(p, origin, victim)
    ensures var (p', lease) := Acquire(p, origin, now, victim);
            Inv(p') && if lease.NoLease? then p'.leases == p.leases
                       else lease.id !in p.leases && lease.id in p'.leases && p'.leases - {lease.id} == p.leases
  {
    StepKeeps(p, AcquireEvent(origin, now, victim));
    AcquireLeases(p, origin, now, victim);
  }

  lemma {:induction false} AcquireLeases(p: Pool, origin: Origin, now: int, victim: Option<string>)
    requires forall id :: id in p.leases ==> id < p.nextLeaseId
    ensures var (p', lease) := Acquire(p, origin, now, victim);
            if lease.NoLease? then p'.leases == p.leases
            else lease.id !in p.leases && lease.id in p'.leases && p'.leases - {lease.id} == p.leases
  {
    PutAndDrop(p.leases, p.nextLeaseId, KeyFor(origin));
    var (p', lease) := Acquire(p, origin, now, victim);
    if lease.Lease? { assert p'.leases == p.leases[p.nextLeaseId := KeyFor(origin)] && lease.id == p.nextLeaseId; }
  }

  lemma {:induction false} PutAndDrop(leases: map<nat, string>, id: nat, key: string)
    requires id !in leases
    ensures leases[id := key] - {id} == leases
  {}

  /** In every pool of every history: each entry counts exactly the live leases on it, every live lease
      has its entry, entries are bounded, and entries made are entries present plus entries evicted. */
  lemma {:induction false} Invariant(pools: seq<Pool>, events: seq<Event>, i: nat)
    requires Run(pools, events) && i < |pools|
    ensures Inv(pools[i])
    decreases i
  {
    if i > 0 {
      Invariant(pools, events, i - 1);
      assert Enabled(pools[i - 1], events[i - 1]);
      StepKeeps(pools[i - 1], events[i - 1]);
      assert pools[i - 1 + 1] == Step(pools[i - 1], events[i - 1]);
    }
  }

  // ---- leases ------------------------------------------------------------

  lemma {:induction false} DeadStep(p: Pool, e: Event, id: nat)
    requires id < p.nextLeaseId && id !in p.leases
    ensures id < Step(p, e).nextLeaseId && id !in Step(p, e).leases
  {}

  /** A lease that is not live never becomes live again: ids are not reused. */
  lemma {:induction false} DeadForever(pools: seq<Pool>, events: seq<Event>, i: nat, j: nat, id: nat)
    requires Run(pools, events) && i <= j < |pools| && id < pools[i].nextLeaseId && id !in pools[i].leases
    ensures id < pools[j].nextLeaseId && id !in pools[j].leases
    decreases j - i
  {
    if i < j {
      DeadForever(pools, events, i, j - 1, id);
      DeadStep(pools[j - 1], events[j - 1], id);
      assert pools[j - 1 + 1] == Step(pools[j - 1], events[j - 1]);
    }
  }

  /** A lease given out before a network change can be returned at any later time without touching
      anything, so it never takes a lease from a later user of the same origin. */
  lemma {:induction false} StaleRelease(pools: seq<Pool>, events: seq<Event>, i: nat, j: nat, lease: Lease,
                                        success: bool, now: int)
    requires Run(pools, events) && i < j < |pools| && events[i].ClearEvent?
    requires lease.Lease? && lease.id < pools[i].nextLeaseId
    ensures Release(pools[j], lease, success, now) == pools[j]
  {
    assert pools[i + 1] == Step(pools[i], events[i]);
    DeadForever(pools, events, i + 1, j, lease.id);
  }

  /** The same for a lease that was already returned, at any later time. */
  lemma {:induction false} DoubleRelease(pools: seq<Pool>, events: seq<Event>, i: nat, j: nat, success: bool, now: int)
    requires Run(pools, events) && i < j < |pools| && events[i].ReleaseEvent?
    requires events[i].lease.Lease? && events[i].lease.id < pools[i].nextLeaseId
    ensures Release(pools[j], events[i].lease, success, now) == pools[j]
  {
    assert pools[i + 1] == Step(pools[i], events[i]);
    DeadForever(pools, events, i + 1, j, events[i].lease.id);
  }

  /** An acquire is refused for an empty host, or when the pool is full of other origins all in use. */
  predicate Refuses(p: Pool, origin: Origin) {
    origin.host == [] || (Full(p, KeyFor(origin)) && forall k :: k in p.entries ==> p.entries[k].activeLeases > 0)
  }

  /** What an acquire gives: a new id on the entry of its own origin. It is refused exactly for an
      empty host, or when the pool is full of other origins that are all in use. */
  lemma {:induction false} AcquireGives(p: Pool, origin: Origin, now: int, victim: Option<string>)
    requires Inv(p) && ScanDone(p, origin, victim)
    ensures var (p', lease) := Acquire(p, origin, now, victim);
            && (lease.NoLease? <==> Refuses(p, origin))
            && (lease.NoLease? ==> p' == p)
            && (lease.Lease? ==>
                  && lease.origin == origin && lease.id == p.nextLeaseId && lease.id !in p.leases
                  && p'.nextLeaseId == lease.id + 1 && p'.leases == p.leases[lease.id := KeyFor(origin)])
            && (forall k ::
                  k in p.entries && k != KeyFor(origin)
                  && (lease.NoLease? || !Full(p, KeyFor(origin)) || victim != Some(k)) ==>
                  k in p'.entries && p'.entries[k] == p.entries[k])
  {
    if origin.host != [] && Full(p, KeyFor(origin)) && victim.Some? { EvictKeeps(p, victim.value); }
  }

  // ---- least recently used -----------------------------------------------

  /** This operation used this key: it took a lease on it, or gave back a live one. */
  predicate Uses(p: Pool, e: Event, key: string) {
    match e
    case AcquireEvent(origin, now, victim) => Acquire(p, origin, now, victim).1.Lease? && KeyFor(origin) == key
    case ReleaseEvent(lease, _, _) => lease.Lease? && lease.id in p.leases && p.leases[lease.id] == key
    case ClearEvent(_) => false
  }

  function TimeOf(e: Event): int {
    match e case AcquireEvent(_, now, _) => now case ReleaseEvent(_, _, now) => now case _ => 0
  }

  /** The time of the last operation among the first `n` of a history that used this key. */
  ghost function LastUse(pools: seq<Pool>, events: seq<Event>, n: nat, key: string): int
    requires n <= |events| <= |pools|
  {
    if n == 0 then 0
    else if Uses(pools[n - 1], events[n - 1], key) then TimeOf(events[n - 1])
    else LastUse(pools, events, n - 1, key)
  }

  /** One operation: a key that is used gets its time, another keeps its own; what is not in the pool comes into it by
      being used. */
  lemma {:induction false} UseStep(p: Pool, e: Event, key: string)
    requires Inv(p) && Enabled(p, e) && key in Step(p, e).entries
    ensures Uses(p, e, key) ==> Step(p, e).entries[key].lastUsedMs == TimeOf(e)
    ensures !Uses(p, e, key) ==>
              key in p.entries && Step(p, e).entries[key].lastUsedMs == p.entries[key].lastUsedMs
  {
    match e
    case AcquireEvent(origin, now, victim) => AcquireUse(p, origin, now, victim, key);
    case ReleaseEvent(lease, success, now) => ReleaseUse(p, lease, success, now, key);
    case ClearEvent(_) =>
  }

  lemma {:induction false} AcquireUse(p: Pool, origin: Origin, now: int, victim: Option<string>, key: string)
    requires key in Acquire(p, origin, now, victim).0.entries
    ensures var (p', lease) := Acquire(p, origin, now, victim);
            if lease.Lease? && KeyFor(origin) == key then p'.entries[key].lastUsedMs == now
            else key in p.entries && p'.entries[key] == p.entries[key]
  {}

  lemma {:induction false} ReleaseUse(p: Pool, lease: Lease, success: bool, now: int, key: string)
    requires Inv(p) && key in Release(p, lease, success, now).entries
    ensures key in p.entries
    ensures var used := lease.Lease? && lease.id in p.leases && p.leases[lease.id] == key;
            Release(p, lease, success, now).entries[key].lastUsedMs == if used then now else p.entries[key].lastUsedMs
  {}

  /** In every pool of every history an entry's time is that of the last operation that used its key: the last taking
      or giving back of a lease on it. */
  lemma {:induction false} LastUsed(pools: seq<Pool>, events: seq<Event>, i: nat, key: string)
    requires Run(pools, events) && i < |pools| && key in pools[i].entries
    ensures pools[i].entries[key].lastUsedMs == LastUse(pools, events, i, key)
    decreases i
  {
    if i > 0 {
      Invariant(pools, events, i - 1);
      assert Enabled(pools[i - 1], events[i - 1]) && pools[i - 1 + 1] == Step(pools[i - 1], events[i - 1]);
      UseStep(pools[i - 1], events[i - 1], key);
      if !Uses(pools[i - 1], events[i - 1], key) { LastUsed(pools, events, i - 1, key); }
    }
  }

  lemma {:induction false} VictimStep(p: Pool, e: Event, victim: string)
    requires Inv(p) && Enabled(p, e) && victim in p.entries && victim !in Step(p, e).entries && !e.ClearEvent?
    ensures e.AcquireEvent? && |p.entries| == p.maxOrigins && KeyFor(e.origin) !in p.entries
    ensures Step(p, e).entries.Keys == p.entries.Keys - {victim} + {KeyFor(e.origin)}
    ensures OldestIdle(p.entries, victim)
  {
    if e.AcquireEvent? {
      AcquireGives(p, e.origin, e.now, e.victim);
      EvictKeeps(p, victim);
    }
  }

  /** An entry leaves the pool, other than by a network change, only for another origin that finds the pool full; it
      goes
      alone. No lease on it is live, and no other such entry was last used before it. */
  lemma {:induction false} EvictsLeastRecent(pools: seq<Pool>, events: seq<Event>, i: nat, victim: string)
    requires Run(pools, events) && i < |events| && !events[i].ClearEvent?
    requires victim in pools[i].entries && victim !in pools[i + 1].entries
    ensures events[i].AcquireEvent? && |pools[i].entries| == pools[i].maxOrigins
    ensures KeyFor(events[i].origin) !in pools[i].entries
    ensures pools[i + 1].entries.Keys == pools[i].entries.Keys - {victim} + {KeyFor(events[i].origin)}
    ensures LeasesOn(pools[i].leases, victim) == {}
    ensures forall k :: k in pools[i].entries && LeasesOn(pools[i].leases, k) == {} ==>
              LastUse(pools, events, i, victim) <= LastUse(pools, events, i, k)
  {
    Invariant(pools, events, i);
    assert Enabled(pools[i], events[i]) && pools[i + 1] == Step(pools[i], events[i]);
    VictimStep(pools[i], events[i], victim);
    LastUsed(pools, events, i, victim);
    forall k | k in pools[i].entries && LeasesOn(pools[i].leases, k) == {}
      ensures LastUse(pools, events, i, victim) <= LastUse(pools, events, i, k)
    {
      LastUsed(pools, events, i, k);
      assert Idle(pools[i].entries, k);
    }
  }
}
