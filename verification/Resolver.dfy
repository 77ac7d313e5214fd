/** The resolver: cache, live lookups, backup addresses and stale answers, in that order; what it
    answers is scored by experience, ranked and cached. */
module Resolver {
  import opened Codes
  import opened Text
  import opened AddressRanking
  import Quality = QualityProber
  import SmoothedRtt
  import opened Clocks
  import Slots = LookupSlots

  datatype Config = Config(
    ttlMs: int, staleTtlMs: int, maxCache: nat, maxHealth: nat, maxActive: nat, defaultTimeoutMs: int)

  datatype Entry = Entry(addresses: seq<Address>, expiresAtMs: int, staleUntilMs: int)

  datatype Answer = Answer(addresses: seq<Address>, error: int, cacheHit: bool)

  // ---- keys --------------------------------------------------------------

  function CacheKey(host: string, epoch: nat): string { host + ['\n'] + Decimal(epoch) }

  function HealthKey(host: string, ip: string, epoch: nat): string { CacheKey(host, epoch) + ['\n'] + ip }

  lemma {:induction false} CacheKeyInjective(host: string, epoch: nat, host': string, epoch': nat)
    requires CacheKey(host, epoch) == CacheKey(host', epoch')
    ensures host == host' && epoch == epoch'
  {
    DecimalWithout(epoch, '\n');
    DecimalWithout(epoch', '\n');
    LastFieldUnique(host, Decimal(epoch), host', Decimal(epoch'), '\n');
    DecimalInjective(epoch, epoch');
  }

  /** What is learned of an address is never applied to another host, network or address. */
  lemma {:induction false} HealthKeyInjective(host: string, ip: string, epoch: nat, host': string, ip': string,
                                              epoch': nat)
    requires Without(ip, '\n') && Without(ip', '\n') && HealthKey(host, ip, epoch) == HealthKey(host', ip', epoch')
    ensures host == host' && ip == ip' && epoch == epoch'
  {
    LastFieldUnique(CacheKey(host, epoch), ip, CacheKey(host', epoch'), ip', '\n');
    CacheKeyInjective(host, epoch, host', epoch');
  }

  predicate HasPrefix(s: string, prefix: string) { |prefix| <= |s| && s[..|prefix|] == prefix }

  /** The prefix test of invalidate picks exactly the host's own entries. */
  lemma {:induction false} PrefixPicksTheHost(host: string, other: string, epoch: nat)
    requires Without(host, '\n') && Without(other, '\n')
    ensures HasPrefix(CacheKey(other, epoch), host + ['\n']) <==> other == host
  {
    var key := CacheKey(other, epoch);
    var prefix := host + ['\n'];
    if HasPrefix(key, prefix) {
      assert key == host + ['\n'] + key[|prefix|..];
      FirstFieldUnique(host, key[|prefix|..], other, Decimal(epoch), '\n');
    }
    if other == host { assert key[..|prefix|] == prefix; }
  }

  function OfHost<V>(t: map<string, V>, host: string): set<string> { set k | k in t && HasPrefix(k, host + ['\n']) }

  // ---- the tiers ---------------------------------------------------------

  /** Drops unsafe addresses; the rest are marked with their family and where they came from. */
  function Clean(safe: string -> bool, v6: string -> bool, http: bool, s: seq<Address>): seq<Address> {
    if s == [] then []
    else
      var a := s[0];
      var source := if http then HttpDns else if a.source.HttpDns? || a.source.LocalDns? then a.source else Backup;
      (if safe(a.ip) then [a.(ipv6 := v6(a.ip), source := source)] else []) + Clean(safe, v6, http, s[1..])
  }

  ghost predicate AllSafe(safe: string -> bool, s: seq<Address>) { forall i :: 0 <= i < |s| ==> safe(s[i].ip) }

  /** A live lookup: not asked, or asked with what came back in time; nothing comes back when it is
      refused for want of a slot, late, or its thread cannot be started. */
  datatype Lookup = NotAsked | Asked(addresses: seq<Address>, timedOut: bool)

  function Found(l: Lookup): seq<Address> { match l case NotAsked => [] case Asked(addresses, _) => addresses }

  predicate TimedOut(l: Lookup) { l.Asked? && l.timedOut }

  /** Everything one resolution looked at. */
  datatype Seen = Seen(entry: Option<Entry>, readAt: nat, hasHttpDns: bool, backup: seq<Address>, deadline: int,
                       offline: bool, httpAt: nat, http: Lookup, localAt: nat, local: Lookup)

  /** How a lookup went, by its job: not asked; no slot was free; its thread could not be started; given up at the
      deadline; or collected. */
  datatype Course =
    | NoLookup
    | NoSlot(job: Slots.Job)
    | NoThread(job: Slots.Job)
    | GivenUp(job: Slots.Job)
    | Collected(job: Slots.Job)

  /** What that does to the slots. */
  ghost function MovesOf(course: Course): seq<Slots.Event> {
    match course
    case NoLookup => []
    case NoSlot(job) => [Slots.Refuse(job)]
    case NoThread(job) => [Slots.Take(job), Slots.FailToStart(job)]
    case GivenUp(job) => [Slots.Take(job), Slots.Start(job), Slots.GiveUp(job)]
    case Collected(job) => [Slots.Take(job), Slots.Start(job), Slots.Collect(job)]
  }

  lemma {:induction false} ThreeMoves(was: seq<Slots.Event>, a: Slots.Event, b: Slots.Event, c: Slots.Event)
    ensures was + [a] + [b] + [c] == was + [a, b, c]
  {}

  /** And what it brings: having no slot is a timeout like giving up. */
  ghost predicate Brings(course: Course, l: Lookup) {
    match course
    case NoLookup => l == NotAsked
    case NoSlot(_) => l == Asked([], true)
    case NoThread(_) => l == Asked([], false)
    case GivenUp(_) => l == Asked([], true)
    case Collected(_) => l.Asked? && !l.timedOut
  }

  /** Where a resolution's observations came from: which of the qualities the resolver has held it read, and how
      its lookups went. */
  datatype Told = Told(held: nat, http: Course, local: Course)

  /** It is so, when the resolver had held `before` qualities when the resolution began. */
  ghost predicate Witnessed(before: nat, qualities: seq<Quality.Quality>, v: Seen, told: Told) {
    && before - 1 <= told.held < |qualities| && v.offline == qualities[told.held].Offline?
    && Brings(told.http, v.http) && Brings(told.local, v.local)
  }

  ghost predicate Did(was: seq<Slots.Event>, told: Told, own: seq<Slots.Event>) {
    own == was + MovesOf(told.http) + MovesOf(told.local)
  }

  lemma {:induction false} WitnessedLater(before: nat, had: seq<Quality.Quality>, have: seq<Quality.Quality>, v: Seen,
                                          told: Told)
    requires Witnessed(before, had, v, told) && had <= have
    ensures Witnessed(before, have, v, told)
  {}

  function Effective(c: Config, timeoutMs: int): int {
    var ms := if timeoutMs > 0 then timeoutMs else c.defaultTimeoutMs;
    if ms < 1 then 1 else ms
  }

  function Fresh(v: Seen): seq<Address> {
    if v.entry.Some? && v.readAt <= v.entry.value.expiresAtMs then v.entry.value.addresses else []
  }

  function Stale(v: Seen): seq<Address> {
    if v.entry.Some? && v.readAt <= v.entry.value.staleUntilMs then v.entry.value.addresses else []
  }

  datatype Tier = FreshTier | HttpTier | LocalTier | BackupTier | StaleTier | NoTier

  /** The first tier that has anything. */
  function Pick(v: Seen): (Tier, seq<Address>) {
    if Fresh(v) != [] then (FreshTier, Fresh(v))
    else if Found(v.http) != [] then (HttpTier, Found(v.http))
    else if Found(v.local) != [] then (LocalTier, Found(v.local))
    else if v.backup != [] then (BackupTier, v.backup)
    else if Stale(v) != [] then (StaleTier, Stale(v))
    else (NoTier, [])
  }

  /** Live lookups are made exactly when nothing better is there, in time, and not when offline. */
  predicate AskedRightly(v: Seen) {
    && (v.http.Asked? <==> Fresh(v) == [] && v.hasHttpDns && v.httpAt < v.deadline && !v.offline)
    && (v.local.Asked? <==> Fresh(v) == [] && Found(v.http) == [] && v.localAt < v.deadline && !v.offline)
  }

  ghost predicate SeenSafe(safe: string -> bool, v: Seen) {
    && (v.entry.Some? ==> AllSafe(safe, v.entry.value.addresses)) && AllSafe(safe, v.backup)
    && AllSafe(safe, Found(v.http)) && AllSafe(safe, Found(v.local))
  }

  type HealthTable = map<string, Health>

  function HealthOf(health: HealthTable, key: string): Health { if key in health then health[key] else UNTRIED }

  function ScoreAll(q: Quality.Quality, health: HealthTable, host: string, epoch: nat,
                    s: seq<Address>): (r: seq<Address>)
    ensures |r| == |s| && forall i :: 0 <= i < |s| ==> r[i].ip == s[i].ip
  {
    seq(|s|, i requires 0 <= i < |s| => Scored(q, HealthOf(health, HealthKey(host, s[i].ip, epoch)), s[i]))
  }

  /** Safe addresses all pass, in the order they came. */
  lemma {:induction false} CleanKeeps(safe: string -> bool, v6: string -> bool, http: bool, s: seq<Address>)
    ensures AllSafe(safe, Clean(safe, v6, http, s))
    ensures AllSafe(safe, s) ==> Ips(Clean(safe, v6, http, s)) == Ips(s)
    decreases |s|
  {
    if s != [] {
      CleanKeeps(safe, v6, http, s[1..]);
      if AllSafe(safe, s) {
        assert safe(s[0].ip);
        assert AllSafe(safe, s[1..]) by { assert forall i :: 0 <= i < |s[1..]| ==> s[1..][i] == s[i + 1]; }
        assert Clean(safe, v6, http, s)[1..] == Clean(safe, v6, http, s[1..]);
      }
    }
  }

  /** The answer of a resolution from what it picked. */
  function Ranking(safe: string -> bool, v6: string -> bool, q: Quality.Quality, health: HealthTable, host: string,
                   epoch: nat, picked: seq<Address>): seq<Address> {
    Rank(ScoreAll(q, health, host, epoch, Clean(safe, v6, false, picked)))
  }

  lemma {:induction false} SafeFollows(safe: string -> bool, s: seq<Address>, t: seq<Address>)
    requires AllSafe(safe, s) && multiset(s) == multiset(t)
    ensures AllSafe(safe, t)
  {
    forall i | 0 <= i < |t| ensures safe(t[i].ip) {
      assert t[i] in multiset(s);
    }
  }

  /** The answer is a permutation of what was picked, all of it safe and in order: nothing is lost,
      nothing is made up. */
  lemma {:induction false} RankingMeans(safe: string -> bool, v6: string -> bool, q: Quality.Quality,
                                        health: HealthTable, host: string, epoch: nat, picked: seq<Address>)
    requires AllSafe(safe, picked)
    ensures var r := Ranking(safe, v6, q, health, host, epoch, picked);
            multiset(Ips(r)) == multiset(Ips(picked)) && AllSafe(safe, r) && Ordered(r) && (r == [] <==> picked == [])
  {
    var clean := Clean(safe, v6, false, picked);
    var scored := ScoreAll(q, health, host, epoch, clean);
    CleanKeeps(safe, v6, false, picked);
    assert |Ips(clean)| == |Ips(picked)|;
    RankOrdered(scored);
    RankIps(scored);
    IpsAgree(scored, clean);
    SafeFollows(safe, scored, Rank(scored));
  }

  /** What a resolution sees decides what it picks; picking from safe things is safe. */
  lemma {:induction false} PickSafe(safe: string -> bool, v: Seen)
    requires SeenSafe(safe, v)
    ensures AllSafe(safe, Pick(v).1) && (Pick(v).1 == [] <==> Pick(v).0.NoTier?)
  {}

  /** The cached entry while it is fresh; then what HTTPDNS found; then what the system found; then the backup
      addresses; the cached entry while it is merely stale comes last. Only what is cached counts as a hit. */
  ghost predicate InTurn(v: Seen, picked: seq<Address>, hit: bool) {
    var cached := if v.entry.Some? then v.entry.value.addresses else [];
    var http := if v.http.Asked? then v.http.addresses else [];
    var local := if v.local.Asked? then v.local.addresses else [];
    if cached != [] && v.readAt <= v.entry.value.expiresAtMs then picked == cached && hit
    else if http != [] then picked == http && !hit
    else if local != [] then picked == local && !hit
    else if v.backup != [] then picked == v.backup && !hit
    else if cached != [] && v.readAt <= v.entry.value.staleUntilMs then picked == cached && hit
    else picked == [] && !hit
  }

  lemma {:induction false} PicksInTurn(v: Seen, hit: bool)
    requires hit <==> Pick(v).0.FreshTier? || Pick(v).0.StaleTier?
    ensures InTurn(v, Pick(v).1, hit)
  {}

  // ---- experience --------------------------------------------------------

  datatype Outcome = Outcome(success: bool, rttMs: int)

  function Learn(h: Health, o: Outcome, now: int): Health {
    if o.success then Health(SmoothedRtt.Smooth(h.rttMs, o.rttMs), 0, h.successes + 1, now)
    else h.(failures := h.failures + 1, updatedAtMs := now)
  }

  ghost function After(outcomes: seq<Outcome>, now: int): Health {
    if outcomes == [] then UNTRIED.(updatedAtMs := now)
    else Learn(After(outcomes[..|outcomes| - 1], now), outcomes[|outcomes| - 1], now)
  }

  ghost function FailureRun(outcomes: seq<Outcome>): nat {
    if outcomes == [] || outcomes[|outcomes| - 1].success then 0 else FailureRun(outcomes[..|outcomes| - 1]) + 1
  }

  ghost function Rtts(outcomes: seq<Outcome>): seq<int> {
    if outcomes == [] then []
    else
      var last := outcomes[|outcomes| - 1];
      Rtts(outcomes[..|outcomes| - 1]) + (if last.success then [last.rttMs] else [])
  }

  /** An address's record: the failures since its last success, the number of its successes and the
      moving average over just those. */
  lemma {:induction false} RecordMeans(outcomes: seq<Outcome>, now: int)
    ensures var h := After(outcomes, now);
            h.failures == FailureRun(outcomes) && h.successes == |Rtts(outcomes)|
            && h.rttMs == SmoothedRtt.Fold(-1, Rtts(outcomes))
    decreases |outcomes|
  {
    if outcomes != [] {
      var init, last := outcomes[..|outcomes| - 1], outcomes[|outcomes| - 1];
      RecordMeans(init, now);
      if last.success { SmoothedRtt.FoldAppend(-1, Rtts(init), last.rttMs); }
      else { assert Rtts(outcomes) == Rtts(init); }
    }
  }

  function HealthBound(c: Config): nat { if c.maxHealth < 1 then 1 else c.maxHealth }

  /** The record dropped for a new key: the longest untouched, and only when the table is full. */
  predicate Dropped(t: HealthTable, max: nat, key: string, dropped: Option<string>) {
    if |t| >= max && key !in t && t != map[] then
      dropped.Some? && dropped.value in t && forall k :: k in t ==> t[dropped.value].updatedAtMs <= t[k].updatedAtMs
    else dropped == None
  }

  function Room<V>(t: map<string, V>, dropped: Option<string>): map<string, V> {
    if dropped.Some? then t - {dropped.value} else t
  }

  lemma {:induction false} RoomFits<V>(t: map<string, V>, max: nat, key: string, v: V, dropped: Option<string>)
    requires |t| <= max && max >= 1 && (|t| >= max && key !in t ==> dropped.Some?)
    requires dropped.Some? ==> dropped.value in t
    ensures |Room(t, dropped)[key := v]| <= max
  {
    var room := Room(t, dropped);
    if dropped.Some? { assert room.Keys == t.Keys - {dropped.value}; }
    assert room[key := v].Keys == room.Keys + {key};
    if key in room { assert room[key := v].Keys == room.Keys; }
    if dropped == None && key in t { assert |room[key := v].Keys| == |t.Keys|; }
    assert |room.Keys| == |room| && |t.Keys| == |t| && |room[key := v]| == |room[key := v].Keys|;
  }

  lemma {:induction false} DroppedFits(t: HealthTable, max: nat, key: string, h: Health, dropped: Option<string>)
    requires Dropped(t, max, key, dropped) && |t| <= (if max < 1 then 1 else max)
    ensures |Room(t, dropped)[key := h]| <= (if max < 1 then 1 else max)
    ensures HealthOf(Room(t, dropped), key) == HealthOf(t, key)
  {
    assert t != map[] <==> |t| > 0;
    RoomFits(t, if max < 1 then 1 else max, key, h, dropped);
  }

  lemma {:induction false} Fewer<V>(a: map<string, V>, b: map<string, V>)
    requires a.Keys <= b.Keys
    ensures |a| <= |b|
  {
    SubsetSize(a.Keys, b.Keys);
    assert |a| == |a.Keys| && |b| == |b.Keys|;
  }

  lemma {:induction false} SubsetSize(a: set<string>, b: set<string>)
    requires a <= b
    ensures |a| <= |b|
    decreases |a|
  {
    if x :| x in a { SubsetSize(a - {x}, b - {x}); }
  }

  // ---- the resolver ------------------------------------------------------

  class SmartResolver {
    const config: Config
    const numeric: string -> bool
    const safe: string -> bool
    const v6: string -> bool
    const clock: Clock
    const slots: Slots.Lookups
    var cache: map<string, Entry>
    var health: HealthTable
    var backups: map<string, seq<Address>>
    var quality: Quality.Quality
    var hasHttpDns: bool
    ghost var qualities: seq<Quality.Quality>   // every quality it has held

    /** What every operation keeps: bounded tables with only safe addresses in them, and ranked ones in
        the cache. */
    ghost predicate TablesOk() reads this {
      && config.maxCache >= 1 && |cache| <= config.maxCache
      && (forall k :: k in cache ==>
            cache[k].addresses != [] && AllSafe(safe, cache[k].addresses) && Ordered(cache[k].addresses))
      && (forall h :: h in backups ==> AllSafe(safe, backups[h]))
      && |health| <= HealthBound(config)
      && qualities != [] && qualities[|qualities| - 1] == quality
    }

    ghost predicate Valid() reads this, slots { TablesOk() && slots.maxActive == config.maxActive && slots.Valid() }

    constructor (config: Config, numeric: string -> bool, safe: string -> bool, v6: string -> bool, hasHttpDns: bool,
                 clock: Clock)
      requires config.maxCache >= 1
      ensures Valid() && cache == map[] && health == map[] && fresh(slots) && slots.state.active == 0
    {
      this.config, this.numeric, this.safe, this.v6, this.hasHttpDns, this.clock := config, numeric, safe, v6,
      hasHttpDns, clock;
      cache, health, backups, quality, qualities := map[], map[], map[], Quality.Unknown, [Quality.Unknown];
      slots := new Slots.Lookups(config.maxActive);
    }

    /** The loop over the cache that picks every entry with the host's prefix. */
    method KeysOf(host: string) returns (gone: set<string>)
      ensures gone == OfHost(cache, host)
    {
      var prefix, rest := host + ['\n'], cache.Keys;
      gone := {};
      while rest != {}
        invariant rest <= cache.Keys
        invariant forall k :: k in gone <==> k in cache.Keys - rest && HasPrefix(k, prefix)
        decreases |rest|
      {
        var k :| k in rest;
        rest := rest - {k};
        if HasPrefix(k, prefix) { gone := gone + {k}; }
      }
    }

    method ForgetHost(host: string)
      requires TablesOk()
      modifies this`cache
      ensures TablesOk() && cache == old(cache) - OfHost(old(cache), host)
    {
      var gone := KeysOf(host);
      Fewer(cache - gone, cache);
      cache := cache - gone;
    }

    /** invalidate: the entries of a host, or all of them. */
    method Invalidate(host: string)
      requires TablesOk()
      modifies this`cache
      ensures TablesOk() && cache == if host == [] then map[] else old(cache) - OfHost(old(cache), host)
    {
      if host == [] { cache := map[]; } else { ForgetHost(host); }
    }

    method OnNetworkChange()
      requires TablesOk()
      modifies this`health
      ensures TablesOk() && health == map[]
    {
      health := map[];
    }

    method OnQualityChange(q: Quality.Quality)
      requires TablesOk()
      modifies this`quality, this`qualities
      ensures TablesOk() && quality == q && qualities == old(qualities) + [q]
    {
      quality := q;
      qualities := qualities + [q];
    }

    method SetHttpDns(present: bool)
      requires TablesOk()
      modifies this`cache, this`hasHttpDns
      ensures TablesOk() && cache == map[] && hasHttpDns == present
    {
      cache, hasHttpDns := map[], present;
    }

    /** set_backup_ips: only the safe ones are kept, and the host's answers are forgotten. */
    method SetBackupIps(host: string, addresses: seq<Address>)
      requires TablesOk()
      modifies this`cache, this`backups
      ensures TablesOk()
      ensures cache == old(cache) - OfHost(old(cache), host)
      ensures backups ==
              if KeptBackups(addresses) == [] then old(backups) - {host}
              else old(backups)[host := KeptBackups(addresses)]
    {
      var kept := [];
      for i := 0 to |addresses|
        invariant kept == KeptBackups(addresses[..i]) && AllSafe(safe, kept)
      {
        assert addresses[..i + 1][..i] == addresses[..i];
        if numeric(addresses[i].ip) && safe(addresses[i].ip) {
          kept := kept + [addresses[i].(ipv6 := v6(addresses[i].ip), source := Backup)];
        }
      }
      assert addresses[..|addresses|] == addresses;
      backups := if kept == [] then backups - {host} else backups[host := kept];
      ForgetHost(host);
    }

    function KeptBackups(addresses: seq<Address>): seq<Address> {
      if addresses == [] then []
      else
        var last := addresses[|addresses| - 1];
        KeptBackups(addresses[..|addresses| - 1]) +
        (if numeric(last.ip) && safe(last.ip) then [last.(ipv6 := v6(last.ip), source := Backup)] else [])
    }

    /** The scan for the record longest untouched. */
    method FindOldest() returns (oldest: Option<string>)
      ensures oldest == None <==> health == map[]
      ensures oldest.Some? ==>
                oldest.value in health
                && forall k :: k in health ==> health[oldest.value].updatedAtMs <= health[k].updatedAtMs
    {
      oldest := None;
      var rest := health.Keys;
      while rest != {}
        invariant rest <= health.Keys && (oldest == None <==> rest == health.Keys)
        invariant oldest.Some? ==> oldest.value in health
        invariant forall k :: k in health.Keys - rest ==>
                  oldest.Some? && health[oldest.value].updatedAtMs <= health[k].updatedAtMs
        decreases |rest|
      {
        var k :| k in rest;
        rest := rest - {k};
        if oldest.None? || health[k].updatedAtMs < health[oldest.value].updatedAtMs { oldest := Some(k); }
      }
      assert oldest == None ==> health.Keys == {};
    }

    /** The table with room for a key. */
    method MakeRoom(key: string) returns (table: HealthTable, ghost dropped: Option<string>)
      requires TablesOk()
      ensures Dropped(health, config.maxHealth, key, dropped) && table == Room(health, dropped)
    {
      table, dropped := health, None;
      if |health| >= config.maxHealth && key !in health {
        var oldest := FindOldest();
        dropped := oldest;
        if oldest.Some? { table := table - {oldest.value}; }
      }
    }

    /** report_connection_result. */
    method ReportConnectionResult(host: string, ip: string, epoch: nat, success: bool, rttMs: int, now: int)
      returns (ghost dropped: Option<string>)
      requires TablesOk()
      modifies this`health
      ensures TablesOk()
      ensures host == [] || ip == [] ==> health == old(health)
      ensures host != [] && ip != [] ==>
                var key := HealthKey(host, ip, epoch);
                && Dropped(old(health), config.maxHealth, key, dropped)
                && health ==
                   Room(old(health), dropped)[key := Learn(HealthOf(old(health), key), Outcome(success, rttMs), now)]
    {
      dropped := None;
      if host == [] || ip == [] { return; }
      var key := HealthKey(host, ip, epoch);
      var table;
      table, dropped := MakeRoom(key);
      var h := if key in table then table[key] else UNTRIED;
      var learned := Record(h, success, rttMs, now);
      DroppedFits(health, config.maxHealth, key, learned, dropped);
      health := table[key := learned];
    }

    /** What a connection result does to an address's record. */
    method Record(before: Health, success: bool, rttMs: int, now: int) returns (h: Health)
      ensures h == Learn(before, Outcome(success, rttMs), now)
    {
      h := before.(updatedAtMs := now);
      if success {
        h := h.(successes := h.successes + 1, failures := 0);
        if rttMs >= 0 { h := h.(rttMs := if h.rttMs < 0 then rttMs else (h.rttMs * 7 + rttMs * 3) / 10); }
      } else {
        h := h.(failures := h.failures + 1);
      }
    }

    /** The cache store at the end of a resolution; the standard library decides which entry makes room. */
    method Store(key: string, addresses: seq<Address>, now: int) returns (ghost dropped: Option<string>)
      requires TablesOk() && addresses != [] && AllSafe(safe, addresses) && Ordered(addresses)
      modifies this`cache
      ensures TablesOk()
      ensures dropped.Some? <==> |old(cache)| >= config.maxCache && key !in old(cache)
      ensures dropped.Some? ==> dropped.value in old(cache)
      ensures cache == Room(old(cache),
                            dropped)[key := Entry(addresses, now + config.ttlMs,
                                                  now + config.ttlMs + config.staleTtlMs)]
    {
      dropped := None;
      var entry := Entry(addresses, now + config.ttlMs, now + config.ttlMs + config.staleTtlMs);
      var table := cache;
      if |cache| >= config.maxCache && key !in cache {
        assert cache.Keys != {} by { assert |cache.Keys| == |cache|; }
        var first :| first in cache;
        dropped := Some(first);
        table := cache - {first};
      }
      RoomFits(cache, config.maxCache, key, entry, dropped);
      cache := table[key := entry];
    }

    /** What other threads may do between two critical sections: any number of operations. */
    method Others(mine: Option<Slots.Job>)
      requires Valid() && (mine.Some? ==> mine.value < slots.nextJob)
      modifies this, slots
      ensures Valid() && old(qualities) <= qualities && slots.own == old(slots.own)
      ensures slots.nextJob >= old(slots.nextJob)
      ensures mine.Some? ==> Slots.MineStays(mine.value, old(slots.state), slots.state)
    {
      var n: nat := *;
      while n > 0
        invariant Valid() && old(qualities) <= qualities && slots.own == old(slots.own)
        invariant slots.nextJob >= old(slots.nextJob)
        invariant mine.Some? ==> Slots.MineStays(mine.value, old(slots.state), slots.state)
      {
        var op: nat := *;
        if op == 0 { slots.OthersMove(mine); } else { OthersTables(); }
        n := n - 1;
      }
    }

    /** One operation of another thread on the tables. */
    method OthersTables()
      requires TablesOk()
      modifies this`cache, this`health, this`backups, this`quality, this`qualities, this`hasHttpDns
      ensures TablesOk() && old(qualities) <= qualities
    {
      var op: nat := *;
      var host: string := *;
      var ip: string := *;
      var now: int := *;
      var q: Quality.Quality := *;
      var b: bool := *;
      var s: seq<Address> := *;
      if op == 0 { Invalidate(host); }
      else if op == 1 { OnNetworkChange(); }
      else if op == 2 { OnQualityChange(q); }
      else if op == 3 { SetHttpDns(b); }
      else if op == 4 { SetBackupIps(host, s); }
      else if op == 5 { ghost var dropped := ReportConnectionResult(host, ip, 0, b, now, now); }
      else {
        var clean := Clean(safe, v6, false, s);
        CleanKeeps(safe, v6, false, s);
        RankingMeans(safe, v6, q, health, host, 0, clean);
        var ranked := Ranking(safe, v6, q, health, host, 0, clean);
        if ranked != [] { ghost var dropped := Store(host, ranked, now); }
      }
    }

    /** The loop of resolve_local over what the system returned: unsafe and repeated ones are dropped. */
    method ResolveLocal(raw: seq<string>) returns (addresses: seq<Address>)
      ensures AllSafe(safe, addresses) && DistinctIps(addresses)
      ensures forall ip :: (exists i :: 0 <= i < |addresses| && addresses[i].ip == ip) <==> ip in raw && safe(ip)
      ensures forall i :: 0 <= i < |addresses| ==> addresses[i].source == LocalDns
    {
      addresses := [];
      var seen: set<string> := {};
      for i := 0 to |raw|
        invariant AllSafe(safe, addresses) && DistinctIps(addresses)
        invariant forall ip :: (exists j :: 0 <= j < |addresses| && addresses[j].ip == ip) <==> ip in seen
        invariant forall ip :: ip in seen <==> ip in raw[..i] && safe(ip)
        invariant forall j :: 0 <= j < |addresses| ==> addresses[j].source == LocalDns
      {
        assert raw[..i + 1] == raw[..i] + [raw[i]];
        if !safe(raw[i]) || raw[i] in seen { continue; }
        ghost var was := addresses;
        addresses := addresses + [Address(raw[i], -1, -1, 0, v6(raw[i]), LocalDns)];
        seen := seen + {raw[i]};
        assert addresses[|was|].ip == raw[i] && forall j :: 0 <= j < |was| ==> addresses[j] == was[j];
      }
      assert raw[..|raw|] == raw;
    }

    /** run_bounded_lookup: refused when all slots are taken; otherwise a slot is taken and handed to a
        thread, and whatever that answers in time is collected. */
    method RunBoundedLookup(local: bool, deadline: int) returns (answer: Lookup, ghost course: Course)
      requires Valid()
      modifies this, slots, clock
      ensures Valid() && Brings(course, answer) && slots.own == old(slots.own) + MovesOf(course) && !course.NoLookup?
      ensures course.NoSlot? <==> old(slots.state.active) >= config.maxActive
      ensures course.GivenUp? ==> clock.now >= deadline
      ensures local ==> AllSafe(safe, Found(answer)) && DistinctIps(Found(answer))
      ensures clock.now >= old(clock.now) && old(qualities) <= qualities
    {
      var job := slots.nextJob;
      if slots.state.active >= config.maxActive {
        slots.Move(Slots.Refuse(job));
        return Asked([], true), NoSlot(job);
      }
      slots.Move(Slots.Take(job));
      answer, course := Handed(local, deadline, job, old(slots.own));
    }

    /** With the slot taken: handed to a thread, which the system may refuse to start. */
    method Handed(local: bool, deadline: int, job: Slots.Job, ghost was: seq<Slots.Event>) returns (answer: Lookup,
                  ghost course: Course)
      requires Valid() && job in slots.state.taken && job < slots.nextJob && slots.own == was + [Slots.Take(job)]
      modifies this, slots, clock
      ensures Valid() && Brings(course, answer) && slots.own == was + MovesOf(course)
      ensures (course.NoThread? || course.GivenUp? || course.Collected?)
      ensures course.GivenUp? ==> clock.now >= deadline
      ensures local ==> AllSafe(safe, Found(answer)) && DistinctIps(Found(answer))
      ensures clock.now >= old(clock.now) && old(qualities) <= qualities
    {
      var threadStarted: bool := *;
      if threadStarted {
        answer, course := AwaitAnswer(local, deadline, job, was);
      } else {
        Others(Some(job));
        slots.Move(Slots.FailToStart(job));
        return Asked([], false), NoThread(job);
      }
    }

    /** The rest of it, once a thread is started. */
    method AwaitAnswer(local: bool, deadline: int, job: Slots.Job, ghost was: seq<Slots.Event>) returns (answer: Lookup,
                       ghost course: Course)
      requires Valid() && job in slots.state.taken && job < slots.nextJob && slots.own == was + [Slots.Take(job)]
      modifies this, slots, clock
      ensures Valid() && Brings(course, answer) && slots.own == was + MovesOf(course)
      ensures (course.GivenUp? || course.Collected?)
      ensures course.GivenUp? ==> clock.now >= deadline
      ensures local ==> AllSafe(safe, Found(answer)) && DistinctIps(Found(answer))
      ensures clock.now >= old(clock.now) && old(qualities) <= qualities
    {
      slots.Move(Slots.Start(job));
      var done := AwaitJob(deadline, job);
      var last := if done then Slots.Collect(job) else Slots.GiveUp(job);
      ThreeMoves(was, Slots.Take(job), Slots.Start(job), last);
      slots.Move(last);
      if !done { return Asked([], true), GivenUp(job); }
      var found := AnyFound(local);
      return Asked(found, false), Collected(job);
    }

    /** wait_until: over when the job has answered, or else at the deadline. */
    method AwaitJob(deadline: int, job: Slots.Job) returns (done: bool)
      requires Valid() && job in slots.state.waiting && job < slots.nextJob
      modifies this, slots, clock
      ensures Valid() && slots.own == old(slots.own) && job in slots.state.waiting
      ensures (done <==> job in slots.state.answered)
      ensures done || clock.now >= deadline
      ensures clock.now >= old(clock.now) && old(qualities) <= qualities
    {
      var now := clock.Read();
      Others(Some(job));
      if job !in slots.state.answered && now < deadline {
        clock.Wait(deadline - now);
        Others(Some(job));
      }
      done := job in slots.state.answered;
    }

    /** What a lookup that ended brings: any addresses, or what resolve_local makes of any. */
    method AnyFound(local: bool) returns (found: seq<Address>)
      ensures local ==> AllSafe(safe, found) && DistinctIps(found)
    {
      if local {
        var raw: seq<string> := *;
        found := ResolveLocal(raw);
      } else {
        found := *;
      }
    }

    /** The quality, read in a section of its own. */
    method ReadOffline() returns (offline: bool, ghost held: nat)
      requires TablesOk()
      ensures held == |qualities| - 1 && offline == qualities[held].Offline?
    {
      offline, held := quality.Offline?, |qualities| - 1;
    }

    /** The HTTPDNS lookup, only if nothing was found before it. */
    method AskHttpDns(v: Seen) returns (w: Seen, ghost held: nat, ghost course: Course)
      requires Valid() && SeenSafe(safe, v) && v.http == NotAsked
      modifies this, slots, clock
      ensures Valid() && SeenSafe(safe, w) && w == v.(offline := w.offline, httpAt := w.httpAt, http := w.http)
      ensures w.http.Asked? <==> Fresh(w) == [] && w.hasHttpDns && w.httpAt < w.deadline && !w.offline
      ensures old(|qualities|) - 1 <= held < |qualities| && w.offline == qualities[held].Offline?
      ensures old(qualities) <= qualities
      ensures Brings(course, w.http) && slots.own == old(slots.own) + MovesOf(course)
      ensures old(clock.now) <= w.httpAt <= clock.now
    {
      var offline;
      offline, held := ReadOffline();
      var now := clock.Read();
      w, course := v.(offline := offline, httpAt := now), NoLookup;
      if Fresh(w) == [] && w.hasHttpDns && w.httpAt < w.deadline && !w.offline {
        Others(None);
        var found;
        found, course := RunBoundedLookup(false, w.deadline);
        w := w.(http := Cleaned(found));
        CleanedSafe(found, course);
      }
    }

    /** What is kept of an HTTPDNS lookup. */
    function Cleaned(l: Lookup): Lookup {
      if l.Asked? then Asked(Clean(safe, v6, true, l.addresses), l.timedOut) else l
    }

    lemma {:induction false} CleanedSafe(l: Lookup, course: Course)
      requires Brings(course, l)
      ensures Brings(course, Cleaned(l)) && AllSafe(safe, Found(Cleaned(l)))
    {
      CleanKeeps(safe, v6, true, Found(l));
      assert Clean(safe, v6, true, []) == [];
    }

    /** And the local one, only if that brought nothing. */
    method AskLocal(v: Seen) returns (w: Seen, ghost course: Course)
      requires Valid() && SeenSafe(safe, v) && v.local == NotAsked
      modifies this, slots, clock
      ensures Valid() && SeenSafe(safe, w) && w == v.(localAt := w.localAt, local := w.local)
      ensures w.local.Asked? <==> Fresh(w) == [] && Found(w.http) == [] && w.localAt < w.deadline && !w.offline
      ensures Brings(course, w.local) && slots.own == old(slots.own) + MovesOf(course) && old(qualities) <= qualities
      ensures old(clock.now) <= w.localAt <= clock.now
    {
      var now := clock.Read();
      w, course := v.(localAt := now), NoLookup;
      if Fresh(w) == [] && Found(w.http) == [] && w.localAt < w.deadline && !w.offline {
        Others(None);
        var found;
        found, course := RunBoundedLookup(true, w.deadline);
        w := w.(local := found);
      }
    }

    /** Both of them. */
    method LookUpLive(v: Seen) returns (w: Seen, ghost told: Told)
      requires Valid() && SeenSafe(safe, v) && v.http == NotAsked && v.local == NotAsked
      modifies this, slots, clock
      ensures Valid() && SeenSafe(safe, w) && AskedRightly(w)
      ensures w == v.(offline := w.offline, httpAt := w.httpAt, http := w.http, localAt := w.localAt, local := w.local)
      ensures Did(old(slots.own), told, slots.own) && Witnessed(old(|qualities|), qualities, w, told)
      ensures old(qualities) <= qualities
      ensures old(clock.now) <= w.httpAt <= w.localAt <= clock.now
    {
      var u;
      ghost var held, http, local;
      u, held, http := AskHttpDns(v);
      w, local := AskLocal(u);
      told := Told(held, http, local);
    }

    /** The first critical section: the cache entry, the backups and whether there is an HTTPDNS. */
    method Look(host: string, epoch: nat, timeoutMs: int, started: nat) returns (v: Seen)
      requires Valid() && started <= clock.now
      modifies clock
      ensures Valid() && SeenSafe(safe, v) && v.http == NotAsked && v.local == NotAsked
      ensures old(clock.now) <= v.readAt <= clock.now && v.deadline == started + Effective(config, timeoutMs)
      ensures v.entry == if CacheKey(host, epoch) in cache then Some(cache[CacheKey(host, epoch)]) else None
      ensures v.entry.Some? ==> v.entry.value.addresses != []
      ensures v.backup == (if host in backups then backups[host] else []) && v.hasHttpDns == hasHttpDns
    {
      var key := CacheKey(host, epoch);
      var readAt := clock.Read();
      var effective := if timeoutMs > 0 then timeoutMs else config.defaultTimeoutMs;
      v := Seen(if key in cache then Some(cache[key]) else None, readAt, hasHttpDns,
                if host in backups then backups[host] else [], started + (if effective < 1 then 1 else effective),
                false, 0, NotAsked, 0, NotAsked);
    }

    /** Everything a resolution looks at, in the order it does. */
    method LookAround(host: string, epoch: nat, timeoutMs: int, started: nat) returns (v: Seen, ghost told: Told)
      requires Valid() && started <= clock.now
      modifies this, slots, clock
      ensures Valid() && SeenSafe(safe, v) && AskedRightly(v)
      ensures Did(old(slots.own), told, slots.own) && Witnessed(old(|qualities|), qualities, v, told)
      ensures v.entry == old(if CacheKey(host, epoch) in cache then Some(cache[CacheKey(host, epoch)]) else None)
      ensures v.backup == old(if host in backups then backups[host] else []) && v.hasHttpDns == old(hasHttpDns)
      ensures v.deadline == started + Effective(config, timeoutMs) && old(qualities) <= qualities
      ensures old(clock.now) <= v.readAt <= v.httpAt <= v.localAt <= clock.now
    {
      var seen := Look(host, epoch, timeoutMs, started);
      Others(None);
      v, told := LookUpLive(seen);
    }

    /** resolve_with_metadata for a host name: what is answered is the ranking of the first tier that had
        anything, and that is what the cache holds for the host and network when the call returns. */
    method ResolveName(host: string, epoch: nat, timeoutMs: int, started: nat)
      returns (r: Answer, ghost v: Seen, ghost told: Told, ghost storedAt: nat)
      requires Valid() && host != [] && !numeric(host) && started <= clock.now
      modifies this, slots, clock
      ensures Valid() && SeenSafe(safe, v) && Did(old(slots.own), told, slots.own)
      ensures Witnessed(old(|qualities|), qualities, v, told)
      ensures v.entry == old(if CacheKey(host, epoch) in cache then Some(cache[CacheKey(host, epoch)]) else None)
      ensures v.backup == old(if host in backups then backups[host] else []) && v.hasHttpDns == old(hasHttpDns)
      ensures v.deadline == started + Effective(config, timeoutMs)
      ensures old(clock.now) <= v.readAt <= v.httpAt <= v.localAt <= storedAt <= clock.now
      ensures Resolved(this, host, epoch, Visit(v, r, storedAt, quality, health))
      ensures multiset(Ips(r.addresses)) == multiset(Ips(Pick(v).1)) && AllSafe(safe, r.addresses)
      ensures Ordered(r.addresses) && InTurn(v, Pick(v).1, r.cacheHit)
      ensures r.error ==
              if !Pick(v).0.NoTier? then OK else if TimedOut(v.http) || TimedOut(v.local) then ERR_TIMEOUT else ERR_DNS
      ensures r.addresses != [] ==>
                CacheKey(host, epoch) in cache && cache[CacheKey(host, epoch)] == StoredBy(this, r, storedAt)
    {
      var w;
      w, told := LookAround(host, epoch, timeoutMs, started);
      ghost var had := qualities;
      Others(None);
      WitnessedLater(old(|qualities|), had, qualities, w, told);
      r, storedAt := Conclude(host, epoch, w);
      v := w;
      PicksInTurn(v, r.cacheHit);
    }

    /** The end of a resolution: the first tier that had anything is ranked, stored and answered. */
    method Conclude(host: string, epoch: nat, v: Seen) returns (r: Answer, storedAt: nat)
      requires TablesOk() && SeenSafe(safe, v) && AskedRightly(v)
      modifies this`cache, clock
      ensures TablesOk() && Resolved(this, host, epoch, Visit(v, r, storedAt, quality, health))
      ensures multiset(Ips(r.addresses)) == multiset(Ips(Pick(v).1)) && AllSafe(safe, r.addresses)
      ensures Ordered(r.addresses)
      ensures r.error ==
              if !Pick(v).0.NoTier? then OK else if TimedOut(v.http) || TimedOut(v.local) then ERR_TIMEOUT else ERR_DNS
      ensures old(clock.now) <= storedAt <= clock.now
      ensures r.addresses != [] ==>
                CacheKey(host, epoch) in cache && cache[CacheKey(host, epoch)] == StoredBy(this, r, storedAt)
    {
      var addresses;
      addresses, storedAt := RankAndStore(host, epoch, v);
      var tier := Pick(v).0;
      var error :=
        if addresses != [] then OK else if TimedOut(v.http) || TimedOut(v.local) then ERR_TIMEOUT else ERR_DNS;
      r := Answer(addresses, error, tier.FreshTier? || tier.StaleTier?);
    }

    /** The last critical section: what was picked is scored, ranked and stored. */
    method RankAndStore(host: string, epoch: nat, v: Seen) returns (addresses: seq<Address>, storedAt: nat)
      requires TablesOk() && SeenSafe(safe, v)
      modifies this`cache, clock
      ensures TablesOk() && addresses == Ranking(safe, v6, quality, health, host, epoch, Pick(v).1)
      ensures multiset(Ips(addresses)) == multiset(Ips(Pick(v).1)) && AllSafe(safe, addresses) && Ordered(addresses)
      ensures addresses == [] <==> Pick(v).0.NoTier?
      ensures old(clock.now) <= storedAt <= clock.now
      ensures addresses != [] ==>
                && CacheKey(host, epoch) in cache
                && cache[CacheKey(host, epoch)] ==
                   Entry(addresses, storedAt + config.ttlMs, storedAt + config.ttlMs + config.staleTtlMs)
    {
      PickSafe(safe, v);
      var picked := Pick(v).1;
      RankingMeans(safe, v6, quality, health, host, epoch, picked);
      addresses := Ranking(safe, v6, quality, health, host, epoch, picked);
      storedAt := clock.Read();
      if addresses != [] { ghost var dropped := Store(CacheKey(host, epoch), addresses, storedAt); }
    }

    /** resolve_with_metadata: an address given as text needs no lookup, but must be safe as well. */
    method Resolve(host: string, epoch: nat, timeoutMs: int) returns (r: Answer)
      requires Valid()
      modifies this, slots, clock
      ensures Valid() && AllSafe(safe, r.addresses)
      ensures host == [] ==> r == Answer([], ERR_INVALID_ARGUMENT, false)
      ensures host != [] ==> (r.error == OK <==> r.addresses != [])
      ensures host != [] && numeric(host) ==>
                && cache == old(cache) && health == old(health) && slots.own == old(slots.own)
                && r == if safe(host) then Answer([Address(host, -1, -1, 10000, v6(host), Literal)], OK, false)
                        else Answer([], ERR_DNS, false)
      ensures host != [] && !numeric(host) && r.error == OK ==>
                CacheKey(host, epoch) in cache && cache[CacheKey(host, epoch)].addresses == r.addresses
    {
      var started := clock.Read();
      if host == [] { return Answer([], ERR_INVALID_ARGUMENT, false); }
      if numeric(host) {
        if !safe(host) { return Answer([], ERR_DNS, false); }
        return Answer([Address(host, -1, -1, 10000, v6(host), Literal)], OK, false);
      }
      ghost var v, told, storedAt;
      r, v, told, storedAt := ResolveName(host, epoch, timeoutMs, started);
      PickSafe(safe, v);
    }
  }

  // ---- how old an answer can be ------------------------------------------

  /** A resolution: what it looked at, what it answered, and when and by what it ranked and stored that. */
  datatype Visit = Visit(v: Seen, answer: Answer, storedAt: nat, quality: Quality.Quality, health: HealthTable)

  /** What every resolution of a name does (ResolveName ensures it). */
  ghost predicate Resolved(r: SmartResolver, host: string, epoch: nat, visit: Visit) {
    && AskedRightly(visit.v) && SeenSafe(r.safe, visit.v)
    && visit.answer.addresses == Ranking(r.safe, r.v6, visit.quality, visit.health, host, epoch, Pick(visit.v).1)
    && (visit.answer.cacheHit <==> Pick(visit.v).0.FreshTier? || Pick(visit.v).0.StaleTier?)
  }

  /** The entry it leaves. */
  function StoredBy(r: SmartResolver, a: Answer, storedAt: nat): Entry {
    Entry(a.addresses, storedAt + r.config.ttlMs, storedAt + r.config.ttlMs + r.config.staleTtlMs)
  }

  /** Successful resolutions of one name, each of which found the entry that the one before it had stored. */
  ghost predicate Linked(r: SmartResolver, host: string, epoch: nat, visits: seq<Visit>) {
    && (forall i :: 0 <= i < |visits| ==> Succeeded(r, host, epoch, visits[i]))
    && (forall i :: 0 < i < |visits| ==> FoundIt(r, visits[i - 1], visits[i]))
  }

  ghost predicate Succeeded(r: SmartResolver, host: string, epoch: nat, visit: Visit) {
    Resolved(r, host, epoch, visit) && visit.answer.addresses != []
  }

  ghost predicate FoundIt(r: SmartResolver, before: Visit, visit: Visit) {
    visit.v.entry == Some(StoredBy(r, before.answer, before.storedAt))
  }

  ghost predicate ServedFresh(visit: Visit) { Pick(visit.v).0.FreshTier? }

  ghost predicate Soon(r: SmartResolver, before: Visit, visit: Visit) {
    visit.v.readAt <= before.storedAt + r.config.ttlMs
  }

  /** One resolution is served from the fresh cache exactly when it reads within the time to live of the
      last; then it looks nothing up and answers the same addresses. */
  lemma {:induction false} FreshStep(r: SmartResolver, host: string, epoch: nat, visits: seq<Visit>, i: nat)
    requires Linked(r, host, epoch, visits) && 0 < i < |visits|
    ensures ServedFresh(visits[i]) <==> Soon(r, visits[i - 1], visits[i])
    ensures ServedFresh(visits[i]) ==>
              && visits[i].v.http == NotAsked && visits[i].v.local == NotAsked && visits[i].answer.cacheHit
              && multiset(Ips(visits[i].answer.addresses)) == multiset(Ips(visits[i - 1].answer.addresses))
  {
    assert Succeeded(r, host, epoch, visits[i]) && Succeeded(r, host, epoch, visits[i - 1]);
    assert FoundIt(r, visits[i - 1], visits[i]);
    if ServedFresh(visits[i]) {
      PickSafe(r.safe, visits[i].v);
      RankingMeans(r.safe, r.v6, visits[i].quality, visits[i].health, host, epoch, Pick(visits[i].v).1);
    }
  }

  ghost predicate AllServedFresh(visits: seq<Visit>) { forall i :: 0 < i < |visits| ==> ServedFresh(visits[i]) }

  ghost predicate AllSoon(r: SmartResolver, visits: seq<Visit>) {
    forall i :: 0 < i < |visits| ==> Soon(r, visits[i - 1], visits[i])
  }

  /** Every hit renews the entry, so the time to live does not bound the age of an answer: all of a chain of
      resolutions are served from the fresh cache if and only if each reads within the time to live of the
      last one, however many there are. */
  lemma {:induction false} FreshExactly(r: SmartResolver, host: string, epoch: nat, visits: seq<Visit>)
    requires Linked(r, host, epoch, visits)
    ensures AllServedFresh(visits) <==> AllSoon(r, visits)
  {
    if AllServedFresh(visits) {
      forall i | 0 < i < |visits| ensures Soon(r, visits[i - 1], visits[i]) {
        FreshStep(r, host, epoch, visits, i);
      }
    }
    if AllSoon(r, visits) {
      forall i | 0 < i < |visits| ensures ServedFresh(visits[i]) {
        FreshStep(r, host, epoch, visits, i);
      }
    }
  }

  /** Then the last answers what the first did. */
  lemma {:induction false} FreshKeeps(r: SmartResolver, host: string, epoch: nat, visits: seq<Visit>, k: nat)
    requires Linked(r, host, epoch, visits) && k < |visits| && AllSoon(r, visits)
    ensures multiset(Ips(visits[k].answer.addresses)) == multiset(Ips(visits[0].answer.addresses))
    decreases k
  {
    if k > 0 {
      FreshKeeps(r, host, epoch, visits, k - 1);
      assert Soon(r, visits[k - 1], visits[k]);
      FreshStep(r, host, epoch, visits, k);
    }
  }

  /** A first resolution: nothing cached, and HTTPDNS knows one address. */
  function FirstVisit(r: SmartResolver, host: string, epoch: nat, a: Address, at: nat): Visit {
    var v := Seen(None, at, true, [], at + 1, false, at, Asked([a], false), at, NotAsked);
    Visit(v, Answer(Ranking(r.safe, r.v6, Quality.Good, map[], host, epoch, [a]), OK, false), at, Quality.Good, map[])
  }

  lemma {:induction false} FirstResolved(r: SmartResolver, host: string, epoch: nat, a: Address, at: nat)
    requires r.safe(a.ip)
    ensures var visit := FirstVisit(r, host, epoch, a, at);
            && Resolved(r, host, epoch, visit) && visit.answer.addresses != []
            && AllSafe(r.safe, visit.answer.addresses)
            && visit.storedAt == at
  {
    RankingMeans(r.safe, r.v6, Quality.Good, map[], host, epoch, [a]);
  }

  /** The next one, at the last moment of the entry the one before it stored. */
  function HitAfter(r: SmartResolver, host: string, epoch: nat, before: Visit): Visit
    requires r.config.ttlMs >= 0
  {
    var at := before.storedAt + r.config.ttlMs;
    var entry := StoredBy(r, before.answer, before.storedAt);
    var v := Seen(Some(entry), at, true, [], at + 1, false, at, NotAsked, at, NotAsked);
    Visit(v, Answer(Ranking(r.safe, r.v6, Quality.Good, map[], host, epoch, before.answer.addresses), OK, true), at,
          Quality.Good, map[])
  }

  lemma {:induction false} HitResolved(r: SmartResolver, host: string, epoch: nat, before: Visit)
    requires r.config.ttlMs >= 0 && before.answer.addresses != [] && AllSafe(r.safe, before.answer.addresses)
    ensures var visit := HitAfter(r, host, epoch, before);
            && Resolved(r, host, epoch, visit) && visit.answer.addresses != []
            && AllSafe(r.safe, visit.answer.addresses)
            && Soon(r, before, visit) && visit.v.readAt == visit.storedAt == before.storedAt + r.config.ttlMs
            && visit.v.entry == Some(StoredBy(r, before.answer, before.storedAt))
  {
    RankingMeans(r.safe, r.v6, Quality.Good, map[], host, epoch, before.answer.addresses);
  }

  lemma {:induction false} LinkedMore(r: SmartResolver, host: string, epoch: nat, visits: seq<Visit>, next: Visit)
    requires visits != [] && Linked(r, host, epoch, visits)
    requires Succeeded(r, host, epoch, next) && FoundIt(r, visits[|visits| - 1], next)
    ensures Linked(r, host, epoch, visits + [next])
  {
    var all := visits + [next];
    forall i | 0 <= i < |all| ensures Succeeded(r, host, epoch, all[i]) {
      if i < |visits| { assert all[i] == visits[i]; }
    }
    forall i | 0 < i < |all| ensures FoundIt(r, all[i - 1], all[i]) {
      assert all[i - 1] == visits[i - 1];
      if i < |visits| { assert all[i] == visits[i]; }
    }
  }

  lemma {:induction false} SoonMore(r: SmartResolver, visits: seq<Visit>, next: Visit)
    requires visits != [] && AllSoon(r, visits) && Soon(r, visits[|visits| - 1], next)
    ensures AllSoon(r, visits + [next])
  {
    var all := visits + [next];
    forall i | 0 < i < |all| ensures Soon(r, all[i - 1], all[i]) {
      assert all[i - 1] == visits[i - 1];
      if i < |visits| { assert all[i] == visits[i]; }
    }
  }

  /** However often: a chain of resolutions all served from the fresh cache whose last one reads this many times the
      time to live after the first one stored, and still answers what that did. */
  lemma {:induction false} AnswersAge(r: SmartResolver, host: string, epoch: nat, a: Address, at: nat,
                                      k: nat) returns (visits: seq<Visit>)
    requires r.safe(a.ip) && r.config.ttlMs >= 0
    ensures |visits| == k + 1 && visits[0] == FirstVisit(r, host, epoch, a, at) && visits[0].storedAt == at
    ensures Linked(r, host, epoch, visits) && AllSoon(r, visits) && AllSafe(r.safe, visits[k].answer.addresses)
    ensures k > 0 ==> visits[k].v.readAt == visits[k].storedAt
    ensures visits[k].storedAt == at + k * r.config.ttlMs
    decreases k
  {
    if k == 0 {
      FirstResolved(r, host, epoch, a, at);
      visits := [FirstVisit(r, host, epoch, a, at)];
    } else {
      visits := AnswersAge(r, host, epoch, a, at, k - 1);
      var next := HitAfter(r, host, epoch, visits[k - 1]);
      assert Succeeded(r, host, epoch, visits[k - 1]);
      HitResolved(r, host, epoch, visits[k - 1]);
      LinkedMore(r, host, epoch, visits, next);
      SoonMore(r, visits, next);
      visits := visits + [next];
      Once(k, r.config.ttlMs);
    }
  }

  lemma {:induction false} Once(k: nat, ttl: int)
    requires k > 0
    ensures (k - 1) * ttl + ttl == k * ttl
  {}
}
