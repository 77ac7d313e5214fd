/** Passive network quality: counters, a smoothed round-trip time, a score, and a state with hysteresis. */
module QualityProber {
  import SmoothedRtt

  datatype Network = UnknownNetwork | NoNetwork | Wifi | Cellular | Ethernet

  datatype Quality = Unknown | Good | Degraded | Bad | Offline

  /** -1 means not measured. */
  datatype Sample = Sample(rttMs: int, lossPermil: int, bandwidthKbps: int, net: Network)

  datatype Config = Config(weakScore: int, degradedScore: int, failuresBeforeBad: nat, goodSamplesToRecover: nat)

  datatype Snapshot = Snapshot(
    score: int, quality: Quality, network: Network, samples: nat, successSamples: nat, failureSamples: nat,
    consecutiveFailures: nat, totalFailures: nat, smoothedRttMs: int, lossPermil: int, bandwidthKbps: int,
    lastSuccessMs: int, lastFailureMs: int, lastQualityChangeMs: int, lastSampleMs: int, networkEpoch: nat)

  const EMPTY_SNAPSHOT := Snapshot(-1, Unknown, UnknownNetwork, 0, 0, 0, 0, 0, -1, -1, -1, 0, 0, 0, 0, 0)

  // ---- the score ---------------------------------------------------------

  function Min(a: int, b: int): int { if a < b then a else b }
  function Max(a: int, b: int): int { if a > b then a else b }

  function RttPenalty(rtt: int): nat {
    if rtt >= 2000 then 70 else if rtt >= 1000 then 50 else if rtt >= 500 then 35
    else if rtt >= 300 then 20 else if rtt >= 100 then 10 else 0
  }

  function LossPenalty(loss: int): nat { if loss < 0 then 0 else Min(30, loss / 2) }

  function BandwidthPenalty(kbps: int): nat {
    if kbps < 0 then 0 else if kbps < 100 then 20 else if kbps < 500 then 10 else 0
  }

  predicate Measured(s: Sample) { s.rttMs >= 0 || s.lossPermil >= 0 || s.bandwidthKbps >= 0 }

  function Score(s: Sample): int {
    if !Measured(s) then -1
    else Max(0, 100 - RttPenalty(s.rttMs) - LossPenalty(s.lossPermil) - BandwidthPenalty(s.bandwidthKbps))
  }

  method ComputeScore(s: Sample) returns (result: int)
    ensures result == Score(s)
    ensures -1 <= result <= 100 && (result == -1 <==> !Measured(s))
  {
    if s.rttMs < 0 && s.lossPermil < 0 && s.bandwidthKbps < 0 { return -1; }
    var score := 100;
    if s.rttMs >= 0 {
      if s.rttMs >= 2000 { score := score - 70; }
      else if s.rttMs >= 1000 { score := score - 50; }
      else if s.rttMs >= 500 { score := score - 35; }
      else if s.rttMs >= 300 { score := score - 20; }
      else if s.rttMs >= 100 { score := score - 10; }
    }
    if s.lossPermil >= 0 { score := score - Min(30, s.lossPermil / 2); }
    if s.bandwidthKbps >= 0 {
      if s.bandwidthKbps < 100 { score := score - 20; }
      else if s.bandwidthKbps < 500 { score := score - 10; }
    }
    return Max(0, Min(100, score));
  }

  /** A sample that is no better in anything another measured never scores higher than that one; what was not
      measured costs nothing. */
  lemma {:induction false} ScoreMonotone(a: Sample, b: Sample)
    requires Measured(a)
    requires a.rttMs < 0 || a.rttMs <= b.rttMs
    requires a.lossPermil < 0 || a.lossPermil <= b.lossPermil
    requires a.bandwidthKbps < 0 || a.bandwidthKbps >= b.bandwidthKbps >= 0
    ensures Score(a) >= Score(b)
  {
    if a.lossPermil >= 0 { assert a.lossPermil / 2 <= b.lossPermil / 2; }
  }

  // ---- one observation ---------------------------------------------------

  datatype State = State(snapshot: Snapshot, consecutiveGood: nat)

  function Loss(failures: nat, samples: nat): int {
    Min(1000, failures * 1000 / Max(1, samples))
  }

  function Failed(cfg: Config, s: State, now: int): State {
    var c := s.snapshot;
    var run := c.consecutiveFailures + 1;
    var quality :=
      if c.network == NoNetwork then Offline
      else if run >= cfg.failuresBeforeBad then Bad
      else if c.quality == Good then Degraded
      else c.quality;
    State(c.(failureSamples := c.failureSamples + 1, totalFailures := c.totalFailures + 1, consecutiveFailures := run,
             lastFailureMs := now, quality := quality, score := 0), 0)
  }

  /** What a success is scored by: its own values, replaced by the running ones where there are any. */
  function Aggregated(c: Snapshot, sample: Sample): Sample {
    Sample(if c.smoothedRttMs >= 0 then c.smoothedRttMs else sample.rttMs,
           if c.lossPermil >= 0 then c.lossPermil else sample.lossPermil,
           if c.bandwidthKbps >= 0 then c.bandwidthKbps else sample.bandwidthKbps, sample.net)
  }

  /** Network none, a score in the weak, degraded or good band, or no score yet. */
  function Judged(cfg: Config, s: State): State {
    var c := s.snapshot;
    if c.network == NoNetwork then State(c.(quality := Offline, score := 0), 0)
    else if c.score < 0 then s
    else if c.score < cfg.weakScore then State(c.(quality := Bad), 0)
    else if c.score < cfg.degradedScore then State(c.(quality := Degraded), 0)
    else
      var run := s.consecutiveGood + 1;
      var good := c.quality == Unknown || c.quality == Good || run >= cfg.goodSamplesToRecover;
      State(if good then c.(quality := Good) else c, run)
  }

  function Absorbed(c: Snapshot, sample: Sample, now: int): Snapshot {
    c.(successSamples := c.successSamples + 1, lastSuccessMs := now, consecutiveFailures := 0,
       smoothedRttMs := SmoothedRtt.Smooth(c.smoothedRttMs, sample.rttMs),
       bandwidthKbps := if sample.bandwidthKbps >= 0 then sample.bandwidthKbps else c.bandwidthKbps)
  }

  /** A success with its score: the running values move, and the score with them once it is known. */
  function Scored(s: State, sample: Sample, now: int): State {
    var c := Absorbed(s.snapshot, sample, now);
    var score := Score(Aggregated(c, sample));
    s.(snapshot := if score >= 0 then c.(score := score) else c)
  }

  function Counted(s: State, sample: Sample, now: int): State {
    s.(snapshot := s.snapshot.(samples := s.snapshot.samples + 1, lastSampleMs := now,
                               network := if sample.net != UnknownNetwork then sample.net else s.snapshot.network))
  }

  function Observe(cfg: Config, s: State, success: bool, sample: Sample, now: int): State {
    var counted := Counted(s, sample, now);
    var judged := if success then Judged(cfg, Scored(counted, sample, now)) else Failed(cfg, counted, now);
    var d := judged.snapshot.(lossPermil := Loss(judged.snapshot.totalFailures, judged.snapshot.samples));
    var changed := d.quality != s.snapshot.quality || d.network != s.snapshot.network;
    judged.(snapshot := if changed then d.(lastQualityChangeMs := now) else d)
  }

  function NetworkChanged(epoch: nat, net: Network, now: int): State {
    State(EMPTY_SNAPSHOT.(networkEpoch := epoch, network := net, lastQualityChangeMs := now,
                          quality := if net == NoNetwork then Offline else Unknown,
                          score := if net == NoNetwork then 0 else -1), 0)
  }

  /** The prober as the source has it; each method body runs under its mutex. The boolean result says
      whether the change callback is due. */
  class Prober {
    const config: Config
    var current: Snapshot
    var consecutiveGoodSamples: nat

    ghost function Model(): State reads this { State(current, consecutiveGoodSamples) }

    constructor (cfg: Config)
      ensures config == cfg && Model() == State(EMPTY_SNAPSHOT, 0)
    {
      config, current, consecutiveGoodSamples := cfg, EMPTY_SNAPSHOT, 0;
    }

    method UpdateLoss()
      modifies this
      ensures Model() == old(Model().(snapshot := current.(lossPermil := Loss(current.totalFailures, current.samples))))
    {
      current := current.(lossPermil := Min(1000, current.totalFailures * 1000 / Max(1, current.samples)));
    }

    /** The failure branch, after the sample was counted. */
    method ObserveFailure(now: int)
      modifies this
      ensures Model() == Failed(config, old(Model()), now)
    {
      var before := current.quality;
      current := current.(failureSamples := current.failureSamples + 1, totalFailures := current.totalFailures + 1,
                          consecutiveFailures := current.consecutiveFailures + 1, lastFailureMs := now);
      consecutiveGoodSamples := 0;
      if current.network == NoNetwork {
        current := current.(quality := Offline);
      } else if current.consecutiveFailures >= config.failuresBeforeBad {
        current := current.(quality := Bad);
      } else if before == Good {
        current := current.(quality := Degraded);
      }
      current := current.(score := 0);
    }

    /** The success branch up to the score. */
    method ObserveSuccess(sample: Sample, now: int)
      modifies this
      ensures Model() == Scored(old(Model()), sample, now)
    {
      Absorb(sample, now);
      var aggregated := sample;
      if current.smoothedRttMs >= 0 { aggregated := aggregated.(rttMs := current.smoothedRttMs); }
      if current.lossPermil >= 0 { aggregated := aggregated.(lossPermil := current.lossPermil); }
      if current.bandwidthKbps >= 0 { aggregated := aggregated.(bandwidthKbps := current.bandwidthKbps); }
      var score := ComputeScore(aggregated);
      if score >= 0 { current := current.(score := score); }
    }

    /** The running values of a success. */
    method Absorb(sample: Sample, now: int)
      modifies this
      ensures Model() == old(Model()).(snapshot := Absorbed(old(current), sample, now))
    {
      current := current.(successSamples := current.successSamples + 1, lastSuccessMs := now, consecutiveFailures := 0);
      if sample.rttMs >= 0 {
        current := current.(smoothedRttMs := if current.smoothedRttMs < 0 then sample.rttMs
                                             else (current.smoothedRttMs * 7 + sample.rttMs * 3) / 10);
      }
      if sample.bandwidthKbps >= 0 { current := current.(bandwidthKbps := sample.bandwidthKbps); }
    }

    /** The success branch after the score; `before` is the quality before the sample. */
    method Judge(before: Quality)
      requires before == current.quality
      modifies this
      ensures Model() == Judged(config, old(Model()))
    {
      if current.network == NoNetwork {
        current := current.(quality := Offline, score := 0);
        consecutiveGoodSamples := 0;
      } else if current.score >= 0 {
        if current.score < config.weakScore {
          current := current.(quality := Bad);
          consecutiveGoodSamples := 0;
        } else if current.score < config.degradedScore {
          current := current.(quality := Degraded);
          consecutiveGoodSamples := 0;
        } else {
          consecutiveGoodSamples := consecutiveGoodSamples + 1;
          if before == Unknown || before == Good || consecutiveGoodSamples >= config.goodSamplesToRecover {
            current := current.(quality := Good);
          }
        }
      }
    }

    method ObserveSample(success: bool, sample: Sample, now: int) returns (changed: bool)
      modifies this
      ensures Model() == Observe(config, old(Model()), success, sample, now)
      ensures changed <==> current.quality != old(current.quality) || current.network != old(current.network)
    {
      var before := current;
      current := current.(samples := current.samples + 1, lastSampleMs := now);
      if sample.net != UnknownNetwork { current := current.(network := sample.net); }
      assert Model() == Counted(old(Model()), sample, now);
      if !success {
        ObserveFailure(now);
      } else {
        ObserveSuccess(sample, now);
        Judge(before.quality);
      }
      UpdateLoss();
      changed := current.quality != before.quality || current.network != before.network;
      if changed { current := current.(lastQualityChangeMs := now); }
    }

    method OnNetworkChange(epoch: nat, net: Network, now: int)
      modifies this
      ensures Model() == NetworkChanged(epoch, net, now)
    {
      current := EMPTY_SNAPSHOT;
      current := current.(networkEpoch := epoch, network := net);
      consecutiveGoodSamples := 0;
      if net == NoNetwork { current := current.(quality := Offline, score := 0); }
      current := current.(lastQualityChangeMs := now);
    }

    method IsWeakNet() returns (weak: bool)
      ensures weak <==> current.quality in {Degraded, Bad, Offline}
    {
      weak := current.quality == Degraded || current.quality == Bad || current.quality == Offline;
    }
  }

  // ---- every history since the last network change ----------------------

  datatype Observation = Observation(success: bool, sample: Sample, now: int)

  /** The state after a network change and the observations since. */
  ghost function After(cfg: Config, start: State, obs: seq<Observation>): State {
    if obs == [] then start
    else
      var last := obs[|obs| - 1];
      Observe(cfg, After(cfg, start, obs[..|obs| - 1]), last.success, last.sample, last.now)
  }

  ghost predicate Start(s: State) { exists epoch, net, now :: s == NetworkChanged(epoch, net, now) }

  ghost function Failures(obs: seq<Observation>): nat {
    if obs == [] then 0 else Failures(obs[..|obs| - 1]) + (if obs[|obs| - 1].success then 0 else 1)
  }

  ghost function FailureRun(obs: seq<Observation>): nat {
    if obs == [] || obs[|obs| - 1].success then 0 else FailureRun(obs[..|obs| - 1]) + 1
  }

  ghost function SuccessRtts(obs: seq<Observation>): seq<int> {
    if obs == [] then []
    else SuccessRtts(obs[..|obs| - 1]) + (if obs[|obs| - 1].success then [obs[|obs| - 1].sample.rttMs] else [])
  }

  ghost function LastNetwork(start: Network, obs: seq<Observation>): Network {
    if obs == [] then start
    else if obs[|obs| - 1].sample.net != UnknownNetwork then obs[|obs| - 1].sample.net
    else LastNetwork(start, obs[..|obs| - 1])
  }

  lemma {:induction false} CounterStep(cfg: Config, s: State, ok: bool, sample: Sample, now: int)
    ensures var c, d := s.snapshot, Observe(cfg, s, ok, sample, now).snapshot;
            && d.samples == c.samples + 1 && d.networkEpoch == c.networkEpoch
            && d.successSamples == c.successSamples + (if ok then 1 else 0)
            && d.failureSamples == c.failureSamples + (if ok then 0 else 1)
            && d.totalFailures == c.totalFailures + (if ok then 0 else 1)
            && d.consecutiveFailures == (if ok then 0 else c.consecutiveFailures + 1)
            && d.network == (if sample.net != UnknownNetwork then sample.net else c.network)
            && d.lossPermil == Loss(d.totalFailures, d.samples)
            && d.smoothedRttMs == (if ok then SmoothedRtt.Smooth(c.smoothedRttMs, sample.rttMs) else c.smoothedRttMs)
  {}

  /** The counters mean what they say. */
  lemma {:induction false} Counters(cfg: Config, start: State, obs: seq<Observation>)
    requires Start(start)
    ensures var c := After(cfg, start, obs).snapshot;
            && c.samples == |obs| && c.totalFailures == c.failureSamples == Failures(obs)
            && c.samples == c.successSamples + c.failureSamples
            && c.consecutiveFailures == FailureRun(obs) <= Failures(obs) <= |obs|
            && c.network == LastNetwork(start.snapshot.network, obs)
            && c.networkEpoch == start.snapshot.networkEpoch
    decreases |obs|
  {
    if obs != [] {
      var init, o := obs[..|obs| - 1], obs[|obs| - 1];
      Counters(cfg, start, init);
      CounterStep(cfg, After(cfg, start, init), o.success, o.sample, o.now);
    }
  }

  /** The loss is the floor of the failure share in thousandths, and unknown before the first sample. */
  lemma {:induction false} LossIsShare(cfg: Config, start: State, obs: seq<Observation>)
    requires Start(start)
    ensures After(cfg, start, obs).snapshot.lossPermil == if obs == [] then -1 else 1000 * Failures(obs) / |obs|
  {
    Counters(cfg, start, obs);
    if obs != [] {
      ShareAtMost(Failures(obs), |obs|);
      var o := obs[|obs| - 1];
      CounterStep(cfg, After(cfg, start, obs[..|obs| - 1]), o.success, o.sample, o.now);
    }
  }

  lemma {:induction false} ShareAtMost(part: nat, whole: nat)
    requires part <= whole && whole > 0
    ensures 0 <= part * 1000 / whole <= 1000
  {
    var q := part * 1000 / whole;
    assert q * whole <= part * 1000 <= 1000 * whole;
    if q > 1000 { Wider(q, 1000, whole); }
  }

  lemma {:induction false} Wider(a: int, b: int, w: nat)
    requires a > b && w > 0
    ensures a * w > b * w
    decreases a - b
  {
    assert a * w == (a - 1) * w + w;
    if a > b + 1 { Wider(a - 1, b, w); }
  }

  /** The smoothed round-trip time is the moving average over the successes. */
  lemma {:induction false} SmoothedIsFold(cfg: Config, start: State, obs: seq<Observation>)
    requires Start(start)
    ensures After(cfg, start, obs).snapshot.smoothedRttMs == SmoothedRtt.Fold(-1, SuccessRtts(obs))
    decreases |obs|
  {
    if obs != [] {
      var init, o := obs[..|obs| - 1], obs[|obs| - 1];
      SmoothedIsFold(cfg, start, init);
      CounterStep(cfg, After(cfg, start, init), o.success, o.sample, o.now);
      if o.success { SmoothedRtt.FoldAppend(-1, SuccessRtts(init), o.sample.rttMs); }
      else { assert SuccessRtts(obs) == SuccessRtts(init); }
    }
  }

  lemma {:induction false} RangeStep(cfg: Config, s: State, ok: bool, sample: Sample, now: int)
    requires -1 <= s.snapshot.score <= 100
    ensures var d := Observe(cfg, s, ok, sample, now).snapshot;
            -1 <= d.score <= 100 && (d.network == NoNetwork ==> d.quality == Offline && d.score == 0)
  {}

  /** The score stays between -1 and 100; without a network the quality is Offline and the score 0. */
  lemma {:induction false} ScoreRange(cfg: Config, start: State, obs: seq<Observation>)
    requires Start(start)
    ensures var c := After(cfg, start, obs).snapshot;
            -1 <= c.score <= 100 && (c.network == NoNetwork ==> c.quality == Offline && c.score == 0)
    decreases |obs|
  {
    if obs != [] {
      var init, o := obs[..|obs| - 1], obs[|obs| - 1];
      ScoreRange(cfg, start, init);
      RangeStep(cfg, After(cfg, start, init), o.success, o.sample, o.now);
    }
  }

  /** On some network, with a score in the good band. */
  predicate InGoodBand(cfg: Config, c: Snapshot) {
    c.network != NoNetwork && c.score >= 0 && c.score >= cfg.weakScore && c.score >= cfg.degradedScore
  }

  /** A sample that counts towards recovery: a success that left the prober in the good band. */
  ghost predicate GoodSample(cfg: Config, start: State, obs: seq<Observation>)
    requires obs != []
  {
    obs[|obs| - 1].success && InGoodBand(cfg, After(cfg, start, obs).snapshot)
  }

  /** One observation counts a good sample or starts the count again, and decides recovery by the count.
      The score is unknown only until the first measured sample. */
  lemma {:induction false} GoodStep(cfg: Config, s: State, ok: bool, sample: Sample, now: int)
    requires s.snapshot.score < 0 ==> s.consecutiveGood == 0
    ensures var s' := Observe(cfg, s, ok, sample, now);
            && s'.consecutiveGood == (if ok && InGoodBand(cfg, s'.snapshot) then s.consecutiveGood + 1 else 0)
            && (s'.snapshot.score < 0 ==> s'.consecutiveGood == 0)
            && (s.snapshot.quality in {Degraded, Bad, Offline} ==>
                  (s'.snapshot.quality == Good <==>
                     s'.consecutiveGood >= 1 && s'.consecutiveGood >= cfg.goodSamplesToRecover))
  {}

  /** How many of the latest samples, without a gap, counted towards recovery. */
  ghost function GoodRun(cfg: Config, start: State, obs: seq<Observation>): nat {
    if obs == [] || !GoodSample(cfg, start, obs) then 0 else GoodRun(cfg, start, obs[..|obs| - 1]) + 1
  }

  lemma {:induction false} GoodRunIsCounter(cfg: Config, start: State, obs: seq<Observation>)
    requires Start(start)
    ensures var s := After(cfg, start, obs);
            s.consecutiveGood == GoodRun(cfg, start, obs) && (s.snapshot.score < 0 ==> s.consecutiveGood == 0)
    decreases |obs|
  {
    if obs != [] {
      var init, o := obs[..|obs| - 1], obs[|obs| - 1];
      GoodRunIsCounter(cfg, start, init);
      GoodStep(cfg, After(cfg, start, init), o.success, o.sample, o.now);
    }
  }

  /** From Degraded, Bad or Offline, quality becomes Good exactly with a sample that completes the
      required number of consecutive good samples. */
  lemma {:induction false} RecoversExactly(cfg: Config, start: State, obs: seq<Observation>)
    requires Start(start) && obs != []
    requires After(cfg, start, obs[..|obs| - 1]).snapshot.quality in {Degraded, Bad, Offline}
    ensures After(cfg, start, obs).snapshot.quality == Good <==>
            GoodRun(cfg, start, obs) >= 1 && GoodRun(cfg, start, obs) >= cfg.goodSamplesToRecover
  {
    GoodRunIsCounter(cfg, start, obs[..|obs| - 1]);
    GoodRunIsCounter(cfg, start, obs);
    var o := obs[|obs| - 1];
    GoodStep(cfg, After(cfg, start, obs[..|obs| - 1]), o.success, o.sample, o.now);
  }

  lemma {:induction false} TakeTake(obs: seq<Observation>, a: nat, b: nat)
    requires b <= a <= |obs|
    ensures obs[..a][..b] == obs[..b]
  {}

  /** A good run means that each of its samples was a success scoring in the good band. */
  lemma {:induction false} GoodRunMeans(cfg: Config, start: State, obs: seq<Observation>, k: nat)
    requires k < GoodRun(cfg, start, obs)
    ensures |obs| > k && GoodSample(cfg, start, obs[..|obs| - k])
    decreases k
  {
    if k == 0 {
      assert obs[..|obs|] == obs;
    } else {
      var init := obs[..|obs| - 1];
      GoodRunMeans(cfg, start, init, k - 1);
      TakeTake(obs, |obs| - 1, |obs| - k);
      assert init[..|init| - (k - 1)] == obs[..|obs| - k];
    }
  }

  /** Enough failures in a row on a live network are always Bad, whatever came before. */
  lemma {:induction false} FailuresAreBad(cfg: Config, start: State, obs: seq<Observation>)
    requires Start(start) && FailureRun(obs) >= 1 && FailureRun(obs) >= cfg.failuresBeforeBad
    requires LastNetwork(start.snapshot.network, obs) != NoNetwork
    ensures After(cfg, start, obs).snapshot.quality == Bad && After(cfg, start, obs).snapshot.score == 0
  {
    Counters(cfg, start, obs);
    Counters(cfg, start, obs[..|obs| - 1]);
  }

  lemma {:induction false} QualityStep(cfg: Config, s: State, ok: bool, sample: Sample, now: int)
    ensures var was, c := s.snapshot.quality, Observe(cfg, s, ok, sample, now).snapshot;
            c.quality ==
            if c.network == NoNetwork then Offline
            else if !ok then
              (if c.consecutiveFailures >= cfg.failuresBeforeBad then Bad else if was == Good then Degraded else was)
            else if c.score < 0 then was
            else if c.score < cfg.weakScore then Bad
            else if c.score < cfg.degradedScore then Degraded
            else if was == Unknown || was == Good
                    || Observe(cfg, s, ok, sample, now).consecutiveGood >= cfg.goodSamplesToRecover then Good
            else was
    ensures !ok ==> Observe(cfg, s, ok, sample, now).snapshot.score == 0
  {}

  /** The quality after every history, from the last observation. Without a network it is Offline. After a failure it
      is Bad once the failures in a row are enough, and before that a good link is degraded and any other stays what it
      was. After a success it is Bad below the weak score, Degraded from there to below the degraded score, and from
      there on Good, unless it has to recover first and too few good samples have come; a success without a score
      changes nothing. */
  lemma {:induction false} QualityExactly(cfg: Config, start: State, obs: seq<Observation>)
    requires Start(start) && obs != []
    ensures var was, c := After(cfg, start, obs[..|obs| - 1]).snapshot.quality, After(cfg, start, obs).snapshot;
            c.quality ==
            if LastNetwork(start.snapshot.network, obs) == NoNetwork then Offline
            else if !obs[|obs| - 1].success then
              (if FailureRun(obs) >= cfg.failuresBeforeBad then Bad else if was == Good then Degraded else was)
            else if c.score < 0 then was
            else if c.score < cfg.weakScore then Bad
            else if c.score < cfg.degradedScore then Degraded
            else if was == Unknown || was == Good || GoodRun(cfg, start, obs) >= cfg.goodSamplesToRecover then Good
            else was
    ensures !obs[|obs| - 1].success ==> After(cfg, start, obs).snapshot.score == 0
  {
    var o := obs[|obs| - 1];
    Counters(cfg, start, obs);
    GoodRunIsCounter(cfg, start, obs);
    QualityStep(cfg, After(cfg, start, obs[..|obs| - 1]), o.success, o.sample, o.now);
  }

  /** The bandwidth last measured with a success. */
  ghost function LastBandwidth(obs: seq<Observation>): int {
    if obs == [] then -1
    else if obs[|obs| - 1].success && obs[|obs| - 1].sample.bandwidthKbps >= 0 then obs[|obs| - 1].sample.bandwidthKbps
    else LastBandwidth(obs[..|obs| - 1])
  }

  lemma {:induction false} BandwidthIsLast(cfg: Config, start: State, obs: seq<Observation>)
    requires Start(start)
    ensures After(cfg, start, obs).snapshot.bandwidthKbps == LastBandwidth(obs)
    decreases |obs|
  {
    if obs != [] {
      var init, o := obs[..|obs| - 1], obs[|obs| - 1];
      BandwidthIsLast(cfg, start, init);
      BandwidthStep(cfg, After(cfg, start, init), o.success, o.sample, o.now);
    }
  }

  lemma {:induction false} BandwidthStep(cfg: Config, s: State, ok: bool, sample: Sample, now: int)
    ensures Observe(cfg, s, ok, sample, now).snapshot.bandwidthKbps ==
            if ok && sample.bandwidthKbps >= 0 then sample.bandwidthKbps else s.snapshot.bandwidthKbps
  {}

  lemma {:induction false} ScoreStep(cfg: Config, s: State, sample: Sample, now: int)
    ensures var c, d := s.snapshot, Observe(cfg, s, true, sample, now).snapshot;
            var score := Score(Sample(if d.smoothedRttMs >= 0 then d.smoothedRttMs else sample.rttMs,
                                      if c.lossPermil >= 0 then c.lossPermil else sample.lossPermil,
                                      if d.bandwidthKbps >= 0 then d.bandwidthKbps else sample.bandwidthKbps,
                                      sample.net));
            d.network != NoNetwork ==> d.score == if score >= 0 then score else c.score
  {}

  /** The score after a success on some network: from the moving average of the times, the share of failures among the
      samples before this one, and the last bandwidth, each replaced by the sample's own value where there is none. */
  lemma {:induction false} ScoreIsOf(cfg: Config, start: State, obs: seq<Observation>)
    requires Start(start) && obs != [] && obs[|obs| - 1].success
    requires LastNetwork(start.snapshot.network, obs) != NoNetwork
    ensures var init, sample := obs[..|obs| - 1], obs[|obs| - 1].sample;
            var rtt, bandwidth := SmoothedRtt.Fold(-1, SuccessRtts(obs)), LastBandwidth(obs);
            var score := Score(Sample(if rtt >= 0 then rtt else sample.rttMs,
                                      if init == [] then sample.lossPermil else 1000 * Failures(init) / |init|,
                                      if bandwidth >= 0 then bandwidth else sample.bandwidthKbps, sample.net));
            After(cfg, start, obs).snapshot.score ==
            if score >= 0 then score else After(cfg, start, init).snapshot.score
  {
    var init, o := obs[..|obs| - 1], obs[|obs| - 1];
    Counters(cfg, start, obs);
    LossIsShare(cfg, start, init);
    SmoothedIsFold(cfg, start, obs);
    BandwidthIsLast(cfg, start, obs);
    ScoreStep(cfg, After(cfg, start, init), o.sample, o.now);
    ShareIsKnown(init);
  }

  lemma {:induction false} ShareIsKnown(obs: seq<Observation>)
    ensures obs != [] ==> 1000 * Failures(obs) / |obs| >= 0
  {}
}
