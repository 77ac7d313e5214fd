/** The client's shared state: the lifecycle lock, the network epoch with the last published quality,
    and the bounded metrics queue with its worker. Requests, network changes, delayed publications,
    the worker and the destructor interleave in any way the locks allow. */
module ClientLifecycle {

  type ThreadId = nat
  type Item = nat

  const MAX_QUEUED_METRICS := 256

  // ---- the metrics queue -------------------------------------------------

  datatype Fate = Taken | Dropped

  /** The queue, whether the worker was told to stop, and the history: all items ever enqueued, what
      became of those that left the queue, and what the worker took. */
  datatype Metrics = Metrics(queue: seq<Item>, stop: bool, enqueued: seq<Item>, fates: seq<Fate>, taken: seq<Item>)

  const NO_METRICS := Metrics([], false, [], [], [])

  function Enqueue(m: Metrics, item: Item): Metrics {
    if |m.queue| >= MAX_QUEUED_METRICS
    then m.(queue := m.queue[1..] + [item], enqueued := m.enqueued + [item], fates := m.fates + [Dropped])
    else m.(queue := m.queue + [item], enqueued := m.enqueued + [item])
  }

  function Take(m: Metrics): Metrics
    requires m.queue != []
  {
    m.(queue := m.queue[1..], fates := m.fates + [Fate.Taken], taken := m.taken + [m.queue[0]])
  }

  /** The items whose fate was to be taken, in order. */
  ghost function Selected(items: seq<Item>, fates: seq<Fate>): seq<Item>
    requires |items| == |fates|
  {
    if items == [] then []
    else Selected(items[..|items| - 1], fates[..|fates| - 1]) +
         (if fates[|fates| - 1] == Fate.Taken then [items[|items| - 1]] else [])
  }

  /** The queue is what was enqueued and has not left; the worker got, in order, what was not dropped. */
  ghost predicate MetricsInv(m: Metrics) {
    && |m.queue| <= MAX_QUEUED_METRICS
    && |m.fates| <= |m.enqueued| && m.queue == m.enqueued[|m.fates|..]
    && m.taken == Selected(m.enqueued[..|m.fates|], m.fates)
  }

  lemma {:induction false} EnqueueKeeps(m: Metrics, item: Item)
    requires MetricsInv(m)
    ensures MetricsInv(Enqueue(m, item))
  {
    var m' := Enqueue(m, item);
    if |m.queue| >= MAX_QUEUED_METRICS { FrontLeaves(m, Dropped); }
    assert m'.enqueued[..|m'.fates|] == m.enqueued[..|m'.fates|];
  }

  lemma {:induction false} TakeKeeps(m: Metrics)
    requires MetricsInv(m) && m.queue != []
    ensures MetricsInv(Take(m))
  {
    FrontLeaves(m, Fate.Taken);
  }

  lemma {:induction false} FrontLeaves(m: Metrics, fate: Fate)
    requires MetricsInv(m) && m.queue != []
    ensures var n := |m.fates|; n < |m.enqueued| && m.queue[1..] == m.enqueued[n + 1..]
    ensures Selected(m.enqueued[..|m.fates| + 1], m.fates + [fate]) ==
            m.taken + (if fate == Fate.Taken then [m.queue[0]] else [])
  {
    var n := |m.fates|;
    assert m.enqueued[..n + 1][..n] == m.enqueued[..n] && (m.fates + [fate])[..n] == m.fates;
  }

  ghost function Count(fates: seq<Fate>, fate: Fate): nat {
    if fates == [] then 0 else Count(fates[..|fates| - 1], fate) + (if fates[|fates| - 1] == fate then 1 else 0)
  }

  lemma {:induction false} CountsAddUp(items: seq<Item>, fates: seq<Fate>)
    requires |items| == |fates|
    ensures Count(fates, Fate.Taken) + Count(fates, Dropped) == |fates|
    ensures |Selected(items, fates)| == Count(fates, Fate.Taken)
    decreases |fates|
  {
    if fates != [] { CountsAddUp(items[..|items| - 1], fates[..|fates| - 1]); }
  }

  /** The queue under its own mutex; each method body is one critical section. */
  class MetricsQueue {
    var queue: seq<Item>
    var stop: bool
    ghost var enqueued: seq<Item>
    ghost var fates: seq<Fate>
    ghost var taken: seq<Item>

    ghost function Model(): Metrics reads this { Metrics(queue, stop, enqueued, fates, taken) }

    constructor ()
      ensures Model() == NO_METRICS
    {
      queue, stop, enqueued, fates, taken := [], false, [], [], [];
    }

    method Push(item: Item)
      modifies this
      ensures Model() == Enqueue(old(Model()), item)
    {
      if |queue| >= MAX_QUEUED_METRICS {
        queue := queue[1..];
        fates := fates + [Dropped];
      }
      queue := queue + [item];
      enqueued := enqueued + [item];
    }

    /** One round of the worker: nothing to do yet, the end of the loop, or an item. */
    method Next() returns (exit: bool, item: seq<Item>)
      modifies this
      ensures exit <==> old(queue) == [] && old(stop)
      ensures old(queue) == [] ==> item == [] && Model() == old(Model())
      ensures old(queue) != [] ==> item == [old(queue)[0]] && Model() == Take(old(Model()))
    {
      if queue == [] { return stop, []; }
      item := [queue[0]];
      queue, fates, taken := queue[1..], fates + [Fate.Taken], taken + item;
      exit := false;
    }

    method Stop()
      modifies this
      ensures Model() == old(Model()).(stop := true)
    {
      stop := true;
    }
  }

  // ---- the epoch and the last published quality -------------------------

  /** A quality snapshot, by the two fields that order snapshots. */
  datatype Snapshot = Snapshot(epoch: nat, lastSampleMs: int)

  predicate NotAfter(a: Snapshot, b: Snapshot) {
    a.epoch < b.epoch || (a.epoch == b.epoch && a.lastSampleMs <= b.lastSampleMs)
  }

  datatype Quality = Quality(epoch: nat, prober: Snapshot, last: Snapshot)

  /** on_network_change: the epoch moves, the prober starts over, and the new state is the last known. */
  function ChangeNetwork(q: Quality): Quality {
    var restart := Snapshot(q.epoch + 1, 0);
    Quality(q.epoch + 1, restart, restart)
  }

  /** The guard of publish_quality_change: snapshots that come late are dropped. */
  function Accept(q: Quality, s: Snapshot): Quality {
    if s.epoch < q.last.epoch then q
    else if s.epoch == q.last.epoch && s.lastSampleMs < q.last.lastSampleMs then q
    else q.(last := s)
  }

  /** The same state in the client's fields. */
  class ClientQuality {
    var networkEpoch: nat
    var prober: Snapshot
    var lastQualitySnapshot: Snapshot

    ghost function Model(): Quality reads this { Quality(networkEpoch, prober, lastQualitySnapshot) }

    constructor ()
      ensures Model() == Quality(0, Snapshot(0, 0), Snapshot(0, 0))
    {
      networkEpoch, prober, lastQualitySnapshot := 0, Snapshot(0, 0), Snapshot(0, 0);
    }

    method OnNetworkChange() returns (after: Snapshot)
      modifies this
      ensures Model() == ChangeNetwork(old(Model())) && after == prober
    {
      networkEpoch := networkEpoch + 1;
      prober := Snapshot(networkEpoch, 0);
      after := prober;
      lastQualitySnapshot := after;
    }

    method PublishQualityChange(snapshot: Snapshot) returns (published: bool)
      modifies this
      ensures Model() == Accept(old(Model()), snapshot)
      ensures published <==> NotAfter(old(lastQualitySnapshot), snapshot)
      ensures lastQualitySnapshot == if published then snapshot else old(lastQualitySnapshot)
    {
      if snapshot.epoch < lastQualitySnapshot.epoch { return false; }
      if snapshot.epoch == lastQualitySnapshot.epoch && snapshot.lastSampleMs < lastQualitySnapshot.lastSampleMs {
        return false;
      }
      lastQualitySnapshot := snapshot;
      return true;
    }
  }

  // ---- all threads -------------------------------------------------------

  /** The destructor: it holds the lock alone, sets both flags, lets go of the lock to join the worker. */
  datatype Destructor = NotStarted | Holding | Joining | Joined

  datatype State = State(
    quality: Quality, metrics: Metrics, destroyed: bool, destructor_: Destructor, workerExited: bool, clock: int,
    readers: map<ThreadId, nat>,          // requests inside the shared section, with the epoch they captured
    captured: map<ThreadId, Snapshot>)    // snapshots waiting to be published

  datatype Event =
    | Begin(t: ThreadId)
    | Observe(t: ThreadId, now: int)
    | Capture(t: ThreadId)
    | Report(t: ThreadId, item: Item)
    | End(t: ThreadId)
    | Publish(t: ThreadId)
    | NetworkChange(t: ThreadId)
    | Destroy
    | StopWorker
    | WorkerTake
    | WorkerExit
    | Join

  /** The lifecycle lock is free for a reader, or for a writer. */
  predicate CanRead(s: State) { s.destructor_ != Holding && s.destructor_ != Joined }

  predicate CanWrite(s: State) { CanRead(s) && s.readers == map[] }

  predicate Enabled(s: State, e: Event) {
    match e
    case Begin(t) => CanRead(s) && t !in s.readers && t !in s.captured
    case Observe(t, now) => t in s.readers && now >= s.clock
    case Capture(t) => t in s.readers
    case Report(t, _) => t in s.readers
    case End(t) => t in s.readers
    case Publish(t) => CanWrite(s) && t in s.captured
    case NetworkChange(t) => CanWrite(s) && t !in s.captured
    case Destroy => s.destructor_ == NotStarted && s.readers == map[]
    case StopWorker => s.destructor_ == Holding
    case WorkerTake => !s.workerExited && s.metrics.queue != []
    case WorkerExit => !s.workerExited && s.metrics.queue == [] && s.metrics.stop
    case Join => s.destructor_ == Joining && s.workerExited && s.readers == map[]
  }

  function Step(s: State, e: Event): State
    requires Enabled(s, e)
  {
    match e
    case Begin(t) => if s.destroyed then s else s.(readers := s.readers[t := s.quality.epoch])
    case Observe(t, now) => s.(clock := now, quality := s.quality.(prober := s.quality.prober.(lastSampleMs := now)))
    case Capture(t) => s.(captured := s.captured[t := s.quality.prober])
    case Report(t, item) => s.(metrics := Enqueue(s.metrics, item))
    case End(t) => s.(readers := s.readers - {t})
    case Publish(t) =>
      s.(quality := if s.destroyed then s.quality else Accept(s.quality, s.captured[t]), captured := s.captured - {t})
    case NetworkChange(t) =>
      if s.destroyed then s
      else var q := ChangeNetwork(s.quality); s.(quality := q, captured := s.captured[t := q.last])
    case Destroy => s.(destroyed := true, destructor_ := Holding)
    case StopWorker => s.(metrics := s.metrics.(stop := true), destructor_ := Joining)
    case WorkerTake => s.(metrics := Take(s.metrics))
    case WorkerExit => s.(workerExited := true)
    case Join => s.(destructor_ := Joined)
  }

  const START := State(Quality(0, Snapshot(0, 0), Snapshot(0, 0)), NO_METRICS, false, NotStarted, false, 0, map[],
                       map[])

  ghost predicate Run(states: seq<State>, events: seq<Event>) {
    && |states| == |events| + 1 && states[0] == START
    && forall i :: 0 <= i < |events| ==> Enabled(states[i], events[i]) && states[i + 1] == Step(states[i], events[i])
  }

  // ---- the invariant -----------------------------------------------------

  ghost predicate QualityInv(s: State) {
    var q := s.quality;
    && q.prober.epoch == q.epoch == q.last.epoch
    && NotAfter(q.last, q.prober) && 0 <= q.prober.lastSampleMs <= s.clock
    && (forall t :: t in s.readers ==> s.readers[t] == q.epoch)
    && (forall t :: t in s.captured ==> NotAfter(s.captured[t], q.prober))
  }

  ghost predicate Inv(s: State) {
    && QualityInv(s) && MetricsInv(s.metrics)
    && (s.destroyed <==> s.destructor_ != NotStarted)
    && (s.destroyed ==> s.readers == map[])
    && (s.metrics.stop <==> s.destructor_ == Joining || s.destructor_ == Joined)
    && (s.workerExited ==> s.metrics.stop && s.metrics.queue == [])
    && (s.destructor_ == Joined ==> s.workerExited)
  }

  lemma {:induction false} StepKeeps(s: State, e: Event)
    requires Inv(s) && Enabled(s, e)
    ensures Inv(Step(s, e)) && NotAfter(s.quality.last, Step(s, e).quality.last)
  {
    match e
    case Report(t, item) => EnqueueKeeps(s.metrics, item);
    case WorkerTake => TakeKeeps(s.metrics);
    case _ =>
  }

  lemma {:induction false} Invariant(states: seq<State>, events: seq<Event>, i: nat)
    requires Run(states, events) && i < |states|
    ensures Inv(states[i])
    decreases i
  {
    if i > 0 {
      Invariant(states, events, i - 1);
      assert Enabled(states[i - 1], events[i - 1]);
      StepKeeps(states[i - 1], events[i - 1]);
      assert states[i - 1 + 1] == Step(states[i - 1], events[i - 1]);
    }
  }

  /** As long as a request is in its transport, the epoch it captured is the client's and the prober's. */
  lemma {:induction false} EpochCoherence(states: seq<State>, events: seq<Event>, i: nat, t: ThreadId)
    requires Run(states, events) && i < |states| && t in states[i].readers
    ensures states[i].readers[t] == states[i].quality.epoch == states[i].quality.prober.epoch
    ensures !states[i].destroyed
  {
    Invariant(states, events, i);
  }

  /** Over every interleaving with delayed publications, the last published quality never goes back. */
  lemma {:induction false} LastQualityNeverBack(states: seq<State>, events: seq<Event>, i: nat, j: nat)
    requires Run(states, events) && i <= j < |states|
    ensures NotAfter(states[i].quality.last, states[j].quality.last)
    decreases j - i
  {
    if i < j {
      LastQualityNeverBack(states, events, i, j - 1);
      Invariant(states, events, j - 1);
      assert Enabled(states[j - 1], events[j - 1]);
      StepKeeps(states[j - 1], events[j - 1]);
      assert states[j - 1 + 1] == Step(states[j - 1], events[j - 1]);
    }
  }

  /** In every state: at most 256 queued, every item is taken, dropped or queued, and the worker got
      exactly the items not dropped, in the order they were enqueued. */
  lemma {:induction false} MetricsAccounted(states: seq<State>, events: seq<Event>, i: nat)
    requires Run(states, events) && i < |states|
    ensures var m := states[i].metrics;
            && |m.queue| <= MAX_QUEUED_METRICS
            && |m.enqueued| == |m.taken| + Count(m.fates, Dropped) + |m.queue|
            && |m.fates| <= |m.enqueued| && m.taken == Selected(m.enqueued[..|m.fates|], m.fates)
            && m.queue == m.enqueued[|m.fates|..]
  {
    Invariant(states, events, i);
    var m := states[i].metrics;
    CountsAddUp(m.enqueued[..|m.fates|], m.fates);
  }

  /** An item is dropped exactly when a new one finds 256 queued, and it is the one that has waited longest; whatever
      else happens drops nothing. */
  lemma {:induction false} DropsExactly(states: seq<State>, events: seq<Event>, i: nat)
    requires Run(states, events) && i < |events|
    ensures var m, m' := states[i].metrics, states[i + 1].metrics;
            && Count(m'.fates, Dropped) ==
               Count(m.fates, Dropped) + (if events[i].Report? && |m.queue| == 256 then 1 else 0)
            && (events[i].Report? ==>
                  m'.queue == (if |m.queue| == 256 then m.queue[1..] else m.queue) + [events[i].item]
                  && m'.enqueued == m.enqueued + [events[i].item] && m'.taken == m.taken)
  {
    Invariant(states, events, i);
    assert Enabled(states[i], events[i]) && states[i + 1] == Step(states[i], events[i]);
    var m, m' := states[i].metrics, states[i + 1].metrics;
    if m'.fates != m.fates { assert m'.fates[..|m.fates|] == m.fates; }
  }

  /** Publishing leaves the later of the last published quality and the one captured, the captured one if neither is. */
  lemma {:induction false} PublishesLatest(states: seq<State>, events: seq<Event>, i: nat, t: ThreadId)
    requires Run(states, events) && i < |events| && events[i] == Publish(t) && !states[i].destroyed
    ensures t in states[i].captured
    ensures var last, captured, after :=
                  states[i].quality.last, states[i].captured[t], states[i + 1].quality.last;
            && (after == last || after == captured) && NotAfter(last, after) && NotAfter(captured, after)
            && (NotAfter(last, captured) ==> after == captured)
  {
    assert Enabled(states[i], events[i]) && states[i + 1] == Step(states[i], events[i]);
  }

  /** How many of these network changes found the client alive. */
  ghost function Changes(states: seq<State>, events: seq<Event>, n: nat): nat
    requires n <= |events| <= |states|
  {
    if n == 0 then 0
    else Changes(states, events, n - 1) + (if events[n - 1].NetworkChange? && !states[n - 1].destroyed then 1 else 0)
  }

  /** The epoch is the number of network changes so far; each leaves a fresh state of the new epoch as the last
      published quality. */
  lemma {:induction false} EpochCounts(states: seq<State>, events: seq<Event>, i: nat)
    requires Run(states, events) && i < |states|
    ensures states[i].quality.epoch == Changes(states, events, i)
    ensures i > 0 && events[i - 1].NetworkChange? && !states[i - 1].destroyed ==>
              states[i].quality.last == states[i].quality.prober == Snapshot(Changes(states, events, i), 0)
    decreases i
  {
    if i > 0 {
      EpochCounts(states, events, i - 1);
      assert Enabled(states[i - 1], events[i - 1]) && states[i - 1 + 1] == Step(states[i - 1], events[i - 1]);
    }
  }

  lemma {:induction false} StoppedStep(s: State, e: Event)
    requires Inv(s) && Enabled(s, e) && s.metrics.stop
    ensures Step(s, e).metrics.stop && Step(s, e).metrics.enqueued == s.metrics.enqueued
  {}

  /** Nothing is enqueued once the worker was told to stop, so what it was told to finish is finite. */
  lemma {:induction false} NothingAfterStop(states: seq<State>, events: seq<Event>, i: nat, j: nat)
    requires Run(states, events) && i <= j < |states| && states[i].metrics.stop
    ensures states[j].metrics.stop && states[j].metrics.enqueued == states[i].metrics.enqueued
    decreases j - i
  {
    if i < j {
      NothingAfterStop(states, events, i, j - 1);
      Invariant(states, events, j - 1);
      assert Enabled(states[j - 1], events[j - 1]);
      StoppedStep(states[j - 1], events[j - 1]);
      assert states[j - 1 + 1] == Step(states[j - 1], events[j - 1]);
    }
  }

  /** When the destructor has joined the worker, every item ever enqueued was delivered or dropped. */
  lemma {:induction false} NoMetricLost(states: seq<State>, events: seq<Event>, i: nat)
    requires Run(states, events) && i < |states| && states[i].destructor_ == Joined
    ensures var m := states[i].metrics;
            && m.queue == [] && |m.fates| == |m.enqueued| && m.taken == Selected(m.enqueued, m.fates)
            && |m.enqueued| == |m.taken| + Count(m.fates, Dropped)
  {
    Invariant(states, events, i);
    MetricsAccounted(states, events, i);
    var m := states[i].metrics;
    assert m.enqueued[..|m.fates|] == m.enqueued;
  }
}
