/** The slots of the resolver's live lookups: a caller takes one, hands it to a thread, and the thread
    gives it back when the lookup ends, whether or not the caller still waits. */
module LookupSlots {
  import opened Text

  type Job = nat

  /** `taken`: slots taken whose thread is not started yet; `failed`: those whose thread could not be; `running`:
      started threads that have not given their slot back; `waiting`: callers still waiting for their job's
      answer. */
  datatype State = State(
    maxActive: nat, active: nat, taken: set<Job>, failed: set<Job>, running: set<Job>, answered: set<Job>,
    waiting: set<Job>)

  datatype Event =
    | Take(job: Job)
    | Refuse(job: Job)
    | Start(job: Job)
    | FailToStart(job: Job)
    | Answer(job: Job)
    | GiveBack(job: Job)
    | GiveUp(job: Job)
    | Collect(job: Job)

  predicate Known(s: State, job: Job) {
    job in s.taken || job in s.failed || job in s.running || job in s.waiting || job in s.answered
  }

  /** Every step any thread may take next. A lookup that throws answers with nothing like any other. */
  predicate Enabled(s: State, e: Event) {
    match e
    case Take(job) => s.active < s.maxActive && !Known(s, job)
    case Refuse(job) => s.active >= s.maxActive && !Known(s, job)
    case Start(job) => job in s.taken
    case FailToStart(job) => job in s.taken
    case Answer(job) => job in s.running && job !in s.answered
    case GiveBack(job) => job in s.running && job in s.answered
    case GiveUp(job) => job in s.waiting && job !in s.answered
    case Collect(job) => job in s.waiting && job in s.answered
  }

  function Decrement(n: nat): nat { if n > 0 then n - 1 else n }

  function Step(s: State, e: Event): State {
    match e
    case Take(job) => s.(active := s.active + 1, taken := s.taken + {job})
    case Refuse(job) => s
    case Start(job) => s.(taken := s.taken - {job}, running := s.running + {job}, waiting := s.waiting + {job})
    case FailToStart(job) => s.(active := Decrement(s.active), taken := s.taken - {job}, failed := s.failed + {job})
    case Answer(job) => s.(answered := s.answered + {job})
    case GiveBack(job) => s.(active := Decrement(s.active), running := s.running - {job})
    case GiveUp(job) => s.(waiting := s.waiting - {job})
    case Collect(job) => s.(waiting := s.waiting - {job})
  }

  function Initial(maxActive: nat): State { State(maxActive, 0, {}, {}, {}, {}, {}) }

  predicate Reachable(maxActive: nat, events: seq<Event>) {
    events == [] || (Reachable(maxActive, events[..|events| - 1])
                     && Enabled(Run(maxActive, events[..|events| - 1]), events[|events| - 1]))
  }

  function Run(maxActive: nat, events: seq<Event>): State {
    if events == [] then Initial(maxActive)
    else Step(Run(maxActive, events[..|events| - 1]), events[|events| - 1])
  }

  lemma {:induction false} RunOne(maxActive: nat, events: seq<Event>, e: Event)
    ensures Run(maxActive, events + [e]) == Step(Run(maxActive, events), e)
    ensures Reachable(maxActive, events) && Enabled(Run(maxActive, events), e) ==> Reachable(maxActive, events + [e])
  {
    assert (events + [e])[..|events|] == events;
  }

  /** The counter counts exactly the slots held, and they are never too many. */
  ghost predicate Inv(s: State) {
    && s.active == |s.taken| + |s.running| && s.active <= s.maxActive
    && s.taken !! s.running && s.taken !! s.answered && s.taken !! s.waiting
    && s.waiting <= s.running + s.answered
    && s.failed !! s.taken && s.failed !! s.running && s.failed !! s.answered
  }

  lemma {:induction false} StepKeeps(s: State, e: Event)
    requires Inv(s) && Enabled(s, e)
    ensures Inv(Step(s, e)) && Step(s, e).maxActive == s.maxActive
    // The guard around the decrement never saves anything: there is always a slot to give back.
    ensures e.FailToStart? || e.GiveBack? ==> Step(s, e).active == s.active - 1
  {
    if e.Start? || e.FailToStart? { assert |s.taken - {e.job}| == |s.taken| - 1; }
    if e.GiveBack? { assert |s.running - {e.job}| == |s.running| - 1; }
  }

  /** In every run the counter is the number of slots held and at most the maximum. */
  lemma {:induction false} Invariant(maxActive: nat, events: seq<Event>)
    requires Reachable(maxActive, events)
    ensures Inv(Run(maxActive, events)) && Run(maxActive, events).maxActive == maxActive
    decreases |events|
  {
    if events != [] {
      Invariant(maxActive, events[..|events| - 1]);
      StepKeeps(Run(maxActive, events[..|events| - 1]), events[|events| - 1]);
    }
  }

  /** A lookup is refused exactly when that many slots are held; a caller that gave up on its lookup does
      not free the slot. */
  lemma {:induction false} RefusedExactly(maxActive: nat, events: seq<Event>, job: Job)
    requires Reachable(maxActive, events) && !Known(Run(maxActive, events), job)
    ensures var s := Run(maxActive, events);
            && (Enabled(s, Refuse(job)) <==> |s.taken| + |s.running| == maxActive)
            && (Enabled(s, Take(job)) <==> |s.taken| + |s.running| < maxActive)
  {
    Invariant(maxActive, events);
  }

  /** No slot leaks: when every thread has ended, all of them are free again. */
  lemma {:induction false} NoSlotLeaks(maxActive: nat, events: seq<Event>)
    requires Reachable(maxActive, events) && Run(maxActive, events).taken == {} && Run(maxActive, events).running == {}
    ensures Run(maxActive, events).active == 0
  {
    Invariant(maxActive, events);
  }

  predicate Held(s: State, job: Job) { job in s.taken || job in s.running }

  /** The steps its thread has left before it gives the slot back, and how many of those an event is; a thread
      that cannot be started has none left. */
  function ToGo(s: State, job: Job): nat {
    if job in s.taken then 3 else if job in s.running then (if job in s.answered then 1 else 2) else 0
  }

  function Own(e: Event, job: Job): nat {
    if e.job != job then 0 else if e.Start? || e.Answer? || e.GiveBack? then 1 else if e.FailToStart? then 3 else 0
  }

  function OwnSteps(events: seq<Event>, job: Job): nat {
    if events == [] then 0 else OwnSteps(events[..|events| - 1], job) + Own(events[|events| - 1], job)
  }

  lemma {:induction false} ToGoStep(s: State, e: Event, job: Job)
    requires Inv(s) && Enabled(s, e) && Known(s, job)
    ensures Known(Step(s, e), job) && ToGo(Step(s, e), job) == ToGo(s, job) - Own(e, job)
  {}

  /** Every slot comes back, and only by its own thread: however the steps of all the others and of the caller
      fall in between, a held slot stays held while its thread has steps left, one of which it can then take, and
      is free for good once it took them all. */
  lemma {:induction false} SlotComesBack(maxActive: nat, before: seq<Event>, after: seq<Event>, job: Job)
    requires Reachable(maxActive, before) && Reachable(maxActive, before + after) && Known(Run(maxActive, before), job)
    ensures var s, s' := Run(maxActive, before), Run(maxActive, before + after);
            && Known(s', job) && OwnSteps(after, job) + ToGo(s', job) == ToGo(s, job)
            && (Held(s', job) <==> OwnSteps(after, job) < ToGo(s, job))
            && (Held(s', job) ==> Enabled(s', Start(job)) || Enabled(s', Answer(job)) || Enabled(s', GiveBack(job)))
    decreases |after|
  {
    if after == [] {
      assert before + after == before;
    } else {
      var all, init, last := before + after, after[..|after| - 1], after[|after| - 1];
      assert all[..|all| - 1] == before + init;
      SlotComesBack(maxActive, before, init, job);
      Invariant(maxActive, before + init);
      ToGoStep(Run(maxActive, before + init), last, job);
    }
  }

  /** Of a caller's job the others change neither whether its slot is taken nor whether the caller waits, and an
      answer stays. */
  predicate MineStays(job: Job, before: State, after: State) {
    && (job in after.taken <==> job in before.taken) && (job in after.waiting <==> job in before.waiting)
    && (job in before.answered ==> job in after.answered)
  }

  ghost predicate Below(s: State, bound: nat) { forall job: Job :: Known(s, job) ==> job < bound }

  lemma {:induction false} StepBelow(s: State, e: Event, bound: nat)
    requires Below(s, bound) && Enabled(s, e) && (e.Take? ==> e.job == bound)
    ensures Below(Step(s, e), if e.Take? then bound + 1 else bound)
  {
    forall job: Job | Known(Step(s, e), job) ensures job < if e.Take? then bound + 1 else bound {
      assert Known(s, job) || job == e.job;
      assert Known(s, e.job) || e.Take? || e.Refuse?;
    }
  }

  /** active_lookups and what the lookup threads and their callers are doing. */
  class Lookups {
    const maxActive: nat
    var state: State
    var nextJob: nat
    ghost var moves: seq<Event>   // everything ever done to the slots
    ghost var own: seq<Event>     // and what the one caller the model follows and its threads did

    ghost predicate Valid() reads this {
      Reachable(maxActive, moves) && state == Run(maxActive, moves) && state.maxActive == maxActive
      && Below(state, nextJob)
    }

    constructor (maxActive: nat)
      ensures Valid() && state.active == 0 && this.maxActive == maxActive
    {
      this.maxActive, state, nextJob, moves, own := maxActive, Initial(maxActive), 0, [], [];
    }

    /** One step of one thread. */
    method Move(e: Event)
      requires Valid() && Enabled(state, e) && (e.Take? ==> e.job == nextJob)
      modifies this
      ensures Valid() && state == Step(old(state), e) && moves == old(moves) + [e] && own == old(own) + [e]
      ensures nextJob == old(nextJob) + if e.Take? then 1 else 0
    {
      RunOne(maxActive, moves, e);
      StepBelow(state, e, nextJob);
      state := Step(state, e);
      moves, own := moves + [e], own + [e];
      if e.Take? { nextJob := nextJob + 1; }
    }

    /** What another thread may do; of the caller's own job it may only answer and give back. */
    method OthersMove(mine: Option<Job>)
      requires Valid() && (mine.Some? ==> mine.value < nextJob)
      modifies this
      ensures Valid() && nextJob >= old(nextJob) && own == old(own)
      ensures mine.Some? ==> MineStays(mine.value, old(state), state)
    {
      ghost var kept := own;
      var e: Event := *;
      if e.Take? { e := Take(nextJob); }
      if Enabled(state, e) && (mine != Some(e.job) || e.Answer? || e.GiveBack?) { Move(e); }
      own := kept;
    }
  }
}
