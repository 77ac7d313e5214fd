/** Client handles of the C interface: a registry of tokens, and per handle a reference count that
    keeps the client alive until the last call on it returns. Calls and destroys interleave freely. */
module HandleRegistry {

  type Token = nat
  type HandleId = nat
  type CallId = nat

  const UINTPTR_MAX: nat := 0xffff_ffff_ffff_ffff

  /** (id << 1) | 1: tokens are odd, so never null. */
  function TokenOf(id: nat): Token { id * 2 + 1 }

  /** A handle. `drops` counts how often the stored client was let go. */
  datatype Handle = Handle(client: bool, active: nat, destroying: bool, drops: nat)

  function Drop(h: Handle): Handle { h.(client := false, drops := if h.client then h.drops + 1 else h.drops) }

  /** acquire_client under the handle's mutex. */
  function Acquired(h: Handle): (Handle, bool) {
    if h.destroying || !h.client then (h, false) else (h.(active := h.active + 1), true)
  }

  /** release_client. */
  function Released(h: Handle): Handle {
    var less := if h.active > 0 then h.(active := h.active - 1) else h;
    if less.destroying && less.active == 0 then Drop(less) else less
  }

  /** The second half of asternet_client_destroy. */
  function Marked(h: Handle): Handle {
    var marked := h.(destroying := true);
    if marked.active == 0 then Drop(marked) else marked
  }

  /** The handle as the source has it; each method body runs under the handle's mutex. */
  class ClientHandle {
    var client: bool
    var activeRequests: nat
    var destroying: bool
    ghost var drops: nat

    ghost function Model(): Handle reads this { Handle(client, activeRequests, destroying, drops) }

    constructor ()
      ensures Model() == Handle(true, 0, false, 0)
    {
      client, activeRequests, destroying, drops := true, 0, false, 0;
    }

    method Reset()
      modifies this
      ensures Model() == Drop(old(Model()))
    {
      if client { drops := drops + 1; }
      client := false;
    }

    method Acquire() returns (ok: bool)
      modifies this
      ensures (Model(), ok) == Acquired(old(Model()))
    {
      if destroying || !client { return false; }
      activeRequests := activeRequests + 1;
      return true;
    }

    method Release()
      modifies this
      ensures Model() == Released(old(Model()))
    {
      if activeRequests > 0 { activeRequests := activeRequests - 1; }
      if destroying && activeRequests == 0 { Reset(); }
    }

    method Mark()
      modifies this
      ensures Model() == Marked(old(Model()))
    {
      destroying := true;
      if activeRequests == 0 { Reset(); }
    }
  }

  /** The registry as the source has it; each method body runs under the registry's mutex. */
  class Registry {
    var nextId: nat
    var handles: map<Token, ClientHandle>

    constructor ()
      ensures nextId == 1 && handles == map[]
    {
      nextId, handles := 1, map[];
    }

    /** Returns 0, the null token, when the counter would no longer fit a pointer. */
    method Insert(handle: ClientHandle) returns (token: Token)
      modifies this
      ensures old(nextId) > UINTPTR_MAX / 2 ==> token == 0 && nextId == old(nextId) && handles == old(handles)
      ensures old(nextId) <= UINTPTR_MAX / 2 ==>
                0 < token == TokenOf(old(nextId)) <= UINTPTR_MAX && nextId == old(nextId) + 1
                && handles == old(handles)[token := handle]
    {
      if nextId > UINTPTR_MAX / 2 { return 0; }
      token := TokenOf(nextId);
      nextId := nextId + 1;
      handles := handles[token := handle];
    }

    method Find(token: Token) returns (handle: ClientHandle?)
      ensures handle == if token in handles then handles[token] else null
    {
      handle := if token in handles then handles[token] else null;
    }

    method Take(token: Token) returns (handle: ClientHandle?)
      modifies this
      ensures handle == (if token in old(handles) then old(handles)[token] else null)
      ensures handles == old(handles) - {token} && nextId == old(nextId)
    {
      handle := if token in handles then handles[token] else null;
      if handle != null { handles := handles - {token}; }
    }
  }

  // ---- all calls on all handles -----------------------------------------

  datatype Pc =
    | Found(handle: HandleId)      // looked up, the handle's mutex not yet taken
    | Leased(handle: HandleId)
    | Refused
    | Done
    | Removed(handle: HandleId)    // a destroy that took the handle out of the registry

  datatype State = State(
    nextId: nat, registry: map<Token, HandleId>, issued: set<Token>, handles: seq<Handle>, pcs: map<CallId, Pc>)

  datatype Event =
    | Create
    | Lookup(c: CallId, token: Token)
    | Acquire(c: CallId)
    | Release(c: CallId)
    | Remove(c: CallId, token: Token)
    | Mark(c: CallId)

  predicate Enabled(s: State, e: Event) {
    match e
    case Create => true
    case Lookup(c, _) => c !in s.pcs
    case Acquire(c) => c in s.pcs && s.pcs[c].Found? && s.pcs[c].handle < |s.handles|
    case Release(c) => c in s.pcs && s.pcs[c].Leased? && s.pcs[c].handle < |s.handles|
    case Remove(c, _) => c !in s.pcs
    case Mark(c) => c in s.pcs && s.pcs[c].Removed? && s.pcs[c].handle < |s.handles|
  }

  function Step(s: State, e: Event): State
    requires Enabled(s, e)
  {
    match e
    case Create =>
      if s.nextId > UINTPTR_MAX / 2 then s else
      var token := TokenOf(s.nextId);
      s.(nextId := s.nextId + 1, registry := s.registry[token := |s.handles|], issued := s.issued + {token},
         handles := s.handles + [Handle(true, 0, false, 0)])
    case Lookup(c, token) =>
      s.(pcs := s.pcs[c := if token in s.registry then Found(s.registry[token]) else Refused])
    case Acquire(c) =>
      var h := s.pcs[c].handle;
      var (handle, ok) := Acquired(s.handles[h]);
      s.(handles := s.handles[h := handle], pcs := s.pcs[c := if ok then Leased(h) else Refused])
    case Release(c) =>
      var h := s.pcs[c].handle;
      s.(handles := s.handles[h := Released(s.handles[h])], pcs := s.pcs[c := Done])
    case Remove(c, token) =>
      if token in s.registry
      then s.(registry := s.registry - {token}, pcs := s.pcs[c := Removed(s.registry[token])])
      else s.(pcs := s.pcs[c := Done])
    case Mark(c) =>
      var h := s.pcs[c].handle;
      s.(handles := s.handles[h := Marked(s.handles[h])], pcs := s.pcs[c := Done])
  }

  const START := State(1, map[], {}, [], map[])

  ghost predicate Run(states: seq<State>, events: seq<Event>) {
    && |states| == |events| + 1 && states[0] == START
    && forall i :: 0 <= i < |events| ==> Enabled(states[i], events[i]) && states[i + 1] == Step(states[i], events[i])
  }

  // ---- counting leases ---------------------------------------------------

  ghost function Leases(pcs: map<CallId, Pc>, h: HandleId): set<CallId> {
    set c | c in pcs && pcs[c] == Leased(h)
  }

  lemma {:induction false} LeasesUpdate(pcs: map<CallId, Pc>, c: CallId, pc: Pc, h: HandleId)
    ensures |Leases(pcs[c := pc], h)| ==
            |Leases(pcs, h)| + (if pc == Leased(h) && c !in Leases(pcs, h) then 1 else 0)
                             - (if pc != Leased(h) && c in Leases(pcs, h) then 1 else 0)
  {
    var was, now := Leases(pcs, h), Leases(pcs[c := pc], h);
    if pc == Leased(h) { assert now == was + {c}; } else { assert now == was - {c}; }
  }

  // ---- the invariant -----------------------------------------------------

  ghost predicate HandleInv(s: State, h: HandleId)
    requires h < |s.handles|
  {
    var handle := s.handles[h];
    && handle.active == |Leases(s.pcs, h)|
    && (handle.client <==> !(handle.destroying && handle.active == 0))
    && handle.drops == (if handle.client then 0 else 1)
  }

  ghost predicate Inv(s: State) {
    && s.nextId >= 1 && s.nextId <= UINTPTR_MAX / 2 + 1
    && (forall h :: 0 <= h < |s.handles| ==> HandleInv(s, h))
    && (forall t :: t in s.issued ==> 0 < t < TokenOf(s.nextId) && t <= UINTPTR_MAX)
    && s.registry.Keys <= s.issued
    && (forall t :: t in s.registry ==> s.registry[t] < |s.handles| && !s.handles[s.registry[t]].destroying)
    && (forall t, u :: t in s.registry && u in s.registry && s.registry[t] == s.registry[u] ==> t == u)
    && (forall c :: c in s.pcs && (s.pcs[c].Found? || s.pcs[c].Leased? || s.pcs[c].Removed?) ==>
          s.pcs[c].handle < |s.handles|)
    // a handle taken out of the registry has one destroy to wait for, before it is marked
    && (forall c :: c in s.pcs && s.pcs[c].Removed? ==>
          !s.handles[s.pcs[c].handle].destroying && s.pcs[c].handle !in s.registry.Values)
    && (forall c, d :: c in s.pcs && d in s.pcs && s.pcs[c].Removed? && s.pcs[c] == s.pcs[d] ==> c == d)
  }

  lemma {:induction false} CallKeeps(s: State, e: Event)
    requires Inv(s) && Enabled(s, e) && (e.Lookup? || e.Remove?)
    ensures Inv(Step(s, e))
  {
    var s' := Step(s, e);
    forall h | 0 <= h < |s'.handles| ensures HandleInv(s', h) {
      assert HandleInv(s, h);
      LeasesUpdate(s.pcs, e.c, s'.pcs[e.c], h);
    }
  }

  lemma {:induction false} HandleKeeps(s: State, e: Event)
    requires Inv(s) && Enabled(s, e) && (e.Acquire? || e.Release? || e.Mark?)
    ensures Inv(Step(s, e))
  {
    var s' := Step(s, e);
    forall h | 0 <= h < |s'.handles| ensures HandleInv(s', h) {
      assert HandleInv(s, h);
      LeasesUpdate(s.pcs, e.c, s'.pcs[e.c], h);
    }
  }

  lemma {:induction false} CreateKeeps(s: State)
    requires Inv(s) && Enabled(s, Create)
    ensures Inv(Step(s, Create))
  {
    var s' := Step(s, Create);
    forall h | 0 <= h < |s'.handles| ensures HandleInv(s', h) {
      if h < |s.handles| { assert HandleInv(s, h); } else { assert Leases(s.pcs, h) == {}; }
    }
  }

  lemma {:induction false} StepKeeps(s: State, e: Event)
    requires Inv(s) && Enabled(s, e)
    ensures Inv(Step(s, e))
  {
    match e
    case Create => CreateKeeps(s);
    case Lookup(_, _) => CallKeeps(s, e);
    case Remove(_, _) => CallKeeps(s, e);
    case _ => HandleKeeps(s, e);
  }

  lemma {:induction false} Invariant(states: seq<State>, events: seq<Event>, i: nat)
    requires Run(states, events) && i < |states|
    ensures Inv(states[i])
    decreases i
  {
    if i > 0 {
      Invariant(states, events, i - 1);
      assert Enabled(states[i - 1], events[i - 1]);
      StepKeeps(states[i - 1], events[i - 1]);
      assert states[i - 1 + 1] == Step(states[i - 1], events[i - 1]);
    }
  }

  // ---- what it means for callers ----------------------------------------

  /** In every state of every run the count is the number of live leases; the client is gone exactly
      when the handle is marked and no lease is left, was let go at most once, and never under a lease. */
  lemma {:induction false} Lifecycle(states: seq<State>, events: seq<Event>, i: nat, h: HandleId)
    requires Run(states, events) && i < |states| && h < |states[i].handles|
    ensures var s := states[i]; var handle := s.handles[h];
            && handle.active == |Leases(s.pcs, h)|
            && (!handle.client <==> handle.destroying && Leases(s.pcs, h) == {})
            && handle.drops == (if handle.client then 0 else 1)
            && (forall c :: c in s.pcs && s.pcs[c] == Leased(h) ==> handle.client)
  {
    Invariant(states, events, i);
    assert HandleInv(states[i], h);
    forall c | c in states[i].pcs && states[i].pcs[c] == Leased(h) ensures states[i].handles[h].client {
      assert c in Leases(states[i].pcs, h);
    }
  }

  /** Once a handle is marked it stays marked, and every acquire that then takes its mutex is refused. */
  lemma {:induction false} MarkedForever(states: seq<State>, events: seq<Event>, i: nat, j: nat, h: HandleId)
    requires Run(states, events) && i <= j < |states| && h < |states[i].handles| && states[i].handles[h].destroying
    ensures h < |states[j].handles| && states[j].handles[h].destroying
    ensures forall c :: j < |events| && events[j] == Acquire(c) && states[j].pcs[c] == Found(h) ==>
              states[j + 1].pcs[c] == Refused
    decreases j - i
  {
    if i < j {
      MarkedForever(states, events, i, j - 1, h);
      assert Enabled(states[j - 1], events[j - 1]);
      assert states[j - 1 + 1] == Step(states[j - 1], events[j - 1]);
    }
    if j < |events| { assert Enabled(states[j], events[j]); }
  }

  /** This event was the end of a destroy of this handle. */
  predicate Destroys(states: seq<State>, events: seq<Event>, j: nat, h: HandleId)
    requires j < |events| <= |states|
  {
    events[j].Mark? && events[j].c in states[j].pcs && states[j].pcs[events[j].c] == Removed(h)
  }

  lemma {:induction false} HandlesGrow(states: seq<State>, events: seq<Event>, i: nat, j: nat)
    requires Run(states, events) && i <= j < |states|
    ensures |states[i].handles| <= |states[j].handles|
    decreases j
  {
    if i < j {
      HandlesGrow(states, events, i, j - 1);
      assert Enabled(states[j - 1], events[j - 1]) && states[j - 1 + 1] == Step(states[j - 1], events[j - 1]);
    }
  }

  lemma {:induction false} DestroysThere(states: seq<State>, events: seq<Event>, j: nat, i: nat, h: HandleId)
    requires Run(states, events) && j < |events| && j <= i < |states| && Destroys(states, events, j, h)
    ensures h < |states[i].handles|
  {
    Invariant(states, events, j);
    HandlesGrow(states, events, j, i);
  }

  /** A handle is marked exactly when a destroy of it has come to its end. */
  lemma {:induction false} MarkedExactly(states: seq<State>, events: seq<Event>, i: nat, h: HandleId)
    requires Run(states, events) && i < |states| && h < |states[i].handles|
    ensures states[i].handles[h].destroying <==> exists j :: 0 <= j < i && Destroys(states, events, j, h)
    decreases i
  {
    if i > 0 {
      var s, e := states[i - 1], events[i - 1];
      assert Enabled(s, e) && states[i - 1 + 1] == Step(s, e);
      if h < |s.handles| {
        MarkedExactly(states, events, i - 1, h);
        assert states[i].handles[h].destroying <==> s.handles[h].destroying || Destroys(states, events, i - 1, h);
      } else {
        forall j | 0 <= j < i ensures !Destroys(states, events, j, h) {
          if Destroys(states, events, j, h) { DestroysThere(states, events, j, i - 1, h); }
        }
      }
    }
  }

  /** A call that has found a handle gets its lease unless a destroy of that handle came to its end before: then, and
      only then, it is refused. */
  lemma {:induction false} AcquiresExactly(states: seq<State>, events: seq<Event>, i: nat, c: CallId, h: HandleId)
    requires Run(states, events) && i < |events| && events[i] == Acquire(c)
    requires c in states[i].pcs && states[i].pcs[c] == Found(h)
    ensures c in states[i + 1].pcs
    ensures states[i + 1].pcs[c] ==
            if exists j :: 0 <= j < i && Destroys(states, events, j, h) then Refused else Leased(h)
  {
    Invariant(states, events, i);
    assert Enabled(states[i], events[i]) && states[i + 1] == Step(states[i], events[i]);
    assert HandleInv(states[i], h);
    MarkedExactly(states, events, i, h);
  }

  /** The handle of a new token is found under it for as long as nobody destroys it. */
  lemma {:induction false} FoundUntilRemoved(states: seq<State>, events: seq<Event>, i: nat, j: nat)
    requires Run(states, events) && i < j < |states| && events[i] == Create && states[i + 1] != states[i]
    requires forall k, c :: i < k < j ==> events[k] != Remove(c, TokenOf(states[i].nextId))
    ensures var token := TokenOf(states[i].nextId);
            token in states[j].registry && states[j].registry[token] == |states[i].handles|
    decreases j
  {
    assert Enabled(states[j - 1], events[j - 1]) && states[j - 1 + 1] == Step(states[j - 1], events[j - 1]);
    if i + 1 < j {
      FoundUntilRemoved(states, events, i, j - 1);
      Invariant(states, events, j - 1);
      IdsGrow(states, events, i + 1, j - 1);
    }
  }

  lemma {:induction false} IdsGrow(states: seq<State>, events: seq<Event>, i: nat, j: nat)
    requires Run(states, events) && i <= j < |states|
    ensures states[i].nextId <= states[j].nextId
    decreases j
  {
    if i < j {
      IdsGrow(states, events, i, j - 1);
      assert Enabled(states[j - 1], events[j - 1]) && states[j - 1 + 1] == Step(states[j - 1], events[j - 1]);
    }
  }

  /** A token is never null and never issued twice. */
  lemma {:induction false} FreshToken(states: seq<State>, events: seq<Event>, i: nat)
    requires Run(states, events) && i < |events| && events[i] == Create && states[i + 1] != states[i]
    ensures var token := TokenOf(states[i].nextId);
            token != 0 && token <= UINTPTR_MAX && token !in states[i].issued && token in states[i + 1].registry
  {
    Invariant(states, events, i);
    assert Enabled(states[i], events[i]) && states[i + 1] == Step(states[i], events[i]);
  }

  /** Issued tokens stay issued, so a destroyed token never comes back. */
  lemma {:induction false} IssuedGrows(states: seq<State>, events: seq<Event>, i: nat, j: nat, token: Token)
    requires Run(states, events) && i <= j < |states| && token in states[i].issued && token !in states[i].registry
    ensures token in states[j].issued && token !in states[j].registry
    decreases j - i
  {
    if i < j {
      IssuedGrows(states, events, i, j - 1, token);
      Invariant(states, events, j - 1);
      assert Enabled(states[j - 1], events[j - 1]);
      assert states[j - 1 + 1] == Step(states[j - 1], events[j - 1]);
    }
  }

  /** Conservation: when the last call on a destroyed handle has returned, its client is gone. */
  lemma {:induction false} NothingLeaks(states: seq<State>, events: seq<Event>, i: nat, h: HandleId)
    requires Run(states, events) && i < |states| && h < |states[i].handles|
    requires h !in states[i].registry.Values
    requires forall c :: c in states[i].pcs ==> states[i].pcs[c] != Leased(h) && states[i].pcs[c] != Removed(h)
    ensures !states[i].handles[h].client && states[i].handles[h].drops == 1
  {
    OutIsMarked(states, events, i, h);
    Lifecycle(states, events, i, h);
    assert Leases(states[i].pcs, h) == {};
  }

  /** A handle outside the registry is marked, or a destroy is on its way to mark it. */
  lemma {:induction false} OutIsMarked(states: seq<State>, events: seq<Event>, i: nat, h: HandleId)
    requires Run(states, events) && i < |states| && h < |states[i].handles| && h !in states[i].registry.Values
    ensures states[i].handles[h].destroying || exists c :: c in states[i].pcs && states[i].pcs[c] == Removed(h)
    decreases i
  {
    if i > 0 {
      var s, e := states[i - 1], events[i - 1];
      Invariant(states, events, i - 1);
      assert Enabled(s, e) && states[i - 1 + 1] == Step(s, e);
      var s' := states[i];
      if e.Create? {
        if s' != s { assert TokenOf(s.nextId) in s'.registry && s'.registry[TokenOf(s.nextId)] == |s.handles|; }
        forall t | t in s.registry ensures s.registry[t] in s'.registry.Values {
          assert t in s'.registry && s'.registry[t] == s.registry[t];
        }
      }
      if h !in s.registry.Values {
        OutIsMarked(states, events, i - 1, h);
        if !s.handles[h].destroying {
          var c :| c in s.pcs && s.pcs[c] == Removed(h);
          if !(e.Mark? && e.c == c) { assert c in s'.pcs && s'.pcs[c] == Removed(h); }
        }
      } else {
        var t :| t in s.registry && s.registry[t] == h;
        assert e.Remove?;
        ValueIn(s'.registry, t);
        assert s'.pcs[e.c] == Removed(h);
      }
    }
  }

  lemma {:induction false} ValueIn<K, V>(m: map<K, V>, k: K)
    ensures k in m ==> m[k] in m.Values
  {}
}
