/** The module-level registry of agentcore_entrypoint.py, with its session objects
    on the heap. Each method does to Value() what Sessions says. */
module SessionRegistry {
  import opened Wrappers
  import opened Sessions

  class SessionState {
    const owner: string
    var active: int
    var lastAccess: int
    var locked: bool

    constructor (owner: string, now: int)
      ensures Value() == Entry(owner, 0, now, false)
    {
      this.owner, active, lastAccess, locked := owner, 0, now, false;
    }

    function Value(): Entry
      reads this
    {
      Entry(owner, active, lastAccess, locked)
    }

    /** `lock.acquire(blocking=False)` */
    method TryLock() returns (ok: bool)
      modifies this`locked
      ensures ok == !old(locked) && Value() == old(Value()).(locked := true)
    {
      ok := !locked;
      locked := true;
    }

    /** `lock.release()` */
    method Unlock()
      modifies this`locked
      ensures Value() == old(Value()).(locked := false)
    {
      locked := false;
    }
  }

  function Position(made: seq<SessionState>, s: SessionState): (o: nat)
    requires s in made
    ensures o < |made| && made[o] == s
  {
    if made[0] == s then 0 else Position(made[1..], s) + 1
  }

  ghost function Values(made: seq<SessionState>): (r: seq<Entry>)
    reads made
    ensures |r| == |made|
    ensures forall i :: 0 <= i < |made| ==> r[i] == made[i].Value()
  {
    seq(|made|, i requires 0 <= i < |made| reads made => made[i].Value())
  }

  lemma {:induction false} PositionAppend(made: seq<SessionState>, last: SessionState, s: SessionState)
    requires last !in made && (s in made || s == last)
    ensures s in made + [last]
    ensures Position(made + [last], s) == if s == last then |made| else Position(made, s)
  {
    if made != [] && made[0] != s {
      assert made == [made[0]] + made[1..];
      assert (made + [last])[1..] == made[1..] + [last];
      PositionAppend(made[1..], last, s);
    }
  }

  function Positions(made: seq<SessionState>, states: map<string, SessionState>): map<string, nat>
    requires forall id <- states :: states[id] in made
  {
    map id | id in states :: Position(made, states[id])
  }

  lemma GrownPositions(made: seq<SessionState>, states: map<string, SessionState>, id: string, last: SessionState)
    requires last !in made && forall id <- states :: states[id] in made
    ensures var grown := states[id := last]; forall other <- grown :: grown[other] in made + [last]
    ensures Positions(made + [last], states[id := last]) == Positions(made, states)[id := |made|]
  {
    var grown := states[id := last];
    forall other <- grown
      ensures grown[other] in made + [last]
      ensures Position(made + [last], grown[other]) == if other == id then |made| else Position(made, states[other])
    {
      PositionAppend(made, last, grown[other]);
    }
    assert Positions(made + [last], grown) == Positions(made, states)[id := |made|];
  }

  class Registry {
    var states: map<string, SessionState>
    /** Every session object made so far; an object's identity is its position. */
    ghost var made: seq<SessionState>

    ghost predicate Valid()
      reads this
    {
      && (forall i, j :: 0 <= i < j < |made| ==> made[i] != made[j])
      && (forall id <- states :: states[id] in made)
    }

    ghost function Value(): (r: Sessions)
      reads this, made
      requires Valid()
      ensures InRange(r)
    {
      Sessions(Values(made), Positions(made, states))
    }

    constructor ()
      ensures Valid() && made == [] && Value() == Sessions([], map[])
    {
      states, made := map[], [];
    }

    lemma EntryIsState(id: string)
      requires Valid() && id in states
      ensures EntryOf(Value(), id) == states[id].Value()
    {
    }

    /** The registry without some ids is the value without them. */
    twostate lemma Dropped(ids: set<string>)
      requires old(Valid()) && Valid() && made == old(made) && states == old(states) - ids
      requires forall s <- made :: s.Value() == old(s.Value())
      ensures Value() == Without(old(Value()), ids)
    {
      assert Value().objects == old(Value()).objects;
      assert Value().registry == old(Value()).registry - ids;
    }

    /** _cleanup_sessions_locked() */
    method Cleanup(now: int)
      requires Valid()
      modifies this`states
      ensures Valid() && Value() == Cleaned(old(Value()), now)
      ensures forall id <- states :: id in old(states) && states[id] == old(states)[id]
    {
      var staleIds := set id | id in states && states[id].active == 0 && now - states[id].lastAccess >= IdleTtl;
      assert staleIds == StaleIds(Value(), now);
      states := states - staleIds;
      Dropped(staleIds);
    }

    /** The number of entries, and `inactive_by_age` before it is sorted: the idle
        entries with their last access. */
    method InactiveAges() returns (size: nat, ages: map<string, int>)
      requires Valid()
      ensures size == |Value().registry| && IdleAges(Value(), ages)
    {
      size := |states|;
      SameSize(Value().registry, states);
      ages := map id | id in states && states[id].active == 0 :: states[id].lastAccess;
      forall id <- states ensures EntryOf(Value(), id) == states[id].Value() {
        EntryIsState(id);
      }
    }

    /** Taking some entries off the map. */
    method DropAll(ids: set<string>)
      requires Valid()
      modifies this`states
      ensures Valid() && states == old(states) - ids && Value() == Without(old(Value()), ids)
    {
      states := states - ids;
      Dropped(ids);
    }

    /** The entries to delete. */
    method ToEvict() returns (evicted: set<string>)
      requires Valid()
      ensures Valid() && Value() == old(Value()) && MayEvict(Value(), evicted)
    {
      ghost var v := Value();
      var size, ages := InactiveAges();
      evicted := ChooseEvicted(size, ages, v);
    }

    /** _make_room_for_new_session_locked(): deletes idle entries, oldest first. */
    method MakeRoom() returns (evicted: set<string>)
      requires Valid()
      modifies this`states
      ensures Valid() && MayEvict(old(Value()), evicted) && Value() == Without(old(Value()), evicted)
      ensures states == old(states) - evicted
    {
      evicted := ToEvict();
      DropAll(evicted);
    }

    /** `_session_states[session_id] = _SessionState(...)` */
    method Insert(id: string, owner: string, now: int) returns (state: SessionState)
      requires Valid()
      modifies this
      ensures Valid() && Value() == Inserted(old(Value()), id, owner, now)
      ensures fresh(state) && made == old(made) + [state] && states == old(states)[id := state]
    {
      ghost var v := Value();
      state := new SessionState(owner, now);
      GrownPositions(made, states, id, state);
      made := made + [state];
      states := states[id := state];
      assert Value().objects == v.objects + [Entry(owner, 0, now, false)];
    }

    /** `state.active_invocations += 1` */
    method Enter(state: SessionState, now: int)
      requires Valid() && state in made
      modifies state`active, state`lastAccess
      ensures Valid() && Value() == Entered(old(Value()), Position(made, state), now)
    {
      state.active := state.active + 1;
      state.lastAccess := now;
    }

    /** The branch for a session id without an entry. */
    method Admit(id: string, owner: string, now: int) returns (state: SessionState, ghost evicted: set<string>)
      requires Valid() && id !in states
      modifies this, made
      ensures old(made) <= made
      ensures Valid() && id in states && states[id] == state
      ensures MayEvict(old(Value()), evicted)
      ensures Value() == AfterAdmit(old(Value()), id, owner, now, evicted)
    {
      evicted := MakeRoom();
      state := Insert(id, owner, now);
      Enter(state, now);
    }

    /** _acquire_session_state(); None is the Forbidden exception. The clean-up has
        happened even then. */
    method Acquire(id: string, owner: string, now: int) returns (r: Option<SessionState>, ghost evicted: set<string>)
      requires Valid()
      modifies this, made
      ensures old(made) <= made
      ensures Valid() && Value() == Acquired(old(Value()), id, owner, now, evicted)
      ensures MayStart(old(Value()), id, now, evicted)
      ensures r.None? <==> Foreign(Cleaned(old(Value()), now), id, owner)
      ensures r.Some? ==> id in states && r.value == states[id]
    {
      Cleanup(now);
      evicted := {};
      ghost var clean := Value();
      if id in states {
        EntryIsState(id);
        if states[id].owner != owner { return None, evicted; }
        Enter(states[id], now);
        r := Some(states[id]);
      } else {
        var state;
        state, evicted := Admit(id, owner, now);
        r := Some(state);
      }
    }

    /** _release_session_state() */
    method Release(state: SessionState, now: int)
      requires Valid() && state in made
      modifies state`active, state`lastAccess
      ensures Valid() && Value() == Released(old(Value()), Position(made, state), now)
    {
      state.active := if 0 > state.active - 1 then 0 else state.active - 1;
      state.lastAccess := now;
    }

    /** One poll of _acquire_invocation_lock(). */
    method Poll(state: SessionState) returns (ok: bool)
      requires Valid() && state in made
      modifies state`locked
      ensures Valid() && ok == !old(Value()).objects[Position(made, state)].locked
      ensures Value() == if ok then WithLock(old(Value()), Position(made, state), true) else old(Value())
    {
      ok := state.TryLock();
      assert ok ==> Value().objects == WithLock(old(Value()), Position(made, state), true).objects;
    }

    /** `state.invocation_lock.release()` */
    method GiveBack(state: SessionState)
      requires Valid() && state in made
      modifies state`locked
      ensures Valid() && Value() == WithLock(old(Value()), Position(made, state), false)
    {
      state.Unlock();
    }
  }

  /** The idle entries of a registry, with their last access. */
  predicate IdleAges(v: Sessions, ages: map<string, int>)
    requires InRange(v)
  {
    && (forall id <- ages :: Idle(v, id) && ages[id] == EntryOf(v, id).lastAccess)
    && (forall id <- v.registry :: Idle(v, id) ==> id in ages)
  }

  /** Oldest of the idle entries, and no more of them than needed. */
  predicate OldestIdle(size: nat, ages: map<string, int>, evicted: set<string>) {
    && evicted <= ages.Keys
    && (forall id <- evicted, other <- ages :: other !in evicted ==> ages[id] <= ages[other])
    && (if size < MaxCached then evicted == {} else size - |evicted| == MaxCached - 1 || ages.Keys <= evicted)
    && (evicted != {} ==> size - |evicted| >= MaxCached - 1)
  }

  method ChooseEvicted(size: nat, ages: map<string, int>, ghost v: Sessions) returns (evicted: set<string>)
    requires InRange(v) && IdleAges(v, ages) && size == |v.registry|
    ensures MayEvict(v, evicted)
  {
    evicted := EvictOldest(size, ages);
    OldestMayGo(v, ages, evicted);
  }

  lemma OldestMayGo(v: Sessions, ages: map<string, int>, evicted: set<string>)
    requires InRange(v) && IdleAges(v, ages) && OldestIdle(|v.registry|, ages, evicted)
    ensures MayEvict(v, evicted)
  {
  }

  function AfterAdmit(v: Sessions, id: string, owner: string, now: int, evicted: set<string>): Sessions
    requires InRange(v)
  {
    var bound := Inserted(Without(v, evicted), id, owner, now);
    Entered(bound, bound.registry[id], now)
  }

  lemma SameSize<A, B>(m: map<string, A>, n: map<string, B>)
    requires m.Keys == n.Keys
    ensures |m| == |n|
  {
    assert |m.Keys| == |m| && |n.Keys| == |n|;
  }

  /** The eviction loop: deletes the oldest idle entry until there is room. */
  method EvictOldest(size: nat, ages: map<string, int>) returns (evicted: set<string>)
    ensures OldestIdle(size, ages, evicted)
  {
    evicted := {};
    var left := ages.Keys;
    while size - |evicted| >= MaxCached && left != {}
      invariant left == ages.Keys - evicted && evicted <= ages.Keys
      invariant evicted != {} ==> size - |evicted| >= MaxCached - 1
      invariant forall id <- evicted, other <- left :: ages[id] <= ages[other]
      decreases |left|
    {
      var oldest := Oldest(left, ages);
      left := left - {oldest};
      evicted := evicted + {oldest};
    }
  }

  /** Some entry of `ids` that nobody in `ids` is older than. */
  method Oldest(ids: set<string>, ages: map<string, int>) returns (oldest: string)
    requires ids != {} && ids <= ages.Keys
    ensures oldest in ids
    ensures forall id <- ids :: ages[oldest] <= ages[id]
  {
    oldest :| oldest in ids;
    var rest := ids - {oldest};
    while rest != {}
      invariant oldest in ids && rest <= ids
      invariant forall id <- ids - rest :: ages[oldest] <= ages[id]
      decreases |rest|
    {
      var next :| next in rest;
      if ages[next] < ages[oldest] { oldest := next; }
      rest := rest - {next};
    }
  }
}
