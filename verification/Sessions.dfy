/** The session registry as a value: every session object ever made, the map from
    session ids to the live ones, and what acquiring and releasing make of it. */
module Sessions {
  import opened Wrappers

  const IdleTtl: int := 3600
  const MaxCached: int := 256

  datatype Entry = Entry(owner: string, active: int, lastAccess: int, locked: bool)

  /** An object's identity is its position in `objects`; dropping an entry from
      `registry` leaves the object to whoever still holds it. */
  datatype Sessions = Sessions(objects: seq<Entry>, registry: map<string, nat>)

  predicate InRange(s: Sessions) {
    forall id <- s.registry :: s.registry[id] < |s.objects|
  }

  /** The entry registered under `id`. */
  function EntryOf(s: Sessions, id: string): Entry
    requires InRange(s) && id in s.registry
  {
    s.objects[s.registry[id]]
  }

  predicate Idle(s: Sessions, id: string)
    requires InRange(s)
  {
    id in s.registry && EntryOf(s, id).active == 0
  }

  predicate Stale(s: Sessions, id: string, now: int)
    requires InRange(s)
  {
    Idle(s, id) && now - EntryOf(s, id).lastAccess >= IdleTtl
  }

  function Without(s: Sessions, ids: set<string>): Sessions {
    s.(registry := s.registry - ids)
  }

  function StaleIds(s: Sessions, now: int): set<string>
    requires InRange(s)
  {
    set id | id in s.registry && Stale(s, id, now)
  }

  /** _cleanup_sessions_locked() */
  function Cleaned(s: Sessions, now: int): (r: Sessions)
    requires InRange(s)
    ensures InRange(r)
  {
    Without(s, StaleIds(s, now))
  }

  /** What _make_room_for_new_session_locked() may delete: idle entries, oldest
      first, until there is room or no idle entry is left; ties are open. */
  predicate MayEvict(s: Sessions, evicted: set<string>)
    requires InRange(s)
  {
    && (forall id <- evicted :: Idle(s, id))
    && (forall id <- evicted, other <- s.registry ::
          Idle(s, other) && other !in evicted ==> EntryOf(s, id).lastAccess <= EntryOf(s, other).lastAccess)
    && (if |s.registry| < MaxCached then evicted == {}
        else |s.registry| - |evicted| == MaxCached - 1 || forall id <- s.registry :: Idle(s, id) ==> id in evicted)
    && (evicted != {} ==> |s.registry| - |evicted| >= MaxCached - 1)
  }

  /** What may be evicted when a call starts: nothing where its entry is found. */
  predicate MayStart(s: Sessions, id: string, now: int, evicted: set<string>)
    requires InRange(s)
  {
    if id in Cleaned(s, now).registry then evicted == {} else MayEvict(Cleaned(s, now), evicted)
  }

  /** A session id the caller may not use: it is registered to somebody else. */
  predicate Foreign(s: Sessions, id: string, owner: string)
    requires InRange(s)
  {
    id in s.registry && EntryOf(s, id).owner != owner
  }

  function Entered(s: Sessions, o: nat, now: int): Sessions
    requires o < |s.objects|
  {
    s.(objects := s.objects[o := s.objects[o].(active := s.objects[o].active + 1, lastAccess := now)])
  }

  function Inserted(s: Sessions, id: string, owner: string, now: int): (r: Sessions)
    requires InRange(s)
    ensures InRange(r) && id in r.registry
  {
    Sessions(s.objects + [Entry(owner, 0, now, false)], s.registry[id := |s.objects|])
  }

  /** The entry found for `id`, or one made for it after making room. */
  function Bound(s: Sessions, id: string, owner: string, now: int, evicted: set<string>): (r: Sessions)
    requires InRange(s)
    ensures InRange(r) && id in r.registry
  {
    if id in s.registry then s else Inserted(Without(s, evicted), id, owner, now)
  }

  /** _acquire_session_state(): clean up, then bind, or refuse another user's session. */
  function Acquired(s: Sessions, id: string, owner: string, now: int, evicted: set<string>): (r: Sessions)
    requires InRange(s)
    ensures InRange(r)
  {
    var clean := Cleaned(s, now);
    if Foreign(clean, id, owner) then clean
    else
      var bound := Bound(clean, id, owner, now, evicted);
      Entered(bound, bound.registry[id], now)
  }

  /** _release_session_state() */
  function Released(s: Sessions, o: nat, now: int): Sessions
    requires o < |s.objects|
  {
    var entry := s.objects[o];
    s.(objects := s.objects[o := entry.(
      active := if entry.active - 1 > 0 then entry.active - 1 else 0, lastAccess := now)])
  }

  function WithLock(s: Sessions, o: nat, locked: bool): Sessions
    requires o < |s.objects|
  {
    s.(objects := s.objects[o := s.objects[o].(locked := locked)])
  }

  /** A session that is released stays cached while it is in use or its idle
      lifetime, counted from the release, has not passed; no shorter and no longer. */
  lemma IdleLifetime(s: Sessions, id: string, now: int, later: int)
    requires InRange(s) && id in s.registry
    ensures
      var after := Released(s, s.registry[id], now);
      && InRange(after) && id in after.registry
      && (id in Cleaned(after, later).registry <==> EntryOf(after, id).active != 0 || later - now < 3600)
  {
    var after := Released(s, s.registry[id], now);
    assert id in StaleIds(after, later) <==> Stale(after, id, later);
  }

  /** An acquisition counts the caller on the entry found, or on a new one of its own, and
      notes the time; a release takes it off and notes the time. No other object changes. */
  lemma AcquireWrites(s: Sessions, id: string, owner: string, now: int, evicted: set<string>)
    requires InRange(s) && MayStart(s, id, now, evicted) && !Foreign(Cleaned(s, now), id, owner)
    ensures
      var after := Acquired(s, id, owner, now, evicted);
      && InRange(after) && id in after.registry
      && (if id in Cleaned(s, now).registry
          then after.registry[id] == s.registry[id]
               && EntryOf(after, id) == Entry(owner, EntryOf(s, id).active + 1, now, EntryOf(s, id).locked)
          else after.registry[id] == |s.objects| && EntryOf(after, id) == Entry(owner, 1, now, false))
      && (forall o :: 0 <= o < |s.objects| && o != after.registry[id] ==> after.objects[o] == s.objects[o])
  {
  }

  lemma ReleaseWrites(s: Sessions, o: nat, now: int)
    requires o < |s.objects|
    ensures
      var was, after := s.objects[o], Released(s, o, now);
      && after.registry == s.registry && |after.objects| == |s.objects|
      && after.objects[o] == Entry(was.owner, if was.active <= 0 then 0 else was.active - 1, now, was.locked)
      && forall p :: 0 <= p < |s.objects| && p != o ==> after.objects[p] == s.objects[p]
  {
  }

  // ---- size ---------------------------------------------------------------

  predicate Busy(s: Sessions, id: string)
    requires InRange(s)
  {
    id in s.registry && EntryOf(s, id).active > 0
  }

  /** No object is counted below zero, and no two ids share one. */
  predicate Proper(s: Sessions) {
    && InRange(s)
    && (forall o <- s.objects :: o.active >= 0)
    && (forall id <- s.registry, other <- s.registry :: id != other ==> s.registry[id] != s.registry[other])
  }

  lemma RemovedSize(m: map<string, nat>, ids: set<string>)
    requires ids <= m.Keys
    ensures |m - ids| == |m| - |ids|
  {
    assert (m - ids).Keys == m.Keys - ids;
    assert |m.Keys - ids| == |m.Keys| - |ids|;
    assert |(m - ids).Keys| == |m - ids|;
  }

  /** After every insertion the registry holds at most the maximum, or every entry is busy. */
  lemma RoomAfterInsertion(s: Sessions, id: string, owner: string, now: int, evicted: set<string>)
    requires Proper(s) && id !in Cleaned(s, now).registry && MayEvict(Cleaned(s, now), evicted)
    ensures
      var after := Acquired(s, id, owner, now, evicted);
      |after.registry| <= 256 || forall other <- after.registry :: Busy(after, other)
  {
    var clean := Cleaned(s, now);
    var after := Acquired(s, id, owner, now, evicted);
    assert evicted <= clean.registry.Keys;
    RemovedSize(clean.registry, evicted);
    var kept := clean.registry - evicted;
    assert after.registry == kept[id := |s.objects|];
    GrowsByOne(kept, id, |s.objects|);
    if |kept| >= MaxCached {
      forall other <- after.registry ensures Busy(after, other) {
        if other != id {
          KeptIsBusy(clean, id, owner, now, evicted, other);
        }
      }
    }
  }

  /** A clean-up drops exactly the entries nobody uses and nobody has used for an hour. */
  lemma CleanUpDrops(s: Sessions, id: string, now: int)
    requires InRange(s) && id in s.registry
    ensures id in Cleaned(s, now).registry <==> EntryOf(s, id).active != 0 || now - EntryOf(s, id).lastAccess < 3600
  {
    assert id in StaleIds(s, now) <==> Stale(s, id, now);
  }

  /** Nothing is evicted while there are fewer than 256 entries or the session is found,
      and never more than the new session needs. */
  lemma EvictsOnlyForRoom(s: Sessions, id: string, owner: string, now: int, evicted: set<string>, other: string)
    requires Proper(s) && MayStart(s, id, now, evicted)
    requires other in Cleaned(s, now).registry && other !in Acquired(s, id, owner, now, evicted).registry
    ensures id !in Cleaned(s, now).registry && |Cleaned(s, now).registry| >= 256
    ensures |Acquired(s, id, owner, now, evicted).registry| >= 256
  {
    var clean := Cleaned(s, now);
    assert evicted <= clean.registry.Keys;
    RemovedSize(clean.registry, evicted);
    var kept := clean.registry - evicted;
    GrowsByOne(kept, id, |s.objects|);
  }

  /** With no room made, whoever was kept is in use. */
  lemma KeptIsBusy(clean: Sessions, id: string, owner: string, now: int, evicted: set<string>, other: string)
    requires Proper(clean) && id !in clean.registry && MayEvict(clean, evicted)
    requires |clean.registry| - |evicted| >= MaxCached
    requires other in clean.registry && other !in evicted
    ensures
      var bound := Inserted(Without(clean, evicted), id, owner, now);
      Busy(Entered(bound, bound.registry[id], now), other)
  {
    assert !Idle(clean, other);
    assert clean.objects[clean.registry[other]] in clean.objects;
  }

  lemma GrowsByOne(m: map<string, nat>, id: string, o: nat)
    requires id !in m
    ensures |m[id := o]| == |m| + 1
  {
    assert m[id := o].Keys == m.Keys + {id};
    assert |m[id := o].Keys| == |m[id := o]|;
    assert |m.Keys| == |m|;
  }

  /** An entry in use survives every acquisition, under the same object. */
  lemma BusySurvives(s: Sessions, id: string, owner: string, now: int, evicted: set<string>, other: string)
    requires InRange(s) && Busy(s, other) && MayEvict(Cleaned(s, now), evicted)
    ensures
      var after := Acquired(s, id, owner, now, evicted);
      other in after.registry && after.registry[other] == s.registry[other]
  {
    assert other in Cleaned(s, now).registry && !Idle(Cleaned(s, now), other);
  }

  /** Whatever an acquisition drops was idle, and either past the idle lifetime or
      no younger than every idle entry left behind. */
  lemma DropsOldest(s: Sessions, id: string, owner: string, now: int, evicted: set<string>, gone: string, left: string)
    requires InRange(s) && MayEvict(Cleaned(s, now), evicted)
    requires gone in s.registry && gone !in Acquired(s, id, owner, now, evicted).registry
    requires left in s.registry && left in Acquired(s, id, owner, now, evicted).registry
    requires left != id && Idle(s, left)
    ensures Idle(s, gone)
    ensures Stale(s, gone, now) || EntryOf(s, gone).lastAccess <= EntryOf(s, left).lastAccess
  {
    var clean := Cleaned(s, now);
    assert left in clean.registry && Idle(clean, left);
    if !Stale(s, gone, now) {
      assert gone in clean.registry && gone in evicted && left !in evicted;
    }
  }
}
