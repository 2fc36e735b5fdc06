/** Runs of any number of invocations against the registry: starting, waiting for
    the session's lock, being cancelled, failing, finishing, in any interleaving
    and at any clock readings. */
module SessionRuns {
  import opened Wrappers
  import opened SessionIds
  import opened Sessions

  /** Where an invocation of stream_response() is; `o` is the session object it holds.
      Leaving is between giving the lock back (or giving up on it) and the release. */
  datatype Phase = Waiting(o: nat) | Locked(o: nat) | Leaving(o: nat) | Over

  datatype Invocation = Invocation(sessionId: string, phase: Phase)

  datatype World = World(sessions: Sessions, invocations: seq<Invocation>)

  datatype Event =
    | Start(sessionId: string, user: string, now: int, evicted: set<string>)
    | TryLock(i: nat)
    | Cancel(i: nat)
    | Finish(i: nat)
    | Release(i: nat, now: int)

  predicate InFlight(v: Invocation) {
    !v.phase.Over?
  }

  predicate In(w: World, i: nat) {
    i < |w.invocations| && (InFlight(w.invocations[i]) ==> w.invocations[i].phase.o < |w.sessions.objects|)
  }

  predicate Enabled(w: World, e: Event) {
    match e
    case Start(id, user, now, evicted) =>
      // the session id has been matched to the authenticated user
      && ParseOwner(id) == Some(user)
      && InRange(w.sessions)
      && (id !in Cleaned(w.sessions, now).registry ==> MayEvict(Cleaned(w.sessions, now), evicted))
      && (id in Cleaned(w.sessions, now).registry ==> evicted == {})
    case TryLock(i) => In(w, i) && w.invocations[i].phase.Waiting?
    case Cancel(i) => In(w, i) && w.invocations[i].phase.Waiting?
    case Finish(i) => In(w, i) && w.invocations[i].phase.Locked?
    case Release(i, _) => In(w, i) && w.invocations[i].phase.Leaving?
  }

  function At(w: World, i: nat, phase: Phase): seq<Invocation>
    requires i < |w.invocations|
  {
    w.invocations[i := w.invocations[i].(phase := phase)]
  }

  function Perform(w: World, e: Event): World {
    if !Enabled(w, e) then w
    else match e
      case Start(id, user, now, evicted) =>
        var after := Acquired(w.sessions, id, user, now, evicted);
        if Foreign(Cleaned(w.sessions, now), id, user) then w.(sessions := after)
        else World(after, w.invocations + [Invocation(id, Waiting(after.registry[id]))])
      case TryLock(i) =>
        var o := w.invocations[i].phase.o;
        if w.sessions.objects[o].locked then w
        else World(WithLock(w.sessions, o, true), At(w, i, Locked(o)))
      case Cancel(i) => w.(invocations := At(w, i, Leaving(w.invocations[i].phase.o)))
      case Finish(i) =>
        var o := w.invocations[i].phase.o;
        World(WithLock(w.sessions, o, false), At(w, i, Leaving(o)))
      case Release(i, now) =>
        World(Released(w.sessions, w.invocations[i].phase.o, now), At(w, i, Over))
  }

  function PerformAll(w: World, events: seq<Event>): World {
    if events == [] then w else Perform(PerformAll(w, events[..|events| - 1]), events[|events| - 1])
  }

  function Fresh(): World {
    World(Sessions([], map[]), [])
  }

  // ---- what holds all along ----------------------------------------------

  /** The number of invocations in flight on object `o`. */
  function Users(vs: seq<Invocation>, o: nat): nat {
    if vs == [] then 0
    else
      var last := vs[|vs| - 1];
      Users(vs[..|vs| - 1], o) + (if InFlight(last) && last.phase.o == o then 1 else 0)
  }

  /** The active count of every object, registered or dropped, is the real number
      of invocations using it. */
  predicate CountsReal(w: World) {
    forall o :: 0 <= o < |w.sessions.objects| ==> w.sessions.objects[o].active == Users(w.invocations, o)
  }

  /** An invocation in flight holds the object registered for its session id. */
  predicate HoldsRegistered(s: Sessions, v: Invocation) {
    InFlight(v) ==> v.sessionId in s.registry && s.registry[v.sessionId] == v.phase.o
  }

  predicate AllRegistered(w: World) {
    forall i :: 0 <= i < |w.invocations| ==> HoldsRegistered(w.sessions, w.invocations[i])
  }

  /** Past the lock means the object is locked, and nobody else is past it. */
  predicate LocksReal(w: World) {
    && (forall i :: 0 <= i < |w.invocations| && w.invocations[i].phase.Locked? ==>
          && w.invocations[i].phase.o < |w.sessions.objects|
          && w.sessions.objects[w.invocations[i].phase.o].locked)
    && (forall i, j :: 0 <= i < j < |w.invocations|
                       && w.invocations[i].phase.Locked? && w.invocations[j].phase.Locked? ==>
          w.invocations[i].phase.o != w.invocations[j].phase.o)
  }

  predicate PastLock(vs: seq<Invocation>, o: nat) {
    exists i :: 0 <= i < |vs| && vs[i].phase == Locked(o)
  }

  /** A locked object is held by somebody past the lock: no lock is ever leaked. */
  predicate LocksHeld(w: World) {
    forall o :: 0 <= o < |w.sessions.objects| && w.sessions.objects[o].locked ==> PastLock(w.invocations, o)
  }

  predicate OwnersReal(s: Sessions)
    requires InRange(s)
  {
    forall id <- s.registry :: ParseOwner(id) == Some(EntryOf(s, id).owner)
  }

  predicate WorldOk(w: World) {
    && Proper(w.sessions) && OwnersReal(w.sessions)
    && AllRegistered(w) && CountsReal(w) && LocksReal(w) && LocksHeld(w)
  }

  lemma {:induction false} UsersAppend(vs: seq<Invocation>, v: Invocation, o: nat)
    ensures Users(vs + [v], o) == Users(vs, o) + (if InFlight(v) && v.phase.o == o then 1 else 0)
  {
    assert (vs + [v])[..|vs|] == vs;
  }

  lemma {:induction false} UsersChange(vs: seq<Invocation>, i: nat, v: Invocation, o: nat)
    requires i < |vs|
    ensures Users(vs[i := v], o) ==
            Users(vs, o) - (if InFlight(vs[i]) && vs[i].phase.o == o then 1 else 0)
                         + (if InFlight(v) && v.phase.o == o then 1 else 0)
  {
    var last := |vs| - 1;
    if i < last {
      UsersChange(vs[..last], i, v, o);
      assert vs[i := v][..last] == vs[..last][i := v];
    } else {
      assert vs[i := v][..last] == vs[..last];
    }
  }

  lemma {:induction false} UserCounts(vs: seq<Invocation>, i: nat)
    requires i < |vs| && InFlight(vs[i])
    ensures Users(vs, vs[i].phase.o) >= 1
  {
    if i < |vs| - 1 {
      UserCounts(vs[..|vs| - 1], i);
    }
  }

  /** Whoever is past a lock stays so while another invocation moves or one is added. */
  lemma StaysPast(vs: seq<Invocation>, after: seq<Invocation>, i: nat, o: nat)
    requires PastLock(vs, o) && |vs| <= |after|
    requires forall j :: 0 <= j < |vs| && j != i ==> after[j] == vs[j]
    requires i < |vs| ==> vs[i].phase != Locked(o) || after[i] == vs[i]
    ensures PastLock(after, o)
  {
    var j :| 0 <= j < |vs| && vs[j].phase == Locked(o);
    assert after[j].phase == Locked(o);
  }

  /** An object nobody registered or that is out of range has no user. */
  lemma {:induction false} NoUsers(vs: seq<Invocation>, o: nat)
    requires forall i :: 0 <= i < |vs| && InFlight(vs[i]) ==> vs[i].phase.o != o
    ensures Users(vs, o) == 0
  {
    if vs != [] {
      NoUsers(vs[..|vs| - 1], o);
    }
  }

  // ---- starting -----------------------------------------------------------

  /** Dropping idle entries drops nobody's object. */
  lemma DroppingIdle(w: World, ids: set<string>)
    requires WorldOk(w) && forall id <- ids :: id in w.sessions.registry ==> Idle(w.sessions, id)
    ensures WorldOk(w.(sessions := Without(w.sessions, ids)))
  {
    var s := Without(w.sessions, ids);
    forall i | 0 <= i < |w.invocations| ensures HoldsRegistered(s, w.invocations[i]) {
      var v := w.invocations[i];
      assert HoldsRegistered(w.sessions, v);
      if InFlight(v) {
        UserCounts(w.invocations, i);
        assert !Idle(w.sessions, v.sessionId);
      }
    }
  }

  lemma Inserting(w: World, id: string, user: string, now: int)
    requires WorldOk(w) && id !in w.sessions.registry && ParseOwner(id) == Some(user)
    ensures WorldOk(w.(sessions := Inserted(w.sessions, id, user, now)))
  {
    var s := Inserted(w.sessions, id, user, now);
    forall i | 0 <= i < |w.invocations| ensures HoldsRegistered(s, w.invocations[i]) {
      assert HoldsRegistered(w.sessions, w.invocations[i]);
    }
    NoUsers(w.invocations, |w.sessions.objects|);
  }

  lemma Entering(w: World, id: string, now: int)
    requires WorldOk(w) && id in w.sessions.registry
    ensures
      var o := w.sessions.registry[id];
      WorldOk(World(Entered(w.sessions, o, now), w.invocations + [Invocation(id, Waiting(o))]))
  {
    var o := w.sessions.registry[id];
    var v := Invocation(id, Waiting(o));
    var w' := World(Entered(w.sessions, o, now), w.invocations + [v]);
    forall i | 0 <= i < |w'.invocations| ensures HoldsRegistered(w'.sessions, w'.invocations[i]) {
      assert i < |w.invocations| ==> HoldsRegistered(w.sessions, w.invocations[i]);
    }
    forall x | 0 <= x < |w'.sessions.objects| ensures w'.sessions.objects[x].active == Users(w'.invocations, x) {
      UsersAppend(w.invocations, v, x);
    }
    forall id <- w'.sessions.registry ensures ParseOwner(id) == Some(EntryOf(w'.sessions, id).owner) {
      assert ParseOwner(id) == Some(EntryOf(w.sessions, id).owner);
    }
    forall x | 0 <= x < |w'.sessions.objects| && w'.sessions.objects[x].locked ensures PastLock(w'.invocations, x) {
      StaysPast(w.invocations, w'.invocations, |w.invocations|, x);
    }
  }

  /** Each of the registry's parts of a start keeps the rules, so the start does. */
  lemma StartOk(w: World, e: Event)
    requires WorldOk(w) && e.Start? && Enabled(w, e)
    ensures WorldOk(Perform(w, e))
  {
    var clean := w.(sessions := Cleaned(w.sessions, e.now));
    DroppingIdle(w, StaleIds(w.sessions, e.now));
    if !Foreign(clean.sessions, e.sessionId, e.user) {
      if e.sessionId !in clean.sessions.registry {
        DroppingIdle(clean, e.evicted);
        Inserting(clean.(sessions := Without(clean.sessions, e.evicted)), e.sessionId, e.user, e.now);
      }
      Entering(clean.(sessions := Bound(clean.sessions, e.sessionId, e.user, e.now, e.evicted)), e.sessionId, e.now);
    }
  }

  // ---- the other events ---------------------------------------------------

  /** The move takes the lock, gives it back, or leaves it as it is. */
  predicate FairMove(w: World, i: nat, phase: Phase, locked: bool) {
    && i < |w.invocations| && InFlight(w.invocations[i])
    && !phase.Over? && phase.o == w.invocations[i].phase.o && phase.o < |w.sessions.objects|
    && (phase.Locked? ==> locked && !w.sessions.objects[phase.o].locked)
    && (!phase.Locked? ==>
          locked == if w.invocations[i].phase.Locked? then false else w.sessions.objects[phase.o].locked)
  }

  function Moved(w: World, i: nat, phase: Phase, locked: bool): World
    requires FairMove(w, i, phase, locked)
  {
    World(WithLock(w.sessions, phase.o, locked), At(w, i, phase))
  }

  lemma MoveKeepsCounts(w: World, i: nat, phase: Phase, locked: bool)
    requires WorldOk(w) && FairMove(w, i, phase, locked)
    ensures
      var w' := Moved(w, i, phase, locked);
      Proper(w'.sessions) && OwnersReal(w'.sessions) && AllRegistered(w') && CountsReal(w')
  {
    var w' := Moved(w, i, phase, locked);
    forall x | 0 <= x < |w'.sessions.objects| ensures w'.sessions.objects[x].active == Users(w'.invocations, x) {
      UsersChange(w.invocations, i, w'.invocations[i], x);
    }
    forall id <- w'.sessions.registry ensures ParseOwner(id) == Some(EntryOf(w'.sessions, id).owner) {
      assert ParseOwner(id) == Some(EntryOf(w.sessions, id).owner);
    }
    forall j | 0 <= j < |w.invocations| ensures HoldsRegistered(w'.sessions, w'.invocations[j]) {
      assert HoldsRegistered(w.sessions, w.invocations[j]);
    }
  }

  lemma MoveKeepsLocks(w: World, i: nat, phase: Phase, locked: bool)
    requires LocksReal(w) && LocksHeld(w) && FairMove(w, i, phase, locked)
    ensures LocksReal(Moved(w, i, phase, locked)) && LocksHeld(Moved(w, i, phase, locked))
  {
    var w' := Moved(w, i, phase, locked);
    forall x | 0 <= x < |w'.sessions.objects| && w'.sessions.objects[x].locked ensures PastLock(w'.invocations, x) {
      if x == phase.o && phase.Locked? {
        assert w'.invocations[i].phase == Locked(x);
      } else {
        assert PastLock(w.invocations, x);
        StaysPast(w.invocations, w'.invocations, i, x);
      }
    }
  }

  lemma PhaseChange(w: World, i: nat, phase: Phase, locked: bool)
    requires WorldOk(w) && FairMove(w, i, phase, locked)
    ensures WorldOk(Moved(w, i, phase, locked))
  {
    MoveKeepsCounts(w, i, phase, locked);
    MoveKeepsLocks(w, i, phase, locked);
  }

  /** A release never meets a zero count: the real number of users goes down by one. */
  lemma NeverClamps(w: World, i: nat, now: int)
    requires WorldOk(w) && Enabled(w, Release(i, now))
    ensures w.sessions.objects[w.invocations[i].phase.o].active >= 1
    ensures
      var o := w.invocations[i].phase.o;
      Released(w.sessions, o, now).objects[o].active == w.sessions.objects[o].active - 1
  {
    UserCounts(w.invocations, i);
  }

  lemma ReleaseOk(w: World, i: nat, now: int)
    requires WorldOk(w) && Enabled(w, Release(i, now))
    ensures WorldOk(Perform(w, Release(i, now)))
  {
    NeverClamps(w, i, now);
    var w' := Perform(w, Release(i, now));
    forall x | 0 <= x < |w'.sessions.objects| ensures w'.sessions.objects[x].active == Users(w'.invocations, x) {
      UsersChange(w.invocations, i, w'.invocations[i], x);
    }
    forall id <- w'.sessions.registry ensures ParseOwner(id) == Some(EntryOf(w'.sessions, id).owner) {
      assert ParseOwner(id) == Some(EntryOf(w.sessions, id).owner);
    }
    forall j | 0 <= j < |w.invocations| ensures HoldsRegistered(w'.sessions, w'.invocations[j]) {
      assert HoldsRegistered(w.sessions, w.invocations[j]);
    }
    forall x | 0 <= x < |w'.sessions.objects| && w'.sessions.objects[x].locked ensures PastLock(w'.invocations, x) {
      StaysPast(w.invocations, w'.invocations, i, x);
    }
  }

  lemma PerformOk(w: World, e: Event)
    requires WorldOk(w)
    ensures WorldOk(Perform(w, e))
  {
    if Enabled(w, e) {
      match e {
        case Start(_, _, _, _) => StartOk(w, e);
        case TryLock(i) =>
          var o := w.invocations[i].phase.o;
          if !w.sessions.objects[o].locked { PhaseChange(w, i, Locked(o), true); }
        case Cancel(i) =>
          var o := w.invocations[i].phase.o;
          PhaseChange(w, i, Leaving(o), w.sessions.objects[o].locked);
          assert WithLock(w.sessions, o, w.sessions.objects[o].locked) == w.sessions;
        case Finish(i) => PhaseChange(w, i, Leaving(w.invocations[i].phase.o), false);
        case Release(i, now) => ReleaseOk(w, i, now);
      }
    }
  }

  // ---- main results -------------------------------------------------------

  lemma {:induction false} RunOk(events: seq<Event>)
    ensures WorldOk(PerformAll(Fresh(), events))
  {
    if events != [] {
      RunOk(events[..|events| - 1]);
      PerformOk(PerformAll(Fresh(), events[..|events| - 1]), events[|events| - 1]);
    }
  }

  /** In every run, with failures, cancellations, clean-ups and evictions racing,
      at most one invocation per session id is past the lock. */
  lemma OnePastTheLock(events: seq<Event>, i: nat, j: nat)
    requires
      var w := PerformAll(Fresh(), events);
      && i < j < |w.invocations|
      && w.invocations[i].phase.Locked? && w.invocations[j].phase.Locked?
    ensures
      var w := PerformAll(Fresh(), events);
      w.invocations[i].sessionId != w.invocations[j].sessionId
  {
    RunOk(events);
    var w := PerformAll(Fresh(), events);
    assert HoldsRegistered(w.sessions, w.invocations[i]) && HoldsRegistered(w.sessions, w.invocations[j]);
  }

  /** In every run, an invocation in flight holds the object registered for its
      session id; that entry's count is the real number of users, at least one; it
      belongs to the user the session id names; and no next event, whether start,
      clean-up or eviction, drops or replaces it. */
  lemma BusyEntriesStay(events: seq<Event>, e: Event, i: nat)
    requires i < |PerformAll(Fresh(), events).invocations| && InFlight(PerformAll(Fresh(), events).invocations[i])
    ensures
      var w := PerformAll(Fresh(), events);
      var id, o := w.invocations[i].sessionId, w.invocations[i].phase.o;
      && InRange(w.sessions) && id in w.sessions.registry && w.sessions.registry[id] == o
      && EntryOf(w.sessions, id).active == Users(w.invocations, o) >= 1
      && ParseOwner(id) == Some(EntryOf(w.sessions, id).owner)
      && id in Perform(w, e).sessions.registry && Perform(w, e).sessions.registry[id] == o
  {
    RunOk(events);
    var w := PerformAll(Fresh(), events);
    var id := w.invocations[i].sessionId;
    assert HoldsRegistered(w.sessions, w.invocations[i]);
    UserCounts(w.invocations, i);
    assert Busy(w.sessions, id);
    if e.Start? && Enabled(w, e) {
      if e.sessionId in Cleaned(w.sessions, e.now).registry {
        assert id in Cleaned(w.sessions, e.now).registry;
      } else {
        BusySurvives(w.sessions, e.sessionId, e.user, e.now, e.evicted, id);
      }
    }
  }

  /** In every run, a waiting invocation gets the lock at its next poll unless
      another invocation of the same session id is past it. */
  lemma NoLockLeaks(events: seq<Event>, i: nat)
    requires i < |PerformAll(Fresh(), events).invocations| && PerformAll(Fresh(), events).invocations[i].phase.Waiting?
    ensures
      var w := PerformAll(Fresh(), events);
      || Perform(w, TryLock(i)).invocations[i].phase == Locked(w.invocations[i].phase.o)
      || exists j :: 0 <= j < |w.invocations| && w.invocations[j].phase.Locked?
                     && w.invocations[j].phase.o == w.invocations[i].phase.o
  {
    RunOk(events);
    var w := PerformAll(Fresh(), events);
    assert HoldsRegistered(w.sessions, w.invocations[i]);
    var o := w.invocations[i].phase.o;
    if w.sessions.objects[o].locked {
      assert PastLock(w.invocations, o);
    }
  }

  /** A user is never refused over a session id of their own. */
  lemma OwnersAreAdmitted(events: seq<Event>, e: Event)
    requires e.Start? && Enabled(PerformAll(Fresh(), events), e)
    ensures
      var w := PerformAll(Fresh(), events);
      !Foreign(Cleaned(w.sessions, e.now), e.sessionId, e.user)
  {
    RunOk(events);
  }

  /** Once everybody has left, every entry is idle: no count leaks. */
  lemma NoCountLeaks(events: seq<Event>, o: nat)
    requires
      var w := PerformAll(Fresh(), events);
      && o < |w.sessions.objects|
      && forall i :: 0 <= i < |w.invocations| ==> w.invocations[i].phase.Over?
    ensures PerformAll(Fresh(), events).sessions.objects[o].active == 0
  {
    RunOk(events);
    NoUsers(PerformAll(Fresh(), events).invocations, o);
  }
}
