/** The running stream_response() calls over the heap registry. Every step is the
    event of the same name in SessionRuns, so what holds in its runs holds here. */
module StreamResponses {
  import opened Wrappers
  import opened SessionIds
  import opened Sessions
  import opened SessionRegistry
  import opened SessionRuns

  /** Inside the try block; in the finally block, with the lock given back; returned. */
  datatype Stage = Try(lockAcquired: bool) | Finally | Returned

  /** The local variables of one call. */
  datatype Frame = Frame(sessionId: string, state: SessionState, stage: Stage)

  predicate Known(made: seq<SessionState>, frames: seq<Frame>) {
    forall i :: 0 <= i < |frames| ==> frames[i].state in made
  }

  function PhaseOf(made: seq<SessionState>, f: Frame): Phase
    requires f.state in made
  {
    match f.stage
    case Try(lockAcquired) => if lockAcquired then Locked(Position(made, f.state)) else Waiting(Position(made, f.state))
    case Finally => Leaving(Position(made, f.state))
    case Returned => Over
  }

  function InvocationOf(made: seq<SessionState>, f: Frame): Invocation
    requires f.state in made
  {
    Invocation(f.sessionId, PhaseOf(made, f))
  }

  function Invocations(made: seq<SessionState>, frames: seq<Frame>): (r: seq<Invocation>)
    requires Known(made, frames)
    ensures |r| == |frames|
    ensures forall i :: 0 <= i < |frames| ==> r[i] == InvocationOf(made, frames[i])
  {
    seq(|frames|, i requires 0 <= i < |frames| => InvocationOf(made, frames[i]))
  }

  lemma {:induction false} PositionStays(made: seq<SessionState>, more: seq<SessionState>, s: SessionState)
    requires made <= more && s in made
    ensures s in more && Position(more, s) == Position(made, s)
  {
    if made[0] != s {
      assert made == [made[0]] + made[1..];
      PositionStays(made[1..], more[1..], s);
    }
  }

  lemma InvocationsStay(made: seq<SessionState>, more: seq<SessionState>, frames: seq<Frame>)
    requires made <= more && Known(made, frames)
    ensures Known(more, frames) && Invocations(more, frames) == Invocations(made, frames)
  {
    forall i | 0 <= i < |frames| ensures frames[i].state in more && InvocationOf(more, frames[i]) == InvocationOf(made, frames[i]) {
      PositionStays(made, more, frames[i].state);
    }
  }

  lemma FrameMoves(made: seq<SessionState>, frames: seq<Frame>, i: nat, stage: Stage)
    requires Known(made, frames) && i < |frames|
    ensures
      var f := frames[i].(stage := stage);
      && Known(made, frames[i := f])
      && Invocations(made, frames[i := f]) == Invocations(made, frames)[i := InvocationOf(made, f)]
  {
  }

  lemma FrameEnters(made: seq<SessionState>, frames: seq<Frame>, f: Frame)
    requires Known(made, frames) && f.state in made
    ensures Known(made, frames + [f])
    ensures Invocations(made, frames + [f]) == Invocations(made, frames) + [InvocationOf(made, f)]
  {
  }

  lemma RunGrows(events: seq<Event>, e: Event)
    ensures PerformAll(Fresh(), events + [e]) == Perform(PerformAll(Fresh(), events), e)
  {
    assert (events + [e])[..|events|] == events;
  }

  /** One more call waits for the lock of the object registered for its id. */
  function Joined(w: World, id: string): World
    requires id in w.sessions.registry
  {
    w.(invocations := w.invocations + [Invocation(id, Waiting(w.sessions.registry[id]))])
  }

  lemma StartIs(w: World, id: string, user: string, now: int, evicted: set<string>)
    requires ParseOwner(id) == Some(user) && InRange(w.sessions) && MayStart(w.sessions, id, now, evicted)
    ensures Enabled(w, Start(id, user, now, evicted))
    ensures
      var after := Acquired(w.sessions, id, user, now, evicted);
      Perform(w, Start(id, user, now, evicted)) ==
        if Foreign(Cleaned(w.sessions, now), id, user) then World(after, w.invocations)
        else Joined(World(after, w.invocations), id)
  {
  }

  class Entrypoint {
    const registry: Registry
    var frames: seq<Frame>
    /** Everything that has happened since the process started. */
    ghost var events: seq<Event>

    ghost predicate Consistent()
      reads this, registry, registry.made
    {
      registry.Valid() && Known(registry.made, frames)
    }

    ghost function View(): World
      reads this, registry, registry.made
      requires Consistent()
    {
      World(registry.Value(), Invocations(registry.made, frames))
    }

    /** The heap shows the world that the events so far lead to. */
    ghost predicate Valid()
      reads this, registry, registry.made
    {
      Consistent() && View() == PerformAll(Fresh(), events)
    }

    constructor ()
      ensures Valid() && events == [] && frames == []
    {
      registry := new Registry();
      frames, events := [], [];
    }

    /** Put an event that has just been carried out on record. */
    ghost method Record(e: Event)
      requires Consistent() && View() == Perform(PerformAll(Fresh(), events), e)
      modifies this`events
      ensures Valid() && events == old(events) + [e]
    {
      RunGrows(events, e);
      events := events + [e];
    }

    /** The session state for a caller, if it may have it; nobody else's call notices. */
    method Acquire(id: string, user: string, now: int) returns (state: Option<SessionState>, ghost evicted: set<string>)
      requires Consistent()
      modifies registry, registry.made
      ensures Consistent() && View() == World(Acquired(old(View()).sessions, id, user, now, evicted), old(View()).invocations)
      ensures MayStart(old(View()).sessions, id, now, evicted)
      ensures state.None? <==> Foreign(Cleaned(old(View()).sessions, now), id, user)
      ensures state.Some? ==> id in registry.states && registry.states[id] == state.value
    {
      ghost var made := registry.made;
      state, evicted := registry.Acquire(id, user, now);
      InvocationsStay(made, registry.made, frames);
    }

    /** The state found is entered as a new call's. */
    method Enter(id: string)
      requires Consistent() && id in registry.states
      modifies this`frames
      ensures Consistent() && frames == old(frames) + [Frame(id, registry.states[id], Try(false))]
      ensures id in old(View()).sessions.registry && View() == Joined(old(View()), id)
    {
      FrameEnters(registry.made, frames, Frame(id, registry.states[id], Try(false)));
      frames := frames + [Frame(id, registry.states[id], Try(false))];
    }

    /** The same as the first half of an event: what is left is to enter the new call. */
    method Bind(id: string, user: string, now: int) returns (ok: bool, ghost evicted: set<string>)
      requires Consistent() && ParseOwner(id) == Some(user)
      modifies registry, registry.made
      ensures Consistent() && MayStart(old(View()).sessions, id, now, evicted)
      ensures ok <==> !Foreign(Cleaned(old(View()).sessions, now), id, user)
      ensures ok ==> id in registry.states && id in View().sessions.registry
      ensures Perform(old(View()), SessionRuns.Start(id, user, now, evicted)) == if ok then Joined(View(), id) else View()
    {
      ghost var before := View();
      var state;
      state, evicted := Acquire(id, user, now);
      StartIs(before, id, user, now, evicted);
      ok := state.Some?;
    }

    /** Acquires the session state of a matched user and starts the call, or raises. */
    method Begin(id: string, user: string, now: int) returns (ok: bool, ghost evicted: set<string>)
      requires Valid() && ParseOwner(id) == Some(user)
      modifies this`frames, this`events, registry, registry.made
      ensures Valid() && events == old(events) + [SessionRuns.Start(id, user, now, evicted)]
      ensures MayStart(old(View()).sessions, id, now, evicted)
      ensures ok <==> !Foreign(Cleaned(old(View()).sessions, now), id, user)
      ensures if ok then id in registry.states && frames == old(frames) + [Frame(id, registry.states[id], Try(false))]
              else frames == old(frames)
    {
      ok, evicted := Bind(id, user, now);
      if ok {
        Enter(id);
      }
      Record(SessionRuns.Start(id, user, now, evicted));
    }

    /** A call comes in; refused when the session id is not the caller's (and then
        nothing happens), or is registered to somebody else. */
    method Start(id: string, user: string, now: int) returns (ok: bool)
      requires Valid()
      modifies this`frames, this`events, registry, registry.made
      ensures Valid()
      ensures ok <==> ParseOwner(id) == Some(user) && !Foreign(Cleaned(old(View()).sessions, now), id, user)
      ensures ParseOwner(id) != Some(user) ==> events == old(events) && View() == old(View())
      ensures ParseOwner(id) == Some(user) ==> exists evicted ::
        events == old(events) + [SessionRuns.Start(id, user, now, evicted)] && MayStart(old(View()).sessions, id, now, evicted)
      ensures if ok then id in registry.states && frames == old(frames) + [Frame(id, registry.states[id], Try(false))]
              else frames == old(frames)
    {
      if ParseOwner(id) != Some(user) { return false; }
      ghost var evicted;
      ok, evicted := Begin(id, user, now);
    }

    method Move(i: nat, stage: Stage)
      requires Consistent() && i < |frames|
      modifies this`frames
      ensures Consistent() && frames == old(frames)[i := old(frames)[i].(stage := stage)]
      ensures View() == World(old(View()).sessions, At(old(View()), i, PhaseOf(registry.made, frames[i])))
    {
      FrameMoves(registry.made, frames, i, stage);
      frames := frames[i := frames[i].(stage := stage)];
    }

    /** One poll for the session's lock. */
    method TryLock(i: nat)
      requires Valid() && i < |frames| && frames[i].stage == Try(false)
      modifies this`frames, this`events, registry.made
      ensures Valid() && events == old(events) + [SessionRuns.TryLock(i)]
      ensures frames == old(frames)[i := old(frames)[i].(stage := Try(!old(frames[i].state.locked)))]
    {
      var acquired := registry.Poll(frames[i].state);
      Move(i, Try(acquired));
      Record(SessionRuns.TryLock(i));
    }

    /** The try block ends, by return, exception or cancellation: whoever has the lock gives it back. */
    method Leave(i: nat)
      requires Valid() && i < |frames| && frames[i].stage.Try?
      modifies this`frames, this`events, registry.made
      ensures Valid() && frames == old(frames)[i := old(frames)[i].(stage := Finally)]
      ensures events == old(events) + [if old(frames)[i].stage.lockAcquired then Finish(i) else Cancel(i)]
    {
      if frames[i].stage.lockAcquired {
        registry.GiveBack(frames[i].state);
        Move(i, Finally);
        Record(Finish(i));
      } else {
        Move(i, Finally);
        Record(Cancel(i));
      }
    }

    /** The finally block releases the session state. */
    method Release(i: nat, now: int)
      requires Valid() && i < |frames| && frames[i].stage.Finally?
      modifies this`frames, this`events, registry.made
      ensures Valid() && events == old(events) + [SessionRuns.Release(i, now)]
      ensures frames == old(frames)[i := old(frames)[i].(stage := Returned)]
    {
      registry.Release(frames[i].state, now);
      Move(i, Returned);
      Record(SessionRuns.Release(i, now));
    }

    /** So on the heap, too, at most one call per session id is past the lock. */
    lemma OneInside(i: nat, j: nat)
      requires Valid() && i < j < |frames| && frames[i].sessionId == frames[j].sessionId
      requires frames[i].stage == Try(true)
      ensures frames[j].stage != Try(true)
    {
      var w := View();
      if frames[j].stage == Try(true) {
        assert w.invocations[i].phase.Locked? && w.invocations[j].phase.Locked?;
        OnePastTheLock(events, i, j);
      }
    }

    /** A call that has not returned holds the object registered for its session id. */
    lemma HoldsTheRegistered(i: nat)
      requires Valid() && i < |frames| && !frames[i].stage.Returned?
      ensures frames[i].sessionId in registry.states && registry.states[frames[i].sessionId] == frames[i].state
      ensures frames[i].state.active >= 1
    {
      var w := View();
      assert InFlight(w.invocations[i]);
      BusyEntriesStay(events, SessionRuns.TryLock(i), i);
      registry.EntryIsState(frames[i].sessionId);
    }
  }
}
