/** When a caller gets through: what one check decides, and how a caller that is alone
    in the world ends. */
module LoneCallers {
  import opened Wrappers
  import opened StockOrder
  import opened StockLedger
  import opened ReservationRows
  import opened InventoryTables
  import opened PostingFacts
  import opened BackingFacts
  import opened StatePreservation
  import opened CreateTransaction
  import opened DocumentApproval
  import opened InventoryRuns
  import opened UpdateOutcomes
  import opened CallerTouches
  import opened ConcurrentCalls
  import opened LockOrder

  // ---- one check ----------------------------------------------------------

  /** What an updating caller's own order gives back on a row; nothing for the others. */
  function OwnReturn(t: Tables, intent: Intent, k: StockKey): int {
    if intent.Updating? && IsPending(t, intent.id) && t.transactions[intent.id].source.Some?
    then GivenBack(t.transactions[intent.id].items, t.transactions[intent.id].source.value, intent.input, k)
    else 0
  }

  lemma VisibleIs(t: Tables, intent: Intent, k: StockKey)
    requires TransactionsOk(t) && AllBacked(t) && Admitted(t, intent)
    requires intent.Updating? ==> t.transactions[intent.id].kind != Incoming
    ensures Visible(t, intent, k) == Reserved(t.reservations, k) - OwnReturn(t, intent, k)
  {
    if intent.Updating? {
      assert TransactionOk(t, t.transactions[intent.id]);
      ReleasedIsGivenBack(t, intent.id, intent.input, k);
    }
  }

  lemma AskingUpdatesHold(t: Tables, intent: Intent, n: nat)
    requires Claimable(t, intent) && n < |Touches(t, intent)| && Touches(t, intent)[n].asks.Some?
    ensures intent.Updating? ==> t.transactions[intent.id].kind != Incoming
    ensures Touches(t, intent)[n].delta == 0
  {
  }

  lemma ReadIsOnHand(t: Tables, intent: Intent, touches: seq<Touch>, taken: nat, checked: nat, writes: Stock)
    requires Claimable(t, intent) && Progress(t, intent, touches, taken, checked, writes) && checked < taken
    ensures touches[checked].row in writes
    ensures writes[touches[checked].row] == OnHand(t.stock, touches[checked].row) + touches[checked].delta
  {
    assert touches[checked] in touches[..taken];
  }

  lemma CheckDecides(w: World, j: nat)
    requires Enabled(w, Check(j))
    ensures Perform(w, Check(j)).callers[j].phase.Holding? <==>
      Passes(w.tables, w.callers[j].intent, TouchOf(w, j, w.callers[j].phase.checked), w.callers[j].writes)
  {
  }

  /** A reserving caller passes a check exactly when what it asks for is left over on the
      row, whoever else is at work: on hand, less all that is set aside, plus what its own
      order gives back there. */
  lemma CheckIsExact(w: World, j: nat)
    requires WorldOk(w) && Enabled(w, Check(j)) && TouchOf(w, j, w.callers[j].phase.checked).asks.Some?
    ensures
      var touch := TouchOf(w, j, w.callers[j].phase.checked);
      Perform(w, Check(j)).callers[j].phase.Holding? <==>
        touch.asks.value <= OnHand(w.tables.stock, touch.row) - Reserved(w.tables.reservations, touch.row)
                            + OwnReturn(w.tables, w.callers[j].intent, touch.row)
  {
    var c := w.callers[j];
    assert CallerOk(w.tables, c);
    CheckDecides(w, j);
    AskingUpdatesHold(w.tables, c.intent, c.phase.checked);
    ReadIsOnHand(w.tables, c.intent, Touches(w.tables, c.intent), c.phase.taken, c.phase.checked, c.writes);
    VisibleIs(w.tables, c.intent, TouchOf(w, j, c.phase.checked).row);
  }

  /** A completion passes a check exactly when the row does not go below zero. */
  lemma CompletionCheckIsExact(w: World, j: nat)
    requires WorldOk(w) && Enabled(w, Check(j)) && TouchOf(w, j, w.callers[j].phase.checked).asks.None?
    ensures
      var touch := TouchOf(w, j, w.callers[j].phase.checked);
      Perform(w, Check(j)).callers[j].phase.Holding? <==> OnHand(w.tables.stock, touch.row) + touch.delta >= 0
  {
    var c := w.callers[j];
    assert CallerOk(w.tables, c);
    CheckDecides(w, j);
    ReadIsOnHand(w.tables, c.intent, Touches(w.tables, c.intent), c.phase.taken, c.phase.checked, c.writes);
  }

  // ---- a caller alone -----------------------------------------------------

  /** What the commit of a touch needs of the committed state. */
  predicate TouchFits(t: Tables, intent: Intent, touch: Touch)
    requires Claimable(t, intent)
  {
    match touch.asks
    case None => OnHand(t.stock, touch.row) + touch.delta >= 0
    case Some(quantity) => quantity <= OnHand(t.stock, touch.row) + touch.delta - Visible(t, intent, touch.row)
  }

  predicate AllFit(t: Tables, intent: Intent)
    requires Claimable(t, intent)
  {
    forall i :: 0 <= i < |Touches(t, intent)| ==> TouchFits(t, intent, Touches(t, intent)[i])
  }

  /** One caller begins, claims, locks and checks `n` rows, and commits. */
  function Alone(intent: Intent, n: nat): seq<Event> {
    Taking(intent, n) + [Commit(0)]
  }

  function Taking(intent: Intent, n: nat): seq<Event> {
    if n == 0 then [Begin(intent), Claim(0)] else Taking(intent, n - 1) + [Lock(0), Check(0)]
  }

  lemma OneMore(w: World, events: seq<Event>, e: Event)
    ensures PerformAll(w, events + [e]) == Perform(PerformAll(w, events), e)
  {
    assert (events + [e])[..|events|] == events;
  }

  lemma TwoMore(w: World, events: seq<Event>, d: Event, e: Event)
    ensures PerformAll(w, events + [d, e]) == Perform(Perform(PerformAll(w, events), d), e)
  {
    OneMore(w, events, d);
    OneMore(w, events + [d], e);
    assert events + [d] + [e] == events + [d, e];
  }

  /** A world with this caller alone, before its commit. */
  ghost predicate Single(w: World, t: Tables, intent: Intent) {
    w.tables == t && |w.callers| == 1 && w.callers[0].intent == intent && w.history == []
  }

  /** After `n` rows: it holds as many as there are, all of which fit; or it has been
      rolled back over one that does not, or was never admitted. */
  ghost predicate Reached(w: World, t: Tables, intent: Intent, n: nat) {
    Single(w, t, intent) &&
    match w.callers[0].phase
    case RolledBack => !Admitted(t, intent) || !AllFit(t, intent)
    case Holding(taken, checked) =>
      && Admitted(t, intent)
      && taken == checked == (if n < |Touches(t, intent)| then n else |Touches(t, intent)|)
      && forall i :: 0 <= i < taken ==> TouchFits(t, intent, Touches(t, intent)[i])
    case _ => false
  }

  ghost predicate ReachedAfter(t: Tables, intent: Intent, n: nat) {
    Reached(PerformAll(Start(t), Taking(intent, n)), t, intent, n) && (n > 0 ==> ReachedAfter(t, intent, n - 1))
  }

  lemma Claimed(t: Tables, intent: Intent)
    ensures ReachedAfter(t, intent, 0)
  {
    TwoMore(Start(t), [], Begin(intent), Claim(0));
    assert [] + [Begin(intent), Claim(0)] == Taking(intent, 0);
  }

  /** A caller alone finds its next row free. */
  lemma NextRowFree(w: World, t: Tables, intent: Intent)
    requires Single(w, t, intent) && WorldOk(w) && w.callers[0].phase.Holding?
    requires w.callers[0].phase.checked == w.callers[0].phase.taken < |Touches(t, intent)|
    ensures Enabled(w, Lock(0))
  {
    var c := w.callers[0];
    assert CallerOk(t, c);
    TouchesAscend(t, intent);
    NextNotHeld(Touches(t, intent), c.phase.taken);
  }

  lemma PassesIsFits(t: Tables, intent: Intent, touches: seq<Touch>, n: nat, writes: Stock)
    requires Claimable(t, intent) && Progress(t, intent, touches, n + 1, n, writes)
    ensures Passes(t, intent, touches[n], writes) <==> TouchFits(t, intent, touches[n])
  {
    ReadIsOnHand(t, intent, touches, n + 1, n, writes);
  }

  lemma LockThenCheck(w: World, t: Tables, intent: Intent, n: nat)
    requires Reached(w, t, intent, n) && WorldOk(w) && TransactionsOk(t)
    ensures Reached(Perform(Perform(w, Lock(0)), Check(0)), t, intent, n + 1)
  {
    if w.callers[0].phase.Holding? {
      assert CallerOk(t, w.callers[0]);
      if n < |Touches(t, intent)| {
        NextRowFree(w, t, intent);
        LockOk(w, 0);
        CheckLocked(Perform(w, Lock(0)), t, intent, n);
      }
    }
  }

  lemma CheckIsChecked(w: World, j: nat)
    requires Enabled(w, Check(j))
    ensures Perform(w, Check(j)) == With(w, j, Checked(w.tables, w.callers[j], TouchOf(w, j, w.callers[j].phase.checked)))
  {
  }

  lemma CheckSplits(w: World, t: Tables, intent: Intent, n: nat)
    requires Single(w, t, intent) && Claimable(t, intent) && n < |Touches(t, intent)|
    requires w.callers[0].phase == Holding(n + 1, n)
    ensures
      var after := Perform(w, Check(0));
      && Single(after, t, intent)
      && after.callers[0].phase ==
           if Passes(t, intent, Touches(t, intent)[n], w.callers[0].writes) then Holding(n + 1, n + 1) else RolledBack
  {
    CheckIsChecked(w, 0);
  }

  lemma OneMoreFits(t: Tables, intent: Intent, touches: seq<Touch>, n: nat)
    requires Claimable(t, intent) && n < |touches| && TouchFits(t, intent, touches[n])
    requires forall i :: 0 <= i < n ==> TouchFits(t, intent, touches[i])
    ensures forall i :: 0 <= i < n + 1 ==> TouchFits(t, intent, touches[i])
  {
  }

  lemma CheckLocked(w: World, t: Tables, intent: Intent, n: nat)
    requires Single(w, t, intent) && LocksOk(w) && w.callers[0].phase == Holding(n + 1, n)
    requires Admitted(t, intent) && n < |Touches(t, intent)|
    requires forall i :: 0 <= i < n ==> TouchFits(t, intent, Touches(t, intent)[i])
    ensures Reached(Perform(w, Check(0)), t, intent, n + 1)
  {
    assert CallerOk(t, w.callers[0]);
    PassesIsFits(t, intent, Touches(t, intent), n, w.callers[0].writes);
    CheckSplits(w, t, intent, n);
    if TouchFits(t, intent, Touches(t, intent)[n]) {
      OneMoreFits(t, intent, Touches(t, intent), n);
    }
  }

  lemma EveryWorldOk(t: Tables, events: seq<Event>)
    requires Sound(t)
    ensures WorldOk(PerformAll(Start(t), events))
  {
    InterleavingsAreSerial(t, events);
  }

  lemma AfterOneMore(t: Tables, intent: Intent, n: nat)
    requires n > 0 && Sound(t) && ReachedAfter(t, intent, n - 1)
    ensures ReachedAfter(t, intent, n)
  {
    EveryWorldOk(t, Taking(intent, n - 1));
    TwoMore(Start(t), Taking(intent, n - 1), Lock(0), Check(0));
    LockThenCheck(PerformAll(Start(t), Taking(intent, n - 1)), t, intent, n - 1);
  }

  lemma {:induction false} AfterRows(t: Tables, intent: Intent, n: nat)
    requires Sound(t)
    ensures ReachedAfter(t, intent, n)
  {
    if n == 0 {
      Claimed(t, intent);
    } else {
      AfterRows(t, intent, n - 1);
      AfterOneMore(t, intent, n);
    }
  }

  // ---- what the serial call needs -----------------------------------------

  /** The calls modelled as callers: approvals are those of sales. */
  predicate TakesRows(t: Tables, intent: Intent) {
    intent.Approving? && intent.reviewId < |t.reviews| ==> t.reviews[intent.reviewId].kind == Outgoing
  }

  lemma ServedIsAdmitted(t: Tables, intent: Intent)
    requires TakesRows(t, intent) && Effect(t, CallOf(intent)).Some?
    ensures Admitted(t, intent)
  {
    if intent.Approving? {
      ServedApproval(t, intent.reviewId, intent.approval, intent.rules);
    }
  }

  lemma ServedApproval(t: Tables, id: nat, a: Approval, rules: NameRules)
    requires id < |t.reviews| ==> t.reviews[id].kind == Outgoing
    requires Effect(t, ApproveCall(id, a, rules)).Some?
    ensures Admitted(t, Approving(id, a, rules))
    ensures CreateFits(t, OutgoingHeader(Leg(a.source), a.expectedDate), Inputs(a))
  {
    forall item <- a.items ensures item.productId.Some? {
      var i :| 0 <= i < |a.items| && a.items[i] == item;
      assert LineOk(t.products, Outgoing, a, i, rules);
    }
    NothingNew(t, a);
  }

  lemma ServedFits(t: Tables, intent: Intent)
    requires TransactionsOk(t) && TakesRows(t, intent) && Effect(t, CallOf(intent)).Some?
    ensures Admitted(t, intent) && AllFit(t, intent)
  {
    ServedIsAdmitted(t, intent);
    match intent {
      case Completing(id) => ServedCompletion(t, id);
      case Cancelling(_) =>
      case Updating(id, input) => ServedUpdate(t, id, input);
      case Selling(_, _, _) => ServedCreate(t, intent);
      case Moving(_, _, _, _) => ServedCreate(t, intent);
      case Approving(id, a, rules) =>
        ServedApproval(t, id, a, rules);
        ServedCreate(t, intent);
    }
  }

  lemma ServedCompletion(t: Tables, id: nat)
    requires TransactionsOk(t) && Effect(t, CompleteCall(id)).Some?
    ensures IsPending(t, id) && AllFit(t, Completing(id))
  {
    var tx := t.transactions[id];
    assert TransactionOk(t, tx);
    PostingOrderAscends(tx, id);
    ReplayOfDistinct(t.stock, PostingOrder(tx, id));
  }

  lemma ServedUpdate(t: Tables, id: nat, input: UpdateInput)
    requires Effect(t, UpdateCall(id, input)).Some?
    ensures IsPending(t, id) && AllFit(t, Updating(id, input))
  {
    if t.transactions[id].kind != Incoming {
      var rs := RequestsIn(SortedPlans(t.transactions[id], id, input));
      assert Fits(t.(reservations := ReleasedFor(t, id, input)), rs);
      forall i | 0 <= i < |rs| ensures TouchFits(t, Updating(id, input), Asks(rs)[i]) {
        assert rs[i] in rs;
      }
    }
  }

  lemma ServedCreate(t: Tables, intent: Intent)
    requires Creates(intent) && Admitted(t, intent) && CreateFits(t, NewHeader(intent), NewInputs(intent))
    ensures AllFit(t, intent)
  {
    AdmittedInputs(t, intent);
    var tx := NewHeader(intent).(items := NewItems(NewInputs(intent), 0));
    NewReservationsFacts(tx, 0);
    forall i | 0 <= i < |NewAsks(intent)| ensures TouchFits(t, intent, Asks(NewAsks(intent))[i]) {
      assert NewAsks(intent)[i] in NewAsks(intent);
      var x :| 0 <= x < |tx.items| && NewAsks(intent)[i] == Request(tx, 0, tx.items[x]);
      assert NewInputs(intent)[x] in NewInputs(intent);
    }
  }

  // ---- how it ends --------------------------------------------------------

  /** A caller alone in the world that has taken its time over every row ends Committed
      exactly when the call, made at once, goes through; then it leaves what that call
      leaves, otherwise nothing. */
  lemma AloneIsServed(t: Tables, intent: Intent, n: nat)
    requires Sound(t) && TakesRows(t, intent)
    requires Claimable(t, intent) ==> n >= |Touches(t, intent)|
    ensures
      var w := PerformAll(Start(t), Alone(intent, n));
      && |w.callers| == 1
      && (w.callers[0].phase.Committed? <==> Effect(t, CallOf(intent)).Some?)
      && w.tables == Step(t, CallOf(intent))
  {
    AfterRows(t, intent, n);
    EveryWorldOk(t, Taking(intent, n));
    OneMore(Start(t), Taking(intent, n), Commit(0));
    var w := PerformAll(Start(t), Taking(intent, n));
    if w.callers[0].phase.Holding? {
      CommitsAlone(w, t, intent);
    } else if Effect(t, CallOf(intent)).Some? {
      ServedFits(t, intent);
    }
  }

  lemma CommitDone(w: World, t: Tables, intent: Intent)
    requires Single(w, t, intent) && Enabled(w, Commit(0))
    ensures
      var after := Perform(w, Commit(0));
      |after.callers| == 1 && after.callers[0].phase.Committed? && after.tables == Written(t, intent, w.callers[0].writes)
  {
  }

  lemma CommitsAlone(w: World, t: Tables, intent: Intent)
    requires Single(w, t, intent) && WorldOk(w)
    requires Admitted(t, intent) && w.callers[0].phase == Holding(|Touches(t, intent)|, |Touches(t, intent)|)
    ensures
      var after := Perform(w, Commit(0));
      && |after.callers| == 1 && after.callers[0].phase.Committed?
      && Effect(t, CallOf(intent)) == Some(after.tables)
  {
    assert CallerOk(t, w.callers[0]);
    CommitIsSerial(t, w.callers[0]);
    CommitDone(w, t, intent);
  }
}
