/** Concurrent calls that hold stock rows. A call claims its row with a conditional
    UPDATE, then takes its stock rows one at a time: it locks the row and reads its
    quantity, and in a later statement checks what it needs, a completion against
    the quantity, a reservation against the quantity less what the table then shows
    as set aside. What it writes stays its own, and every lock is held, until it
    commits or rolls back. */
module ConcurrentCalls {
  import opened Wrappers
  import opened Text
  import opened StockOrder
  import opened StockLedger
  import opened ReservationRows
  import opened InventoryTables
  import opened PostingFacts
  import opened StatePreservation
  import opened CreateTransaction
  import opened DocumentApproval
  import opened InventoryRuns
  import opened TransactionHistory
  import opened CallerTouches

  /** `taken` rows are locked and the first `checked` of them checked. `Committed` and
      `RolledBack` hold nothing. */
  datatype Phase = Waiting | Holding(taken: nat, checked: nat) | Committed | RolledBack

  /** `writes` are the quantities of the stock rows held: as they will be for a
      completion, as read for a reservation. Nobody else sees them. */
  datatype Caller = Caller(intent: Intent, phase: Phase, writes: Stock)

  /** `history` lists the calls that have committed, in commit order. */
  datatype World = World(tables: Tables, callers: seq<Caller>, history: seq<Call>)

  datatype Event =
    | Begin(intent: Intent)
    | Claim(j: nat)
    | Lock(j: nat)
    | Check(j: nat)
    | Commit(j: nat)
    | Abort(j: nat)
    | Elsewhere(call: Call)

  predicate TargetHeld(w: World, target: Target) {
    !target.NoRow? &&
    exists i :: 0 <= i < |w.callers| && w.callers[i].phase.Holding? && TargetOf(w.callers[i].intent) == target
  }

  predicate StockHeld(w: World, k: StockKey) {
    exists i :: 0 <= i < |w.callers| && w.callers[i].phase.Holding? && k in w.callers[i].writes
  }

  /** A call that looked at the catalogue when it was admitted. */
  predicate UsesCatalogue(intent: Intent) {
    intent.Updating? || Creates(intent)
  }

  predicate CatalogueInUse(w: World) {
    exists i :: 0 <= i < |w.callers| && w.callers[i].phase.Holding? && UsesCatalogue(w.callers[i].intent)
  }

  predicate Owns(w: World, j: nat) {
    && j < |w.callers| && w.callers[j].phase.Holding?
    && Claimable(w.tables, w.callers[j].intent)
    && w.callers[j].phase.checked <= w.callers[j].phase.taken <= |Touches(w.tables, w.callers[j].intent)|
  }

  /** The touch with number `n` of a caller. */
  function TouchOf(w: World, j: nat, n: nat): Touch
    requires Owns(w, j) && n < |Touches(w.tables, w.callers[j].intent)|
  {
    Touches(w.tables, w.callers[j].intent)[n]
  }

  /** A call that takes no stock rows, or one alone: an adjustment waits for its row, a
      decision on a review for that review, a catalogue write for whoever relies on the catalogue. */
  predicate Runs(w: World, c: Call) {
    match c
    case CreateIncomingCall(_, _, _, _) => true
    case ReceiveDocument(_) => true
    case AdjustCall(_, _, p, wh, _) => !StockHeld(w, StockKey(wh, p))
    case ApproveCall(id, _, _) => id < |w.tables.reviews| && w.tables.reviews[id].kind != Outgoing
    case RejectCall(id, _, _) => !TargetHeld(w, ReviewRow(id))
    case PutProduct(_, _) => !CatalogueInUse(w)
    case RemoveProduct(_) => !CatalogueInUse(w)
    case PutWarehouse(_, _) => !CatalogueInUse(w)
    case PutSupplier(_, _) => !CatalogueInUse(w)
    case _ => false
  }

  predicate Enabled(w: World, e: Event) {
    match e
    case Begin(_) => true
    case Claim(j) => j < |w.callers| && w.callers[j].phase.Waiting? && !TargetHeld(w, TargetOf(w.callers[j].intent))
    case Lock(j) =>
      && Owns(w, j) && w.callers[j].phase.checked == w.callers[j].phase.taken
      && w.callers[j].phase.taken < |Touches(w.tables, w.callers[j].intent)|
      && !StockHeld(w, TouchOf(w, j, w.callers[j].phase.taken).row)
    case Check(j) => Owns(w, j) && w.callers[j].phase.checked < w.callers[j].phase.taken
    case Commit(j) => Owns(w, j) && w.callers[j].phase.checked == |Touches(w.tables, w.callers[j].intent)|
    case Abort(j) => j < |w.callers| && (w.callers[j].phase.Waiting? || w.callers[j].phase.Holding?)
    case Elsewhere(c) => Runs(w, c)
  }

  /** A completion needs the new quantity not to be negative; a reservation needs what it
      asks for to be left over from the quantity it has read. */
  predicate Passes(t: Tables, intent: Intent, touch: Touch, writes: Stock)
    requires Claimable(t, intent)
  {
    touch.row in writes &&
    match touch.asks
    case None => writes[touch.row] >= 0
    case Some(quantity) => quantity <= writes[touch.row] - Visible(t, intent, touch.row)
  }

  function With(w: World, j: nat, c: Caller): World
    requires j < |w.callers|
  {
    w.(callers := w.callers[j := c])
  }

  function Ended(c: Caller, phase: Phase): Caller {
    Caller(c.intent, phase, map[])
  }

  function Locked(t: Tables, c: Caller, touch: Touch): Caller
    requires c.phase.Holding?
  {
    Caller(c.intent, Holding(c.phase.taken + 1, c.phase.checked),
           c.writes[touch.row := OnHand(t.stock, touch.row) + touch.delta])
  }

  function Checked(t: Tables, c: Caller, touch: Touch): Caller
    requires c.phase.Holding? && Claimable(t, c.intent)
  {
    if Passes(t, c.intent, touch, c.writes) then c.(phase := Holding(c.phase.taken, c.phase.checked + 1))
    else Ended(c, RolledBack)
  }

  function Perform(w: World, e: Event): World {
    if !Enabled(w, e) then w
    else match e
      case Begin(intent) => w.(callers := w.callers + [Caller(intent, Waiting, map[])])
      case Claim(j) =>
        var c := w.callers[j];
        With(w, j, if Admitted(w.tables, c.intent) then Caller(c.intent, Holding(0, 0), map[]) else Ended(c, RolledBack))
      case Lock(j) => With(w, j, Locked(w.tables, w.callers[j], TouchOf(w, j, w.callers[j].phase.taken)))
      case Check(j) => With(w, j, Checked(w.tables, w.callers[j], TouchOf(w, j, w.callers[j].phase.checked)))
      case Commit(j) =>
        var c := w.callers[j];
        World(Written(w.tables, c.intent, c.writes), w.callers[j := Ended(c, Committed)], w.history + [CallOf(c.intent)])
      case Abort(j) => With(w, j, Ended(w.callers[j], RolledBack))
      case Elsewhere(c) =>
        if Effect(w.tables, c).Some? then w.(tables := Step(w.tables, c), history := w.history + [c]) else w
  }

  function PerformAll(w: World, events: seq<Event>): World {
    if events == [] then w else Perform(PerformAll(w, events[..|events| - 1]), events[|events| - 1])
  }

  function Start(t: Tables): World {
    World(t, [], [])
  }

  // ---- what holds all along ----------------------------------------------

  function RowsOf(touches: seq<Touch>): set<StockKey> {
    set touch | touch in touches :: touch.row
  }

  predicate WritesMatch(stock: Stock, done: seq<Touch>, writes: Stock) {
    && writes.Keys == RowsOf(done)
    && forall touch <- done :: writes[touch.row] == OnHand(stock, touch.row) + touch.delta
  }

  /** The first `taken` of its touches are locked and read, the first `checked` of them checked. */
  predicate Progress(t: Tables, intent: Intent, touches: seq<Touch>, taken: nat, checked: nat, writes: Stock)
    requires Claimable(t, intent)
  {
    && checked <= taken <= checked + 1 && taken <= |touches|
    && WritesMatch(t.stock, touches[..taken], writes)
    && forall n :: 0 <= n < checked ==> Passes(t, intent, touches[n], writes)
  }

  /** A caller that holds its rows: it would be admitted now as it was, what it has read
      and computed still agrees with the committed stock, and what it has checked still holds. */
  predicate HolderOk(t: Tables, c: Caller)
    requires c.phase.Holding?
  {
    && Admitted(t, c.intent)
    && Along(t, c, Touches(t, c.intent))
  }

  predicate CallerOk(t: Tables, c: Caller) {
    if c.phase.Holding? then HolderOk(t, c) else c.writes == map[]
  }

  predicate Apart(a: Caller, b: Caller) {
    a.phase.Holding? && b.phase.Holding? ==>
      && (TargetOf(a.intent) == TargetOf(b.intent) ==> TargetOf(a.intent).NoRow?)
      && a.writes.Keys !! b.writes.Keys
  }

  /** A complete() or cancel() that has committed. */
  predicate Won(c: Caller) {
    c.phase.Committed? && (c.intent.Completing? || c.intent.Cancelling?)
  }

  /** It has settled its transaction. */
  predicate WonOk(t: Tables, c: Caller) {
    Won(c) ==> Settled(t, c.intent.id)
  }

  predicate CallersOk(w: World) {
    forall i :: 0 <= i < |w.callers| ==> CallerOk(w.tables, w.callers[i]) && WonOk(w.tables, w.callers[i])
  }

  predicate AllApart(callers: seq<Caller>) {
    forall i, j :: 0 <= i < j < |callers| ==> Apart(callers[i], callers[j])
  }

  /** At most one complete() or cancel() of a transaction has committed. */
  predicate OneWinner(callers: seq<Caller>) {
    forall i, j :: 0 <= i < j < |callers| && Won(callers[i]) && Won(callers[j]) ==>
      callers[i].intent.id != callers[j].intent.id
  }

  predicate LocksOk(w: World) {
    CallersOk(w) && AllApart(w.callers) && OneWinner(w.callers)
  }

  predicate WorldOk(w: World) {
    Sound(w.tables) && LocksOk(w)
  }

  lemma ApartFrom(callers: seq<Caller>, i: nat, j: nat)
    requires AllApart(callers) && i < |callers| && j < |callers| && i != j
    ensures Apart(callers[i], callers[j])
  {
    assert if i < j then Apart(callers[i], callers[j]) else Apart(callers[j], callers[i]);
  }

  /** One caller changes into another that is apart from everybody else. */
  lemma ChangeOne(w: World, j: nat, c: Caller)
    requires LocksOk(w) && j < |w.callers| && CallerOk(w.tables, c) && !Won(c) && !Won(w.callers[j])
    requires forall i :: 0 <= i < |w.callers| && i != j ==> Apart(c, w.callers[i])
    ensures LocksOk(With(w, j, c))
  {
    var callers := w.callers[j := c];
    forall a, b | 0 <= a < b < |callers| ensures Apart(callers[a], callers[b]) {
      assert Apart(w.callers[a], w.callers[b]);
    }
  }

  lemma EndOk(w: World, j: nat)
    requires LocksOk(w) && j < |w.callers| && !w.callers[j].phase.Committed?
    ensures LocksOk(With(w, j, Ended(w.callers[j], RolledBack)))
  {
    ChangeOne(w, j, Ended(w.callers[j], RolledBack));
  }

  lemma BeginOk(w: World, intent: Intent)
    requires LocksOk(w)
    ensures LocksOk(Perform(w, Begin(intent)))
  {
    var callers := w.callers + [Caller(intent, Waiting, map[])];
    forall a, b | 0 <= a < b < |callers| ensures Apart(callers[a], callers[b]) {
      assert b < |w.callers| ==> Apart(w.callers[a], w.callers[b]);
    }
  }

  lemma ClaimOk(w: World, j: nat)
    requires LocksOk(w) && Enabled(w, Claim(j))
    ensures LocksOk(Perform(w, Claim(j)))
  {
    if Admitted(w.tables, w.callers[j].intent) {
      var c := Caller(w.callers[j].intent, Holding(0, 0), map[]);
      assert Touches(w.tables, c.intent)[..0] == [];
      assert HolderOk(w.tables, c);
      ChangeOne(w, j, c);
    } else {
      EndOk(w, j);
    }
  }

  lemma LockProgress(t: Tables, intent: Intent, touches: seq<Touch>, n: nat, writes: Stock)
    requires Claimable(t, intent) && Progress(t, intent, touches, n, n, writes)
    requires n < |touches| && touches[n].row !in writes
    ensures Progress(t, intent, touches, n + 1, n, writes[touches[n].row := OnHand(t.stock, touches[n].row) + touches[n].delta])
  {
    assert touches[..n + 1] == touches[..n] + [touches[n]];
    assert forall touch <- touches[..n] :: touch.row in writes;
    forall m | 0 <= m < n
      ensures Passes(t, intent, touches[m], writes[touches[n].row := OnHand(t.stock, touches[n].row) + touches[n].delta])
    {
      assert Passes(t, intent, touches[m], writes);
    }
  }

  /** A caller is as far along these touches as its phase says. */
  predicate Along(t: Tables, c: Caller, touches: seq<Touch>)
    requires c.phase.Holding? && Claimable(t, c.intent)
  {
    Progress(t, c.intent, touches, c.phase.taken, c.phase.checked, c.writes)
  }

  lemma LockedAlong(t: Tables, c: Caller, touches: seq<Touch>)
    requires c.phase.Holding? && Claimable(t, c.intent) && Along(t, c, touches)
    requires c.phase.checked == c.phase.taken < |touches| && touches[c.phase.taken].row !in c.writes
    ensures Along(t, Locked(t, c, touches[c.phase.taken]), touches)
  {
    LockProgress(t, c.intent, touches, c.phase.taken, c.writes);
  }

  lemma LockOk(w: World, j: nat)
    requires LocksOk(w) && Enabled(w, Lock(j))
    ensures LocksOk(Perform(w, Lock(j)))
  {
    var c, touch := w.callers[j], TouchOf(w, j, w.callers[j].phase.taken);
    assert CallerOk(w.tables, c) && touch.row !in c.writes;
    LockedAlong(w.tables, c, Touches(w.tables, c.intent));
    forall i | 0 <= i < |w.callers| && i != j ensures Apart(Locked(w.tables, c, touch), w.callers[i]) {
      ApartFrom(w.callers, j, i);
      assert w.callers[i].phase.Holding? ==> touch.row !in w.callers[i].writes;
    }
    ChangeOne(w, j, Locked(w.tables, c, touch));
  }

  lemma CheckProgress(t: Tables, intent: Intent, touches: seq<Touch>, n: nat, writes: Stock)
    requires Claimable(t, intent) && Progress(t, intent, touches, n + 1, n, writes) && Passes(t, intent, touches[n], writes)
    ensures Progress(t, intent, touches, n + 1, n + 1, writes)
  {
  }

  lemma CheckedAlong(t: Tables, c: Caller, touches: seq<Touch>)
    requires c.phase.Holding? && Claimable(t, c.intent) && Along(t, c, touches) && c.phase.checked < c.phase.taken
    requires Passes(t, c.intent, touches[c.phase.checked], c.writes)
    ensures Along(t, Checked(t, c, touches[c.phase.checked]), touches)
  {
    CheckProgress(t, c.intent, touches, c.phase.checked, c.writes);
  }

  lemma CheckOk(w: World, j: nat)
    requires LocksOk(w) && Enabled(w, Check(j))
    ensures LocksOk(Perform(w, Check(j)))
  {
    var c, touch := w.callers[j], TouchOf(w, j, w.callers[j].phase.checked);
    assert CallerOk(w.tables, c);
    if Passes(w.tables, c.intent, touch, c.writes) {
      CheckedAlong(w.tables, c, Touches(w.tables, c.intent));
      forall i | 0 <= i < |w.callers| && i != j ensures Apart(Checked(w.tables, c, touch), w.callers[i]) {
        ApartFrom(w.callers, j, i);
      }
      ChangeOne(w, j, Checked(w.tables, c, touch));
    } else {
      EndOk(w, j);
    }
  }

  // ---- committing is a serial step ---------------------------------------

  lemma CompletionMatches(t: Tables, c: Caller, ms: seq<Movement>)
    requires c.phase.Holding? && WritesMatch(t.stock, Moves(ms), c.writes)
    requires Claimable(t, c.intent)
    requires forall n :: 0 <= n < |ms| ==> Passes(t, c.intent, Moves(ms)[n], c.writes)
    ensures c.writes.Keys == KeysOf(ms)
    ensures forall m <- ms :: c.writes[KeyOf(m)] == OnHand(t.stock, KeyOf(m)) + Delta(m) >= 0
  {
    forall m <- ms ensures KeyOf(m) in c.writes && c.writes[KeyOf(m)] == OnHand(t.stock, KeyOf(m)) + Delta(m) >= 0 {
      var n :| 0 <= n < |ms| && ms[n] == m;
      assert Moves(ms)[n] in Moves(ms) && Passes(t, c.intent, Moves(ms)[n], c.writes);
    }
    forall k <- c.writes ensures k in KeysOf(ms) {
      var touch :| touch in Moves(ms) && touch.row == k;
      var n :| 0 <= n < |ms| && Moves(ms)[n] == touch;
      assert ms[n] in ms;
    }
  }

  lemma PrivateWritesAreReplay(stock: Stock, ms: seq<Movement>, writes: Stock)
    requires DistinctKeys(KeyOf, ms) && writes.Keys == KeysOf(ms)
    requires forall m <- ms :: writes[KeyOf(m)] == OnHand(stock, KeyOf(m)) + Delta(m) >= 0
    ensures Replay(stock, ms) == Some(stock + writes)
  {
    ReplayOfDistinct(stock, ms);
    var after := Replay(stock, ms).value;
    ReplayIsSignedSum(stock, ms, after);
    assert after.Keys == (stock + writes).Keys;
    forall k | k in after ensures after[k] == (stock + writes)[k] {
      assert after[k] == OnHand(after, k);
      if k in writes {
        var m :| m in ms && KeyOf(m) == k;
        var i :| 0 <= i < |ms| && ms[i] == m;
        NetOfDistinct(ms, i);
      } else {
        NetOfStrangers(ms, k);
      }
    }
    assert after == stock + writes;
  }

  /** A caller that has taken and checked all its rows. */
  predicate Done(t: Tables, c: Caller) {
    c.phase.Holding? && HolderOk(t, c) && c.phase.checked == |Touches(t, c.intent)|
  }

  lemma AllDone(t: Tables, c: Caller)
    requires Done(t, c)
    ensures WritesMatch(t.stock, Touches(t, c.intent), c.writes)
    ensures forall n :: 0 <= n < |Touches(t, c.intent)| ==> Passes(t, c.intent, Touches(t, c.intent)[n], c.writes)
  {
    assert Touches(t, c.intent)[..|Touches(t, c.intent)|] == Touches(t, c.intent);
  }

  lemma CompletionIsSerial(t: Tables, c: Caller)
    requires TransactionsOk(t) && Done(t, c) && c.intent.Completing?
    ensures Effect(t, CallOf(c.intent)) == Some(Written(t, c.intent, c.writes))
  {
    var id := c.intent.id;
    var ms := PostingOrder(t.transactions[id], id);
    AllDone(t, c);
    assert TransactionOk(t, t.transactions[id]);
    PostingOrderAscends(t.transactions[id], id);
    CompletionMatches(t, c, ms);
    PrivateWritesAreReplay(t.stock, ms, c.writes);
    CompletionWritten(t, id, c.writes);
  }

  lemma CompletionWritten(t: Tables, id: nat, writes: Stock)
    requires IsPending(t, id) && Replay(t.stock, PostingOrder(t.transactions[id], id)) == Some(t.stock + writes)
    ensures Effect(t, CompleteCall(id)) == Some(Written(t, Completing(id), writes))
  {
    assert Written(t, Completing(id), writes) == AfterComplete(t, id);
  }

  /** What was asked of a row, with its lock held, is there at the commit. */
  lemma AskedIsThere(t: Tables, c: Caller, rs: seq<Reservation>, n: nat)
    requires Done(t, c) && Touches(t, c.intent) == Asks(rs) && n < |rs|
    ensures rs[n].quantity <= OnHand(t.stock, RowOf(rs[n])) - Visible(t, c.intent, RowOf(rs[n]))
  {
    AllDone(t, c);
    assert Passes(t, c.intent, Asks(rs)[n], c.writes) && Asks(rs)[n] in Asks(rs);
  }

  lemma UpdateIsSerial(t: Tables, c: Caller)
    requires Done(t, c) && c.intent.Updating?
    ensures Effect(t, CallOf(c.intent)) == Some(Written(t, c.intent, c.writes))
  {
    var id, input := c.intent.id, c.intent.input;
    if t.transactions[id].kind != Incoming {
      var rs := RequestsIn(SortedPlans(t.transactions[id], id, input));
      forall r <- rs ensures r.quantity <= Available(t.(reservations := ReleasedFor(t, id, input)), RowOf(r)) {
        var n :| 0 <= n < |rs| && rs[n] == r;
        AskedIsThere(t, c, rs, n);
      }
    }
    assert UpdateFits(t, id, input);
  }

  lemma NewRowsFit(t: Tables, c: Caller)
    requires Done(t, c) && Creates(c.intent)
    ensures CreateAllowed(t, NewHeader(c.intent), NewInputs(c.intent))
    ensures CreateFits(t, NewHeader(c.intent), NewInputs(c.intent))
  {
    var inputs := NewInputs(c.intent);
    AdmittedInputs(t, c.intent);
    forall x <- inputs ensures x.quantity <= Available(t, StockKey(Leg(NewHeader(c.intent).source), x.productId)) {
      var i :| 0 <= i < |inputs| && inputs[i] == x;
      var n := InputAsked(c.intent, i);
      AskedIsThere(t, c, NewAsks(c.intent), n);
    }
  }

  lemma NothingNew(t: Tables, a: Approval)
    requires forall item <- a.items :: item.productId.Some?
    ensures WithNewProducts(t, a) == t
  {
    assert NewProducts(a, |a.items|) == map[];
    assert t.products + map[] == t.products;
  }

  lemma PlainLinesOk(products: map<int, Product>, kind: TransactionKind, a: Approval, rules: NameRules)
    requires forall item <- a.items :: item.productId.Some?
    ensures LinesOk(products, kind, a, rules)
  {
  }

  lemma SaleApproved(t: Tables, id: nat, a: Approval, rules: NameRules)
    requires AwaitsReview(t, id) && t.reviews[id].kind == Outgoing && a.source.Some?
    requires WithNewProducts(t, a) == t && LinesOk(t.products, Outgoing, a, rules)
    requires CreateAllowed(t, OutgoingHeader(a.source.value, a.expectedDate), Inputs(a))
    requires CreateFits(t, OutgoingHeader(a.source.value, a.expectedDate), Inputs(a))
    ensures Effect(t, ApproveCall(id, a, rules)) == Some(AfterApprove(t, id, a))
  {
  }

  lemma ApprovalWritten(t: Tables, id: nat, a: Approval, rules: NameRules, writes: Stock)
    requires AwaitsReview(t, id) && t.reviews[id].kind == Outgoing && a.source.Some? && WithNewProducts(t, a) == t
    ensures AfterApprove(t, id, a) == Written(t, Approving(id, a, rules), writes)
  {
  }

  lemma ApprovalIsSerial(t: Tables, c: Caller)
    requires Done(t, c) && c.intent.Approving?
    ensures Effect(t, CallOf(c.intent)) == Some(Written(t, c.intent, c.writes))
  {
    var id, a, rules := c.intent.reviewId, c.intent.approval, c.intent.rules;
    NewRowsFit(t, c);
    NothingNew(t, a);
    PlainLinesOk(t.products, Outgoing, a, rules);
    SaleApproved(t, id, a, rules);
    ApprovalWritten(t, id, a, rules, c.writes);
  }

  /** The unguarded commit of a caller that holds its rows is exactly the guarded serial call. */
  lemma CommitIsSerial(t: Tables, c: Caller)
    requires TransactionsOk(t) && Done(t, c)
    ensures Effect(t, CallOf(c.intent)) == Some(Written(t, c.intent, c.writes))
  {
    match c.intent {
      case Completing(_) => CompletionIsSerial(t, c);
      case Cancelling(_) =>
      case Updating(_, _) => UpdateIsSerial(t, c);
      case Approving(_, _, _) => ApprovalIsSerial(t, c);
      case Selling(_, _, _) => NewRowsFit(t, c);
      case Moving(_, _, _, _) => NewRowsFit(t, c);
    }
  }

  // ---- what a step leaves to a caller ------------------------------------

  predicate CatalogueKept(t: Tables, after: Tables) {
    && (forall p <- t.products :: p in after.products && after.products[p] == t.products[p])
    && after.warehouses == t.warehouses && after.suppliers == t.suppliers
  }

  predicate TargetKept(t: Tables, after: Tables, target: Target) {
    match target
    case TransactionRow(id) =>
      id < |t.transactions| ==> id < |after.transactions| && after.transactions[id] == t.transactions[id]
    case ReviewRow(id) => id < |t.reviews| ==> id < |after.reviews| && after.reviews[id] == t.reviews[id]
    case NoRow => true
  }

  /** Its row, its stock rows, what others set aside there, and the catalogue if it relies on it. */
  predicate Spares(t: Tables, after: Tables, c: Caller) {
    && TargetKept(t, after, TargetOf(c.intent))
    && (forall k <- c.writes ::
          OnHand(after.stock, k) == OnHand(t.stock, k) && SparesRow(t.reservations, after.reservations, OwnId(c.intent), k))
    && (UsesCatalogue(c.intent) ==> CatalogueKept(t, after))
  }

  lemma AdmittedStays(t: Tables, after: Tables, intent: Intent)
    requires Admitted(t, intent) && TargetKept(t, after, TargetOf(intent))
    requires UsesCatalogue(intent) ==> CatalogueKept(t, after)
    ensures Admitted(after, intent) && Touches(after, intent) == Touches(t, intent)
  {
  }

  lemma ProgressStays(t: Tables, after: Tables, intent: Intent, touches: seq<Touch>, taken: nat, checked: nat, writes: Stock)
    requires Claimable(t, intent) && Claimable(after, intent) && TargetKept(t, after, TargetOf(intent))
    requires Progress(t, intent, touches, taken, checked, writes)
    requires forall k <- writes ::
               OnHand(after.stock, k) == OnHand(t.stock, k) && SparesRow(t.reservations, after.reservations, OwnId(intent), k)
    ensures Progress(after, intent, touches, taken, checked, writes)
  {
    forall touch <- touches[..taken] ensures OnHand(after.stock, touch.row) == OnHand(t.stock, touch.row) {
      assert touch.row in writes;
    }
    forall n | 0 <= n < checked ensures Passes(after, intent, touches[n], writes) {
      assert Passes(t, intent, touches[n], writes);
      VisibleStays(t, after, intent, touches[n].row);
    }
  }

  lemma HolderUndisturbed(t: Tables, after: Tables, c: Caller)
    requires c.phase.Holding? && HolderOk(t, c) && Spares(t, after, c)
    ensures HolderOk(after, c)
  {
    AdmittedStays(t, after, c.intent);
    ProgressStays(t, after, c.intent, Touches(t, c.intent), c.phase.taken, c.phase.checked, c.writes);
  }

  // ---- a commit -----------------------------------------------------------

  lemma UntakenUntouched(t: Tables, c: Caller, k: StockKey)
    requires Done(t, c) && k !in c.writes
    ensures !Touched(Touches(t, c.intent), k)
  {
    AllDone(t, c);
    forall n | 0 <= n < |Touches(t, c.intent)| ensures Touches(t, c.intent)[n].row != k {
      assert Touches(t, c.intent)[n] in Touches(t, c.intent);
    }
  }

  /** A commit changes no transaction or review row but its own, and adds only new ones. */
  lemma CommitKeepsTarget(t: Tables, intent: Intent, writes: Stock, target: Target)
    requires Claimable(t, intent) && target != TargetOf(intent)
    ensures TargetKept(t, Written(t, intent, writes), target)
  {
  }

  lemma CommitKeepsRest(t: Tables, intent: Intent, writes: Stock)
    requires Claimable(t, intent)
    ensures CatalogueKept(t, Written(t, intent, writes))
    ensures forall k :: k !in writes ==> OnHand(Written(t, intent, writes).stock, k) == OnHand(t.stock, k)
  {
  }

  lemma CommitSparesCaller(t: Tables, c: Caller, other: Caller)
    requires References(t) && Done(t, c) && other.phase.Holding? && Apart(c, other)
    ensures Spares(t, Written(t, c.intent, c.writes), other)
  {
    if !TargetOf(other.intent).NoRow? {
      CommitKeepsTarget(t, c.intent, c.writes, TargetOf(other.intent));
    }
    CommitKeepsRest(t, c.intent, c.writes);
    forall k <- other.writes
      ensures SparesRow(t.reservations, Written(t, c.intent, c.writes).reservations, OwnId(other.intent), k)
    {
      assert k !in c.writes;
      UntakenUntouched(t, c, k);
      CommitSpares(t, c.intent, c.writes, OwnId(other.intent), k);
    }
  }

  lemma CommitKeepsWinners(w: World, j: nat, i: nat, after: Tables)
    requires i < |w.callers| && j < |w.callers| && Effect(w.tables, CallOf(w.callers[j].intent)) == Some(after)
    requires WonOk(w.tables, w.callers[i])
    ensures WonOk(after, w.callers[i])
  {
    if Won(w.callers[i]) {
      StepOnTransaction(w.tables, CallOf(w.callers[j].intent), w.callers[i].intent.id);
    }
  }

  /** The caller that commits a complete() or cancel() has settled its transaction, which
      nobody had before. */
  lemma CommitWins(w: World, j: nat, after: Tables)
    requires LocksOk(w) && j < |w.callers| && Done(w.tables, w.callers[j])
    requires Effect(w.tables, CallOf(w.callers[j].intent)) == Some(after)
    ensures WonOk(after, Ended(w.callers[j], Committed))
    ensures OneWinner(w.callers[j := Ended(w.callers[j], Committed)])
  {
    var c := w.callers[j];
    if c.intent.Completing? || c.intent.Cancelling? {
      StepOnTransaction(w.tables, CallOf(c.intent), c.intent.id);
      forall i | 0 <= i < |w.callers| && Won(w.callers[i]) ensures w.callers[i].intent.id != c.intent.id {
        assert WonOk(w.tables, w.callers[i]);
      }
    }
  }

  lemma EndedApart(callers: seq<Caller>, j: nat, phase: Phase)
    requires AllApart(callers) && j < |callers| && !phase.Holding?
    ensures AllApart(callers[j := Ended(callers[j], phase)])
  {
    var after := callers[j := Ended(callers[j], phase)];
    forall a, b | 0 <= a < b < |after| ensures Apart(after[a], after[b]) {
      assert Apart(callers[a], callers[b]);
    }
  }

  lemma CommitKeepsCaller(t: Tables, c: Caller, other: Caller)
    requires References(t) && Done(t, c) && CallerOk(t, other) && Apart(c, other)
    ensures CallerOk(Written(t, c.intent, c.writes), other)
  {
    if other.phase.Holding? {
      CommitSparesCaller(t, c, other);
      HolderUndisturbed(t, Written(t, c.intent, c.writes), other);
    }
  }

  lemma CommitKeepsOther(w: World, j: nat, i: nat)
    requires LocksOk(w) && References(w.tables) && i < |w.callers| && j < |w.callers| && i != j
    requires Done(w.tables, w.callers[j])
    requires Effect(w.tables, CallOf(w.callers[j].intent)) == Some(Written(w.tables, w.callers[j].intent, w.callers[j].writes))
    ensures CallerOk(Written(w.tables, w.callers[j].intent, w.callers[j].writes), w.callers[i])
    ensures WonOk(Written(w.tables, w.callers[j].intent, w.callers[j].writes), w.callers[i])
  {
    assert CallerOk(w.tables, w.callers[i]) && WonOk(w.tables, w.callers[i]);
    ApartFrom(w.callers, j, i);
    CommitKeepsCaller(w.tables, w.callers[j], w.callers[i]);
    CommitKeepsWinners(w, j, i, Written(w.tables, w.callers[j].intent, w.callers[j].writes));
  }

  lemma Assembled(w: World, j: nat, after: Tables, c: Caller, history: seq<Call>)
    requires j < |w.callers| && CallerOk(after, c) && WonOk(after, c)
    requires forall i :: 0 <= i < |w.callers| && i != j ==> CallerOk(after, w.callers[i]) && WonOk(after, w.callers[i])
    requires AllApart(w.callers[j := c]) && OneWinner(w.callers[j := c])
    ensures LocksOk(World(after, w.callers[j := c], history))
  {
  }

  lemma CommitKeepsCallers(w: World, j: nat, after: Tables)
    requires LocksOk(w) && References(w.tables) && j < |w.callers| && Done(w.tables, w.callers[j])
    requires after == Written(w.tables, w.callers[j].intent, w.callers[j].writes)
    requires Effect(w.tables, CallOf(w.callers[j].intent)) == Some(after)
    ensures LocksOk(World(after, w.callers[j := Ended(w.callers[j], Committed)], w.history + [CallOf(w.callers[j].intent)]))
  {
    EndedApart(w.callers, j, Committed);
    CommitWins(w, j, after);
    forall i | 0 <= i < |w.callers| && i != j ensures CallerOk(after, w.callers[i]) && WonOk(after, w.callers[i]) {
      CommitKeepsOther(w, j, i);
    }
    Assembled(w, j, after, Ended(w.callers[j], Committed), w.history + [CallOf(w.callers[j].intent)]);
  }

  lemma CommitOk(w: World, j: nat)
    requires WorldOk(w) && Enabled(w, Commit(j))
    ensures WorldOk(Perform(w, Commit(j)))
  {
    var c := w.callers[j];
    assert CallerOk(w.tables, c);
    CommitIsSerial(w.tables, c);
    StepSound(w.tables, CallOf(c.intent));
    CommitKeepsCallers(w, j, Written(w.tables, c.intent, c.writes));
  }

  // ---- a call elsewhere ---------------------------------------------------

  lemma ElsewhereKeepsTarget(w: World, c: Call, target: Target)
    requires Runs(w, c) && (TargetHeld(w, target) || target.NoRow?)
    requires target.ReviewRow? ==> target.reviewId < |w.tables.reviews| && w.tables.reviews[target.reviewId].kind == Outgoing
    ensures TargetKept(w.tables, Step(w.tables, c), target)
  {
  }

  lemma IncomingReservesNothing(t: Tables, header: Transaction, inputs: seq<ItemInput>)
    requires header.kind == Incoming
    ensures AfterCreate(t, header, inputs).reservations == t.reservations
  {
  }

  /** Neither an approved purchase nor a failed approval sets anything aside. */
  lemma PurchaseReservesNothing(t: Tables, id: nat, a: Approval, rules: NameRules)
    requires id < |t.reviews| && t.reviews[id].kind != Outgoing
    ensures Step(t, ApproveCall(id, a, rules)).reservations == t.reservations
  {
    if ApproveAllowed(t, id, a, rules) {
      IncomingReservesNothing(WithNewProducts(t, a), HeaderFor(t.reviews[id].kind, a).value, Inputs(a));
    }
  }

  lemma ElsewhereKeepsReservations(w: World, c: Call)
    requires Runs(w, c)
    ensures Step(w.tables, c).reservations == w.tables.reservations
  {
    match c {
      case ApproveCall(id, a, rules) => PurchaseReservesNothing(w.tables, id, a, rules);
      case CreateIncomingCall(s, d, date, inputs) => IncomingReservesNothing(w.tables, IncomingHeader(s, d, date), inputs);
      case _ =>
    }
  }

  lemma ElsewhereKeepsStock(w: World, c: Call, k: StockKey)
    requires Runs(w, c) && StockHeld(w, k)
    ensures OnHand(Step(w.tables, c).stock, k) == OnHand(w.tables.stock, k)
  {
  }

  lemma NewProductsAreNew(products: map<int, Product>, kind: TransactionKind, a: Approval, rules: NameRules)
    requires LinesOk(products, kind, a, rules)
    ensures products.Keys !! NewProducts(a, |a.items|).Keys
  {
    forall p <- products ensures p !in NewProducts(a, |a.items|) {
      if a.firstNewId <= p < a.firstNewId + |a.items| {
        assert LineOk(products, kind, a, p - a.firstNewId, rules);
      }
    }
  }

  lemma ApprovalKeepsCatalogue(t: Tables, id: nat, a: Approval, rules: NameRules)
    requires ApproveAllowed(t, id, a, rules)
    ensures CatalogueKept(t, AfterApprove(t, id, a))
  {
    NewProductsAreNew(t.products, t.reviews[id].kind, a, rules);
  }

  lemma ElsewhereKeepsCatalogue(w: World, c: Call)
    requires Runs(w, c) && CatalogueInUse(w)
    ensures CatalogueKept(w.tables, Step(w.tables, c))
  {
    if c.ApproveCall? {
      if ApproveAllowed(w.tables, c.reviewId, c.approval, c.rules) {
        ApprovalKeepsCatalogue(w.tables, c.reviewId, c.approval, c.rules);
      }
    }
  }

  lemma ElsewhereSpares(w: World, c: Call, i: nat)
    requires Runs(w, c) && i < |w.callers| && w.callers[i].phase.Holding? && HolderOk(w.tables, w.callers[i])
    ensures Spares(w.tables, Step(w.tables, c), w.callers[i])
  {
    var other := w.callers[i];
    ElsewhereKeepsTarget(w, c, TargetOf(other.intent));
    ElsewhereKeepsReservations(w, c);
    forall k <- other.writes ensures OnHand(Step(w.tables, c).stock, k) == OnHand(w.tables.stock, k) {
      ElsewhereKeepsStock(w, c, k);
    }
    if UsesCatalogue(other.intent) {
      ElsewhereKeepsCatalogue(w, c);
    }
  }

  lemma ElsewhereKeepsCallers(w: World, c: Call)
    requires LocksOk(w) && Runs(w, c)
    ensures LocksOk(Perform(w, Elsewhere(c)))
  {
    var after := Step(w.tables, c);
    forall i | 0 <= i < |w.callers| ensures CallerOk(after, w.callers[i]) && WonOk(after, w.callers[i]) {
      assert CallerOk(w.tables, w.callers[i]) && WonOk(w.tables, w.callers[i]);
      if w.callers[i].phase.Holding? {
        ElsewhereSpares(w, c, i);
        HolderUndisturbed(w.tables, after, w.callers[i]);
      } else if Won(w.callers[i]) {
        StepOnTransaction(w.tables, c, w.callers[i].intent.id);
      }
    }
  }

  lemma ElsewhereOk(w: World, c: Call)
    requires WorldOk(w) && Enabled(w, Elsewhere(c))
    ensures WorldOk(Perform(w, Elsewhere(c)))
  {
    StepSound(w.tables, c);
    ElsewhereKeepsCallers(w, c);
  }

  lemma PerformOk(w: World, e: Event)
    requires WorldOk(w)
    ensures WorldOk(Perform(w, e))
  {
    if Enabled(w, e) {
      match e {
        case Begin(intent) => BeginOk(w, intent);
        case Claim(j) => ClaimOk(w, j);
        case Lock(j) => LockOk(w, j);
        case Check(j) => CheckOk(w, j);
        case Commit(j) => CommitOk(w, j);
        case Abort(j) => EndOk(w, j);
        case Elsewhere(c) => ElsewhereOk(w, c);
      }
    }
  }

  /** Nothing is committed, or one successful call. */
  ghost predicate SerialStep(before: World, after: World) {
    || (after.history == before.history && after.tables == before.tables)
    || (exists c :: after.history == before.history + [c] && Effect(before.tables, c) == Some(after.tables))
  }

  /** One event changes the committed state as the calls it adds to the history do. */
  lemma PerformIsSerial(w: World, e: Event)
    requires WorldOk(w)
    ensures SerialStep(w, Perform(w, e))
  {
    if Enabled(w, e) && e.Commit? {
      assert CallerOk(w.tables, w.callers[e.j]);
      CommitIsSerial(w.tables, w.callers[e.j]);
    }
  }

  // ---- main results -------------------------------------------------------

  /** Every call of the history went through in the state it met. */
  predicate AllServed(t: Tables, history: seq<Call>) {
    forall n :: 0 <= n < |history| ==> Effect(Run(t, history[..n]), history[n]).Some?
  }

  /** Every interleaving: the committed state is that of running the committed
      calls one after another, in commit order, each of them succeeding; and at
      most one complete() or cancel() of a transaction commits. */
  lemma {:induction false} InterleavingsAreSerial(t: Tables, events: seq<Event>)
    requires Sound(t)
    ensures
      var w := PerformAll(Start(t), events);
      WorldOk(w) && w.tables == Run(t, w.history) && AllServed(t, w.history)
  {
    if events != [] {
      var before := PerformAll(Start(t), events[..|events| - 1]);
      InterleavingsAreSerial(t, events[..|events| - 1]);
      PerformOk(before, events[|events| - 1]);
      PerformIsSerial(before, events[|events| - 1]);
      HistoryGrows(t, before, PerformAll(Start(t), events));
    }
  }

  lemma HistoryGrows(t: Tables, before: World, after: World)
    requires before.tables == Run(t, before.history) && AllServed(t, before.history)
    requires SerialStep(before, after)
    ensures after.tables == Run(t, after.history) && AllServed(t, after.history)
  {
    if after.history != before.history {
      var c :| after.history == before.history + [c] && Effect(before.tables, c) == Some(after.tables);
      OneMoreServed(t, before.history, c);
    }
  }

  lemma OneMoreServed(t: Tables, history: seq<Call>, c: Call)
    requires AllServed(t, history) && Effect(Run(t, history), c).Some?
    ensures Run(t, history + [c]) == Effect(Run(t, history), c).value && AllServed(t, history + [c])
  {
    var h := history + [c];
    assert h[..|h| - 1] == history;
    forall n | 0 <= n < |h| ensures Effect(Run(t, h[..n]), h[n]).Some? {
      assert h[..n] == history[..n];
      assert n == |history| ==> history[..n] == history;
    }
  }

  /** So in every interleaving a transaction's movements are in the ledger exactly
      once when it is COMPLETED and never otherwise. */
  lemma InterleavedMovementsOnce(t: Tables, events: seq<Event>, id: nat)
    requires Sound(t) && id < |PerformAll(Start(t), events).tables.transactions|
    ensures
      var now := PerformAll(Start(t), events).tables;
      var tx := now.transactions[id];
      |PostedBy(now.ledger, id)| ==
        if tx.status != Completed then 0 else if tx.kind == Transfer then 2 * |tx.items| else |tx.items|
  {
    InterleavingsAreSerial(t, events);
    MovementsOnce(t, PerformAll(Start(t), events).history, id);
  }

  /** No interleaving oversells a row: unless an adjustment writes off promised stock,
      no row ever promises more than it holds. */
  lemma NoOverselling(t: Tables, events: seq<Event>)
    requires Sound(t) && Covered(t) && ConsiderateRun(t, PerformAll(Start(t), events).history)
    ensures Covered(PerformAll(Start(t), events).tables)
    ensures forall k :: Available(PerformAll(Start(t), events).tables, k) >= 0
  {
    InterleavingsAreSerial(t, events);
    var w := PerformAll(Start(t), events);
    RunCovered(t, w.history);
    forall k ensures Available(w.tables, k) >= 0 {
      assert Reserved(w.tables.reservations, k) <= OnHand(w.tables.stock, k);
    }
  }

  lemma PostingsNeverShort(t: Tables, id: nat, n: nat)
    requires Sound(t) && Covered(t) && IsPending(t, id) && n < |PostingOrder(t.transactions[id], id)|
    ensures
      var m := PostingOrder(t.transactions[id], id)[n];
      OnHand(t.stock, KeyOf(m)) + Delta(m) >= 0
  {
    CoveredCompletes(t, id);
    assert TransactionOk(t, t.transactions[id]);
    PostingOrderAscends(t.transactions[id], id);
    ReplayOfDistinct(t.stock, PostingOrder(t.transactions[id], id));
  }

  lemma EnoughPasses(t: Tables, intent: Intent, touches: seq<Touch>, n: nat, writes: Stock)
    requires Claimable(t, intent) && Progress(t, intent, touches, n + 1, n, writes)
    requires touches[n].asks.None? && OnHand(t.stock, touches[n].row) + touches[n].delta >= 0
    ensures Passes(t, intent, touches[n], writes)
  {
    assert touches[n] in touches[..n + 1];
  }

  lemma PassingIsChecked(w: World, j: nat)
    requires Enabled(w, Check(j))
    requires Passes(w.tables, w.callers[j].intent, TouchOf(w, j, w.callers[j].phase.checked), w.callers[j].writes)
    ensures Perform(w, Check(j)).callers[j].phase.Holding?
  {
  }

  lemma CompletionPasses(t: Tables, c: Caller, ms: seq<Movement>)
    requires c.phase.Holding? && c.intent.Completing? && IsPending(t, c.intent.id)
    requires Along(t, c, Moves(ms)) && c.phase.checked < c.phase.taken
    requires OnHand(t.stock, KeyOf(ms[c.phase.checked])) + Delta(ms[c.phase.checked]) >= 0
    ensures Passes(t, c.intent, Moves(ms)[c.phase.checked], c.writes)
  {
    EnoughPasses(t, c.intent, Moves(ms), c.phase.checked, c.writes);
  }

  /** While rows are covered, a claimed completion never fails a check: it never rolls
      back for want of stock, whoever reserves or completes beside it. */
  lemma CompletionNeverShort(w: World, j: nat)
    requires WorldOk(w) && Covered(w.tables) && Enabled(w, Check(j)) && w.callers[j].intent.Completing?
    ensures Perform(w, Check(j)).callers[j].phase.Holding?
  {
    var c := w.callers[j];
    assert CallerOk(w.tables, c);
    PostingsNeverShort(w.tables, c.intent.id, c.phase.checked);
    CompletionPasses(w.tables, c, PostingOrder(w.tables.transactions[c.intent.id], c.intent.id));
    PassingIsChecked(w, j);
  }

  /** Whatever a reserving caller has checked on a row is still there for it, on top of
      everything promised to others, until it commits. */
  lemma CheckedStaysAvailable(t: Tables, events: seq<Event>, j: nat, n: nat)
    requires Sound(t) && j < |PerformAll(Start(t), events).callers|
    requires
      var c := PerformAll(Start(t), events).callers[j];
      c.phase.Holding? && n < c.phase.checked
    ensures
      var w := PerformAll(Start(t), events);
      && Owns(w, j) && n < |Touches(w.tables, w.callers[j].intent)|
      && var touch := TouchOf(w, j, n);
         touch.asks.Some? ==>
           touch.asks.value <= OnHand(w.tables.stock, touch.row) - Visible(w.tables, w.callers[j].intent, touch.row)
  {
    InterleavingsAreSerial(t, events);
    var w := PerformAll(Start(t), events);
    var c := w.callers[j];
    assert CallerOk(w.tables, c);
    AsksLeaveQuantity(w.tables, c.intent, n);
    PassedIsThere(w.tables, c.intent, Touches(w.tables, c.intent), c.phase.taken, c.phase.checked, c.writes, n);
  }

  lemma PassedIsThere(t: Tables, intent: Intent, touches: seq<Touch>, taken: nat, checked: nat, writes: Stock, n: nat)
    requires Claimable(t, intent) && Progress(t, intent, touches, taken, checked, writes) && n < checked
    requires touches[n].asks.Some? ==> touches[n].delta == 0
    ensures touches[n].asks.Some? ==>
              touches[n].asks.value <= OnHand(t.stock, touches[n].row) - Visible(t, intent, touches[n].row)
  {
    assert Passes(t, intent, touches[n], writes) && touches[n] in touches[..taken];
  }

  lemma AsksLeaveQuantity(t: Tables, intent: Intent, n: nat)
    requires Claimable(t, intent) && n < |Touches(t, intent)|
    ensures Touches(t, intent)[n].asks.Some? ==> Touches(t, intent)[n].delta == 0
  {
  }
}
