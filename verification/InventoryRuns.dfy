/** Runs: any sequence of service calls, and what holds all along it. */
module InventoryRuns {
  import opened Wrappers
  import opened Text
  import opened StockOrder
  import opened StockLedger
  import opened ReservationRows
  import opened InventoryTables
  import opened DatabaseClient
  import opened StockMovements
  import opened PostingFacts
  import opened BackingFacts
  import opened StatePreservation
  import opened CompleteTransaction
  import opened CancelTransaction
  import opened CreateTransaction
  import opened UpdateTransaction
  import opened DocumentApproval

  datatype Call =
    | CreateIncomingCall(supplier: int, destination: int, expectedDate: Option<int>, inputs: seq<ItemInput>)
    | CreateOutgoingCall(source: int, expectedDate: Option<int>, inputs: seq<ItemInput>)
    | CreateTransferCall(source: int, destination: int, expectedDate: Option<int>, inputs: seq<ItemInput>)
    | CompleteCall(id: nat)
    | CancelCall(id: nat)
    | UpdateCall(id: nat, input: UpdateInput)
    | ReceiveDocument(kind: TransactionKind)
    | ApproveCall(reviewId: nat, approval: Approval, rules: NameRules)
    | RejectCall(reviewId: nat, reason: string, reviewedBy: int)
    | AdjustCall(admin: bool, reason: string, productId: int, warehouseId: int, quantity: int)
    | PutProduct(productId: int, row: Product)
    | RemoveProduct(productId: int)
    | PutWarehouse(warehouseId: int, active: bool)
    | PutSupplier(supplierId: int, active: bool)

  function Created(t: Tables, header: Transaction, inputs: seq<ItemInput>): Option<Tables> {
    if CreateAllowed(t, header, inputs) && CreateFits(t, header, inputs)
    then Some(AfterCreate(t, header, inputs)) else None
  }

  /** What a call makes of a committed state; None when it throws. */
  function Effect(t: Tables, c: Call): Option<Tables> {
    match c
    case CreateIncomingCall(s, d, date, inputs) => Created(t, IncomingHeader(s, d, date), inputs)
    case CreateOutgoingCall(s, date, inputs) => Created(t, OutgoingHeader(s, date), inputs)
    case CreateTransferCall(s, d, date, inputs) => Created(t, TransferHeader(s, d, date), inputs)
    case CompleteCall(id) =>
      if IsPending(t, id) && Replay(t.stock, PostingOrder(t.transactions[id], id)).Some?
      then Some(AfterComplete(t, id)) else None
    case CancelCall(id) => if IsPending(t, id) then Some(AfterCancel(t, id)) else None
    case UpdateCall(id, input) =>
      if IsPending(t, id) && UpdateAllowed(t, t.transactions[id], input) && UpdateFits(t, id, input)
      then Some(AfterUpdate(t, id, input)) else None
    case ReceiveDocument(kind) =>
      Some(t.(reviews := t.reviews + [Review(kind, PendingReview, None, None, None)]))
    case ApproveCall(id, a, rules) => if ApproveAllowed(t, id, a, rules) then Some(AfterApprove(t, id, a)) else None
    case RejectCall(id, reason, reviewer) =>
      if !Blank(reason) && AwaitsReview(t, id) then Some(AfterReject(t, id, reason, reviewer)) else None
    case AdjustCall(admin, reason, p, w, q) =>
      if && AdjustAllowed(admin, reason) && q != 0
         && RowsExist(t, AdjustmentOf(p, w, q)) && OnHand(t.stock, StockKey(w, p)) + q >= 0
      then Some(AfterAdjust(t, p, w, q)) else None
    case PutProduct(p, row) => Some(t.(products := t.products[p := row]))
    case RemoveProduct(p) => if p in t.products then Some(WithoutProduct(t, p)) else None
    case PutWarehouse(w, active) => Some(t.(warehouses := t.warehouses[w := active]))
    case PutSupplier(s, active) => Some(t.(suppliers := t.suppliers[s := active]))
  }

  /** A call that throws is rolled back. */
  function Step(t: Tables, c: Call): Tables {
    Or(Effect(t, c), t)
  }

  function Run(t: Tables, calls: seq<Call>): Tables {
    if calls == [] then t else Step(Run(t, calls[..|calls| - 1]), calls[|calls| - 1])
  }

  /** The services do exactly what Step says; a catalogue screen's or an upload's
      single write is made as it stands. */
  method Serve(db: Database, c: Call) returns (ok: bool)
    requires Sound(db.Snapshot())
    modifies db
    ensures db.Snapshot() == Step(old(db.Snapshot()), c)
    ensures ok <==> Effect(old(db.Snapshot()), c).Some?
  {
    match c {
      case CreateIncomingCall(_, _, _, _) =>
        ok := ServeCreate(db, c);
      case CreateOutgoingCall(_, _, _) =>
        ok := ServeCreate(db, c);
      case CreateTransferCall(_, _, _, _) =>
        ok := ServeCreate(db, c);
      case CompleteCall(id) =>
        ok := ServeComplete(db, id);
      case CancelCall(id) =>
        var r := Cancel(db, id);
        ok := r.Ok?;
      case UpdateCall(id, input) =>
        var r := Update(db, id, input);
        ok := r.Ok?;
      case AdjustCall(admin, reason, p, w, q) =>
        var r := AdjustInventory(db, admin, reason, p, w, q);
        ok := r.Ok?;
      case ApproveCall(_, _, _) =>
        ok := ServeReview(db, c);
      case RejectCall(_, _, _) =>
        ok := ServeReview(db, c);
      case _ =>
        ok := Effect(db.Snapshot(), c).Some?;
        db.Restore(Step(db.Snapshot(), c));
    }
  }

  method ServeCreate(db: Database, c: Call) returns (ok: bool)
    requires Sound(db.Snapshot()) && (c.CreateIncomingCall? || c.CreateOutgoingCall? || c.CreateTransferCall?)
    modifies db
    ensures db.Snapshot() == Step(old(db.Snapshot()), c)
    ensures ok <==> Effect(old(db.Snapshot()), c).Some?
  {
    match c {
      case CreateIncomingCall(s, d, date, inputs) =>
        var r := CreateIncoming(db, s, d, date, inputs);
        ok := r.Ok?;
      case CreateOutgoingCall(s, date, inputs) =>
        var r := CreateOutgoing(db, s, date, inputs);
        ok := r.Ok?;
      case CreateTransferCall(s, d, date, inputs) =>
        var r := CreateTransfer(db, s, d, date, inputs);
        ok := r.Ok?;
    }
  }

  method ServeReview(db: Database, c: Call) returns (ok: bool)
    requires c.ApproveCall? || c.RejectCall?
    modifies db
    ensures db.Snapshot() == Step(old(db.Snapshot()), c)
    ensures ok <==> Effect(old(db.Snapshot()), c).Some?
  {
    match c {
      case ApproveCall(id, a, rules) =>
        var r := Approve(db, id, a, rules);
        ok := r.Ok?;
      case RejectCall(id, reason, reviewer) =>
        var r := Reject(db, id, reason, reviewer);
        ok := r.Ok?;
    }
  }

  method ServeComplete(db: Database, id: nat) returns (ok: bool)
    requires Sound(db.Snapshot())
    modifies db
    ensures db.Snapshot() == Step(old(db.Snapshot()), CompleteCall(id))
    ensures ok <==> Effect(old(db.Snapshot()), CompleteCall(id)).Some?
  {
    ghost var t := db.Snapshot();
    if id < |db.transactions| && db.transactions[id].status == Pending {
      SoundCondition(t, id);
    }
    var r := Complete(db, id);
    ok := r.Ok?;
  }

  // ---- every reachable state is sound ------------------------------------

  lemma AdjustSound(t: Tables, p: int, w: int, quantity: int)
    requires Sound(t) && OnHand(t.stock, StockKey(w, p)) + quantity >= 0
    ensures Sound(AfterAdjust(t, p, w, quantity))
  {
    var after := AfterAdjust(t, p, w, quantity);
    var m := AdjustmentOf(p, w, quantity);
    ReplayAppend(map[], t.ledger, m);
    AdjustPosts(t, p, w, quantity);
    AdjustBacked(t, p, w, quantity);
    ReviewsKept(t, after);
  }

  lemma AdjustBacked(t: Tables, p: int, w: int, quantity: int)
    requires AllBacked(t) && TransactionsOk(t)
    ensures AllBacked(AfterAdjust(t, p, w, quantity)) && TransactionsOk(AfterAdjust(t, p, w, quantity))
  {
    var after := AfterAdjust(t, p, w, quantity);
    forall i | 0 <= i < |t.transactions| ensures TransactionOk(after, after.transactions[i]) {
      TransactionKept(t, after, t.transactions[i], t.transactions[i].status);
    }
  }

  lemma AdjustPosts(t: Tables, p: int, w: int, quantity: int)
    requires AllPosted(t)
    ensures AllPosted(AfterAdjust(t, p, w, quantity))
  {
    var after := AfterAdjust(t, p, w, quantity);
    forall i | 0 <= i < |after.transactions| ensures Posted(after.transactions[i], i, after.ledger) {
      assert Posted(t.transactions[i], i, t.ledger);
      PostedConcat(t.ledger, [AdjustmentOf(p, w, quantity)], i);
      PostedNone([AdjustmentOf(p, w, quantity)], i);
    }
  }

  /** Catalogue changes that drop no row a transaction refers to. */
  lemma CatalogueSound(t: Tables, after: Tables)
    requires Sound(t)
    requires after == t.(products := after.products, warehouses := after.warehouses, suppliers := after.suppliers)
    requires forall i :: 0 <= i < |t.transactions| ==> Known(after, t.transactions[i])
    ensures Sound(after)
  {
    forall i | 0 <= i < |t.transactions| ensures TransactionOk(after, after.transactions[i]) {
      assert TransactionOk(t, t.transactions[i]);
    }
    ReviewsKept(t, after);
    assert AllBacked(after);
    assert AllPosted(after);
  }

  lemma StaysKnown(t: Tables, c: Call, tx: Transaction)
    requires Known(t, tx) && tx in t.transactions
    requires c.PutProduct? || c.RemoveProduct? || c.PutWarehouse? || c.PutSupplier?
    ensures Known(Step(t, c), tx)
  {
    if c.RemoveProduct? && c.productId in t.products && !ProductReferenced(t, c.productId) {
      assert forall item <- tx.items :: item.productId in ProductsOf(tx.items);
    }
  }

  lemma CatalogueStep(t: Tables, c: Call)
    requires Sound(t) && (c.PutProduct? || c.RemoveProduct? || c.PutWarehouse? || c.PutSupplier?)
    ensures Sound(Step(t, c))
  {
    var after := Step(t, c);
    forall i | 0 <= i < |t.transactions| ensures Known(after, t.transactions[i]) {
      assert TransactionOk(t, t.transactions[i]);
      StaysKnown(t, c, t.transactions[i]);
    }
    CatalogueSound(t, after);
  }

  lemma ReceiveSound(t: Tables, kind: TransactionKind)
    requires Sound(t)
    ensures Sound(Step(t, ReceiveDocument(kind)))
  {
    var after := Step(t, ReceiveDocument(kind));
    forall i | 0 <= i < |after.reviews| ensures ReviewOk(after, after.reviews[i]) {
      assert i < |t.reviews| ==> ReviewOk(t, t.reviews[i]);
    }
    SameButReviews(t, after);
  }

  /** Every call takes a sound state to a sound state. */
  lemma StepSound(t: Tables, c: Call)
    requires Sound(t)
    ensures Sound(Step(t, c))
  {
    if Effect(t, c).Some? {
      match c {
        case CreateIncomingCall(s, d, date, inputs) => CreateSound(t, IncomingHeader(s, d, date), inputs);
        case CreateOutgoingCall(s, date, inputs) => CreateSound(t, OutgoingHeader(s, date), inputs);
        case CreateTransferCall(s, d, date, inputs) => CreateSound(t, TransferHeader(s, d, date), inputs);
        case CompleteCall(id) => CompleteSound(t, id);
        case CancelCall(id) => CancelSound(t, id);
        case UpdateCall(id, input) => UpdateSound(t, id, input);
        case ReceiveDocument(kind) => ReceiveSound(t, kind);
        case ApproveCall(id, a, rules) => ApproveSound(t, id, a, rules);
        case RejectCall(id, reason, reviewer) => RejectSound(t, id, reason, reviewer);
        case AdjustCall(_, _, p, w, q) => AdjustSound(t, p, w, q);
        case _ => CatalogueStep(t, c);
      }
    }
  }

  /** Reservations per item, ledger exactly once, stock equal to the ledger,
      distinct products, apart legs and priced purchases hold in every state
      any run reaches. */
  lemma {:induction false} RunSound(t: Tables, calls: seq<Call>)
    requires Sound(t)
    ensures Sound(Run(t, calls))
  {
    if calls != [] {
      RunSound(t, calls[..|calls| - 1]);
      StepSound(Run(t, calls[..|calls| - 1]), calls[|calls| - 1]);
    }
  }

  // ---- available stock never goes negative, but for adjustments -----------

  /** An adjustment keeps every row able to honour its reservations exactly when
      the adjusted quantity still covers what is reserved on that row. */
  lemma AdjustmentCondition(t: Tables, p: int, w: int, quantity: int)
    requires Covered(t)
    ensures Covered(AfterAdjust(t, p, w, quantity))
       <==> OnHand(t.stock, StockKey(w, p)) + quantity >= Reserved(t.reservations, StockKey(w, p))
  {
    var after := AfterAdjust(t, p, w, quantity);
    var k := StockKey(w, p);
    if Covered(after) {
      assert Reserved(after.reservations, k) <= OnHand(after.stock, k);
    }
    if OnHand(t.stock, k) + quantity >= Reserved(t.reservations, k) {
      forall j ensures Reserved(after.reservations, j) <= OnHand(after.stock, j) {
        assert Reserved(t.reservations, j) <= OnHand(t.stock, j);
      }
    }
  }

  /** Not a downward adjustment into reserved stock. */
  predicate Considerate(t: Tables, c: Call) {
    c.AdjustCall? ==>
      OnHand(t.stock, StockKey(c.warehouseId, c.productId)) + c.quantity
        >= Reserved(t.reservations, StockKey(c.warehouseId, c.productId))
  }

  lemma NewCovered(t: Tables, c: Call)
    requires Sound(t) && Covered(t) && Effect(t, c).Some?
    requires c.CreateIncomingCall? || c.CreateOutgoingCall? || c.CreateTransferCall?
    ensures Covered(Step(t, c))
  {
    match c {
      case CreateIncomingCall(s, d, date, inputs) => CreateCovered(t, IncomingHeader(s, d, date), inputs);
      case CreateOutgoingCall(s, date, inputs) => CreateCovered(t, OutgoingHeader(s, date), inputs);
      case CreateTransferCall(s, d, date, inputs) => CreateCovered(t, TransferHeader(s, d, date), inputs);
    }
  }

  lemma StepCovered(t: Tables, c: Call)
    requires Sound(t) && Covered(t) && Considerate(t, c)
    ensures Covered(Step(t, c))
  {
    if Effect(t, c).Some? {
      match c {
        case CreateIncomingCall(_, _, _, _) => NewCovered(t, c);
        case CreateOutgoingCall(_, _, _) => NewCovered(t, c);
        case CreateTransferCall(_, _, _, _) => NewCovered(t, c);
        case CompleteCall(id) => CompleteCovered(t, id);
        case CancelCall(id) => CancelCovered(t, id);
        case UpdateCall(id, input) => UpdateCovered(t, id, input);
        case ApproveCall(id, a, rules) => ApproveCovered(t, id, a, rules);
        case AdjustCall(_, _, p, w, q) => AdjustmentCondition(t, p, w, q);
        case _ => SameRowsCovered(t, Step(t, c));
      }
    }
  }

  lemma SameRowsCovered(t: Tables, after: Tables)
    requires Covered(t) && after.reservations == t.reservations && after.stock == t.stock
    ensures Covered(after)
  {
    forall k ensures Reserved(after.reservations, k) <= OnHand(after.stock, k) {
      assert Reserved(t.reservations, k) <= OnHand(t.stock, k);
    }
  }

  /** Every call of the run is considerate in the state it meets. */
  predicate ConsiderateRun(t: Tables, calls: seq<Call>) {
    forall n :: 0 <= n < |calls| ==> Considerate(Run(t, calls[..n]), calls[n])
  }

  lemma {:induction false} RunCovered(t: Tables, calls: seq<Call>)
    requires Sound(t) && Covered(t) && ConsiderateRun(t, calls)
    ensures Covered(Run(t, calls))
  {
    if calls != [] {
      var front := calls[..|calls| - 1];
      forall n | 0 <= n < |front| ensures Considerate(Run(t, front[..n]), front[n]) {
        assert front[..n] == calls[..n];
      }
      RunCovered(t, front);
      RunSound(t, front);
      assert Considerate(Run(t, calls[..|front|]), calls[|front|]);
      StepCovered(Run(t, front), calls[|front|]);
    }
  }

  /** In every state such a run reaches, available stock is non-negative and
      completing any PENDING transaction succeeds, however many other
      transactions reserve the same rows. */
  lemma PendingAlwaysCompletes(t: Tables, calls: seq<Call>, id: nat)
    requires Sound(t) && Covered(t) && ConsiderateRun(t, calls)
    ensures forall k :: Available(Run(t, calls), k) >= 0
    ensures Effect(Run(t, calls), CompleteCall(id)).Some? <==> IsPending(Run(t, calls), id)
  {
    var now := Run(t, calls);
    RunSound(t, calls);
    RunCovered(t, calls);
    forall k ensures Available(now, k) >= 0 {
      assert Reserved(now.reservations, k) <= OnHand(now.stock, k);
    }
    if IsPending(now, id) {
      CoveredCompletes(now, id);
    }
  }

  // ---- the way out: an adjustment into reserved stock ---------------------

  function StrandedOrder(k: StockKey, n: int): Transaction {
    Transaction(Outgoing, Pending, Some(k.warehouseId), None, None, None, [Item(0, k.productId, n, None)])
  }

  function Supply(k: StockKey, n: int): Movement {
    AdjustmentOf(k.productId, k.warehouseId, n)
  }

  /** `n` units in stock, all promised to one customer order. */
  function Promised(k: StockKey, n: int): Tables {
    Tables([StrandedOrder(k, n)], [Reservation(0, k.productId, k.warehouseId, n, Active)], [Supply(k, n)],
           map[k := n], map[k.productId := Product("lamp", true)], map[k.warehouseId := true], map[], [], 1)
  }

  lemma PromisedBooked(k: StockKey, n: int)
    requires n > 0
    ensures Booked(Promised(k, n))
  {
    ReplayAppend(map[], [], Supply(k, n));
    assert [] + [Supply(k, n)] == Promised(k, n).ledger;
    assert Post(map[], Supply(k, n)) == Some(map[k := n]);
  }

  lemma PromisedBacked(k: StockKey, n: int)
    ensures Backed(StrandedOrder(k, n), 0, Promised(k, n).reservations)
  {
    var rs := Promised(k, n).reservations;
    assert StrandedOrder(k, n).items[0].productId == k.productId;
    assert ActiveFor(rs[0], 0);
    assert HasActive(rs, 0, k.productId);
    assert Matches(rs[0], StrandedOrder(k, n));
  }

  lemma PromisedReserved(k: StockKey, n: int, j: StockKey)
    ensures Reserved(Promised(k, n).reservations, j) == if j == k then n else 0
  {
    assert Reserved(Promised(k, n).reservations[1..], j) == 0;
  }

  lemma PromisedSound(k: StockKey, n: int)
    requires n > 0
    ensures Sound(Promised(k, n))
  {
    var t := Promised(k, n);
    PromisedBooked(k, n);
    PromisedBacked(k, n);
    assert PostedBy(t.ledger, 0) == [] by { PostedNone(t.ledger, 0); }
    assert TransactionOk(t, StrandedOrder(k, n));
  }

  lemma PromisedCovered(k: StockKey, n: int)
    ensures Covered(Promised(k, n))
  {
    forall j ensures Reserved(Promised(k, n).reservations, j) <= OnHand(Promised(k, n).stock, j) {
      PromisedReserved(k, n, j);
    }
  }

  lemma CompletionServed(t: Tables, id: nat)
    requires Sound(t)
    ensures Effect(t, CompleteCall(id)).Some? <==> IsPending(t, id) && CompleteFits(t, id)
  {
    CompletionEffect(t, id);
    if IsPending(t, id) {
      SoundCondition(t, id);
    }
  }

  lemma CompletionEffect(t: Tables, id: nat)
    ensures Effect(t, CompleteCall(id)).Some? <==>
      IsPending(t, id) && Replay(t.stock, PostingOrder(t.transactions[id], id)).Some?
  {
  }

  /** Writing off more than a row can spare leaves an order on it stuck: the
      adjustment itself succeeds, the completion no longer does. */
  lemma WriteOffStrands(t: Tables, id: nat, item: Item, c: Call)
    requires Sound(t) && IsPending(t, id) && t.transactions[id].kind != Incoming
    requires item in t.transactions[id].items
    requires c.AdjustCall? && c.productId == item.productId && c.warehouseId == Leg(t.transactions[id].source)
    requires AdjustAllowed(c.admin, c.reason) && c.quantity < 0
    requires 0 <= OnHand(t.stock, StockKey(c.warehouseId, c.productId)) + c.quantity < item.quantity
    ensures Effect(t, c).Some?
    ensures IsPending(Step(t, c), id) && Effect(Step(t, c), CompleteCall(id)).None?
  {
    assert TransactionOk(t, t.transactions[id]);
    StepSound(t, c);
    AdjustServed(t, c);
    StuckIn(Step(t, c), id, item);
  }

  lemma AdjustServed(t: Tables, c: Call)
    requires c.AdjustCall? && Effect(t, c).Some?
    ensures Step(t, c) == AfterAdjust(t, c.productId, c.warehouseId, c.quantity)
  {
  }

  lemma StuckIn(t: Tables, id: nat, item: Item)
    requires Sound(t) && IsPending(t, id) && t.transactions[id].kind != Incoming
    requires item in t.transactions[id].items
    requires OnHand(t.stock, StockKey(Leg(t.transactions[id].source), item.productId)) < item.quantity
    ensures Effect(t, CompleteCall(id)).None?
  {
    Unfit(t, id, item);
    CompletionServed(t, id);
  }

  lemma Unfit(t: Tables, id: nat, item: Item)
    requires id < |t.transactions| && t.transactions[id].kind != Incoming
    requires item in t.transactions[id].items
    requires OnHand(t.stock, StockKey(Leg(t.transactions[id].source), item.productId)) < item.quantity
    ensures !CompleteFits(t, id)
  {
  }

  // ---- a run that gets there ----------------------------------------------

  function Catalogue(k: StockKey): Tables {
    Tables([], [], [], map[], map[k.productId := Product("lamp", true)], map[k.warehouseId := true], map[], [], 0)
  }

  function Stocked(k: StockKey, n: int): Tables {
    Catalogue(k).(ledger := [Supply(k, n)], stock := map[k := n])
  }

  lemma CatalogueReached(k: StockKey)
    ensures Step(Step(EmptyTables(), PutProduct(k.productId, Product("lamp", true))), PutWarehouse(k.warehouseId, true)) == Catalogue(k)
  {
  }

  lemma StockReached(k: StockKey, n: int, reason: string)
    requires n > 0 && !Blank(reason)
    ensures Step(Catalogue(k), AdjustCall(true, reason, k.productId, k.warehouseId, n)) == Stocked(k, n)
  {
    assert Catalogue(k).ledger + [Supply(k, n)] == [Supply(k, n)];
  }

  function Wanted(k: StockKey, n: int): seq<ItemInput> {
    [ItemInput(k.productId, n, None)]
  }

  lemma OrderAllowed(k: StockKey, n: int)
    requires k.productId > 0 && n > 0
    ensures CreateAllowed(Stocked(k, n), OutgoingHeader(k.warehouseId, None), Wanted(k, n))
    ensures CreateFits(Stocked(k, n), OutgoingHeader(k.warehouseId, None), Wanted(k, n))
  {
  }

  lemma OrderItems(k: StockKey, n: int)
    ensures OutgoingHeader(k.warehouseId, None).(items := NewItems(Wanted(k, n), 0)) == StrandedOrder(k, n)
    ensures NewReservations(StrandedOrder(k, n), 0) == Promised(k, n).reservations
  {
    assert NewItems(Wanted(k, n), 0) == StrandedOrder(k, n).items;
    var rs := RequestsOf(StrandedOrder(k, n), 0);
    assert rs == Promised(k, n).reservations;
    assert multiset(SortByKey(RowOf, rs)) == multiset(rs);
    assert SortByKey(RowOf, rs)[0] in multiset(rs);
  }

  lemma OrderMade(k: StockKey, n: int)
    ensures AfterCreate(Stocked(k, n), OutgoingHeader(k.warehouseId, None), Wanted(k, n)) == Promised(k, n)
  {
    OrderItems(k, n);
    assert Stocked(k, n).transactions + [StrandedOrder(k, n)] == Promised(k, n).transactions;
    assert Stocked(k, n).reservations + Promised(k, n).reservations == Promised(k, n).reservations;
  }

  lemma OrderReached(k: StockKey, n: int)
    requires k.productId > 0 && n > 0
    ensures Step(Stocked(k, n), CreateOutgoingCall(k.warehouseId, None, Wanted(k, n))) == Promised(k, n)
  {
    OrderAllowed(k, n);
    OrderMade(k, n);
  }

  lemma RunOfFour(t: Tables, a: Call, b: Call, c: Call, d: Call)
    ensures Run(t, [a, b, c, d]) == Step(Step(Step(Step(t, a), b), c), d)
  {
    RunAppends(t, [], a);
    RunAppends(t, [a], b);
    RunAppends(t, [a, b], c);
    RunAppends(t, [a, b, c], d);
    assert [] + [a] == [a] && [a] + [b] == [a, b] && [a, b] + [c] == [a, b, c] && [a, b, c] + [d] == [a, b, c, d];
  }

  lemma RunAppends(t: Tables, calls: seq<Call>, c: Call)
    ensures Run(t, calls + [c]) == Step(Run(t, calls), c)
  {
    assert (calls + [c])[..|calls|] == calls;
  }

  /** Registering a product and a warehouse, stocking `n` units and selling them
      all leads from the empty database to `Promised`. */
  lemma PromisedReached(k: StockKey, n: int, reason: string)
    requires k.productId > 0 && n > 0 && !Blank(reason)
    ensures Run(EmptyTables(), [
              PutProduct(k.productId, Product("lamp", true)),
              PutWarehouse(k.warehouseId, true),
              AdjustCall(true, reason, k.productId, k.warehouseId, n),
              CreateOutgoingCall(k.warehouseId, None, Wanted(k, n))]) == Promised(k, n)
  {
    RunOfFour(EmptyTables(),
      PutProduct(k.productId, Product("lamp", true)),
      PutWarehouse(k.warehouseId, true),
      AdjustCall(true, reason, k.productId, k.warehouseId, n),
      CreateOutgoingCall(k.warehouseId, None, Wanted(k, n)));
    CatalogueReached(k);
    StockReached(k, n, reason);
    OrderReached(k, n);
  }

  lemma PromisedCompletes(k: StockKey, n: int)
    requires n > 0
    ensures Effect(Promised(k, n), CompleteCall(0)).Some?
  {
    PromisedSound(k, n);
    PromisedCovered(k, n);
    CoveredCompletes(Promised(k, n), 0);
    CompletionEffect(Promised(k, n), 0);
  }

  lemma WrittenOff(k: StockKey, n: int, reason: string, lost: int)
    requires 0 < lost <= n && !Blank(reason)
    ensures
      var c := AdjustCall(true, reason, k.productId, k.warehouseId, -lost);
      && Effect(Promised(k, n), c).Some? && Step(Promised(k, n), c) == AfterAdjust(Promised(k, n), k.productId, k.warehouseId, -lost)
  {
  }

  lemma WrittenOffUncovered(k: StockKey, n: int, lost: int)
    requires 0 < lost
    ensures !Covered(AfterAdjust(Promised(k, n), k.productId, k.warehouseId, -lost))
  {
    var after := AfterAdjust(Promised(k, n), k.productId, k.warehouseId, -lost);
    PromisedReserved(k, n, k);
    assert Reserved(after.reservations, k) > OnHand(after.stock, k);
  }

  lemma WrittenOffStuck(k: StockKey, n: int, lost: int)
    requires 0 < lost <= n
    requires Sound(AfterAdjust(Promised(k, n), k.productId, k.warehouseId, -lost))
    ensures Effect(AfterAdjust(Promised(k, n), k.productId, k.warehouseId, -lost), CompleteCall(0)).None?
  {
    var after := AfterAdjust(Promised(k, n), k.productId, k.warehouseId, -lost);
    StuckIn(after, 0, after.transactions[0].items[0]);
  }

  /** A PENDING order that can no longer be completed, reached from the empty database:
      four ordinary calls promise all `n` units of a row to one order, which could then be
      completed; writing off any of those units succeeds and leaves the order stuck. */
  lemma AdjustmentCanStrand(k: StockKey, n: int, reason: string, lost: int)
    requires k.productId > 0 && 0 < lost <= n && !Blank(reason)
    ensures
      var before := Run(EmptyTables(), [
        PutProduct(k.productId, Product("lamp", true)),
        PutWarehouse(k.warehouseId, true),
        AdjustCall(true, reason, k.productId, k.warehouseId, n),
        CreateOutgoingCall(k.warehouseId, None, Wanted(k, n))]);
      var writeOff := AdjustCall(true, reason, k.productId, k.warehouseId, -lost);
      && Sound(before) && Covered(before) && Effect(before, CompleteCall(0)).Some?
      && Effect(before, writeOff).Some? && IsPending(Step(before, writeOff), 0)
      && !Covered(Step(before, writeOff)) && Effect(Step(before, writeOff), CompleteCall(0)).None?
  {
    var writeOff := AdjustCall(true, reason, k.productId, k.warehouseId, -lost);
    PromisedReached(k, n, reason);
    PromisedSound(k, n);
    PromisedCovered(k, n);
    PromisedCompletes(k, n);
    WrittenOff(k, n, reason, lost);
    StepSound(Promised(k, n), writeOff);
    WrittenOffUncovered(k, n, lost);
    WrittenOffStuck(k, n, lost);
  }
}
