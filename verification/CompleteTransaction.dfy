/** InventoryTransactionsService.complete() and the methods behind it. The
    public method runs one database transaction; the *WithClient method
    writes into the caller's. */
module CompleteTransaction {
  import opened Wrappers
  import opened StockOrder
  import opened StockLedger
  import opened ReservationRows
  import opened InventoryTables
  import opened DatabaseClient
  import opened StockMovements
  import opened Reservations
  import opened PostingFacts
  import opened BackingFacts
  import opened StatePreservation
  import opened CompletionSteps

  // ---- complete ----------------------------------------------------------

  /** Completes a PENDING transaction, all or nothing: it succeeds exactly when
      the row is PENDING and every outgoing leg is physically there. */
  method Complete(db: Database, id: nat) returns (r: Result<Unit, Error>)
    requires Sound(db.Snapshot())
    modifies db
    ensures CompleteOutcome(old(db.Snapshot()), id, r, db.Snapshot())
    ensures r.Err? ==> db.Snapshot() == old(db.Snapshot())
  {
    var saved := db.Snapshot();
    r := CompleteWithClient(db, id);
    if r.Err? {
      db.Restore(saved);
    }
  }

  /** The outcome of complete(): an exception tells why, a success leaves AfterComplete. */
  predicate CompleteOutcome(t: Tables, id: nat, r: Result<Unit, Error>, after: Tables) {
    && (r.Ok? <==> IsPending(t, id) && CompleteFits(t, id))
    && (r.Ok? ==> Replay(t.stock, PostingOrder(t.transactions[id], id)).Some? && after == AfterComplete(t, id))
    && (r.Err? ==> r.error == if id < |t.transactions| then Conflict else NotFound)
  }

  method CompleteWithClient(tx: Database, id: nat) returns (r: Result<Unit, Error>)
    requires Sound(tx.Snapshot())
    modifies tx
    ensures CompleteOutcome(old(tx.Snapshot()), id, r, tx.Snapshot())
  {
    if id >= |tx.transactions| { return Err(NotFound); }
    if tx.transactions[id].status != Pending { return Err(Conflict); }
    ghost var t0 := tx.Snapshot();
    SoundIsReady(t0, id);
    SoundCondition(t0, id);
    MidwayStart(t0, id);
    tx.transactions := tx.transactions[id := tx.transactions[id].(status := TransactionStatus.Completed)];
    r := CompleteByKind(tx, id, t0);
    if r.Ok? {
      MidwayEnd(t0, tx.Snapshot(), id);
    }
  }

  lemma SoundCondition(t: Tables, id: nat)
    requires Sound(t) && IsPending(t, id)
    ensures Replay(t.stock, PostingOrder(t.transactions[id], id)).Some? <==> CompleteFits(t, id)
  {
    CompletionCondition(t, id);
  }

  method CompleteByKind(tx: Database, id: nat, ghost t0: Tables) returns (r: Result<Unit, Error>)
    requires Ready(t0, id)
    requires Midway(t0, tx.Snapshot(), id, [])
    modifies tx
    ensures r.Ok? <==> Replay(t0.stock, PostingOrder(t0.transactions[id], id)).Some?
    ensures r.Ok? ==> Midway(t0, tx.Snapshot(), id, PostingOrder(t0.transactions[id], id))
    ensures r.Err? ==> r.error == Conflict
  {
    MidwayFrame(t0, tx.Snapshot(), id, []);
    match tx.transactions[id].kind {
      case Incoming => r := CompleteIncoming(tx, id, t0);
      case Outgoing => r := CompleteOutgoing(tx, id, t0);
      case Transfer => r := CompleteTransfer(tx, id, t0);
    }
  }

  /** One recordMovement() of a completion: the next posting is made, or the
      completion cannot go through. */
  method RecordNext(tx: Database, id: nat, m: Movement, ghost t0: Tables, ghost ms: seq<Movement>, ghost n: nat)
    returns (r: Result<Unit, Error>)
    requires n < |ms| && m == ms[n] && !Outbound(m) && QuantityOk(m) && RowsExist(t0, m)
    requires Midway(t0, tx.Snapshot(), id, ms[..n])
    modifies tx
    ensures r.Ok? ==> Midway(t0, tx.Snapshot(), id, ms[..n + 1])
    ensures r.Err? ==> r.error == Conflict && Replay(t0.stock, ms).None?
  {
    ghost var t := tx.Snapshot();
    MidwayFrame(t0, t, id, ms[..n]);
    assert RowsExist(t, m);
    r := RecordMovement(tx, m);
    if r.Err? {
      StuckMeansUnfit(t0.stock, ms, n);
    } else {
      MidwayRecord(t0, t, id, ms[..n], m, tx.Snapshot());
      assert ms[..n + 1] == ms[..n] + [m];
    }
  }

  /** One fulfill() of a completion, of the reservation behind the next posting. */
  method FulfillNext(tx: Database, id: nat, row: nat, ghost t0: Tables, ghost ms: seq<Movement>, ghost n: nat, ghost item: Item)
    returns (r: Result<Unit, Error>)
    requires Ready(t0, id) && t0.transactions[id].kind != Incoming
    requires item in t0.transactions[id].items
    requires n < |ms| && ms[n] == Legs(t0.transactions[id], id, item)[0]
    requires item.productId !in OutProducts(ms[..n])
    requires Midway(t0, tx.Snapshot(), id, ms[..n])
    requires row < |t0.reservations| && ActiveFor(t0.reservations[row], id)
    requires t0.reservations[row].productId == item.productId
    modifies tx
    ensures r.Ok? ==> Midway(t0, tx.Snapshot(), id, ms[..n + 1])
    ensures r.Err? ==> r.error == Conflict && Replay(t0.stock, ms).None?
  {
    ghost var t := tx.Snapshot();
    FoundRow(t0, t, id, ms[..n], item, row);
    r := Fulfill(tx, row);
    if r.Err? {
      StuckMeansUnfit(t0.stock, ms, n);
    } else {
      MidwayFulfill(t0, t, id, ms[..n], item, row, ms[n], tx.Snapshot());
      assert ms[..n + 1] == ms[..n] + [ms[n]];
    }
  }

  method CompleteIncoming(tx: Database, id: nat, ghost t0: Tables) returns (r: Result<Unit, Error>)
    requires Ready(t0, id) && t0.transactions[id].kind == Incoming
    requires Midway(t0, tx.Snapshot(), id, [])
    modifies tx
    ensures r.Ok? <==> Replay(t0.stock, PostingOrder(t0.transactions[id], id)).Some?
    ensures r.Ok? ==> Midway(t0, tx.Snapshot(), id, PostingOrder(t0.transactions[id], id))
    ensures r.Err? ==> r.error == Conflict
  {
    MidwayFrame(t0, tx.Snapshot(), id, []);
    var destination := Leg(tx.transactions[id].destination);
    var sorted := SortByKey(ItemRow, tx.transactions[id].items);
    PurchaseInOrder(t0, id);
    r := RecordAll(tx, id, sorted, destination, t0, PostingOrder(t0.transactions[id], id));
  }

  /** The movement completeIncoming() makes for an item. */
  function Receipt(item: Item, destination: int, id: nat): Movement {
    Movement(item.productId, destination, IncomingMove, item.quantity, Some(id))
  }

  /** Receiving `item` is posting `ms[n]`. */
  predicate NextIn(t0: Tables, id: nat, item: Item, destination: int, ms: seq<Movement>, n: nat) {
    && n < |ms| && ms[n] == Receipt(item, destination, id)
    && QuantityOk(ms[n]) && RowsExist(t0, ms[n])
  }

  /** A purchase's postings are those of its items by product. */
  lemma PurchaseInOrder(t0: Tables, id: nat)
    requires Ready(t0, id) && t0.transactions[id].kind == Incoming
    ensures
      var sorted := SortByKey(ItemRow, t0.transactions[id].items);
      var ms := PostingOrder(t0.transactions[id], id);
      |sorted| == |ms| && forall n :: 0 <= n < |sorted| ==>
        NextIn(t0, id, sorted[n], Leg(t0.transactions[id].destination), ms, n)
  {
    var tx := t0.transactions[id];
    var sorted, ms := SortByKey(ItemRow, tx.items), PostingOrder(tx, id);
    PostingsPlausible(t0, id);
    ItemsInOrder(tx, id);
    SingleLegs(tx, id, sorted);
    forall n | 0 <= n < |sorted| ensures NextIn(t0, id, sorted[n], Leg(tx.destination), ms, n) {
      assert ms[n] in ms;
    }
  }

  /** The loop of completeIncoming(). */
  method RecordAll(tx: Database, id: nat, items: seq<Item>, destination: int, ghost t0: Tables, ghost ms: seq<Movement>)
    returns (r: Result<Unit, Error>)
    requires |items| == |ms| && forall n :: 0 <= n < |items| ==> NextIn(t0, id, items[n], destination, ms, n)
    requires Midway(t0, tx.Snapshot(), id, [])
    modifies tx
    ensures r.Ok? ==> Midway(t0, tx.Snapshot(), id, ms)
    ensures r.Err? ==> r.error == Conflict && Replay(t0.stock, ms).None?
  {
    assert ms[..0] == [];
    for n := 0 to |items|
      invariant Midway(t0, tx.Snapshot(), id, ms[..n])
    {
      assert NextIn(t0, id, items[n], destination, ms, n);
      r := RecordNext(tx, id, Receipt(items[n], destination, id), t0, ms, n);
      if r.Err? { return; }
    }
    assert ms[..|items|] == ms;
    return Ok(Unit.Unit);
  }

  /** `item`'s outbound posting is `ms[n]`, and none before it takes its product. */
  predicate NextOut(t0: Tables, id: nat, item: Item, ms: seq<Movement>, n: nat) {
    && id < |t0.transactions| && item in t0.transactions[id].items
    && n < |ms| && ms[n] == Legs(t0.transactions[id], id, item)[0]
    && item.productId !in OutProducts(ms[..n])
  }

  method CompleteOutgoing(tx: Database, id: nat, ghost t0: Tables) returns (r: Result<Unit, Error>)
    requires Ready(t0, id) && t0.transactions[id].kind == Outgoing
    requires Midway(t0, tx.Snapshot(), id, [])
    modifies tx
    ensures r.Ok? <==> Replay(t0.stock, PostingOrder(t0.transactions[id], id)).Some?
    ensures r.Ok? ==> Midway(t0, tx.Snapshot(), id, PostingOrder(t0.transactions[id], id))
    ensures r.Err? ==> r.error == Conflict
  {
    MidwayFrame(t0, tx.Snapshot(), id, []);
    var sorted := SortByKey(ItemRow, tx.transactions[id].items);
    SaleInOrder(t0, id);
    r := FulfillAll(tx, id, sorted, t0, PostingOrder(t0.transactions[id], id));
  }

  /** A sale's postings are those of its items by product, each not made before. */
  lemma SaleInOrder(t0: Tables, id: nat)
    requires Ready(t0, id) && t0.transactions[id].kind == Outgoing
    ensures
      var sorted := SortByKey(ItemRow, t0.transactions[id].items);
      var ms := PostingOrder(t0.transactions[id], id);
      |sorted| == |ms| && forall n :: 0 <= n < |sorted| ==> NextOut(t0, id, sorted[n], ms, n)
  {
    var tx := t0.transactions[id];
    var sorted := SortByKey(ItemRow, tx.items);
    ItemsInOrder(tx, id);
    SameElements(ItemRow, tx.items);
    SingleLegs(tx, id, sorted);
    forall n | 0 <= n < |sorted| ensures NextOut(t0, id, sorted[n], PostingOrder(tx, id), n) {
      assert sorted[n] in sorted;
      NotYetOut(tx, id, n);
    }
  }

  /** The loop of completeOutgoing(). */
  method FulfillAll(tx: Database, id: nat, items: seq<Item>, ghost t0: Tables, ghost ms: seq<Movement>)
    returns (r: Result<Unit, Error>)
    requires Ready(t0, id) && t0.transactions[id].kind != Incoming
    requires |items| == |ms| && forall n :: 0 <= n < |items| ==> NextOut(t0, id, items[n], ms, n)
    requires Midway(t0, tx.Snapshot(), id, [])
    modifies tx
    ensures r.Ok? ==> Midway(t0, tx.Snapshot(), id, ms)
    ensures r.Err? ==> r.error == Conflict && Replay(t0.stock, ms).None?
  {
    assert ms[..0] == [];
    for n := 0 to |items|
      invariant Midway(t0, tx.Snapshot(), id, ms[..n])
    {
      r := FulfillItem(tx, id, items[n], t0, ms, n);
      if r.Err? { return; }
    }
    assert ms[..|items|] == ms;
    return Ok(Unit.Unit);
  }

  /** findActiveReservationOrThrow() and fulfill() for one item of a sale. */
  method FulfillItem(tx: Database, id: nat, item: Item, ghost t0: Tables, ghost ms: seq<Movement>, ghost n: nat)
    returns (r: Result<Unit, Error>)
    requires Ready(t0, id) && t0.transactions[id].kind != Incoming
    requires NextOut(t0, id, item, ms, n) && Midway(t0, tx.Snapshot(), id, ms[..n])
    modifies tx
    ensures r.Ok? ==> Midway(t0, tx.Snapshot(), id, ms[..n + 1])
    ensures r.Err? ==> r.error == Conflict && Replay(t0.stock, ms).None?
  {
    PendingRow(t0, tx.Snapshot(), id, ms[..n], item);
    var reservation := FindActive(tx, id, item.productId);
    if reservation.None? { return Err(Conflict); }
    FoundRow(t0, tx.Snapshot(), id, ms[..n], item, reservation.value);
    r := FulfillNext(tx, id, reservation.value, t0, ms, n, item);
  }

  /** The fulfilment of an item's reservation. */
  method TransferOutOp(tx: Database, id: nat, item: Item, ghost t0: Tables) returns (out: Op)
    requires Ready(t0, id) && t0.transactions[id].kind == Transfer && item in t0.transactions[id].items
    requires Midway(t0, tx.Snapshot(), id, [])
    ensures OpBacked(t0, id, out) && out.item == item && out.movement == Legs(t0.transactions[id], id, item)[0]
  {
    ghost var t := tx.Snapshot();
    PendingRow(t0, t, id, [], item);
    var reservation := FindActive(tx, id, item.productId);
    FoundRow(t0, t, id, [], item, reservation.value);
    out := Op(item, FulfillMovement(tx.reservations[reservation.value], Transfer), reservation);
  }

  /** completeTransfer()'s list, before it is sorted. */
  method TransferOps(tx: Database, id: nat, ghost t0: Tables) returns (ops: seq<Op>)
    requires Ready(t0, id) && t0.transactions[id].kind == Transfer
    requires Midway(t0, tx.Snapshot(), id, [])
    ensures MovementsIn(ops) == Postings(t0.transactions[id], id)
    ensures forall op <- ops :: OpBacked(t0, id, op)
  {
    MidwayFrame(t0, tx.Snapshot(), id, []);
    var items := tx.transactions[id].items;
    ops := ListOps(tx, id, items, Leg(tx.transactions[id].destination), t0);
    assert items[..|items|] == items;
  }

  method ListOps(tx: Database, id: nat, items: seq<Item>, destination: int, ghost t0: Tables) returns (ops: seq<Op>)
    requires Ready(t0, id) && t0.transactions[id].kind == Transfer
    requires Midway(t0, tx.Snapshot(), id, [])
    requires items == t0.transactions[id].items && destination == Leg(t0.transactions[id].destination)
    ensures MovementsIn(ops) == PostingsOf(t0.transactions[id], id, items[..|items|])
    ensures forall op <- ops :: OpBacked(t0, id, op)
  {
    ops := [];
    for n := 0 to |items|
      invariant MovementsIn(ops) == PostingsOf(t0.transactions[id], id, items[..n])
      invariant forall op <- ops :: OpBacked(t0, id, op)
    {
      assert items[n] in items;
      var out := TransferOutOp(tx, id, items[n], t0);
      var into := Op(items[n], Movement(items[n].productId, destination, TransferIn, items[n].quantity, Some(id)), None);
      OneMoreItem(t0.transactions[id], id, n, ops, out, into);
      ops := ops + [out, into];
    }
  }

  method CompleteTransfer(tx: Database, id: nat, ghost t0: Tables) returns (r: Result<Unit, Error>)
    requires Ready(t0, id) && t0.transactions[id].kind == Transfer
    requires Midway(t0, tx.Snapshot(), id, [])
    modifies tx
    ensures r.Ok? <==> Replay(t0.stock, PostingOrder(t0.transactions[id], id)).Some?
    ensures r.Ok? ==> Midway(t0, tx.Snapshot(), id, PostingOrder(t0.transactions[id], id))
    ensures r.Err? ==> r.error == Conflict
  {
    var listed := TransferOps(tx, id, t0);
    var ops := SortByKey(OpRow, listed);
    TransferInOrder(t0, id, listed);
    r := RunOps(tx, id, ops, t0, PostingOrder(t0.transactions[id], id));
  }

  /** The operation makes posting `ms[n]`. */
  predicate NextOp(t0: Tables, id: nat, op: Op, ms: seq<Movement>, n: nat) {
    && id < |t0.transactions| && t0.transactions[id].kind == Transfer && OpBacked(t0, id, op)
    && n < |ms| && ms[n] == op.movement
    && (if op.reservation.Some? then NextOut(t0, id, op.item, ms, n)
        else !Outbound(ms[n]) && QuantityOk(ms[n]) && RowsExist(t0, ms[n]))
  }

  /** The sorted operations make the postings in order. */
  lemma TransferInOrder(t0: Tables, id: nat, listed: seq<Op>)
    requires Ready(t0, id) && t0.transactions[id].kind == Transfer
    requires MovementsIn(listed) == Postings(t0.transactions[id], id)
    requires forall op <- listed :: OpBacked(t0, id, op)
    ensures
      var ops, ms := SortByKey(OpRow, listed), PostingOrder(t0.transactions[id], id);
      |ops| == |ms| && forall n :: 0 <= n < |ops| ==> NextOp(t0, id, ops[n], ms, n)
  {
    var ops, ms := SortByKey(OpRow, listed), PostingOrder(t0.transactions[id], id);
    PostingsPlausible(t0, id);
    OpsInOrder(t0.transactions[id], id, listed);
    SameElements(OpRow, listed);
    forall n | 0 <= n < |ops| ensures NextOp(t0, id, ops[n], ms, n) {
      assert ops[n] in ops && ops[n].movement == MovementsIn(ops)[n];
      assert OpBacked(t0, id, ops[n]) && ms[n] in ms;
      if ops[n].reservation.Some? {
        NotYetOut(t0.transactions[id], id, n);
      }
    }
  }

  /** `for (const op of ops) await op.run()` */
  method RunOps(tx: Database, id: nat, ops: seq<Op>, ghost t0: Tables, ghost ms: seq<Movement>)
    returns (r: Result<Unit, Error>)
    requires Ready(t0, id)
    requires |ops| == |ms| && forall n :: 0 <= n < |ops| ==> NextOp(t0, id, ops[n], ms, n)
    requires Midway(t0, tx.Snapshot(), id, [])
    modifies tx
    ensures r.Ok? ==> Midway(t0, tx.Snapshot(), id, ms)
    ensures r.Err? ==> r.error == Conflict && Replay(t0.stock, ms).None?
  {
    assert ms[..0] == [];
    for n := 0 to |ops|
      invariant Midway(t0, tx.Snapshot(), id, ms[..n])
    {
      r := RunOp(tx, id, ops[n], t0, ms, n);
      if r.Err? { return; }
    }
    assert ms[..|ops|] == ms;
    return Ok(Unit.Unit);
  }

  /** `op.run()`: the next posting of a transfer. */
  method RunOp(tx: Database, id: nat, op: Op, ghost t0: Tables, ghost ms: seq<Movement>, ghost n: nat)
    returns (r: Result<Unit, Error>)
    requires Ready(t0, id) && NextOp(t0, id, op, ms, n)
    requires Midway(t0, tx.Snapshot(), id, ms[..n])
    modifies tx
    ensures r.Ok? ==> Midway(t0, tx.Snapshot(), id, ms[..n + 1])
    ensures r.Err? ==> r.error == Conflict && Replay(t0.stock, ms).None?
  {
    if op.reservation.Some? {
      r := FulfillNext(tx, id, op.reservation.value, t0, ms, n, op.item);
    } else {
      r := RecordNext(tx, id, op.movement, t0, ms, n);
    }
  }
}
