/** StockMovementsService: the only writer of stock. */
module StockMovements {
  import opened Wrappers
  import opened Text
  import opened StockOrder
  import opened StockLedger
  import opened InventoryTables
  import opened DatabaseClient

  predicate QuantityOk(m: Movement) {
    if m.kind == Adjustment then m.quantity != 0 else m.quantity > 0
  }

  predicate RowsExist(t: Tables, m: Movement) {
    m.productId in t.products && m.warehouseId in t.warehouses
  }

  /** recordMovement(): one ledger row and the matching change of one stock row,
      or an exception. The row is created empty before the check, so a failing
      call may leave an empty row behind for the caller's rollback. */
  method RecordMovement(tx: Database, m: Movement) returns (r: Result<Unit, Error>)
    modifies tx
    ensures r.Ok? <==> QuantityOk(m) && RowsExist(old(tx.Snapshot()), m) && Post(old(tx.stock), m).Some?
    ensures r.Ok? ==>
      tx.Snapshot() == old(tx.Snapshot()).(ledger := old(tx.ledger) + [m], stock := Post(old(tx.stock), m).value)
    ensures r.Err? ==>
      r.error == if !QuantityOk(m) then BadRequest else if !RowsExist(old(tx.Snapshot()), m) then NotFound else Conflict
    ensures r.Err? ==> tx.Snapshot().(stock := old(tx.stock)) == old(tx.Snapshot())
  {
    if !QuantityOk(m) { return Err(BadRequest); }
    if m.productId !in tx.products { return Err(NotFound); }
    if m.warehouseId !in tx.warehouses { return Err(NotFound); }
    var k := KeyOf(m);
    if k !in tx.stock {
      tx.stock := tx.stock[k := 0];
    }
    var newOnHand := tx.stock[k] + Delta(m);
    if newOnHand < 0 { return Err(Conflict); }
    tx.stock := tx.stock[k := newOnHand];
    tx.ledger := tx.ledger + [m];
    assert tx.stock == Post(old(tx.stock), m).value;
    return Ok(Unit.Unit);
  }

  /** What adjustInventory() demands of the caller and the reason. */
  predicate AdjustAllowed(admin: bool, reason: string) {
    admin && !Blank(reason)
  }

  /** An ADMIN's manual correction: one ADJUSTMENT movement, all or nothing. It
      looks at the physical quantity only, never at reservations. */
  method AdjustInventory(db: Database, admin: bool, reason: string, p: int, w: int, quantity: int)
    returns (r: Result<Unit, Error>)
    modifies db
    ensures r.Ok? <==>
      && AdjustAllowed(admin, reason) && quantity != 0
      && RowsExist(old(db.Snapshot()), AdjustmentOf(p, w, quantity))
      && OnHand(old(db.stock), StockKey(w, p)) + quantity >= 0
    ensures r.Ok? ==> db.Snapshot() == old(AfterAdjust(db.Snapshot(), p, w, quantity))
    ensures r.Err? ==>
      r.error == if !admin then Forbidden
                 else if Blank(reason) || quantity == 0 then BadRequest
                 else if !RowsExist(old(db.Snapshot()), AdjustmentOf(p, w, quantity)) then NotFound
                 else Conflict
    ensures r.Err? ==> db.Snapshot() == old(db.Snapshot())
  {
    if !admin { return Err(Forbidden); }
    if Blank(reason) { return Err(BadRequest); }
    var saved := db.Snapshot();
    r := RecordMovement(db, AdjustmentOf(p, w, quantity));
    if r.Err? {
      db.Restore(saved);
    }
  }

  /** The seed script's rebuild of the stock table from the ledger. */
  method RebuildStock(movements: seq<Movement>) returns (r: Option<Stock>)
    ensures r == Replay(map[], movements)
  {
    var onHandByKey: Stock := map[];
    for n := 0 to |movements|
      invariant Replay(map[], movements[..n]) == Some(onHandByKey)
    {
      var movement := movements[n];
      assert movements == movements[..n + 1] + movements[n + 1..];
      assert movements[..n + 1] == movements[..n] + [movement];
      ReplayAppend(map[], movements[..n], movement);
      ReplayConcat(map[], movements[..n + 1], movements[n + 1..]);
      var next := OnHand(onHandByKey, KeyOf(movement)) + Delta(movement);
      if next < 0 { return None; }
      onHandByKey := onHandByKey[KeyOf(movement) := next];
    }
    assert movements[..|movements|] == movements;
    return Some(onHandByKey);
  }

  /** reconcileInventory(): the stock rows that disagree with the ledger. */
  function Mismatches(t: Tables): set<StockKey> {
    set k | k in t.stock && t.stock[k] != NetQuantity(t.ledger, k)
  }

  /** A committed state never shows a mismatch, and holds a row exactly for
      every pair that has a movement. */
  lemma NothingToReconcile(t: Tables)
    requires Booked(t)
    ensures Mismatches(t) == {}
    ensures t.stock.Keys == KeysOf(t.ledger)
    ensures forall k :: OnHand(t.stock, k) == NetQuantity(t.ledger, k) >= 0
  {
    ReplayIsSignedSum(map[], t.ledger, t.stock);
    forall k | k in t.stock ensures t.stock[k] == NetQuantity(t.ledger, k) {
      assert OnHand(t.stock, k) == NetQuantity(t.ledger, k);
    }
  }
}
