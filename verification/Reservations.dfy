/** ReservationsService. */
module Reservations {
  import opened Wrappers
  import opened StockOrder
  import opened StockLedger
  import opened ReservationRows
  import opened InventoryTables
  import opened DatabaseClient
  import opened StockMovements

  /** reserve(): one more ACTIVE row, only within what is available. */
  method Reserve(tx: Database, request: Reservation) returns (r: Result<Unit, Error>)
    requires request.status == Active
    modifies tx`reservations
    ensures r.Ok? <==> 0 < request.quantity <= Available(old(tx.Snapshot()), RowOf(request))
    ensures tx.reservations == old(tx.reservations) + if r.Ok? then [request] else []
    ensures r.Err? ==> r.error == if request.quantity <= 0 then BadRequest else Conflict
  {
    if request.quantity <= 0 { return Err(BadRequest); }
    var available := OnHand(tx.stock, RowOf(request)) - Reserved(tx.reservations, RowOf(request));
    if request.quantity > available { return Err(Conflict); }
    tx.reservations := tx.reservations + [request];
    return Ok(Unit.Unit);
  }

  /** release(): ACTIVE to CANCELLED, stock untouched. */
  method Release(tx: Database, id: nat) returns (r: Result<Unit, Error>)
    modifies tx`reservations
    ensures r.Ok? <==> id < |old(tx.reservations)| && old(tx.reservations)[id].status == Active
    ensures r.Ok? ==> tx.reservations == old(tx.reservations)[id := old(tx.reservations)[id].(status := Released)]
    ensures r.Err? ==> tx.reservations == old(tx.reservations)
    ensures r.Err? ==> r.error == if id < |old(tx.reservations)| then Conflict else NotFound
  {
    if id >= |tx.reservations| { return Err(NotFound); }
    if tx.reservations[id].status != Active { return Err(Conflict); }
    tx.reservations := tx.reservations[id := tx.reservations[id].(status := Released)];
    return Ok(Unit.Unit);
  }

  /** The movement that fulfilling a reservation records. */
  function FulfillMovement(r: Reservation, kind: TransactionKind): Movement {
    Movement(r.productId, r.warehouseId, if kind == Outgoing then OutgoingMove else TransferOut,
             r.quantity, Some(r.transactionId))
  }

  /** fulfill(): records the outgoing movement and flips the row to FULFILLED.
      Every reservation's transaction exists (a foreign key). */
  method Fulfill(tx: Database, id: nat) returns (r: Result<Unit, Error>)
    requires forall row <- tx.reservations :: row.transactionId < |tx.transactions|
    modifies tx
    ensures r.Ok? ==> id < |old(tx.reservations)| && old(tx.reservations)[id].status == Active
    ensures r.Ok? ==>
      var row := old(tx.reservations)[id];
      var m := FulfillMovement(row, old(tx.transactions)[row.transactionId].kind);
      && old(tx.transactions)[row.transactionId].kind != Incoming
      && Post(old(tx.stock), m).Some?
      && tx.Snapshot() == old(tx.Snapshot()).(
           ledger := old(tx.ledger) + [m],
           stock := Post(old(tx.stock), m).value,
           reservations := old(tx.reservations)[id := row.(status := Fulfilled)])
    ensures r.Err? ==> tx.Snapshot().(stock := old(tx.stock)) == old(tx.Snapshot())
    ensures r.Err? && id < |old(tx.reservations)| && old(tx.reservations)[id].status == Active ==>
      var row := old(tx.reservations)[id];
      var kind := old(tx.transactions)[row.transactionId].kind;
      var m := FulfillMovement(row, kind);
      || kind == Incoming
      || !QuantityOk(m) || !RowsExist(old(tx.Snapshot()), m)
      || (r.error == Conflict && Post(old(tx.stock), m).None?)
  {
    if id >= |tx.reservations| { return Err(NotFound); }
    var row := tx.reservations[id];
    if row.status != Active { return Err(Conflict); }
    var kind := tx.transactions[row.transactionId].kind;
    if kind == Incoming { return Err(BadRequest); }
    r := RecordMovement(tx, FulfillMovement(row, kind));
    if r.Ok? {
      tx.reservations := tx.reservations[id := row.(status := Fulfilled)];
    }
  }

  /** reservation.findFirst({ transactionId, productId, status: ACTIVE }) */
  method FindActive(tx: Database, id: nat, productId: int) returns (r: Option<nat>)
    ensures r.Some? ==>
      && r.value < |tx.reservations|
      && ActiveFor(tx.reservations[r.value], id) && tx.reservations[r.value].productId == productId
    ensures r.None? ==> !HasActive(tx.reservations, id, productId)
  {
    for i := 0 to |tx.reservations|
      invariant forall j :: 0 <= j < i ==>
        !(ActiveFor(tx.reservations[j], id) && tx.reservations[j].productId == productId)
    {
      if ActiveFor(tx.reservations[i], id) && tx.reservations[i].productId == productId {
        return Some(i);
      }
    }
    return None;
  }
}
