/** InventoryTransactionsService.createIncoming(), createOutgoing() and createTransfer(). */
module CreateTransaction {
  import opened Wrappers
  import opened StockOrder
  import opened StockLedger
  import opened ReservationRows
  import opened InventoryTables
  import opened DatabaseClient
  import opened Reservations
  import opened BackingFacts
  import opened StatePreservation

  /** The outcome of a create call: the new row's id, or the exception of the first check that fails. */
  predicate CreateOutcome(t: Tables, header: Transaction, inputs: seq<ItemInput>, r: Result<nat, Error>, after: Tables) {
    && (r.Ok? <==> CreateAllowed(t, header, inputs) && CreateFits(t, header, inputs))
    && (r.Ok? ==> r.value == |t.transactions| && after == AfterCreate(t, header, inputs))
    && (r.Err? ==> CreateError(t, header, inputs) == Some(r.error))
  }

  // ---- which exception ---------------------------------------------------

  function FirstOf(a: Option<Error>, b: Option<Error>): Option<Error> {
    if a.Some? then a else b
  }

  function ActiveError(rows: map<int, bool>, id: int): Option<Error> {
    if id !in rows then Some(NotFound) else if !rows[id] then Some(BadRequest) else None
  }

  function ProductError(products: map<int, Product>, p: int): Option<Error> {
    if p !in products then Some(NotFound) else if !products[p].active then Some(BadRequest) else None
  }

  /** The error of the first item whose product is missing or inactive. */
  function FirstProductError(products: map<int, Product>, inputs: seq<ItemInput>): Option<Error> {
    if inputs == [] then None
    else FirstOf(FirstProductError(products, inputs[..|inputs| - 1]), ProductError(products, inputs[|inputs| - 1].productId))
  }

  function LegsError(t: Tables, header: Transaction): Option<Error> {
    match header.kind
    case Incoming => FirstOf(ActiveError(t.suppliers, Leg(header.supplier)), ActiveError(t.warehouses, Leg(header.destination)))
    case Outgoing => ActiveError(t.warehouses, Leg(header.source))
    case Transfer => FirstOf(ActiveError(t.warehouses, Leg(header.source)), ActiveError(t.warehouses, Leg(header.destination)))
  }

  /** Items first, then the legs, then the products, then the stock. */
  function CreateError(t: Tables, header: Transaction, inputs: seq<ItemInput>): Option<Error> {
    if header.kind == Transfer && header.source == header.destination then Some(BadRequest)
    else if !InputsOk(inputs, header.kind == Incoming) then Some(BadRequest)
    else if LegsError(t, header).Some? then LegsError(t, header)
    else if FirstProductError(t.products, inputs).Some? then FirstProductError(t.products, inputs)
    else if !CreateFits(t, header, inputs) then Some(Conflict)
    else None
  }

  lemma {:induction false} FirstProductErrorStands(products: map<int, Product>, inputs: seq<ItemInput>, n: nat)
    requires n <= |inputs| && FirstProductError(products, inputs[..n]).Some?
    ensures FirstProductError(products, inputs) == FirstProductError(products, inputs[..n])
  {
    if n < |inputs| {
      var front := inputs[..|inputs| - 1];
      assert front[..n] == inputs[..n];
      FirstProductErrorStands(products, front, n);
    } else {
      assert inputs[..n] == inputs;
    }
  }

  function IncomingHeader(supplier: int, destination: int, expectedDate: Option<int>): Transaction {
    Transaction(Incoming, Pending, None, Some(destination), Some(supplier), expectedDate, [])
  }

  function OutgoingHeader(source: int, expectedDate: Option<int>): Transaction {
    Transaction(Outgoing, Pending, Some(source), None, None, expectedDate, [])
  }

  function TransferHeader(source: int, destination: int, expectedDate: Option<int>): Transaction {
    Transaction(Transfer, Pending, Some(source), Some(destination), None, expectedDate, [])
  }

  method CreateIncoming(db: Database, supplier: int, destination: int, expectedDate: Option<int>, inputs: seq<ItemInput>)
    returns (r: Result<nat, Error>)
    modifies db
    ensures CreateOutcome(old(db.Snapshot()), IncomingHeader(supplier, destination, expectedDate), inputs, r, db.Snapshot())
    ensures r.Err? ==> db.Snapshot() == old(db.Snapshot())
  {
    var saved := db.Snapshot();
    r := CreateIncomingWithClient(db, supplier, destination, expectedDate, inputs);
    if r.Err? {
      db.Restore(saved);
    }
  }

  method CreateOutgoing(db: Database, source: int, expectedDate: Option<int>, inputs: seq<ItemInput>)
    returns (r: Result<nat, Error>)
    modifies db
    ensures CreateOutcome(old(db.Snapshot()), OutgoingHeader(source, expectedDate), inputs, r, db.Snapshot())
    ensures r.Err? ==> db.Snapshot() == old(db.Snapshot())
  {
    var saved := db.Snapshot();
    r := CreateOutgoingWithClient(db, source, expectedDate, inputs);
    if r.Err? {
      db.Restore(saved);
    }
  }

  method CreateTransfer(db: Database, source: int, destination: int, expectedDate: Option<int>, inputs: seq<ItemInput>)
    returns (r: Result<nat, Error>)
    modifies db
    ensures CreateOutcome(old(db.Snapshot()), TransferHeader(source, destination, expectedDate), inputs, r, db.Snapshot())
    ensures r.Err? ==> db.Snapshot() == old(db.Snapshot())
  {
    if source == destination { return Err(BadRequest); }
    var saved := db.Snapshot();
    r := CreateTransferWithClient(db, source, destination, expectedDate, inputs);
    if r.Err? {
      db.Restore(saved);
    }
  }

  method CreateIncomingWithClient(tx: Database, supplier: int, destination: int, expectedDate: Option<int>, inputs: seq<ItemInput>)
    returns (r: Result<nat, Error>)
    modifies tx
    ensures CreateOutcome(old(tx.Snapshot()), IncomingHeader(supplier, destination, expectedDate), inputs, r, tx.Snapshot())
  {
    var v := ValidateItems(inputs, true);
    if v.Err? { return Err(v.error); }
    v := AssertActive(tx.suppliers, supplier);
    if v.Err? { return Err(v.error); }
    v := AssertActive(tx.warehouses, destination);
    if v.Err? { return Err(v.error); }
    v := AssertProductsExist(tx, inputs);
    if v.Err? { return Err(v.error); }
    r := Insert(tx, IncomingHeader(supplier, destination, expectedDate), inputs);
  }

  method CreateOutgoingWithClient(tx: Database, source: int, expectedDate: Option<int>, inputs: seq<ItemInput>)
    returns (r: Result<nat, Error>)
    modifies tx
    ensures CreateOutcome(old(tx.Snapshot()), OutgoingHeader(source, expectedDate), inputs, r, tx.Snapshot())
  {
    var v := ValidateItems(inputs, false);
    if v.Err? { return Err(v.error); }
    v := AssertActive(tx.warehouses, source);
    if v.Err? { return Err(v.error); }
    v := AssertProductsExist(tx, inputs);
    if v.Err? { return Err(v.error); }
    r := Insert(tx, OutgoingHeader(source, expectedDate), inputs);
  }

  method CreateTransferWithClient(tx: Database, source: int, destination: int, expectedDate: Option<int>, inputs: seq<ItemInput>)
    returns (r: Result<nat, Error>)
    requires source != destination
    modifies tx
    ensures CreateOutcome(old(tx.Snapshot()), TransferHeader(source, destination, expectedDate), inputs, r, tx.Snapshot())
  {
    var v := ValidateItems(inputs, false);
    if v.Err? { return Err(v.error); }
    v := AssertActive(tx.warehouses, source);
    if v.Err? { return Err(v.error); }
    v := AssertActive(tx.warehouses, destination);
    if v.Err? { return Err(v.error); }
    v := AssertProductsExist(tx, inputs);
    if v.Err? { return Err(v.error); }
    r := Insert(tx, TransferHeader(source, destination, expectedDate), inputs);
  }

  /** inventoryTransaction.create() and, unless it is a purchase, one reserve()
      per item in product order. */
  method Insert(tx: Database, header: Transaction, inputs: seq<ItemInput>) returns (r: Result<nat, Error>)
    requires header.status == Pending && InputsOk(inputs, header.kind == Incoming)
    modifies tx
    ensures r.Ok? <==> CreateFits(old(tx.Snapshot()), header, inputs)
    ensures r.Ok? ==> r.value == |old(tx.transactions)|
    ensures r.Ok? ==> tx.Snapshot() == AfterCreate(old(tx.Snapshot()), header, inputs)
    ensures r.Err? ==> r.error == Conflict
  {
    var id := |tx.transactions|;
    var row := header.(items := NewItems(inputs, tx.nextItemId));
    var requests := NewReservations(row, id);
    ghost var t0 := tx.Snapshot();
    RequestsReady(t0, header, inputs, id);
    tx.transactions := tx.transactions + [row];
    tx.nextItemId := tx.nextItemId + |inputs|;
    FitsSame(t0, tx.Snapshot(), requests);
    var v := ReserveAll(tx, requests);
    if v.Err? { return Err(v.error); }
    return Ok(id);
  }

  /** The reservations to make are valid requests on different rows, and they
      fit exactly when the items do. */
  lemma RequestsReady(t: Tables, header: Transaction, inputs: seq<ItemInput>, id: nat)
    requires header.status == Pending && InputsOk(inputs, header.kind == Incoming)
    ensures
      var requests := NewReservations(header.(items := NewItems(inputs, t.nextItemId)), id);
      && DistinctKeys(RowOf, requests)
      && (forall q <- requests :: q.status == Active && q.quantity > 0)
      && (CreateFits(t, header, inputs) <==> Fits(t, requests))
  {
    var row := header.(items := NewItems(inputs, t.nextItemId));
    CreateFitsRequests(t, header, inputs, id);
    NewReservationsFacts(row, id);
    forall q <- NewReservations(row, id) ensures q.status == Active && q.quantity > 0 {
      var x :| 0 <= x < |row.items| && q == Request(row, id, row.items[x]);
      assert inputs[x] in inputs;
    }
  }

  lemma FitsSame(a: Tables, b: Tables, requests: seq<Reservation>)
    requires a.stock == b.stock && a.reservations == b.reservations
    ensures Fits(a, requests) <==> Fits(b, requests)
  {
    assert forall k :: Available(a, k) == Available(b, k);
  }

  /** reserve() for requests on pairwise different stock rows: they all go
      through exactly when each fits the row as it was before the first. */
  method ReserveAll(tx: Database, requests: seq<Reservation>) returns (r: Result<Unit, Error>)
    requires DistinctKeys(RowOf, requests)
    requires forall q <- requests :: q.status == Active && q.quantity > 0
    modifies tx`reservations
    ensures r.Ok? <==> Fits(old(tx.Snapshot()), requests)
    ensures r.Ok? ==> tx.reservations == old(tx.reservations) + requests
    ensures r.Err? ==> r.error == Conflict
  {
    ghost var t0 := tx.Snapshot();
    for n := 0 to |requests|
      invariant tx.reservations == t0.reservations + requests[..n]
      invariant forall i :: 0 <= i < n ==> requests[i].quantity <= Available(t0, RowOf(requests[i]))
    {
      EarlierElsewhere(t0.reservations, requests, n);
      assert requests[n] in requests;
      r := Reserve(tx, requests[n]);
      if r.Err? { return; }
      assert requests[..n + 1] == requests[..n] + [requests[n]];
    }
    assert requests[..|requests|] == requests;
    return Ok(Unit.Unit);
  }

  /** Reservations made earlier in the same pass are on other rows. */
  lemma EarlierElsewhere(rs: seq<Reservation>, requests: seq<Reservation>, n: nat)
    requires DistinctKeys(RowOf, requests) && n < |requests|
    ensures Reserved(rs + requests[..n], RowOf(requests[n])) == Reserved(rs, RowOf(requests[n]))
  {
    ReservedConcat(rs, requests[..n], RowOf(requests[n]));
    ReservedElsewhere(requests[..n], RowOf(requests[n]));
  }

  // ---- checks ------------------------------------------------------------

  /** validateItems() */
  method ValidateItems(items: seq<ItemInput>, requirePrice: bool) returns (r: Result<Unit, Error>)
    ensures r.Ok? <==> InputsOk(items, requirePrice)
    ensures r.Err? ==> r.error == BadRequest
  {
    if items == [] { return Err(BadRequest); }
    var seenProductIds: set<int> := {};
    for n := 0 to |items|
      invariant seenProductIds == set i | 0 <= i < n :: items[i].productId
      invariant n > 0 ==> InputsOk(items[..n], requirePrice)
    {
      var item := items[n];
      assert item in items;
      if item.productId <= 0 { return Err(BadRequest); }
      if item.quantity <= 0 { return Err(BadRequest); }
      if requirePrice && item.price.None? { return Err(BadRequest); }
      if item.price.Some? && item.price.value < 0.0 { return Err(BadRequest); }
      if item.productId in seenProductIds { return Err(BadRequest); }
      seenProductIds := seenProductIds + {item.productId};
      assert items[..n + 1] == items[..n] + [item];
    }
    assert items[..|items|] == items;
    return Ok(Unit.Unit);
  }

  /** assertSupplierExists() and assertWarehouseExists() */
  method AssertActive(rows: map<int, bool>, id: int) returns (r: Result<Unit, Error>)
    ensures r.Ok? <==> id in rows && rows[id]
    ensures ActiveError(rows, id) == if r.Ok? then None else Some(r.error)
  {
    if id !in rows { return Err(NotFound); }
    if !rows[id] { return Err(BadRequest); }
    return Ok(Unit.Unit);
  }

  /** assertProductsExist(); asking again for a product seen before changes nothing. */
  method AssertProductsExist(tx: Database, items: seq<ItemInput>) returns (r: Result<Unit, Error>)
    ensures r.Ok? <==> forall x <- items :: ActiveProduct(tx.Snapshot(), x.productId)
    ensures FirstProductError(tx.products, items) == if r.Ok? then None else Some(r.error)
  {
    for n := 0 to |items|
      invariant forall i :: 0 <= i < n ==> ActiveProduct(tx.Snapshot(), items[i].productId)
      invariant FirstProductError(tx.products, items[..n]) == None
    {
      assert items[n] in items;
      assert items[..n + 1][..n] == items[..n];
      r := AssertProductExists(tx, items[n].productId);
      if r.Err? {
        FirstProductErrorStands(tx.products, items, n + 1);
        return;
      }
    }
    assert items[..|items|] == items;
    return Ok(Unit.Unit);
  }

  method AssertProductExists(tx: Database, p: int) returns (r: Result<Unit, Error>)
    ensures r.Ok? <==> ActiveProduct(tx.Snapshot(), p)
    ensures ProductError(tx.products, p) == if r.Ok? then None else Some(r.error)
  {
    if p !in tx.products { return Err(NotFound); }
    if !tx.products[p].active { return Err(BadRequest); }
    return Ok(Unit.Unit);
  }
}
