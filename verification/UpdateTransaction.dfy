/** InventoryTransactionsService.update(): re-planning a PENDING transaction. */
module UpdateTransaction {
  import opened Wrappers
  import opened StockOrder
  import opened StockLedger
  import opened ReservationRows
  import opened InventoryTables
  import opened DatabaseClient
  import opened Reservations
  import opened BackingFacts
  import opened StatePreservation
  import opened CompletionSteps
  import opened CancelTransaction
  import opened CreateTransaction

  /** The outcome of update(): the re-planned transaction, or the exception of the first check that fails. */
  predicate UpdateOutcome(t: Tables, id: nat, input: UpdateInput, r: Result<Unit, Error>, after: Tables) {
    && (r.Ok? <==>
          IsPending(t, id) && UpdateAllowed(t, t.transactions[id], input) && UpdateFits(t, id, input))
    && (r.Ok? ==> after == AfterUpdate(t, id, input))
    && (r.Err? ==> UpdateError(t, id, input) == Some(r.error))
  }

  // ---- which exception ---------------------------------------------------

  function ChangeError(products: map<int, Product>, c: ItemChange): Option<Error> {
    if c.productId.Some? then ProductError(products, c.productId.value) else None
  }

  /** The error of the first change, in the order given, that names a missing or inactive product. */
  function FirstChangeError(products: map<int, Product>, changes: seq<ItemChange>): Option<Error> {
    if changes == [] then None
    else FirstOf(FirstChangeError(products, changes[..|changes| - 1]), ChangeError(products, changes[|changes| - 1]))
  }

  function PlanError(products: map<int, Product>, plan: Plan, input: UpdateInput): Option<Error> {
    var change := ChangeFor(input.changes, plan.item.id);
    if change.Some? then ChangeError(products, change.value) else None
  }

  /** The same in the order of the plans. */
  function FirstPlanError(products: map<int, Product>, plans: seq<Plan>, input: UpdateInput): Option<Error> {
    if plans == [] then None
    else FirstOf(FirstPlanError(products, plans[..|plans| - 1], input), PlanError(products, plans[|plans| - 1], input))
  }

  function NamesError(tx: Transaction, changes: seq<ItemChange>): Option<Error> {
    if exists i, j :: 0 <= i < j < |changes| && changes[i].itemId == changes[j].itemId then Some(BadRequest)
    else if !NamesItems(tx, changes) then Some(NotFound)
    else None
  }

  function GivenError(rows: map<int, bool>, id: Option<int>): Option<Error> {
    if id.Some? then ActiveError(rows, id.value) else None
  }

  /** The checks before anything is written: fields, then the rows they name, then the items. */
  function CheckedError(t: Tables, tx: Transaction, input: UpdateInput): Option<Error> {
    if !LegsAllowed(tx, input) then Some(BadRequest)
    else
      FirstOf(GivenError(t.warehouses, input.source),
      FirstOf(GivenError(t.warehouses, input.destination),
      FirstOf(GivenError(t.suppliers, input.supplier),
      FirstOf(NamesError(tx, input.changes),
        if DistinctProducts(UpdatedItems(tx.items, input.changes)) then None else Some(BadRequest)))))
  }

  /** An error of a new product; the plans are looked up in stock-row order. */
  function NewProductError(t: Tables, id: nat, input: UpdateInput): Option<Error>
    requires id < |t.transactions|
  {
    if t.transactions[id].kind == Incoming then FirstChangeError(t.products, input.changes)
    else FirstPlanError(t.products, SortedPlans(t.transactions[id], id, input), input)
  }

  function PendingError(t: Tables, id: nat, input: UpdateInput): Option<Error>
    requires id < |t.transactions|
  {
    FirstOf(CheckedError(t, t.transactions[id], input),
    FirstOf(NewProductError(t, id, input),
      if UpdateFits(t, id, input) then None else Some(Conflict)))
  }

  function UpdateError(t: Tables, id: nat, input: UpdateInput): Option<Error> {
    if !ChangesOk(input) then Some(BadRequest)
    else if id >= |t.transactions| then Some(NotFound)
    else if t.transactions[id].status != Pending then Some(Conflict)
    else PendingError(t, id, input)
  }

  lemma {:induction false} FirstChangeErrorStands(products: map<int, Product>, changes: seq<ItemChange>, n: nat)
    requires n <= |changes| && FirstChangeError(products, changes[..n]).Some?
    ensures FirstChangeError(products, changes) == FirstChangeError(products, changes[..n])
  {
    if n < |changes| {
      assert changes[..|changes| - 1][..n] == changes[..n];
      FirstChangeErrorStands(products, changes[..|changes| - 1], n);
    } else {
      assert changes[..n] == changes;
    }
  }

  lemma {:induction false} FirstPlanErrorStands(products: map<int, Product>, plans: seq<Plan>, input: UpdateInput, n: nat)
    requires n <= |plans| && FirstPlanError(products, plans[..n], input).Some?
    ensures FirstPlanError(products, plans, input) == FirstPlanError(products, plans[..n], input)
  {
    if n < |plans| {
      assert plans[..|plans| - 1][..n] == plans[..n];
      FirstPlanErrorStands(products, plans[..|plans| - 1], input, n);
    } else {
      assert plans[..n] == plans;
    }
  }

  /** Updates planned data of a PENDING transaction, all or nothing. */
  method Update(db: Database, id: nat, input: UpdateInput) returns (r: Result<Unit, Error>)
    requires Sound(db.Snapshot())
    modifies db
    ensures UpdateOutcome(old(db.Snapshot()), id, input, r, db.Snapshot())
    ensures r.Err? ==> db.Snapshot() == old(db.Snapshot())
  {
    var v := ValidateUpdateInput(input);
    if v.Err? { return Err(v.error); }
    var saved := db.Snapshot();
    r := UpdateWithClient(db, id, input);
    if r.Err? {
      db.Restore(saved);
    }
  }

  method UpdateWithClient(tx: Database, id: nat, input: UpdateInput) returns (r: Result<Unit, Error>)
    requires Sound(tx.Snapshot()) && ChangesOk(input)
    modifies tx
    ensures UpdateOutcome(old(tx.Snapshot()), id, input, r, tx.Snapshot())
  {
    if id >= |tx.transactions| { return Err(NotFound); }
    if tx.transactions[id].status != Pending { return Err(Conflict); }
    SoundIsReady(tx.Snapshot(), id);
    r := UpdatePending(tx, id, input);
  }

  method UpdatePending(tx: Database, id: nat, input: UpdateInput) returns (r: Result<Unit, Error>)
    requires Ready(tx.Snapshot(), id) && ChangesOk(input)
    modifies tx
    ensures r.Ok? <==>
      old(UpdateAllowed(tx.Snapshot(), tx.transactions[id], input)) && old(UpdateFits(tx.Snapshot(), id, input))
    ensures r.Ok? ==> tx.Snapshot() == old(AfterUpdate(tx.Snapshot(), id, input))
    ensures r.Err? ==> old(PendingError(tx.Snapshot(), id, input)) == Some(r.error)
  {
    ghost var t0 := tx.Snapshot();
    r := CheckUpdate(tx, id, input);
    if r.Err? { return; }
    r := UpdateRows(tx, id, input, t0);
    if r.Err? { return; }
    UpdateFields(tx, id, input);
  }

  /** The part of AfterUpdate that is done before the transaction's own fields change. */
  function WithNewItems(t: Tables, id: nat, input: UpdateInput): Tables
    requires id < |t.transactions|
  {
    var row := t.transactions[id];
    AfterUpdate(t, id, input).(
      transactions := t.transactions[id := row.(items := UpdatedItems(row.items, input.changes))])
  }

  method UpdateRows(tx: Database, id: nat, input: UpdateInput, ghost t0: Tables) returns (r: Result<Unit, Error>)
    requires tx.Snapshot() == t0 && Ready(t0, id)
    requires ChangesOk(input) && Checked(t0, t0.transactions[id], input)
    modifies tx
    ensures r.Ok? <==> NewProductsActive(t0, input.changes) && UpdateFits(t0, id, input)
    ensures r.Ok? ==> tx.Snapshot() == WithNewItems(t0, id, input)
    ensures NewProductError(t0, id, input).None? <==> NewProductsActive(t0, input.changes)
    ensures r.Err? ==> FirstOf(NewProductError(t0, id, input), Some(Conflict)) == Some(r.error)
  {
    if tx.transactions[id].kind != Incoming {
      r := Resync(tx, id, input, t0);
    } else {
      r := ChangeItems(tx, id, input, t0);
    }
  }

  method UpdateFields(tx: Database, id: nat, input: UpdateInput)
    requires id < |tx.transactions|
    modifies tx`transactions
    ensures
      var row := old(tx.transactions)[id];
      tx.transactions == old(tx.transactions)[id := UpdatedTransaction(row, input).(items := row.items)]
  {
    var row := tx.transactions[id];
    tx.transactions := tx.transactions[id := row.(
      source := if input.source.Some? then input.source else row.source,
      destination := if input.destination.Some? then input.destination else row.destination,
      supplier := if input.supplier.Some? then input.supplier else row.supplier,
      expectedDate := if input.expectedDate.Some? then input.expectedDate else row.expectedDate)];
  }

  // ---- checks ------------------------------------------------------------

  method ValidateUpdateInput(input: UpdateInput) returns (r: Result<Unit, Error>)
    ensures r.Ok? <==> ChangesOk(input)
    ensures r.Err? ==> r.error == BadRequest
  {
    for n := 0 to |input.changes|
      invariant forall i :: 0 <= i < n ==> ChangeOk(input.changes[i])
    {
      var change := input.changes[n];
      assert change in input.changes;
      if change.quantity.Some? && change.quantity.value <= 0 { return Err(BadRequest); }
      if change.productId.Some? && change.productId.value <= 0 { return Err(BadRequest); }
      if change.price.Some? && change.price.value < 0.0 { return Err(BadRequest); }
    }
    return Ok(Unit.Unit);
  }

  /** All that update() rejects before it writes, except an inactive new product. */
  predicate Checked(t: Tables, tx: Transaction, input: UpdateInput) {
    && LegsAllowed(tx, input)
    && (input.source.Some? ==> ActiveWarehouse(t, input.source.value))
    && (input.destination.Some? ==> ActiveWarehouse(t, input.destination.value))
    && (input.supplier.Some? ==> ActiveSupplier(t, input.supplier.value))
    && NamesItems(tx, input.changes)
    && DistinctProducts(UpdatedItems(tx.items, input.changes))
  }

  method CheckUpdate(tx: Database, id: nat, input: UpdateInput) returns (r: Result<Unit, Error>)
    requires id < |tx.transactions|
    ensures r.Ok? <==> Checked(tx.Snapshot(), tx.transactions[id], input)
    ensures CheckedError(tx.Snapshot(), tx.transactions[id], input) == if r.Ok? then None else Some(r.error)
  {
    var row := tx.transactions[id];
    if input.source.Some? && row.kind == Incoming { return Err(BadRequest); }
    if input.destination.Some? && row.kind == Outgoing { return Err(BadRequest); }
    var newSource := if input.source.Some? then input.source else row.source;
    var newDestination := if input.destination.Some? then input.destination else row.destination;
    if (input.source.Some? || input.destination.Some?) && row.kind == Transfer && newSource == newDestination {
      return Err(BadRequest);
    }
    if input.supplier.Some? && row.kind != Incoming { return Err(BadRequest); }
    if input.source.Some? {
      r := AssertActive(tx.warehouses, input.source.value);
      if r.Err? { return; }
    }
    if input.destination.Some? {
      r := AssertActive(tx.warehouses, input.destination.value);
      if r.Err? { return; }
    }
    if input.supplier.Some? {
      r := AssertActive(tx.suppliers, input.supplier.value);
      if r.Err? { return; }
    }
    r := CheckNames(row, input.changes);
    if r.Err? { return; }
    r := CheckFinalProducts(UpdatedItems(row.items, input.changes));
  }

  method CheckNames(row: Transaction, changes: seq<ItemChange>) returns (r: Result<Unit, Error>)
    ensures r.Ok? <==> NamesItems(row, changes)
    ensures NamesError(row, changes) == if r.Ok? then None else Some(r.error)
  {
    var seen: set<nat> := {};
    for n := 0 to |changes|
      invariant seen == set i | 0 <= i < n :: changes[i].itemId
      invariant forall i, j :: 0 <= i < j < n ==> changes[i].itemId != changes[j].itemId
    {
      if changes[n].itemId in seen { return Err(BadRequest); }
      seen := seen + {changes[n].itemId};
    }
    for n := 0 to |changes|
      invariant forall i :: 0 <= i < n ==> exists x :: 0 <= x < |row.items| && row.items[x].id == changes[i].itemId
    {
      assert changes[n] in changes;
      if forall x :: 0 <= x < |row.items| ==> row.items[x].id != changes[n].itemId { return Err(NotFound); }
    }
    return Ok(Unit.Unit);
  }

  method CheckFinalProducts(items: seq<Item>) returns (r: Result<Unit, Error>)
    ensures r.Ok? <==> DistinctProducts(items)
    ensures r.Err? ==> r.error == BadRequest
  {
    var seen: set<int> := {};
    for n := 0 to |items|
      invariant seen == set i | 0 <= i < n :: items[i].productId
      invariant forall i, j :: 0 <= i < j < n ==> items[i].productId != items[j].productId
    {
      if items[n].productId in seen { return Err(BadRequest); }
      seen := seen + {items[n].productId};
    }
    return Ok(Unit.Unit);
  }

  predicate NewProductsActive(t: Tables, changes: seq<ItemChange>) {
    forall c <- changes :: c.productId.Some? ==> ActiveProduct(t, c.productId.value)
  }

  lemma {:induction false} NoChangeError(t: Tables, changes: seq<ItemChange>)
    ensures FirstChangeError(t.products, changes).None? <==> NewProductsActive(t, changes)
  {
    if changes != [] {
      NoChangeError(t, changes[..|changes| - 1]);
      assert changes == changes[..|changes| - 1] + [changes[|changes| - 1]];
    }
  }

  // ---- a purchase: items only --------------------------------------------

  /** Applying the changes one by one gives the same items as looking each item's change up. */
  lemma OneMoreChange(items: seq<Item>, changes: seq<ItemChange>, n: nat, x: nat)
    requires n < |changes| && x < |items|
    requires forall i, j :: 0 <= i < j < |changes| ==> changes[i].itemId != changes[j].itemId
    ensures UpdatedItem(items[x], changes[..n + 1]) ==
            if items[x].id == changes[n].itemId then Changed(UpdatedItem(items[x], changes[..n]), changes[n])
            else UpdatedItem(items[x], changes[..n])
    ensures UpdatedItem(items[x], changes[..n]).id == items[x].id
  {
    assert changes[..n + 1][..n] == changes[..n];
    ChangeForFacts(changes[..n], items[x].id);
  }

  lemma ItemsChanged(items: seq<Item>, changes: seq<ItemChange>, n: nat, next: seq<Item>)
    requires n < |changes| && |next| == |items|
    requires forall i, j :: 0 <= i < j < |changes| ==> changes[i].itemId != changes[j].itemId
    requires
      var done := UpdatedItems(items, changes[..n]);
      forall x :: 0 <= x < |items| ==>
        next[x] == if done[x].id == changes[n].itemId then Changed(done[x], changes[n]) else done[x]
    ensures next == UpdatedItems(items, changes[..n + 1])
  {
    forall x | 0 <= x < |items| ensures next[x] == UpdatedItem(items[x], changes[..n + 1]) {
      OneMoreChange(items, changes, n, x);
    }
  }

  method ChangeItems(tx: Database, id: nat, input: UpdateInput, ghost t0: Tables) returns (r: Result<Unit, Error>)
    requires tx.Snapshot() == t0 && id < |t0.transactions| && NamesItems(t0.transactions[id], input.changes)
    modifies tx`transactions
    ensures r.Ok? <==> NewProductsActive(t0, input.changes)
    ensures r.Ok? ==>
      tx.transactions == t0.transactions[id := t0.transactions[id].(items := UpdatedItems(t0.transactions[id].items, input.changes))]
    ensures FirstChangeError(t0.products, input.changes) == if r.Ok? then None else Some(r.error)
  {
    var changes := input.changes;
    ghost var before := t0.transactions[id];
    assert UpdatedItems(before.items, changes[..0]) == before.items;
    for n := 0 to |changes|
      invariant tx.transactions == t0.transactions[id := before.(items := UpdatedItems(before.items, changes[..n]))]
      invariant FirstChangeError(t0.products, changes[..n]) == None
    {
      assert changes[n] in changes;
      assert changes[..n + 1][..n] == changes[..n];
      r := CheckNewProduct(tx, changes[n]);
      if r.Err? {
        FirstChangeErrorStands(t0.products, changes, n + 1);
        NoChangeError(t0, changes);
        return;
      }
      tx.UpdateItem(id, changes[n]);
      ItemsChanged(before.items, changes, n, tx.transactions[id].items);
    }
    assert changes[..|changes|] == changes;
    NoChangeError(t0, changes);
    return Ok(Unit.Unit);
  }

  /** assertProductsExist([productId]) for a change that names a product. */
  method CheckNewProduct(tx: Database, change: ItemChange) returns (r: Result<Unit, Error>)
    ensures r.Ok? <==> (change.productId.Some? ==> ActiveProduct(tx.Snapshot(), change.productId.value))
    ensures ChangeError(tx.products, change) == if r.Ok? then None else Some(r.error)
  {
    if change.productId.None? { return Ok(Unit.Unit); }
    var input := ItemInput(change.productId.value, Or(change.quantity, 1), None);
    r := AssertProductsExist(tx, [input]);
    assert input == [input][0] && [input][..0] == [];
  }

  // ---- a transaction that holds stock ------------------------------------

  /** Looks up, releases and makes again the reservations of the items that change. */
  method Resync(tx: Database, id: nat, input: UpdateInput, ghost t0: Tables) returns (r: Result<Unit, Error>)
    requires tx.Snapshot() == t0 && Ready(t0, id) && t0.transactions[id].kind != Incoming
    requires ChangesOk(input) && Checked(t0, t0.transactions[id], input)
    modifies tx
    ensures r.Ok? <==> NewProductsActive(t0, input.changes) && UpdateFits(t0, id, input)
    ensures r.Ok? ==> tx.Snapshot() == WithNewItems(t0, id, input)
    ensures FirstPlanError(t0.products, SortedPlans(t0.transactions[id], id, input), input).None? <==>
      NewProductsActive(t0, input.changes)
    ensures r.Err? ==>
      FirstOf(FirstPlanError(t0.products, SortedPlans(t0.transactions[id], id, input), input), Some(Conflict)) == Some(r.error)
  {
    var plans := SortedPlans(tx.transactions[id], id, input);
    var looked := LookUp(tx, id, plans, input, t0);
    if looked.Err? { return Err(looked.error); }
    ReleaseOld(tx, id, plans, looked.value, t0);
    r := MakeAgain(tx, id, plans, input, t0);
  }

  /** Once the old set is released, the new reservations and items. */
  method MakeAgain(tx: Database, id: nat, plans: seq<Plan>, input: UpdateInput, ghost t0: Tables)
    returns (r: Result<Unit, Error>)
    requires Ready(t0, id) && t0.transactions[id].kind != Incoming && ChangesOk(input)
    requires DistinctProducts(UpdatedItems(t0.transactions[id].items, input.changes))
    requires plans == SortedPlans(t0.transactions[id], id, input)
    requires tx.Snapshot() == t0.(reservations := ReleasedFor(t0, id, input))
    modifies tx`reservations, tx`transactions
    ensures r.Ok? <==> UpdateFits(t0, id, input)
    ensures r.Ok? ==> tx.Snapshot() == WithNewItems(t0, id, input)
    ensures r.Err? ==> r.error == Conflict
  {
    PlansPositive(t0, id, input);
    assert UpdateFits(t0, id, input) <==> Fits(tx.Snapshot(), RequestsIn(plans));
    r := ReserveAgain(tx, id, plans, input);
    if r.Ok? {
      ItemsEnd(t0.transactions[id], id, tx.transactions[id].items, input);
    }
  }

  /** Releases the complete old set before any replacement is made. */
  method ReleaseOld(tx: Database, id: nat, plans: seq<Plan>, rows: seq<nat>, ghost t0: Tables)
    requires tx.Snapshot() == t0 && Ready(t0, id) && |rows| == |plans|
    requires forall i, j :: 0 <= i < j < |plans| ==> plans[i].item.productId != plans[j].item.productId
    requires forall i :: 0 <= i < |plans| ==> IsRowOf(t0, id, plans[i], rows[i])
    modifies tx`reservations
    ensures tx.reservations == Settle(t0.reservations, id, OldProducts(plans), Released)
  {
    forall i, j | 0 <= i < j < |rows| ensures rows[i] != rows[j] {
      assert IsRowOf(t0, id, plans[i], rows[i]) && IsRowOf(t0, id, plans[j], rows[j]);
    }
    forall row <- rows ensures row < |t0.reservations| && t0.reservations[row].status == Active {
      var i :| 0 <= i < |rows| && rows[i] == row;
      assert IsRowOf(t0, id, plans[i], rows[i]);
    }
    var r := ReleaseRows(tx, rows);
    ReleasedExactly(t0, id, plans, rows);
  }

  /** Different plans are for different items, so for different old products. */
  lemma OldProductsDiffer(tx: Transaction, id: nat, input: UpdateInput)
    requires ItemsOk(tx.items) && DistinctProducts(UpdatedItems(tx.items, input.changes))
    ensures
      var plans := SortedPlans(tx, id, input);
      forall i, j :: 0 <= i < j < |plans| ==> plans[i].item.productId != plans[j].item.productId
  {
    var plans := SortedPlans(tx, id, input);
    SortedPlansFacts(tx, id, input);
    forall i, j | 0 <= i < j < |plans| ensures plans[i].item.productId != plans[j].item.productId {
      assert PlanRow(plans[i]) != PlanRow(plans[j]);
      assert plans[i] in plans && plans[j] in plans;
      assert plans[i].item != plans[j].item;
      var x :| 0 <= x < |tx.items| && tx.items[x] == plans[i].item;
      var y :| 0 <= y < |tx.items| && tx.items[y] == plans[j].item;
    }
  }

  /** The plan list's checks: new products are active, old reservations exist. */
  method LookUp(tx: Database, id: nat, plans: seq<Plan>, input: UpdateInput, ghost t0: Tables)
    returns (r: Result<seq<nat>, Error>)
    requires tx.Snapshot() == t0 && Ready(t0, id) && t0.transactions[id].kind != Incoming
    requires NamesItems(t0.transactions[id], input.changes)
    requires DistinctProducts(UpdatedItems(t0.transactions[id].items, input.changes))
    requires plans == SortedPlans(t0.transactions[id], id, input)
    ensures r.Ok? <==> NewProductsActive(t0, input.changes)
    ensures r.Ok? ==> |r.value| == |plans|
    ensures r.Ok? ==> forall i :: 0 <= i < |plans| ==> IsRowOf(t0, id, plans[i], r.value[i])
    ensures forall i, j :: 0 <= i < j < |plans| ==> plans[i].item.productId != plans[j].item.productId
    ensures FirstPlanError(t0.products, plans, input) == if r.Ok? then None else Some(r.error)
  {
    SortedPlansFacts(t0.transactions[id], id, input);
    OldProductsDiffer(t0.transactions[id], id, input);
    r := CheckPlans(tx, id, plans, input, t0);
    if r.Err? { return; }
    AllChangesPlanned(t0, id, plans, input);
  }

  method CheckPlans(tx: Database, id: nat, plans: seq<Plan>, input: UpdateInput, ghost t0: Tables)
    returns (r: Result<seq<nat>, Error>)
    requires tx.Snapshot() == t0 && Ready(t0, id) && t0.transactions[id].kind != Incoming
    requires forall p <- plans ::
      p.item in t0.transactions[id].items && p.request.productId == UpdatedItem(p.item, input.changes).productId
    ensures r.Err? ==> !NewProductsActive(t0, input.changes)
    ensures r.Ok? ==> |r.value| == |plans|
    ensures r.Ok? ==> forall i :: 0 <= i < |plans| ==> IsRowOf(t0, id, plans[i], r.value[i])
    ensures FirstPlanError(t0.products, plans, input) == if r.Ok? then None else Some(r.error)
  {
    var existing: seq<nat> := [];
    for n := 0 to |plans|
      invariant |existing| == n
      invariant forall i :: 0 <= i < n ==> IsRowOf(t0, id, plans[i], existing[i])
      invariant FirstPlanError(t0.products, plans[..n], input) == None
    {
      assert plans[n] in plans;
      assert plans[..n + 1][..n] == plans[..n];
      var row := CheckPlan(tx, id, plans[n], input, t0);
      if row.Err? {
        FirstPlanErrorStands(t0.products, plans, input, n + 1);
        return Err(row.error);
      }
      existing := existing + [row.value];
    }
    assert plans[..|plans|] == plans;
    return Ok(existing);
  }

  method CheckPlan(tx: Database, id: nat, plan: Plan, input: UpdateInput, ghost t0: Tables)
    returns (r: Result<nat, Error>)
    requires tx.Snapshot() == t0 && Ready(t0, id) && t0.transactions[id].kind != Incoming
    requires plan.item in t0.transactions[id].items
    requires plan.request.productId == UpdatedItem(plan.item, input.changes).productId
    ensures r.Ok? ==> IsRowOf(t0, id, plan, r.value)
    ensures r.Err? ==> !NewProductsActive(t0, input.changes)
    ensures PlanError(t0.products, plan, input) == if r.Ok? then None else Some(r.error)
  {
    var change := ChangeFor(input.changes, plan.item.id);
    ChangeForFacts(input.changes, plan.item.id);
    if change.Some? && change.value.productId.Some? {
      if plan.request.productId !in tx.products { return Err(NotFound); }
      if !tx.products[plan.request.productId].active { return Err(BadRequest); }
    }
    HeldRow(t0, id, plan.item);
    var reservation := FindActive(tx, id, plan.item.productId);
    return Ok(reservation.value);
  }

  predicate IsRowOf(t: Tables, id: nat, plan: Plan, row: nat) {
    && row < |t.reservations| && ActiveFor(t.reservations[row], id)
    && t.reservations[row].productId == plan.item.productId
  }

  lemma HeldRow(t: Tables, id: nat, item: Item)
    requires Ready(t, id) && t.transactions[id].kind != Incoming && item in t.transactions[id].items
    ensures HasActive(t.reservations, id, item.productId)
  {
    var tx := t.transactions[id];
    var x :| 0 <= x < |tx.items| && tx.items[x] == item;
    assert HasActive(t.reservations, id, tx.items[x].productId);
  }

  /** Every change is some plan's change, so checking the plans checks the changes. */
  lemma AllChangesPlanned(t: Tables, id: nat, plans: seq<Plan>, input: UpdateInput)
    requires id < |t.transactions| && NamesItems(t.transactions[id], input.changes)
    requires DistinctProducts(UpdatedItems(t.transactions[id].items, input.changes))
    requires plans == SortedPlans(t.transactions[id], id, input)
    requires FirstPlanError(t.products, plans, input).None?
    ensures NewProductsActive(t, input.changes)
  {
    var tx := t.transactions[id];
    NoPlanError(t.products, plans, input);
    forall c <- input.changes | c.productId.Some? ensures ActiveProduct(t, c.productId.value) {
      var x :| 0 <= x < |tx.items| && tx.items[x].id == c.itemId;
      UniqueChange(input.changes, c);
      var i := PlanOf(tx, id, input, tx.items[x]);
      assert PlanError(t.products, plans[i], input).None?;
    }
  }

  lemma {:induction false} NoPlanError(products: map<int, Product>, plans: seq<Plan>, input: UpdateInput)
    requires FirstPlanError(products, plans, input).None?
    ensures forall i :: 0 <= i < |plans| ==> PlanError(products, plans[i], input).None?
  {
    if plans != [] {
      NoPlanError(products, plans[..|plans| - 1], input);
    }
  }

  lemma UniqueChange(changes: seq<ItemChange>, c: ItemChange)
    requires c in changes
    requires forall i, j :: 0 <= i < j < |changes| ==> changes[i].itemId != changes[j].itemId
    ensures ChangeFor(changes, c.itemId) == Some(c)
  {
    ChangeForFacts(changes, c.itemId);
    var d := ChangeFor(changes, c.itemId).value;
    var i :| 0 <= i < |changes| && changes[i] == c;
    var j :| 0 <= j < |changes| && changes[j] == d;
  }

  /** Releasing the rows looked up releases exactly the transaction's rows for the old products. */
  lemma ReleasedExactly(t: Tables, id: nat, plans: seq<Plan>, rows: seq<nat>)
    requires Ready(t, id) && |rows| == |plans|
    requires forall i :: 0 <= i < |plans| ==> IsRowOf(t, id, plans[i], rows[i])
    ensures forall i :: 0 <= i < |t.reservations| ==>
      (i in rows <==> ActiveFor(t.reservations[i], id) && t.reservations[i].productId in OldProducts(plans))
  {
    forall i | 0 <= i < |t.reservations|
      ensures i in rows <==> ActiveFor(t.reservations[i], id) && t.reservations[i].productId in OldProducts(plans)
    {
      if i in rows {
        var n :| 0 <= n < |rows| && rows[n] == i;
        assert IsRowOf(t, id, plans[n], rows[n]) && plans[n] in plans;
      }
      if ActiveFor(t.reservations[i], id) && t.reservations[i].productId in OldProducts(plans) {
        OldRowLookedUp(t, id, plans, rows, i);
      }
    }
  }

  lemma OldRowLookedUp(t: Tables, id: nat, plans: seq<Plan>, rows: seq<nat>, i: nat)
    requires id < |t.transactions| && Backed(t.transactions[id], id, t.reservations) && |rows| == |plans|
    requires forall n :: 0 <= n < |plans| ==> IsRowOf(t, id, plans[n], rows[n])
    requires i < |t.reservations| && ActiveFor(t.reservations[i], id) && t.reservations[i].productId in OldProducts(plans)
    ensures i in rows
  {
    var p :| p in plans && p.item.productId == t.reservations[i].productId;
    var n :| 0 <= n < |plans| && plans[n] == p;
    assert IsRowOf(t, id, plans[n], rows[n]);
    assert rows[n] == i;
  }

  predicate ItemDone(plans: seq<Plan>, n: nat, item: Item)
    requires n <= |plans|
  {
    exists i :: 0 <= i < n && plans[i].item == item
  }

  /** The items while the plans are carried out: those of the first `n` plans are updated. */
  predicate ItemsMidway(items0: seq<Item>, items: seq<Item>, plans: seq<Plan>, n: nat, input: UpdateInput)
    requires n <= |plans|
  {
    && |items| == |items0|
    && forall x :: 0 <= x < |items0| ==>
         items[x] == if ItemDone(plans, n, items0[x]) then UpdatedItem(items0[x], input.changes) else items0[x]
  }

  lemma ItemsStep(items0: seq<Item>, items: seq<Item>, plans: seq<Plan>, n: nat, input: UpdateInput, next: seq<Item>)
    requires n < |plans| && ItemsMidway(items0, items, plans, n, input)
    requires plans[n].item in items0
    requires forall i, j :: 0 <= i < j < |items0| ==> items0[i].id != items0[j].id
    requires |next| == |items|
    requires
      var change := ChangeFor(input.changes, plans[n].item.id);
      forall x :: 0 <= x < |items| ==>
        next[x] == if change.Some? && items[x].id == plans[n].item.id then Changed(items[x], change.value) else items[x]
    ensures ItemsMidway(items0, next, plans, n + 1, input)
  {
    var y :| 0 <= y < |items0| && items0[y] == plans[n].item;
    forall x | 0 <= x < |items0|
      ensures next[x] == if ItemDone(plans, n + 1, items0[x]) then UpdatedItem(items0[x], input.changes) else items0[x]
    {
      assert ItemDone(plans, n + 1, items0[x]) <==> ItemDone(plans, n, items0[x]) || plans[n].item == items0[x];
      assert items[x].id == items0[x].id;
    }
  }

  /** Once all plans are carried out every item is what the changes make of it. */
  lemma ItemsEnd(tx: Transaction, id: nat, items: seq<Item>, input: UpdateInput)
    requires DistinctProducts(UpdatedItems(tx.items, input.changes))
    requires ItemsMidway(tx.items, items, SortedPlans(tx, id, input), |SortedPlans(tx, id, input)|, input)
    ensures items == UpdatedItems(tx.items, input.changes)
  {
    var plans := SortedPlans(tx, id, input);
    forall x | 0 <= x < |items| ensures items[x] == UpdatedItem(tx.items[x], input.changes) {
      var item := tx.items[x];
      if ChangeFor(input.changes, item.id).Some? {
        var i := PlanOf(tx, id, input, item);
        assert plans[i].item == item;
        assert ItemDone(plans, |plans|, item);
      }
    }
  }

  /** One plan carried out: reserve(), then the item's own update. */
  method ReserveOne(tx: Database, id: nat, plan: Plan, input: UpdateInput) returns (r: Result<Unit, Error>)
    requires id < |tx.transactions| && plan.request.status == Active
    modifies tx`reservations, tx`transactions
    ensures r.Ok? <==> old(0 < plan.request.quantity <= Available(tx.Snapshot(), RowOf(plan.request)))
    ensures r.Ok? ==> tx.reservations == old(tx.reservations) + [plan.request]
    ensures r.Ok? ==>
      var change := ChangeFor(input.changes, plan.item.id);
      var row := old(tx.transactions)[id];
      && |tx.transactions| == |old(tx.transactions)|
      && tx.transactions == old(tx.transactions)[id := row.(items := tx.transactions[id].items)]
      && |tx.transactions[id].items| == |row.items|
      && forall x :: 0 <= x < |row.items| ==>
           tx.transactions[id].items[x] ==
           if change.Some? && row.items[x].id == plan.item.id then Changed(row.items[x], change.value) else row.items[x]
    ensures r.Err? && plan.request.quantity > 0 ==> r.error == Conflict
  {
    r := Reserve(tx, plan.request);
    if r.Err? { return; }
    var change := ChangeFor(input.changes, plan.item.id);
    ChangeForFacts(input.changes, plan.item.id);
    if change.Some? {
      tx.UpdateItem(id, change.value);
    }
    assert tx.transactions == old(tx.transactions)[id := old(tx.transactions)[id].(items := tx.transactions[id].items)];
  }

  /** reserve() and item update, plan by plan, after everything old is released. */
  method ReserveAgain(tx: Database, id: nat, plans: seq<Plan>, input: UpdateInput)
    returns (r: Result<Unit, Error>)
    requires id < |tx.transactions|
    requires forall p <- plans ::
      p.request.status == Active && p.request.quantity > 0 && p.item in tx.transactions[id].items
    requires DistinctKeys(RowOf, RequestsIn(plans))
    requires forall i, j :: 0 <= i < j < |tx.transactions[id].items| ==>
      tx.transactions[id].items[i].id != tx.transactions[id].items[j].id
    modifies tx`reservations, tx`transactions
    ensures r.Ok? <==> Fits(old(tx.Snapshot()), RequestsIn(plans))
    ensures r.Ok? ==> tx.reservations == old(tx.reservations) + RequestsIn(plans)
    ensures r.Ok? ==>
      && |tx.transactions| == |old(tx.transactions)|
      && tx.transactions == old(tx.transactions)[id := old(tx.transactions)[id].(items := tx.transactions[id].items)]
      && ItemsMidway(old(tx.transactions)[id].items, tx.transactions[id].items, plans, |plans|, input)
    ensures r.Err? ==> r.error == Conflict
  {
    ghost var t1 := tx.Snapshot();
    assert t1.reservations + RequestsIn(plans)[..0] == t1.reservations;
    for n := 0 to |plans|
      invariant Partway(t1, tx.Snapshot(), id, plans, n, input)
    {
      assert RequestsIn(plans)[n] in RequestsIn(plans) && plans[n] in plans;
      r := ReserveNext(tx, id, plans, n, input, t1);
      if r.Err? { return; }
    }
    assert RequestsIn(plans)[..|plans|] == RequestsIn(plans);
    return Ok(Unit.Unit);
  }

  /** The first `n` plans are carried out on `t1`. */
  predicate Partway(t1: Tables, t: Tables, id: nat, plans: seq<Plan>, n: nat, input: UpdateInput) {
    && n <= |plans| && id < |t1.transactions| && |t.transactions| == |t1.transactions|
    && t.transactions == t1.transactions[id := t1.transactions[id].(items := t.transactions[id].items)]
    && t.stock == t1.stock
    && t.reservations == t1.reservations + RequestsIn(plans)[..n]
    && ItemsMidway(t1.transactions[id].items, t.transactions[id].items, plans, n, input)
    && forall i :: 0 <= i < n ==> plans[i].request.quantity <= Available(t1, RowOf(plans[i].request))
  }

  method ReserveNext(tx: Database, id: nat, plans: seq<Plan>, n: nat, input: UpdateInput, ghost t1: Tables)
    returns (r: Result<Unit, Error>)
    requires n < |plans| && Partway(t1, tx.Snapshot(), id, plans, n, input)
    requires plans[n].request.status == Active && plans[n].request.quantity > 0
    requires plans[n].item in t1.transactions[id].items
    requires DistinctKeys(RowOf, RequestsIn(plans))
    requires forall i, j :: 0 <= i < j < |t1.transactions[id].items| ==>
      t1.transactions[id].items[i].id != t1.transactions[id].items[j].id
    modifies tx`reservations, tx`transactions
    ensures r.Ok? ==> Partway(t1, tx.Snapshot(), id, plans, n + 1, input)
    ensures r.Err? ==> plans[n].request.quantity > Available(t1, RowOf(plans[n].request)) && r.error == Conflict
  {
    ghost var requests := RequestsIn(plans);
    EarlierElsewhere(t1.reservations, requests, n);
    ghost var items := tx.transactions[id].items;
    r := ReserveOne(tx, id, plans[n], input);
    if r.Err? { return; }
    ItemsStep(t1.transactions[id].items, items, plans, n, input, tx.transactions[id].items);
    assert requests[..n + 1] == requests[..n] + [requests[n]];
  }

  lemma PlansPositive(t: Tables, id: nat, input: UpdateInput)
    requires Ready(t, id) && ChangesOk(input)
    requires DistinctProducts(UpdatedItems(t.transactions[id].items, input.changes))
    ensures forall p <- SortedPlans(t.transactions[id], id, input) ::
      p.request.status == Active && p.request.quantity > 0 && p.item in t.transactions[id].items
    ensures DistinctKeys(RowOf, RequestsIn(SortedPlans(t.transactions[id], id, input)))
  {
    var tx := t.transactions[id];
    SortedPlansFacts(tx, id, input);
    forall p <- SortedPlans(tx, id, input) ensures p.request.quantity > 0 {
      ChangeForFacts(input.changes, p.item.id);
      assert ItemOk(p.item);
      if ChangeFor(input.changes, p.item.id).Some? {
        assert ChangeOk(ChangeFor(input.changes, p.item.id).value);
      }
    }
  }
}
