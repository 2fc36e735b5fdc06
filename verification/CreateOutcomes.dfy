/** What creating a transaction writes and when it goes through, in terms of the
    request alone. */
module CreateOutcomes {
  import opened Wrappers
  import opened StockOrder
  import opened StockLedger
  import opened ReservationRows
  import opened InventoryTables
  import opened BackingFacts
  import opened StatePreservation
  import opened CreateTransaction
  import opened InventoryRuns

  /** The items of a new row are the inputs, in order, with ids counting up. */
  predicate ItemsAre(items: seq<Item>, inputs: seq<ItemInput>, firstId: nat) {
    && |items| == |inputs|
    && forall x :: 0 <= x < |inputs| ==>
         && items[x].id == firstId + x
         && items[x].productId == inputs[x].productId
         && items[x].quantity == inputs[x].quantity
         && items[x].price == inputs[x].price
  }

  /** One ACTIVE reservation per input at `w`, and no other row. */
  predicate ReservesAre(made: seq<Reservation>, id: nat, w: int, inputs: seq<ItemInput>) {
    && |made| == |inputs|
    && (forall x <- inputs :: Reservation(id, x.productId, w, x.quantity, Active) in made)
    && (forall r <- made :: exists x <- inputs :: r == Reservation(id, x.productId, w, x.quantity, Active))
  }

  /** A PENDING row with this header and these items is the last of the table, and
      nothing else changes but reservations. */
  predicate Added(t: Tables, after: Tables, header: Transaction, inputs: seq<ItemInput>) {
    && |after.transactions| == |t.transactions| + 1
    && after.transactions[..|t.transactions|] == t.transactions
    && after.transactions[|t.transactions|] == header.(items := after.transactions[|t.transactions|].items)
    && ItemsAre(after.transactions[|t.transactions|].items, inputs, t.nextItemId)
    && after == t.(transactions := after.transactions, reservations := after.reservations,
                   nextItemId := t.nextItemId + |inputs|)
  }

  /** The rest of the reservation table is as it was, with this many rows behind it. */
  predicate ReservedFor(t: Tables, after: Tables, w: int, inputs: seq<ItemInput>) {
    && |t.reservations| <= |after.reservations|
    && after.reservations[..|t.reservations|] == t.reservations
    && ReservesAre(after.reservations[|t.reservations|..], |t.transactions|, w, inputs)
  }

  lemma CreatedAdds(t: Tables, header: Transaction, inputs: seq<ItemInput>)
    requires header.status == Pending
    ensures Added(t, AfterCreate(t, header, inputs), header, inputs)
    ensures header.kind == Incoming ==> AfterCreate(t, header, inputs).reservations == t.reservations
  {
  }

  lemma CreatedReserves(t: Tables, header: Transaction, inputs: seq<ItemInput>)
    requires header.status == Pending && header.kind != Incoming && header.source.Some?
    requires InputsOk(inputs, false)
    ensures ReservedFor(t, AfterCreate(t, header, inputs), header.source.value, inputs)
  {
    var tx, id := header.(status := Pending, items := NewItems(inputs, t.nextItemId)), |t.transactions|;
    var made := NewReservations(tx, id);
    assert (t.reservations + made)[|t.reservations|..] == made;
    MadeAreInputs(tx, id, inputs, t.nextItemId);
  }

  lemma MadeAreInputs(tx: Transaction, id: nat, inputs: seq<ItemInput>, firstId: nat)
    requires tx.items == NewItems(inputs, firstId) && tx.kind != Incoming && tx.source.Some? && InputsOk(inputs, false)
    ensures ReservesAre(NewReservations(tx, id), id, tx.source.value, inputs)
  {
    NewReservationsFacts(tx, id);
    var made := NewReservations(tx, id);
    forall x <- inputs ensures Reservation(id, x.productId, tx.source.value, x.quantity, Active) in made {
      var i :| 0 <= i < |inputs| && inputs[i] == x;
      assert Request(tx, id, tx.items[i]) in made;
    }
    forall r <- made ensures exists x <- inputs :: r == Reservation(id, x.productId, tx.source.value, x.quantity, Active) {
      var i :| 0 <= i < |tx.items| && r == Request(tx, id, tx.items[i]);
      assert inputs[i] in inputs;
    }
  }

  // ---- the three calls ----------------------------------------------------

  /** A non-empty list of different products, each with a positive quantity and no negative price. */
  predicate Orderable(inputs: seq<ItemInput>) {
    && |inputs| > 0
    && (forall x <- inputs :: x.productId > 0 && x.quantity > 0 && (x.price.Some? ==> x.price.value >= 0.0))
    && (forall i, j :: 0 <= i < j < |inputs| ==> inputs[i].productId != inputs[j].productId)
  }

  predicate Live(rows: map<int, bool>, id: int) {
    id in rows && rows[id]
  }

  /** Every product exists, is active, and has what is asked left over at `w`. */
  predicate InStock(t: Tables, w: int, inputs: seq<ItemInput>) {
    forall x <- inputs ::
      && x.productId in t.products && t.products[x.productId].active
      && x.quantity <= OnHand(t.stock, StockKey(w, x.productId)) - Reserved(t.reservations, StockKey(w, x.productId))
  }

  lemma PurchaseAllowed(t: Tables, supplier: int, destination: int, date: Option<int>, inputs: seq<ItemInput>)
    ensures Created(t, IncomingHeader(supplier, destination, date), inputs).Some? <==>
      Orderable(inputs) && Live(t.suppliers, supplier) && Live(t.warehouses, destination)
      && forall x <- inputs :: x.price.Some? && x.productId in t.products && t.products[x.productId].active
  {
  }

  lemma SaleAllowed(t: Tables, source: int, date: Option<int>, inputs: seq<ItemInput>)
    ensures Created(t, OutgoingHeader(source, date), inputs).Some? <==>
      Orderable(inputs) && Live(t.warehouses, source) && InStock(t, source, inputs)
  {
  }

  lemma TransferAllowed(t: Tables, source: int, destination: int, date: Option<int>, inputs: seq<ItemInput>)
    ensures Created(t, TransferHeader(source, destination, date), inputs).Some? <==>
      Orderable(inputs) && source != destination && Live(t.warehouses, source) && Live(t.warehouses, destination)
      && InStock(t, source, inputs)
  {
  }

  lemma CreatedIs(t: Tables, header: Transaction, inputs: seq<ItemInput>)
    requires header.status == Pending && Created(t, header, inputs).Some?
    ensures Added(t, Created(t, header, inputs).value, header, inputs)
    ensures header.kind == Incoming ==> Created(t, header, inputs).value.reservations == t.reservations
    ensures header.kind != Incoming ==>
      header.source.Some? && ReservedFor(t, Created(t, header, inputs).value, header.source.value, inputs)
  {
    CreatedAdds(t, header, inputs);
    if header.kind != Incoming {
      CreatedReserves(t, header, inputs);
    }
  }

  /** A purchase goes through exactly for a live supplier and warehouse and priced,
      active products; it adds its row and sets nothing aside. */
  lemma PurchaseMade(t: Tables, supplier: int, destination: int, date: Option<int>, inputs: seq<ItemInput>)
    ensures
      var c := CreateIncomingCall(supplier, destination, date, inputs);
      && (Effect(t, c).Some? <==>
            Orderable(inputs) && Live(t.suppliers, supplier) && Live(t.warehouses, destination)
            && forall x <- inputs :: x.price.Some? && x.productId in t.products && t.products[x.productId].active)
      && (Effect(t, c).Some? ==>
            && Added(t, Step(t, c), Transaction(Incoming, Pending, None, Some(destination), Some(supplier), date, []), inputs)
            && Step(t, c).reservations == t.reservations)
  {
    var header := IncomingHeader(supplier, destination, date);
    assert Effect(t, CreateIncomingCall(supplier, destination, date, inputs)) == Created(t, header, inputs);
    PurchaseAllowed(t, supplier, destination, date, inputs);
    if Created(t, header, inputs).Some? { CreatedIs(t, header, inputs); }
  }

  /** A sale goes through exactly for a live warehouse and active products with enough left over
      there; it adds its row and sets each item aside. */
  lemma SaleMade(t: Tables, source: int, date: Option<int>, inputs: seq<ItemInput>)
    ensures
      var c := CreateOutgoingCall(source, date, inputs);
      && (Effect(t, c).Some? <==> Orderable(inputs) && Live(t.warehouses, source) && InStock(t, source, inputs))
      && (Effect(t, c).Some? ==>
            && Added(t, Step(t, c), Transaction(Outgoing, Pending, Some(source), None, None, date, []), inputs)
            && ReservedFor(t, Step(t, c), source, inputs))
  {
    var header := OutgoingHeader(source, date);
    assert Effect(t, CreateOutgoingCall(source, date, inputs)) == Created(t, header, inputs);
    SaleAllowed(t, source, date, inputs);
    if Created(t, header, inputs).Some? { CreatedIs(t, header, inputs); }
  }

  /** A transfer: the same at its source, with a different live destination. */
  lemma TransferMade(t: Tables, source: int, destination: int, date: Option<int>, inputs: seq<ItemInput>)
    ensures
      var c := CreateTransferCall(source, destination, date, inputs);
      && (Effect(t, c).Some? <==>
            Orderable(inputs) && source != destination && Live(t.warehouses, source) && Live(t.warehouses, destination)
            && InStock(t, source, inputs))
      && (Effect(t, c).Some? ==>
            && Added(t, Step(t, c), Transaction(Transfer, Pending, Some(source), Some(destination), None, date, []), inputs)
            && ReservedFor(t, Step(t, c), source, inputs))
  {
    var header := TransferHeader(source, destination, date);
    assert Effect(t, CreateTransferCall(source, destination, date, inputs)) == Created(t, header, inputs);
    TransferAllowed(t, source, destination, date, inputs);
    if Created(t, header, inputs).Some? { CreatedIs(t, header, inputs); }
  }
}
