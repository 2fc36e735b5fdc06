/** What an update does to the rows it touches and when it goes through, in terms
    of the request and the old rows alone. */
module UpdateOutcomes {
  import opened Wrappers
  import opened StockOrder
  import opened StockLedger
  import opened ReservationRows
  import opened InventoryTables
  import opened BackingFacts
  import opened StatePreservation
  import opened InventoryRuns

  lemma UpdateStep(t: Tables, id: nat, input: UpdateInput)
    ensures Effect(t, UpdateCall(id, input)).Some? <==>
      IsPending(t, id) && UpdateAllowed(t, t.transactions[id], input) && UpdateFits(t, id, input)
    ensures Effect(t, UpdateCall(id, input)).Some? ==> Step(t, UpdateCall(id, input)) == AfterUpdate(t, id, input)
  {
  }

  // ---- the item and header values ----------------------------------------

  lemma {:induction false} TheChange(changes: seq<ItemChange>, c: ItemChange)
    requires c in changes
    requires forall i, j :: 0 <= i < j < |changes| ==> changes[i].itemId != changes[j].itemId
    ensures ChangeFor(changes, c.itemId) == Some(c)
  {
    ChangeForFacts(changes, c.itemId);
    var d := ChangeFor(changes, c.itemId).value;
    var i :| 0 <= i < |changes| && changes[i] == c;
    var j :| 0 <= j < |changes| && changes[j] == d;
    assert i == j;
  }

  /** An item that a change names takes over what the change gives and keeps the rest. */
  lemma UpdateWritesChange(t: Tables, id: nat, input: UpdateInput, x: nat, c: ItemChange)
    requires IsPending(t, id) && Effect(t, UpdateCall(id, input)).Some?
    requires x < |t.transactions[id].items| && c in input.changes && t.transactions[id].items[x].id == c.itemId
    ensures
      var was, after := t.transactions[id].items, Step(t, UpdateCall(id, input)).transactions;
      && id < |after| && |after[id].items| == |was|
      && after[id].items[x].id == c.itemId
      && after[id].items[x].productId == (match c.productId case Some(p) => p case None => was[x].productId)
      && after[id].items[x].quantity == (match c.quantity case Some(q) => q case None => was[x].quantity)
      && after[id].items[x].price == (match c.price case Some(_) => c.price case None => was[x].price)
  {
    UpdateStep(t, id, input);
    TheChange(input.changes, c);
  }

  /** An item that no change names stays as it is. */
  lemma UpdateKeepsItem(t: Tables, id: nat, input: UpdateInput, x: nat)
    requires IsPending(t, id) && Effect(t, UpdateCall(id, input)).Some?
    requires x < |t.transactions[id].items| && forall c <- input.changes :: c.itemId != t.transactions[id].items[x].id
    ensures
      var after := Step(t, UpdateCall(id, input)).transactions;
      && id < |after| && |after[id].items| == |t.transactions[id].items|
      && after[id].items[x] == t.transactions[id].items[x]
  {
    UpdateStep(t, id, input);
    ChangeForFacts(input.changes, t.transactions[id].items[x].id);
  }

  /** The header takes over what is given and keeps the rest; nothing but this row
      and the reservations changes. */
  lemma UpdateWritesHeader(t: Tables, id: nat, input: UpdateInput)
    requires IsPending(t, id) && Effect(t, UpdateCall(id, input)).Some?
    ensures
      var was, after := t.transactions[id], Step(t, UpdateCall(id, input));
      && |after.transactions| == |t.transactions|
      && (forall i :: 0 <= i < |t.transactions| && i != id ==> after.transactions[i] == t.transactions[i])
      && after.transactions[id].kind == was.kind && after.transactions[id].status == Pending
      && after.transactions[id].source == (match input.source case Some(_) => input.source case None => was.source)
      && after.transactions[id].destination == (match input.destination case Some(_) => input.destination case None => was.destination)
      && after.transactions[id].supplier == (match input.supplier case Some(_) => input.supplier case None => was.supplier)
      && after.transactions[id].expectedDate == (match input.expectedDate case Some(_) => input.expectedDate case None => was.expectedDate)
      && |after.transactions[id].items| == |was.items|
      && after == t.(transactions := after.transactions, reservations := after.reservations)
  {
    UpdateStep(t, id, input);
  }

  // ---- the reservations ---------------------------------------------------

  /** The reservations of transaction `id` set aside exactly its items at `w`, one row each. */
  predicate SetsAside(rs: seq<Reservation>, id: nat, w: int, items: seq<Item>) {
    && (forall r <- rs :: ActiveFor(r, id) ==>
          exists x :: 0 <= x < |items| && r == Reservation(id, items[x].productId, w, items[x].quantity, Active))
    && (forall x :: 0 <= x < |items| ==> Reservation(id, items[x].productId, w, items[x].quantity, Active) in rs)
    && (forall i, j :: 0 <= i < j < |rs| && ActiveFor(rs[i], id) && ActiveFor(rs[j], id) ==> rs[i].productId != rs[j].productId)
  }

  lemma BackedSetsAside(tx: Transaction, id: nat, rs: seq<Reservation>)
    requires Backed(tx, id, rs) && Holds(tx) && DistinctProducts(tx.items) && tx.source.Some?
    ensures SetsAside(rs, id, tx.source.value, tx.items)
  {
    forall r <- rs | ActiveFor(r, id)
      ensures exists x :: 0 <= x < |tx.items|
                          && r == Reservation(id, tx.items[x].productId, tx.source.value, tx.items[x].quantity, Active)
    {
      assert Matches(r, tx);
    }
    forall x | 0 <= x < |tx.items|
      ensures Reservation(id, tx.items[x].productId, tx.source.value, tx.items[x].quantity, Active) in rs
    {
      var i := ExactlyOneReservation(tx, id, rs, x);
    }
  }

  /** Rows of other orders and rows settled before stay as they are, own ACTIVE rows stay or
      are released, and every new row is an ACTIVE one of the order. */
  predicate OnlyOwnRows(before: seq<Reservation>, after: seq<Reservation>, id: nat) {
    && |before| <= |after|
    && (forall i :: 0 <= i < |before| ==>
          || after[i] == before[i]
          || (ActiveFor(before[i], id) && after[i] == before[i].(status := Released)))
    && (forall i :: |before| <= i < |after| ==> ActiveFor(after[i], id))
  }

  lemma SettledThenAdded(rs: seq<Reservation>, id: nat, products: set<int>, more: seq<Reservation>)
    requires forall r <- more :: ActiveFor(r, id)
    ensures OnlyOwnRows(rs, Settle(rs, id, products, Released) + more, id)
  {
  }

  /** An update that goes through touches no other order's reservations; a purchase's touches none. */
  lemma UpdateSparesOthers(t: Tables, id: nat, input: UpdateInput)
    requires IsPending(t, id) && Effect(t, UpdateCall(id, input)).Some?
    ensures
      var after := Step(t, UpdateCall(id, input)).reservations;
      if t.transactions[id].kind == Incoming then after == t.reservations else OnlyOwnRows(t.reservations, after, id)
  {
    UpdateStep(t, id, input);
    if t.transactions[id].kind != Incoming {
      var ps := SortedPlans(t.transactions[id], id, input);
      NewRowsAreActive(t, id, input);
      SettledThenAdded(t.reservations, id, OldProducts(ps), RequestsIn(ps));
    }
  }

  /** After an update the order's reservations are for its new items, in their new
      quantities, at its new source. */
  lemma UpdateReserves(t: Tables, id: nat, input: UpdateInput)
    requires Sound(t) && IsPending(t, id) && Effect(t, UpdateCall(id, input)).Some?
    requires t.transactions[id].kind != Incoming
    ensures
      var after := Step(t, UpdateCall(id, input));
      && id < |after.transactions| && after.transactions[id].source.Some?
      && SetsAside(after.reservations, id, after.transactions[id].source.value, after.transactions[id].items)
  {
    UpdateStep(t, id, input);
    UpdateBackedAfter(t, id, input);
    var after := AfterUpdate(t, id, input);
    BackedSetsAside(after.transactions[id], id, after.reservations);
  }

  lemma UpdateBackedAfter(t: Tables, id: nat, input: UpdateInput)
    requires Sound(t) && IsPending(t, id) && UpdateAllowed(t, t.transactions[id], input)
    ensures
      var after := AfterUpdate(t, id, input);
      Backed(after.transactions[id], id, after.reservations) && TransactionOk(after, after.transactions[id])
  {
    UpdateAllBacked(t, id, input);
    UpdateTransactions(t, id, input);
  }

  lemma NewRowsAreActive(t: Tables, id: nat, input: UpdateInput)
    requires id < |t.transactions| && DistinctProducts(UpdatedItems(t.transactions[id].items, input.changes))
    ensures forall r <- RequestsIn(SortedPlans(t.transactions[id], id, input)) :: ActiveFor(r, id)
  {
    var ps := SortedPlans(t.transactions[id], id, input);
    SortedPlansFacts(t.transactions[id], id, input);
    forall i | 0 <= i < |ps| ensures ActiveFor(ps[i].request, id) {
      assert ps[i] in ps;
    }
  }

  // ---- when it goes through -----------------------------------------------

  /** The update replaces the item's reservation. */
  predicate Replaced(item: Item, input: UpdateInput) {
    input.source.Some? || exists c :: c in input.changes && c.itemId == item.id
  }

  /** What the old reservations of the replaced items give back on row `k`. */
  function GivenBack(items: seq<Item>, source: int, input: UpdateInput, k: StockKey): int {
    if items == [] then 0
    else (if Replaced(items[0], input) && StockKey(source, items[0].productId) == k then items[0].quantity else 0)
         + GivenBack(items[1..], source, input, k)
  }

  lemma {:induction false} NothingGivenBack(items: seq<Item>, source: int, input: UpdateInput, k: StockKey)
    requires forall item <- items :: StockKey(source, item.productId) != k
    ensures GivenBack(items, source, input, k) == 0
  {
    if items != [] {
      NothingGivenBack(items[1..], source, input, k);
    }
  }

  lemma {:induction false} OneGivenBack(items: seq<Item>, source: int, input: UpdateInput, x: nat)
    requires DistinctProducts(items) && x < |items|
    ensures GivenBack(items, source, input, StockKey(source, items[x].productId)) ==
            if Replaced(items[x], input) then items[x].quantity else 0
  {
    if x == 0 {
      NothingGivenBack(items[1..], source, input, StockKey(source, items[0].productId));
    } else {
      OneGivenBack(items[1..], source, input, x - 1);
    }
  }

  lemma ReplacedResyncs(item: Item, input: UpdateInput)
    ensures Replaced(item, input) <==> Resyncs(item, input)
  {
    ChangeForFacts(input.changes, item.id);
  }

  lemma ItemGivenBack(tx: Transaction, id: nat, input: UpdateInput, x: nat)
    requires tx.source.Some? && DistinctProducts(tx.items) && x < |tx.items|
    requires DistinctProducts(UpdatedItems(tx.items, input.changes))
    ensures GivenBack(tx.items, tx.source.value, input, StockKey(tx.source.value, tx.items[x].productId)) ==
            if tx.items[x].productId in OldProducts(SortedPlans(tx, id, input)) then tx.items[x].quantity else 0
  {
    OneGivenBack(tx.items, tx.source.value, input, x);
    ResyncedIsOld(tx, id, input, tx.items[x]);
    ReplacedResyncs(tx.items[x], input);
  }

  /** Releasing the old set gives back the old quantities of the replaced items, nothing else. */
  lemma ReleasedIsGivenBack(t: Tables, id: nat, input: UpdateInput, k: StockKey)
    requires AllBacked(t) && IsPending(t, id) && TransactionOk(t, t.transactions[id])
    requires t.transactions[id].kind != Incoming && DistinctProducts(UpdatedItems(t.transactions[id].items, input.changes))
    ensures Reserved(ReleasedFor(t, id, input), k) ==
            Reserved(t.reservations, k) - GivenBack(t.transactions[id].items, t.transactions[id].source.value, input, k)
  {
    var tx := t.transactions[id];
    assert Backed(tx, id, t.reservations);
    SettleTakesShare(t.reservations, id, OldProducts(SortedPlans(tx, id, input)), Released, k);
    if x :| 0 <= x < |tx.items| && StockKey(tx.source.value, tx.items[x].productId) == k {
      ShareOfItem(tx, id, t.reservations, x);
      ItemGivenBack(tx, id, input, x);
    } else {
      NoOtherShare(tx, id, t.reservations, k);
      NothingGivenBack(tx.items, tx.source.value, input, k);
    }
  }

  /** The product and quantity an item has after the changes. */
  predicate EndsAs(item: Item, changes: seq<ItemChange>, p: int, q: int) {
    if exists c :: c in changes && c.itemId == item.id then
      exists c :: c in changes && c.itemId == item.id
                  && p == (match c.productId case Some(given) => given case None => item.productId)
                  && q == (match c.quantity case Some(given) => given case None => item.quantity)
    else p == item.productId && q == item.quantity
  }

  lemma EndsAsUpdated(item: Item, changes: seq<ItemChange>, p: int, q: int)
    requires forall i, j :: 0 <= i < j < |changes| ==> changes[i].itemId != changes[j].itemId
    ensures EndsAs(item, changes, p, q) <==>
      p == UpdatedItem(item, changes).productId && q == UpdatedItem(item, changes).quantity
  {
    ChangeForFacts(changes, item.id);
    if c :| c in changes && c.itemId == item.id {
      forall d | d in changes && d.itemId == item.id ensures ChangeFor(changes, item.id) == Some(d) {
        TheChange(changes, d);
      }
    }
  }

  /** The request and the catalogue are as update() demands. */
  predicate Admissible(t: Tables, tx: Transaction, input: UpdateInput) {
    && (forall c <- input.changes ::
          && (c.quantity.Some? ==> c.quantity.value > 0)
          && (c.price.Some? ==> c.price.value >= 0.0)
          && (c.productId.Some? ==>
                c.productId.value > 0 && c.productId.value in t.products && t.products[c.productId.value].active)
          && exists item :: item in tx.items && item.id == c.itemId)
    && (forall i, j :: 0 <= i < j < |input.changes| ==> input.changes[i].itemId != input.changes[j].itemId)
    && (input.source.Some? ==>
          tx.kind != Incoming && input.source.value in t.warehouses && t.warehouses[input.source.value])
    && (input.destination.Some? ==>
          tx.kind != Outgoing && input.destination.value in t.warehouses && t.warehouses[input.destination.value])
    && (input.supplier.Some? ==>
          tx.kind == Incoming && input.supplier.value in t.suppliers && t.suppliers[input.supplier.value])
    && (tx.kind == Transfer ==>
          (match input.source case Some(_) => input.source case None => tx.source)
          != (match input.destination case Some(_) => input.destination case None => tx.destination))
  }

  /** No two items end with one product. */
  ghost predicate EndApart(items: seq<Item>, changes: seq<ItemChange>) {
    forall x, y, p, q, r :: 0 <= x < y < |items| ==>
      !(EndsAs(items[x], changes, p, q) && EndsAs(items[y], changes, p, r))
  }

  /** Every replaced item finds its new quantity on its new row, counting what the
      order itself gives back there. */
  ghost predicate Room(t: Tables, tx: Transaction, input: UpdateInput)
    requires tx.source.Some?
  {
    forall x, p, q :: 0 <= x < |tx.items| && Replaced(tx.items[x], input) && EndsAs(tx.items[x], input.changes, p, q) ==>
      var k := StockKey(match input.source case Some(w) => w case None => tx.source.value, p);
      q <= OnHand(t.stock, k) - Reserved(t.reservations, k) + GivenBack(tx.items, tx.source.value, input, k)
  }

  /** update() goes through exactly for a PENDING row, a request the rules admit, products that end
      apart, and room for every replaced item. */
  lemma UpdateGoesThrough(t: Tables, id: nat, input: UpdateInput)
    requires Sound(t)
    ensures Effect(t, UpdateCall(id, input)).Some? <==>
      && id < |t.transactions| && t.transactions[id].status == Pending
      && Admissible(t, t.transactions[id], input)
      && EndApart(t.transactions[id].items, input.changes)
      && (t.transactions[id].source.Some? ==> Room(t, t.transactions[id], input))
  {
    UpdateStep(t, id, input);
    if IsPending(t, id) {
      var tx := t.transactions[id];
      assert TransactionOk(t, tx);
      AllowedIsAdmissible(t, tx, input);
      if UpdateAllowed(t, tx, input) && tx.kind != Incoming {
        RoomIsFits(t, id, input);
      }
    }
  }

  lemma AllowedIsAdmissible(t: Tables, tx: Transaction, input: UpdateInput)
    requires Shaped(tx)
    ensures UpdateAllowed(t, tx, input) <==> Admissible(t, tx, input) && EndApart(tx.items, input.changes)
  {
    if Admissible(t, tx, input) {
      ApartIsDistinct(tx.items, input.changes);
      forall c <- input.changes ensures exists i :: 0 <= i < |tx.items| && tx.items[i].id == c.itemId {
        var item :| item in tx.items && item.id == c.itemId;
      }
    }
    if UpdateAllowed(t, tx, input) {
      ApartIsDistinct(tx.items, input.changes);
      forall c <- input.changes ensures exists item :: item in tx.items && item.id == c.itemId {
        var i :| 0 <= i < |tx.items| && tx.items[i].id == c.itemId;
        assert tx.items[i] in tx.items;
      }
    }
  }

  lemma ApartIsDistinct(items: seq<Item>, changes: seq<ItemChange>)
    requires forall i, j :: 0 <= i < j < |changes| ==> changes[i].itemId != changes[j].itemId
    ensures EndApart(items, changes) <==> DistinctProducts(UpdatedItems(items, changes))
  {
    var all := UpdatedItems(items, changes);
    forall x, p, q | 0 <= x < |items|
      ensures EndsAs(items[x], changes, p, q) <==> p == all[x].productId && q == all[x].quantity
    {
      EndsAsUpdated(items[x], changes, p, q);
    }
    if EndApart(items, changes) {
      forall x, y | 0 <= x < y < |items| ensures all[x].productId != all[y].productId {
        assert EndsAs(items[x], changes, all[x].productId, all[x].quantity);
        assert EndsAs(items[y], changes, all[y].productId, all[y].quantity);
      }
    }
  }

  lemma RoomIsFits(t: Tables, id: nat, input: UpdateInput)
    requires AllBacked(t) && IsPending(t, id) && TransactionOk(t, t.transactions[id])
    requires t.transactions[id].kind != Incoming && UpdateAllowed(t, t.transactions[id], input)
    ensures Room(t, t.transactions[id], input) <==> UpdateFits(t, id, input)
  {
    if Room(t, t.transactions[id], input) {
      RoomFits(t, id, input);
    }
    if UpdateFits(t, id, input) {
      FitsRoom(t, id, input);
    }
  }

  /** The row an item is asked for on. */
  lemma RequestOf(tx: Transaction, id: nat, input: UpdateInput, item: Item, p: int, q: int)
    requires tx.source.Some? && EndsAs(item, input.changes, p, q)
    requires forall i, j :: 0 <= i < j < |input.changes| ==> input.changes[i].itemId != input.changes[j].itemId
    ensures Request(UpdatedTransaction(tx, input), id, UpdatedItem(item, input.changes)) ==
            Reservation(id, p, match input.source case Some(w) => w case None => tx.source.value, q, Active)
  {
    EndsAsUpdated(item, input.changes, p, q);
  }

  lemma RoomForItem(t: Tables, tx: Transaction, id: nat, input: UpdateInput, x: nat)
    requires tx.source.Some? && Room(t, tx, input) && x < |tx.items| && Resyncs(tx.items[x], input)
    requires forall i, j :: 0 <= i < j < |input.changes| ==> input.changes[i].itemId != input.changes[j].itemId
    ensures
      var r := Request(UpdatedTransaction(tx, input), id, UpdatedItem(tx.items[x], input.changes));
      r.quantity <= OnHand(t.stock, RowOf(r)) - Reserved(t.reservations, RowOf(r))
                    + GivenBack(tx.items, tx.source.value, input, RowOf(r))
  {
    var ended := UpdatedItem(tx.items[x], input.changes);
    EndsAsUpdated(tx.items[x], input.changes, ended.productId, ended.quantity);
    RequestOf(tx, id, input, tx.items[x], ended.productId, ended.quantity);
    ReplacedResyncs(tx.items[x], input);
  }

  lemma RoomFits(t: Tables, id: nat, input: UpdateInput)
    requires AllBacked(t) && IsPending(t, id) && TransactionOk(t, t.transactions[id])
    requires t.transactions[id].kind != Incoming && UpdateAllowed(t, t.transactions[id], input)
    requires Room(t, t.transactions[id], input)
    ensures UpdateFits(t, id, input)
  {
    var tx := t.transactions[id];
    var ps := SortedPlans(tx, id, input);
    SortedPlansFacts(tx, id, input);
    forall r <- RequestsIn(ps) ensures r.quantity <= Available(t.(reservations := ReleasedFor(t, id, input)), RowOf(r)) {
      var i :| 0 <= i < |ps| && ps[i].request == r;
      assert ps[i] in ps;
      var x :| 0 <= x < |tx.items| && tx.items[x] == ps[i].item;
      RoomForItem(t, tx, id, input, x);
      ReleasedIsGivenBack(t, id, input, RowOf(r));
    }
  }

  lemma FitsRoom(t: Tables, id: nat, input: UpdateInput)
    requires AllBacked(t) && IsPending(t, id) && TransactionOk(t, t.transactions[id])
    requires t.transactions[id].kind != Incoming && UpdateAllowed(t, t.transactions[id], input)
    requires UpdateFits(t, id, input)
    ensures Room(t, t.transactions[id], input)
  {
    var tx := t.transactions[id];
    forall x, p, q | 0 <= x < |tx.items| && Replaced(tx.items[x], input) && EndsAs(tx.items[x], input.changes, p, q)
      ensures
        var k := StockKey(match input.source case Some(w) => w case None => tx.source.value, p);
        q <= OnHand(t.stock, k) - Reserved(t.reservations, k) + GivenBack(tx.items, tx.source.value, input, k)
    {
      ReplacedResyncs(tx.items[x], input);
      var i := PlanOf(tx, id, input, tx.items[x]);
      RequestOf(tx, id, input, tx.items[x], p, q);
      var r := RequestsIn(SortedPlans(tx, id, input))[i];
      assert r in RequestsIn(SortedPlans(tx, id, input));
      ReleasedIsGivenBack(t, id, input, RowOf(r));
    }
  }
}
