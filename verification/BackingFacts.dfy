/** Reservations against items: shares of a stock row, and what settling and
    adding rows does to the one-reservation-per-item rule. */
module BackingFacts {
  import opened Wrappers
  import opened StockOrder
  import opened StockLedger
  import opened ReservationRows
  import opened InventoryTables

  /** The item behind an ACTIVE reservation, and there is no second such row. */
  lemma ExactlyOneReservation(tx: Transaction, id: nat, rs: seq<Reservation>, x: nat) returns (i: nat)
    requires Backed(tx, id, rs) && Holds(tx) && DistinctProducts(tx.items) && x < |tx.items|
    ensures i < |rs| && rs[i] == Request(tx, id, tx.items[x])
    ensures forall j :: 0 <= j < |rs| && j != i ==>
      !(ActiveFor(rs[j], id) && rs[j].productId == tx.items[x].productId)
  {
    var p := tx.items[x].productId;
    assert HasActive(rs, id, p);
    i :| 0 <= i < |rs| && ActiveFor(rs[i], id) && rs[i].productId == p;
    assert Matches(rs[i], tx);
    forall j | 0 <= j < |rs| && j != i ensures !(ActiveFor(rs[j], id) && rs[j].productId == p) {
      if j < i { assert !(ActiveFor(rs[j], id) && rs[j].productId == rs[i].productId); }
    }
  }

  /** A transaction's share of the row of one of its items is that item's quantity. */
  lemma ShareOfItem(tx: Transaction, id: nat, rs: seq<Reservation>, x: nat)
    requires Backed(tx, id, rs) && Holds(tx) && DistinctProducts(tx.items) && x < |tx.items|
    ensures ReservedBy(rs, id, StockKey(Leg(tx.source), tx.items[x].productId)) == tx.items[x].quantity
  {
    var i := ExactlyOneReservation(tx, id, rs, x);
    ShareIsOne(rs, id, StockKey(Leg(tx.source), tx.items[x].productId), i);
  }

  /** It has no share of any other row. */
  lemma NoOtherShare(tx: Transaction, id: nat, rs: seq<Reservation>, k: StockKey)
    requires Backed(tx, id, rs)
    requires !Holds(tx) || k.warehouseId != Leg(tx.source) || k.productId !in ProductsOf(tx.items)
    ensures ReservedBy(rs, id, k) == 0
  {
    forall r <- rs ensures !(ActiveFor(r, id) && RowOf(r) == k) {
      if ActiveFor(r, id) {
        assert Matches(r, tx);
      }
    }
    ShareIsZero(rs, id, k);
  }

  /** Settling one transaction's rows leaves every other transaction backed. */
  lemma SettleKeepsOthers(tx: Transaction, id: nat, rs: seq<Reservation>, other: nat, products: set<int>, status: ReservationStatus)
    requires Backed(tx, id, rs) && other != id && status != Active
    ensures Backed(tx, id, Settle(rs, other, products, status))
  {
    var rs' := Settle(rs, other, products, status);
    if Holds(tx) {
      forall x | 0 <= x < |tx.items| ensures HasActive(rs', id, tx.items[x].productId) {
        assert HasActive(rs, id, tx.items[x].productId);
        var i :| 0 <= i < |rs| && ActiveFor(rs[i], id) && rs[i].productId == tx.items[x].productId;
        assert rs'[i] == rs[i];
      }
    }
  }

  /** Settling all of a transaction's products leaves it with no ACTIVE row. */
  lemma SettleClears(tx: Transaction, after: Transaction, id: nat, rs: seq<Reservation>, status: ReservationStatus)
    requires Backed(tx, id, rs) && status != Active && !Holds(after)
    ensures Backed(after, id, Settle(rs, id, ProductsOf(tx.items), status))
  {
    var rs' := Settle(rs, id, ProductsOf(tx.items), status);
    forall i | 0 <= i < |rs'| ensures !ActiveFor(rs'[i], id) {
      if ActiveFor(rs[i], id) {
        assert Matches(rs[i], tx);
      }
    }
  }

  /** Rows added for another transaction do not matter. */
  lemma AppendKeepsOthers(tx: Transaction, id: nat, rs: seq<Reservation>, more: seq<Reservation>)
    requires Backed(tx, id, rs)
    requires forall r <- more :: r.transactionId != id
    ensures Backed(tx, id, rs + more)
  {
    var rs' := rs + more;
    assert forall i :: |rs| <= i < |rs'| ==> rs'[i] in more;
    if Holds(tx) {
      forall x | 0 <= x < |tx.items| ensures HasActive(rs', id, tx.items[x].productId) {
        assert HasActive(rs, id, tx.items[x].productId);
        var i :| 0 <= i < |rs| && ActiveFor(rs[i], id) && rs[i].productId == tx.items[x].productId;
        assert rs'[i] == rs[i];
      }
    }
  }

  // ---- create ------------------------------------------------------------

  lemma RequestsDistinct(tx: Transaction, id: nat)
    requires DistinctProducts(tx.items)
    ensures DistinctKeys(RowOf, RequestsOf(tx, id))
  {
  }

  lemma NewReservationsFacts(tx: Transaction, id: nat)
    requires DistinctProducts(tx.items)
    ensures DistinctKeys(RowOf, NewReservations(tx, id))
    ensures forall r :: r in NewReservations(tx, id) <==>
      tx.kind != Incoming && exists x :: 0 <= x < |tx.items| && r == Request(tx, id, tx.items[x])
  {
    if tx.kind != Incoming {
      RequestsDistinct(tx, id);
      SortAscends(RowOf, RequestsOf(tx, id));
      SameElements(RowOf, RequestsOf(tx, id));
      forall r ensures r in NewReservations(tx, id) <==>
        exists x :: 0 <= x < |tx.items| && r == Request(tx, id, tx.items[x])
      {
        if x :| 0 <= x < |tx.items| && r == Request(tx, id, tx.items[x]) {
          assert RequestsOf(tx, id)[x] == r;
        }
        if r in RequestsOf(tx, id) {
          var x :| 0 <= x < |tx.items| && RequestsOf(tx, id)[x] == r;
          assert r == Request(tx, id, tx.items[x]);
        }
      }
    }
  }

  /** A fresh transaction is backed by the reservations made for it. */
  lemma CreateBacks(tx: Transaction, id: nat, rs: seq<Reservation>)
    requires tx.status == Pending && DistinctProducts(tx.items)
    requires forall r <- rs :: r.transactionId != id
    ensures Backed(tx, id, rs + NewReservations(tx, id))
  {
    NewReservationsFacts(tx, id);
    var more := NewReservations(tx, id);
    var rs' := rs + more;
    assert forall i :: 0 <= i < |rs| ==> rs'[i] in rs;
    forall i | |rs| <= i < |rs'| ensures rs'[i] in more && Matches(rs'[i], tx) {
      assert rs'[i] == more[i - |rs|];
    }
    forall i, j | 0 <= i < j < |rs'| && ActiveFor(rs'[i], id) && ActiveFor(rs'[j], id)
      ensures rs'[i].productId != rs'[j].productId
    {
      assert RowOf(more[i - |rs|]) != RowOf(more[j - |rs|]);
      assert Matches(rs'[i], tx) && Matches(rs'[j], tx);
    }
    if Holds(tx) {
      forall x | 0 <= x < |tx.items| ensures HasActive(rs', id, tx.items[x].productId) {
        var r := Request(tx, id, tx.items[x]);
        assert r in more;
        var i :| 0 <= i < |more| && more[i] == r;
        assert rs'[|rs| + i] == r;
      }
    }
  }

  // ---- update ------------------------------------------------------------

  lemma {:induction false} PlansFacts(after: Transaction, id: nat, items: seq<Item>, input: UpdateInput)
    ensures forall p :: p in PlansOf(after, id, items, input) <==>
      p.item in items && Resyncs(p.item, input) && p.request == Request(after, id, UpdatedItem(p.item, input.changes))
  {
    if items != [] {
      var front, last := items[..|items| - 1], items[|items| - 1];
      assert items == front + [last];
      PlansFacts(after, id, front, input);
    }
  }

  lemma {:induction false} PlansDistinct(after: Transaction, id: nat, items: seq<Item>, input: UpdateInput)
    requires DistinctProducts(UpdatedItems(items, input.changes))
    ensures DistinctKeys(PlanRow, PlansOf(after, id, items, input))
  {
    if items != [] {
      var front, last := items[..|items| - 1], items[|items| - 1];
      var all := UpdatedItems(items, input.changes);
      forall i, j | 0 <= i < j < |front|
        ensures UpdatedItems(front, input.changes)[i].productId != UpdatedItems(front, input.changes)[j].productId
      {
        assert all[i].productId != all[j].productId;
      }
      PlansDistinct(after, id, front, input);
      PlansFacts(after, id, front, input);
      forall p <- PlansOf(after, id, front, input)
        ensures PlanRow(p).productId != UpdatedItem(last, input.changes).productId
      {
        var i :| 0 <= i < |front| && front[i] == p.item;
        assert all[i].productId != all[|items| - 1].productId;
      }
    }
  }

  lemma SortedPlansFacts(tx: Transaction, id: nat, input: UpdateInput)
    requires DistinctProducts(UpdatedItems(tx.items, input.changes))
    ensures DistinctKeys(PlanRow, SortedPlans(tx, id, input))
    ensures DistinctKeys(RowOf, RequestsIn(SortedPlans(tx, id, input)))
    ensures forall p :: p in SortedPlans(tx, id, input) <==>
      && p.item in tx.items && Resyncs(p.item, input)
      && p.request == Request(UpdatedTransaction(tx, input), id, UpdatedItem(p.item, input.changes))
  {
    var after := UpdatedTransaction(tx, input);
    PlansFacts(after, id, tx.items, input);
    PlansDistinct(after, id, tx.items, input);
    SortAscends(PlanRow, PlansOf(after, id, tx.items, input));
    SameElements(PlanRow, PlansOf(after, id, tx.items, input));
    var ps := SortedPlans(tx, id, input);
    forall i, j | 0 <= i < j < |ps| ensures RowOf(RequestsIn(ps)[i]) != RowOf(RequestsIn(ps)[j]) {
      assert PlanRow(ps[i]) != PlanRow(ps[j]);
    }
  }

  lemma ResyncedIsOld(tx: Transaction, id: nat, input: UpdateInput, item: Item)
    requires DistinctProducts(UpdatedItems(tx.items, input.changes))
    requires item in tx.items
    ensures Resyncs(item, input) ==> item.productId in OldProducts(SortedPlans(tx, id, input))
    ensures DistinctProducts(tx.items) && !Resyncs(item, input)
            ==> item.productId !in OldProducts(SortedPlans(tx, id, input))
  {
    SortedPlansFacts(tx, id, input);
    var ps := SortedPlans(tx, id, input);
    if Resyncs(item, input) {
      var p := Plan(item, Request(UpdatedTransaction(tx, input), id, UpdatedItem(item, input.changes)));
      assert p in ps;
    }
    if p :| p in ps && p.item.productId == item.productId && DistinctProducts(tx.items) {
      var x :| 0 <= x < |tx.items| && tx.items[x] == item;
      var y :| 0 <= y < |tx.items| && tx.items[y] == p.item;
      assert x == y;
    }
  }

  /** What is left of a transaction's rows once the items to replace are released:
      the rows of the items that keep their reservation. */
  lemma ReleasedRowsAreKept(tx: Transaction, id: nat, rs: seq<Reservation>, input: UpdateInput, i: nat) returns (x: nat)
    requires ItemsOk(tx.items) && Backed(tx, id, rs) && Holds(tx)
    requires DistinctProducts(UpdatedItems(tx.items, input.changes))
    requires i < |rs|
    requires ActiveFor(Settle(rs, id, OldProducts(SortedPlans(tx, id, input)), Released)[i], id)
    ensures x < |tx.items| && rs[i] == Request(tx, id, tx.items[x]) && !Resyncs(tx.items[x], input)
  {
    var ps := SortedPlans(tx, id, input);
    assert ActiveFor(rs[i], id) && rs[i].productId !in OldProducts(ps);
    assert Matches(rs[i], tx);
    x :| 0 <= x < |tx.items| && tx.items[x].productId == rs[i].productId && tx.items[x].quantity == rs[i].quantity;
    if Resyncs(tx.items[x], input) {
      ResyncedIsOld(tx, id, input, tx.items[x]);
    }
  }

  /** The rule survives an update, whatever items swap products or move away. */
  lemma UpdateBacks(tx: Transaction, id: nat, rs: seq<Reservation>, input: UpdateInput)
    requires ItemsOk(tx.items) && Backed(tx, id, rs) && Holds(tx)
    requires DistinctProducts(UpdatedItems(tx.items, input.changes))
    ensures Backed(UpdatedTransaction(tx, input), id,
                   Settle(rs, id, OldProducts(SortedPlans(tx, id, input)), Released)
                   + RequestsIn(SortedPlans(tx, id, input)))
  {
    UpdateMatches(tx, id, rs, input);
    UpdateOnce(tx, id, rs, input);
    UpdateCovers(tx, id, rs, input);
  }

  lemma UpdateMatches(tx: Transaction, id: nat, rs: seq<Reservation>, input: UpdateInput)
    requires ItemsOk(tx.items) && Backed(tx, id, rs) && Holds(tx)
    requires DistinctProducts(UpdatedItems(tx.items, input.changes))
    ensures
      var after := UpdatedTransaction(tx, input);
      var rs' := Settle(rs, id, OldProducts(SortedPlans(tx, id, input)), Released)
                 + RequestsIn(SortedPlans(tx, id, input));
      forall i :: 0 <= i < |rs'| && ActiveFor(rs'[i], id) ==> Matches(rs'[i], after)
  {
    var after := UpdatedTransaction(tx, input);
    var ps := SortedPlans(tx, id, input);
    var kept := Settle(rs, id, OldProducts(ps), Released);
    var rs' := kept + RequestsIn(ps);
    SortedPlansFacts(tx, id, input);
    forall i | 0 <= i < |rs'| && ActiveFor(rs'[i], id) ensures Matches(rs'[i], after) {
      if i < |kept| {
        var x := ReleasedRowsAreKept(tx, id, rs, input, i);
        assert after.items[x] == tx.items[x];
      } else {
        var p := ps[i - |kept|];
        assert p in ps;
        var x :| 0 <= x < |tx.items| && tx.items[x] == p.item;
        assert after.items[x] == UpdatedItem(p.item, input.changes);
      }
    }
  }

  lemma UpdateOnce(tx: Transaction, id: nat, rs: seq<Reservation>, input: UpdateInput)
    requires ItemsOk(tx.items) && Backed(tx, id, rs) && Holds(tx)
    requires DistinctProducts(UpdatedItems(tx.items, input.changes))
    ensures
      var rs' := Settle(rs, id, OldProducts(SortedPlans(tx, id, input)), Released)
                 + RequestsIn(SortedPlans(tx, id, input));
      forall i, j :: 0 <= i < j < |rs'| && ActiveFor(rs'[i], id) && ActiveFor(rs'[j], id)
                     ==> rs'[i].productId != rs'[j].productId
  {
    var ps := SortedPlans(tx, id, input);
    var kept, made := Settle(rs, id, OldProducts(ps), Released), RequestsIn(ps);
    KeptApart(tx, id, rs, OldProducts(ps));
    MadeApart(tx, id, input);
    forall i, j | 0 <= i < |kept| && 0 <= j < |made| && ActiveFor(kept[i], id)
      ensures kept[i].productId != made[j].productId
    {
      assert ps[j] in ps;
      KeptIsNotReplaced(tx, id, rs, input, i, ps[j]);
    }
    ApartTogether(kept, made, id);
  }

  /** A transaction's ACTIVE rows are for different products. */
  predicate RowsApart(rs: seq<Reservation>, id: nat) {
    forall i, j :: 0 <= i < j < |rs| && ActiveFor(rs[i], id) && ActiveFor(rs[j], id) ==>
      rs[i].productId != rs[j].productId
  }

  lemma KeptApart(tx: Transaction, id: nat, rs: seq<Reservation>, products: set<int>)
    requires Backed(tx, id, rs)
    ensures RowsApart(Settle(rs, id, products, Released), id)
  {
    var kept := Settle(rs, id, products, Released);
    forall i, j | 0 <= i < j < |kept| && ActiveFor(kept[i], id) && ActiveFor(kept[j], id)
      ensures kept[i].productId != kept[j].productId
    {
      assert ActiveFor(rs[i], id) && ActiveFor(rs[j], id);
    }
  }

  lemma MadeApart(tx: Transaction, id: nat, input: UpdateInput)
    requires DistinctProducts(UpdatedItems(tx.items, input.changes))
    ensures RowsApart(RequestsIn(SortedPlans(tx, id, input)), id)
  {
    var ps := SortedPlans(tx, id, input);
    SortedPlansFacts(tx, id, input);
    forall i, j | 0 <= i < j < |ps| ensures ps[i].request.productId != ps[j].request.productId {
      assert PlanRow(ps[i]) != PlanRow(ps[j]);
      assert ps[i] in ps && ps[j] in ps;
    }
  }

  lemma ApartTogether(a: seq<Reservation>, b: seq<Reservation>, id: nat)
    requires RowsApart(a, id) && RowsApart(b, id)
    requires forall i, j :: 0 <= i < |a| && 0 <= j < |b| && ActiveFor(a[i], id) ==> a[i].productId != b[j].productId
    ensures RowsApart(a + b, id)
  {
  }

  /** A row that was kept and a request are for different products. */
  lemma KeptIsNotReplaced(tx: Transaction, id: nat, rs: seq<Reservation>, input: UpdateInput, i: nat, p: Plan)
    requires ItemsOk(tx.items) && Backed(tx, id, rs) && Holds(tx)
    requires DistinctProducts(UpdatedItems(tx.items, input.changes))
    requires i < |rs| && p in SortedPlans(tx, id, input)
    requires ActiveFor(Settle(rs, id, OldProducts(SortedPlans(tx, id, input)), Released)[i], id)
    ensures rs[i].productId != p.request.productId
  {
    var all := UpdatedItems(tx.items, input.changes);
    SortedPlansFacts(tx, id, input);
    var x := ReleasedRowsAreKept(tx, id, rs, input, i);
    var y :| 0 <= y < |tx.items| && tx.items[y] == p.item;
    assert x != y;
    assert all[x].productId != all[y].productId;
    assert all[x] == tx.items[x];
  }

  lemma UpdateCoversItem(tx: Transaction, id: nat, rs: seq<Reservation>, input: UpdateInput, x: nat)
    requires ItemsOk(tx.items) && Backed(tx, id, rs) && Holds(tx)
    requires DistinctProducts(UpdatedItems(tx.items, input.changes))
    requires x < |tx.items|
    ensures HasActive(Settle(rs, id, OldProducts(SortedPlans(tx, id, input)), Released)
                      + RequestsIn(SortedPlans(tx, id, input)),
                      id, UpdatedItem(tx.items[x], input.changes).productId)
  {
    var after := UpdatedTransaction(tx, input);
    var ps := SortedPlans(tx, id, input);
    var kept := Settle(rs, id, OldProducts(ps), Released);
    var rs' := kept + RequestsIn(ps);
    var item := tx.items[x];
    if Resyncs(item, input) {
      var i := PlanOf(tx, id, input, item);
      assert rs'[|kept| + i] == Request(after, id, UpdatedItem(item, input.changes));
    } else {
      ResyncedIsOld(tx, id, input, item);
      var i := ExactlyOneReservation(tx, id, rs, x);
      assert rs'[i] == rs[i];
    }
  }

  lemma PlanOf(tx: Transaction, id: nat, input: UpdateInput, item: Item) returns (i: nat)
    requires DistinctProducts(UpdatedItems(tx.items, input.changes))
    requires item in tx.items && Resyncs(item, input)
    ensures i < |SortedPlans(tx, id, input)|
    ensures SortedPlans(tx, id, input)[i] ==
            Plan(item, Request(UpdatedTransaction(tx, input), id, UpdatedItem(item, input.changes)))
  {
    SortedPlansFacts(tx, id, input);
    var p := Plan(item, Request(UpdatedTransaction(tx, input), id, UpdatedItem(item, input.changes)));
    assert p in SortedPlans(tx, id, input);
    i :| 0 <= i < |SortedPlans(tx, id, input)| && SortedPlans(tx, id, input)[i] == p;
  }

  lemma UpdateCovers(tx: Transaction, id: nat, rs: seq<Reservation>, input: UpdateInput)
    requires ItemsOk(tx.items) && Backed(tx, id, rs) && Holds(tx)
    requires DistinctProducts(UpdatedItems(tx.items, input.changes))
    ensures
      var after := UpdatedTransaction(tx, input);
      var rs' := Settle(rs, id, OldProducts(SortedPlans(tx, id, input)), Released)
                 + RequestsIn(SortedPlans(tx, id, input));
      forall x :: 0 <= x < |after.items| ==> HasActive(rs', id, after.items[x].productId)
  {
    forall x | 0 <= x < |tx.items| {
      UpdateCoversItem(tx, id, rs, input, x);
    }
  }
}
