/** Which exception a refused call throws, in terms of the request: the checks in
    their order, each with its class. */
module Refusals {
  import opened Wrappers
  import opened Text
  import opened StockOrder
  import opened StockLedger
  import opened ReservationRows
  import opened InventoryTables
  import opened BackingFacts
  import opened StatePreservation
  import opened CreateTransaction
  import opened UpdateTransaction
  import opened DocumentApproval
  import opened InventoryRuns
  import opened CreateOutcomes
  import opened UpdateOutcomes

  /** `i` is the first input with no active product, or the end of the list. */
  predicate FirstBad(t: Tables, inputs: seq<ItemInput>, i: nat) {
    && i <= |inputs|
    && (forall j :: 0 <= j < i ==> inputs[j].productId in t.products && t.products[inputs[j].productId].active)
    && (i < |inputs| ==> inputs[i].productId in t.products ==> !t.products[inputs[i].productId].active)
  }

  /** Missing or inactive. */
  function RowRefusal(known: bool): Error {
    if known then BadRequest else NotFound
  }

  lemma {:induction false} ProductRefused(t: Tables, inputs: seq<ItemInput>, i: nat)
    requires FirstBad(t, inputs, i)
    ensures FirstProductError(t.products, inputs) ==
            if i < |inputs| then Some(RowRefusal(inputs[i].productId in t.products)) else None
  {
    if inputs != [] {
      var front := inputs[..|inputs| - 1];
      ProductRefused(t, front, if i < |front| then i else |front|);
    }
  }

  /** A refused purchase: the items, the supplier, the warehouse, then the first bad product. */
  lemma PurchaseRefused(t: Tables, s: int, d: int, date: Option<int>, inputs: seq<ItemInput>, i: nat)
    requires FirstBad(t, inputs, i)
    ensures CreateError(t, IncomingHeader(s, d, date), inputs) ==
      if !Orderable(inputs) || exists x <- inputs :: x.price.None? then Some(BadRequest)
      else if !Live(t.suppliers, s) then Some(RowRefusal(s in t.suppliers))
      else if !Live(t.warehouses, d) then Some(RowRefusal(d in t.warehouses))
      else if i < |inputs| then Some(RowRefusal(inputs[i].productId in t.products))
      else None
  {
    ProductRefused(t, inputs, i);
  }

  /** A refused sale: the items, the warehouse, the first bad product, then the stock. */
  lemma SaleRefused(t: Tables, w: int, date: Option<int>, inputs: seq<ItemInput>, i: nat)
    requires FirstBad(t, inputs, i)
    ensures CreateError(t, OutgoingHeader(w, date), inputs) ==
      if !Orderable(inputs) then Some(BadRequest)
      else if !Live(t.warehouses, w) then Some(RowRefusal(w in t.warehouses))
      else if i < |inputs| then Some(RowRefusal(inputs[i].productId in t.products))
      else if !InStock(t, w, inputs) then Some(Conflict)
      else None
  {
    ProductRefused(t, inputs, i);
    assert i == |inputs| ==> forall x <- inputs :: x.productId in t.products && t.products[x.productId].active;
  }

  /** A refused transfer: the legs' difference, the items, both warehouses, the first bad product, then the stock. */
  lemma TransferRefused(t: Tables, w: int, d: int, date: Option<int>, inputs: seq<ItemInput>, i: nat)
    requires FirstBad(t, inputs, i)
    ensures CreateError(t, TransferHeader(w, d, date), inputs) ==
      if w == d || !Orderable(inputs) then Some(BadRequest)
      else if !Live(t.warehouses, w) then Some(RowRefusal(w in t.warehouses))
      else if !Live(t.warehouses, d) then Some(RowRefusal(d in t.warehouses))
      else if i < |inputs| then Some(RowRefusal(inputs[i].productId in t.products))
      else if !InStock(t, w, inputs) then Some(Conflict)
      else None
  {
    ProductRefused(t, inputs, i);
    assert i == |inputs| ==> forall x <- inputs :: x.productId in t.products && t.products[x.productId].active;
  }

  // ---- update -------------------------------------------------------------

  /** The given row is not live. */
  predicate DeadRow(rows: map<int, bool>, id: Option<int>) {
    id.Some? && !Live(rows, id.value)
  }

  /** The fields a transaction of this kind may not be given, or legs that fall together. */
  predicate WrongLegs(tx: Transaction, input: UpdateInput) {
    || (tx.kind == Incoming && input.source.Some?)
    || (tx.kind == Outgoing && input.destination.Some?)
    || (tx.kind != Incoming && input.supplier.Some?)
    || (tx.kind == Transfer && (input.source.Some? || input.destination.Some?)
        && (match input.source case Some(_) => input.source case None => tx.source)
           == (match input.destination case Some(_) => input.destination case None => tx.destination))
  }

  /** A refused update, up to the catalogue: the values, the row, the fields, the rows they name,
      the items they name, and products that would fall together. */
  lemma UpdateRefusedEarly(t: Tables, id: nat, input: UpdateInput)
    ensures
      var e := UpdateError(t, id, input);
      if exists c <- input.changes ::
           || (c.quantity.Some? && c.quantity.value <= 0) || (c.productId.Some? && c.productId.value <= 0)
           || (c.price.Some? && c.price.value < 0.0)
      then e == Some(BadRequest)
      else if id >= |t.transactions| then e == Some(NotFound)
      else if t.transactions[id].status != Pending then e == Some(Conflict)
      else
        var tx := t.transactions[id];
        if WrongLegs(tx, input) then e == Some(BadRequest)
        else if DeadRow(t.warehouses, input.source) then e == Some(RowRefusal(input.source.value in t.warehouses))
        else if DeadRow(t.warehouses, input.destination) then e == Some(RowRefusal(input.destination.value in t.warehouses))
        else if DeadRow(t.suppliers, input.supplier) then e == Some(RowRefusal(input.supplier.value in t.suppliers))
        else if exists i, j :: 0 <= i < j < |input.changes| && input.changes[i].itemId == input.changes[j].itemId
        then e == Some(BadRequest)
        else if exists c <- input.changes :: forall item <- tx.items :: item.id != c.itemId then e == Some(NotFound)
        else !EndApart(tx.items, input.changes) ==> e == Some(BadRequest)
  {
    if ChangesOk(input) && IsPending(t, id) {
      CheckedRefusal(t, t.transactions[id], input);
    }
  }

  lemma NamesRefused(tx: Transaction, changes: seq<ItemChange>)
    ensures NamesError(tx, changes) ==
      if exists i, j :: 0 <= i < j < |changes| && changes[i].itemId == changes[j].itemId then Some(BadRequest)
      else if exists c <- changes :: forall item <- tx.items :: item.id != c.itemId then Some(NotFound)
      else None
  {
    forall c <- changes
      ensures (exists i :: 0 <= i < |tx.items| && tx.items[i].id == c.itemId) <==> exists item <- tx.items :: item.id == c.itemId
    {
      if i :| 0 <= i < |tx.items| && tx.items[i].id == c.itemId {
        assert tx.items[i] in tx.items;
      }
    }
  }

  lemma LegsRefused(tx: Transaction, input: UpdateInput)
    ensures WrongLegs(tx, input) <==> !LegsAllowed(tx, input)
  {
  }

  lemma GivenRefused(rows: map<int, bool>, id: Option<int>)
    ensures GivenError(rows, id) == if DeadRow(rows, id) then Some(RowRefusal(id.value in rows)) else None
  {
  }

  lemma RowsRefused(t: Tables, tx: Transaction, input: UpdateInput)
    ensures CheckedError(t, tx, input) ==
      if WrongLegs(tx, input) then Some(BadRequest)
      else if DeadRow(t.warehouses, input.source) then Some(RowRefusal(input.source.value in t.warehouses))
      else if DeadRow(t.warehouses, input.destination) then Some(RowRefusal(input.destination.value in t.warehouses))
      else if DeadRow(t.suppliers, input.supplier) then Some(RowRefusal(input.supplier.value in t.suppliers))
      else if NamesError(tx, input.changes).Some? then NamesError(tx, input.changes)
      else if DistinctProducts(UpdatedItems(tx.items, input.changes)) then None
      else Some(BadRequest)
  {
    LegsRefused(tx, input);
    GivenRefused(t.warehouses, input.source);
    GivenRefused(t.warehouses, input.destination);
    GivenRefused(t.suppliers, input.supplier);
  }

  lemma CheckedRefusal(t: Tables, tx: Transaction, input: UpdateInput)
    ensures
      var e := CheckedError(t, tx, input);
      if WrongLegs(tx, input) then e == Some(BadRequest)
      else if DeadRow(t.warehouses, input.source) then e == Some(RowRefusal(input.source.value in t.warehouses))
      else if DeadRow(t.warehouses, input.destination) then e == Some(RowRefusal(input.destination.value in t.warehouses))
      else if DeadRow(t.suppliers, input.supplier) then e == Some(RowRefusal(input.supplier.value in t.suppliers))
      else if exists i, j :: 0 <= i < j < |input.changes| && input.changes[i].itemId == input.changes[j].itemId
      then e == Some(BadRequest)
      else if exists c <- input.changes :: forall item <- tx.items :: item.id != c.itemId then e == Some(NotFound)
      else e == if EndApart(tx.items, input.changes) then None else Some(BadRequest)
  {
    RowsRefused(t, tx, input);
    NamesRefused(tx, input.changes);
    if NamesError(tx, input.changes).None? {
      ApartIsDistinct(tx.items, input.changes);
    }
  }

  lemma {:induction false} NoChangeRefused(products: map<int, Product>, changes: seq<ItemChange>)
    requires forall c <- changes :: c.productId.Some? ==> c.productId.value in products && products[c.productId.value].active
    ensures FirstChangeError(products, changes).None?
  {
    if changes != [] {
      NoChangeRefused(products, changes[..|changes| - 1]);
    }
  }

  lemma {:induction false} NoPlanRefused(products: map<int, Product>, plans: seq<Plan>, input: UpdateInput)
    requires forall c <- input.changes :: c.productId.Some? ==> c.productId.value in products && products[c.productId.value].active
    ensures FirstPlanError(products, plans, input).None?
  {
    if plans != [] {
      NoPlanRefused(products, plans[..|plans| - 1], input);
      ChangeForFacts(input.changes, plans[|plans| - 1].item.id);
    }
  }

  /** With everything else in order, what is left is a want of stock: Conflict. */
  lemma ShortageRefused(t: Tables, id: nat, input: UpdateInput)
    requires Sound(t) && IsPending(t, id) && t.transactions[id].source.Some?
    requires Admissible(t, t.transactions[id], input) && EndApart(t.transactions[id].items, input.changes)
    requires !Room(t, t.transactions[id], input)
    ensures UpdateError(t, id, input) == Some(Conflict)
  {
    var tx := t.transactions[id];
    assert TransactionOk(t, tx);
    AllowedIsAdmissible(t, tx, input);
    RoomIsFits(t, id, input);
    NoPlanRefused(t.products, SortedPlans(tx, id, input), input);
    OnlyStockIsShort(t, id, input);
  }

  lemma OnlyStockIsShort(t: Tables, id: nat, input: UpdateInput)
    requires IsPending(t, id) && t.transactions[id].kind != Incoming
    requires UpdateAllowed(t, t.transactions[id], input) && !UpdateFits(t, id, input)
    requires FirstPlanError(t.products, SortedPlans(t.transactions[id], id, input), input).None?
    ensures UpdateError(t, id, input) == Some(Conflict)
  {
    RowsRefused(t, t.transactions[id], input);
  }

  // ---- approve ------------------------------------------------------------

  /** A line that defines no product in the way it should is a BadRequest; one whose name or id
      is taken, by the catalogue or an earlier line, is a Conflict. */
  lemma LineRefused(t: Tables, kind: TransactionKind, a: Approval, i: nat, rules: NameRules)
    requires i < |a.items| && a.items[i].productId.None?
    requires forall j :: 0 <= j < i && a.items[j].productId.None? ==> a.items[j].newName.Some?
    ensures
      var e := LineError(t.products, kind, a, i, rules);
      if kind != Incoming || a.items[i].newName.None? || Blank(a.items[i].newName.value) then e == Some(BadRequest)
      else
        var name := Trim(a.items[i].newName.value);
        if (exists p <- t.products :: t.products[p].active && rules.same(t.products[p].name, name))
           || a.firstNewId + i in t.products
           || exists j :: 0 <= j < i && a.items[j].productId.None?
                          && (rules.fold(Trim(a.items[j].newName.value)) == rules.fold(name)
                              || rules.same(Trim(a.items[j].newName.value), name))
        then e == Some(Conflict)
        else e.None?
  {
  }

  /** The first refused line decides; an unknown review is NotFound, a decided one a Conflict. */
  lemma {:induction false} FirstLineRefused(t: Tables, kind: TransactionKind, a: Approval, n: nat, i: nat, rules: NameRules)
    requires i < n <= |a.items| && LineError(t.products, kind, a, i, rules).Some?
    requires forall j :: 0 <= j < i ==> LineError(t.products, kind, a, j, rules).None?
    ensures FirstLineError(t.products, kind, a, n, rules) == LineError(t.products, kind, a, i, rules)
  {
    if n > i + 1 {
      FirstLineRefused(t, kind, a, n - 1, i, rules);
    } else {
      NoneBefore(t, kind, a, i, rules);
    }
  }

  lemma {:induction false} NoneBefore(t: Tables, kind: TransactionKind, a: Approval, n: nat, rules: NameRules)
    requires n <= |a.items| && forall j :: 0 <= j < n ==> LineError(t.products, kind, a, j, rules).None?
    ensures FirstLineError(t.products, kind, a, n, rules).None?
  {
    if n > 0 {
      NoneBefore(t, kind, a, n - 1, rules);
    }
  }

  lemma ApprovalRefused(t: Tables, id: nat, a: Approval, i: nat, rules: NameRules)
    requires i < |a.items|
    requires id < |t.reviews| ==> LineError(t.products, t.reviews[id].kind, a, i, rules).Some?
    requires id < |t.reviews| ==> forall j :: 0 <= j < i ==> LineError(t.products, t.reviews[id].kind, a, j, rules).None?
    ensures ApproveError(t, id, a, rules) ==
      if id >= |t.reviews| then Some(NotFound)
      else if t.reviews[id].status != PendingReview then Some(Conflict)
      else LineError(t.products, t.reviews[id].kind, a, i, rules)
  {
    if id < |t.reviews| {
      FirstLineRefused(t, t.reviews[id].kind, a, |a.items|, i, rules);
    }
  }
}
