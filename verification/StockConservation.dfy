/** Where stock goes: totals over all warehouses, what set-aside stock costs
    availability, and what an update may ask for. */
module StockConservation {
  import opened Wrappers
  import opened StockOrder
  import opened StockLedger
  import opened ReservationRows
  import opened InventoryTables
  import opened PostingFacts
  import opened BackingFacts
  import opened StatePreservation
  import opened InventoryRuns

  // ---- totals over all warehouses -----------------------------------------

  /** How much of a product the items ask for. */
  function Demand(items: seq<Item>, p: int): int {
    if items == [] then 0
    else Demand(items[..|items| - 1], p) + (if items[|items| - 1].productId == p then items[|items| - 1].quantity else 0)
  }

  /** What completing a transaction brings into the company as a whole. */
  function Inflow(tx: Transaction, p: int): int {
    match tx.kind
    case Incoming => Demand(tx.items, p)
    case Outgoing => -Demand(tx.items, p)
    case Transfer => 0
  }

  lemma {:induction false} NetOfPostings(tx: Transaction, id: nat, items: seq<Item>, p: int)
    ensures NetOfProduct(PostingsOf(tx, id, items), p) == Inflow(tx.(items := items), p)
  {
    if items != [] {
      var front, last := items[..|items| - 1], items[|items| - 1];
      NetOfPostings(tx, id, front, p);
      NetOfProductConcat(PostingsOf(tx, id, front), Legs(tx, id, last), p);
      NetOfLegs(tx, id, last, p);
    }
  }

  lemma NetOfLegs(tx: Transaction, id: nat, item: Item, p: int)
    ensures NetOfProduct(Legs(tx, id, item), p) ==
            if item.productId != p || tx.kind == Transfer then 0
            else if tx.kind == Incoming then item.quantity else -item.quantity
  {
    var legs := Legs(tx, id, item);
    assert NetOfProduct(legs[1..][if tx.kind == Transfer then 1 else 0..], p) == 0;
  }

  /** Completing changes a product's total by exactly the item quantities, and a
      transfer leaves every product's total as it was. */
  lemma CompletionMovesTotal(t: Tables, id: nat, p: int)
    requires IsPending(t, id) && Effect(t, CompleteCall(id)).Some?
    ensures ProductTotal(Step(t, CompleteCall(id)).stock, p) == ProductTotal(t.stock, p) + Inflow(t.transactions[id], p)
    ensures t.transactions[id].kind == Transfer ==>
      ProductTotal(Step(t, CompleteCall(id)).stock, p) == ProductTotal(t.stock, p)
  {
    CompletionReplays(t, id);
    PostingsMoveTotal(t.stock, t.transactions[id], id, Step(t, CompleteCall(id)).stock, p);
  }

  lemma CompletionReplays(t: Tables, id: nat)
    requires Effect(t, CompleteCall(id)).Some?
    ensures IsPending(t, id)
    ensures Replay(t.stock, PostingOrder(t.transactions[id], id)) == Some(Step(t, CompleteCall(id)).stock)
  {
  }

  lemma PostingsMoveTotal(stock: Stock, tx: Transaction, id: nat, after: Stock, p: int)
    requires Replay(stock, PostingOrder(tx, id)) == Some(after)
    ensures ProductTotal(after, p) == ProductTotal(stock, p) + Inflow(tx, p)
  {
    ReplayMovesTotal(stock, PostingOrder(tx, id), after, p);
    NetOfProductPermuted(PostingOrder(tx, id), Postings(tx, id), p);
    NetOfPostings(tx, id, tx.items, p);
  }

  /** Only complete() and adjustments touch physical stock. */
  lemma StockUntouched(t: Tables, c: Call)
    requires !c.CompleteCall? && !c.AdjustCall?
    ensures Step(t, c).stock == t.stock && Step(t, c).ledger == t.ledger
  {
  }

  // ---- the whole ledger, accounted for ------------------------------------

  /** The ledger rows that name no transaction or one below `n`, net of one product. */
  function NetBelow(ms: seq<Movement>, n: nat, p: int): int {
    if ms == [] then 0
    else
      var m := ms[|ms| - 1];
      NetBelow(ms[..|ms| - 1], n, p) +
      (if m.productId == p && (m.transactionId.Some? ==> m.transactionId.value < n) then Delta(m) else 0)
  }

  /** What transactions below `n` have brought in: only the COMPLETED ones count. */
  function CompletedInflow(txs: seq<Transaction>, n: nat, p: int): int
    requires n <= |txs|
  {
    if n == 0 then 0
    else CompletedInflow(txs, n - 1, p) + (if txs[n - 1].status == Completed then Inflow(txs[n - 1], p) else 0)
  }

  lemma {:induction false} NetBelowNext(ms: seq<Movement>, n: nat, p: int)
    ensures NetBelow(ms, n + 1, p) == NetBelow(ms, n, p) + NetOfProduct(PostedBy(ms, n), p)
  {
    if ms != [] {
      var front, m := ms[..|ms| - 1], ms[|ms| - 1];
      NetBelowNext(front, n, p);
      if m.transactionId == Some(n) {
        NetOfProductConcat(PostedBy(front, n), [m], p);
        assert NetOfProduct([m][1..], p) == 0;
      } else {
        assert PostedBy(front, n) + [] == PostedBy(front, n);
      }
    }
  }

  lemma {:induction false} NetBelowAll(ms: seq<Movement>, n: nat, p: int)
    requires forall m <- ms :: m.transactionId.Some? ==> m.transactionId.value < n
    ensures NetBelow(ms, n, p) == NetOfProduct(ms, p)
  {
    if ms != [] {
      var front, m := ms[..|ms| - 1], ms[|ms| - 1];
      assert ms == front + [m];
      NetBelowAll(front, n, p);
      NetOfProductConcat(front, [m], p);
      assert NetOfProduct([m][1..], p) == 0;
    }
  }

  /** The rows that name transaction `n` add up to what it has brought in. */
  predicate AddsUp(ms: seq<Movement>, tx: Transaction, n: nat, p: int) {
    NetBelow(ms, n + 1, p) == NetBelow(ms, n, p) + (if tx.status == Completed then Inflow(tx, p) else 0)
  }

  lemma {:induction false} NetBelowIsInflow(ms: seq<Movement>, txs: seq<Transaction>, n: nat, p: int)
    requires n <= |txs| && forall i :: 0 <= i < n ==> AddsUp(ms, txs[i], i, p)
    ensures NetBelow(ms, n, p) == NetBelow(ms, 0, p) + CompletedInflow(txs, n, p)
  {
    if n > 0 {
      NetBelowIsInflow(ms, txs, n - 1, p);
      assert AddsUp(ms, txs[n - 1], n - 1, p);
    }
  }

  lemma OneMoreTransaction(t: Tables, n: nat, p: int)
    requires AllPosted(t) && n < |t.transactions|
    ensures AddsUp(t.ledger, t.transactions[n], n, p)
  {
    NetBelowNext(t.ledger, n, p);
    assert Posted(t.transactions[n], n, t.ledger);
    NetOfPosted(t.transactions[n], n, t.ledger, p);
  }

  lemma NetOfPosted(tx: Transaction, id: nat, ledger: seq<Movement>, p: int)
    requires Posted(tx, id, ledger)
    ensures NetOfProduct(PostedBy(ledger, id), p) == if tx.status == Completed then Inflow(tx, p) else 0
  {
    if tx.status == Completed {
      NetOfProductPermuted(PostedBy(ledger, id), Postings(tx, id), p);
      NetOfPostings(tx, id, tx.items, p);
    } else {
      assert |multiset(PostedBy(ledger, id))| == 0;
    }
  }

  /** In every state a run reaches, a product's stock over all warehouses is what
      completed purchases brought in, less what completed sales took out, plus the
      movements made outside any transaction; transfers and everything PENDING or
      CANCELLED count for nothing. */
  lemma StockIsAccountedFor(t: Tables, calls: seq<Call>, p: int)
    requires Sound(t)
    ensures
      var now := Run(t, calls);
      ProductTotal(now.stock, p) ==
        CompletedInflow(now.transactions, |now.transactions|, p) + NetBelow(now.ledger, 0, p)
  {
    var now := Run(t, calls);
    RunSound(t, calls);
    assert SumOver(map[], ProductRows(map[], p)) == 0 by { assert ProductRows(map[], p) == {}; }
    ReplayMovesTotal(map[], now.ledger, now.stock, p);
    NetBelowAll(now.ledger, |now.transactions|, p);
    forall i | 0 <= i < |now.transactions| ensures AddsUp(now.ledger, now.transactions[i], i, p) {
      OneMoreTransaction(now, i, p);
    }
    NetBelowIsInflow(now.ledger, now.transactions, |now.transactions|, p);
  }

  // ---- availability -------------------------------------------------------

  /** create() takes its demand at the source off what is available, and nothing else. */
  lemma CreateTakesAvailable(t: Tables, header: Transaction, inputs: seq<ItemInput>, k: StockKey)
    requires CreateAllowed(t, header, inputs)
    ensures
      var after := AfterCreate(t, header, inputs);
      var items := after.transactions[|t.transactions|].items;
      Available(after, k) == Available(t, k)
        - if header.kind != Incoming && k.warehouseId == Leg(header.source) then Demand(items, k.productId) else 0
  {
    var tx := header.(status := Pending, items := NewItems(inputs, t.nextItemId));
    var more := NewReservations(tx, |t.transactions|);
    assert DistinctProducts(tx.items);
    ReservedConcat(t.reservations, more, k);
    NewReservationsFacts(tx, |t.transactions|);
    if i :| 0 <= i < |more| && RowOf(more[i]) == k {
      assert more[i] in more;
      var x :| 0 <= x < |tx.items| && more[i] == Request(tx, |t.transactions|, tx.items[x]);
      ReservedOfDistinct(more, i);
      DemandOfItem(tx.items, x);
    } else {
      ReservedElsewhere(more, k);
      if header.kind != Incoming && k.warehouseId == Leg(header.source) {
        forall x | 0 <= x < |tx.items| ensures tx.items[x].productId != k.productId {
          assert Request(tx, |t.transactions|, tx.items[x]) in more;
        }
        NoDemand(tx.items, k.productId);
      }
    }
  }

  lemma {:induction false} DemandOfItem(items: seq<Item>, x: nat)
    requires DistinctProducts(items) && x < |items|
    ensures Demand(items, items[x].productId) == items[x].quantity
  {
    var last := |items| - 1;
    if x == last {
      NoDemand(items[..last], items[x].productId);
    } else {
      DemandOfItem(items[..last], x);
    }
  }

  lemma {:induction false} NoDemand(items: seq<Item>, p: int)
    requires forall x :: 0 <= x < |items| ==> items[x].productId != p
    ensures Demand(items, p) == 0
  {
    if items != [] {
      NoDemand(items[..|items| - 1], p);
    }
  }

  /** cancel() gives back exactly the transaction's own share of a row. */
  lemma CancelGivesBack(t: Tables, id: nat, k: StockKey)
    requires Sound(t) && IsPending(t, id)
    ensures Available(AfterCancel(t, id), k) == Available(t, k)
      + if Holds(t.transactions[id]) && k.warehouseId == Leg(t.transactions[id].source)
        then Demand(t.transactions[id].items, k.productId) else 0
  {
    var tx := t.transactions[id];
    assert Backed(tx, id, t.reservations) && TransactionOk(t, tx);
    SettleTakesShare(t.reservations, id, ProductsOf(tx.items), Released, k);
    if x :| 0 <= x < |tx.items| && tx.items[x].productId == k.productId {
      assert tx.items[x] in tx.items;
      DemandOfItem(tx.items, x);
      if Holds(tx) && k.warehouseId == Leg(tx.source) {
        ShareOfItem(tx, id, t.reservations, x);
      } else {
        NoOtherShare(tx, id, t.reservations, k);
      }
    } else {
      NoDemand(tx.items, k.productId);
      assert k.productId !in ProductsOf(tx.items);
    }
  }

  /** A create followed by a cancel of the new transaction leaves every available
      quantity as it was. */
  lemma CreateThenCancel(t: Tables, header: Transaction, inputs: seq<ItemInput>, k: StockKey)
    requires Sound(t) && CreateAllowed(t, header, inputs)
    ensures
      var made := AfterCreate(t, header, inputs);
      && IsPending(made, |t.transactions|)
      && Available(AfterCancel(made, |t.transactions|), k) == Available(t, k)
      && AfterCancel(made, |t.transactions|).stock == t.stock
  {
    CreateSound(t, header, inputs);
    CreateTakesAvailable(t, header, inputs, k);
    CancelGivesBack(AfterCreate(t, header, inputs), |t.transactions|, k);
  }

  // ---- what an update may ask for -----------------------------------------

  /** An update that stays at its source and asks for no more of any product than
      before, even if items exchange their products, always gets its reservations. */
  lemma NoMoreThanBeforeFits(t: Tables, id: nat, input: UpdateInput)
    requires Sound(t) && Covered(t) && IsPending(t, id)
    requires UpdateAllowed(t, t.transactions[id], input)
    requires UpdatedTransaction(t.transactions[id], input).source == t.transactions[id].source
    requires forall p :: Demand(UpdatedItems(t.transactions[id].items, input.changes), p) <= Demand(t.transactions[id].items, p)
    ensures UpdateFits(t, id, input)
    ensures Effect(t, UpdateCall(id, input)) == Some(AfterUpdate(t, id, input))
  {
    UpdateServed(t, id, input);
    if t.transactions[id].kind != Incoming {
      forall r <- RequestsIn(SortedPlans(t.transactions[id], id, input))
        ensures r.quantity <= Available(t.(reservations := ReleasedFor(t, id, input)), RowOf(r))
      {
        RequestFits(t, id, input, r);
      }
    }
  }

  lemma UpdateServed(t: Tables, id: nat, input: UpdateInput)
    requires IsPending(t, id) && UpdateAllowed(t, t.transactions[id], input)
    ensures UpdateFits(t, id, input) <==> Effect(t, UpdateCall(id, input)) == Some(AfterUpdate(t, id, input))
  {
  }

  /** The request is for an updated item, which asks for at most what some old
      item, released with the rest, had set aside on the same row. */
  lemma RequestFits(t: Tables, id: nat, input: UpdateInput, r: Reservation)
    requires Sound(t) && Covered(t) && IsPending(t, id) && t.transactions[id].kind != Incoming
    requires UpdateAllowed(t, t.transactions[id], input)
    requires UpdatedTransaction(t.transactions[id], input).source == t.transactions[id].source
    requires forall p :: Demand(UpdatedItems(t.transactions[id].items, input.changes), p) <= Demand(t.transactions[id].items, p)
    requires r in RequestsIn(SortedPlans(t.transactions[id], id, input))
    ensures r.quantity <= Available(t.(reservations := ReleasedFor(t, id, input)), RowOf(r))
  {
    var tx := t.transactions[id];
    var x, y := RequestReplaces(t, id, input, r);
    ShareOfItem(tx, id, t.reservations, x);
    SettleTakesShare(t.reservations, id, OldProducts(SortedPlans(tx, id, input)), Released, RowOf(r));
    assert Reserved(t.reservations, RowOf(r)) <= OnHand(t.stock, RowOf(r));
  }

  lemma RequestReplaces(t: Tables, id: nat, input: UpdateInput, r: Reservation) returns (x: nat, y: nat)
    requires TransactionsOk(t) && AllBacked(t) && IsPending(t, id) && t.transactions[id].kind != Incoming
    requires UpdateAllowed(t, t.transactions[id], input)
    requires UpdatedTransaction(t.transactions[id], input).source == t.transactions[id].source
    requires forall p :: Demand(UpdatedItems(t.transactions[id].items, input.changes), p) <= Demand(t.transactions[id].items, p)
    requires r in RequestsIn(SortedPlans(t.transactions[id], id, input))
    ensures Backed(t.transactions[id], id, t.reservations) && DistinctProducts(t.transactions[id].items)
    ensures x < |t.transactions[id].items| && r.quantity <= t.transactions[id].items[x].quantity
    ensures RowOf(r) == StockKey(Leg(t.transactions[id].source), t.transactions[id].items[x].productId)
    ensures r.productId in OldProducts(SortedPlans(t.transactions[id], id, input))
  {
    var tx := t.transactions[id];
    var ps, items' := SortedPlans(tx, id, input), UpdatedItems(tx.items, input.changes);
    assert TransactionOk(t, tx) && Backed(tx, id, t.reservations);
    SortedPlansFacts(tx, id, input);
    var i :| 0 <= i < |ps| && ps[i].request == r;
    assert ps[i] in ps;
    y :| 0 <= y < |tx.items| && tx.items[y] == ps[i].item;
    DemandOfItem(items', y);
    UpdatedTransactionOk(t, id, input);
    assert items'[y] in items' && ItemOk(items'[y]);
    x := ItemAsking(tx.items, r.productId);
    DemandOfItem(tx.items, x);
    ResyncedIsOld(tx, id, input, tx.items[x]);
    assert x != y ==> items'[x].productId != items'[y].productId;
  }

  lemma ItemAsking(items: seq<Item>, p: int) returns (x: nat)
    requires Demand(items, p) > 0
    ensures x < |items| && items[x].productId == p
  {
    if forall i :: 0 <= i < |items| ==> items[i].productId != p {
      NoDemand(items, p);
    }
    x :| 0 <= x < |items| && items[x].productId == p;
  }

  // ---- the order of a completion's postings -------------------------------

  /** Making a transaction's postings in any other order, such as a transfer's
      legs item by item or all sources first, ends in the same stock or fails alike. */
  lemma AnyPostingOrder(t: Tables, id: nat, ms: seq<Movement>)
    requires Sound(t) && id < |t.transactions|
    requires multiset(ms) == multiset(Postings(t.transactions[id], id))
    ensures Replay(t.stock, ms) == Replay(t.stock, PostingOrder(t.transactions[id], id))
  {
    assert TransactionOk(t, t.transactions[id]);
    PostingOrderAscends(t.transactions[id], id);
    OrderIsIrrelevant(t.stock, PostingOrder(t.transactions[id], id), ms);
  }

  // ---- cost ---------------------------------------------------------------

  datatype Cost = Cost(total: Option<real>, pricedItems: nat, items: nat, fullyPriced: bool)

  function Priced(items: seq<Item>): seq<Item> {
    if items == [] then []
    else Priced(items[..|items| - 1]) + (if items[|items| - 1].price.Some? then [items[|items| - 1]] else [])
  }

  function CostSum(priced: seq<Item>): real
    requires forall item <- priced :: item.price.Some?
  {
    if priced == [] then 0.0
    else
      var last := priced[|priced| - 1];
      assert last in priced;
      CostSum(priced[..|priced| - 1]) + last.quantity as real * last.price.value
  }

  lemma {:induction false} PricedFacts(items: seq<Item>)
    ensures forall item :: item in Priced(items) <==> item in items && item.price.Some?
    ensures |Priced(items)| <= |items|
    ensures |Priced(items)| == |PricedLines(items)|
    ensures |Priced(items)| == |items| <==> forall item <- items :: item.price.Some?
  {
    if items != [] {
      assert items == items[..|items| - 1] + [items[|items| - 1]];
      PricedFacts(items[..|items| - 1]);
      LastLine(items);
    }
  }

  /** The lines that have a price. */
  function PricedLines(items: seq<Item>): set<nat> {
    set i: nat | i < |items| && items[i].price.Some?
  }

  lemma LastLine(items: seq<Item>)
    requires items != []
    ensures
      var last, front := |items| - 1, PricedLines(items[..|items| - 1]);
      last !in front && PricedLines(items) == if items[last].price.Some? then front + {last} else front
  {
  }

  /** What a list of items is worth: quantity times price, nothing where there is no price. */
  function Worth(items: seq<Item>): real {
    if items == [] then 0.0
    else (if items[0].price.Some? then items[0].quantity as real * items[0].price.value else 0.0) + Worth(items[1..])
  }

  lemma {:induction false} WorthAppend(items: seq<Item>, item: Item)
    ensures Worth(items + [item]) == Worth(items) + Worth([item])
  {
    if items == [] {
      assert items + [item] == [item];
    } else {
      assert (items + [item])[1..] == items[1..] + [item];
      WorthAppend(items[1..], item);
    }
  }

  lemma WorthOfOne(item: Item)
    ensures Worth([item]) == if item.price.Some? then item.quantity as real * item.price.value else 0.0
  {
    assert [item][1..] == [];
  }

  lemma CostSumNext(front: seq<Item>, last: Item, all: seq<Item>)
    requires all == front + if last.price.Some? then [last] else []
    requires forall item <- all :: item.price.Some?
    ensures forall item <- front :: item in all
    ensures CostSum(all) == CostSum(front) + if last.price.Some? then last.quantity as real * last.price.value else 0.0
  {
    assert all[..|front|] == front;
  }

  lemma {:induction false} CostSumIsWorth(items: seq<Item>)
    requires forall item <- Priced(items) :: item.price.Some?
    ensures CostSum(Priced(items)) == Worth(items)
  {
    if items != [] {
      var front, last := items[..|items| - 1], items[|items| - 1];
      assert items == front + [last];
      WorthAppend(front, last);
      WorthOfOne(last);
      assert forall item <- Priced(front) :: item in Priced(items);
      CostSumIsWorth(front);
      CostSumNext(Priced(front), last, Priced(items));
    }
  }

  /** calculateTransactionCost(): the total is the worth of the items, absent when
      none has a price. */
  function CalculateCost(items: seq<Item>): (r: Cost)
    ensures r.fullyPriced <==> items != [] && forall item <- items :: item.price.Some?
    ensures r.total.None? <==> forall item <- items :: item.price.None?
    ensures r.total.Some? ==> r.total.value == Worth(items)
    ensures r.pricedItems == |PricedLines(items)| && r.items == |items|
  {
    PricedFacts(items);
    CostSumIsWorth(items);
    var priced := Priced(items);
    var total := if priced == [] then None else Some(CostSum(priced));
    assert priced != [] ==> priced[0] in priced;
    Cost(total, |priced|, |items|, |priced| == |items| && |items| > 0)
  }

  /** In every state a run reaches the cost of a purchase is complete. */
  lemma PurchasesArePriced(t: Tables, calls: seq<Call>, id: nat)
    requires Sound(t) && id < |Run(t, calls).transactions|
    ensures Run(t, calls).transactions[id].kind == Incoming ==>
      CalculateCost(Run(t, calls).transactions[id].items).fullyPriced
  {
    RunSound(t, calls);
    assert TransactionOk(Run(t, calls), Run(t, calls).transactions[id]);
  }
}
