/** How far a completion has come: the postings made so far, and the
    reservations fulfilled with them. */
module CompletionSteps {
  import opened Wrappers
  import opened StockOrder
  import opened StockLedger
  import opened ReservationRows
  import opened InventoryTables
  import opened PostingFacts
  import opened BackingFacts
  import opened StockMovements
  import opened Reservations

  predicate Outbound(m: Movement) {
    m.kind == OutgoingMove || m.kind == TransferOut
  }

  function OutProducts(done: seq<Movement>): set<int> {
    set m | m in done && Outbound(m) :: m.productId
  }

  predicate Midway(t0: Tables, t: Tables, id: nat, done: seq<Movement>) {
    && id < |t0.transactions|
    && t == WithStatus(t0, id, Completed).(
              reservations := Settle(t0.reservations, id, OutProducts(done), Fulfilled),
              ledger := t0.ledger + done,
              stock := t.stock)
    && Replay(t0.stock, done) == Some(t.stock)
  }

  /** What completing transaction `id` relies on: the row, its reservations and
      the foreign key from reservations to transactions. */
  predicate Ready(t: Tables, id: nat) {
    && IsPending(t, id)
    && TransactionOk(t, t.transactions[id])
    && Backed(t.transactions[id], id, t.reservations)
    && forall r <- t.reservations :: r.transactionId < |t.transactions|
  }

  lemma SoundIsReady(t: Tables, id: nat)
    requires Sound(t) && IsPending(t, id)
    ensures Ready(t, id)
  {
  }

  /** What a completion under way has not touched. */
  lemma MidwayFrame(t0: Tables, t: Tables, id: nat, done: seq<Movement>)
    requires Midway(t0, t, id, done)
    ensures t.products == t0.products && t.warehouses == t0.warehouses
    ensures t.transactions[id] == t0.transactions[id].(status := Completed)
    ensures |t.transactions| == |t0.transactions|
  {
  }

  lemma MidwayStart(t0: Tables, id: nat)
    requires id < |t0.transactions|
    ensures Midway(t0, WithStatus(t0, id, Completed), id, [])
  {
    assert Settle(t0.reservations, id, OutProducts([]), Fulfilled) == t0.reservations;
    assert t0.ledger + [] == t0.ledger;
  }

  /** A plain recordMovement() is one step further. */
  lemma MidwayRecord(t0: Tables, t: Tables, id: nat, done: seq<Movement>, m: Movement, next: Tables)
    requires Midway(t0, t, id, done) && !Outbound(m)
    requires Post(t.stock, m).Some?
    requires next == t.(ledger := t.ledger + [m], stock := Post(t.stock, m).value)
    ensures Midway(t0, next, id, done + [m])
  {
    ReplayAppend(t0.stock, done, m);
    assert OutProducts(done + [m]) == OutProducts(done);
    assert t0.ledger + done + [m] == t0.ledger + (done + [m]);
  }

  /** The reservation behind an outbound posting is still there and makes that posting. */
  lemma StillActive(t0: Tables, t: Tables, id: nat, done: seq<Movement>, item: Item, row: nat)
    requires Midway(t0, t, id, done) && Ready(t0, id)
    requires t0.transactions[id].kind != Incoming
    requires item in t0.transactions[id].items && item.productId !in OutProducts(done)
    requires row < |t0.reservations|
    requires ActiveFor(t0.reservations[row], id) && t0.reservations[row].productId == item.productId
    ensures t.reservations[row] == t0.reservations[row] == Request(t0.transactions[id], id, item)
  {
    var tx := t0.transactions[id];
    assert TransactionOk(t0, tx) && Backed(tx, id, t0.reservations);
    var x :| 0 <= x < |tx.items| && tx.items[x] == item;
    var i := ExactlyOneReservation(tx, id, t0.reservations, x);
    assert i == row;
  }

  lemma PendingRow(t0: Tables, t: Tables, id: nat, done: seq<Movement>, item: Item)
    requires Midway(t0, t, id, done) && Ready(t0, id)
    requires t0.transactions[id].kind != Incoming
    requires item in t0.transactions[id].items && item.productId !in OutProducts(done)
    ensures HasActive(t.reservations, id, item.productId)
  {
    var tx := t0.transactions[id];
    assert Backed(tx, id, t0.reservations);
    var x :| 0 <= x < |tx.items| && tx.items[x] == item;
    assert HasActive(t0.reservations, id, tx.items[x].productId);
    var i :| 0 <= i < |t0.reservations| && ActiveFor(t0.reservations[i], id)
             && t0.reservations[i].productId == item.productId;
    assert t.reservations[i] == t0.reservations[i];
  }

  /** The row that the lookup finds is the item's own, and fulfilling it makes the item's posting. */
  lemma FoundRow(t0: Tables, t: Tables, id: nat, done: seq<Movement>, item: Item, row: nat)
    requires Midway(t0, t, id, done) && Ready(t0, id)
    requires t0.transactions[id].kind != Incoming
    requires item in t0.transactions[id].items && item.productId !in OutProducts(done)
    requires row < |t.reservations|
    requires ActiveFor(t0.reservations[row], id) || ActiveFor(t.reservations[row], id)
    requires t0.reservations[row].productId == item.productId || t.reservations[row].productId == item.productId
    ensures ActiveFor(t0.reservations[row], id) && t0.reservations[row].productId == item.productId
    ensures t.reservations[row] == t0.reservations[row]
    ensures t.transactions[id].kind == t0.transactions[id].kind
    ensures
      var m := FulfillMovement(t.reservations[row], t0.transactions[id].kind);
      m == Legs(t0.transactions[id], id, item)[0] && QuantityOk(m) && RowsExist(t, m)
    ensures forall r <- t.reservations :: r.transactionId < |t.transactions|
  {
    var tx := t0.transactions[id];
    assert t0.reservations[row].productId == t.reservations[row].productId;
    StillActive(t0, t, id, done, item, row);
    assert TransactionOk(t0, tx) && ItemOk(item);
    forall i | 0 <= i < |t.reservations| ensures t.reservations[i].transactionId < |t.transactions| {
      assert t0.reservations[i] in t0.reservations;
    }
  }

  /** A fulfill() is one step further. */
  lemma MidwayFulfill(t0: Tables, t: Tables, id: nat, done: seq<Movement>, item: Item, row: nat, m: Movement, next: Tables)
    requires Midway(t0, t, id, done) && Ready(t0, id)
    requires t0.transactions[id].kind != Incoming
    requires item in t0.transactions[id].items && item.productId !in OutProducts(done)
    requires row < |t0.reservations|
    requires ActiveFor(t0.reservations[row], id) && t0.reservations[row].productId == item.productId
    requires m == Legs(t0.transactions[id], id, item)[0]
    requires Post(t.stock, m).Some?
    requires next == t.(ledger := t.ledger + [m], stock := Post(t.stock, m).value,
                        reservations := t.reservations[row := t.reservations[row].(status := Fulfilled)])
    ensures Midway(t0, next, id, done + [m])
  {
    ReplayAppend(t0.stock, done, m);
    assert OutProducts(done + [m]) == OutProducts(done) + {item.productId};
    assert t0.ledger + done + [m] == t0.ledger + (done + [m]);
    FulfilledOne(t0, t, id, done, item, row);
  }

  lemma FulfilledOne(t0: Tables, t: Tables, id: nat, done: seq<Movement>, item: Item, row: nat)
    requires Midway(t0, t, id, done) && Ready(t0, id)
    requires t0.transactions[id].kind != Incoming
    requires item in t0.transactions[id].items && item.productId !in OutProducts(done)
    requires row < |t0.reservations|
    requires ActiveFor(t0.reservations[row], id) && t0.reservations[row].productId == item.productId
    ensures t.reservations[row := t.reservations[row].(status := Fulfilled)]
         == Settle(t0.reservations, id, OutProducts(done) + {item.productId}, Fulfilled)
  {
    var tx := t0.transactions[id];
    StillActive(t0, t, id, done, item, row);
    assert Backed(tx, id, t0.reservations);
    forall i | 0 <= i < |t0.reservations| && i != row && ActiveFor(t0.reservations[i], id)
      ensures t0.reservations[i].productId != item.productId
    {
      if i < row {
        assert t0.reservations[i].productId != t0.reservations[row].productId;
      } else {
        assert t0.reservations[row].productId != t0.reservations[i].productId;
      }
    }
  }

  /** Where a posting cannot be made, the whole list cannot. */
  lemma StuckMeansUnfit(stock: Stock, ms: seq<Movement>, n: nat)
    requires n < |ms| && Replay(stock, ms[..n]).Some?
    requires Post(Replay(stock, ms[..n]).value, ms[n]).None?
    ensures Replay(stock, ms).None?
  {
    ReplayAppend(stock, ms[..n], ms[n]);
    assert ms[..n + 1] == ms[..n] + [ms[n]];
    ReplayConcat(stock, ms[..n + 1], ms[n + 1..]);
    assert ms == ms[..n + 1] + ms[n + 1..];
  }

  /** A transaction's outbound postings are for different products. */
  lemma NotYetOut(tx: Transaction, id: nat, n: nat)
    requires ItemsOk(tx.items) && Shaped(tx)
    requires n < |PostingOrder(tx, id)| && Outbound(PostingOrder(tx, id)[n])
    ensures PostingOrder(tx, id)[n].productId !in OutProducts(PostingOrder(tx, id)[..n])
  {
    var ms := PostingOrder(tx, id);
    PostingOrderAscends(tx, id);
    PostingsAreLegs(tx, id, tx.items);
    SameElements(KeyOf, Postings(tx, id));
    forall m | m in ms && Outbound(m) ensures m.warehouseId == Leg(tx.source) {
      var item :| item in tx.items && m in Legs(tx, id, item);
    }
    assert ms[n] in ms;
    forall i | 0 <= i < n && Outbound(ms[i]) ensures ms[i].productId != ms[n].productId {
      assert ms[i] in ms;
      assert KeyOf(ms[i]) != KeyOf(ms[n]);
    }
  }

  lemma PostingsPlausible(t: Tables, id: nat)
    requires Ready(t, id)
    ensures forall m <- PostingOrder(t.transactions[id], id) :: QuantityOk(m) && RowsExist(t, m)
  {
    var tx := t.transactions[id];
    PostingsAreLegs(tx, id, tx.items);
    SameElements(KeyOf, Postings(tx, id));
    forall m <- PostingOrder(tx, id) ensures QuantityOk(m) && RowsExist(t, m) {
      var item :| item in tx.items && m in Legs(tx, id, item);
      assert ItemOk(item);
    }
  }

  /** All postings made: the transaction is completed. */
  lemma MidwayEnd(t0: Tables, t: Tables, id: nat)
    requires Ready(t0, id) && Midway(t0, t, id, PostingOrder(t0.transactions[id], id))
    ensures Replay(t0.stock, PostingOrder(t0.transactions[id], id)).Some?
    ensures t == AfterComplete(t0, id)
  {
    var tx := t0.transactions[id];
    if tx.kind == Incoming {
      assert Backed(tx, id, t0.reservations);
      assert forall i :: 0 <= i < |t0.reservations| && ActiveFor(t0.reservations[i], id) ==> Matches(t0.reservations[i], tx);
      assert t.reservations == Settle(t0.reservations, id, ProductsOf(tx.items), Fulfilled);
    } else {
      AllProductsOut(tx, id);
    }
  }

  lemma AllProductsOut(tx: Transaction, id: nat)
    requires tx.kind != Incoming
    ensures OutProducts(PostingOrder(tx, id)) == ProductsOf(tx.items)
  {
    var ms := PostingOrder(tx, id);
    PostingsAreLegs(tx, id, tx.items);
    SameElements(KeyOf, Postings(tx, id));
    OnlyItemsOut(tx, id, ms);
    forall item <- tx.items ensures item.productId in OutProducts(ms) {
      assert Legs(tx, id, item)[0] in Legs(tx, id, item);
      LegIsOut(tx, id, item, ms);
    }
  }

  lemma OnlyItemsOut(tx: Transaction, id: nat, ms: seq<Movement>)
    requires forall m <- ms :: exists item <- tx.items :: m in Legs(tx, id, item)
    ensures OutProducts(ms) <= ProductsOf(tx.items)
  {
    forall m | m in ms && Outbound(m) ensures m.productId in ProductsOf(tx.items) {
      var item :| item in tx.items && m in Legs(tx, id, item);
    }
  }

  lemma LegIsOut(tx: Transaction, id: nat, item: Item, ms: seq<Movement>)
    requires tx.kind != Incoming && Legs(tx, id, item)[0] in ms
    ensures item.productId in OutProducts(ms)
  {
    assert Outbound(Legs(tx, id, item)[0]);
  }

  // ---- the order of the postings ------------------------------------------

  /** Two strictly ascending lists of the same elements are the same list. */
  lemma {:induction false} AscendingDetermined<T>(key: T -> StockKey, xs: seq<T>, ys: seq<T>)
    requires Ascending(key, xs) && Ascending(key, ys)
    requires forall x :: x in xs <==> x in ys
    ensures xs == ys
  {
    if xs == [] {
      if |ys| > 0 { HasMember(ys); }
    } else {
      assert xs[0] in ys;
      var j :| 0 <= j < |ys| && ys[j] == xs[0];
      assert ys[0] in xs;
      var i :| 0 <= i < |xs| && xs[i] == ys[0];
      assert i > 0 ==> Before(key(xs[0]), key(xs[i]));
      assert j > 0 ==> Before(key(ys[0]), key(ys[j]));
      assert xs[0] == ys[0];
      TailsAgree(key, xs, ys);
      AscendingDetermined(key, xs[1..], ys[1..]);
      assert xs == [xs[0]] + xs[1..] && ys == [ys[0]] + ys[1..];
    }
  }

  lemma HasMember<T>(xs: seq<T>)
    requires |xs| > 0
    ensures exists x :: x in xs
  {
    assert xs[0] in xs;
  }

  lemma TailsAgree<T>(key: T -> StockKey, xs: seq<T>, ys: seq<T>)
    requires Ascending(key, xs) && Ascending(key, ys) && xs != [] && ys != [] && xs[0] == ys[0]
    requires forall x :: x in xs <==> x in ys
    ensures forall x :: x in xs[1..] <==> x in ys[1..]
  {
    assert xs == [xs[0]] + xs[1..] && ys == [ys[0]] + ys[1..];
    forall x ensures x in xs[1..] <==> x in ys[1..] {
      NotFirst(key, xs, x);
      NotFirst(key, ys, x);
    }
  }

  lemma NotFirst<T>(key: T -> StockKey, xs: seq<T>, x: T)
    requires Ascending(key, xs) && xs != []
    ensures x in xs[1..] <==> x in xs && x != xs[0]
  {
    assert xs == [xs[0]] + xs[1..];
    if x in xs[1..] {
      var i :| 0 <= i < |xs[1..]| && xs[1..][i] == x;
      assert Before(key(xs[0]), key(xs[i + 1]));
    }
  }

  /** The key items are sorted by: their product alone. */
  function ItemRow(item: Item): StockKey {
    StockKey(0, item.productId)
  }

  /** Outside transfers each item makes one posting. */
  lemma {:induction false} SingleLegs(tx: Transaction, id: nat, items: seq<Item>)
    requires tx.kind != Transfer
    ensures |PostingsOf(tx, id, items)| == |items|
    ensures forall i :: 0 <= i < |items| ==> PostingsOf(tx, id, items)[i] == Legs(tx, id, items[i])[0]
  {
    if items != [] {
      SingleLegs(tx, id, items[..|items| - 1]);
    }
  }

  /** Within one warehouse, walking the items by product is walking the stock rows in order. */
  lemma ItemsInOrder(tx: Transaction, id: nat)
    requires ItemsOk(tx.items) && Shaped(tx) && tx.kind != Transfer
    ensures PostingsOf(tx, id, SortByKey(ItemRow, tx.items)) == PostingOrder(tx, id)
    ensures DistinctKeys(ItemRow, SortByKey(ItemRow, tx.items))
  {
    var sorted := SortByKey(ItemRow, tx.items);
    assert DistinctKeys(ItemRow, tx.items);
    SortAscends(ItemRow, tx.items);
    SameElements(ItemRow, tx.items);
    SingleLegs(tx, id, sorted);
    PostingsAreLegs(tx, id, sorted);
    PostingsAreLegs(tx, id, tx.items);
    var ms := PostingsOf(tx, id, sorted);
    forall i, j | 0 <= i < j < |ms| ensures Before(KeyOf(ms[i]), KeyOf(ms[j])) {
      assert Before(ItemRow(sorted[i]), ItemRow(sorted[j]));
    }
    SameElements(KeyOf, Postings(tx, id));
    PostingOrderAscends(tx, id);
    AscendingDetermined(KeyOf, ms, PostingOrder(tx, id));
  }

  /** One entry of completeTransfer()'s list: the item's movement to make, and for
      the source leg the reservation to fulfil. */
  datatype Op = Op(item: Item, movement: Movement, reservation: Option<nat>)

  /** The operation makes one leg of its item, the source leg through the item's reservation. */
  predicate OpBacked(t0: Tables, id: nat, op: Op)
    requires id < |t0.transactions| && t0.transactions[id].kind == Transfer
  {
    && op.item in t0.transactions[id].items
    && match op.reservation
       case None => op.movement == Legs(t0.transactions[id], id, op.item)[1]
       case Some(row) =>
         && op.movement == Legs(t0.transactions[id], id, op.item)[0]
         && row < |t0.reservations| && ActiveFor(t0.reservations[row], id)
         && t0.reservations[row].productId == op.item.productId
  }

  function OpRow(op: Op): StockKey {
    KeyOf(op.movement)
  }

  function MovementsIn(ops: seq<Op>): (r: seq<Movement>)
    ensures |r| == |ops|
    ensures forall i :: 0 <= i < |ops| ==> r[i] == ops[i].movement
  {
    seq(|ops|, i requires 0 <= i < |ops| => ops[i].movement)
  }

  lemma MovementsConcat(a: seq<Op>, b: seq<Op>)
    ensures MovementsIn(a + b) == MovementsIn(a) + MovementsIn(b)
  {
  }

  /** The list grows by the two legs of one item at a time. */
  lemma OneMoreItem(tx: Transaction, id: nat, n: nat, ops: seq<Op>, out: Op, into: Op)
    requires tx.kind == Transfer && n < |tx.items|
    requires MovementsIn(ops) == PostingsOf(tx, id, tx.items[..n])
    requires [out.movement, into.movement] == Legs(tx, id, tx.items[n])
    ensures MovementsIn(ops + [out, into]) == PostingsOf(tx, id, tx.items[..n + 1])
  {
    assert tx.items[..n + 1][..n] == tx.items[..n];
    MovementsConcat(ops, [out, into]);
    assert MovementsIn([out, into]) == [out.movement, into.movement];
  }

  lemma MovementsOfSame(ops: seq<Op>, sorted: seq<Op>)
    requires forall op :: op in ops <==> op in sorted
    ensures forall m :: m in MovementsIn(ops) <==> m in MovementsIn(sorted)
  {
    forall m ensures m in MovementsIn(ops) <==> m in MovementsIn(sorted) {
      if m in MovementsIn(sorted) { MovementFrom(sorted, ops, m); }
      if m in MovementsIn(ops) { MovementFrom(ops, sorted, m); }
    }
  }

  lemma MovementFrom(a: seq<Op>, b: seq<Op>, m: Movement)
    requires forall op <- a :: op in b
    requires m in MovementsIn(a)
    ensures m in MovementsIn(b)
  {
    var i :| 0 <= i < |a| && a[i].movement == m;
    assert a[i] in b;
    var j :| 0 <= j < |b| && b[j] == a[i];
    assert MovementsIn(b)[j] == m;
  }

  /** Merging the operations on both warehouses gives the postings in order. */
  lemma OpsInOrder(tx: Transaction, id: nat, ops: seq<Op>)
    requires ItemsOk(tx.items) && Shaped(tx)
    requires MovementsIn(ops) == Postings(tx, id)
    ensures MovementsIn(SortByKey(OpRow, ops)) == PostingOrder(tx, id)
  {
    PostingsDistinct(tx, id, tx.items);
    forall i, j | 0 <= i < j < |ops| ensures OpRow(ops[i]) != OpRow(ops[j]) {
      assert KeyOf(MovementsIn(ops)[i]) != KeyOf(MovementsIn(ops)[j]);
    }
    SortAscends(OpRow, ops);
    SameElements(OpRow, ops);
    var sorted := SortByKey(OpRow, ops);
    var ms := MovementsIn(sorted);
    forall i, j | 0 <= i < j < |ms| ensures Before(KeyOf(ms[i]), KeyOf(ms[j])) {
      assert Before(OpRow(sorted[i]), OpRow(sorted[j]));
    }
    SameElements(KeyOf, Postings(tx, id));
    MovementsOfSame(ops, sorted);
    PostingOrderAscends(tx, id);
    AscendingDetermined(KeyOf, ms, PostingOrder(tx, id));
  }
}
