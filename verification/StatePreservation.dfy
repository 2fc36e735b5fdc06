/** Every service call takes a sound state to a sound state, and keeps every
    stock row able to honour its reservations. */
module StatePreservation {
  import opened Wrappers
  import opened StockOrder
  import opened StockLedger
  import opened ReservationRows
  import opened InventoryTables
  import opened PostingFacts
  import opened BackingFacts

  lemma ReviewsKept(t: Tables, after: Tables)
    requires ReviewsOk(t) && after.reviews == t.reviews
    requires |t.transactions| <= |after.transactions|
    requires forall i :: 0 <= i < |t.transactions| ==> after.transactions[i].kind == t.transactions[i].kind
    ensures ReviewsOk(after)
  {
    forall i | 0 <= i < |t.reviews| ensures ReviewOk(after, after.reviews[i]) {
      assert ReviewOk(t, t.reviews[i]);
    }
  }

  // ---- complete ----------------------------------------------------------

  lemma CompletePosts(t: Tables, id: nat)
    requires Sound(t) && IsPending(t, id)
    requires Replay(t.stock, PostingOrder(t.transactions[id], id)).Some?
    ensures AllPosted(AfterComplete(t, id)) && Booked(AfterComplete(t, id))
  {
    var tx := t.transactions[id];
    var ms := PostingOrder(tx, id);
    var after := AfterComplete(t, id);
    ReplayConcat(map[], t.ledger, ms);
    PostingsNameTheirTransaction(tx, id);
    forall i | 0 <= i < |after.transactions| ensures Posted(after.transactions[i], i, after.ledger) {
      PostedConcat(t.ledger, ms, i);
      assert Posted(t.transactions[i], i, t.ledger);
      if i == id {
        PostedAll(ms, id);
        assert PostedBy(t.ledger, id) == [] by {
          assert |multiset(PostedBy(t.ledger, id))| == 0;
        }
        assert PostedBy(after.ledger, id) == ms;
        assert Postings(after.transactions[id], id) == Postings(tx, id) by { SamePostings(tx, after.transactions[id], id, tx.items); }
      } else {
        PostedNone(ms, i);
        assert PostedBy(after.ledger, i) == PostedBy(t.ledger, i);
      }
    }
  }

  /** Postings depend on the kind, the legs and the items only. */
  lemma {:induction false} SamePostings(a: Transaction, b: Transaction, id: nat, items: seq<Item>)
    requires a.kind == b.kind && a.source == b.source && a.destination == b.destination
    ensures PostingsOf(a, id, items) == PostingsOf(b, id, items)
  {
    if items != [] {
      SamePostings(a, b, id, items[..|items| - 1]);
    }
  }

  /** A transaction stays well formed while its kind, legs, supplier and items
      stay and no row it refers to disappears. */
  lemma TransactionKept(t: Tables, after: Tables, tx: Transaction, status: TransactionStatus)
    requires TransactionOk(t, tx) && RowsRemain(t, after)
    ensures TransactionOk(after, tx.(status := status))
  {
  }

  predicate RowsRemain(t: Tables, after: Tables) {
    && t.products.Keys <= after.products.Keys && t.warehouses.Keys <= after.warehouses.Keys
    && t.suppliers.Keys <= after.suppliers.Keys && t.nextItemId <= after.nextItemId
  }

  /** Changing one transaction's status keeps every transaction well formed. */
  lemma StatusKeepsTransactions(t: Tables, after: Tables, id: nat, status: TransactionStatus)
    requires TransactionsOk(t) && RowsRemain(t, after) && id < |t.transactions|
    requires after.transactions == t.transactions[id := t.transactions[id].(status := status)]
    ensures TransactionsOk(after)
  {
    forall i | 0 <= i < |after.transactions| ensures TransactionOk(after, after.transactions[i]) {
      TransactionKept(t, after, t.transactions[i], after.transactions[i].status);
    }
  }

  lemma CompleteReferences(t: Tables, id: nat)
    requires References(t) && IsPending(t, id)
    requires Replay(t.stock, PostingOrder(t.transactions[id], id)).Some?
    ensures References(AfterComplete(t, id))
  {
    PostingsNameTheirTransaction(t.transactions[id], id);
    SettleReferences(t, id, ProductsOf(t.transactions[id].items), Fulfilled);
  }

  lemma CompleteSound(t: Tables, id: nat)
    requires Sound(t) && IsPending(t, id)
    requires Replay(t.stock, PostingOrder(t.transactions[id], id)).Some?
    ensures Sound(AfterComplete(t, id))
  {
    CompletePosts(t, id);
    CompleteReviews(t, id);
    CompleteBacked(t, id);
    CompleteTransactions(t, id);
    CompleteReferences(t, id);
  }

  lemma CompleteReviews(t: Tables, id: nat)
    requires ReviewsOk(t) && IsPending(t, id)
    requires Replay(t.stock, PostingOrder(t.transactions[id], id)).Some?
    ensures ReviewsOk(AfterComplete(t, id))
  {
    ReviewsKept(t, AfterComplete(t, id));
  }

  lemma CompleteBacked(t: Tables, id: nat)
    requires AllBacked(t) && IsPending(t, id)
    requires Replay(t.stock, PostingOrder(t.transactions[id], id)).Some?
    ensures AllBacked(AfterComplete(t, id))
  {
    SettledBacked(t, AfterComplete(t, id), id, Fulfilled);
  }

  lemma CompleteTransactions(t: Tables, id: nat)
    requires TransactionsOk(t) && IsPending(t, id)
    requires Replay(t.stock, PostingOrder(t.transactions[id], id)).Some?
    ensures TransactionsOk(AfterComplete(t, id))
  {
    StatusKeepsTransactions(t, AfterComplete(t, id), id, Completed);
  }

  lemma SettleReferences(t: Tables, id: nat, products: set<int>, status: ReservationStatus)
    requires References(t)
    ensures forall r <- Settle(t.reservations, id, products, status) ::
      r.transactionId < |t.transactions| && r.quantity > 0
  {
    var rs' := Settle(t.reservations, id, products, status);
    forall i | 0 <= i < |rs'| ensures rs'[i].transactionId < |t.transactions| && rs'[i].quantity > 0 {
      assert t.reservations[i] in t.reservations;
    }
  }

  lemma SettledBacked(t: Tables, after: Tables, id: nat, status: ReservationStatus)
    requires AllBacked(t) && IsPending(t, id) && status != Active
    requires |after.transactions| == |t.transactions| && !Holds(after.transactions[id])
    requires forall i :: 0 <= i < |t.transactions| && i != id ==> after.transactions[i] == t.transactions[i]
    requires after.reservations == Settle(t.reservations, id, ProductsOf(t.transactions[id].items), status)
    ensures AllBacked(after)
  {
    forall i | 0 <= i < |after.transactions| ensures Backed(after.transactions[i], i, after.reservations) {
      assert Backed(t.transactions[i], i, t.reservations);
      if i == id {
        SettleClears(t.transactions[id], after.transactions[id], id, t.reservations, status);
      } else {
        SettleKeepsOthers(t.transactions[i], i, t.reservations, id, ProductsOf(t.transactions[id].items), status);
      }
    }
  }

  /** What completing takes off a row is at most what the transaction had set aside there. */
  lemma NetWithinShare(t: Tables, id: nat, k: StockKey)
    requires References(t) && id < |t.transactions| && TransactionOk(t, t.transactions[id])
    requires Backed(t.transactions[id], id, t.reservations) && t.transactions[id].status == Pending
    ensures
      var tx := t.transactions[id];
      var share := if k.productId in ProductsOf(tx.items) then ReservedBy(t.reservations, id, k) else 0;
      NetQuantity(PostingOrder(tx, id), k) + share >= 0
  {
    var tx := t.transactions[id];
    ReservedNonNegative(t.reservations, id, k);
    if item, m :| item in tx.items && m in Legs(tx, id, item) && KeyOf(m) == k {
      LegWithinShare(t, id, item, k);
      LegFacts(tx, id, item, m);
    } else {
      CompletionNetElsewhere(tx, id, k);
    }
  }

  lemma LegWithinShare(t: Tables, id: nat, item: Item, k: StockKey)
    requires References(t) && id < |t.transactions| && TransactionOk(t, t.transactions[id])
    requires Backed(t.transactions[id], id, t.reservations) && t.transactions[id].status == Pending
    requires item in t.transactions[id].items && k.productId == item.productId
    requires
      var tx := t.transactions[id];
      (tx.source.Some? && k.warehouseId == tx.source.value) || (tx.destination.Some? && k.warehouseId == tx.destination.value)
    ensures NetQuantity(PostingOrder(t.transactions[id], id), k) + ReservedBy(t.reservations, id, k) >= 0
  {
    var tx := t.transactions[id];
    assert ItemOk(item);
    ReservedNonNegative(t.reservations, id, k);
    CompletionNet(tx, id, item);
    if tx.source.Some? && k.warehouseId == tx.source.value {
      var x :| 0 <= x < |tx.items| && tx.items[x] == item;
      ShareOfItem(tx, id, t.reservations, x);
    }
  }

  lemma CompleteCovered(t: Tables, id: nat)
    requires Sound(t) && Covered(t) && IsPending(t, id)
    requires Replay(t.stock, PostingOrder(t.transactions[id], id)).Some?
    ensures Covered(AfterComplete(t, id))
  {
    var tx := t.transactions[id];
    var after := AfterComplete(t, id);
    assert TransactionOk(t, tx) && Backed(tx, id, t.reservations);
    ReplayIsSignedSum(t.stock, PostingOrder(tx, id), after.stock);
    forall k ensures Reserved(after.reservations, k) <= OnHand(after.stock, k) {
      NetWithinShare(t, id, k);
      SettleTakesShare(t.reservations, id, ProductsOf(tx.items), Fulfilled, k);
      assert Reserved(t.reservations, k) <= OnHand(t.stock, k);
    }
  }

  /** Where no row promises more than it holds, every PENDING transaction can be completed. */
  lemma CoveredCompletes(t: Tables, id: nat)
    requires Sound(t) && Covered(t) && IsPending(t, id)
    ensures CompleteFits(t, id)
    ensures Replay(t.stock, PostingOrder(t.transactions[id], id)).Some?
  {
    var tx := t.transactions[id];
    assert TransactionOk(t, tx) && Backed(tx, id, t.reservations);
    if tx.kind != Incoming {
      forall item <- tx.items ensures item.quantity <= OnHand(t.stock, StockKey(Leg(tx.source), item.productId)) {
        var x :| 0 <= x < |tx.items| && tx.items[x] == item;
        var k := StockKey(Leg(tx.source), item.productId);
        ShareOfItem(tx, id, t.reservations, x);
        ReservedNonNegative(t.reservations, id, k);
        assert Reserved(t.reservations, k) <= OnHand(t.stock, k);
      }
    }
    CompletionCondition(t, id);
  }

  // ---- cancel ------------------------------------------------------------

  lemma CancelSound(t: Tables, id: nat)
    requires Sound(t) && IsPending(t, id)
    ensures Sound(AfterCancel(t, id))
  {
    var after := AfterCancel(t, id);
    ReviewsKept(t, after);
    SettledBacked(t, after, id, Released);
    StatusKeepsTransactions(t, after, id, Cancelled);
    CancelPosts(t, id);
    SettleReferences(t, id, ProductsOf(t.transactions[id].items), Released);
  }

  lemma CancelPosts(t: Tables, id: nat)
    requires AllPosted(t) && IsPending(t, id)
    ensures AllPosted(AfterCancel(t, id))
  {
    var after := AfterCancel(t, id);
    forall i | 0 <= i < |after.transactions| ensures Posted(after.transactions[i], i, after.ledger) {
      assert Posted(t.transactions[i], i, t.ledger);
    }
  }

  lemma CancelCovered(t: Tables, id: nat)
    requires References(t) && Covered(t) && id < |t.transactions|
    ensures Covered(AfterCancel(t, id))
  {
    var products := ProductsOf(t.transactions[id].items);
    ReleaseKeepsCover(t, id, products);
    var released := t.(reservations := Settle(t.reservations, id, products, Released));
    forall k ensures Reserved(AfterCancel(t, id).reservations, k) <= OnHand(t.stock, k) {
      assert Reserved(released.reservations, k) <= OnHand(released.stock, k);
    }
  }

  // ---- create ------------------------------------------------------------

  lemma CreatedTransactionOk(t: Tables, header: Transaction, inputs: seq<ItemInput>)
    requires CreateAllowed(t, header, inputs)
    ensures
      var after := AfterCreate(t, header, inputs);
      TransactionOk(after, after.transactions[|t.transactions|])
  {
    var after := AfterCreate(t, header, inputs);
    var tx := after.transactions[|t.transactions|];
    forall item <- tx.items
      ensures ItemOk(item) && item.productId in t.products && item.id < after.nextItemId
      ensures header.kind == Incoming ==> item.price.Some?
    {
      var i :| 0 <= i < |tx.items| && tx.items[i] == item;
      assert inputs[i] in inputs;
    }
    assert tx.items != [] by { assert |tx.items| == |inputs|; }
  }

  lemma CreateBacked(t: Tables, header: Transaction, inputs: seq<ItemInput>)
    requires AllBacked(t) && References(t) && CreateAllowed(t, header, inputs)
    ensures AllBacked(AfterCreate(t, header, inputs))
  {
    var after := AfterCreate(t, header, inputs);
    var n := |t.transactions|;
    var tx := after.transactions[n];
    assert DistinctProducts(tx.items);
    NewReservationsFacts(tx, n);
    forall i | 0 <= i < |after.transactions| ensures Backed(after.transactions[i], i, after.reservations) {
      if i < n {
        AppendKeepsOthers(t.transactions[i], i, t.reservations, NewReservations(tx, n));
      } else {
        CreateBacks(tx, n, t.reservations);
      }
    }
  }

  lemma CreatePosts(t: Tables, header: Transaction, inputs: seq<ItemInput>)
    requires AllPosted(t) && References(t)
    ensures AllPosted(AfterCreate(t, header, inputs))
  {
    var after := AfterCreate(t, header, inputs);
    forall i | 0 <= i < |after.transactions| ensures Posted(after.transactions[i], i, after.ledger) {
      if i < |t.transactions| {
        assert Posted(t.transactions[i], i, t.ledger);
      } else {
        PostedNone(t.ledger, i);
      }
    }
  }

  lemma CreateReferences(t: Tables, header: Transaction, inputs: seq<ItemInput>)
    requires References(t) && CreateAllowed(t, header, inputs)
    ensures References(AfterCreate(t, header, inputs))
  {
    var after := AfterCreate(t, header, inputs);
    var n := |t.transactions|;
    var tx := after.transactions[n];
    CreatedTransactionOk(t, header, inputs);
    NewReservationsFacts(tx, n);
    forall r <- NewReservations(tx, n) ensures r.transactionId == n && r.quantity > 0 {
      var x :| 0 <= x < |tx.items| && r == Request(tx, n, tx.items[x]);
      assert ItemOk(tx.items[x]);
    }
  }

  lemma CreateTransactions(t: Tables, header: Transaction, inputs: seq<ItemInput>)
    requires TransactionsOk(t) && CreateAllowed(t, header, inputs)
    ensures TransactionsOk(AfterCreate(t, header, inputs))
  {
    var after := AfterCreate(t, header, inputs);
    CreatedTransactionOk(t, header, inputs);
    forall i | 0 <= i < |t.transactions| ensures TransactionOk(after, after.transactions[i]) {
      TransactionKept(t, after, t.transactions[i], t.transactions[i].status);
    }
  }

  lemma CreateSound(t: Tables, header: Transaction, inputs: seq<ItemInput>)
    requires Sound(t) && CreateAllowed(t, header, inputs)
    ensures Sound(AfterCreate(t, header, inputs))
  {
    CreateTransactions(t, header, inputs);
    CreateBacked(t, header, inputs);
    CreatePosts(t, header, inputs);
    CreateReferences(t, header, inputs);
    ReviewsKept(t, AfterCreate(t, header, inputs));
  }

  /** Requests on different rows, each fitting its row, fit together. */
  lemma RequestsKeepCover(t: Tables, requests: seq<Reservation>)
    requires Covered(t) && Fits(t, requests) && DistinctKeys(RowOf, requests)
    requires forall r <- requests :: r.status == Active
    ensures Covered(t.(reservations := t.reservations + requests))
  {
    forall k ensures Reserved(t.reservations + requests, k) <= OnHand(t.stock, k) {
      ReservedConcat(t.reservations, requests, k);
      if i :| 0 <= i < |requests| && RowOf(requests[i]) == k {
        ReservedOfDistinct(requests, i);
        assert requests[i] in requests;
      } else {
        ReservedElsewhere(requests, k);
        assert Reserved(t.reservations, k) <= OnHand(t.stock, k);
      }
    }
  }

  /** The items fit exactly when the reservation rows made for them do. */
  lemma CreateFitsRequests(t: Tables, header: Transaction, inputs: seq<ItemInput>, id: nat)
    requires InputsOk(inputs, header.kind == Incoming)
    ensures
      var tx := header.(status := Pending, items := NewItems(inputs, t.nextItemId));
      && DistinctProducts(tx.items)
      && DistinctKeys(RowOf, NewReservations(tx, id))
      && (CreateFits(t, header, inputs) <==> Fits(t, NewReservations(tx, id)))
  {
    var tx := header.(status := Pending, items := NewItems(inputs, t.nextItemId));
    assert DistinctProducts(tx.items);
    NewReservationsFacts(tx, id);
    var rs := NewReservations(tx, id);
    if tx.kind != Incoming {
      if CreateFits(t, header, inputs) {
        forall r <- rs ensures r.quantity <= Available(t, RowOf(r)) {
          var x :| 0 <= x < |tx.items| && r == Request(tx, id, tx.items[x]);
          assert inputs[x] in inputs;
        }
      }
      if Fits(t, rs) {
        forall x <- inputs ensures x.quantity <= Available(t, StockKey(Leg(header.source), x.productId)) {
          var i :| 0 <= i < |inputs| && inputs[i] == x;
          assert Request(tx, id, tx.items[i]) in rs;
        }
      }
    }
  }

  lemma CreateCovered(t: Tables, header: Transaction, inputs: seq<ItemInput>)
    requires Covered(t) && CreateAllowed(t, header, inputs) && CreateFits(t, header, inputs)
    ensures Covered(AfterCreate(t, header, inputs))
  {
    var tx := header.(status := Pending, items := NewItems(inputs, t.nextItemId));
    CreateFitsRequests(t, header, inputs, |t.transactions|);
    NewReservationsFacts(tx, |t.transactions|);
    RequestsKeepCover(t, NewReservations(tx, |t.transactions|));
    var grown := t.(reservations := t.reservations + NewReservations(tx, |t.transactions|));
    forall k ensures Reserved(AfterCreate(t, header, inputs).reservations, k) <= OnHand(t.stock, k) {
      assert Reserved(grown.reservations, k) <= OnHand(grown.stock, k);
    }
  }

  // ---- update ------------------------------------------------------------

  lemma {:induction false} ChangeForFacts(changes: seq<ItemChange>, itemId: nat)
    ensures ChangeFor(changes, itemId).Some? ==>
      ChangeFor(changes, itemId).value in changes && ChangeFor(changes, itemId).value.itemId == itemId
    ensures ChangeFor(changes, itemId).None? ==> forall c <- changes :: c.itemId != itemId
  {
    if changes != [] {
      assert changes == changes[..|changes| - 1] + [changes[|changes| - 1]];
      ChangeForFacts(changes[..|changes| - 1], itemId);
    }
  }

  /** Distinct products, prices of a purchase and apart legs all survive an update. */
  lemma UpdatedTransactionOk(t: Tables, id: nat, input: UpdateInput)
    requires id < |t.transactions| && TransactionOk(t, t.transactions[id])
    requires UpdateAllowed(t, t.transactions[id], input)
    ensures TransactionOk(AfterUpdate(t, id, input), UpdatedTransaction(t.transactions[id], input))
  {
    var tx := t.transactions[id];
    var after := UpdatedTransaction(tx, input);
    assert |after.items| == |tx.items|;
    forall item <- after.items
      ensures ItemOk(item) && item.productId in t.products && item.id < t.nextItemId
      ensures tx.kind == Incoming ==> item.price.Some?
    {
      var i :| 0 <= i < |after.items| && after.items[i] == item;
      assert tx.items[i] in tx.items && ItemOk(tx.items[i]);
      ChangeForFacts(input.changes, tx.items[i].id);
      if ChangeFor(input.changes, tx.items[i].id).Some? {
        assert ChangeOk(ChangeFor(input.changes, tx.items[i].id).value);
      }
    }
    assert forall i :: 0 <= i < |tx.items| ==> after.items[i].id == tx.items[i].id;
  }

  lemma UpdateSound(t: Tables, id: nat, input: UpdateInput)
    requires Sound(t) && IsPending(t, id) && UpdateAllowed(t, t.transactions[id], input)
    ensures Sound(AfterUpdate(t, id, input))
  {
    UpdateTransactions(t, id, input);
    UpdateAllBacked(t, id, input);
    UpdatePosts(t, id, input);
    UpdateReferences(t, id, input);
    UpdateReviews(t, id, input);
  }

  lemma UpdateReviews(t: Tables, id: nat, input: UpdateInput)
    requires ReviewsOk(t) && IsPending(t, id)
    ensures ReviewsOk(AfterUpdate(t, id, input))
  {
    ReviewsKept(t, AfterUpdate(t, id, input));
  }

  lemma UpdateTransactions(t: Tables, id: nat, input: UpdateInput)
    requires TransactionsOk(t) && IsPending(t, id) && UpdateAllowed(t, t.transactions[id], input)
    ensures TransactionsOk(AfterUpdate(t, id, input))
  {
    var after := AfterUpdate(t, id, input);
    UpdatedTransactionOk(t, id, input);
    forall i | 0 <= i < |after.transactions| && i != id ensures TransactionOk(after, after.transactions[i]) {
      TransactionKept(t, after, t.transactions[i], t.transactions[i].status);
    }
  }

  lemma UpdatePosts(t: Tables, id: nat, input: UpdateInput)
    requires AllPosted(t) && IsPending(t, id)
    ensures AllPosted(AfterUpdate(t, id, input))
  {
    var after := AfterUpdate(t, id, input);
    forall i | 0 <= i < |after.transactions| ensures Posted(after.transactions[i], i, after.ledger) {
      assert Posted(t.transactions[i], i, t.ledger);
    }
  }

  lemma UpdateAllBacked(t: Tables, id: nat, input: UpdateInput)
    requires AllBacked(t) && TransactionsOk(t) && IsPending(t, id) && UpdateAllowed(t, t.transactions[id], input)
    ensures AllBacked(AfterUpdate(t, id, input))
  {
    var tx := t.transactions[id];
    var after := AfterUpdate(t, id, input);
    assert TransactionOk(t, tx) && Backed(tx, id, t.reservations);
    SortedPlansFacts(tx, id, input);
    forall i | 0 <= i < |after.transactions| ensures Backed(after.transactions[i], i, after.reservations) {
      assert Backed(t.transactions[i], i, t.reservations);
      if i == id {
        if tx.kind != Incoming {
          UpdateBacks(tx, id, t.reservations, input);
        }
      } else if tx.kind != Incoming {
        var ps := SortedPlans(tx, id, input);
        SettleKeepsOthers(t.transactions[i], i, t.reservations, id, OldProducts(ps), Released);
        forall r <- RequestsIn(ps) ensures r.transactionId != i {
          var j :| 0 <= j < |ps| && ps[j].request == r;
          assert ps[j] in ps;
        }
        AppendKeepsOthers(t.transactions[i], i, ReleasedFor(t, id, input), RequestsIn(ps));
      }
    }
  }

  lemma UpdateReferences(t: Tables, id: nat, input: UpdateInput)
    requires References(t) && TransactionsOk(t) && IsPending(t, id) && UpdateAllowed(t, t.transactions[id], input)
    ensures References(AfterUpdate(t, id, input))
  {
    var tx := t.transactions[id];
    var ps := SortedPlans(tx, id, input);
    assert TransactionOk(t, tx);
    UpdatedTransactionOk(t, id, input);
    SortedPlansFacts(tx, id, input);
    SettleReferences(t, id, OldProducts(ps), Released);
    var after := UpdatedTransaction(tx, input);
    forall j | 0 <= j < |ps| ensures ps[j].request.transactionId == id && ps[j].request.quantity > 0 {
      assert ps[j] in ps;
      var x :| 0 <= x < |tx.items| && tx.items[x] == ps[j].item;
      assert after.items[x] == UpdatedItem(ps[j].item, input.changes);
      assert ItemOk(after.items[x]);
    }
  }

  /** Releasing rows never over-commits a row. */
  lemma ReleaseKeepsCover(t: Tables, id: nat, products: set<int>)
    requires Covered(t) && References(t)
    ensures Covered(t.(reservations := Settle(t.reservations, id, products, Released)))
  {
    forall k ensures Reserved(Settle(t.reservations, id, products, Released), k) <= OnHand(t.stock, k) {
      SettleTakesShare(t.reservations, id, products, Released, k);
      ReservedNonNegative(t.reservations, id, k);
      assert Reserved(t.reservations, k) <= OnHand(t.stock, k);
    }
  }

  lemma UpdateCovered(t: Tables, id: nat, input: UpdateInput)
    requires Sound(t) && Covered(t) && IsPending(t, id)
    requires UpdateAllowed(t, t.transactions[id], input) && UpdateFits(t, id, input)
    ensures Covered(AfterUpdate(t, id, input))
  {
    var tx := t.transactions[id];
    var after := AfterUpdate(t, id, input);
    if tx.kind != Incoming {
      var ps := SortedPlans(tx, id, input);
      SortedPlansFacts(tx, id, input);
      ReleaseKeepsCover(t, id, OldProducts(ps));
      var released := t.(reservations := ReleasedFor(t, id, input));
      forall r <- RequestsIn(ps) ensures r.status == Active {
        var j :| 0 <= j < |ps| && ps[j].request == r;
        assert ps[j] in ps;
      }
      RequestsKeepCover(released, RequestsIn(ps));
      var grown := released.(reservations := released.reservations + RequestsIn(ps));
      forall k ensures Reserved(after.reservations, k) <= OnHand(after.stock, k) {
        assert Reserved(grown.reservations, k) <= OnHand(grown.stock, k);
      }
    } else {
      forall k ensures Reserved(after.reservations, k) <= OnHand(after.stock, k) {
        assert Reserved(t.reservations, k) <= OnHand(t.stock, k);
      }
    }
  }
}
