/** What completing and cancelling leave in the ledger, the stock, the reservations
    and the transaction, written out row by row. */
module SettlingOutcomes {
  import opened Wrappers
  import opened Text
  import opened StockOrder
  import opened StockLedger
  import opened ReservationRows
  import opened InventoryTables
  import opened PostingFacts
  import opened InventoryRuns

  lemma CompleteStep(t: Tables, id: nat)
    requires Effect(t, CompleteCall(id)).Some?
    ensures IsPending(t, id) && Replay(t.stock, PostingOrder(t.transactions[id], id)).Some?
    ensures Step(t, CompleteCall(id)) == AfterComplete(t, id)
  {
  }

  // ---- the ledger rows ----------------------------------------------------

  /** The movement is the only one of its kind in the list. */
  predicate Once(ms: seq<Movement>, m: Movement) {
    multiset(ms)[m] == 1
  }

  /** A purchase's rows: one receipt per item at the destination. */
  predicate Receipts(added: seq<Movement>, id: nat, destination: int, items: seq<Item>) {
    && |added| == |items|
    && (forall item <- items :: Once(added, Movement(item.productId, destination, IncomingMove, item.quantity, Some(id))))
    && (forall m <- added :: exists item <- items ::
          m == Movement(item.productId, destination, IncomingMove, item.quantity, Some(id)))
  }

  /** A sale's rows: one issue per item at the source. */
  predicate Issues(added: seq<Movement>, id: nat, source: int, items: seq<Item>) {
    && |added| == |items|
    && (forall item <- items :: Once(added, Movement(item.productId, source, OutgoingMove, item.quantity, Some(id))))
    && (forall m <- added :: exists item <- items ::
          m == Movement(item.productId, source, OutgoingMove, item.quantity, Some(id)))
  }

  /** A transfer's rows: per item one out of the source and one into the destination. */
  predicate Moves(added: seq<Movement>, id: nat, source: int, destination: int, items: seq<Item>) {
    && |added| == 2 * |items|
    && (forall item <- items ::
          && Once(added, Movement(item.productId, source, TransferOut, item.quantity, Some(id)))
          && Once(added, Movement(item.productId, destination, TransferIn, item.quantity, Some(id))))
    && (forall m <- added :: exists item <- items ::
          || m == Movement(item.productId, source, TransferOut, item.quantity, Some(id))
          || m == Movement(item.productId, destination, TransferIn, item.quantity, Some(id)))
  }

  lemma {:induction false} DistinctOnce(ms: seq<Movement>, m: Movement)
    requires DistinctKeys(KeyOf, ms) && m in ms
    ensures Once(ms, m)
  {
    var front, last := ms[..|ms| - 1], ms[|ms| - 1];
    assert ms == front + [last];
    if m in front {
      assert KeyOf(m) != KeyOf(last);
      DistinctOnce(front, m);
    } else {
      assert m !in multiset(front);
    }
  }

  lemma PostingsOnce(tx: Transaction, id: nat)
    requires ItemsOk(tx.items) && Shaped(tx)
    ensures forall m <- PostingOrder(tx, id) :: Once(PostingOrder(tx, id), m)
    ensures forall item <- tx.items, m <- Legs(tx, id, item) :: m in PostingOrder(tx, id)
    ensures forall m <- PostingOrder(tx, id) :: exists item <- tx.items :: m in Legs(tx, id, item)
  {
    PostingOrderAscends(tx, id);
    PostingsAreLegs(tx, id, tx.items);
    SameElements(KeyOf, Postings(tx, id));
    forall m <- PostingOrder(tx, id) ensures Once(PostingOrder(tx, id), m) {
      DistinctOnce(PostingOrder(tx, id), m);
    }
  }

  lemma ReceiptsPosted(tx: Transaction, id: nat)
    requires ItemsOk(tx.items) && Shaped(tx) && tx.kind == Incoming
    ensures Receipts(PostingOrder(tx, id), id, tx.destination.value, tx.items)
  {
    PostingsOnce(tx, id);
    forall item <- tx.items
      ensures Once(PostingOrder(tx, id), Movement(item.productId, tx.destination.value, IncomingMove, item.quantity, Some(id)))
    {
      assert Legs(tx, id, item)[0] in Legs(tx, id, item);
    }
  }

  lemma IssuesPosted(tx: Transaction, id: nat)
    requires ItemsOk(tx.items) && Shaped(tx) && tx.kind == Outgoing
    ensures Issues(PostingOrder(tx, id), id, tx.source.value, tx.items)
  {
    PostingsOnce(tx, id);
    forall item <- tx.items
      ensures Once(PostingOrder(tx, id), Movement(item.productId, tx.source.value, OutgoingMove, item.quantity, Some(id)))
    {
      assert Legs(tx, id, item)[0] in Legs(tx, id, item);
    }
  }

  lemma MovesPosted(tx: Transaction, id: nat)
    requires ItemsOk(tx.items) && Shaped(tx) && tx.kind == Transfer
    ensures Moves(PostingOrder(tx, id), id, tx.source.value, tx.destination.value, tx.items)
  {
    PostingsOnce(tx, id);
    forall item <- tx.items
      ensures Once(PostingOrder(tx, id), Movement(item.productId, tx.source.value, TransferOut, item.quantity, Some(id)))
      ensures Once(PostingOrder(tx, id), Movement(item.productId, tx.destination.value, TransferIn, item.quantity, Some(id)))
    {
      assert Legs(tx, id, item)[0] in Legs(tx, id, item) && Legs(tx, id, item)[1] in Legs(tx, id, item);
    }
  }

  /** Completing appends exactly these rows to the ledger: for each item of a purchase an
      IncomingMove at the destination, of a sale an OutgoingMove at the source, of a transfer a
      TransferOut at the source and a TransferIn at the destination, each once, each with the
      item's product and quantity and the transaction's id, and no other row. */
  lemma CompletionPosts(t: Tables, id: nat) returns (added: seq<Movement>)
    requires Sound(t) && IsPending(t, id) && Effect(t, CompleteCall(id)).Some?
    ensures Step(t, CompleteCall(id)).ledger == t.ledger + added
    ensures
      var tx := t.transactions[id];
      match tx.kind
      case Incoming => tx.destination.Some? && Receipts(added, id, tx.destination.value, tx.items)
      case Outgoing => tx.source.Some? && Issues(added, id, tx.source.value, tx.items)
      case Transfer =>
        tx.source.Some? && tx.destination.Some? && Moves(added, id, tx.source.value, tx.destination.value, tx.items)
  {
    var tx := t.transactions[id];
    assert TransactionOk(t, tx);
    CompleteStep(t, id);
    added := PostingOrder(tx, id);
    match tx.kind {
      case Incoming => ReceiptsPosted(tx, id);
      case Outgoing => IssuesPosted(tx, id);
      case Transfer => MovesPosted(tx, id);
    }
  }

  // ---- the stock rows -----------------------------------------------------

  /** The row is touched by no item. */
  predicate Elsewhere(tx: Transaction, k: StockKey) {
    || (tx.source != Some(k.warehouseId) && tx.destination != Some(k.warehouseId))
    || forall item <- tx.items :: item.productId != k.productId
  }

  lemma NetOfItem(tx: Transaction, id: nat, k: StockKey, item: Item)
    requires ItemsOk(tx.items) && Shaped(tx) && item in tx.items && item.productId == k.productId
    ensures tx.source == Some(k.warehouseId) ==> NetQuantity(PostingOrder(tx, id), k) == -item.quantity
    ensures tx.destination == Some(k.warehouseId) ==> NetQuantity(PostingOrder(tx, id), k) == item.quantity
  {
    CompletionNet(tx, id, item);
  }

  lemma NetElsewhere(tx: Transaction, id: nat, k: StockKey)
    requires Shaped(tx) && Elsewhere(tx, k)
    ensures NetQuantity(PostingOrder(tx, id), k) == 0
  {
    forall item <- tx.items, m <- Legs(tx, id, item) ensures KeyOf(m) != k {
      LegFacts(tx, id, item, m);
    }
    CompletionNetElsewhere(tx, id, k);
  }

  lemma CompletionAddsNet(t: Tables, id: nat, k: StockKey)
    requires Effect(t, CompleteCall(id)).Some?
    ensures IsPending(t, id)
    ensures OnHand(Step(t, CompleteCall(id)).stock, k) == OnHand(t.stock, k) + NetQuantity(PostingOrder(t.transactions[id], id), k)
  {
    CompleteStep(t, id);
    ReplayIsSignedSum(t.stock, PostingOrder(t.transactions[id], id), AfterComplete(t, id).stock);
  }

  /** Completing takes each item off its source row and puts it on its destination row. */
  lemma CompletionStocks(t: Tables, id: nat, k: StockKey, item: Item)
    requires Sound(t) && IsPending(t, id) && Effect(t, CompleteCall(id)).Some?
    requires item in t.transactions[id].items && item.productId == k.productId
    ensures t.transactions[id].source == Some(k.warehouseId) ==>
      OnHand(Step(t, CompleteCall(id)).stock, k) == OnHand(t.stock, k) - item.quantity
    ensures t.transactions[id].destination == Some(k.warehouseId) ==>
      OnHand(Step(t, CompleteCall(id)).stock, k) == OnHand(t.stock, k) + item.quantity
  {
    assert TransactionOk(t, t.transactions[id]);
    CompletionAddsNet(t, id, k);
    NetOfItem(t.transactions[id], id, k, item);
  }

  /** Every other row stays. */
  lemma CompletionSparesStock(t: Tables, id: nat, k: StockKey)
    requires Sound(t) && IsPending(t, id) && Effect(t, CompleteCall(id)).Some?
    requires Elsewhere(t.transactions[id], k)
    ensures OnHand(Step(t, CompleteCall(id)).stock, k) == OnHand(t.stock, k)
  {
    assert TransactionOk(t, t.transactions[id]);
    CompletionAddsNet(t, id, k);
    NetElsewhere(t.transactions[id], id, k);
  }

  /** complete() goes through exactly for a PENDING row whose outgoing quantities are on hand. */
  lemma CompletionGoesThrough(t: Tables, id: nat)
    requires Sound(t)
    ensures Effect(t, CompleteCall(id)).Some? <==>
      && id < |t.transactions| && t.transactions[id].status == Pending
      && (t.transactions[id].source.Some? ==>
            forall item <- t.transactions[id].items ::
              item.quantity <= OnHand(t.stock, StockKey(t.transactions[id].source.value, item.productId)))
  {
    CompletionServed(t, id);
    if IsPending(t, id) {
      assert TransactionOk(t, t.transactions[id]);
    }
  }

  // ---- the rest -----------------------------------------------------------

  /** The transaction's ACTIVE reservations become `status`, all others stay. */
  predicate Settles(before: seq<Reservation>, after: seq<Reservation>, id: nat, status: ReservationStatus) {
    && |after| == |before|
    && forall i :: 0 <= i < |before| ==>
         after[i] == if before[i].status == Active && before[i].transactionId == id
                     then Reservation(id, before[i].productId, before[i].warehouseId, before[i].quantity, status)
                     else before[i]
  }

  lemma AllSettled(t: Tables, id: nat, status: ReservationStatus)
    requires AllBacked(t) && IsPending(t, id)
    ensures Settles(t.reservations, Settle(t.reservations, id, ProductsOf(t.transactions[id].items), status), id, status)
  {
    var tx, rs := t.transactions[id], t.reservations;
    assert Backed(tx, id, rs);
    forall i | 0 <= i < |rs| && ActiveFor(rs[i], id) ensures rs[i].productId in ProductsOf(tx.items) {
      assert Matches(rs[i], tx);
    }
  }

  /** Completing fulfils every reservation of the transaction, marks it COMPLETED,
      and changes nothing else but ledger and stock. */
  lemma CompletionSettles(t: Tables, id: nat)
    requires Sound(t) && IsPending(t, id) && Effect(t, CompleteCall(id)).Some?
    ensures
      var after := Step(t, CompleteCall(id));
      && Settles(t.reservations, after.reservations, id, Fulfilled)
      && after == t.(transactions := t.transactions[id := t.transactions[id].(status := Completed)],
                     reservations := after.reservations, ledger := after.ledger, stock := after.stock)
  {
    CompleteStep(t, id);
    AllSettled(t, id, Fulfilled);
  }

  /** Cancelling goes through exactly for a PENDING row; it releases every reservation of
      the transaction, marks it CANCELLED, and changes nothing else. */
  lemma CancelSettles(t: Tables, id: nat)
    requires Sound(t)
    ensures Effect(t, CancelCall(id)).Some? <==> id < |t.transactions| && t.transactions[id].status == Pending
    ensures Effect(t, CancelCall(id)).Some? ==>
      var after := Step(t, CancelCall(id));
      && Settles(t.reservations, after.reservations, id, Released)
      && after == t.(transactions := t.transactions[id := t.transactions[id].(status := Cancelled)],
                     reservations := after.reservations)
  {
    if IsPending(t, id) {
      AllSettled(t, id, Released);
    }
  }

  /** An adjustment goes through exactly for an ADMIN with a reason, existing rows, a quantity
      other than zero and stock that stays non-negative; it writes one ledger row and one stock row. */
  lemma AdjustmentWrites(t: Tables, admin: bool, reason: string, p: int, w: int, q: int)
    ensures
      var c, k := AdjustCall(admin, reason, p, w, q), StockKey(w, p);
      && (Effect(t, c).Some? <==>
            admin && (exists ch :: ch in reason && !White(ch)) && q != 0
            && p in t.products && w in t.warehouses && OnHand(t.stock, k) + q >= 0)
      && (Effect(t, c).Some? ==>
            Step(t, c) == t.(ledger := t.ledger + [Movement(p, w, Adjustment, q, None)],
                             stock := t.stock[k := OnHand(t.stock, k) + q]))
  {
  }
}
