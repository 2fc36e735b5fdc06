/** What completing a transaction writes in the ledger, and when it can. */
module PostingFacts {
  import opened Wrappers
  import opened StockOrder
  import opened StockLedger
  import opened ReservationRows
  import opened InventoryTables

  lemma {:induction false} PostingsAreLegs(tx: Transaction, id: nat, items: seq<Item>)
    ensures forall m <- PostingsOf(tx, id, items) :: exists item <- items :: m in Legs(tx, id, item)
    ensures forall item <- items, m <- Legs(tx, id, item) :: m in PostingsOf(tx, id, items)
  {
    if items != [] {
      var front, last := items[..|items| - 1], items[|items| - 1];
      PostingsAreLegs(tx, id, front);
      assert items == front + [last];
      forall m <- PostingsOf(tx, id, items) ensures exists item <- items :: m in Legs(tx, id, item) {
        if m in PostingsOf(tx, id, front) {
          var item :| item in front && m in Legs(tx, id, item);
          assert item in items;
        } else {
          assert last in items;
        }
      }
    }
  }

  /** The postings of one transaction are on pairwise different stock rows. */
  lemma {:induction false} PostingsDistinct(tx: Transaction, id: nat, items: seq<Item>)
    requires Shaped(tx)
    requires DistinctProducts(items)
    ensures DistinctKeys(KeyOf, PostingsOf(tx, id, items))
  {
    if items != [] {
      var front, last := items[..|items| - 1], items[|items| - 1];
      PostingsDistinct(tx, id, front);
      PostingsAreLegs(tx, id, front);
      forall m <- PostingsOf(tx, id, front), n <- Legs(tx, id, last) ensures KeyOf(m) != KeyOf(n) {
        var item :| item in front && m in Legs(tx, id, item);
        assert m.productId == item.productId && n.productId == last.productId;
      }
    }
  }

  lemma PostingsNameTheirTransaction(tx: Transaction, id: nat)
    ensures forall m <- Postings(tx, id) :: m.transactionId == Some(id)
    ensures forall m <- PostingOrder(tx, id) :: m.transactionId == Some(id)
  {
    PostingsAreLegs(tx, id, tx.items);
    SameElements(KeyOf, Postings(tx, id));
  }

  lemma PostingOrderAscends(tx: Transaction, id: nat)
    requires ItemsOk(tx.items) && Shaped(tx)
    ensures DistinctKeys(KeyOf, PostingOrder(tx, id))
    ensures Ascending(KeyOf, PostingOrder(tx, id))
  {
    PostingsDistinct(tx, id, tx.items);
    SortAscends(KeyOf, Postings(tx, id));
  }

  // ---- reading one transaction's rows out of the ledger -------------------

  lemma {:induction false} PostedConcat(a: seq<Movement>, b: seq<Movement>, id: nat)
    ensures PostedBy(a + b, id) == PostedBy(a, id) + PostedBy(b, id)
  {
    if b == [] {
      assert a + b == a;
    } else {
      var front, last := b[..|b| - 1], b[|b| - 1];
      assert (a + b)[..|a + b| - 1] == a + front;
      assert (a + b)[|a + b| - 1] == last;
      PostedConcat(a, front, id);
    }
  }

  lemma {:induction false} PostedAll(ms: seq<Movement>, id: nat)
    requires forall m <- ms :: m.transactionId == Some(id)
    ensures PostedBy(ms, id) == ms
  {
    if ms != [] {
      PostedAll(ms[..|ms| - 1], id);
      assert ms == ms[..|ms| - 1] + [ms[|ms| - 1]];
    }
  }

  lemma {:induction false} PostedNone(ms: seq<Movement>, id: nat)
    requires forall m <- ms :: m.transactionId != Some(id)
    ensures PostedBy(ms, id) == []
  {
    if ms != [] {
      PostedNone(ms[..|ms| - 1], id);
    }
  }

  // ---- when completing succeeds ------------------------------------------

  lemma StockNonNegative(t: Tables)
    requires Booked(t)
    ensures forall k :: OnHand(t.stock, k) >= 0
    ensures forall k :: OnHand(t.stock, k) == NetQuantity(t.ledger, k)
  {
    ReplayIsSignedSum(map[], t.ledger, t.stock);
  }

  /** A leg either adds stock or takes the item's quantity at the source. */
  lemma LegFacts(tx: Transaction, id: nat, item: Item, m: Movement)
    requires Shaped(tx) && m in Legs(tx, id, item)
    ensures m.productId == item.productId
    ensures Delta(m) == item.quantity
            || (tx.kind != Incoming && Delta(m) == -item.quantity && m.warehouseId == Leg(tx.source))
  {
  }

  lemma FittingLegsGoThrough(t: Tables, id: nat)
    requires Booked(t)
    requires id < |t.transactions| && TransactionOk(t, t.transactions[id])
    requires CompleteFits(t, id)
    ensures Replay(t.stock, PostingOrder(t.transactions[id], id)).Some?
  {
    var tx := t.transactions[id];
    var ms := PostingOrder(tx, id);
    PostingOrderAscends(tx, id);
    SameElements(KeyOf, Postings(tx, id));
    forall m <- ms ensures OnHand(t.stock, KeyOf(m)) + Delta(m) >= 0 {
      StockNonNegative(t);
      PostingsAreLegs(tx, id, tx.items);
      var item :| item in tx.items && m in Legs(tx, id, item);
      LegFacts(tx, id, item, m);
      assert ItemOk(item);
    }
    ReplayOfDistinct(t.stock, ms);
  }

  lemma PostedLegsFit(t: Tables, id: nat)
    requires id < |t.transactions| && TransactionOk(t, t.transactions[id])
    requires Replay(t.stock, PostingOrder(t.transactions[id], id)).Some?
    ensures CompleteFits(t, id)
  {
    var tx := t.transactions[id];
    var ms := PostingOrder(tx, id);
    PostingOrderAscends(tx, id);
    ReplayOfDistinct(t.stock, ms);
    if tx.kind != Incoming {
      forall item <- tx.items
        ensures item.quantity <= OnHand(t.stock, StockKey(Leg(tx.source), item.productId))
      {
        PostingsAreLegs(tx, id, tx.items);
        SameElements(KeyOf, Postings(tx, id));
        var m := Legs(tx, id, item)[0];
        assert m in Legs(tx, id, item);
        assert m in ms;
      }
    }
  }

  /** The postings go through exactly when every outgoing leg is there. */
  lemma CompletionCondition(t: Tables, id: nat)
    requires Booked(t)
    requires id < |t.transactions| && TransactionOk(t, t.transactions[id])
    ensures Replay(t.stock, PostingOrder(t.transactions[id], id)).Some? <==> CompleteFits(t, id)
  {
    if CompleteFits(t, id) {
      FittingLegsGoThrough(t, id);
    }
    if Replay(t.stock, PostingOrder(t.transactions[id], id)).Some? {
      PostedLegsFit(t, id);
    }
  }

  /** What completion does to one stock row: minus the item's quantity at the
      source, plus the item's quantity at the destination, nothing elsewhere. */
  lemma CompletionNet(tx: Transaction, id: nat, item: Item)
    requires ItemsOk(tx.items) && Shaped(tx) && item in tx.items
    ensures tx.source.Some? ==>
      NetQuantity(PostingOrder(tx, id), StockKey(tx.source.value, item.productId)) == -item.quantity
    ensures tx.destination.Some? ==>
      NetQuantity(PostingOrder(tx, id), StockKey(tx.destination.value, item.productId)) == item.quantity
  {
    LegNet(tx, id, item, Legs(tx, id, item)[0]);
    if tx.kind == Transfer {
      LegNet(tx, id, item, Legs(tx, id, item)[1]);
    }
  }

  /** A leg is the only posting on its row. */
  lemma LegNet(tx: Transaction, id: nat, item: Item, m: Movement)
    requires ItemsOk(tx.items) && Shaped(tx) && item in tx.items && m in Legs(tx, id, item)
    ensures NetQuantity(PostingOrder(tx, id), KeyOf(m)) == Delta(m)
  {
    var ms := PostingOrder(tx, id);
    PostingOrderAscends(tx, id);
    PostingsAreLegs(tx, id, tx.items);
    SameElements(KeyOf, Postings(tx, id));
    assert m in Postings(tx, id) && m in ms;
    var i :| 0 <= i < |ms| && ms[i] == m;
    NetOfDistinct(ms, i);
  }

  lemma CompletionNetElsewhere(tx: Transaction, id: nat, k: StockKey)
    requires Shaped(tx)
    requires forall item <- tx.items, m <- Legs(tx, id, item) :: KeyOf(m) != k
    ensures NetQuantity(PostingOrder(tx, id), k) == 0
  {
    PostingsAreLegs(tx, id, tx.items);
    SameElements(KeyOf, Postings(tx, id));
    NetOfStrangers(PostingOrder(tx, id), k);
  }
}
