/** What an approved or rejected document turns into and when it goes through, in
    terms of the reviewer's values alone. */
module ApprovalOutcomes {
  import opened Wrappers
  import opened Text
  import opened StockOrder
  import opened StockLedger
  import opened BackingFacts
  import opened ReservationRows
  import opened InventoryTables
  import opened CreateTransaction
  import opened DocumentApproval
  import opened CreateOutcomes
  import opened InventoryRuns

  lemma ApproveStep(t: Tables, id: nat, a: Approval, rules: NameRules)
    ensures Effect(t, ApproveCall(id, a, rules)) == if ApproveAllowed(t, id, a, rules) then Some(AfterApprove(t, id, a)) else None
  {
  }

  // ---- what it turns into -------------------------------------------------

  /** Line `i` as an item: the line's quantity and price; its product is the line's,
      or an active one new to the catalogue with the line's trimmed name. */
  predicate LineMade(t: Tables, after: Tables, line: ApprovalItem, item: Item) {
    && item.quantity == line.quantity && item.price == line.price
    && match line.productId
       case Some(p) => item.productId == p && p in t.products && t.products[p].active
       case None =>
         && item.productId !in t.products && item.productId in after.products
         && line.newName.Some? && after.products[item.productId] == Product(Trim(line.newName.value), true)
  }

  /** One item per line, in order. */
  predicate LinesMade(t: Tables, after: Tables, lines: seq<ApprovalItem>, items: seq<Item>) {
    |items| == |lines| && forall i :: 0 <= i < |lines| ==> LineMade(t, after, lines[i], items[i])
  }

  /** An item of the new transaction is the line's input. */
  lemma ItemIsInput(t: Tables, id: nat, a: Approval, i: nat)
    requires AwaitsReview(t, id) && HeaderFor(t.reviews[id].kind, a).Some? && i < |a.items|
    ensures
      var txs := AfterApprove(t, id, a).transactions;
      && |txs| == |t.transactions| + 1 && |txs[|t.transactions|].items| == |a.items|
      && txs[|t.transactions|].items[i] ==
           Item(t.nextItemId + i, match a.items[i].productId case Some(p) => p case None => a.firstNewId + i,
                a.items[i].quantity, a.items[i].price)
  {
  }

  lemma NewLineMade(products: map<int, Product>, kind: TransactionKind, a: Approval, rules: NameRules, i: nat)
    requires i < |a.items| && a.items[i].productId.None? && LineOk(products, kind, a, i, rules)
    ensures
      var p := a.firstNewId + i;
      && p !in products && p in NewProducts(a, |a.items|) && a.items[i].newName.Some?
      && NewProducts(a, |a.items|)[p] == Product(Trim(a.items[i].newName.value), true)
  {
    assert Defines(a, a.firstNewId + i);
  }

  /** A product id that a line gives is not one that another line brings in. */
  lemma GivenIsNotNew(a: Approval, i: nat)
    requires i < |a.items| && a.items[i].productId.Some?
    requires forall x, y :: 0 <= x < y < |a.items| ==> Inputs(a)[x].productId != Inputs(a)[y].productId
    ensures a.items[i].productId.value !in NewProducts(a, |a.items|)
  {
    var p := a.items[i].productId.value;
    forall q | Defines(a, q) ensures q != p {
      var j := q - a.firstNewId;
      assert Inputs(a)[j].productId == q && Inputs(a)[i].productId == p;
      assert if i < j then Inputs(a)[i].productId != Inputs(a)[j].productId else Inputs(a)[j].productId != Inputs(a)[i].productId;
    }
  }

  lemma GivenLineMade(t: Tables, a: Approval, header: Transaction, i: nat)
    requires CreateAllowed(WithNewProducts(t, a), header, Inputs(a)) && i < |a.items| && a.items[i].productId.Some?
    ensures ActiveProduct(t, a.items[i].productId.value)
  {
    assert Inputs(a)[i] in Inputs(a);
    GivenIsNotNew(a, i);
  }

  lemma LineIsMade(t: Tables, id: nat, a: Approval, rules: NameRules, i: nat)
    requires ApproveAllowed(t, id, a, rules) && i < |a.items|
    ensures
      var after := AfterApprove(t, id, a);
      && |after.transactions| == |t.transactions| + 1 && |after.transactions[|t.transactions|].items| == |a.items|
      && LineMade(t, after, a.items[i], after.transactions[|t.transactions|].items[i])
  {
    ItemIsInput(t, id, a, i);
    if a.items[i].productId.None? {
      NewLineMade(t.products, t.reviews[id].kind, a, rules, i);
    } else {
      GivenLineMade(t, a, HeaderFor(t.reviews[id].kind, a).value, i);
    }
  }

  lemma AllLinesMade(t: Tables, id: nat, a: Approval, rules: NameRules)
    requires ApproveAllowed(t, id, a, rules)
    ensures
      var after := AfterApprove(t, id, a);
      && |after.transactions| == |t.transactions| + 1
      && LinesMade(t, after, a.items, after.transactions[|t.transactions|].items)
  {
    forall i | 0 <= i < |a.items|
      ensures LineMade(t, AfterApprove(t, id, a), a.items[i], AfterApprove(t, id, a).transactions[|t.transactions|].items[i])
    {
      LineIsMade(t, id, a, rules, i);
    }
  }

  lemma HeaderIsReviewers(t: Tables, id: nat, a: Approval)
    requires AwaitsReview(t, id) && HeaderFor(t.reviews[id].kind, a).Some?
    ensures
      var after, n := AfterApprove(t, id, a).transactions, |t.transactions|;
      && |after| == n + 1 && after[..n] == t.transactions
      && after[n] ==
           if t.reviews[id].kind == Incoming
           then Transaction(Incoming, Pending, None, a.destination, a.supplier, a.expectedDate, after[n].items)
           else Transaction(Outgoing, Pending, a.source, None, None, a.expectedDate, after[n].items)
  {
  }

  /** The linked transaction: the reviewer's header and one item per line. */
  lemma ApprovalMakes(t: Tables, id: nat, a: Approval, rules: NameRules)
    requires id < |t.reviews| && Effect(t, ApproveCall(id, a, rules)).Some?
    ensures
      var after, n := Step(t, ApproveCall(id, a, rules)), |t.transactions|;
      && |after.transactions| == n + 1 && after.transactions[..n] == t.transactions
      && after.transactions[n] ==
           (if t.reviews[id].kind == Incoming
            then Transaction(Incoming, Pending, None, a.destination, a.supplier, a.expectedDate, after.transactions[n].items)
            else Transaction(Outgoing, Pending, a.source, None, None, a.expectedDate, after.transactions[n].items))
      && LinesMade(t, after, a.items, after.transactions[n].items)
  {
    ApproveStep(t, id, a, rules);
    AllLinesMade(t, id, a, rules);
    HeaderIsReviewers(t, id, a);
  }

  /** The review is decided and linked, the old products stay, a new one belongs to a
      line, and ledger, stock and every other row stay. */
  lemma ApprovalLeaves(t: Tables, id: nat, a: Approval, rules: NameRules)
    requires id < |t.reviews| && Effect(t, ApproveCall(id, a, rules)).Some?
    ensures
      var after := Step(t, ApproveCall(id, a, rules));
      && t.reviews[id].status == PendingReview
      && after.reviews == t.reviews[id := Review(t.reviews[id].kind, Approved, t.reviews[id].reason,
                                                 Some(a.reviewedBy), Some(|t.transactions|))]
      && (forall p <- t.products :: p in after.products && after.products[p] == t.products[p])
      && (forall p <- after.products :: p in t.products || p in NewIds(a))
      && after == t.(transactions := after.transactions, reservations := after.reservations, products := after.products,
                     reviews := after.reviews, nextItemId := after.nextItemId)
  {
    ApproveStep(t, id, a, rules);
    forall p <- t.products ensures p !in NewProducts(a, |a.items|) {
      assert Defines(a, p) ==> !LineOk(t.products, t.reviews[id].kind, a, p - a.firstNewId, rules);
    }
    NewIdsAreDefined(a);
  }

  // ---- when it goes through -----------------------------------------------

  /** Every line without a product id may define one: it is a purchase, the name is not
      blank, no active product and no earlier line has it, and the id is free. */
  predicate NamesAreFree(t: Tables, kind: TransactionKind, a: Approval, rules: NameRules) {
    forall i :: 0 <= i < |a.items| && a.items[i].productId.None? ==>
      && kind == Incoming && a.firstNewId + i !in t.products
      && match a.items[i].newName
         case None => false
         case Some(name) =>
           && !Blank(name)
           && (forall p <- t.products :: t.products[p].active ==> !rules.same(t.products[p].name, Trim(name)))
           && (forall j :: 0 <= j < i && a.items[j].productId.None? && a.items[j].newName.Some? ==>
                 && rules.fold(Trim(a.items[j].newName.value)) != rules.fold(Trim(name))
                 && !rules.same(Trim(a.items[j].newName.value), Trim(name)))
  }

  /** The ids of the products that lines define. */
  function NewIds(a: Approval): set<int> {
    set p | a.firstNewId <= p < a.firstNewId + |a.items| && Defines(a, p)
  }

  /** `stocked` is the catalogue with the lines' new products, `inputs` the lines as inputs. */
  predicate Resolved(t: Tables, stocked: Tables, a: Approval, inputs: seq<ItemInput>) {
    && stocked == t.(products := stocked.products)
    && stocked.products.Keys == t.products.Keys + NewIds(a)
    && (forall p <- NewIds(a) :: a.items[p - a.firstNewId].newName.Some? ==>
          stocked.products[p] == Product(Trim(a.items[p - a.firstNewId].newName.value), true))
    && (forall p <- t.products :: p !in NewIds(a) ==> stocked.products[p] == t.products[p])
    && |inputs| == |a.items|
    && forall i :: 0 <= i < |a.items| ==>
         inputs[i] == ItemInput(match a.items[i].productId case Some(p) => p case None => a.firstNewId + i,
                                a.items[i].quantity, a.items[i].price)
  }

  lemma NewIdsAreDefined(a: Approval)
    ensures forall p :: p in NewIds(a) <==> Defines(a, p)
  {
  }

  lemma NewProductAt(a: Approval, p: int)
    requires p in NewIds(a) && a.items[p - a.firstNewId].newName.Some?
    ensures p in NewProducts(a, |a.items|)
    ensures NewProducts(a, |a.items|)[p] == Product(Trim(a.items[p - a.firstNewId].newName.value), true)
  {
    NewIdsAreDefined(a);
  }

  lemma NewProductKeys(a: Approval)
    ensures NewProducts(a, |a.items|).Keys == NewIds(a)
  {
    NewIdsAreDefined(a);
  }

  lemma StockedIs(t: Tables, stocked: Tables, a: Approval, inputs: seq<ItemInput>)
    requires Resolved(t, stocked, a, inputs)
    requires forall i :: 0 <= i < |a.items| && a.items[i].productId.None? ==> a.items[i].newName.Some?
    ensures stocked.products == t.products + NewProducts(a, |a.items|)
  {
    NewProductKeys(a);
    forall p <- NewIds(a) ensures stocked.products[p] == NewProducts(a, |a.items|)[p] {
      NewProductAt(a, p);
    }
    SameMap(stocked.products, t.products, NewProducts(a, |a.items|));
  }

  lemma SameMap(all: map<int, Product>, was: map<int, Product>, more: map<int, Product>)
    requires all.Keys == was.Keys + more.Keys
    requires forall p <- more :: all[p] == more[p]
    requires forall p <- was :: p !in more ==> all[p] == was[p]
    ensures all == was + more
  {
    assert (was + more).Keys == all.Keys;
    assert forall p <- all :: all[p] == (was + more)[p];
  }

  lemma ResolvedIs(t: Tables, stocked: Tables, kind: TransactionKind, a: Approval, inputs: seq<ItemInput>, rules: NameRules)
    requires Resolved(t, stocked, a, inputs) && NamesAreFree(t, kind, a, rules)
    ensures inputs == Inputs(a) && stocked == WithNewProducts(t, a)
  {
    StockedIs(t, stocked, a, inputs);
    InputsAre(a, inputs);
  }

  lemma InputsAre(a: Approval, inputs: seq<ItemInput>)
    requires |inputs| == |a.items| && forall i :: 0 <= i < |a.items| ==>
      inputs[i] == ItemInput(match a.items[i].productId case Some(p) => p case None => a.firstNewId + i,
                             a.items[i].quantity, a.items[i].price)
    ensures inputs == Inputs(a)
  {
  }

  lemma FreeIsOk(t: Tables, kind: TransactionKind, a: Approval, rules: NameRules)
    ensures NamesAreFree(t, kind, a, rules) <==> LinesOk(t.products, kind, a, rules)
  {
    if LinesOk(t.products, kind, a, rules) {
      OkIsFree(t, kind, a, rules);
    }
    if NamesAreFree(t, kind, a, rules) {
      forall i | 0 <= i < |a.items| ensures LineOk(t.products, kind, a, i, rules) {
        FreeLineOk(t, kind, a, rules, i);
      }
    }
  }

  lemma FreeLineOk(t: Tables, kind: TransactionKind, a: Approval, rules: NameRules, i: nat)
    requires NamesAreFree(t, kind, a, rules) && i < |a.items|
    ensures LineOk(t.products, kind, a, i, rules)
  {
    if a.items[i].productId.None? {
      var name := a.items[i].newName.value;
      forall j | 0 <= j < i && a.items[j].productId.None?
        ensures rules.fold(NewName(a.items[j])) != rules.fold(Trim(name)) && !rules.same(NewName(a.items[j]), Trim(name))
      {
        assert a.items[j].newName.Some?;
      }
    }
  }

  lemma OkIsFree(t: Tables, kind: TransactionKind, a: Approval, rules: NameRules)
    requires LinesOk(t.products, kind, a, rules)
    ensures NamesAreFree(t, kind, a, rules)
  {
    forall i | 0 <= i < |a.items| && a.items[i].productId.None?
      ensures kind == Incoming && a.firstNewId + i !in t.products && a.items[i].newName.Some? && !Blank(a.items[i].newName.value)
      ensures forall p <- t.products :: t.products[p].active ==> !rules.same(t.products[p].name, NewName(a.items[i]))
      ensures forall j :: 0 <= j < i && a.items[j].productId.None? ==>
        rules.fold(NewName(a.items[j])) != rules.fold(NewName(a.items[i])) && !rules.same(NewName(a.items[j]), NewName(a.items[i]))
    {
      assert LineOk(t.products, kind, a, i, rules);
    }
  }

  /** The create call an approval comes down to goes through: a sale for a document
      of a sale, a purchase for one of a purchase, nothing for a transfer. */
  predicate CreateWouldGoThrough(stocked: Tables, kind: TransactionKind, a: Approval, inputs: seq<ItemInput>) {
    match kind
    case Incoming =>
      a.supplier.Some? && a.destination.Some?
      && Effect(stocked, CreateIncomingCall(a.supplier.value, a.destination.value, a.expectedDate, inputs)).Some?
    case Outgoing =>
      a.source.Some? && Effect(stocked, CreateOutgoingCall(a.source.value, a.expectedDate, inputs)).Some?
    case Transfer => false
  }

  /** approve() goes through exactly for a PENDING_REVIEW row whose new names are free
      and whose create call, on the catalogue with the new products, would go through. */
  lemma ApprovalGoesThrough(t: Tables, stocked: Tables, id: nat, a: Approval, inputs: seq<ItemInput>, rules: NameRules)
    requires Resolved(t, stocked, a, inputs)
    ensures Effect(t, ApproveCall(id, a, rules)).Some? <==>
      && id < |t.reviews| && t.reviews[id].status == PendingReview
      && NamesAreFree(t, t.reviews[id].kind, a, rules)
      && CreateWouldGoThrough(stocked, t.reviews[id].kind, a, inputs)
  {
    ApproveStep(t, id, a, rules);
    if AwaitsReview(t, id) {
      var kind := t.reviews[id].kind;
      FreeIsOk(t, kind, a, rules);
      if NamesAreFree(t, kind, a, rules) {
        ResolvedIs(t, stocked, kind, a, inputs, rules);
        HeaderGoesThrough(t, kind, a);
      }
    }
  }

  lemma HeaderGoesThrough(t: Tables, kind: TransactionKind, a: Approval)
    ensures CreateWouldGoThrough(WithNewProducts(t, a), kind, a, Inputs(a)) <==>
      && HeaderFor(kind, a).Some?
      && CreateAllowed(WithNewProducts(t, a), HeaderFor(kind, a).value, Inputs(a))
      && CreateFits(t, HeaderFor(kind, a).value, Inputs(a))
  {
    if HeaderFor(kind, a).Some? {
      FitsAlike(WithNewProducts(t, a), t, HeaderFor(kind, a).value, Inputs(a));
    }
  }

  // ---- its reservations ---------------------------------------------------

  /** An approved sale sets aside each of its items at the reviewer's source, one row each;
      an approved purchase sets nothing aside. */
  lemma ApprovalReserves(t: Tables, id: nat, a: Approval, rules: NameRules)
    requires id < |t.reviews| && Effect(t, ApproveCall(id, a, rules)).Some?
    ensures
      var after, n := Step(t, ApproveCall(id, a, rules)), |t.transactions|;
      && n < |after.transactions|
      && if t.reviews[id].kind == Incoming then after.reservations == t.reservations
         else a.source.Some? && t.reservations <= after.reservations
              && ItemsReserved(after.reservations[|t.reservations|..], n, a.source.value, after.transactions[n].items)
  {
    ApproveStep(t, id, a, rules);
    var after, n := AfterApprove(t, id, a), |t.transactions|;
    if t.reviews[id].kind != Incoming {
      var tx := after.transactions[n];
      var made := NewReservations(tx, n);
      assert after.reservations[|t.reservations|..] == made;
      assert DistinctProducts(tx.items);
      RequestsReserve(tx, n);
    }
  }

  /** One ACTIVE reservation per item at `w`, and no other row. */
  predicate ItemsReserved(made: seq<Reservation>, id: nat, w: int, items: seq<Item>) {
    && |made| == |items|
    && (forall item <- items :: Reservation(id, item.productId, w, item.quantity, Active) in made)
    && (forall r <- made :: exists item <- items :: r == Reservation(id, item.productId, w, item.quantity, Active))
  }

  lemma RequestsReserve(tx: Transaction, id: nat)
    requires tx.kind != Incoming && tx.source.Some? && DistinctProducts(tx.items)
    ensures ItemsReserved(NewReservations(tx, id), id, tx.source.value, tx.items)
  {
    NewReservationsFacts(tx, id);
    var made := NewReservations(tx, id);
    forall item <- tx.items ensures Reservation(id, item.productId, tx.source.value, item.quantity, Active) in made {
      var x :| 0 <= x < |tx.items| && tx.items[x] == item;
      assert Request(tx, id, tx.items[x]) in made;
    }
    forall r <- made ensures exists item <- tx.items :: r == Reservation(id, item.productId, tx.source.value, item.quantity, Active) {
      var x :| 0 <= x < |tx.items| && r == Request(tx, id, tx.items[x]);
      assert tx.items[x] in tx.items;
    }
  }

  /** reject() goes through exactly for a PENDING_REVIEW row and a reason that is not blank; it
      decides the row with that reason and changes nothing else. */
  lemma RejectionWrites(t: Tables, id: nat, reason: string, reviewer: int)
    ensures Effect(t, RejectCall(id, reason, reviewer)).Some? <==>
      id < |t.reviews| && t.reviews[id].status == PendingReview && exists ch :: ch in reason && !White(ch)
    ensures Effect(t, RejectCall(id, reason, reviewer)).Some? ==>
      Step(t, RejectCall(id, reason, reviewer)) ==
        t.(reviews := t.reviews[id := Review(t.reviews[id].kind, Rejected, Some(reason), Some(reviewer), t.reviews[id].transactionId)])
  {
  }
}
