/** What a whole run of calls does to one transaction, its ledger rows and its
    reservations. */
module TransactionHistory {
  import opened Wrappers
  import opened StockOrder
  import opened StockLedger
  import opened ReservationRows
  import opened InventoryTables
  import opened BackingFacts
  import opened PostingFacts
  import CompletionSteps
  import opened CreateTransaction
  import opened DocumentApproval
  import opened InventoryRuns

  // ---- terminal status ----------------------------------------------------

  predicate Settled(t: Tables, id: nat) {
    id < |t.transactions| && t.transactions[id].status != Pending
  }

  /** The call settles transaction `id`: it is its complete() or cancel(), and it goes through. */
  predicate Settles(t: Tables, c: Call, id: nat) {
    (c.CompleteCall? || c.CancelCall?) && c.id == id && Effect(t, c).Some?
  }

  /** Other than by its own complete() or cancel(), a transaction row keeps its
      status; a settled row does not change at all; new rows are PENDING. */
  predicate StatusesKept(t: Tables, after: Tables) {
    && |t.transactions| <= |after.transactions|
    && forall i :: 0 <= i < |after.transactions| ==>
         if i < |t.transactions| then
           && after.transactions[i].status == t.transactions[i].status
           && (t.transactions[i].status != Pending ==> after.transactions[i] == t.transactions[i])
         else after.transactions[i].status == Pending
  }

  lemma StepKeepsStatuses(t: Tables, c: Call)
    requires !c.CompleteCall? && !c.CancelCall?
    ensures StatusesKept(t, Step(t, c))
  {
    if c.UpdateCall? {
      UpdateKeepsStatuses(t, c);
    } else if c.ApproveCall? {
      ApproveKeepsStatuses(t, c);
    } else if c.CreateIncomingCall? || c.CreateOutgoingCall? || c.CreateTransferCall? {
      CreateCallKeepsStatuses(t, c);
    }
  }

  lemma UpdateKeepsStatuses(t: Tables, c: Call)
    requires c.UpdateCall?
    ensures StatusesKept(t, Step(t, c))
  {
    if Effect(t, c).Some? { assert Step(t, c) == AfterUpdate(t, c.id, c.input); }
  }

  lemma ApproveKeepsStatuses(t: Tables, c: Call)
    requires c.ApproveCall?
    ensures StatusesKept(t, Step(t, c))
  {
    if Effect(t, c).Some? {
      CreateKeepsStatuses(WithNewProducts(t, c.approval), HeaderFor(t.reviews[c.reviewId].kind, c.approval).value, Inputs(c.approval));
      assert Step(t, c) == AfterApprove(t, c.reviewId, c.approval);
    }
  }

  lemma CreateCallKeepsStatuses(t: Tables, c: Call)
    requires c.CreateIncomingCall? || c.CreateOutgoingCall? || c.CreateTransferCall?
    ensures StatusesKept(t, Step(t, c))
  {
    match c {
      case CreateIncomingCall(s, d, date, inputs) => CreateKeepsStatuses(t, IncomingHeader(s, d, date), inputs);
      case CreateOutgoingCall(s, date, inputs) => CreateKeepsStatuses(t, OutgoingHeader(s, date), inputs);
      case CreateTransferCall(s, d, date, inputs) => CreateKeepsStatuses(t, TransferHeader(s, d, date), inputs);
    }
  }

  lemma CreateKeepsStatuses(t: Tables, header: Transaction, inputs: seq<ItemInput>)
    ensures StatusesKept(t, AfterCreate(t, header, inputs))
  {
  }

  lemma StepOnTransaction(t: Tables, c: Call, id: nat)
    ensures Settled(t, id) ==> Settled(Step(t, c), id) && Step(t, c).transactions[id] == t.transactions[id]
    ensures !Settled(t, id) ==> (Settled(Step(t, c), id) <==> Settles(t, c, id))
  {
    if !c.CompleteCall? && !c.CancelCall? {
      StepKeepsStatuses(t, c);
    } else {
      SettlingStep(t, c);
    }
  }

  /** A complete() or cancel() that goes through changes its own PENDING row only. */
  lemma SettlingStep(t: Tables, c: Call)
    requires c.CompleteCall? || c.CancelCall?
    ensures Effect(t, c).Some? ==>
      && IsPending(t, c.id) && |Step(t, c).transactions| == |t.transactions|
      && Settled(Step(t, c), c.id)
      && forall i :: 0 <= i < |t.transactions| && i != c.id ==> Step(t, c).transactions[i] == t.transactions[i]
    ensures Effect(t, c).None? ==> Step(t, c) == t
  {
  }

  lemma SettledForGood(t: Tables, c: Call, id: nat)
    requires Settled(t, id)
    ensures !Settles(t, c, id)
  {
  }

  lemma StepAppends(t: Tables, c: Call)
    ensures t.ledger <= Step(t, c).ledger
  {
    match c {
      case CompleteCall(i) =>
      case AdjustCall(_, _, p, w, q) =>
      case _ =>
        assert Step(t, c).ledger == t.ledger;
    }
  }

  /** How many calls of a run settle transaction `id`. */
  function Settlements(t: Tables, calls: seq<Call>, id: nat): nat {
    if calls == [] then 0
    else
      Settlements(t, calls[..|calls| - 1], id) +
      (if Settles(Run(t, calls[..|calls| - 1]), calls[|calls| - 1], id) then 1 else 0)
  }

  /** At most one complete() or cancel() of a transaction ever goes through: one
      if the run takes it out of PENDING, none otherwise. Whatever else the run
      does, a settled transaction stays exactly as it is. */
  lemma {:induction false} SettledOnce(t: Tables, calls: seq<Call>, id: nat)
    ensures Settlements(t, calls, id) == if Settled(Run(t, calls), id) && !Settled(t, id) then 1 else 0
    ensures Settled(t, id) ==> Settled(Run(t, calls), id) && Run(t, calls).transactions[id] == t.transactions[id]
  {
    if calls != [] {
      var front := calls[..|calls| - 1];
      SettledOnce(t, front, id);
      StepOnTransaction(Run(t, front), calls[|calls| - 1], id);
      if Settled(Run(t, front), id) {
        SettledForGood(Run(t, front), calls[|calls| - 1], id);
      }
    }
  }

  // ---- the ledger ---------------------------------------------------------

  /** A movement is never taken back or changed. */
  lemma {:induction false} LedgerAppendOnly(t: Tables, calls: seq<Call>)
    ensures t.ledger <= Run(t, calls).ledger
  {
    if calls != [] {
      LedgerAppendOnly(t, calls[..|calls| - 1]);
      StepAppends(Run(t, calls[..|calls| - 1]), calls[|calls| - 1]);
    }
  }

  /** In every state a run reaches, a COMPLETED transaction has one ledger row
      per item, two for a transfer, and any other transaction none. */
  lemma MovementsOnce(t: Tables, calls: seq<Call>, id: nat)
    requires Sound(t) && id < |Run(t, calls).transactions|
    ensures
      var tx := Run(t, calls).transactions[id];
      var rows := PostedBy(Run(t, calls).ledger, id);
      && (tx.status == Completed ==> multiset(rows) == multiset(Postings(tx, id)))
      && |rows| == if tx.status != Completed then 0 else if tx.kind == Transfer then 2 * |tx.items| else |tx.items|
  {
    RunSound(t, calls);
    var now := Run(t, calls);
    assert Posted(now.transactions[id], id, now.ledger);
    assert |multiset(PostedBy(now.ledger, id))| == |PostedBy(now.ledger, id)|;
    assert |multiset(Postings(now.transactions[id], id))| == |Postings(now.transactions[id], id)|;
  }

  // ---- reservations -------------------------------------------------------

  /** The ACTIVE reservations of one transaction. */
  function ActiveOf(rs: seq<Reservation>, id: nat): seq<Reservation> {
    if rs == [] then []
    else
      ActiveOf(rs[..|rs| - 1], id) +
      (if ActiveFor(rs[|rs| - 1], id) then [rs[|rs| - 1]] else [])
  }

  lemma {:induction false} ActiveOfFacts(rs: seq<Reservation>, id: nat)
    requires forall i, j :: 0 <= i < j < |rs| && ActiveFor(rs[i], id) && ActiveFor(rs[j], id) ==>
      rs[i].productId != rs[j].productId
    ensures forall r :: r in ActiveOf(rs, id) <==> r in rs && ActiveFor(r, id)
    ensures DistinctKeys(RowOf, ActiveOf(rs, id))
  {
    if rs != [] {
      var front, last := rs[..|rs| - 1], rs[|rs| - 1];
      ActiveOfFacts(front, id);
      assert rs == front + [last];
      forall r <- ActiveOf(front, id) ensures ActiveFor(last, id) ==> r.productId != last.productId {
        var i :| 0 <= i < |front| && front[i] == r;
        assert rs[i] == r && ActiveFor(rs[i], id);
      }
    }
  }

  /** Rows with different keys are pairwise different rows. */
  lemma {:induction false} OnceEach<T>(key: T -> StockKey, xs: seq<T>, x: T)
    requires DistinctKeys(key, xs)
    ensures multiset(xs)[x] == if x in xs then 1 else 0
  {
    if xs != [] {
      var front, last := xs[..|xs| - 1], xs[|xs| - 1];
      assert xs == front + [last];
      OnceEach(key, front, x);
    }
  }

  lemma SameRowsOnce<T>(key: T -> StockKey, xs: seq<T>, ys: seq<T>)
    requires DistinctKeys(key, xs) && DistinctKeys(key, ys)
    requires forall x :: x in xs <==> x in ys
    ensures multiset(xs) == multiset(ys)
  {
    forall x ensures multiset(xs)[x] == multiset(ys)[x] {
      OnceEach(key, xs, x);
      OnceEach(key, ys, x);
    }
  }

  /** In every state a run reaches, through updates that swap products or move
      the source too, the ACTIVE reservations of a PENDING sale or transfer are
      one per item with that item's product and quantity at the source, each
      exactly once; a purchase or a settled transaction has none. */
  lemma ReservationsMatchItems(t: Tables, calls: seq<Call>, id: nat)
    requires Sound(t) && id < |Run(t, calls).transactions|
    ensures
      var tx := Run(t, calls).transactions[id];
      multiset(ActiveOf(Run(t, calls).reservations, id)) ==
      if Holds(tx) then multiset(RequestsOf(tx, id)) else multiset{}
  {
    RunSound(t, calls);
    BackedMeansSame(Run(t, calls), id);
  }

  lemma BackedMeansSame(t: Tables, id: nat)
    requires AllBacked(t) && TransactionsOk(t) && id < |t.transactions|
    ensures multiset(ActiveOf(t.reservations, id)) ==
            if Holds(t.transactions[id]) then multiset(RequestsOf(t.transactions[id], id)) else multiset{}
  {
    var tx, rs := t.transactions[id], t.reservations;
    assert Backed(tx, id, rs) && TransactionOk(t, tx);
    ActiveOfFacts(rs, id);
    if Holds(tx) {
      RequestsDistinct(tx, id);
      forall r ensures r in ActiveOf(rs, id) <==> r in RequestsOf(tx, id) {
        ActiveIsRequest(tx, id, rs, r);
      }
      SameRowsOnce(RowOf, ActiveOf(rs, id), RequestsOf(tx, id));
    } else {
      assert forall r <- rs :: ActiveFor(r, id) ==> Matches(r, tx);
      if |ActiveOf(rs, id)| > 0 { CompletionSteps.HasMember(ActiveOf(rs, id)); }
    }
  }

  lemma ActiveIsRequest(tx: Transaction, id: nat, rs: seq<Reservation>, r: Reservation)
    requires Backed(tx, id, rs) && Holds(tx) && DistinctProducts(tx.items)
    ensures r in rs && ActiveFor(r, id) <==> r in RequestsOf(tx, id)
  {
    if r in rs && ActiveFor(r, id) {
      assert Matches(r, tx);
      var x :| 0 <= x < |tx.items| && tx.items[x].productId == r.productId && tx.items[x].quantity == r.quantity;
      assert RequestsOf(tx, id)[x] == r;
    }
    if r in RequestsOf(tx, id) {
      var x :| 0 <= x < |tx.items| && RequestsOf(tx, id)[x] == r;
      var i := ExactlyOneReservation(tx, id, rs, x);
    }
  }

  // ---- reviews ------------------------------------------------------------

  /** Once decided, a review never changes; in every state a run reaches an
      APPROVED review has its own transaction of its own type and any other has
      none, and a REJECTED one has its reason. */
  lemma {:induction false} ReviewHistory(t: Tables, calls: seq<Call>, n: nat)
    requires Sound(t) && n < |t.reviews|
    ensures ReviewsOk(Run(t, calls)) && n < |Run(t, calls).reviews|
    ensures t.reviews[n].status != PendingReview ==> Run(t, calls).reviews[n] == t.reviews[n]
    ensures Run(t, calls).reviews[n].kind == t.reviews[n].kind
  {
    RunSound(t, calls);
    if calls != [] {
      ReviewHistory(t, calls[..|calls| - 1], n);
      StepOnReview(Run(t, calls[..|calls| - 1]), calls[|calls| - 1], n);
    }
  }

  lemma StepOnReview(t: Tables, c: Call, n: nat)
    requires n < |t.reviews|
    ensures n < |Step(t, c).reviews| && Step(t, c).reviews[n].kind == t.reviews[n].kind
    ensures t.reviews[n].status != PendingReview ==> Step(t, c).reviews[n] == t.reviews[n]
  {
    if !c.ApproveCall? && !c.RejectCall? && !c.ReceiveDocument? {
      ReviewsUntouched(t, c);
    }
  }

  lemma ReviewsUntouched(t: Tables, c: Call)
    requires !c.ApproveCall? && !c.RejectCall? && !c.ReceiveDocument?
    ensures Step(t, c).reviews == t.reviews
  {
  }

  /** Calls other than the catalogue screens' own writes. */
  ghost predicate LeavesNames(c: Call, rules: NameRules) {
    !c.PutProduct? && (c.ApproveCall? ==> c.rules == rules)
  }

  /** Approvals one after another, with any other calls between them, keep the
      names of active products unique ignoring case. */
  lemma {:induction false} NamesStayUnique(t: Tables, calls: seq<Call>, rules: NameRules)
    requires Symmetric(rules) && UniqueNames(t.products, rules)
    requires forall c <- calls :: LeavesNames(c, rules)
    ensures UniqueNames(Run(t, calls).products, rules)
  {
    if calls != [] {
      var front, c := calls[..|calls| - 1], calls[|calls| - 1];
      NamesStayUnique(t, front, rules);
      assert LeavesNames(c, rules);
      StepKeepsNamesUnique(Run(t, front), c, rules);
    }
  }

  lemma StepKeepsNamesUnique(t: Tables, c: Call, rules: NameRules)
    requires Symmetric(rules) && UniqueNames(t.products, rules) && LeavesNames(c, rules)
    ensures UniqueNames(Step(t, c).products, rules)
  {
    if c.ApproveCall? {
      if Effect(t, c).Some? {
        ApprovalKeepsNamesUnique(t, c.reviewId, c.approval, rules);
      }
    } else if c.RemoveProduct? {
      FewerActive(t.products, Step(t, c).products, rules);
    } else {
      ProductsKept(t, c);
    }
  }

  lemma FewerActive(products: map<int, Product>, after: map<int, Product>, rules: NameRules)
    requires UniqueNames(products, rules)
    requires forall p <- after :: after[p].active ==> p in products && after[p] == products[p]
    ensures UniqueNames(after, rules)
  {
  }

  lemma ProductsKept(t: Tables, c: Call)
    requires !c.PutProduct? && !c.RemoveProduct? && !c.ApproveCall?
    ensures Step(t, c).products == t.products
  {
  }
}
