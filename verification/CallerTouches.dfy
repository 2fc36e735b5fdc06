/** What a call that takes stock rows asks of each of them, and what its commit
    does to the rows others hold. */
module CallerTouches {
  import opened Wrappers
  import opened StockOrder
  import opened StockLedger
  import opened ReservationRows
  import opened InventoryTables
  import opened PostingFacts
  import opened BackingFacts
  import opened StatePreservation
  import opened CreateTransaction
  import opened DocumentApproval
  import opened InventoryRuns

  datatype Intent =
    | Completing(id: nat)
    | Cancelling(id: nat)
    | Updating(id: nat, input: UpdateInput)
    | Selling(source: int, expectedDate: Option<int>, inputs: seq<ItemInput>)
    | Moving(source: int, destination: int, expectedDate: Option<int>, inputs: seq<ItemInput>)
    | Approving(reviewId: nat, approval: Approval, rules: NameRules)

  function CallOf(intent: Intent): Call {
    match intent
    case Completing(id) => CompleteCall(id)
    case Cancelling(id) => CancelCall(id)
    case Updating(id, input) => UpdateCall(id, input)
    case Selling(source, date, inputs) => CreateOutgoingCall(source, date, inputs)
    case Moving(source, destination, date, inputs) => CreateTransferCall(source, destination, date, inputs)
    case Approving(id, a, rules) => ApproveCall(id, a, rules)
  }

  /** The row a call claims with its first conditional UPDATE. */
  datatype Target = TransactionRow(id: nat) | ReviewRow(reviewId: nat) | NoRow

  function TargetOf(intent: Intent): Target {
    match intent
    case Completing(id) => TransactionRow(id)
    case Cancelling(id) => TransactionRow(id)
    case Updating(id, _) => TransactionRow(id)
    case Selling(_, _, _) => NoRow
    case Moving(_, _, _, _) => NoRow
    case Approving(id, _, _) => ReviewRow(id)
  }

  /** The call makes a new transaction that holds stock. */
  predicate Creates(intent: Intent) {
    intent.Selling? || intent.Moving? || intent.Approving?
  }

  /** That transaction, before it has its items. Approvals of purchases take no stock
      rows and are not among these calls. */
  function NewHeader(intent: Intent): Transaction {
    match intent
    case Selling(source, date, _) => OutgoingHeader(source, date)
    case Moving(source, destination, date, _) => TransferHeader(source, destination, date)
    case Approving(_, a, _) => OutgoingHeader(Leg(a.source), a.expectedDate)
    case _ => OutgoingHeader(0, None)
  }

  function NewInputs(intent: Intent): seq<ItemInput> {
    match intent
    case Selling(_, _, inputs) => inputs
    case Moving(_, _, _, inputs) => inputs
    case Approving(_, a, _) => Inputs(a)
    case _ => []
  }

  // ---- admission ----------------------------------------------------------

  /** The claim finds its row as it must be. */
  predicate Claimable(t: Tables, intent: Intent) {
    match TargetOf(intent)
    case TransactionRow(id) => IsPending(t, id)
    case ReviewRow(id) => AwaitsReview(t, id) && t.reviews[id].kind == Outgoing
    case NoRow => true
  }

  /** The checks that look at the request, the claimed row and the catalogue. */
  predicate Admitted(t: Tables, intent: Intent) {
    && Claimable(t, intent)
    && match intent
       case Completing(_) => true
       case Cancelling(_) => true
       case Updating(id, input) => UpdateAllowed(t, t.transactions[id], input)
       case Selling(_, _, inputs) => CreateAllowed(t, NewHeader(intent), inputs)
       case Moving(_, _, _, inputs) => CreateAllowed(t, NewHeader(intent), inputs)
       case Approving(_, a, _) =>
         && a.source.Some? && (forall item <- a.items :: item.productId.Some?)
         && CreateAllowed(t, NewHeader(intent), Inputs(a))
  }

  // ---- the rows -----------------------------------------------------------

  /** A stock row to take: what is added to its quantity, and what is asked of what is available there. */
  datatype Touch = Touch(row: StockKey, delta: int, asks: Option<int>)

  function TouchRow(touch: Touch): StockKey {
    touch.row
  }

  function Moves(ms: seq<Movement>): (r: seq<Touch>)
    ensures |r| == |ms|
    ensures forall i :: 0 <= i < |ms| ==> r[i] == Touch(KeyOf(ms[i]), Delta(ms[i]), None)
  {
    seq(|ms|, i requires 0 <= i < |ms| => Touch(KeyOf(ms[i]), Delta(ms[i]), None))
  }

  function Asks(rs: seq<Reservation>): (r: seq<Touch>)
    ensures |r| == |rs|
    ensures forall i :: 0 <= i < |rs| ==> r[i] == Touch(RowOf(rs[i]), 0, Some(rs[i].quantity))
  {
    seq(|rs|, i requires 0 <= i < |rs| => Touch(RowOf(rs[i]), 0, Some(rs[i].quantity)))
  }

  /** The reservations a new transaction asks for; ids play no part yet. */
  function NewAsks(intent: Intent): seq<Reservation> {
    NewReservations(NewHeader(intent).(items := NewItems(NewInputs(intent), 0)), 0)
  }

  /** The rows a call takes, in order. */
  function Touches(t: Tables, intent: Intent): seq<Touch>
    requires Claimable(t, intent)
  {
    match intent
    case Completing(id) => Moves(PostingOrder(t.transactions[id], id))
    case Cancelling(_) => []
    case Updating(id, input) =>
      if t.transactions[id].kind == Incoming then []
      else Asks(RequestsIn(SortedPlans(t.transactions[id], id, input)))
    case _ => Asks(NewAsks(intent))
  }

  /** What a reserving call counts as set aside on a row: everything but its own old
      reservations that it has released. */
  function Visible(t: Tables, intent: Intent, k: StockKey): int
    requires Claimable(t, intent)
  {
    if intent.Updating? then Reserved(ReleasedFor(t, intent.id, intent.input), k) else Reserved(t.reservations, k)
  }

  lemma SortedPlansAscend(tx: Transaction, id: nat, input: UpdateInput)
    requires DistinctProducts(UpdatedItems(tx.items, input.changes))
    ensures Ascending(RowOf, RequestsIn(SortedPlans(tx, id, input)))
  {
    var after := UpdatedTransaction(tx, input);
    PlansDistinct(after, id, tx.items, input);
    SortAscends(PlanRow, PlansOf(after, id, tx.items, input));
    var ps := SortedPlans(tx, id, input);
    forall i, j | 0 <= i < j < |ps| ensures Before(RowOf(RequestsIn(ps)[i]), RowOf(RequestsIn(ps)[j])) {
      assert Before(PlanRow(ps[i]), PlanRow(ps[j]));
    }
  }

  lemma NewAsksAscend(intent: Intent)
    requires Creates(intent) && InputsOk(NewInputs(intent), false)
    ensures Ascending(RowOf, NewAsks(intent))
  {
    var tx := NewHeader(intent).(items := NewItems(NewInputs(intent), 0));
    RequestsDistinct(tx, 0);
    SortAscends(RowOf, RequestsOf(tx, 0));
  }

  lemma AdmittedInputs(t: Tables, intent: Intent)
    requires Admitted(t, intent) && Creates(intent)
    ensures InputsOk(NewInputs(intent), false) && CreateAllowed(t, NewHeader(intent), NewInputs(intent))
  {
  }

  lemma MovesAscend(ms: seq<Movement>)
    requires Ascending(KeyOf, ms)
    ensures Ascending(TouchRow, Moves(ms))
  {
    forall i, j | 0 <= i < j < |ms| ensures Before(TouchRow(Moves(ms)[i]), TouchRow(Moves(ms)[j])) {
      assert Before(KeyOf(ms[i]), KeyOf(ms[j]));
    }
  }

  lemma AsksAscend(rs: seq<Reservation>)
    requires Ascending(RowOf, rs)
    ensures Ascending(TouchRow, Asks(rs))
  {
    forall i, j | 0 <= i < j < |rs| ensures Before(TouchRow(Asks(rs)[i]), TouchRow(Asks(rs)[j])) {
      assert Before(RowOf(rs[i]), RowOf(rs[j]));
    }
  }

  /** Every call takes its stock rows in strictly ascending (warehouse, product) order:
      completions over both warehouses, the others at one source by product. */
  lemma TouchesAscend(t: Tables, intent: Intent)
    requires TransactionsOk(t) && Admitted(t, intent)
    ensures Ascending(TouchRow, Touches(t, intent))
  {
    if intent.Completing? {
      assert TransactionOk(t, t.transactions[intent.id]);
      PostingOrderAscends(t.transactions[intent.id], intent.id);
      MovesAscend(PostingOrder(t.transactions[intent.id], intent.id));
    } else if intent.Updating? {
      SortedPlansAscend(t.transactions[intent.id], intent.id, intent.input);
      AsksAscend(RequestsIn(SortedPlans(t.transactions[intent.id], intent.id, intent.input)));
    } else if Creates(intent) {
      AdmittedInputs(t, intent);
      NewAsksAscend(intent);
      AsksAscend(NewAsks(intent));
    }
  }

  /** Each input of a new transaction is asked for on its row. */
  lemma InputAsked(intent: Intent, x: nat) returns (n: nat)
    requires Creates(intent) && InputsOk(NewInputs(intent), false) && x < |NewInputs(intent)|
    ensures n < |NewAsks(intent)|
    ensures RowOf(NewAsks(intent)[n]) == StockKey(Leg(NewHeader(intent).source), NewInputs(intent)[x].productId)
    ensures NewAsks(intent)[n].quantity == NewInputs(intent)[x].quantity
  {
    var tx := NewHeader(intent).(items := NewItems(NewInputs(intent), 0));
    NewReservationsFacts(tx, 0);
    assert Request(tx, 0, tx.items[x]) in NewAsks(intent);
    n :| 0 <= n < |NewAsks(intent)| && NewAsks(intent)[n] == Request(tx, 0, tx.items[x]);
  }

  // ---- what a commit writes -----------------------------------------------

  /** What a call writes once its rows are taken and checked. Nothing here looks at the
      status, the catalogue or the stock again. */
  function Written(t: Tables, intent: Intent, writes: Stock): Tables
    requires Claimable(t, intent)
  {
    match intent
    case Completing(id) =>
      WithStatus(t, id, Completed).(
        reservations := Settle(t.reservations, id, ProductsOf(t.transactions[id].items), Fulfilled),
        ledger := t.ledger + PostingOrder(t.transactions[id], id),
        stock := t.stock + writes)
    case Cancelling(id) => AfterCancel(t, id)
    case Updating(id, input) => AfterUpdate(t, id, input)
    case Selling(_, _, inputs) => AfterCreate(t, NewHeader(intent), inputs)
    case Moving(_, _, _, inputs) => AfterCreate(t, NewHeader(intent), inputs)
    case Approving(id, a, _) =>
      AfterCreate(t, NewHeader(intent), Inputs(a)).(
        reviews := t.reviews[id := t.reviews[id].(
          status := Approved, reviewedBy := Some(a.reviewedBy), transactionId := Some(|t.transactions|))])
  }

  // ---- what it leaves to the others ---------------------------------------

  lemma {:induction false} SettleKeepsShare(rs: seq<Reservation>, id: nat, products: set<int>, status: ReservationStatus, other: nat, k: StockKey)
    requires other != id && status != Active
    ensures ReservedBy(Settle(rs, id, products, status), other, k) == ReservedBy(rs, other, k)
  {
    if rs != [] {
      SettleKeepsShare(rs[1..], id, products, status, other, k);
      assert Settle(rs, id, products, status)[1..] == Settle(rs[1..], id, products, status);
    }
  }

  lemma {:induction false} ShareConcat(a: seq<Reservation>, b: seq<Reservation>, id: nat, k: StockKey)
    ensures ReservedBy(a + b, id, k) == ReservedBy(a, id, k) + ReservedBy(b, id, k)
  {
    if a == [] {
      assert a + b == b;
    } else {
      assert (a + b)[0] == a[0] && (a + b)[1..] == a[1..] + b;
      ShareConcat(a[1..], b, id, k);
    }
  }

  /** `after` sets no more aside on row `k` than `before`, and for transaction `own` exactly as much. */
  predicate SparesRow(before: seq<Reservation>, after: seq<Reservation>, own: Option<nat>, k: StockKey) {
    && Reserved(after, k) <= Reserved(before, k)
    && (own.Some? ==> ReservedBy(after, own.value, k) == ReservedBy(before, own.value, k))
  }

  lemma SettleSpares(rs: seq<Reservation>, id: nat, products: set<int>, status: ReservationStatus, own: Option<nat>, k: StockKey)
    requires forall r <- rs :: r.quantity > 0
    requires status != Active && own != Some(id)
    ensures SparesRow(rs, Settle(rs, id, products, status), own, k)
  {
    SettleTakesShare(rs, id, products, status, k);
    ReservedNonNegative(rs, id, k);
    if own.Some? {
      SettleKeepsShare(rs, id, products, status, own.value, k);
    }
  }

  lemma AppendSpares(rs: seq<Reservation>, more: seq<Reservation>, own: Option<nat>, k: StockKey)
    requires forall r <- more :: RowOf(r) != k
    ensures SparesRow(rs, rs + more, own, k)
  {
    ReservedConcat(rs, more, k);
    ReservedElsewhere(more, k);
    if own.Some? {
      ShareConcat(rs, more, own.value, k);
      ShareIsZero(more, own.value, k);
    }
  }

  predicate Touched(touches: seq<Touch>, k: StockKey) {
    exists n :: 0 <= n < |touches| && touches[n].row == k
  }

  lemma UntouchedAsks(rs: seq<Reservation>, k: StockKey)
    requires !Touched(Asks(rs), k)
    ensures forall r <- rs :: RowOf(r) != k
  {
    forall r <- rs ensures RowOf(r) != k {
      var n :| 0 <= n < |rs| && rs[n] == r;
      assert Asks(rs)[n].row == RowOf(r);
    }
  }

  /** The reservations actually made are on the rows asked for. */
  lemma MadeWhereAsked(intent: Intent, firstId: nat, id: nat, k: StockKey)
    requires Creates(intent) && InputsOk(NewInputs(intent), false) && !Touched(Asks(NewAsks(intent)), k)
    ensures forall r <- NewReservations(NewHeader(intent).(items := NewItems(NewInputs(intent), firstId)), id) :: RowOf(r) != k
  {
    var tx := NewHeader(intent).(items := NewItems(NewInputs(intent), firstId));
    UntouchedAsks(NewAsks(intent), k);
    NewReservationsFacts(tx, id);
    forall r <- NewReservations(tx, id) ensures RowOf(r) != k {
      var x :| 0 <= x < |tx.items| && r == Request(tx, id, tx.items[x]);
      var n := InputAsked(intent, x);
      assert NewAsks(intent)[n] in NewAsks(intent);
    }
  }

  lemma UpdateSpares(t: Tables, id: nat, input: UpdateInput, own: Option<nat>, k: StockKey)
    requires References(t) && IsPending(t, id) && own != Some(id)
    requires t.transactions[id].kind != Incoming ==> !Touched(Asks(RequestsIn(SortedPlans(t.transactions[id], id, input))), k)
    ensures SparesRow(t.reservations, AfterUpdate(t, id, input).reservations, own, k)
  {
    if t.transactions[id].kind != Incoming {
      var ps := SortedPlans(t.transactions[id], id, input);
      UntouchedAsks(RequestsIn(ps), k);
      SettleSpares(t.reservations, id, OldProducts(ps), Released, own, k);
      AppendSpares(ReleasedFor(t, id, input), RequestsIn(ps), own, k);
    }
  }

  /** A commit sets nothing more aside on a row its caller has not taken, and
      leaves other transactions' shares as they are. */
  lemma CommitSpares(t: Tables, intent: Intent, writes: Stock, own: Option<nat>, k: StockKey)
    requires References(t) && Admitted(t, intent) && !Touched(Touches(t, intent), k)
    requires own.Some? ==> TransactionRow(own.value) != TargetOf(intent)
    ensures SparesRow(t.reservations, Written(t, intent, writes).reservations, own, k)
  {
    if intent.Completing? {
      SettleSpares(t.reservations, intent.id, ProductsOf(t.transactions[intent.id].items), Fulfilled, own, k);
    } else if intent.Cancelling? {
      SettleSpares(t.reservations, intent.id, ProductsOf(t.transactions[intent.id].items), Released, own, k);
    } else if intent.Updating? {
      UpdateSpares(t, intent.id, intent.input, own, k);
    } else {
      AdmittedInputs(t, intent);
      var tx := NewHeader(intent).(items := NewItems(NewInputs(intent), t.nextItemId));
      MadeWhereAsked(intent, t.nextItemId, |t.transactions|, k);
      AppendSpares(t.reservations, NewReservations(tx, |t.transactions|), own, k);
    }
  }

  /** The row that a call claims, as far as it is a transaction's. */
  function OwnId(intent: Intent): Option<nat> {
    if TargetOf(intent).TransactionRow? then Some(TargetOf(intent).id) else None
  }

  /** What a reserving call counts on a row does not grow when the row is spared. */
  lemma VisibleStays(t: Tables, after: Tables, intent: Intent, k: StockKey)
    requires Claimable(t, intent) && Claimable(after, intent)
    requires intent.Updating? ==> after.transactions[intent.id] == t.transactions[intent.id]
    requires SparesRow(t.reservations, after.reservations, OwnId(intent), k)
    ensures Visible(after, intent, k) <= Visible(t, intent, k)
  {
    if intent.Updating? {
      var products := OldProducts(SortedPlans(t.transactions[intent.id], intent.id, intent.input));
      SettleTakesShare(t.reservations, intent.id, products, Released, k);
      SettleTakesShare(after.reservations, intent.id, products, Released, k);
    }
  }
}
