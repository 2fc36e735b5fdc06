/** The tables of the inventory database as values, the rules every committed
    state keeps, and what each service call makes of a committed state. */
module InventoryTables {
  import opened Wrappers
  import opened Text
  import opened StockOrder
  import opened StockLedger
  import opened ReservationRows

  datatype TransactionKind = Incoming | Outgoing | Transfer

  datatype TransactionStatus = Pending | Completed | Cancelled

  datatype Item = Item(id: nat, productId: int, quantity: int, price: Option<real>)

  /** The row's id is its position in the table. */
  datatype Transaction = Transaction(
    kind: TransactionKind, status: TransactionStatus,
    source: Option<int>, destination: Option<int>, supplier: Option<int>,
    expectedDate: Option<int>, items: seq<Item>)

  datatype Product = Product(name: string, active: bool)

  datatype ReviewStatus = PendingReview | Approved | Rejected

  /** The row's id is its position in the table. */
  datatype Review = Review(
    kind: TransactionKind, status: ReviewStatus, reason: Option<string>,
    reviewedBy: Option<int>, transactionId: Option<nat>)

  datatype Tables = Tables(
    transactions: seq<Transaction>, reservations: seq<Reservation>,
    ledger: seq<Movement>, stock: Stock,
    products: map<int, Product>, warehouses: map<int, bool>, suppliers: map<int, bool>,
    reviews: seq<Review>, nextItemId: nat)

  // ---- requests ----------------------------------------------------------

  datatype ItemInput = ItemInput(productId: int, quantity: int, price: Option<real>)

  datatype ItemChange = ItemChange(
    itemId: nat, productId: Option<int>, quantity: Option<int>, price: Option<real>)

  datatype UpdateInput = UpdateInput(
    source: Option<int>, destination: Option<int>, supplier: Option<int>,
    expectedDate: Option<int>, changes: seq<ItemChange>)

  // ---- reading a state ---------------------------------------------------

  function Leg(warehouse: Option<int>): int {
    if warehouse.Some? then warehouse.value else 0
  }

  function Or<T>(o: Option<T>, default: T): T {
    if o.Some? then o.value else default
  }

  function Available(t: Tables, k: StockKey): int {
    OnHand(t.stock, k) - Reserved(t.reservations, k)
  }

  function ProductsOf(items: seq<Item>): set<int> {
    set item | item in items :: item.productId
  }

  /** A transaction whose stock is set aside: PENDING, and not a purchase. */
  predicate Holds(tx: Transaction) {
    tx.status == Pending && tx.kind != Incoming
  }

  predicate ActiveProduct(t: Tables, p: int) {
    p in t.products && t.products[p].active
  }

  predicate ActiveWarehouse(t: Tables, w: int) {
    w in t.warehouses && t.warehouses[w]
  }

  predicate ActiveSupplier(t: Tables, s: int) {
    s in t.suppliers && t.suppliers[s]
  }

  // ---- what a completed transaction writes in the ledger -----------------

  function Legs(tx: Transaction, id: nat, item: Item): seq<Movement> {
    match tx.kind
    case Incoming =>
      [Movement(item.productId, Leg(tx.destination), IncomingMove, item.quantity, Some(id))]
    case Outgoing =>
      [Movement(item.productId, Leg(tx.source), OutgoingMove, item.quantity, Some(id))]
    case Transfer =>
      [Movement(item.productId, Leg(tx.source), TransferOut, item.quantity, Some(id)),
       Movement(item.productId, Leg(tx.destination), TransferIn, item.quantity, Some(id))]
  }

  function PostingsOf(tx: Transaction, id: nat, items: seq<Item>): (r: seq<Movement>)
    ensures |r| == if tx.kind == Transfer then 2 * |items| else |items|
  {
    if items == [] then []
    else PostingsOf(tx, id, items[..|items| - 1]) + Legs(tx, id, items[|items| - 1])
  }

  /** One movement per item, or two for a transfer. */
  function Postings(tx: Transaction, id: nat): seq<Movement> {
    PostingsOf(tx, id, tx.items)
  }

  /** The postings in the order the stock rows are taken. */
  function PostingOrder(tx: Transaction, id: nat): seq<Movement> {
    SortByKey(KeyOf, Postings(tx, id))
  }

  /** The ledger rows that name transaction `id`. */
  function PostedBy(ledger: seq<Movement>, id: nat): seq<Movement> {
    if ledger == [] then []
    else
      PostedBy(ledger[..|ledger| - 1], id) +
      (if ledger[|ledger| - 1].transactionId == Some(id) then [ledger[|ledger| - 1]] else [])
  }

  // ---- the rules of a committed state ------------------------------------

  predicate ItemOk(item: Item) {
    item.quantity > 0 && (item.price.Some? ==> item.price.value >= 0.0)
  }

  predicate ItemsOk(items: seq<Item>) {
    && items != []
    && (forall item <- items :: ItemOk(item))
    && (forall i, j :: 0 <= i < j < |items| ==> items[i].productId != items[j].productId)
    && (forall i, j :: 0 <= i < j < |items| ==> items[i].id != items[j].id)
  }

  predicate Shaped(tx: Transaction) {
    match tx.kind
    case Incoming =>
      && tx.source.None? && tx.destination.Some? && tx.supplier.Some?
      && forall item <- tx.items :: item.price.Some?
    case Outgoing => tx.source.Some? && tx.destination.None? && tx.supplier.None?
    case Transfer =>
      && tx.source.Some? && tx.destination.Some? && tx.supplier.None?
      && tx.source.value != tx.destination.value
  }

  /** Rows a transaction refers to exist (they may be inactive). */
  predicate Known(t: Tables, tx: Transaction) {
    && (forall item <- tx.items :: item.productId in t.products && item.id < t.nextItemId)
    && (tx.source.Some? ==> tx.source.value in t.warehouses)
    && (tx.destination.Some? ==> tx.destination.value in t.warehouses)
    && (tx.supplier.Some? ==> tx.supplier.value in t.suppliers)
  }

  predicate TransactionOk(t: Tables, tx: Transaction) {
    ItemsOk(tx.items) && Shaped(tx) && Known(t, tx)
  }

  predicate HasActive(rs: seq<Reservation>, id: nat, p: int) {
    exists i :: 0 <= i < |rs| && ActiveFor(rs[i], id) && rs[i].productId == p
  }

  predicate Matches(r: Reservation, tx: Transaction) {
    && Holds(tx)
    && r.warehouseId == Leg(tx.source)
    && exists i :: 0 <= i < |tx.items| && tx.items[i].productId == r.productId && tx.items[i].quantity == r.quantity
  }

  /** Exactly one ACTIVE reservation per item of a transaction that holds stock,
      with that item's product and quantity at the source; none otherwise. */
  predicate Backed(tx: Transaction, id: nat, rs: seq<Reservation>) {
    && (forall i :: 0 <= i < |rs| && ActiveFor(rs[i], id) ==> Matches(rs[i], tx))
    && (forall i, j :: 0 <= i < j < |rs| && ActiveFor(rs[i], id) && ActiveFor(rs[j], id)
                       ==> rs[i].productId != rs[j].productId)
    && (Holds(tx) ==> forall i :: 0 <= i < |tx.items| ==> HasActive(rs, id, tx.items[i].productId))
  }

  /** A COMPLETED transaction is in the ledger exactly once, any other never. */
  predicate Posted(tx: Transaction, id: nat, ledger: seq<Movement>) {
    multiset(PostedBy(ledger, id)) ==
    if tx.status == Completed then multiset(Postings(tx, id)) else multiset{}
  }

  predicate TransactionsOk(t: Tables) {
    forall i :: 0 <= i < |t.transactions| ==> TransactionOk(t, t.transactions[i])
  }

  predicate AllBacked(t: Tables) {
    forall i :: 0 <= i < |t.transactions| ==> Backed(t.transactions[i], i, t.reservations)
  }

  predicate AllPosted(t: Tables) {
    forall i :: 0 <= i < |t.transactions| ==> Posted(t.transactions[i], i, t.ledger)
  }

  predicate References(t: Tables) {
    && (forall r <- t.reservations :: r.transactionId < |t.transactions| && r.quantity > 0)
    && (forall m <- t.ledger :: m.transactionId.Some? ==> m.transactionId.value < |t.transactions|)
  }

  /** The stock rows are exactly what replaying the ledger gives. */
  predicate Booked(t: Tables) {
    Replay(map[], t.ledger) == Some(t.stock)
  }

  predicate ReviewOk(t: Tables, r: Review) {
    match r.status
    case PendingReview => r.transactionId.None? && r.reason.None?
    case Rejected => r.transactionId.None? && r.reason.Some? && !Blank(r.reason.value)
    case Approved =>
      && r.transactionId.Some? && r.transactionId.value < |t.transactions|
      && r.kind != Transfer
      && t.transactions[r.transactionId.value].kind == r.kind
  }

  /** Every review is in one of its three shapes, and no transaction belongs to two. */
  predicate ReviewsOk(t: Tables) {
    && (forall i :: 0 <= i < |t.reviews| ==> ReviewOk(t, t.reviews[i]))
    && (forall i, j :: 0 <= i < j < |t.reviews| && t.reviews[i].transactionId.Some?
                       ==> t.reviews[i].transactionId != t.reviews[j].transactionId)
  }

  predicate Sound(t: Tables) {
    && TransactionsOk(t) && AllBacked(t) && AllPosted(t)
    && References(t) && Booked(t) && ReviewsOk(t)
  }

  /** No stock row promises more than it holds: available stock is never negative. */
  ghost predicate Covered(t: Tables) {
    forall k :: Reserved(t.reservations, k) <= OnHand(t.stock, k)
  }

  // ---- create ------------------------------------------------------------

  predicate InputsOk(inputs: seq<ItemInput>, requirePrice: bool) {
    && inputs != []
    && (forall x <- inputs ::
          && x.productId > 0 && x.quantity > 0
          && (requirePrice ==> x.price.Some?)
          && (x.price.Some? ==> x.price.value >= 0.0))
    && (forall i, j :: 0 <= i < j < |inputs| ==> inputs[i].productId != inputs[j].productId)
  }

  function NewItems(inputs: seq<ItemInput>, firstId: nat): (r: seq<Item>)
    ensures |r| == |inputs|
  {
    seq(|inputs|, i requires 0 <= i < |inputs| =>
      Item(firstId + i, inputs[i].productId, inputs[i].quantity, inputs[i].price))
  }

  function Request(tx: Transaction, id: nat, item: Item): Reservation {
    Reservation(id, item.productId, Leg(tx.source), item.quantity, Active)
  }

  function RequestsOf(tx: Transaction, id: nat): (r: seq<Reservation>)
    ensures |r| == |tx.items|
  {
    seq(|tx.items|, i requires 0 <= i < |tx.items| => Request(tx, id, tx.items[i]))
  }

  /** The rows a new transaction adds to the reservation table, in insertion order. */
  function NewReservations(tx: Transaction, id: nat): seq<Reservation> {
    if tx.kind == Incoming then [] else SortByKey(RowOf, RequestsOf(tx, id))
  }

  /** Every stock row has room for what is asked of it. */
  predicate Fits(t: Tables, requests: seq<Reservation>) {
    forall r <- requests :: r.quantity <= Available(t, RowOf(r))
  }

  function AfterCreate(t: Tables, header: Transaction, inputs: seq<ItemInput>): Tables {
    var tx := header.(status := Pending, items := NewItems(inputs, t.nextItemId));
    t.(transactions := t.transactions + [tx],
       reservations := t.reservations + NewReservations(tx, |t.transactions|),
       nextItemId := t.nextItemId + |inputs|)
  }

  /** What the create calls demand of the header, the items and the catalogue. */
  predicate CreateAllowed(t: Tables, header: Transaction, inputs: seq<ItemInput>) {
    && InputsOk(inputs, header.kind == Incoming)
    && (match header.kind
        case Incoming =>
          && header.source.None? && header.destination.Some? && header.supplier.Some?
          && ActiveSupplier(t, header.supplier.value) && ActiveWarehouse(t, header.destination.value)
        case Outgoing =>
          && header.source.Some? && header.destination.None? && header.supplier.None?
          && ActiveWarehouse(t, header.source.value)
        case Transfer =>
          && header.source.Some? && header.destination.Some? && header.supplier.None?
          && header.source.value != header.destination.value
          && ActiveWarehouse(t, header.source.value) && ActiveWarehouse(t, header.destination.value))
    && (forall x <- inputs :: ActiveProduct(t, x.productId))
  }

  predicate CreateFits(t: Tables, header: Transaction, inputs: seq<ItemInput>) {
    header.kind != Incoming ==>
      forall x <- inputs :: x.quantity <= Available(t, StockKey(Leg(header.source), x.productId))
  }

  // ---- complete and cancel ----------------------------------------------

  predicate IsPending(t: Tables, id: nat) {
    id < |t.transactions| && t.transactions[id].status == Pending
  }

  function WithStatus(t: Tables, id: nat, status: TransactionStatus): Tables
    requires id < |t.transactions|
  {
    t.(transactions := t.transactions[id := t.transactions[id].(status := status)])
  }

  function AfterComplete(t: Tables, id: nat): Tables
    requires id < |t.transactions|
    requires Replay(t.stock, PostingOrder(t.transactions[id], id)).Some?
  {
    var tx := t.transactions[id];
    WithStatus(t, id, Completed).(
      reservations := Settle(t.reservations, id, ProductsOf(tx.items), Fulfilled),
      ledger := t.ledger + PostingOrder(tx, id),
      stock := Replay(t.stock, PostingOrder(tx, id)).value)
  }

  function AfterCancel(t: Tables, id: nat): Tables
    requires id < |t.transactions|
  {
    WithStatus(t, id, Cancelled).(
      reservations := Settle(t.reservations, id, ProductsOf(t.transactions[id].items), Released))
  }

  /** Completing needs every outgoing leg to be physically there. */
  predicate CompleteFits(t: Tables, id: nat)
    requires id < |t.transactions|
  {
    t.transactions[id].kind != Incoming ==>
      forall item <- t.transactions[id].items ::
        item.quantity <= OnHand(t.stock, StockKey(Leg(t.transactions[id].source), item.productId))
  }

  // ---- update ------------------------------------------------------------

  /** `itemChangesById.get(itemId)`: a later change of the same item would win. */
  function ChangeFor(changes: seq<ItemChange>, itemId: nat): Option<ItemChange> {
    if changes == [] then None
    else if changes[|changes| - 1].itemId == itemId then Some(changes[|changes| - 1])
    else ChangeFor(changes[..|changes| - 1], itemId)
  }

  function Changed(item: Item, c: ItemChange): Item {
    Item(item.id, Or(c.productId, item.productId), Or(c.quantity, item.quantity),
         if c.price.Some? then c.price else item.price)
  }

  function UpdatedItem(item: Item, changes: seq<ItemChange>): Item {
    match ChangeFor(changes, item.id)
    case None => item
    case Some(c) => Changed(item, c)
  }

  function UpdatedItems(items: seq<Item>, changes: seq<ItemChange>): (r: seq<Item>)
    ensures |r| == |items|
    ensures forall i :: 0 <= i < |items| ==> r[i] == UpdatedItem(items[i], changes)
  {
    seq(|items|, i requires 0 <= i < |items| => UpdatedItem(items[i], changes))
  }

  function UpdatedTransaction(tx: Transaction, input: UpdateInput): Transaction {
    tx.(source := if input.source.Some? then input.source else tx.source,
        destination := if input.destination.Some? then input.destination else tx.destination,
        supplier := if input.supplier.Some? then input.supplier else tx.supplier,
        expectedDate := if input.expectedDate.Some? then input.expectedDate else tx.expectedDate,
        items := UpdatedItems(tx.items, input.changes))
  }

  /** An item's reservation is replaced when the item changes or the source is given. */
  predicate Resyncs(item: Item, input: UpdateInput) {
    ChangeFor(input.changes, item.id).Some? || input.source.Some?
  }

  datatype Plan = Plan(item: Item, request: Reservation)

  function PlanRow(p: Plan): StockKey {
    RowOf(p.request)
  }

  function PlansOf(after: Transaction, id: nat, items: seq<Item>, input: UpdateInput): seq<Plan> {
    if items == [] then []
    else
      var item := items[|items| - 1];
      PlansOf(after, id, items[..|items| - 1], input) +
      (if Resyncs(item, input)
       then [Plan(item, Request(after, id, UpdatedItem(item, input.changes)))] else [])
  }

  /** The reservations to replace, in the order they are taken again. */
  function SortedPlans(tx: Transaction, id: nat, input: UpdateInput): seq<Plan> {
    SortByKey(PlanRow, PlansOf(UpdatedTransaction(tx, input), id, tx.items, input))
  }

  function RequestsIn(plans: seq<Plan>): (r: seq<Reservation>)
    ensures |r| == |plans|
    ensures forall i :: 0 <= i < |plans| ==> r[i] == plans[i].request
  {
    seq(|plans|, i requires 0 <= i < |plans| => plans[i].request)
  }

  function OldProducts(plans: seq<Plan>): set<int> {
    set p | p in plans :: p.item.productId
  }

  predicate ChangeOk(c: ItemChange) {
    && (c.quantity.Some? ==> c.quantity.value > 0)
    && (c.productId.Some? ==> c.productId.value > 0)
    && (c.price.Some? ==> c.price.value >= 0.0)
  }

  predicate ChangesOk(input: UpdateInput) {
    forall c <- input.changes :: ChangeOk(c)
  }

  /** Which fields may change, by kind; and the two legs of a transfer stay apart. */
  predicate LegsAllowed(tx: Transaction, input: UpdateInput) {
    && (input.source.Some? ==> tx.kind != Incoming)
    && (input.destination.Some? ==> tx.kind != Outgoing)
    && ((input.source.Some? || input.destination.Some?) && tx.kind == Transfer ==>
          (if input.source.Some? then input.source else tx.source)
          != (if input.destination.Some? then input.destination else tx.destination))
    && (input.supplier.Some? ==> tx.kind == Incoming)
  }

  predicate NamesItems(tx: Transaction, changes: seq<ItemChange>) {
    && (forall i, j :: 0 <= i < j < |changes| ==> changes[i].itemId != changes[j].itemId)
    && (forall c <- changes :: exists i :: 0 <= i < |tx.items| && tx.items[i].id == c.itemId)
  }

  predicate DistinctProducts(items: seq<Item>) {
    forall i, j :: 0 <= i < j < |items| ==> items[i].productId != items[j].productId
  }

  /** Everything update() demands besides stock. */
  predicate UpdateAllowed(t: Tables, tx: Transaction, input: UpdateInput) {
    && ChangesOk(input)
    && LegsAllowed(tx, input)
    && (input.source.Some? ==> ActiveWarehouse(t, input.source.value))
    && (input.destination.Some? ==> ActiveWarehouse(t, input.destination.value))
    && (input.supplier.Some? ==> ActiveSupplier(t, input.supplier.value))
    && NamesItems(tx, input.changes)
    && DistinctProducts(UpdatedItems(tx.items, input.changes))
    && (forall c <- input.changes :: c.productId.Some? ==> ActiveProduct(t, c.productId.value))
  }

  /** The reservation table once the whole old set is released. */
  function ReleasedFor(t: Tables, id: nat, input: UpdateInput): seq<Reservation>
    requires id < |t.transactions|
  {
    Settle(t.reservations, id, OldProducts(SortedPlans(t.transactions[id], id, input)), Released)
  }

  predicate UpdateFits(t: Tables, id: nat, input: UpdateInput)
    requires id < |t.transactions|
  {
    t.transactions[id].kind != Incoming ==>
      Fits(t.(reservations := ReleasedFor(t, id, input)),
           RequestsIn(SortedPlans(t.transactions[id], id, input)))
  }

  function AfterUpdate(t: Tables, id: nat, input: UpdateInput): Tables
    requires id < |t.transactions|
  {
    var tx := t.transactions[id];
    t.(transactions := t.transactions[id := UpdatedTransaction(tx, input)],
       reservations :=
         if tx.kind == Incoming then t.reservations
         else ReleasedFor(t, id, input) + RequestsIn(SortedPlans(tx, id, input)))
  }

  // ---- adjustments and the catalogue -------------------------------------

  function AdjustmentOf(p: int, w: int, quantity: int): Movement {
    Movement(p, w, Adjustment, quantity, None)
  }

  function AfterAdjust(t: Tables, p: int, w: int, quantity: int): Tables {
    var k := StockKey(w, p);
    t.(ledger := t.ledger + [AdjustmentOf(p, w, quantity)],
       stock := t.stock[k := OnHand(t.stock, k) + quantity])
  }

  /** A foreign key keeps the row: some row of another table names the product. */
  predicate ProductReferenced(t: Tables, p: int) {
    || (exists tx <- t.transactions :: p in ProductsOf(tx.items))
    || (exists r <- t.reservations :: r.productId == p)
    || (exists m <- t.ledger :: m.productId == p)
    || (exists k <- t.stock :: k.productId == p)
  }

  /** products.remove(): deletes the row, or deactivates it when a foreign key refuses. */
  function WithoutProduct(t: Tables, p: int): Tables
    requires p in t.products
  {
    if ProductReferenced(t, p) then t.(products := t.products[p := t.products[p].(active := false)])
    else t.(products := t.products - {p})
  }
}
