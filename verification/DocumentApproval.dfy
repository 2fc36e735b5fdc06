/** DocumentReviewService.approve() and reject(): a claimed review, the products
    its lines define, and the transaction it turns into. */
module DocumentApproval {
  import opened Wrappers
  import opened Text
  import opened StockOrder
  import opened StockLedger
  import opened ReservationRows
  import opened InventoryTables
  import opened DatabaseClient
  import opened CreateTransaction
  import opened StatePreservation

  /** A confirmed line: an existing product, or the name of a new one. */
  datatype ApprovalItem = ApprovalItem(
    productId: Option<int>, newName: Option<string>, quantity: int, price: Option<real>)

  /** The reviewer's confirmed values. The product defined on line `i` gets the
      id `firstNewId + i` from the database's sequence, which may skip values. */
  datatype Approval = Approval(
    reviewedBy: int, supplier: Option<int>, source: Option<int>, destination: Option<int>,
    expectedDate: Option<int>, items: seq<ApprovalItem>, firstNewId: int)

  /** `fold` is String.toLowerCase(); `same` is the database's insensitive equality. */
  datatype NameRules = NameRules(fold: string -> string, same: (string, string) -> bool)

  ghost predicate Symmetric(rules: NameRules) {
    forall a, b :: rules.same(a, b) == rules.same(b, a)
  }

  // ---- specification -----------------------------------------------------

  function NewName(item: ApprovalItem): string {
    Trim(Or(item.newName, ""))
  }

  predicate NameTaken(products: map<int, Product>, name: string, rules: NameRules) {
    exists p <- products :: products[p].active && rules.same(products[p].name, name)
  }

  /** Line `i` names an existing product by id, or defines one the catalogue and
      the earlier lines do not have. */
  predicate LineOk(products: map<int, Product>, kind: TransactionKind, a: Approval, i: nat, rules: NameRules)
    requires i < |a.items|
  {
    a.items[i].productId.None? ==>
      && kind == Incoming
      && a.items[i].newName.Some? && !Blank(a.items[i].newName.value)
      && !NameTaken(products, NewName(a.items[i]), rules)
      && a.firstNewId + i !in products
      && forall j :: 0 <= j < i && a.items[j].productId.None? ==>
           && rules.fold(NewName(a.items[j])) != rules.fold(NewName(a.items[i]))
           && !rules.same(NewName(a.items[j]), NewName(a.items[i]))
  }

  predicate LinesOk(products: map<int, Product>, kind: TransactionKind, a: Approval, rules: NameRules) {
    forall i :: 0 <= i < |a.items| ==> LineOk(products, kind, a, i, rules)
  }

  /** `p` is the id of a product defined on some line. */
  predicate Defines(a: Approval, p: int) {
    a.firstNewId <= p < a.firstNewId + |a.items| && a.items[p - a.firstNewId].productId.None?
  }

  function NewProducts(a: Approval, n: nat): map<int, Product>
    requires n <= |a.items|
  {
    map p | a.firstNewId <= p < a.firstNewId + n && Defines(a, p)
      :: Product(NewName(a.items[p - a.firstNewId]), true)
  }

  function LineInput(a: Approval, i: nat): ItemInput
    requires i < |a.items|
  {
    ItemInput(Or(a.items[i].productId, a.firstNewId + i), a.items[i].quantity, a.items[i].price)
  }

  function Inputs(a: Approval): (r: seq<ItemInput>)
    ensures |r| == |a.items|
  {
    seq(|a.items|, i requires 0 <= i < |a.items| => LineInput(a, i))
  }

  /** The transaction an approval asks for; None when a required id is missing
      or the review is for a transfer. */
  function HeaderFor(kind: TransactionKind, a: Approval): Option<Transaction> {
    match kind
    case Incoming =>
      if a.supplier.Some? && a.destination.Some?
      then Some(IncomingHeader(a.supplier.value, a.destination.value, a.expectedDate)) else None
    case Outgoing =>
      if a.source.Some? then Some(OutgoingHeader(a.source.value, a.expectedDate)) else None
    case Transfer => None
  }

  predicate AwaitsReview(t: Tables, id: nat) {
    id < |t.reviews| && t.reviews[id].status == PendingReview
  }

  function WithNewProducts(t: Tables, a: Approval): Tables {
    t.(products := t.products + NewProducts(a, |a.items|))
  }

  /** Everything approve() demands. */
  predicate ApproveAllowed(t: Tables, id: nat, a: Approval, rules: NameRules) {
    && AwaitsReview(t, id)
    && LinesOk(t.products, t.reviews[id].kind, a, rules)
    && HeaderFor(t.reviews[id].kind, a).Some?
    && CreateAllowed(WithNewProducts(t, a), HeaderFor(t.reviews[id].kind, a).value, Inputs(a))
    && CreateFits(t, HeaderFor(t.reviews[id].kind, a).value, Inputs(a))
  }

  /** Line `i`'s exception: BadRequest for a line that defines nothing usable,
      Conflict for a name or id that is taken. */
  function LineError(products: map<int, Product>, kind: TransactionKind, a: Approval, i: nat, rules: NameRules): Option<Error>
    requires i < |a.items|
  {
    if LineOk(products, kind, a, i, rules) then None
    else if kind != Incoming || Blank(Or(a.items[i].newName, "")) then Some(BadRequest)
    else Some(Conflict)
  }

  /** The exception of the first of the first `n` lines that has one. */
  function FirstLineError(products: map<int, Product>, kind: TransactionKind, a: Approval, n: nat, rules: NameRules): Option<Error>
    requires n <= |a.items|
  {
    if n == 0 then None
    else FirstOf(FirstLineError(products, kind, a, n - 1, rules), LineError(products, kind, a, n - 1, rules))
  }

  lemma {:induction false} FirstLineErrorStands(products: map<int, Product>, kind: TransactionKind, a: Approval, n: nat, m: nat, rules: NameRules)
    requires n <= m <= |a.items| && FirstLineError(products, kind, a, n, rules).Some?
    ensures FirstLineError(products, kind, a, m, rules) == FirstLineError(products, kind, a, n, rules)
  {
    if n < m {
      FirstLineErrorStands(products, kind, a, n, m - 1, rules);
    }
  }

  function HeaderError(t: Tables, kind: TransactionKind, a: Approval, items: seq<ItemInput>): Option<Error> {
    if HeaderFor(kind, a).None? then Some(BadRequest) else CreateError(t, HeaderFor(kind, a).value, items)
  }

  /** The lines first, then the required ids, then the transaction itself. */
  function ClaimedError(t: Tables, kind: TransactionKind, a: Approval, rules: NameRules): Option<Error> {
    FirstOf(FirstLineError(t.products, kind, a, |a.items|, rules), HeaderError(WithNewProducts(t, a), kind, a, Inputs(a)))
  }

  function ApproveError(t: Tables, id: nat, a: Approval, rules: NameRules): Option<Error> {
    if id >= |t.reviews| then Some(NotFound)
    else if t.reviews[id].status != PendingReview then Some(Conflict)
    else ClaimedError(t, t.reviews[id].kind, a, rules)
  }

  function AfterApprove(t: Tables, id: nat, a: Approval): Tables
    requires id < |t.reviews| && HeaderFor(t.reviews[id].kind, a).Some?
  {
    AfterCreate(WithNewProducts(t, a), HeaderFor(t.reviews[id].kind, a).value, Inputs(a)).(
      reviews := t.reviews[id := t.reviews[id].(
        status := Approved, reviewedBy := Some(a.reviewedBy), transactionId := Some(|t.transactions|))])
  }

  function AfterReject(t: Tables, id: nat, reason: string, reviewedBy: int): Tables
    requires id < |t.reviews|
  {
    t.(reviews := t.reviews[id := t.reviews[id].(
      status := Rejected, reason := Some(reason), reviewedBy := Some(reviewedBy))])
  }

  // ---- approve -----------------------------------------------------------

  /** Approves a review, all or nothing. */
  method Approve(db: Database, id: nat, a: Approval, rules: NameRules) returns (r: Result<nat, Error>)
    modifies db
    ensures r.Ok? <==> ApproveAllowed(old(db.Snapshot()), id, a, rules)
    ensures r.Ok? ==> r.value == |old(db.transactions)|
    ensures r.Ok? ==> db.Snapshot() == old(AfterApprove(db.Snapshot(), id, a))
    ensures r.Err? ==> db.Snapshot() == old(db.Snapshot())
    ensures r.Err? ==> ApproveError(old(db.Snapshot()), id, a, rules) == Some(r.error)
  {
    var saved := db.Snapshot();
    r := ApproveWithClient(db, id, a, rules);
    if r.Err? {
      db.Restore(saved);
    }
  }

  method ApproveWithClient(tx: Database, id: nat, a: Approval, rules: NameRules) returns (r: Result<nat, Error>)
    modifies tx
    ensures r.Ok? <==> ApproveAllowed(old(tx.Snapshot()), id, a, rules)
    ensures r.Ok? ==> r.value == |old(tx.transactions)|
    ensures r.Ok? ==> tx.Snapshot() == old(AfterApprove(tx.Snapshot(), id, a))
    ensures r.Err? ==> ApproveError(old(tx.Snapshot()), id, a, rules) == Some(r.error)
  {
    if id >= |tx.reviews| { return Err(NotFound); }
    if tx.reviews[id].status != PendingReview { return Err(Conflict); }
    tx.reviews := tx.reviews[id := tx.reviews[id].(status := Approved, reviewedBy := Some(a.reviewedBy))];
    ghost var claimed := tx.Snapshot();
    r := ApproveClaimed(tx, id, a, rules);
    ClaimAlone(old(tx.Snapshot()), claimed, id, a, rules);
  }

  /** What is demanded once the review is claimed. */
  predicate ClaimedAllowed(t: Tables, kind: TransactionKind, a: Approval, rules: NameRules) {
    && LinesOk(t.products, kind, a, rules)
    && HeaderFor(kind, a).Some?
    && CreateAllowed(WithNewProducts(t, a), HeaderFor(kind, a).value, Inputs(a))
    && CreateFits(WithNewProducts(t, a), HeaderFor(kind, a).value, Inputs(a))
  }

  function AfterClaimed(t: Tables, id: nat, a: Approval): Tables
    requires id < |t.reviews| && HeaderFor(t.reviews[id].kind, a).Some?
  {
    AfterCreate(WithNewProducts(t, a), HeaderFor(t.reviews[id].kind, a).value, Inputs(a)).(
      reviews := t.reviews[id := t.reviews[id].(transactionId := Some(|t.transactions|))])
  }

  /** The claim itself changes nothing the rest looks at. */
  lemma ClaimAlone(t: Tables, claimed: Tables, id: nat, a: Approval, rules: NameRules)
    requires AwaitsReview(t, id)
    requires claimed == t.(reviews := t.reviews[id := t.reviews[id].(status := Approved, reviewedBy := Some(a.reviewedBy))])
    ensures ClaimedAllowed(claimed, t.reviews[id].kind, a, rules) <==> ApproveAllowed(t, id, a, rules)
    ensures HeaderFor(t.reviews[id].kind, a).Some? ==> AfterClaimed(claimed, id, a) == AfterApprove(t, id, a)
    ensures ClaimedError(claimed, t.reviews[id].kind, a, rules) == ClaimedError(t, t.reviews[id].kind, a, rules)
  {
    if HeaderFor(t.reviews[id].kind, a).Some? {
      var header := HeaderFor(t.reviews[id].kind, a).value;
      SameForCreate(WithNewProducts(claimed, a), WithNewProducts(t, a), header, Inputs(a));
      FitsAlike(WithNewProducts(t, a), t, header, Inputs(a));
    }
  }

  /** create() does not look at reviews. */
  lemma SameForCreate(t: Tables, u: Tables, header: Transaction, inputs: seq<ItemInput>)
    requires t == u.(reviews := t.reviews)
    ensures CreateAllowed(t, header, inputs) <==> CreateAllowed(u, header, inputs)
    ensures CreateFits(t, header, inputs) <==> CreateFits(u, header, inputs)
    ensures CreateError(t, header, inputs) == CreateError(u, header, inputs)
  {
    FitsAlike(t, u, header, inputs);
  }

  lemma FitsAlike(t: Tables, u: Tables, header: Transaction, inputs: seq<ItemInput>)
    requires t.stock == u.stock && t.reservations == u.reservations
    ensures CreateFits(t, header, inputs) <==> CreateFits(u, header, inputs)
  {
    assert forall k :: Available(t, k) == Available(u, k);
  }

  method ApproveClaimed(tx: Database, id: nat, a: Approval, rules: NameRules) returns (r: Result<nat, Error>)
    requires id < |tx.reviews|
    modifies tx
    ensures r.Ok? <==> ClaimedAllowed(old(tx.Snapshot()), old(tx.reviews)[id].kind, a, rules)
    ensures r.Ok? ==> r.value == |old(tx.transactions)|
    ensures r.Ok? ==> tx.Snapshot() == old(AfterClaimed(tx.Snapshot(), id, a))
    ensures r.Err? ==> ClaimedError(old(tx.Snapshot()), old(tx.reviews)[id].kind, a, rules) == Some(r.error)
  {
    ghost var t0 := tx.Snapshot();
    var items := ResolveApprovalItems(tx, a, tx.reviews[id].kind, rules);
    if items.Err? { return Err(items.error); }
    assert tx.Snapshot() == WithNewProducts(t0, a);
    r := CreateFor(tx, tx.reviews[id].kind, a, items.value);
    if r.Err? { return; }
    tx.reviews := tx.reviews[id := tx.reviews[id].(transactionId := Some(r.value))];
  }

  /** The switch over the review's type. */
  method CreateFor(tx: Database, kind: TransactionKind, a: Approval, items: seq<ItemInput>) returns (r: Result<nat, Error>)
    modifies tx
    ensures r.Ok? <==>
      && HeaderFor(kind, a).Some?
      && CreateAllowed(old(tx.Snapshot()), HeaderFor(kind, a).value, items)
      && CreateFits(old(tx.Snapshot()), HeaderFor(kind, a).value, items)
    ensures r.Ok? ==>
      && r.value == |old(tx.transactions)|
      && tx.Snapshot() == old(AfterCreate(tx.Snapshot(), HeaderFor(kind, a).value, items))
    ensures r.Err? ==> HeaderError(old(tx.Snapshot()), kind, a, items) == Some(r.error)
  {
    match kind {
      case Incoming =>
        if a.supplier.None? || a.destination.None? { return Err(BadRequest); }
        r := CreateIncomingWithClient(tx, a.supplier.value, a.destination.value, a.expectedDate, items);
      case Outgoing =>
        if a.source.None? { return Err(BadRequest); }
        r := CreateOutgoingWithClient(tx, a.source.value, a.expectedDate, items);
      case Transfer =>
        return Err(BadRequest);
    }
  }

  /** resolveApprovalItems(): existing ids pass through, new products are created. */
  method ResolveApprovalItems(tx: Database, a: Approval, kind: TransactionKind, rules: NameRules)
    returns (r: Result<seq<ItemInput>, Error>)
    modifies tx`products
    ensures r.Ok? <==> LinesOk(old(tx.products), kind, a, rules)
    ensures r.Ok? ==> r.value == Inputs(a)
    ensures r.Ok? ==> tx.products == old(tx.products) + NewProducts(a, |a.items|)
    ensures FirstLineError(old(tx.products), kind, a, |a.items|, rules) == if r.Ok? then None else Some(r.error)
  {
    ghost var products0 := tx.products;
    var namesClaimed: set<string> := {};
    var resolved: seq<ItemInput> := [];
    for n := 0 to |a.items|
      invariant forall i :: 0 <= i < n ==> LineOk(products0, kind, a, i, rules)
      invariant FirstLineError(products0, kind, a, n, rules) == None
      invariant tx.products == products0 + NewProducts(a, n)
      invariant namesClaimed == Claimed(a, n, rules)
      invariant |resolved| == n && forall i :: 0 <= i < n ==> resolved[i] == LineInput(a, i)
    {
      r := ResolveLine(tx, a, n, kind, rules, namesClaimed, products0);
      if r.Err? {
        FirstLineErrorStands(products0, kind, a, n + 1, |a.items|, rules);
        return;
      }
      resolved := resolved + r.value;
      ClaimedGrows(a, n, rules);
      if a.items[n].productId.None? {
        namesClaimed := namesClaimed + {rules.fold(NewName(a.items[n]))};
      }
    }
    return Ok(resolved);
  }

  lemma ClaimedGrows(a: Approval, n: nat, rules: NameRules)
    requires n < |a.items|
    ensures Claimed(a, n + 1, rules) ==
            Claimed(a, n, rules) + if a.items[n].productId.None? then {rules.fold(NewName(a.items[n]))} else {}
  {
  }

  /** The loop body: one line's input for the transaction. */
  method ResolveLine(tx: Database, a: Approval, n: nat, kind: TransactionKind, rules: NameRules,
                     namesClaimed: set<string>, ghost products0: map<int, Product>)
    returns (r: Result<seq<ItemInput>, Error>)
    requires n < |a.items|
    requires forall i :: 0 <= i < n ==> LineOk(products0, kind, a, i, rules)
    requires tx.products == products0 + NewProducts(a, n)
    requires namesClaimed == Claimed(a, n, rules)
    modifies tx`products
    ensures r.Ok? <==> LineOk(products0, kind, a, n, rules)
    ensures r.Ok? ==> r.value == [LineInput(a, n)] && tx.products == products0 + NewProducts(a, n + 1)
    ensures LineError(products0, kind, a, n, rules) == if r.Ok? then None else Some(r.error)
  {
    var item := a.items[n];
    if item.productId.Some? {
      assert NewProducts(a, n + 1) == NewProducts(a, n);
      return Ok([ItemInput(item.productId.value, item.quantity, item.price)]);
    }
    r := CreateProduct(tx, a, n, kind, rules, namesClaimed, products0);
  }

  /** The names the first `n` lines define, folded. */
  function Claimed(a: Approval, n: nat, rules: NameRules): set<string>
    requires n <= |a.items|
  {
    set i | 0 <= i < n && a.items[i].productId.None? :: rules.fold(NewName(a.items[i]))
  }

  /** The rest of it, for a line that defines a new product. */
  method CreateProduct(tx: Database, a: Approval, n: nat, kind: TransactionKind, rules: NameRules,
                       namesClaimed: set<string>, ghost products0: map<int, Product>)
    returns (r: Result<seq<ItemInput>, Error>)
    requires n < |a.items| && a.items[n].productId.None?
    requires forall i :: 0 <= i < n ==> LineOk(products0, kind, a, i, rules)
    requires tx.products == products0 + NewProducts(a, n)
    requires namesClaimed == Claimed(a, n, rules)
    modifies tx`products
    ensures r.Ok? <==> LineOk(products0, kind, a, n, rules)
    ensures r.Ok? ==> r.value == [LineInput(a, n)] && tx.products == products0 + NewProducts(a, n + 1)
    ensures LineError(products0, kind, a, n, rules) == if r.Ok? then None else Some(r.error)
  {
    var item := a.items[n];
    if kind != Incoming { return Err(BadRequest); }
    if item.newName.None? || Blank(item.newName.value) { return Err(BadRequest); }
    var name := Trim(item.newName.value);
    if rules.fold(name) in namesClaimed {
      assert !LineOk(products0, kind, a, n, rules);
      return Err(Conflict);
    }
    if NameTaken(tx.products, name, rules) {
      TakenMeansClash(products0, a, n, kind, rules);
      return Err(Conflict);
    }
    NotTakenMeansNoClash(products0, a, n, kind, rules);
    // the primary key of the products table
    if a.firstNewId + n in tx.products { return Err(Conflict); }
    tx.products := tx.products[a.firstNewId + n := Product(name, true)];
    OneMoreProduct(products0, a, n);
    return Ok([ItemInput(a.firstNewId + n, item.quantity, item.price)]);
  }

  lemma OneMoreProduct(products: map<int, Product>, a: Approval, n: nat)
    requires n < |a.items| && a.items[n].productId.None?
    ensures products + NewProducts(a, n + 1) ==
            (products + NewProducts(a, n))[a.firstNewId + n := Product(NewName(a.items[n]), true)]
  {
    var row := Product(NewName(a.items[n]), true);
    assert Defines(a, a.firstNewId + n);
    assert NewProducts(a, n + 1) == NewProducts(a, n)[a.firstNewId + n := row] by {
      assert NewProducts(a, n + 1).Keys == NewProducts(a, n).Keys + {a.firstNewId + n};
    }
  }

  lemma TakenMeansClash(products: map<int, Product>, a: Approval, n: nat, kind: TransactionKind, rules: NameRules)
    requires n < |a.items| && a.items[n].productId.None?
    requires NameTaken(products + NewProducts(a, n), NewName(a.items[n]), rules)
    requires forall i :: 0 <= i < n ==> LineOk(products, kind, a, i, rules)
    ensures !LineOk(products, kind, a, n, rules)
  {
    var all, made := products + NewProducts(a, n), NewProducts(a, n);
    var p :| p in all && all[p].active && rules.same(all[p].name, NewName(a.items[n]));
    if p in made {
      EarlierClashes(products, a, p - a.firstNewId, n, kind, rules);
    } else {
      assert p in products && all[p] == products[p];
    }
  }

  lemma EarlierClashes(products: map<int, Product>, a: Approval, j: nat, n: nat, kind: TransactionKind, rules: NameRules)
    requires j < n < |a.items| && a.items[j].productId.None? && a.items[n].productId.None?
    requires rules.same(NewName(a.items[j]), NewName(a.items[n]))
    ensures !LineOk(products, kind, a, n, rules)
  {
  }

  lemma NotTakenMeansNoClash(products: map<int, Product>, a: Approval, n: nat, kind: TransactionKind, rules: NameRules)
    requires n < |a.items|
    requires !NameTaken(products + NewProducts(a, n), NewName(a.items[n]), rules)
    requires forall i :: 0 <= i < n ==> LineOk(products, kind, a, i, rules)
    ensures !NameTaken(products, NewName(a.items[n]), rules)
    ensures forall j :: 0 <= j < n && a.items[j].productId.None? ==>
      !rules.same(NewName(a.items[j]), NewName(a.items[n]))
  {
    var all := products + NewProducts(a, n);
    forall p <- products ensures !(products[p].active && rules.same(products[p].name, NewName(a.items[n]))) {
      assert p in NewProducts(a, n) ==> !LineOk(products, kind, a, p - a.firstNewId, rules);
      assert p in all && all[p] == products[p];
    }
    forall j | 0 <= j < n && a.items[j].productId.None?
      ensures !rules.same(NewName(a.items[j]), NewName(a.items[n]))
    {
      assert a.firstNewId + j in NewProducts(a, n);
      assert all[a.firstNewId + j] == Product(NewName(a.items[j]), true);
    }
  }

  // ---- reject ------------------------------------------------------------

  /** Rejects a review with a reason; never touches anything else. */
  method Reject(db: Database, id: nat, reason: string, reviewedBy: int) returns (r: Result<Unit, Error>)
    modifies db`reviews
    ensures r.Ok? <==> !Blank(reason) && AwaitsReview(old(db.Snapshot()), id)
    ensures r.Ok? ==> db.Snapshot() == old(AfterReject(db.Snapshot(), id, reason, reviewedBy))
    ensures r.Err? ==> db.reviews == old(db.reviews)
    ensures r.Err? ==>
      r.error == if Blank(reason) then BadRequest else if id < |db.reviews| then Conflict else NotFound
  {
    if Blank(reason) { return Err(BadRequest); }
    if id >= |db.reviews| { return Err(NotFound); }
    if db.reviews[id].status != PendingReview { return Err(Conflict); }
    db.reviews := db.reviews[id := db.reviews[id].(
      status := Rejected, reason := Some(reason), reviewedBy := Some(reviewedBy))];
    return Ok(Unit.Unit);
  }

  // ---- what approvals keep -----------------------------------------------

  /** No two active products have the same name, ignoring case. */
  predicate UniqueNames(products: map<int, Product>, rules: NameRules) {
    forall p <- products, q <- products :: p != q && products[p].active && products[q].active
      ==> !rules.same(products[p].name, products[q].name)
  }

  lemma NewNamesClashWithNone(t: Tables, id: nat, a: Approval, rules: NameRules, p: int, q: int)
    requires Symmetric(rules)
    requires UniqueNames(t.products, rules) && LinesOk(t.products, Incoming, a, rules)
    requires p != q && p in WithNewProducts(t, a).products && q in NewProducts(a, |a.items|)
    requires WithNewProducts(t, a).products[p].active
    ensures !rules.same(WithNewProducts(t, a).products[p].name, NewProducts(a, |a.items|)[q].name)
  {
    if p in NewProducts(a, |a.items|) {
      NewNamesDiffer(t.products, a, rules, p - a.firstNewId, q - a.firstNewId);
    } else {
      assert p in t.products && WithNewProducts(t, a).products[p] == t.products[p];
      assert LineOk(t.products, Incoming, a, q - a.firstNewId, rules);
    }
  }

  /** Two lines that define products define different names. */
  lemma NewNamesDiffer(products: map<int, Product>, a: Approval, rules: NameRules, i: nat, j: nat)
    requires Symmetric(rules) && LinesOk(products, Incoming, a, rules)
    requires i < |a.items| && j < |a.items| && i != j
    requires a.items[i].productId.None? && a.items[j].productId.None?
    ensures !rules.same(NewName(a.items[i]), NewName(a.items[j]))
  {
    assert LineOk(products, Incoming, a, i, rules) && LineOk(products, Incoming, a, j, rules);
    assert rules.same(NewName(a.items[i]), NewName(a.items[j])) == rules.same(NewName(a.items[j]), NewName(a.items[i]));
  }

  /** Approvals, one after another, keep active names unique. */
  lemma ApprovalKeepsNamesUnique(t: Tables, id: nat, a: Approval, rules: NameRules)
    requires Symmetric(rules)
    requires UniqueNames(t.products, rules) && ApproveAllowed(t, id, a, rules)
    ensures UniqueNames(AfterApprove(t, id, a).products, rules)
    ensures forall p <- t.products :: p in AfterApprove(t, id, a).products && AfterApprove(t, id, a).products[p] == t.products[p]
  {
    var added, all := NewProducts(a, |a.items|), WithNewProducts(t, a).products;
    forall p <- added ensures p !in t.products && t.reviews[id].kind == Incoming {
      assert LineOk(t.products, t.reviews[id].kind, a, p - a.firstNewId, rules);
    }
    forall p <- all, q <- all | p != q && all[p].active && all[q].active
      ensures !rules.same(all[p].name, all[q].name)
    {
      if q in added {
        NewNamesClashWithNone(t, id, a, rules, p, q);
      } else if p in added {
        NewNamesClashWithNone(t, id, a, rules, q, p);
      } else {
        assert all[p] == t.products[p] && all[q] == t.products[q];
      }
    }
  }

  /** The products an approval adds are active and have trimmed, non-empty names. */
  lemma NewProductsNamed(t: Tables, kind: TransactionKind, a: Approval, rules: NameRules)
    requires LinesOk(t.products, kind, a, rules)
    ensures forall p <- WithNewProducts(t, a).products :: p !in t.products ==>
      && WithNewProducts(t, a).products[p].active
      && WithNewProducts(t, a).products[p].name != "" && Trimmed(WithNewProducts(t, a).products[p].name)
  {
    var added := NewProducts(a, |a.items|);
    forall p <- added ensures added[p].name != "" && Trimmed(added[p].name) {
      assert LineOk(t.products, kind, a, p - a.firstNewId, rules);
      TrimFacts(a.items[p - a.firstNewId].newName.value);
    }
  }

  // ---- approvals keep a state sound --------------------------------------

  /** More products change nothing for the rows there are. */
  lemma NewProductsSound(t: Tables, a: Approval)
    requires Sound(t)
    ensures Sound(WithNewProducts(t, a))
  {
    var after := WithNewProducts(t, a);
    forall i | 0 <= i < |t.transactions| ensures TransactionOk(after, after.transactions[i]) {
      TransactionKept(t, after, t.transactions[i], t.transactions[i].status);
    }
    ReviewsKept(t, after);
    assert AllBacked(after);
    assert AllPosted(after);
  }

  lemma ApproveSound(t: Tables, id: nat, a: Approval, rules: NameRules)
    requires Sound(t) && ApproveAllowed(t, id, a, rules)
    ensures Sound(AfterApprove(t, id, a))
  {
    var stocked, header := WithNewProducts(t, a), HeaderFor(t.reviews[id].kind, a).value;
    NewProductsSound(t, a);
    CreateSound(stocked, header, Inputs(a));
    ApproveLinks(t, id, a);
    LinkSound(AfterCreate(stocked, header, Inputs(a)), AfterApprove(t, id, a), id);
  }

  /** An approval links its review to the transaction it has just made. */
  lemma ApproveLinks(t: Tables, id: nat, a: Approval)
    requires ReviewsOk(t) && AwaitsReview(t, id) && HeaderFor(t.reviews[id].kind, a).Some?
    ensures Links(AfterCreate(WithNewProducts(t, a), HeaderFor(t.reviews[id].kind, a).value, Inputs(a)), AfterApprove(t, id, a), id)
  {
    forall i | 0 <= i < |t.reviews| ensures t.reviews[i].transactionId != Some(|t.transactions|) {
      assert ReviewOk(t, t.reviews[i]);
    }
  }

  /** `after` differs from `t` in review `id` alone, which now names the newest
      transaction, one of its own type that no review had named. */
  predicate Links(t: Tables, after: Tables, id: nat) {
    && AwaitsReview(t, id) && t.transactions != []
    && t.transactions[|t.transactions| - 1].kind == t.reviews[id].kind != Transfer
    && after == t.(reviews := after.reviews) && |after.reviews| == |t.reviews|
    && after.reviews[id].kind == t.reviews[id].kind && after.reviews[id].status == Approved
    && after.reviews[id].transactionId == Some(|t.transactions| - 1)
    && (forall i :: 0 <= i < |t.reviews| && i != id ==> after.reviews[i] == t.reviews[i])
    && (forall i :: 0 <= i < |t.reviews| ==> t.reviews[i].transactionId != Some(|t.transactions| - 1))
  }

  /** Linking a claimed review to the newest transaction, of the review's own type. */
  lemma LinkSound(t: Tables, after: Tables, id: nat)
    requires Sound(t) && Links(t, after, id)
    ensures Sound(after)
  {
    LinkReviews(t, after, id);
    SameButReviews(t, after);
  }

  lemma LinkReviews(t: Tables, after: Tables, id: nat)
    requires ReviewsOk(t) && Links(t, after, id)
    ensures ReviewsOk(after)
  {
    forall i | 0 <= i < |after.reviews| ensures ReviewOk(after, after.reviews[i]) {
      assert ReviewOk(t, t.reviews[i]);
    }
  }

  /** Reviews matter to no other rule. */
  lemma SameButReviews(t: Tables, after: Tables)
    requires Sound(t) && ReviewsOk(after) && after == t.(reviews := after.reviews)
    ensures Sound(after)
  {
    forall i | 0 <= i < |t.transactions| ensures TransactionOk(after, after.transactions[i]) {
      TransactionKept(t, after, t.transactions[i], t.transactions[i].status);
    }
    assert AllBacked(after);
    assert AllPosted(after);
  }

  lemma RejectSound(t: Tables, id: nat, reason: string, reviewedBy: int)
    requires Sound(t) && AwaitsReview(t, id) && !Blank(reason)
    ensures Sound(AfterReject(t, id, reason, reviewedBy))
  {
    var after := AfterReject(t, id, reason, reviewedBy);
    assert ReviewOk(t, t.reviews[id]);
    forall i | 0 <= i < |after.reviews| ensures ReviewOk(after, after.reviews[i]) {
      assert ReviewOk(t, t.reviews[i]);
    }
    SameButReviews(t, after);
  }

  lemma ApproveCovered(t: Tables, id: nat, a: Approval, rules: NameRules)
    requires Covered(t) && ApproveAllowed(t, id, a, rules)
    ensures Covered(AfterApprove(t, id, a))
  {
    var stocked, header := WithNewProducts(t, a), HeaderFor(t.reviews[id].kind, a).value;
    forall k ensures Reserved(stocked.reservations, k) <= OnHand(stocked.stock, k) {
      assert Reserved(t.reservations, k) <= OnHand(t.stock, k);
    }
    CreateCovered(stocked, header, Inputs(a));
    var made := AfterCreate(stocked, header, Inputs(a));
    forall k ensures Reserved(AfterApprove(t, id, a).reservations, k) <= OnHand(made.stock, k) {
      assert Reserved(made.reservations, k) <= OnHand(made.stock, k);
    }
  }
}
