/** InventoryTransactionsService.cancel(). */
module CancelTransaction {
  import opened Wrappers
  import opened ReservationRows
  import opened InventoryTables
  import opened DatabaseClient
  import opened Reservations

  /** The outcome of cancel(). */
  predicate CancelOutcome(t: Tables, id: nat, r: Result<Unit, Error>, after: Tables) {
    && (r.Ok? <==> IsPending(t, id))
    && (r.Ok? ==> after == AfterCancel(t, id))
    && (r.Err? ==> r.error == if id < |t.transactions| then Conflict else NotFound)
  }

  /** Cancels a PENDING transaction and frees everything it had set aside. */
  method Cancel(db: Database, id: nat) returns (r: Result<Unit, Error>)
    requires Sound(db.Snapshot())
    modifies db
    ensures CancelOutcome(old(db.Snapshot()), id, r, db.Snapshot())
    ensures r.Err? ==> db.Snapshot() == old(db.Snapshot())
  {
    var saved := db.Snapshot();
    r := CancelWithClient(db, id);
    if r.Err? {
      db.Restore(saved);
    }
  }

  method CancelWithClient(tx: Database, id: nat) returns (r: Result<Unit, Error>)
    requires Sound(tx.Snapshot())
    modifies tx
    ensures CancelOutcome(old(tx.Snapshot()), id, r, tx.Snapshot())
  {
    if id >= |tx.transactions| { return Err(NotFound); }
    if tx.transactions[id].status != Pending { return Err(Conflict); }
    ghost var t0 := tx.Snapshot();
    AllActiveNamed(t0, id);
    tx.transactions := tx.transactions[id := tx.transactions[id].(status := Cancelled)];
    var activeReservations := ActiveRows(tx, id);
    r := ReleaseRows(tx, activeReservations);
    assert tx.reservations == Settle(t0.reservations, id, ProductsOf(t0.transactions[id].items), Released);
  }

  /** Every ACTIVE reservation of a transaction is for one of its items' products. */
  lemma AllActiveNamed(t: Tables, id: nat)
    requires Sound(t) && id < |t.transactions|
    ensures forall i :: 0 <= i < |t.reservations| && ActiveFor(t.reservations[i], id) ==>
      t.reservations[i].productId in ProductsOf(t.transactions[id].items)
  {
    var tx := t.transactions[id];
    assert Backed(tx, id, t.reservations);
    forall i | 0 <= i < |t.reservations| && ActiveFor(t.reservations[i], id)
      ensures t.reservations[i].productId in ProductsOf(tx.items)
    {
      assert Matches(t.reservations[i], tx);
      var x :| 0 <= x < |tx.items| && tx.items[x].productId == t.reservations[i].productId;
      assert tx.items[x] in tx.items;
    }
  }

  /** reservation.findMany({ transactionId, status: ACTIVE }) */
  method ActiveRows(tx: Database, id: nat) returns (rows: seq<nat>)
    ensures forall i, j :: 0 <= i < j < |rows| ==> rows[i] < rows[j]
    ensures forall row <- rows :: row < |tx.reservations| && ActiveFor(tx.reservations[row], id)
    ensures forall i :: 0 <= i < |tx.reservations| && ActiveFor(tx.reservations[i], id) ==> i in rows
  {
    rows := [];
    for n := 0 to |tx.reservations|
      invariant forall i, j :: 0 <= i < j < |rows| ==> rows[i] < rows[j]
      invariant forall i :: 0 <= i < |rows| ==> rows[i] < n && ActiveFor(tx.reservations[rows[i]], id)
      invariant forall i :: 0 <= i < n && ActiveFor(tx.reservations[i], id) ==> i in rows
    {
      if ActiveFor(tx.reservations[n], id) {
        rows := rows + [n];
      }
    }
  }

  /** Releases different ACTIVE rows one by one; nothing else moves. */
  method ReleaseRows(tx: Database, rows: seq<nat>) returns (r: Result<Unit, Error>)
    requires forall i, j :: 0 <= i < j < |rows| ==> rows[i] != rows[j]
    requires forall row <- rows :: row < |tx.reservations| && tx.reservations[row].status == Active
    modifies tx`reservations
    ensures r.Ok?
    ensures |tx.reservations| == |old(tx.reservations)|
    ensures forall i :: 0 <= i < |tx.reservations| ==>
      tx.reservations[i] ==
      if i in rows then old(tx.reservations)[i].(status := Released) else old(tx.reservations)[i]
  {
    for n := 0 to |rows|
      invariant |tx.reservations| == |old(tx.reservations)|
      invariant forall i :: 0 <= i < |tx.reservations| ==>
        tx.reservations[i] ==
        if i in rows[..n] then old(tx.reservations)[i].(status := Released) else old(tx.reservations)[i]
    {
      assert rows[n] in rows && rows[n] !in rows[..n];
      assert rows[..n + 1] == rows[..n] + [rows[n]];
      r := Release(tx, rows[n]);
      if r.Err? { return; }
    }
    assert rows[..|rows|] == rows;
    return Ok(Unit.Unit);
  }
}
