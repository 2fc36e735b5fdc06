/** Reservation rows, and the sums "available stock" is computed from. */
module ReservationRows {
  import opened Wrappers
  import opened StockOrder

  /** `Released` is the source's CANCELLED. */
  datatype ReservationStatus = Active | Fulfilled | Released

  /** The row's id is its position in the table. */
  datatype Reservation = Reservation(
    transactionId: nat, productId: int, warehouseId: int, quantity: int, status: ReservationStatus)

  function RowOf(r: Reservation): StockKey {
    StockKey(r.warehouseId, r.productId)
  }

  predicate ActiveFor(r: Reservation, id: nat) {
    r.status == Active && r.transactionId == id
  }

  /** Sum of the ACTIVE quantities on one stock row. */
  function Reserved(rs: seq<Reservation>, k: StockKey): int {
    if rs == [] then 0
    else (if rs[0].status == Active && RowOf(rs[0]) == k then rs[0].quantity else 0) + Reserved(rs[1..], k)
  }

  /** The part of Reserved that belongs to one transaction. */
  function ReservedBy(rs: seq<Reservation>, id: nat, k: StockKey): int {
    if rs == [] then 0
    else (if ActiveFor(rs[0], id) && RowOf(rs[0]) == k then rs[0].quantity else 0) + ReservedBy(rs[1..], id, k)
  }

  /** The ACTIVE rows of transaction `id` whose product is in `products`, moved to `status`. */
  function Settle(rs: seq<Reservation>, id: nat, products: set<int>, status: ReservationStatus): (r: seq<Reservation>)
    ensures |r| == |rs|
    ensures forall i :: 0 <= i < |rs| ==>
      r[i] == if ActiveFor(rs[i], id) && rs[i].productId in products then rs[i].(status := status) else rs[i]
  {
    seq(|rs|, i requires 0 <= i < |rs| =>
      if ActiveFor(rs[i], id) && rs[i].productId in products then rs[i].(status := status) else rs[i])
  }

  lemma {:induction false} ReservedConcat(a: seq<Reservation>, b: seq<Reservation>, k: StockKey)
    ensures Reserved(a + b, k) == Reserved(a, k) + Reserved(b, k)
  {
    if a == [] {
      assert a + b == b;
    } else {
      assert (a + b)[1..] == a[1..] + b;
      ReservedConcat(a[1..], b, k);
    }
  }

  lemma {:induction false} ReservedNonNegative(rs: seq<Reservation>, id: nat, k: StockKey)
    requires forall r <- rs :: r.quantity > 0
    ensures 0 <= ReservedBy(rs, id, k) <= Reserved(rs, k)
  {
    if rs != [] {
      ReservedNonNegative(rs[1..], id, k);
    }
  }

  /** Rows on pairwise different stock rows: each contributes alone. */
  lemma {:induction false} ReservedOfDistinct(rs: seq<Reservation>, i: nat)
    requires DistinctKeys(RowOf, rs) && i < |rs| && rs[i].status == Active
    ensures Reserved(rs, RowOf(rs[i])) == rs[i].quantity
  {
    if i == 0 {
      ReservedElsewhere(rs[1..], RowOf(rs[0]));
    } else {
      ReservedOfDistinct(rs[1..], i - 1);
    }
  }

  lemma {:induction false} ReservedElsewhere(rs: seq<Reservation>, k: StockKey)
    requires forall r <- rs :: RowOf(r) != k
    ensures Reserved(rs, k) == 0
  {
    if rs != [] {
      ReservedElsewhere(rs[1..], k);
    }
  }

  /** Settling a transaction's rows takes exactly its own share off the row. */
  lemma {:induction false} SettleTakesShare(rs: seq<Reservation>, id: nat, products: set<int>, status: ReservationStatus, k: StockKey)
    requires status != Active
    ensures Reserved(Settle(rs, id, products, status), k) ==
            Reserved(rs, k) - (if k.productId in products then ReservedBy(rs, id, k) else 0)
  {
    if rs != [] {
      SettleTakesShare(rs[1..], id, products, status, k);
      assert Settle(rs, id, products, status)[1..] == Settle(rs[1..], id, products, status);
    }
  }

  /** A transaction with no matching ACTIVE row holds nothing of the stock row. */
  lemma {:induction false} ShareIsZero(rs: seq<Reservation>, id: nat, k: StockKey)
    requires forall r <- rs :: !(ActiveFor(r, id) && RowOf(r) == k)
    ensures ReservedBy(rs, id, k) == 0
  {
    if rs != [] {
      ShareIsZero(rs[1..], id, k);
    }
  }

  /** A transaction with exactly one matching ACTIVE row holds that row's quantity. */
  lemma {:induction false} ShareIsOne(rs: seq<Reservation>, id: nat, k: StockKey, i: nat)
    requires i < |rs| && ActiveFor(rs[i], id) && RowOf(rs[i]) == k
    requires forall j :: 0 <= j < |rs| && j != i ==> !(ActiveFor(rs[j], id) && RowOf(rs[j]) == k)
    ensures ReservedBy(rs, id, k) == rs[i].quantity
  {
    if i == 0 {
      forall r <- rs[1..] ensures !(ActiveFor(r, id) && RowOf(r) == k) {
        var j :| 0 <= j < |rs[1..]| && rs[1..][j] == r;
        assert rs[j + 1] == r;
      }
      ShareIsZero(rs[1..], id, k);
    } else {
      assert !(ActiveFor(rs[0], id) && RowOf(rs[0]) == k);
      forall j | 0 <= j < |rs[1..]| && j != i - 1
        ensures !(ActiveFor(rs[1..][j], id) && RowOf(rs[1..][j]) == k)
      {
        assert rs[1..][j] == rs[j + 1];
      }
      ShareIsOne(rs[1..], id, k, i - 1);
    }
  }
}
