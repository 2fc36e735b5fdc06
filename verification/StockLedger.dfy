/** The append-only movement ledger and the physical stock it implies. */
module StockLedger {
  import opened Wrappers
  import opened StockOrder

  datatype MovementKind = IncomingMove | OutgoingMove | TransferIn | TransferOut | Adjustment

  datatype Movement = Movement(
    productId: int, warehouseId: int, kind: MovementKind, quantity: int, transactionId: Option<nat>)

  type Stock = map<StockKey, int>

  function KeyOf(m: Movement): StockKey {
    StockKey(m.warehouseId, m.productId)
  }

  /** movementDelta(): an adjustment is already signed, every other kind is a magnitude. */
  function Delta(m: Movement): int {
    match m.kind
    case Adjustment => m.quantity
    case IncomingMove => m.quantity
    case TransferIn => m.quantity
    case OutgoingMove => -m.quantity
    case TransferOut => -m.quantity
  }

  /** A missing WarehouseInventory row counts as zero. */
  function OnHand(stock: Stock, k: StockKey): int {
    if k in stock then stock[k] else 0
  }

  function Post(stock: Stock, m: Movement): Option<Stock> {
    var next := OnHand(stock, KeyOf(m)) + Delta(m);
    if next < 0 then None else Some(stock[KeyOf(m) := next])
  }

  /** Posting a list of movements; None as soon as one would take a row below zero. */
  function Replay(stock: Stock, ms: seq<Movement>): Option<Stock>
    decreases ms
  {
    if ms == [] then Some(stock)
    else match Post(stock, ms[0])
         case None => None
         case Some(next) => Replay(next, ms[1..])
  }

  /** The signed sum of the ledger rows of one stock row. */
  function NetQuantity(ms: seq<Movement>, k: StockKey): int {
    if ms == [] then 0
    else (if KeyOf(ms[0]) == k then Delta(ms[0]) else 0) + NetQuantity(ms[1..], k)
  }

  function KeysOf(ms: seq<Movement>): set<StockKey> {
    set m | m in ms :: KeyOf(m)
  }

  lemma {:induction false} ReplayConcat(stock: Stock, a: seq<Movement>, b: seq<Movement>)
    ensures Replay(stock, a + b) ==
            (match Replay(stock, a) case None => None case Some(s) => Replay(s, b))
    decreases a
  {
    if a == [] {
      assert a + b == b;
    } else {
      assert (a + b)[0] == a[0];
      assert (a + b)[1..] == a[1..] + b;
      match Post(stock, a[0]) {
        case None =>
        case Some(next) => ReplayConcat(next, a[1..], b);
      }
    }
  }

  lemma ReplayAppend(stock: Stock, a: seq<Movement>, m: Movement)
    ensures Replay(stock, a + [m]) ==
            (match Replay(stock, a) case None => None case Some(s) => Post(s, m))
  {
    ReplayConcat(stock, a, [m]);
    match Replay(stock, a) {
      case None =>
      case Some(s) =>
        match Post(s, m) {
          case None =>
          case Some(next) => assert Replay(next, [m][1..]) == Some(next);
        }
    }
  }

  /** What a replay leaves behind: every row holds its old quantity plus the
      signed sum of its movements, no row with a movement is missing, none is
      invented, and none is negative unless it was so before. */
  lemma {:induction false} ReplayIsSignedSum(stock: Stock, ms: seq<Movement>, after: Stock)
    requires Replay(stock, ms) == Some(after)
    ensures forall k :: OnHand(after, k) == OnHand(stock, k) + NetQuantity(ms, k)
    ensures after.Keys == stock.Keys + KeysOf(ms)
    ensures forall k :: k in KeysOf(ms) || OnHand(stock, k) >= 0 ==> OnHand(after, k) >= 0
    decreases ms
  {
    if ms != [] {
      var next := Post(stock, ms[0]).value;
      ReplayIsSignedSum(next, ms[1..], after);
      assert ms == [ms[0]] + ms[1..];
      assert KeysOf(ms) == {KeyOf(ms[0])} + KeysOf(ms[1..]);
    } else {
      assert KeysOf(ms) == {};
    }
  }

  lemma {:induction false} NetOfStrangers(ms: seq<Movement>, k: StockKey)
    requires forall m <- ms :: KeyOf(m) != k
    ensures NetQuantity(ms, k) == 0
  {
    if ms != [] {
      NetOfStrangers(ms[1..], k);
    }
  }

  lemma {:induction false} NetOfDistinct(ms: seq<Movement>, i: nat)
    requires DistinctKeys(KeyOf, ms) && i < |ms|
    ensures NetQuantity(ms, KeyOf(ms[i])) == Delta(ms[i])
  {
    if i == 0 {
      NetOfStrangers(ms[1..], KeyOf(ms[0]));
    } else {
      NetOfDistinct(ms[1..], i - 1);
    }
  }

  /** Movements on pairwise different rows can be posted exactly when each of
      them fits its own row. */
  lemma {:induction false} ReplayOfDistinct(stock: Stock, ms: seq<Movement>)
    requires DistinctKeys(KeyOf, ms)
    ensures Replay(stock, ms).Some? <==> forall m <- ms :: OnHand(stock, KeyOf(m)) + Delta(m) >= 0
    decreases ms
  {
    if ms != [] {
      assert ms == [ms[0]] + ms[1..];
      if Post(stock, ms[0]).Some? {
        var next := Post(stock, ms[0]).value;
        ReplayOfDistinct(next, ms[1..]);
        forall m <- ms[1..] ensures OnHand(next, KeyOf(m)) == OnHand(stock, KeyOf(m)) {
        }
      } else {
        assert ms[0] in ms;
      }
    }
  }

  /** The order in which movements on pairwise different rows are posted makes
      no difference, neither to success nor to the stock left behind. */
  lemma OrderIsIrrelevant(stock: Stock, ms: seq<Movement>, ns: seq<Movement>)
    requires DistinctKeys(KeyOf, ms)
    requires multiset(ms) == multiset(ns)
    ensures Replay(stock, ms) == Replay(stock, ns)
  {
    DistinctSurvives(KeyOf, ms, ns);
    ReplayOfDistinct(stock, ms);
    ReplayOfDistinct(stock, ns);
    assert forall m :: m in ms <==> m in ns by {
      forall m ensures m in ms <==> m in ns {
        assert m in multiset(ms) <==> m in multiset(ns);
      }
    }
    if Replay(stock, ms).Some? {
      SameReplay(stock, ms, ns);
    }
  }

  lemma SameReplay(stock: Stock, ms: seq<Movement>, ns: seq<Movement>)
    requires DistinctKeys(KeyOf, ms) && DistinctKeys(KeyOf, ns)
    requires forall m :: m in ms <==> m in ns
    requires Replay(stock, ms).Some? && Replay(stock, ns).Some?
    ensures Replay(stock, ms) == Replay(stock, ns)
  {
    var a, b := Replay(stock, ms).value, Replay(stock, ns).value;
    ReplayIsSignedSum(stock, ms, a);
    ReplayIsSignedSum(stock, ns, b);
    assert KeysOf(ms) == KeysOf(ns);
    forall k | k in a ensures a[k] == b[k] {
      SameNet(ms, ns, k);
      assert a[k] == OnHand(a, k);
      assert b[k] == OnHand(b, k);
    }
    assert a == b;
  }

  lemma SameNet(ms: seq<Movement>, ns: seq<Movement>, k: StockKey)
    requires DistinctKeys(KeyOf, ms) && DistinctKeys(KeyOf, ns)
    requires forall m :: m in ms <==> m in ns
    ensures NetQuantity(ms, k) == NetQuantity(ns, k)
  {
    if i :| 0 <= i < |ms| && KeyOf(ms[i]) == k {
      NetOfDistinct(ms, i);
      assert ms[i] in ns;
      var j :| 0 <= j < |ns| && ns[j] == ms[i];
      NetOfDistinct(ns, j);
    } else {
      NetOfStrangers(ms, k);
      NetOfStrangers(ns, k);
    }
  }

  // ---- totals over all warehouses ---------------------------------------

  /** Sum over the rows in `keys`; the rows are visited in some order. */
  ghost function SumOver(stock: Stock, keys: set<StockKey>): int {
    if keys == {} then 0
    else
      var k :| k in keys;
      OnHand(stock, k) + SumOver(stock, keys - {k})
  }

  ghost function ProductRows(stock: Stock, productId: int): set<StockKey> {
    set k | k in stock.Keys && k.productId == productId
  }

  /** A product's physical stock over all warehouses. */
  ghost function ProductTotal(stock: Stock, productId: int): int {
    SumOver(stock, ProductRows(stock, productId))
  }

  /** What a list of movements adds to a product over all warehouses. */
  function NetOfProduct(ms: seq<Movement>, productId: int): int {
    if ms == [] then 0
    else (if ms[0].productId == productId then Delta(ms[0]) else 0) + NetOfProduct(ms[1..], productId)
  }

  lemma {:induction false} SumWithout(stock: Stock, keys: set<StockKey>, k: StockKey)
    requires k in keys
    ensures SumOver(stock, keys) == OnHand(stock, k) + SumOver(stock, keys - {k})
    decreases |keys|
  {
    var first :| first in keys && SumOver(stock, keys) == OnHand(stock, first) + SumOver(stock, keys - {first});
    if first != k {
      SumWithout(stock, keys - {first}, k);
      SumWithout(stock, keys - {k}, first);
      assert keys - {first} - {k} == keys - {k} - {first};
    }
  }

  lemma {:induction false} SumUnchanged(s: Stock, t: Stock, keys: set<StockKey>)
    requires forall k <- keys :: OnHand(s, k) == OnHand(t, k)
    ensures SumOver(s, keys) == SumOver(t, keys)
    decreases |keys|
  {
    if keys != {} {
      var k :| k in keys;
      SumWithout(s, keys, k);
      SumWithout(t, keys, k);
      SumUnchanged(s, t, keys - {k});
    }
  }

  lemma PostMovesTotal(stock: Stock, m: Movement, after: Stock, productId: int)
    requires Post(stock, m) == Some(after)
    ensures ProductTotal(after, productId) ==
            ProductTotal(stock, productId) + (if m.productId == productId then Delta(m) else 0)
  {
    var k := KeyOf(m);
    var rows := ProductRows(after, productId);
    if m.productId == productId {
      SumWithout(after, rows, k);
      SumUnchanged(stock, after, rows - {k});
      if k in stock {
        assert rows == ProductRows(stock, productId);
        SumWithout(stock, rows, k);
      } else {
        assert rows - {k} == ProductRows(stock, productId);
      }
    } else {
      assert rows == ProductRows(stock, productId);
      SumUnchanged(stock, after, rows);
    }
  }

  /** Replaying movements changes each product's total by exactly their net. */
  lemma {:induction false} ReplayMovesTotal(stock: Stock, ms: seq<Movement>, after: Stock, productId: int)
    requires Replay(stock, ms) == Some(after)
    ensures ProductTotal(after, productId) == ProductTotal(stock, productId) + NetOfProduct(ms, productId)
    decreases ms
  {
    if ms != [] {
      var next := Post(stock, ms[0]).value;
      PostMovesTotal(stock, ms[0], next, productId);
      ReplayMovesTotal(next, ms[1..], after, productId);
    }
  }

  lemma {:induction false} NetOfProductConcat(a: seq<Movement>, b: seq<Movement>, productId: int)
    ensures NetOfProduct(a + b, productId) == NetOfProduct(a, productId) + NetOfProduct(b, productId)
  {
    if a == [] {
      assert a + b == b;
    } else {
      assert (a + b)[1..] == a[1..] + b;
      NetOfProductConcat(a[1..], b, productId);
    }
  }

  /** The net of a product does not depend on the order of the movements. */
  lemma {:induction false} NetOfProductPermuted(ms: seq<Movement>, ns: seq<Movement>, productId: int)
    requires multiset(ms) == multiset(ns)
    ensures NetOfProduct(ms, productId) == NetOfProduct(ns, productId)
    decreases |ms|
  {
    if ms == [] {
      assert |multiset(ns)| == 0;
    } else {
      assert ms == [ms[0]] + ms[1..];
      var i := Pluck(ns, ms[0]);
      var rest := ns[..i] + ns[i + 1..];
      assert multiset(ms[1..]) == multiset(ms) - multiset{ms[0]};
      NetOfProductPermuted(ms[1..], rest, productId);
      NetWithout(ns, i, productId);
    }
  }

  lemma NetWithout(ns: seq<Movement>, i: nat, productId: int)
    requires i < |ns|
    ensures NetOfProduct(ns, productId) ==
            NetOfProduct(ns[..i] + ns[i + 1..], productId) + (if ns[i].productId == productId then Delta(ns[i]) else 0)
  {
    assert ns == ns[..i] + ([ns[i]] + ns[i + 1..]);
    NetOfProductConcat(ns[..i], [ns[i]] + ns[i + 1..], productId);
    NetOfProductConcat(ns[..i], ns[i + 1..], productId);
    assert ([ns[i]] + ns[i + 1..])[1..] == ns[i + 1..];
  }
}
