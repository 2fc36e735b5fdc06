/** Splitting half of a dead stock among the warehouses that still sell it. */
module DeadStockPlanner {
  /** An OUTGOING movement of the product; `createdAt` stands for its ISO time stamp. */
  datatype Sale = Sale(warehouseId: int, createdAt: int)

  // ---- _qualifying_warehouses_by_recency() --------------------------------

  /** The newest sale of a warehouse. */
  predicate Latest(sales: seq<Sale>, w: int, at: int) {
    Sale(w, at) in sales && forall s <- sales :: s.warehouseId == w ==> s.createdAt <= at
  }

  predicate Sells(sales: seq<Sale>, w: int) {
    exists s <- sales :: s.warehouseId == w
  }

  predicate Distinct(ws: seq<int>) {
    forall i, j :: 0 <= i < j < |ws| ==> ws[i] != ws[j]
  }

  /** Most recent seller first. */
  predicate ByRecency(ws: seq<int>, latest: map<int, int>) {
    && (forall w <- ws :: w in latest)
    && forall i, j :: 0 <= i < j < |ws| ==> latest[ws[i]] >= latest[ws[j]]
  }

  /** The other warehouses that sold the product, most recent seller first, each once. */
  method QualifyingByRecency(sales: seq<Sale>, exclude: int) returns (ws: seq<int>, ghost latest: map<int, int>)
    ensures Distinct(ws) && exclude !in ws
    ensures forall w :: w in ws <==> w != exclude && Sells(sales, w)
    ensures ByRecency(ws, latest) && forall w <- ws :: Latest(sales, w, latest[w])
  {
    var latestByWarehouse: map<int, int> := map[];
    for n := 0 to |sales|
      invariant exclude !in latestByWarehouse
      invariant forall w :: w in latestByWarehouse <==> w != exclude && Sells(sales[..n], w)
      invariant forall w <- latestByWarehouse :: Latest(sales[..n], w, latestByWarehouse[w])
    {
      var s := sales[n];
      OneMoreSale(sales, n);
      if s.warehouseId != exclude {
        if s.warehouseId !in latestByWarehouse || s.createdAt > latestByWarehouse[s.warehouseId] {
          latestByWarehouse := latestByWarehouse[s.warehouseId := s.createdAt];
        }
      }
    }
    assert sales[..|sales|] == sales;
    ws := SortedByRecency(latestByWarehouse);
    latest := latestByWarehouse;
  }

  lemma OneMoreSale(sales: seq<Sale>, n: nat)
    requires n < |sales|
    ensures forall w :: Sells(sales[..n + 1], w) <==> Sells(sales[..n], w) || sales[n].warehouseId == w
    ensures forall s :: s in sales[..n + 1] <==> s in sales[..n] || s == sales[n]
  {
    assert sales[..n + 1] == sales[..n] + [sales[n]];
    forall w ensures Sells(sales[..n + 1], w) <==> Sells(sales[..n], w) || sales[n].warehouseId == w {
      if sales[n].warehouseId == w {
        assert sales[n] in sales[..n + 1];
      }
      if s :| s in sales[..n] && s.warehouseId == w {
        assert s in sales[..n + 1];
      }
    }
  }

  /** The keys by value, newest first; the order of equal ones is left open. */
  method SortedByRecency(latest: map<int, int>) returns (ws: seq<int>)
    ensures Distinct(ws) && (forall w :: w in ws <==> w in latest) && ByRecency(ws, latest)
  {
    ws := [];
    var left := latest.Keys;
    while left != {}
      invariant left <= latest.Keys
      invariant forall w :: w in ws <==> w in latest && w !in left
      invariant Distinct(ws) && ByRecency(ws, latest)
      invariant forall w <- ws, x <- left :: latest[w] >= latest[x]
      decreases |left|
    {
      var next := Newest(latest, left);
      ws := ws + [next];
      left := left - {next};
    }
  }

  lemma Member<T>(s: set<T>) returns (x: T)
    requires s != {}
    ensures x in s
  {
    x :| x in s;
  }

  method Newest(latest: map<int, int>, among: set<int>) returns (w: int)
    requires among != {} && among <= latest.Keys
    ensures w in among && forall x <- among :: latest[x] <= latest[w]
  {
    ghost var someone := Member(among);
    w :| w in among;
    var left := among - {w};
    while left != {}
      invariant w in among && left <= among
      invariant forall x <- among - left :: latest[x] <= latest[w]
      decreases |left|
    {
      ghost var another := Member(left);
      var x :| x in left;
      if latest[x] > latest[w] { w := x; }
      left := left - {x};
    }
  }

  // ---- _compute_recommended_transfers() -----------------------------------

  datatype Move = Move(destination: int, quantity: int)

  function Total(moves: seq<Move>): int {
    if moves == [] then 0 else Total(moves[..|moves| - 1]) + moves[|moves| - 1].quantity
  }

  /** What the plan gives destination `i`: nothing past the end of the list. */
  function ShareOf(moves: seq<Move>, i: nat): int {
    if i < |moves| then moves[i].quantity else 0
  }

  /** The even split, larger shares first. */
  function Share(base: int, remainder: int, i: int): int {
    base + (if i < remainder then 1 else 0)
  }

  function SumShares(base: int, remainder: int, n: nat): int {
    if n == 0 then 0 else SumShares(base, remainder, n - 1) + Share(base, remainder, n - 1)
  }

  lemma {:induction false} SumOfShares(base: int, remainder: int, n: nat)
    requires remainder >= 0
    ensures SumShares(base, remainder, n) == n * base + (if n < remainder then n else remainder)
  {
    if n > 0 {
      SumOfShares(base, remainder, n - 1);
      assert n * base == (n - 1) * base + base;
    }
  }

  /** The shares of a quotient and its remainder are the whole amount. */
  lemma AllShares(amount: int, count: nat)
    requires count > 0
    ensures SumShares(amount / count, amount % count, count) == amount
  {
    SumOfShares(amount / count, amount % count, count);
  }

  /** Half the stock, split evenly: everything is given out, every move is
      positive, shares over the full list differ by at most one, and no later
      (less recent) seller gets more than an earlier one. */
  method ComputeTransfers(onHand: int, warehouses: seq<int>) returns (moves: seq<Move>)
    ensures Total(moves) == if warehouses == [] || onHand < 2 then 0 else onHand / 2
    ensures |moves| <= |warehouses| && forall i :: 0 <= i < |moves| ==> moves[i].destination == warehouses[i]
    ensures forall m <- moves :: m.quantity > 0
    ensures forall i, j :: 0 <= i < j < |warehouses| ==> 0 <= ShareOf(moves, i) - ShareOf(moves, j) <= 1
  {
    if warehouses == [] { return []; }
    var amount := onHand / 2;
    if amount <= 0 { return []; }
    moves := Shares(amount / |warehouses|, amount % |warehouses|, warehouses);
    AllShares(amount, |warehouses|);
    SplitEvenly(moves, amount / |warehouses|, amount % |warehouses|, |warehouses|);
  }

  /** The loop over the destinations; the remainder goes to the first of them. */
  method Shares(base: int, remainder: int, warehouses: seq<int>) returns (moves: seq<Move>)
    requires base >= 0
    ensures |moves| <= |warehouses| && forall i :: 0 <= i < |moves| ==>
      moves[i] == Move(warehouses[i], Share(base, remainder, i)) && moves[i].quantity > 0
    ensures forall i :: |moves| <= i < |warehouses| ==> Share(base, remainder, i) == 0
    ensures Total(moves) == SumShares(base, remainder, |warehouses|)
  {
    moves := [];
    for index := 0 to |warehouses|
      invariant |moves| <= index
      invariant forall i :: 0 <= i < |moves| ==> moves[i] == Move(warehouses[i], Share(base, remainder, i)) && moves[i].quantity > 0
      invariant forall i :: |moves| <= i < index ==> Share(base, remainder, i) == 0
      invariant Total(moves) == SumShares(base, remainder, index)
    {
      var quantity := base + (if index < remainder then 1 else 0);
      if quantity > 0 {
        assert |moves| < index ==> Share(base, remainder, |moves|) >= Share(base, remainder, index);
        moves := moves + [Move(warehouses[index], quantity)];
      }
    }
  }

  lemma SplitEvenly(moves: seq<Move>, base: int, remainder: int, count: int)
    requires |moves| <= count
    requires forall i :: 0 <= i < |moves| ==> moves[i].quantity == Share(base, remainder, i)
    requires forall i :: |moves| <= i < count ==> Share(base, remainder, i) == 0
    ensures forall i, j :: 0 <= i < j < count ==> 0 <= ShareOf(moves, i) - ShareOf(moves, j) <= 1
  {
    forall i, j | 0 <= i < j < count ensures 0 <= ShareOf(moves, i) - ShareOf(moves, j) <= 1 {
      assert ShareOf(moves, i) == Share(base, remainder, i) && ShareOf(moves, j) == Share(base, remainder, j);
    }
  }

  lemma SharesApart(moves: seq<Move>, count: nat)
    requires |moves| <= count
    requires forall i, j :: 0 <= i < j < count ==> 0 <= ShareOf(moves, i) - ShareOf(moves, j) <= 1
    ensures forall i, j :: 0 <= i < j < |moves| ==> 0 <= moves[i].quantity - moves[j].quantity <= 1
  {
    forall i, j | 0 <= i < j < |moves| ensures 0 <= moves[i].quantity - moves[j].quantity <= 1 {
      assert 0 <= ShareOf(moves, i) - ShareOf(moves, j) <= 1;
    }
  }

  /** For every sale of `b` there is one of `a` that is no older. */
  predicate SoldLater(sales: seq<Sale>, a: int, b: int) {
    forall s <- sales :: s.warehouseId == b ==> exists r <- sales :: r.warehouseId == a && r.createdAt >= s.createdAt
  }

  lemma NewerFirst(sales: seq<Sale>, ws: seq<int>, latest: map<int, int>, i: nat, j: nat)
    requires ByRecency(ws, latest) && i < j < |ws| && forall w <- ws :: Latest(sales, w, latest[w])
    ensures SoldLater(sales, ws[i], ws[j])
  {
    assert ws[i] in ws && ws[j] in ws;
    assert Sale(ws[i], latest[ws[i]]) in sales;
  }

  /** recommend_dead_stock_transfer(): distinct destinations, never the source, most recent
      seller first, half the stock moves whenever anybody else sells the product, split so that
      no two moves differ by more than one and the earlier is not the smaller. */
  method PlanDeadStock(onHand: int, sales: seq<Sale>, source: int) returns (moves: seq<Move>)
    ensures forall i, j :: 0 <= i < j < |moves| ==> moves[i].destination != moves[j].destination
    ensures forall m <- moves :: m.destination != source && m.quantity > 0 && Sells(sales, m.destination)
    ensures Total(moves) == if onHand >= 2 && exists s <- sales :: s.warehouseId != source then onHand / 2 else 0
    ensures onHand >= 0 ==> onHand - Total(moves) >= Total(moves)
    ensures forall i, j :: 0 <= i < j < |moves| ==> 0 <= moves[i].quantity - moves[j].quantity <= 1
    ensures forall i, j :: 0 <= i < j < |moves| ==> SoldLater(sales, moves[i].destination, moves[j].destination)
  {
    var ws, latest := QualifyingByRecency(sales, source);
    moves := ComputeTransfers(onHand, ws);
    SharesApart(moves, |ws|);
    forall i, j | 0 <= i < j < |ws| ensures SoldLater(sales, ws[i], ws[j]) {
      NewerFirst(sales, ws, latest, i, j);
    }
    forall m <- moves ensures m.destination in ws {
      var i :| 0 <= i < |moves| && moves[i] == m;
    }
    SomeoneElseSells(sales, source, ws);
  }

  lemma SomeoneElseSells(sales: seq<Sale>, source: int, ws: seq<int>)
    requires forall w :: w in ws <==> w != source && Sells(sales, w)
    ensures ws != [] <==> exists s <- sales :: s.warehouseId != source
  {
    if s :| s in sales && s.warehouseId != source {
      assert s.warehouseId in ws;
    }
    if ws != [] {
      assert ws[0] in ws && Sells(sales, ws[0]);
    }
  }
}
