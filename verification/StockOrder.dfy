/** The (warehouseId, productId) order in which every stock row is taken, and
    the stable sort the services apply to reach it. */
module StockOrder {
  datatype StockKey = StockKey(warehouseId: int, productId: int)

  predicate Before(a: StockKey, b: StockKey) {
    a.warehouseId < b.warehouseId || (a.warehouseId == b.warehouseId && a.productId < b.productId)
  }

  predicate Ascending<T>(key: T -> StockKey, xs: seq<T>) {
    forall i, j :: 0 <= i < j < |xs| ==> Before(key(xs[i]), key(xs[j]))
  }

  predicate DistinctKeys<T>(key: T -> StockKey, xs: seq<T>) {
    forall i, j :: 0 <= i < j < |xs| ==> key(xs[i]) != key(xs[j])
  }

  function Insert<T>(key: T -> StockKey, x: T, xs: seq<T>): (r: seq<T>)
    ensures multiset(r) == multiset(xs) + multiset{x}
  {
    if |xs| == 0 || Before(key(x), key(xs[0])) then [x] + xs
    else
      assert xs == [xs[0]] + xs[1..];
      [xs[0]] + Insert(key, x, xs[1..])
  }

  /** Array.prototype.sort with the comparator `a.warehouseId - b.warehouseId || a.productId - b.productId`. */
  function SortByKey<T>(key: T -> StockKey, xs: seq<T>): (r: seq<T>)
    ensures multiset(r) == multiset(xs)
    ensures |r| == |xs|
  {
    if xs == [] then []
    else
      assert xs == xs[..|xs| - 1] + [xs[|xs| - 1]];
      var r := Insert(key, xs[|xs| - 1], SortByKey(key, xs[..|xs| - 1]));
      assert |multiset(r)| == |multiset(xs)|;
      r
  }

  lemma {:induction false} InsertAscends<T>(key: T -> StockKey, x: T, xs: seq<T>)
    requires Ascending(key, xs)
    requires forall y <- xs :: key(y) != key(x)
    ensures Ascending(key, Insert(key, x, xs))
  {
    if |xs| == 0 || Before(key(x), key(xs[0])) {
    } else {
      InsertAscends(key, x, xs[1..]);
      var rest := Insert(key, x, xs[1..]);
      forall j | 0 <= j < |rest| ensures Before(key(xs[0]), key(rest[j])) {
        assert rest[j] in multiset(rest);
        assert rest[j] == x || rest[j] in xs[1..];
      }
    }
  }

  /** Rows with pairwise different keys come out in strictly ascending order. */
  lemma {:induction false} SortAscends<T>(key: T -> StockKey, xs: seq<T>)
    requires DistinctKeys(key, xs)
    ensures Ascending(key, SortByKey(key, xs))
    ensures DistinctKeys(key, SortByKey(key, xs))
  {
    if xs != [] {
      var front, x := xs[..|xs| - 1], xs[|xs| - 1];
      SortAscends(key, front);
      forall y <- SortByKey(key, front) ensures key(y) != key(x) {
        assert y in multiset(front);
      }
      InsertAscends(key, x, SortByKey(key, front));
    }
  }

  lemma SameElements<T>(key: T -> StockKey, xs: seq<T>)
    ensures forall x :: x in SortByKey(key, xs) <==> x in xs
  {
    forall x ensures x in SortByKey(key, xs) <==> x in xs {
      assert x in multiset(xs) <==> x in multiset(SortByKey(key, xs));
    }
  }

  /** An occurrence of `x`, and what is left when it is taken out. */
  lemma Pluck<T>(xs: seq<T>, x: T) returns (i: nat)
    requires x in multiset(xs)
    ensures i < |xs| && xs[i] == x
    ensures multiset(xs[..i] + xs[i + 1..]) == multiset(xs) - multiset{x}
  {
    i :| 0 <= i < |xs| && xs[i] == x;
    assert xs == xs[..i] + [x] + xs[i + 1..];
  }

  lemma DistinctWithout<T>(key: T -> StockKey, xs: seq<T>, i: nat)
    requires DistinctKeys(key, xs) && i < |xs|
    ensures DistinctKeys(key, xs[..i] + xs[i + 1..])
    ensures forall y <- xs[..i] + xs[i + 1..] :: key(y) != key(xs[i])
  {
  }

  /** Rearranging rows keeps their keys pairwise different. */
  lemma {:induction false} DistinctSurvives<T>(key: T -> StockKey, xs: seq<T>, ys: seq<T>)
    requires multiset(xs) == multiset(ys)
    requires DistinctKeys(key, xs)
    ensures DistinctKeys(key, ys)
    decreases |ys|
  {
    if ys != [] {
      var front, y := ys[..|ys| - 1], ys[|ys| - 1];
      assert ys == front + [y];
      var i := Pluck(xs, y);
      var rest := xs[..i] + xs[i + 1..];
      DistinctWithout(key, xs, i);
      DistinctSurvives(key, rest, front);
      forall j | 0 <= j < |front| ensures key(front[j]) != key(y) {
        assert front[j] in multiset(rest);
      }
    }
  }
}
