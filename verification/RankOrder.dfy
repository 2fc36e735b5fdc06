/** The stable sort by a score, highest first. */
module RankOrder {
  function Insert<T>(score: T -> real, x: T, xs: seq<T>): (r: seq<T>)
    ensures multiset(r) == multiset(xs) + multiset{x}
  {
    if |xs| == 0 || score(x) > score(xs[0]) then [x] + xs
    else
      assert xs == [xs[0]] + xs[1..];
      [xs[0]] + Insert(score, x, xs[1..])
  }

  /** `sort((a, b) => b.score - a.score)`, and `sorted(..., key=score, reverse=True)`:
      equal scores keep their order. */
  function Ranked<T>(score: T -> real, xs: seq<T>): (r: seq<T>)
    ensures multiset(r) == multiset(xs)
    ensures |r| == |xs|
  {
    if xs == [] then []
    else
      var front, last := xs[..|xs| - 1], xs[|xs| - 1];
      assert xs == front + [last];
      var r := Insert(score, last, Ranked(score, front));
      assert |multiset(r)| == |multiset(xs)|;
      r
  }

  predicate Descending<T>(score: T -> real, xs: seq<T>) {
    forall i, j :: 0 <= i < j < |xs| ==> score(xs[i]) >= score(xs[j])
  }

  lemma {:induction false} InsertDescends<T>(score: T -> real, x: T, xs: seq<T>)
    requires Descending(score, xs)
    ensures Descending(score, Insert(score, x, xs))
  {
    if |xs| > 0 && score(x) <= score(xs[0]) {
      InsertDescends(score, x, xs[1..]);
      var rest := Insert(score, x, xs[1..]);
      forall j | 0 <= j < |rest| ensures score(rest[j]) <= score(xs[0]) {
        assert rest[j] in multiset(rest);
        assert rest[j] == x || rest[j] in xs[1..];
      }
    }
  }

  lemma {:induction false} RankedDescends<T>(score: T -> real, xs: seq<T>)
    ensures Descending(score, Ranked(score, xs))
  {
    if xs != [] {
      RankedDescends(score, xs[..|xs| - 1]);
      InsertDescends(score, xs[|xs| - 1], Ranked(score, xs[..|xs| - 1]));
    }
  }

  lemma {:induction false} InsertLast<T>(score: T -> real, x: T, xs: seq<T>)
    requires forall y <- xs :: score(y) >= score(x)
    ensures Insert(score, x, xs) == xs + [x]
  {
    if xs != [] {
      assert xs[0] in xs;
      InsertLast(score, x, xs[1..]);
    }
  }

  /** A list in order stays as it is. */
  lemma {:induction false} RankedStays<T>(score: T -> real, xs: seq<T>)
    requires Descending(score, xs)
    ensures Ranked(score, xs) == xs
  {
    if xs != [] {
      RankedStays(score, xs[..|xs| - 1]);
      InsertLast(score, xs[|xs| - 1], xs[..|xs| - 1]);
    }
  }

  lemma RankedMembers<T>(score: T -> real, xs: seq<T>)
    ensures forall x :: x in Ranked(score, xs) <==> x in xs
  {
    forall x ensures x in Ranked(score, xs) <==> x in xs {
      assert x in multiset(xs) <==> x in multiset(Ranked(score, xs));
    }
  }

  predicate Distinct<T>(id: T -> int, xs: seq<T>) {
    forall i, j :: 0 <= i < j < |xs| ==> id(xs[i]) != id(xs[j])
  }

  lemma {:induction false} InsertDistinct<T>(score: T -> real, id: T -> int, x: T, xs: seq<T>)
    requires Distinct(id, xs) && forall y <- xs :: id(y) != id(x)
    ensures Distinct(id, Insert(score, x, xs))
  {
    if |xs| > 0 && score(x) <= score(xs[0]) {
      InsertDistinct(score, id, x, xs[1..]);
      var rest := Insert(score, x, xs[1..]);
      forall j | 0 <= j < |rest| ensures id(rest[j]) != id(xs[0]) {
        assert rest[j] in multiset(rest);
        assert rest[j] == x || rest[j] in xs[1..];
      }
    }
  }

  /** Ranking keeps different ids different. */
  lemma {:induction false} RankedDistinct<T>(score: T -> real, id: T -> int, xs: seq<T>)
    requires Distinct(id, xs)
    ensures Distinct(id, Ranked(score, xs))
  {
    if xs != [] {
      var front, last := xs[..|xs| - 1], xs[|xs| - 1];
      RankedDistinct(score, id, front);
      forall y <- Ranked(score, front) ensures id(y) != id(last) {
        assert y in multiset(front);
        var i :| 0 <= i < |front| && front[i] == y;
        assert xs[i] == y;
      }
      InsertDistinct(score, id, last, Ranked(score, front));
    }
  }
}
