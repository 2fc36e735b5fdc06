/** Rows are taken in one order (the claimed row, then stock rows ascending by
    warehouse and product) and held to the end, so callers never wait in a circle. */
module LockOrder {
  import opened Wrappers
  import opened StockOrder
  import opened InventoryTables
  import opened InventoryRuns
  import opened CallerTouches
  import opened ConcurrentCalls

  /** The stock row a caller needs next. */
  predicate Needs(t: Tables, c: Caller, k: StockKey) {
    && c.phase.Holding? && Claimable(t, c.intent)
    && c.phase.taken < |Touches(t, c.intent)| && Touches(t, c.intent)[c.phase.taken].row == k
  }

  /** Caller `i` cannot go on until caller `j` ends. */
  predicate Waits(w: World, i: nat, j: nat) {
    && i < |w.callers| && j < |w.callers| && i != j && w.callers[j].phase.Holding?
    && (if w.callers[i].phase.Waiting?
        then TargetOf(w.callers[i].intent) == TargetOf(w.callers[j].intent) && !TargetOf(w.callers[i].intent).NoRow?
        else exists k <- w.callers[j].writes :: Needs(w.tables, w.callers[i], k))
  }

  /** A caller that has all its rows. */
  predicate HasAll(t: Tables, c: Caller) {
    c.phase.Holding? && Claimable(t, c.intent) && c.phase.taken >= |Touches(t, c.intent)|
  }

  /** How far a caller has come: to claim, then by its next stock row, then all rows taken. */
  predicate Below(t: Tables, a: Caller, b: Caller) {
    || (a.phase.Waiting? && b.phase.Holding?)
    || (a.phase.Holding? && !HasAll(t, a) && HasAll(t, b))
    || (a.phase.Holding? && b.phase.Holding? && !HasAll(t, a) && !HasAll(t, b)
        && Claimable(t, a.intent) && Claimable(t, b.intent)
        && Before(Touches(t, a.intent)[a.phase.taken].row, Touches(t, b.intent)[b.phase.taken].row))
  }

  lemma RowsAscend(touches: seq<Touch>, m: nat, n: nat)
    requires Ascending(TouchRow, touches) && m < n < |touches|
    ensures Before(touches[m].row, touches[n].row)
  {
    assert Before(TouchRow(touches[m]), TouchRow(touches[n]));
  }

  lemma NextNotHeld(touches: seq<Touch>, n: nat)
    requires Ascending(TouchRow, touches) && n < |touches|
    ensures touches[n].row !in RowsOf(touches[..n])
  {
    forall touch <- touches[..n] ensures touch.row != touches[n].row {
      var m :| 0 <= m < n && touches[m] == touch;
      RowsAscend(touches, m, n);
    }
  }

  lemma HeldBeforeNext(touches: seq<Touch>, n: nat, k: StockKey)
    requires Ascending(TouchRow, touches) && n < |touches| && k in RowsOf(touches[..n])
    ensures Before(k, touches[n].row)
  {
    var touch :| touch in touches[..n] && touch.row == k;
    var m :| 0 <= m < n && touches[m] == touch;
    RowsAscend(touches, m, n);
  }

  /** Waiting for a caller means being behind it. */
  lemma WaitsForOneAhead(w: World, i: nat, j: nat)
    requires TransactionsOk(w.tables) && CallersOk(w) && Waits(w, i, j)
    ensures Below(w.tables, w.callers[i], w.callers[j])
  {
    var a, b := w.callers[i], w.callers[j];
    assert CallerOk(w.tables, b);
    if !a.phase.Waiting? && !HasAll(w.tables, b) {
      var k :| k in b.writes && Needs(w.tables, a, k);
      TouchesAscend(w.tables, b.intent);
      HeldBeforeNext(Touches(w.tables, b.intent), b.phase.taken, k);
    }
  }

  lemma BelowIsTransitive(t: Tables, a: Caller, b: Caller, c: Caller)
    requires Below(t, a, b) && Below(t, b, c)
    ensures Below(t, a, c)
  {
  }

  /** Caller `i` is behind caller `j`. */
  predicate Behind(w: World, i: nat, j: nat) {
    i < |w.callers| && j < |w.callers| && Below(w.tables, w.callers[i], w.callers[j])
  }

  lemma WaitsBehind(w: World, i: nat, j: nat)
    requires TransactionsOk(w.tables) && CallersOk(w) && Waits(w, i, j)
    ensures Behind(w, i, j)
  {
    WaitsForOneAhead(w, i, j);
  }

  lemma BehindIsTransitive(w: World, i: nat, j: nat, k: nat)
    requires Behind(w, i, j) && Behind(w, j, k)
    ensures Behind(w, i, k)
  {
    BelowIsTransitive(w.tables, w.callers[i], w.callers[j], w.callers[k]);
  }

  predicate Chained(w: World, chain: seq<nat>) {
    forall n :: 0 <= n < |chain| - 1 ==> Waits(w, chain[n], chain[n + 1])
  }

  lemma {:induction false} ChainClimbs(w: World, chain: seq<nat>)
    requires TransactionsOk(w.tables) && CallersOk(w) && |chain| >= 2 && Chained(w, chain)
    ensures Behind(w, chain[0], chain[|chain| - 1])
  {
    var last := |chain| - 1;
    assert Waits(w, chain[last - 1], chain[last - 1 + 1]);
    WaitsBehind(w, chain[last - 1], chain[last]);
    if last > 1 {
      ShorterChain(w, chain);
      ChainClimbs(w, chain[..last]);
      BehindIsTransitive(w, chain[0], chain[last - 1], chain[last]);
    }
  }

  lemma ShorterChain(w: World, chain: seq<nat>)
    requires |chain| >= 1 && Chained(w, chain)
    ensures Chained(w, chain[..|chain| - 1])
  {
    var shorter := chain[..|chain| - 1];
    forall n | 0 <= n < |shorter| - 1 ensures Waits(w, shorter[n], shorter[n + 1]) {
      assert Waits(w, chain[n], chain[n + 1]);
    }
  }

  lemma NotBelowItself(t: Tables, a: Caller)
    ensures !Below(t, a, a)
  {
  }

  /** In every interleaving of completions, cancellations, updates, sales, transfers
      and approvals, no chain of waiting callers closes into a circle, whatever rows they share. */
  lemma NoWaitCycle(t: Tables, events: seq<Event>, chain: seq<nat>)
    requires Sound(t) && |chain| >= 2 && Chained(PerformAll(Start(t), events), chain)
    ensures chain[0] != chain[|chain| - 1]
  {
    InterleavingsAreSerial(t, events);
    var w := PerformAll(Start(t), events);
    ChainClimbs(w, chain);
    NotBelowItself(w.tables, w.callers[chain[0]]);
  }

  /** Caller `j` can take its next step. */
  predicate CanMove(w: World, j: nat) {
    j < |w.callers| && (Enabled(w, Claim(j)) || Enabled(w, Lock(j)) || Enabled(w, Check(j)) || Enabled(w, Commit(j)))
  }

  /** Callers ahead of `c`. */
  function Ahead(w: World, c: Caller): set<nat> {
    set j: nat | j < |w.callers| && Below(w.tables, c, w.callers[j])
  }

  /** Following the waits from any caller leads to one that can go on. */
  lemma {:induction false} SomeoneMoves(w: World, i: nat) returns (j: nat)
    requires TransactionsOk(w.tables) && CallersOk(w)
    requires i < |w.callers| && (w.callers[i].phase.Waiting? || w.callers[i].phase.Holding?)
    ensures CanMove(w, j)
    decreases |Ahead(w, w.callers[i])|
  {
    var c := w.callers[i];
    assert CallerOk(w.tables, c);
    if j' :| 0 <= j' < |w.callers| && Waits(w, i, j') {
      WaitsForOneAhead(w, i, j');
      FewerAhead(w, c, j');
      j := SomeoneMoves(w, j');
    } else {
      j := i;
      FreeToMove(w, i);
    }
  }

  lemma FewerAhead(w: World, c: Caller, j: nat)
    requires j < |w.callers| && Below(w.tables, c, w.callers[j])
    ensures |Ahead(w, w.callers[j])| < |Ahead(w, c)|
  {
    forall x <- Ahead(w, w.callers[j]) ensures x in Ahead(w, c) {
      BelowIsTransitive(w.tables, c, w.callers[j], w.callers[x]);
    }
    NotBelowItself(w.tables, w.callers[j]);
    assert j in Ahead(w, c) && j !in Ahead(w, w.callers[j]);
    Smaller(Ahead(w, w.callers[j]), Ahead(w, c), j);
  }

  lemma Smaller(a: set<nat>, b: set<nat>, x: nat)
    requires a <= b && x in b && x !in a
    ensures |a| < |b|
  {
    assert a <= b - {x};
    Subset(a, b - {x});
  }

  lemma {:induction false} Subset(a: set<nat>, b: set<nat>)
    requires a <= b
    ensures |a| <= |b|
    decreases |a|
  {
    if x :| x in a {
      Subset(a - {x}, b - {x});
    }
  }

  lemma FreeToMove(w: World, i: nat)
    requires TransactionsOk(w.tables) && i < |w.callers| && CallerOk(w.tables, w.callers[i])
    requires w.callers[i].phase.Waiting? || w.callers[i].phase.Holding?
    requires forall j :: 0 <= j < |w.callers| ==> !Waits(w, i, j)
    ensures CanMove(w, i)
  {
    var c := w.callers[i];
    if c.phase.Waiting? {
      ClaimIsFree(w, i);
    } else if c.phase.checked < c.phase.taken {
      assert Enabled(w, Check(i));
    } else if HasAll(w.tables, c) {
      assert Enabled(w, Commit(i));
    } else {
      NextIsFree(w, i);
      assert Enabled(w, Lock(i));
    }
  }

  lemma ClaimIsFree(w: World, i: nat)
    requires i < |w.callers| && w.callers[i].phase.Waiting?
    requires forall j :: 0 <= j < |w.callers| ==> !Waits(w, i, j)
    ensures Enabled(w, Claim(i))
  {
    forall j | 0 <= j < |w.callers| && w.callers[j].phase.Holding? && !TargetOf(w.callers[i].intent).NoRow?
      ensures TargetOf(w.callers[j].intent) != TargetOf(w.callers[i].intent)
    {
      assert !Waits(w, i, j);
    }
  }

  lemma NextIsFree(w: World, i: nat)
    requires TransactionsOk(w.tables) && i < |w.callers| && w.callers[i].phase.Holding?
    requires CallerOk(w.tables, w.callers[i]) && !HasAll(w.tables, w.callers[i])
    requires forall j :: 0 <= j < |w.callers| ==> !Waits(w, i, j)
    ensures !StockHeld(w, Touches(w.tables, w.callers[i].intent)[w.callers[i].phase.taken].row)
  {
    var c := w.callers[i];
    var touches := Touches(w.tables, c.intent);
    var k := touches[c.phase.taken].row;
    assert Needs(w.tables, c, k);
    forall j | 0 <= j < |w.callers| && w.callers[j].phase.Holding? ensures k !in w.callers[j].writes {
      if j == i {
        TouchesAscend(w.tables, c.intent);
        NextNotHeld(touches, c.phase.taken);
      } else {
        assert !Waits(w, i, j);
      }
    }
  }

  /** In every interleaving, while any caller is unfinished some caller can take
      its next step: nobody is ever stuck behind rows that are not given up. */
  lemma NoDeadlock(t: Tables, events: seq<Event>, i: nat)
    requires Sound(t) && i < |PerformAll(Start(t), events).callers|
    requires
      var c := PerformAll(Start(t), events).callers[i];
      c.phase.Waiting? || c.phase.Holding?
    ensures exists j :: CanMove(PerformAll(Start(t), events), j)
  {
    InterleavingsAreSerial(t, events);
    var j := SomeoneMoves(PerformAll(Start(t), events), i);
  }
}
