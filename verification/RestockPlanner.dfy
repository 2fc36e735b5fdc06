/** Choosing the one dead-stock donor that may cover a restock shortage. */
module RestockPlanner {
  import opened Wrappers

  datatype Donor = Donor(warehouseId: int, available: int, reorderThreshold: int)

  datatype Scored = Scored(warehouseId: int, safeSurplus: int, halfSafeSurplus: int, transferQuantity: int)

  // ---- the policy ---------------------------------------------------------

  function Surplus(d: Donor): int {
    d.available - d.reorderThreshold
  }

  predicate HasRoom(capacity: Option<int>, quantity: int) {
    capacity.Some? ==> quantity <= capacity.value
  }

  /** One donor can give the whole need out of half its surplus, into the room there is. */
  predicate CoversAlone(d: Donor, need: int, capacity: Option<int>) {
    0 < need && 2 * need <= Surplus(d) && HasRoom(capacity, need)
  }

  /** The larger surplus, or on equal surpluses the lower warehouse id. */
  predicate Beats(a: Donor, b: Donor) {
    Surplus(a) > Surplus(b) || (Surplus(a) == Surplus(b) && a.warehouseId < b.warehouseId)
  }

  /** `d` covers the need alone and no donor that does beats it. */
  predicate Best(d: Donor, donors: seq<Donor>, need: int, capacity: Option<int>) {
    && d in donors && CoversAlone(d, need, capacity)
    && forall e <- donors :: CoversAlone(e, need, capacity) ==> !Beats(e, d)
  }

  // ---- _select_restock_dead_stock_donor() ---------------------------------

  function Least(a: int, b: int): int {
    if a <= b then a else b
  }

  /** The quantity the loop computes for a candidate. */
  function Transferable(d: Donor, need: int, capacity: Option<int>): int {
    var half := Least(Surplus(d) / 2, need);
    if capacity.Some? then Least(half, capacity.value) else half
  }

  function ScoreOf(d: Donor, need: int, capacity: Option<int>): Scored {
    Scored(d.warehouseId, Surplus(d), Surplus(d) / 2, Transferable(d, need, capacity))
  }

  /** The winner, if any, and every candidate that could give something. The winner gives
      the whole need and stays above its own threshold by at least as much again. */
  method SelectDonor(donors: seq<Donor>, need: int, capacity: Option<int>)
    returns (winner: Option<Scored>, scored: seq<Scored>)
    ensures winner.Some? <==> exists d <- donors :: CoversAlone(d, need, capacity)
    ensures winner.Some? ==>
      exists d <- donors :: Best(d, donors, need, capacity) && winner.value == ScoreOf(d, need, capacity)
    ensures winner.Some? ==>
      && winner.value.transferQuantity == need && HasRoom(capacity, need)
      && winner.value.safeSurplus - need >= need
    ensures winner.Some? ==> forall d <- donors ::
      0 < need && 2 * need <= d.available - d.reorderThreshold && (capacity.Some? ==> need <= capacity.value) ==>
        || winner.value.safeSurplus > d.available - d.reorderThreshold
        || (winner.value.safeSurplus == d.available - d.reorderThreshold && winner.value.warehouseId <= d.warehouseId)
    ensures ScoredAre(scored, donors, need, capacity)
  {
    scored := [];
    winner := None;
    ghost var best := Donor(0, 0, 0);
    assert donors[..0] == [];
    for n := 0 to |donors|
      invariant ScoredAre(scored, donors[..n], need, capacity)
      invariant winner.None? ==> forall d <- donors[..n] :: !CoversAlone(d, need, capacity)
      invariant winner.Some? ==> winner.value == ScoreOf(best, need, capacity) && Best(best, donors[..n], need, capacity)
    {
      var candidate := donors[n];
      assert donors[..n + 1] == donors[..n] + [candidate];
      var entry := Score(candidate, need, capacity);
      if entry.Some? {
        scored := scored + [entry.value];
        if entry.value.transferQuantity == need && (winner.None? || Precedes(entry.value, winner.value)) {
          winner, best := entry, candidate;
        }
      }
    }
    assert donors[..|donors|] == donors;
    if winner.Some? {
      BestIsLargest(best, donors, need, capacity);
    }
  }

  lemma BestIsLargest(best: Donor, donors: seq<Donor>, need: int, capacity: Option<int>)
    requires Best(best, donors, need, capacity)
    ensures forall d <- donors ::
      0 < need && 2 * need <= d.available - d.reorderThreshold && (capacity.Some? ==> need <= capacity.value) ==>
        || Surplus(best) > d.available - d.reorderThreshold
        || (Surplus(best) == d.available - d.reorderThreshold && best.warehouseId <= d.warehouseId)
  {
    forall d <- donors | CoversAlone(d, need, capacity) ensures !Beats(d, best) {}
  }

  ghost predicate ScoredAre(scored: seq<Scored>, donors: seq<Donor>, need: int, capacity: Option<int>) {
    forall x :: x in scored <==> exists d <- donors :: GivesSomething(d, need, capacity) && x == ScoreOf(d, need, capacity)
  }

  /** One turn of the loop: the candidate's entry, unless it is skipped. */
  method Score(candidate: Donor, need: int, capacity: Option<int>) returns (entry: Option<Scored>)
    ensures entry == if GivesSomething(candidate, need, capacity) then Some(ScoreOf(candidate, need, capacity)) else None
    ensures CoversAlone(candidate, need, capacity) <==> entry.Some? && entry.value.transferQuantity == need
  {
    var safeSurplus := candidate.available - candidate.reorderThreshold;
    if safeSurplus <= 0 { return None; }
    var half := safeSurplus / 2;
    if half <= 0 { return None; }
    var quantity := if half < need then half else need;
    if capacity.Some? && capacity.value < quantity { quantity := capacity.value; }
    if quantity <= 0 { return None; }
    return Some(Scored(candidate.warehouseId, safeSurplus, half, quantity));
  }

  /** The sort key: surplus descending, then warehouse id. */
  predicate Precedes(a: Scored, b: Scored) {
    a.safeSurplus > b.safeSurplus || (a.safeSurplus == b.safeSurplus && a.warehouseId < b.warehouseId)
  }

  predicate GivesSomething(d: Donor, need: int, capacity: Option<int>) {
    Surplus(d) >= 2 && Transferable(d, need, capacity) > 0
  }

  /** The choice does not depend on the order of the candidates. */
  lemma BestIsUnique(a: Donor, b: Donor, donors: seq<Donor>, others: seq<Donor>, need: int, capacity: Option<int>)
    requires forall i, j :: 0 <= i < j < |donors| ==> donors[i].warehouseId != donors[j].warehouseId
    requires multiset(donors) == multiset(others)
    requires Best(a, donors, need, capacity) && Best(b, others, need, capacity)
    ensures a == b
  {
    assert b in multiset(donors) && a in multiset(others);
    assert !Beats(b, a) && !Beats(a, b);
    var i :| 0 <= i < |donors| && donors[i] == a;
    var j :| 0 <= j < |donors| && donors[j] == b;
  }

  /** A scored quantity is the largest that is at most half the surplus, the need and the room. */
  lemma ScoredIsLargest(d: Donor, need: int, capacity: Option<int>, quantity: int)
    ensures
      var x := ScoreOf(d, need, capacity);
      && x.warehouseId == d.warehouseId && x.safeSurplus == d.available - d.reorderThreshold
      && (quantity <= x.transferQuantity <==>
            2 * quantity <= x.safeSurplus && quantity <= need && (capacity.Some? ==> quantity <= capacity.value))
  {
  }

  /** The second result is not quite every candidate with a positive surplus, as its
      description has it: it is so exactly when no positive surplus is a single unit
      and, if any candidate has one, both need and room are positive. */
  lemma ScoredAsDescribed(donors: seq<Donor>, need: int, capacity: Option<int>)
    ensures (forall d <- donors :: Surplus(d) > 0 ==> GivesSomething(d, need, capacity))
       <==> forall d <- donors :: Surplus(d) > 0 ==>
              Surplus(d) != 1 && need > 0 && (capacity.Some? ==> capacity.value > 0)
  {
    forall d <- donors | Surplus(d) > 0
      ensures GivesSomething(d, need, capacity) <==>
        Surplus(d) != 1 && need > 0 && (capacity.Some? ==> capacity.value > 0)
    {
    }
  }

  /** One unit above the threshold, or a full destination: a positive surplus, and an
      empty list all the same. */
  lemma DescriptionFails(scored: seq<Scored>)
    ensures Surplus(Donor(1, 11, 10)) == 1
    ensures ScoredAre(scored, [Donor(1, 11, 10)], 5, None) ==> scored == []
    ensures Surplus(Donor(1, 30, 10)) == 20
    ensures ScoredAre(scored, [Donor(1, 30, 10)], 5, Some(0)) ==> scored == []
  {
    if scored != [] {
      assert scored[0] in scored;
    }
  }

  // ---- recommend_restock_fix() --------------------------------------------

  datatype Action = TransferIn | OrderFromSupplier | NoSolution

  /** Why a purchase: no donor at all, none that can give anything, no room, or none big enough. */
  datatype Reason = Transferred | NoDeadStock | NothingSafe | NoRoom | NoneCovers

  datatype Plan = Plan(action: Action, source: Option<int>, transferQuantity: int, purchaseQuantity: int, reason: Reason)

  /** The decision part: one whole transfer or one whole purchase. */
  method RecommendRestock(donors: seq<Donor>, need: int, capacity: Option<int>, supplierRanked: bool)
    returns (plan: Plan)
    ensures plan.transferQuantity + plan.purchaseQuantity == need
    ensures plan.action == TransferIn <==> exists d <- donors :: CoversAlone(d, need, capacity)
    ensures plan.action == TransferIn ==> plan.purchaseQuantity == 0 && plan.reason == Transferred
    ensures plan.action == TransferIn ==>
      exists d <- donors :: Best(d, donors, need, capacity) && plan.source == Some(d.warehouseId)
    ensures plan.action != TransferIn ==>
      plan.transferQuantity == 0 && plan.source.None? && (plan.action == OrderFromSupplier <==> supplierRanked)
    ensures plan.reason == NoDeadStock <==> donors == []
    ensures plan.reason == NothingSafe <==> donors != [] && forall d <- donors :: !GivesSomething(d, need, capacity)
    ensures plan.reason == NoRoom <==>
      exists d <- donors :: GivesSomething(d, need, capacity) && ShortOfRoom(Surplus(d) / 2, need, capacity)
  {
    var winner, scored := SelectDonor(donors, need, capacity);
    if winner.Some? {
      return Plan(TransferIn, Some(winner.value.warehouseId), winner.value.transferQuantity, 0, Transferred);
    }
    NothingScored(donors, scored, need, capacity);
    RoomByScore(donors, scored, need, capacity);
    var reason := PurchaseReason(donors, scored, need, capacity);
    return Plan(if supplierRanked then OrderFromSupplier else NoSolution, None, 0, need, reason);
  }

  lemma NothingScored(donors: seq<Donor>, scored: seq<Scored>, need: int, capacity: Option<int>)
    requires ScoredAre(scored, donors, need, capacity)
    ensures scored == [] <==> forall d <- donors :: !GivesSomething(d, need, capacity)
  {
    forall d <- donors | GivesSomething(d, need, capacity) ensures scored != [] {
      assert ScoreOf(d, need, capacity) in scored;
    }
    if scored != [] {
      assert scored[0] in scored;
    }
  }

  /** The destination has no room for the need, though a half surplus would fill what room there is. */
  predicate ShortOfRoom(half: int, need: int, capacity: Option<int>) {
    capacity.Some? && capacity.value < need && capacity.value <= half
  }

  lemma RoomByScore(donors: seq<Donor>, scored: seq<Scored>, need: int, capacity: Option<int>)
    requires ScoredAre(scored, donors, need, capacity)
    ensures (exists x <- scored :: ShortOfRoom(x.halfSafeSurplus, need, capacity)) <==>
      exists d <- donors :: GivesSomething(d, need, capacity) && ShortOfRoom(Surplus(d) / 2, need, capacity)
    ensures forall x <- scored :: FromDonor(x, need, capacity)
  {
    if d :| d in donors && GivesSomething(d, need, capacity) && ShortOfRoom(Surplus(d) / 2, need, capacity) {
      assert ScoreOf(d, need, capacity) in scored;
    }
  }

  /** How an entry's figures hang together. */
  predicate FromDonor(x: Scored, need: int, capacity: Option<int>) {
    && x.halfSafeSurplus == x.safeSurplus / 2
    && x.transferQuantity == (if capacity.Some? then Least(Least(x.halfSafeSurplus, need), capacity.value)
                              else Least(x.halfSafeSurplus, need))
  }

  /** `max(..., key=(transferQuantity, safeSurplus))` */
  predicate Richer(a: Scored, b: Scored) {
    a.transferQuantity > b.transferQuantity || (a.transferQuantity == b.transferQuantity && a.safeSurplus > b.safeSurplus)
  }

  method PurchaseReason(donors: seq<Donor>, scored: seq<Scored>, need: int, capacity: Option<int>) returns (r: Reason)
    requires donors == [] ==> scored == []
    requires forall x <- scored :: FromDonor(x, need, capacity)
    ensures r != Transferred
    ensures r == NoDeadStock <==> donors == []
    ensures r == NothingSafe <==> donors != [] && scored == []
    ensures r == NoRoom <==> donors != [] && exists x <- scored :: ShortOfRoom(x.halfSafeSurplus, need, capacity)
  {
    if donors == [] { return NoDeadStock; }
    if scored == [] { return NothingSafe; }
    var best := scored[0];
    for n := 1 to |scored|
      invariant best in scored && forall i :: 0 <= i < n ==> !Richer(scored[i], best)
    {
      if Richer(scored[n], best) {
        best := scored[n];
      }
    }
    if capacity.Some? && capacity.value < need && capacity.value <= best.halfSafeSurplus { return NoRoom; }
    return NoneCovers;
  }
}
