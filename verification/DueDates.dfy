/** Which PENDING transactions are upcoming and which overdue, by UTC calendar day. */
module DueDates {
  import opened Wrappers
  import opened InventoryTables

  const DayMs: int := 24 * 60 * 60 * 1000

  /** The UTC day of an instant in milliseconds since 1970, also for instants before. */
  function DayOf(instant: int): (d: int)
    ensures d * 86_400_000 <= instant < (d + 1) * 86_400_000
  {
    instant / DayMs
  }

  /** `Date.UTC(year, month, date)` of the reference instant. */
  function StartOfDay(instant: int): int {
    DayOf(instant) * DayMs
  }

  predicate PendingDated(t: Tables, id: nat) {
    IsPending(t, id) && t.transactions[id].expectedDate.Some?
  }

  /** getUpcomingDeliveries() */
  function Upcoming(t: Tables, windowDays: int, reference: int): Result<set<nat>, Error> {
    if windowDays < 0 then Err(BadRequest)
    else
      var start := StartOfDay(reference);
      var end := start + (windowDays + 1) * DayMs - 1;
      Ok(set id: nat | id < |t.transactions| && PendingDated(t, id)
                       && start <= t.transactions[id].expectedDate.value <= end)
  }

  /** getOverdueTransactions() */
  function Overdue(t: Tables, reference: int): set<nat> {
    set id: nat | id < |t.transactions| && PendingDated(t, id)
                  && t.transactions[id].expectedDate.value < StartOfDay(reference)
  }

  /** The Python tools' _is_overdue() on one transaction: it compares calendar days. */
  predicate IsOverdue(status: TransactionStatus, expectedDate: Option<int>, reference: int) {
    status == Pending && expectedDate.Some? && DayOf(expectedDate.value) < DayOf(reference)
  }

  function DaysAhead(t: Tables, id: nat, reference: int): int
    requires PendingDated(t, id)
  {
    DayOf(t.transactions[id].expectedDate.value) - DayOf(reference)
  }

  lemma BeforeDay(instant: int, day: int)
    ensures instant < day * DayMs <==> DayOf(instant) < day
  {
  }

  /** Upcoming means due from today to today plus the window, in whole UTC days;
      overdue means due on an earlier day; nothing is both, and a dated PENDING
      transaction that is neither is due after the window. */
  lemma DatedSplitThreeWays(t: Tables, windowDays: nat, reference: int, id: nat)
    ensures id in Upcoming(t, windowDays, reference).value <==>
      PendingDated(t, id) && 0 <= DaysAhead(t, id, reference) <= windowDays
    ensures id in Overdue(t, reference) <==> PendingDated(t, id) && DaysAhead(t, id, reference) < 0
    ensures PendingDated(t, id) ==>
      (id !in Upcoming(t, windowDays, reference).value && id !in Overdue(t, reference)
       <==> DaysAhead(t, id, reference) > windowDays)
  {
    if PendingDated(t, id) {
      var e := t.transactions[id].expectedDate.value;
      BeforeDay(e, DayOf(reference));
      BeforeDay(e, DayOf(reference) + windowDays + 1);
      assert (DayOf(reference) + windowDays + 1) * DayMs == StartOfDay(reference) + (windowDays + 1) * DayMs;
    }
  }

  /** The Python rule and the backend's list agree on every transaction. */
  lemma OverdueRulesAgree(t: Tables, reference: int, id: nat)
    requires id < |t.transactions|
    ensures IsOverdue(t.transactions[id].status, t.transactions[id].expectedDate, reference) <==> id in Overdue(t, reference)
  {
    DatedSplitThreeWays(t, 0, reference, id);
  }
}
