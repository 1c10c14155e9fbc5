/**
 * The signal handlers of the domain layer: the loan's `completed` flag kept
 * in step with its remaining amount, a report's totals recomputed from the
 * month's transactions, and a report marked dirty when a transaction of its
 * month is written or deleted.
 */
module Signals {
  import opened Common
  import opened Calendar
  import opened TransactionModel
  import opened ReportModel
  import opened LoanModel
  import opened Store

  // ---------------------------------------------------------------------
  // sync_completed_and_remaining (pre_save of Loan)
  // ---------------------------------------------------------------------

  /** A loan with nothing remaining is completed; a completed loan has
      nothing remaining. */
  function SyncCompletedAndRemaining(l: Loan): (s: Loan)
    ensures s.completed <==> s.remainingAmount == 0
    ensures s.(completed := l.completed, remainingAmount := l.remainingAmount) == l
    ensures l.completed ==> s.completed
    ensures l.remainingAmount >= 0 ==> 0 <= s.remainingAmount <= l.remainingAmount
    ensures l.remainingAmount != 0 && !l.completed ==> s == l
  {
    if l.remainingAmount == 0 then l.(completed := true)
    else if l.completed then l.(remainingAmount := 0)
    else l
  }

  /** Running the hook on its own output changes nothing. */
  lemma SyncIdempotent(l: Loan)
    ensures SyncCompletedAndRemaining(SyncCompletedAndRemaining(l)) == SyncCompletedAndRemaining(l)
  {
  }

  // ---------------------------------------------------------------------
  // last_day_of_month and the month's date range
  // ---------------------------------------------------------------------

  /** The first day of a month. */
  function MonthStart(year: int, month: int): (d: ValidDate)
    requires 1 <= year <= 9999 && 1 <= month <= 12
    ensures d.year == year && d.month == month && d.day == 1
  {
    Date(year, month, 1)
  }

  /** `last_day_of_month`: the last day of the month, after which no
      valid date of the month comes. */
  function LastDayOfMonth(year: int, month: int): (d: ValidDate)
    requires 1 <= year <= 9999 && 1 <= month <= 12
    ensures d.year == year && d.month == month && d.day == DaysInMonth(year, month)
    ensures forall e: Date :: IsValidDate(e) && e.year == year && e.month == month ==> NotAfter(e, d)
  {
    Date(year, month, DaysInMonth(year, month))
  }

  /** February has 29 days exactly in leap years; the other months have
      30 or 31. */
  lemma MonthLengths(year: int, month: int)
    requires 1 <= year <= 9999 && 1 <= month <= 12
    ensures month == 2 ==> (LastDayOfMonth(year, month).day == 29 <==> IsLeapYear(year))
    ensures month == 2 ==> 28 <= LastDayOfMonth(year, month).day <= 29
    ensures month != 2 ==> 30 <= LastDayOfMonth(year, month).day <= 31
  {
  }

  /** `date__range=(start_date, end_date)`: both ends included. */
  predicate InMonthRange(d: Date, year: int, month: int)
    requires 1 <= year <= 9999 && 1 <= month <= 12
  {
    NotAfter(MonthStart(year, month), d) && NotAfter(d, LastDayOfMonth(year, month))
  }

  /** A valid date lies in the range of a month exactly when it is a day
      of that month. */
  lemma InMonthRangeIff(d: ValidDate, year: int, month: int)
    requires 1 <= year <= 9999 && 1 <= month <= 12
    ensures InMonthRange(d, year, month) <==> d.year == year && d.month == month
  {
  }

  // ---------------------------------------------------------------------
  // calculate_total (pre_save of Report)
  // ---------------------------------------------------------------------

  /** A transaction the month's aggregate of one type counts. */
  predicate Counted(t: Transaction, user: Option<UserId>, year: int, month: int, kind: TransactionType)
    requires 1 <= year <= 9999 && 1 <= month <= 12
  {
    t.user == user && t.kind == kind && InMonthRange(t.date, year, month)
  }

  /** `Sum("amount")` over the counted transactions with keys below
      `bound`, or 0 when there are none. */
  function SumMonth(txs: map<Id, Transaction>, user: Option<UserId>, year: int, month: int,
                    kind: TransactionType, bound: nat): int
    requires 1 <= year <= 9999 && 1 <= month <= 12
    decreases bound
  {
    if bound == 0 then 0
    else
      var k := bound - 1;
      SumMonth(txs, user, year, month, kind, k)
        + (if k in txs && Counted(txs[k], user, year, month, kind) then txs[k].amount else 0)
  }

  /** With no counted transaction the aggregate is 0 (`or 0`). */
  lemma {:induction false} SumMonthEmpty(txs: map<Id, Transaction>, user: Option<UserId>, year: int, month: int,
                                         kind: TransactionType, bound: nat)
    requires 1 <= year <= 9999 && 1 <= month <= 12
    requires forall k :: k in txs && k < bound ==> !Counted(txs[k], user, year, month, kind)
    ensures SumMonth(txs, user, year, month, kind, bound) == 0
    decreases bound
  {
    if bound > 0 {
      SumMonthEmpty(txs, user, year, month, kind, bound - 1);
    }
  }

  /** With positive amounts (the `transaction_amount_positive` constraint)
      the aggregate is never negative. */
  lemma {:induction false} SumMonthNonNegative(txs: map<Id, Transaction>, user: Option<UserId>, year: int, month: int,
                                               kind: TransactionType, bound: nat)
    requires 1 <= year <= 9999 && 1 <= month <= 12
    requires forall k :: k in txs ==> txs[k].amount > 0
    ensures SumMonth(txs, user, year, month, kind, bound) >= 0
    decreases bound
  {
    if bound > 0 {
      SumMonthNonNegative(txs, user, year, month, kind, bound - 1);
    }
  }

  /** Once the bound is past every key, raising it changes nothing: the
      aggregate covers the whole table. */
  lemma {:induction false} SumMonthCoversTable(txs: map<Id, Transaction>, user: Option<UserId>, year: int, month: int,
                                               kind: TransactionType, bound: nat, larger: nat)
    requires 1 <= year <= 9999 && 1 <= month <= 12
    requires bound <= larger
    requires forall k :: k in txs ==> k < bound
    ensures SumMonth(txs, user, year, month, kind, larger) == SumMonth(txs, user, year, month, kind, bound)
    decreases larger
  {
    if larger > bound {
      SumMonthCoversTable(txs, user, year, month, kind, bound, larger - 1);
    }
  }

  /** Writing one more transaction adds its amount to the aggregate when it
      is counted, and nothing otherwise. */
  lemma {:induction false} SumMonthInsert(txs: map<Id, Transaction>, user: Option<UserId>, year: int, month: int,
                                          kind: TransactionType, bound: nat, id: Id, t: Transaction)
    requires 1 <= year <= 9999 && 1 <= month <= 12
    requires id !in txs && id < bound
    ensures SumMonth(txs[id := t], user, year, month, kind, bound)
         == SumMonth(txs, user, year, month, kind, bound) + (if Counted(t, user, year, month, kind) then t.amount else 0)
    decreases bound
  {
    var k := bound - 1;
    if k == id {
      SumMonthAgree(txs[id := t], txs, user, year, month, kind, k);
    } else {
      SumMonthInsert(txs, user, year, month, kind, k, id, t);
    }
  }

  /** Two tables that agree below `bound` have the same aggregate. */
  lemma {:induction false} SumMonthAgree(a: map<Id, Transaction>, b: map<Id, Transaction>, user: Option<UserId>,
                                         year: int, month: int, kind: TransactionType, bound: nat)
    requires 1 <= year <= 9999 && 1 <= month <= 12
    requires forall k :: k < bound ==> (k in a <==> k in b)
    requires forall k :: k < bound && k in a ==> a[k] == b[k]
    ensures SumMonth(a, user, year, month, kind, bound) == SumMonth(b, user, year, month, kind, bound)
    decreases bound
  {
    if bound > 0 {
      SumMonthAgree(a, b, user, year, month, kind, bound - 1);
    }
  }

  /** `calculate_total`: both totals recomputed from the month's
      transactions of the report's user; the dirty flag is left as it is. */
  function CalculateTotal(r: Report, txs: map<Id, Transaction>, bound: nat): (c: Report)
    requires 1 <= r.year <= 9999 && 1 <= r.month <= 12
    ensures c.(totalCredit := r.totalCredit, totalDebit := r.totalDebit) == r
    ensures c.totalCredit == SumMonth(txs, r.user, r.year, r.month, Credit, bound)
    ensures c.totalDebit == SumMonth(txs, r.user, r.year, r.month, Debit, bound)
  {
    r.(totalCredit := SumMonth(txs, r.user, r.year, r.month, Credit, bound),
       totalDebit := SumMonth(txs, r.user, r.year, r.month, Debit, bound))
  }

  /** The balance effects of the month's transactions of `user`, added up. */
  function MonthEffect(txs: map<Id, Transaction>, user: Option<UserId>, year: int, month: int, bound: nat): int
    requires 1 <= year <= 9999 && 1 <= month <= 12
    decreases bound
  {
    if bound == 0 then 0
    else
      var k := bound - 1;
      MonthEffect(txs, user, year, month, k)
        + (if k in txs && txs[k].user == user && InMonthRange(txs[k].date, year, month)
           then Effect(txs[k].kind, txs[k].amount) else 0)
  }

  /** Credits minus debits of the month. */
  lemma {:induction false} SumsGiveEffect(txs: map<Id, Transaction>, user: Option<UserId>, year: int, month: int, bound: nat)
    requires 1 <= year <= 9999 && 1 <= month <= 12
    ensures SumMonth(txs, user, year, month, Credit, bound) - SumMonth(txs, user, year, month, Debit, bound)
         == MonthEffect(txs, user, year, month, bound)
    decreases bound
  {
    if bound > 0 {
      SumsGiveEffect(txs, user, year, month, bound - 1);
    }
  }

  /** After `calculate_total` the report's net balance is what the month's
      transactions did to the user's fund accounts. */
  lemma NetBalanceIsMonthEffect(r: Report, txs: map<Id, Transaction>, bound: nat)
    requires 1 <= r.year <= 9999 && 1 <= r.month <= 12
    ensures NetBalance(CalculateTotal(r, txs, bound)) == MonthEffect(txs, r.user, r.year, r.month, bound)
  {
    SumsGiveEffect(txs, r.user, r.year, r.month, bound);
  }

  // ---------------------------------------------------------------------
  // Marking a month's report dirty
  // ---------------------------------------------------------------------

  /** The report of `user` for the month. */
  predicate ReportOf(p: Report, user: Option<UserId>, year: int, month: int)
  {
    p.user == user && p.year == year && p.month == month
  }

  /** `Report.objects.filter(user=..., year=..., month=...).first()`: the
      matching report of least key below `bound` (the model has no
      ordering, so `first()` orders by key). */
  function FindReport(reports: map<Id, Report>, user: Option<UserId>, year: int, month: int, bound: nat): (k: Option<Id>)
    ensures k.Some? ==> k.value < bound && k.value in reports && ReportOf(reports[k.value], user, year, month)
    ensures k.Some? ==> forall j :: j < k.value && j in reports ==> !ReportOf(reports[j], user, year, month)
    ensures k.None? ==> forall j :: j < bound && j in reports ==> !ReportOf(reports[j], user, year, month)
    decreases bound
  {
    if bound == 0 then None
    else
      var found := FindReport(reports, user, year, month, bound - 1);
      if found.Some? then found
      else if bound - 1 in reports && ReportOf(reports[bound - 1], user, year, month) then Some(bound - 1)
      else None
  }

  /** The effect of one dirty-marking handler on the reports: the month's
      report, if any, gets `is_dirty` set and nothing else changes. */
  function MarkDirty(reports: map<Id, Report>, user: Option<UserId>, year: int, month: int, bound: nat): (m: map<Id, Report>)
    ensures m.Keys == reports.Keys
    ensures forall k :: k in reports ==> m[k].(isDirty := reports[k].isDirty) == reports[k]
    ensures forall k :: k in reports && !ReportOf(reports[k], user, year, month) ==> m[k] == reports[k]
    ensures (exists k :: k in reports && k < bound && ReportOf(reports[k], user, year, month))
      ==> exists j :: j in m && ReportOf(m[j], user, year, month) && m[j].isDirty
  {
    var found := FindReport(reports, user, year, month, bound);
    if found.Some? then
      var k := found.value;
      var m := reports[k := reports[k].(isDirty := true)];
      assert ReportOf(m[k], user, year, month) && m[k].isDirty;
      m
    else reports
  }

  /** With one report per user and month, the report that gets marked is
      the one of the month. */
  lemma MarkDirtyMarksTheReport(reports: map<Id, Report>, user: Option<UserId>, year: int, month: int,
                                bound: nat, k: Id)
    requires ReportsUnique(reports)
    requires k in reports && k < bound && ReportOf(reports[k], user, year, month)
    ensures MarkDirty(reports, user, year, month, bound)[k].isDirty
  {
    var found := FindReport(reports, user, year, month, bound);
    assert found.Some?;
    assert found.value == k;
  }

  /** The fields whose change makes a transaction's old month dirty. */
  predicate Changed(before: Transaction, after: Transaction)
  {
    before.amount != after.amount || before.fundAccount != after.fundAccount || before.date != after.date
  }

  /** The effect on the reports of `mark_report_dirty_on_transaction_update`
      for the instance about to be saved under `pk`. */
  function MarkDirtyOnUpdate(reports: map<Id, Report>, txs: map<Id, Transaction>, pk: Id,
                             instance: Transaction, bound: nat): (m: map<Id, Report>)
    ensures pk !in txs ==> m == reports
    ensures pk in txs && !Changed(txs[pk], instance) ==> m == reports
    ensures pk in txs && Changed(txs[pk], instance)
      ==> m == MarkDirty(reports, txs[pk].user, txs[pk].date.year, txs[pk].date.month, bound)
  {
    if pk in txs && Changed(txs[pk], instance) then
      MarkDirty(reports, txs[pk].user, txs[pk].date.year, txs[pk].date.month, bound)
    else reports
  }

  /** A change of type or description alone marks nothing. */
  lemma TypeOrDescriptionChangeMarksNothing(reports: map<Id, Report>, txs: map<Id, Transaction>, pk: Id,
                                            kind: TransactionType, description: Option<string>, bound: nat)
    requires pk in txs
    ensures MarkDirtyOnUpdate(reports, txs, pk, txs[pk].(kind := kind, description := description), bound) == reports
  {
  }

  /** `mark_report_dirty_on_transaction_change` (post_save and post_delete
      of Transaction), for the instance's user and date. Saving the report
      with `update_fields=['is_dirty']` writes that column only, so the
      totals `calculate_total` computes on the way are not stored. */
  method MarkReportDirtyOnTransactionChange(db: Database, user: Option<UserId>, date: Date)
    requires db.Valid()
    modifies db
    ensures db.reports == MarkDirty(old(db.reports), user, date.year, date.month, db.nextId)
    ensures db.State() == old(db.State()).(reports := db.reports)
    ensures db.nextId == old(db.nextId)
    ensures db.Valid()
  {
    var found := FindReport(db.reports, user, date.year, date.month, db.nextId);
    if found.Some? {
      var report := db.reports[found.value];
      report := report.(isDirty := true);
      db.reports := db.reports[found.value := report];
    }
  }

  /** `mark_report_dirty_on_transaction_update` (pre_save of Transaction):
      when a stored transaction's amount, fund account or date is about to
      change, the report of its old month is marked dirty. */
  method MarkReportDirtyOnTransactionUpdate(db: Database, pk: Id, instance: Transaction)
    requires db.Valid()
    modifies db
    ensures db.reports == MarkDirtyOnUpdate(old(db.reports), old(db.transactions), pk, instance, db.nextId)
    ensures db.State() == old(db.State()).(reports := db.reports)
    ensures db.nextId == old(db.nextId)
    ensures db.Valid()
  {
    var oldInstance := if pk in db.transactions then Some(db.transactions[pk]) else None;
    if oldInstance.Some? && Changed(oldInstance.value, instance) {
      var d := oldInstance.value.date;
      var found := FindReport(db.reports, oldInstance.value.user, d.year, d.month, db.nextId);
      if found.Some? {
        var report := db.reports[found.value];
        report := report.(isDirty := true);
        db.reports := db.reports[found.value := report];
      }
    }
  }
}
