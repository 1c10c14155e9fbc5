/**
 * `Report`: a user's monthly summary of debits and credits. The totals are
 * recomputed whenever the report is saved (see module Signals).
 */
module ReportModel {
  import opened Common
  import opened Calendar
  import opened CustomValidators

  datatype Report = Report(
    user: Option<UserId>,
    year: int,
    month: int,
    totalDebit: int,
    totalCredit: int,
    isDirty: bool)

  /** A report as created with only its month: zero totals, not dirty. */
  function NewReport(user: Option<UserId>, year: int, month: int): (r: Report)
    ensures r.totalDebit == 0 && r.totalCredit == 0 && !r.isDirty
    ensures r.user == user && r.year == year && r.month == month
  {
    Report(user, year, month, 0, 0, false)
  }

  /** What the field declarations and check constraints require: a user, a
      year from 2000 to the current one, a month from 1 to 12, and totals of
      at least 0 that fit fourteen digits before the point. */
  predicate FieldsValid(r: Report, today: ValidDate)
  {
    && r.user.Some?
    && ValidateYear(r.year, today).None?
    && 1 <= r.month <= 12
    && 0 <= r.totalDebit < MaxCents16
    && 0 <= r.totalCredit < MaxCents16
  }

  /** `net_balance`: credits minus debits. */
  function NetBalance(r: Report): (n: int)
    ensures n + r.totalDebit == r.totalCredit
    ensures n >= 0 <==> r.totalCredit >= r.totalDebit
  {
    r.totalCredit - r.totalDebit
  }

  /** `calendar.month_name`: "" at index 0, then the English month names. */
  function MonthName(month: int): (s: string)
    requires 0 <= month <= 12
    ensures s == "" <==> month == 0
  {
    ["", "January", "February", "March", "April", "May", "June", "July",
     "August", "September", "October", "November", "December"][month]
  }

  /** The character of one decimal digit. */
  function DigitChar(d: int): (c: char)
    requires 0 <= d < 10
    ensures '0' <= c <= '9'
  {
    "0123456789"[d]
  }

  /** The value of one decimal digit character. */
  function DigitValue(c: char): (d: int)
    requires '0' <= c <= '9'
    ensures 0 <= d < 10
  {
    c as int - '0' as int
  }

  lemma DigitRoundTrip(d: int)
    requires 0 <= d < 10
    ensures DigitValue(DigitChar(d)) == d
  {
  }

  predicate AllDigits(s: string)
  {
    forall i :: 0 <= i < |s| ==> '0' <= s[i] <= '9'
  }

  /** Python's `str()` of a natural number: its decimal digits, without
      leading zeros. */
  function NatString(n: nat): (s: string)
    ensures |s| >= 1 && AllDigits(s)
    ensures s[0] == '0' ==> n == 0
    decreases n
  {
    if n < 10 then [DigitChar(n)] else NatString(n / 10) + [DigitChar(n % 10)]
  }

  /** The number a string of decimal digits denotes. */
  function DigitsValue(s: string): nat
    requires AllDigits(s)
    decreases |s|
  {
    if s == [] then 0 else DigitsValue(s[..|s| - 1]) * 10 + DigitValue(s[|s| - 1])
  }

  /** Reading back the digits of `n` gives `n`. */
  lemma {:induction false} NatStringRoundTrip(n: nat)
    ensures DigitsValue(NatString(n)) == n
    decreases n
  {
    var s := NatString(n);
    if n < 10 {
      DigitRoundTrip(n);
    } else {
      NatStringRoundTrip(n / 10);
      DigitRoundTrip(n % 10);
      assert s[..|s| - 1] == NatString(n / 10);
    }
  }

  /** Python's `str()` of an integer. */
  function IntString(n: int): (s: string)
    ensures |s| >= 1
    ensures n >= 0 ==> s == NatString(n)
    ensures n < 0 ==> s == "-" + NatString(-n)
  {
    if n < 0 then "-" + NatString(-n) else NatString(n)
  }

  /** `month_year`: the month's name, a comma and a blank, and the year. */
  function MonthYear(r: Report): (s: string)
    requires 0 <= r.month <= 12
    ensures s == MonthName(r.month) + ", " + IntString(r.year)
  {
    MonthName(r.month) + ", " + IntString(r.year)
  }

  /** The report's year can be read back from `month_year`: after the
      month's name and ", " come exactly the decimal digits of the year. */
  lemma MonthYearNamesYear(r: Report)
    requires 1 <= r.month <= 12 && r.year >= 0
    ensures var s := MonthYear(r); var prefix := MonthName(r.month) + ", ";
      && s[..|prefix|] == prefix
      && AllDigits(s[|prefix|..])
      && DigitsValue(s[|prefix|..]) == r.year
  {
    var prefix := MonthName(r.month) + ", ";
    var s := MonthYear(r);
    assert s[|prefix|..] == NatString(r.year);
    NatStringRoundTrip(r.year);
  }

  /** No month name contains a comma. */
  lemma MonthNameHasNoComma(month: int)
    requires 1 <= month <= 12
    ensures forall k :: 0 <= k < |MonthName(month)| ==> MonthName(month)[k] != ','
  {
  }

  /** Distinct months have distinct names. */
  lemma MonthNamesDistinct(m1: int, m2: int)
    requires 1 <= m1 <= 12 && 1 <= m2 <= 12 && m1 != m2
    ensures MonthName(m1) != MonthName(m2)
  {
  }

  /** `month_year` tells reports apart: two reports of valid months with the
      same text have the same month and the same year. */
  lemma {:induction false} MonthYearInjective(r1: Report, r2: Report)
    requires 1 <= r1.month <= 12 && r1.year >= 0
    requires 1 <= r2.month <= 12 && r2.year >= 0
    requires MonthYear(r1) == MonthYear(r2)
    ensures r1.month == r2.month && r1.year == r2.year
  {
    var s := MonthYear(r1);
    var n1 := MonthName(r1.month);
    var n2 := MonthName(r2.month);
    MonthNameHasNoComma(r1.month);
    MonthNameHasNoComma(r2.month);
    // The first comma of the text ends the month's name.
    assert s[|n1|] == ',' && s[|n2|] == ',';
    assert |n1| == |n2| by {
      assert forall k :: 0 <= k < |n1| ==> s[k] == n1[k];
      assert forall k :: 0 <= k < |n2| ==> s[k] == n2[k];
    }
    assert n1 == s[..|n1|] == n2;
    if r1.month != r2.month {
      MonthNamesDistinct(r1.month, r2.month);
    }
    MonthYearNamesYear(r1);
    MonthYearNamesYear(r2);
  }

  /** Another report than `self` of the same user covers the same month. */
  predicate MonthTaken(reports: map<Id, Report>, r: Report, self: Id)
  {
    exists k :: k in reports && k != self && reports[k].user == r.user
      && reports[k].year == r.year && reports[k].month == r.month
  }

  /** Every stored month lies in 1..12 (the `valid_month` check constraint). */
  predicate MonthsValid(reports: map<Id, Report>)
  {
    forall k :: k in reports ==> 1 <= reports[k].month <= 12
  }

  /** A month some stored report has is a valid month. */
  lemma TakenMonthValid(reports: map<Id, Report>, r: Report, self: Id)
    requires MonthsValid(reports) && MonthTaken(reports, r, self)
    ensures 1 <= r.month <= 12
  {
    var k :| k in reports && k != self && reports[k].user == r.user
      && reports[k].year == r.year && reports[k].month == r.month;
  }

  function DuplicateMessage(r: Report): string
    requires 0 <= r.month <= 12
  {
    "Report with Month Year: '" + MonthYear(r) + "' already exists."
  }

  /** `Report.clean`: user, year (0 counts as missing), month, then at most
      one report per user and month. A duplicate is only found when the
      month is one a stored report has, so its name exists. */
  function Clean(r: Report, reports: map<Id, Report>, self: Id): (res: Outcome)
    requires MonthsValid(reports)
    ensures res.Pass? <==> r.user.Some? && r.year != 0 && r.month != 0 && !MonthTaken(reports, r, self)
    ensures r.user.None? ==> res == Fail(ValidationError("user", UserMissingMessage))
    ensures r.user.Some? && r.year == 0 ==> res == Fail(ValidationError("year", "Year is required."))
    ensures r.user.Some? && r.year != 0 && r.month == 0
      ==> res == Fail(ValidationError("month", "Month is required."))
    ensures r.user.Some? && r.year != 0 && r.month != 0 && MonthTaken(reports, r, self)
      ==> 1 <= r.month <= 12 && res == Fail(ValidationError("month", DuplicateMessage(r)))
  {
    if r.user.None? then Fail(ValidationError("user", UserMissingMessage))
    else if r.year == 0 then Fail(ValidationError("year", "Year is required."))
    else if r.month == 0 then Fail(ValidationError("month", "Month is required."))
    else if MonthTaken(reports, r, self) then
      TakenMonthValid(reports, r, self);
      Fail(ValidationError("month", DuplicateMessage(r)))
    else Pass
  }

  /** At most one report per user and month (`unique_report_per_user_month`). */
  predicate ReportsUnique(reports: map<Id, Report>)
  {
    forall j, k :: j in reports && k in reports && j != k && reports[j].user == reports[k].user
      ==> reports[j].year != reports[k].year || reports[j].month != reports[k].month
  }

  /** A report that passes `clean` and is stored under `self` keeps one
      report per user and month. */
  lemma SaveKeepsReportsUnique(reports: map<Id, Report>, r: Report, self: Id)
    requires MonthsValid(reports) && ReportsUnique(reports)
    requires Clean(r, reports, self).Pass?
    ensures ReportsUnique(reports[self := r])
  {
    var t := reports[self := r];
    forall j, k | j in t && k in t && j != k && t[j].user == t[k].user
      ensures t[j].year != t[k].year || t[j].month != t[k].month
    {
      if j == self {
        assert k in reports && k != self && reports[k] == t[k];
      } else if k == self {
        assert j in reports && j != self && reports[j] == t[j];
      }
    }
  }
}
