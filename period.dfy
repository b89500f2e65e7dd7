/** Resolving the settlement period: a missing start is the first day of
    today's month, a missing end is its last day, and a period that ends
    before it starts is refused. `today` is a parameter (the caller's
    clock). */
module Period {
  import opened Wrappers
  import opened Models
  import opened Errors

  predicate IsLeapYear(y: int)
  {
    y % 4 == 0 && (y % 100 != 0 || y % 400 == 0)
  }

  function DaysInMonth(y: int, m: int): (n: int)
    requires 1 <= m <= 12
    ensures 28 <= n <= 31
    ensures m == 2 ==> (n == 29 <==> IsLeapYear(y))
  {
    if m == 2 then (if IsLeapYear(y) then 29 else 28)
    else if m == 4 || m == 6 || m == 9 || m == 11 then 30
    else 31
  }

  predicate ValidDate(d: Date)
  {
    1 <= d.month <= 12 && 1 <= d.day <= DaysInMonth(d.year, d.month)
  }

  /** Chronological order of dates. */
  predicate Before(a: Date, b: Date)
  {
    a.year < b.year
    || (a.year == b.year && a.month < b.month)
    || (a.year == b.year && a.month == b.month && a.day < b.day)
  }

  function NextDay(d: Date): (e: Date)
    requires ValidDate(d)
    ensures ValidDate(e) && Before(d, e)
  {
    if d.day < DaysInMonth(d.year, d.month) then Date(d.year, d.month, d.day + 1)
    else if d.month < 12 then Date(d.year, d.month + 1, 1)
    else Date(d.year + 1, 1, 1)
  }

  function PreviousDay(d: Date): (e: Date)
    requires ValidDate(d)
    ensures ValidDate(e) && Before(e, d)
  {
    if d.day > 1 then Date(d.year, d.month, d.day - 1)
    else if d.month > 1 then Date(d.year, d.month - 1, DaysInMonth(d.year, d.month - 1))
    else Date(d.year - 1, 12, 31)
  }

  /** `d` plus `n` days (a timedelta of `n` days). */
  function AddDays(d: Date, n: nat): (e: Date)
    requires ValidDate(d)
    ensures ValidDate(e)
    decreases n
  {
    if n == 0 then d else AddDays(NextDay(d), n - 1)
  }

  /** `d.replace(day=1)`. */
  function FirstOfMonth(d: Date): Date
  {
    Date(d.year, d.month, 1)
  }

  /** The last day of `d`'s month, computed as the service does: go from the
      first of the month 32 days forward, back to the first of that month,
      and one day back. */
  function LastOfMonth(d: Date): Date
    requires ValidDate(d)
  {
    PreviousDay(FirstOfMonth(AddDays(FirstOfMonth(d), 32)))
  }

  lemma {:induction false} AddDaysWithinMonth(d: Date, n: nat)
    requires ValidDate(d) && d.day + n <= DaysInMonth(d.year, d.month)
    ensures AddDays(d, n) == Date(d.year, d.month, d.day + n)
    decreases n
  {
    if n > 0 {
      AddDaysWithinMonth(NextDay(d), n - 1);
    }
  }

  lemma {:induction false} AddDaysSplit(d: Date, a: nat, b: nat)
    requires ValidDate(d)
    ensures AddDays(d, a + b) == AddDays(AddDays(d, a), b)
    decreases a
  {
    if a > 0 {
      AddDaysSplit(NextDay(d), a - 1, b);
    }
  }

  /** The computation above does land on the month's last day, in every
      month and in leap years. */
  lemma LastOfMonthIsMonthEnd(d: Date)
    requires ValidDate(d)
    ensures LastOfMonth(d) == Date(d.year, d.month, DaysInMonth(d.year, d.month))
  {
    var first := FirstOfMonth(d);
    var len := DaysInMonth(d.year, d.month);
    AddDaysSplit(first, len - 1, 33 - len);
    AddDaysWithinMonth(first, len - 1);
    var next := NextDay(Date(d.year, d.month, len));
    assert next.day == 1;
    AddDaysWithinMonth(next, 32 - len);
  }

  /** Resolves the optional period bounds against `today`. */
  function ResolvePeriod(start: Option<Date>, end: Option<Date>, today: Date): (r: Result<(Date, Date), Error>)
    requires ValidDate(today)
    ensures r.Success? ==> !Before(r.value.1, r.value.0)
    ensures r.Success? ==> r.value.0 == (if start.Some? then start.value else Date(today.year, today.month, 1))
    ensures r.Success? ==> r.value.1 == (if end.Some? then end.value
                                         else Date(today.year, today.month, DaysInMonth(today.year, today.month)))
    ensures r.Failure? ==> r.error == PeriodEndBeforeStart
    ensures r.Failure? <==>
      Before(if end.Some? then end.value else Date(today.year, today.month, DaysInMonth(today.year, today.month)),
             if start.Some? then start.value else Date(today.year, today.month, 1))
  {
    var periodStart := if start.Some? then start.value else FirstOfMonth(today);
    var periodEnd := if end.Some? then end.value else LastOfMonth(today);
    LastOfMonthIsMonthEnd(today);
    if Before(periodEnd, periodStart) then Failure(PeriodEndBeforeStart)
    else Success((periodStart, periodEnd))
  }

  /** With both bounds defaulted the period is today's whole month and is
      never refused; February of a leap year ends on the 29th. */
  lemma DefaultPeriodIsWholeMonth(today: Date)
    requires ValidDate(today)
    ensures ResolvePeriod(None, None, today).Success?
    ensures ResolvePeriod(None, None, today).value.0.day == 1
    ensures ResolvePeriod(None, None, today).value.1 == Date(today.year, today.month, DaysInMonth(today.year, today.month))
    ensures today.month == 2 && IsLeapYear(today.year) ==> ResolvePeriod(None, None, today).value.1.day == 29
  {
  }
}
