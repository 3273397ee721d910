/** Month and year arithmetic on Gregorian dates (`add_months`, `add_year`;
    api/formulas/functions_and_conditions.py:130-181), for date arguments. */
module Calendar {
  import opened Prelude

  datatype Date = Date(year: int, month: int, day: int)

  const MIN_YEAR := 1
  const MAX_YEAR := 9999

  predicate IsLeap(year: int) { year % 4 == 0 && (year % 100 != 0 || year % 400 == 0) }

  /** `calendar.monthrange(year, month)[1]` */
  function MonthLength(year: int, month: int): (n: int)
    ensures 28 <= n <= 31
  {
    if month == 2 then if IsLeap(year) then 29 else 28
    else if month == 4 || month == 6 || month == 9 || month == 11 then 30
    else 31
  }

  predicate Valid(d: Date) {
    MIN_YEAR <= d.year <= MAX_YEAR && 1 <= d.month <= 12 && 1 <= d.day <= MonthLength(d.year, d.month)
  }

  function Lesser(a: int, b: int): int { if a <= b then a else b }

  /** None stands for the error raised when the year leaves the supported range. */
  function AddMonths(d: Date, months: int): Option<Date> {
    var month := d.month - 1 + months;
    var year := d.year + month / 12;
    var month' := month % 12 + 1;
    if MIN_YEAR <= year <= MAX_YEAR
    then Some(Date(year, month', Lesser(d.day, MonthLength(year, month')))) else None
  }

  function AddYear(d: Date, years: int): Option<Date> {
    var year := d.year + years;
    if MIN_YEAR <= year <= MAX_YEAR
    then Some(Date(year, d.month, Lesser(d.day, MonthLength(year, d.month)))) else None
  }

  /** Months since year 0. */
  function MonthIndex(d: Date): int { 12 * d.year + d.month - 1 }

  predicate Before(a: Date, b: Date) {
    a.year < b.year || (a.year == b.year && (a.month < b.month || (a.month == b.month && a.day <= b.day)))
  }

  /** The days before a year, counted from 1 January of year 1 as the proleptic calendar does. */
  function DaysBefore(year: int): int {
    365 * (year - 1) + (year - 1) / 4 - (year - 1) / 100 + (year - 1) / 400
  }

  /** The lengths of the first `n` months together. */
  function DaysInMonths(year: int, n: nat): int {
    if n == 0 then 0 else DaysInMonths(year, n - 1) + MonthLength(year, n)
  }

  lemma DivideExactly(n: int, d: int, q: int, r: int)
    requires d >= 1 && n == d * q + r && 0 <= r < d
    ensures n / d == q && n % d == r
  {
    var q', r' := n / d, n % d;
    assert d * (q' - q) == r - r';
    assert q' - q >= 1 ==> d * (q' - q) >= d;
    assert q - q' >= 1 ==> d * (q - q') >= d;
  }

  lemma NextQuotient(n: int, d: int)
    requires d >= 1
    ensures (n + 1) / d == n / d + if (n + 1) % d == 0 then 1 else 0
  {
    var q, r := n / d, n % d;
    assert n == d * q + r;
    if r == d - 1 {
      assert n + 1 == d * (q + 1);
      DivideExactly(n + 1, d, q + 1, 0);
    } else {
      DivideExactly(n + 1, d, q, r + 1);
    }
  }

  lemma MonthsAdded(year: int)
    ensures DaysInMonths(year, 12) == if IsLeap(year) then 366 else 365
  {
    hide IsLeap;
    assert DaysInMonths(year, 1) == 31;
    assert DaysInMonths(year, 3) == DaysInMonths(year, 1) + MonthLength(year, 2) + 31;
    assert DaysInMonths(year, 4) == DaysInMonths(year, 3) + 30;
    assert DaysInMonths(year, 6) == DaysInMonths(year, 4) + 61;
    assert DaysInMonths(year, 8) == DaysInMonths(year, 6) + 62;
    assert DaysInMonths(year, 10) == DaysInMonths(year, 8) + 61;
  }

  lemma LeapDays(year: int)
    ensures DaysBefore(year + 1) - DaysBefore(year) == if IsLeap(year) then 366 else 365
  {
    NextQuotient(year - 1, 4);
    NextQuotient(year - 1, 100);
    NextQuotient(year - 1, 400);
  }

  /** Months outside February alternate between 31 and 30 days, starting over in August, and the
      twelve of them fill the year up to the first day of the next one. */
  lemma MonthsMakeTheYear(year: int, month: int)
    requires 1 <= month <= 12
    ensures month != 2 ==> MonthLength(year, month) == 30 + (month + month / 8) % 2
    ensures DaysInMonths(year, 12) == DaysBefore(year + 1) - DaysBefore(year) && DaysBefore(1) == 0
  {
    MonthsAdded(year);
    LeapDays(year);
  }

  /** The result is a valid date, exactly `months` further, on the same day or on the last one of
      a shorter month; it exists exactly if that month lies in the years 1 to 9999. */
  lemma AddMonthsMeaning(d: Date, months: int)
    requires 1 <= d.year <= 9999 && 1 <= d.month <= 12 && 1 <= d.day <= MonthLength(d.year, d.month)
    ensures AddMonths(d, months).Some? <==> 12 <= MonthIndex(d) + months < 120000
    ensures AddMonths(d, months).Some? ==> var r := AddMonths(d, months).value;
      && Valid(r) && MonthIndex(r) == MonthIndex(d) + months
      && (r.day == d.day || (r.day < d.day && r.day == MonthLength(r.year, r.month)))
  {
    var month := d.month - 1 + months;
    assert month == 12 * (month / 12) + month % 12;
  }

  /** A month index determines year and month. */
  lemma MonthIndexInjective(a: Date, b: Date)
    requires Valid(a) && Valid(b)
    ensures MonthIndex(a) == MonthIndex(b) <==> a.year == b.year && a.month == b.month
    ensures MonthIndex(a) < MonthIndex(b) ==> Before(a, b)
  {
  }

  /** The order of dates is total, and only equal dates precede each other. */
  lemma DatesAreOrdered(a: Date, b: Date)
    ensures Before(a, b) || Before(b, a)
    ensures Before(a, b) && Before(b, a) ==> a == b
  {
  }

  /** Later dates never end up before earlier ones. */
  lemma AddMonthsMonotone(a: Date, b: Date, months: int)
    requires Valid(a) && Valid(b) && Before(a, b)
    requires AddMonths(a, months).Some? && AddMonths(b, months).Some?
    ensures Before(AddMonths(a, months).value, AddMonths(b, months).value)
  {
    var ra, rb := AddMonths(a, months).value, AddMonths(b, months).value;
    AddMonthsMeaning(a, months);
    AddMonthsMeaning(b, months);
    MonthIndexInjective(a, b);
    MonthIndexInjective(ra, rb);
    if a.year == b.year && a.month == b.month {
      assert ra.year == rb.year && ra.month == rb.month;
    }
  }

  /** Two steps make one exactly when the final day also exists in the month in between; so
      always for days up to the 28th. */
  lemma AddMonthsComposes(d: Date, m: int, n: int)
    requires Valid(d) && AddMonths(d, m).Some? && AddMonths(d, m + n).Some?
    ensures var mid, end := AddMonths(d, m).value, AddMonths(d, m + n).value;
      AddMonths(mid, n) == Some(end) <==> end.day <= MonthLength(mid.year, mid.month)
    ensures d.day <= 28 ==> AddMonths(AddMonths(d, m).value, n) == AddMonths(d, m + n)
  {
    var mid, end := AddMonths(d, m).value, AddMonths(d, m + n).value;
    AddMonthsMeaning(d, m);
    AddMonthsMeaning(d, m + n);
    AddMonthsMeaning(mid, n);
    var two := AddMonths(mid, n).value;
    MonthIndexInjective(two, end);
  }

  /** Going back undoes going forth exactly when the day was not clamped. */
  lemma AddMonthsUndone(d: Date, m: int)
    requires Valid(d) && AddMonths(d, m).Some?
    ensures var there := AddMonths(d, m).value;
      AddMonths(there, -m) == Some(d) <==> d.day <= MonthLength(there.year, there.month)
  {
    AddMonthsMeaning(d, 0);
    AddMonthsComposes(d, m, -m);
  }

  /** A year is twelve months, leap days included. */
  lemma AddYearIsTwelveMonths(d: Date, years: int)
    requires Valid(d)
    ensures AddYear(d, years) == AddMonths(d, 12 * years)
  {
    var month := d.month - 1 + 12 * years;
    assert month / 12 == years && month % 12 == d.month - 1;
  }
}
