/** The proleptic Gregorian calendar that datetime values use: day numbers and dates. */
module Calendar {
  datatype Date = Date(year: nat, month: nat, day: nat)

  const MAX_YEAR: nat := 9999

  /** The days of the years 1 to 9999. */
  const MAX_DAYS: nat := 3_652_059

  predicate IsLeap(year: nat) {
    year % 4 == 0 && (year % 100 != 0 || year % 400 == 0)
  }

  function DaysInMonth(year: nat, month: nat): (n: nat)
    requires 1 <= month <= 12
    ensures 28 <= n <= 31
  {
    if month == 2 then (if IsLeap(year) then 29 else 28)
    else if month == 4 || month == 6 || month == 9 || month == 11 then 30
    else 31
  }

  /** The days before the first of January of a year, counted from year 1. */
  function DaysBeforeYear(year: nat): nat
    requires year >= 1
  {
    var y := year - 1;
    y * 365 + y / 4 - y / 100 + y / 400
  }

  /** The days of a year before the first of a month; month 13 is the end of the year. */
  function DaysBeforeMonth(year: nat, month: nat): nat
    requires 1 <= month <= 13
  {
    if month == 1 then 0 else DaysBeforeMonth(year, month - 1) + DaysInMonth(year, month - 1)
  }

  predicate ValidDate(d: Date) {
    1 <= d.year && 1 <= d.month <= 12 && 1 <= d.day <= DaysInMonth(d.year, d.month)
  }

  /** The number of days since the first of January of year 1. */
  function DayNumber(d: Date): nat
    requires ValidDate(d)
  {
    DaysBeforeYear(d.year) + DaysBeforeMonth(d.year, d.month) + d.day - 1
  }

  lemma YearLength(year: nat)
    requires year >= 1
    ensures DaysBeforeYear(year + 1) == DaysBeforeYear(year) + DaysBeforeMonth(year, 13)
    ensures DaysBeforeYear(year) < DaysBeforeYear(year + 1)
  {
    MonthsAdd(year);
    LeapDays(year);
    hide DaysBeforeYear, DaysBeforeMonth;
  }

  lemma LeapDays(year: nat)
    requires year >= 1
    ensures DaysBeforeYear(year + 1) == DaysBeforeYear(year) + (if IsLeap(year) then 366 else 365)
  {
    Fourths(year);
    Centuries(year);
    Cycles(year);
  }

  lemma Fourths(n: nat)
    requires n >= 1
    ensures n / 4 == (n - 1) / 4 + if n % 4 == 0 then 1 else 0
  {}

  lemma Centuries(n: nat)
    requires n >= 1
    ensures n / 100 == (n - 1) / 100 + if n % 100 == 0 then 1 else 0
    ensures n % 100 == 0 ==> n % 4 == 0
  {}

  lemma Cycles(n: nat)
    requires n >= 1
    ensures n / 400 == (n - 1) / 400 + if n % 400 == 0 then 1 else 0
    ensures n % 400 == 0 ==> n % 100 == 0
  {}

  lemma MonthsAdd(year: nat)
    ensures DaysBeforeMonth(year, 13) == if IsLeap(year) then 366 else 365
  {
    hide IsLeap;
    var leap := if IsLeap(year) then 1 else 0;
    assert DaysBeforeMonth(year, 2) == 31;
    assert DaysBeforeMonth(year, 3) == 59 + leap;
    assert DaysBeforeMonth(year, 4) == 90 + leap;
    assert DaysBeforeMonth(year, 5) == 120 + leap;
    assert DaysBeforeMonth(year, 6) == 151 + leap;
    assert DaysBeforeMonth(year, 7) == 181 + leap;
    assert DaysBeforeMonth(year, 8) == 212 + leap;
    assert DaysBeforeMonth(year, 9) == 243 + leap;
    assert DaysBeforeMonth(year, 10) == 273 + leap;
    assert DaysBeforeMonth(year, 11) == 304 + leap;
    assert DaysBeforeMonth(year, 12) == 334 + leap;
  }

  lemma {:induction false} YearsGrow(a: nat, b: nat)
    requires 1 <= a <= b
    ensures DaysBeforeYear(a) <= DaysBeforeYear(b)
  {
    if a < b {
      YearsGrow(a, b - 1);
      YearLength(b - 1);
    }
  }

  lemma {:induction false} MonthsGrow(year: nat, a: nat, b: nat)
    requires 1 <= a <= b <= 13
    ensures DaysBeforeMonth(year, a) <= DaysBeforeMonth(year, b)
  {
    if a < b {
      MonthsGrow(year, a, b - 1);
    }
  }

  /** The year in which a day lies, searched upwards. */
  function YearOf(n: nat, from: nat): (year: nat)
    requires from >= 1 && DaysBeforeYear(from) <= n
    ensures year >= 1 && DaysBeforeYear(year) <= n < DaysBeforeYear(year + 1)
    decreases n - DaysBeforeYear(from)
  {
    YearLength(from);
    if n < DaysBeforeYear(from + 1) then from else YearOf(n, from + 1)
  }

  function MonthOf(year: nat, n: nat, from: nat): (month: nat)
    requires 1 <= from <= 12 && DaysBeforeMonth(year, from) <= n < DaysBeforeMonth(year, 13)
    ensures 1 <= month <= 12 && DaysBeforeMonth(year, month) <= n < DaysBeforeMonth(year, month + 1)
    decreases 12 - from
  {
    if n < DaysBeforeMonth(year, from + 1) then from else MonthOf(year, n, from + 1)
  }

  function DateOf(n: nat): (d: Date)
    ensures ValidDate(d) && DayNumber(d) == n
  {
    var year := YearOf(n, 1);
    YearLength(year);
    var rest := n - DaysBeforeYear(year);
    var month := MonthOf(year, rest, 1);
    Date(year, month, rest - DaysBeforeMonth(year, month) + 1)
  }

  lemma InsideYear(d: Date)
    requires ValidDate(d)
    ensures DaysBeforeYear(d.year) <= DayNumber(d) < DaysBeforeYear(d.year + 1)
  {
    hide DaysBeforeYear;
    YearLength(d.year);
    MonthsGrow(d.year, d.month + 1, 13);
  }

  lemma EarlierYear(d: Date, e: Date)
    requires ValidDate(d) && ValidDate(e) && d.year < e.year
    ensures DayNumber(d) < DayNumber(e)
  {
    InsideYear(d);
    InsideYear(e);
    YearsGrow(d.year + 1, e.year);
    hide DaysBeforeYear, DayNumber;
  }

  lemma EarlierMonth(d: Date, e: Date)
    requires ValidDate(d) && ValidDate(e) && d.year == e.year && d.month < e.month
    ensures DayNumber(d) < DayNumber(e)
  {
    hide DaysBeforeYear;
    MonthsGrow(d.year, d.month + 1, e.month);
  }

  /** Different dates have different day numbers: DateOf is the inverse of DayNumber. */
  lemma DateOfDay(d: Date)
    requires ValidDate(d)
    ensures DateOf(DayNumber(d)) == d
  {
    var e := DateOf(DayNumber(d));
    hide DateOf, DaysBeforeYear;
    if d.year < e.year {
      EarlierYear(d, e);
    } else if e.year < d.year {
      EarlierYear(e, d);
    } else if d.month < e.month {
      EarlierMonth(d, e);
    } else if e.month < d.month {
      EarlierMonth(e, d);
    }
  }

  /** The last representable day is in year 9999. */
  lemma YearFits(n: nat)
    requires n < MAX_DAYS
    ensures DateOf(n).year <= MAX_YEAR
  {
    assert DaysBeforeYear(MAX_YEAR + 1) == MAX_DAYS;
    InsideYear(DateOf(n));
    var year := DateOf(n).year;
    YearsGrow(MAX_YEAR + 1, if year > MAX_YEAR then year else MAX_YEAR + 1);
    hide DaysBeforeYear, DateOf;
  }
}
