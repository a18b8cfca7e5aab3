/**
 * The proleptic Gregorian calendar as the date library the holiday rules use
 * sees it: which (year, month, day) triples are dates, the number of each day
 * counted from 1 January of year 1, weekdays, and moving a date by a few days.
 */
module Calendar {
  /** The years a date may have. */
  const MinYear: int := -262143
  const MaxYear: int := 262142

  datatype Date = Date(year: int, month: int, day: int)

  /** Every fourth year, except centuries not divisible by 400. */
  predicate IsLeapYear(y: int) {
    y % 4 == 0 && (y % 100 != 0 || y % 400 == 0)
  }

  function DaysInMonth(y: int, m: int): (n: int)
    requires 1 <= m <= 12
    ensures 28 <= n <= 31
    ensures n == 29 <==> m == 2 && IsLeapYear(y)
  {
    if m == 2 then (if IsLeapYear(y) then 29 else 28)
    else if m == 4 || m == 6 || m == 9 || m == 11 then 30
    else 31
  }

  /** `NaiveDate::from_ymd_opt(year, month, day).is_some()` */
  predicate ValidDate(d: Date) {
    MinYear <= d.year <= MaxYear && 1 <= d.month <= 12 && 1 <= d.day <= DaysInMonth(d.year, d.month)
  }

  // ---------------------------------------------------------------------------
  // Day numbers

  /** The days of the months before month `m` of year `y`; `m == 13` gives the length of the year. */
  function DaysBeforeMonth(y: int, m: int): (n: nat)
    requires 1 <= m <= 13
  {
    var leapDay := if m > 2 && IsLeapYear(y) then 1 else 0;
    leapDay + match m
      case 1 => 0 case 2 => 31 case 3 => 59 case 4 => 90 case 5 => 120 case 6 => 151
      case 7 => 181 case 8 => 212 case 9 => 243 case 10 => 273 case 11 => 304 case 12 => 334
      case _ => 365
  }

  /** Each month starts where the one before it ends. */
  lemma MonthStep(y: int, m: int)
    requires 1 <= m <= 12
    ensures DaysBeforeMonth(y, m + 1) == DaysBeforeMonth(y, m) + DaysInMonth(y, m)
  {
  }

  /** The days of the years before year `y`, counted from year 1 (negative before it). */
  function DaysBeforeYear(y: int): int {
    365 * (y - 1) + (y - 1) / 4 - (y - 1) / 100 + (y - 1) / 400
  }

  /** The number of a day: 0 for 1 January of year 1, one more for each following day. */
  function DayNumber(d: Date): int
    requires 1 <= d.month <= 12
  {
    DaysBeforeYear(d.year) + DaysBeforeMonth(d.year, d.month) + d.day - 1
  }

  lemma YearLength(y: int)
    ensures DaysBeforeMonth(y, 13) == if IsLeapYear(y) then 366 else 365
  {
  }

  /** `y / n` grows by one exactly when `n` divides `y`. */
  lemma FloorStep(y: int, n: int)
    requires n == 4 || n == 100 || n == 400
    ensures y / n - (y - 1) / n == if y % n == 0 then 1 else 0
  {
  }

  /** A year holds as many days as its months. */
  lemma NextYear(y: int)
    ensures DaysBeforeYear(y + 1) == DaysBeforeYear(y) + DaysBeforeMonth(y, 13)
  {
    YearLength(y);
    FloorStep(y, 4);
    FloorStep(y, 100);
    FloorStep(y, 400);
    if y % 100 == 0 {
      assert y % 4 == 0;
    }
    if y % 400 == 0 {
      assert y % 100 == 0;
    }
  }

  lemma {:induction false} DaysBeforeYearMonotone(a: int, b: int)
    requires a < b
    ensures DaysBeforeYear(a) + DaysBeforeMonth(a, 13) <= DaysBeforeYear(b)
    decreases b - a
  {
    NextYear(a);
    if a + 1 < b {
      DaysBeforeYearMonotone(a + 1, b);
      YearLength(a + 1);
    }
  }

  lemma {:induction false} DaysBeforeMonthMonotone(y: int, a: int, b: int)
    requires 1 <= a < b <= 13
    ensures DaysBeforeMonth(y, a) + DaysInMonth(y, a) <= DaysBeforeMonth(y, b)
    decreases b - a
  {
    MonthStep(y, a);
    if a + 1 < b {
      DaysBeforeMonthMonotone(y, a + 1, b);
    }
  }

  /** Calendar order: by year, then month, then day. */
  predicate Before(a: Date, b: Date) {
    a.year < b.year
    || (a.year == b.year && a.month < b.month)
    || (a.year == b.year && a.month == b.month && a.day < b.day)
  }

  /** The day of a date lies within its year. */
  lemma DayWithinYear(d: Date)
    requires ValidDate(d)
    ensures DaysBeforeYear(d.year) <= DayNumber(d) < DaysBeforeYear(d.year) + DaysBeforeMonth(d.year, 13)
  {
    if d.month < 12 {
      DaysBeforeMonthMonotone(d.year, d.month, 13);
    }
  }

  /** Day numbers follow calendar order. */
  lemma DayNumberMonotone(a: Date, b: Date)
    requires ValidDate(a) && ValidDate(b) && Before(a, b)
    ensures DayNumber(a) < DayNumber(b)
  {
    if a.year < b.year {
      DayWithinYear(a);
      DayWithinYear(b);
      DaysBeforeYearMonotone(a.year, b.year);
    } else if a.month < b.month {
      DaysBeforeMonthMonotone(a.year, a.month, b.month);
    }
  }

  /** Two dates with the same day number are the same date. */
  lemma DayNumberInjective(a: Date, b: Date)
    requires ValidDate(a) && ValidDate(b) && DayNumber(a) == DayNumber(b)
    ensures a == b
  {
    if Before(a, b) {
      DayNumberMonotone(a, b);
    } else if Before(b, a) {
      DayNumberMonotone(b, a);
    }
  }

  // ---------------------------------------------------------------------------
  // Weekdays

  /** `weekday().num_days_from_sunday()`: 0 for Sunday up to 6 for Saturday; 1 January of year 1 was a Monday. */
  function NumDaysFromSunday(d: Date): (w: int)
    requires 1 <= d.month <= 12
    ensures 0 <= w < 7
  {
    (DayNumber(d) + 1) % 7
  }

  /** The weekday of a date up to a week before or two weeks after a Sunday. */
  lemma WeekdayFromSunday(sunday: Date, d: Date, k: int)
    requires 1 <= sunday.month <= 12 && 1 <= d.month <= 12 && IsSunday(sunday)
    requires DayNumber(d) == DayNumber(sunday) + k && -7 < k < 14
    ensures NumDaysFromSunday(d) == if k < 0 then k + 7 else if k < 7 then k else k - 7
  {
    var x := DayNumber(sunday) + 1;
    assert x % 7 == 0;
    ShiftedResidue(x, k);
  }

  /** Moving `k` days from a multiple of seven lands on residue `k` mod 7. */
  lemma ShiftedResidue(x: int, k: int)
    requires x % 7 == 0 && -7 < k < 14
    ensures (x + k) % 7 == if k < 0 then k + 7 else if k < 7 then k else k - 7
  {
    var q := x / 7;
    assert x == 7 * q;
    if k < 0 {
      assert x + k == 7 * (q - 1) + (k + 7);
    } else if k < 7 {
      assert x + k == 7 * q + k;
    } else {
      assert x + k == 7 * (q + 1) + (k - 7);
    }
  }

  predicate IsSunday(d: Date)
    requires 1 <= d.month <= 12
  {
    NumDaysFromSunday(d) == 0
  }

  // ---------------------------------------------------------------------------
  // Moving a date

  /**
   * `base + Duration::days(k)` for a move of at most four weeks that stays in
   * the year: the date whose day number is `k` more than the base's.
   */
  function Shift(base: Date, k: int): (r: Date)
    requires ValidDate(base) && -28 <= k <= 28
    requires base.day + k < 1 ==> base.month > 1
    requires base.day + k > DaysInMonth(base.year, base.month) ==> base.month < 12
    ensures ValidDate(r) && r.year == base.year
    ensures DayNumber(r) == DayNumber(base) + k
  {
    var y, m := base.year, base.month;
    if base.day + k < 1 then Date(y, m - 1, DaysInMonth(y, m - 1) + base.day + k)
    else if base.day + k > DaysInMonth(y, m) then Date(y, m + 1, base.day + k - DaysInMonth(y, m))
    else Date(y, m, base.day + k)
  }

  /** The date `k` days after `base` is the only date with that day number. */
  lemma ShiftUnique(base: Date, k: int, d: Date)
    requires ValidDate(base) && -28 <= k <= 28
    requires base.day + k < 1 ==> base.month > 1
    requires base.day + k > DaysInMonth(base.year, base.month) ==> base.month < 12
    requires ValidDate(d)
    ensures d == Shift(base, k) <==> DayNumber(d) == DayNumber(base) + k
  {
    if DayNumber(d) == DayNumber(base) + k {
      DayNumberInjective(d, Shift(base, k));
    }
  }

  /** `7 - num_days_from_sunday()` days, or none on a Sunday. */
  function DaysUntilSunday(base: Date): (n: int)
    requires 1 <= base.month <= 12
    ensures 0 <= n < 7
  {
    var w := NumDaysFromSunday(base);
    if w == 0 then 0 else 7 - w
  }

  /** The first Sunday on or after `base`, for a base at least a week before the end of the year. */
  function FirstSundayFrom(base: Date): (r: Date)
    requires ValidDate(base) && (base.month < 12 || base.day <= 25)
    ensures ValidDate(r) && r.year == base.year
    ensures IsSunday(r)
    ensures 0 <= DayNumber(r) - DayNumber(base) < 7
    ensures r.month == base.month ==> base.day <= r.day
    ensures base.day + 6 <= DaysInMonth(base.year, base.month) ==> r.month == base.month
    ensures r.month != base.month ==> r.month == base.month + 1 && r.day <= 6
  {
    var k := DaysUntilSunday(base);
    assert base.day + k > DaysInMonth(base.year, base.month) ==> base.month < 12;
    var r := Shift(base, k);
    SundayAfter(DayNumber(base) + 1);
    assert (DayNumber(r) + 1) % 7 == 0;
    r
  }

  /** Moving `7 - w` days on from weekday `w` (none from a Sunday) reaches a Sunday. */
  lemma SundayAfter(a: int)
    ensures var w := a % 7; (a + (if w == 0 then 0 else 7 - w)) % 7 == 0
  {
  }

  /** No Sunday comes between `base` and the first Sunday from it. */
  lemma FirstSundayEarliest(base: Date, d: Date)
    requires ValidDate(base) && (base.month < 12 || base.day <= 25) && ValidDate(d)
    requires DayNumber(base) <= DayNumber(d) < DayNumber(FirstSundayFrom(base))
    ensures !IsSunday(d)
  {
    var sunday := FirstSundayFrom(base);
    NoMultipleOfSevenBefore(DayNumber(d) + 1, DayNumber(sunday) + 1);
  }

  /** Less than a week before a multiple of 7 there is none. */
  lemma NoMultipleOfSevenBefore(x: int, y: int)
    requires y % 7 == 0 && y - 7 < x < y
    ensures x % 7 != 0
  {
    var q := y / 7;
    assert y == 7 * q;
    assert 7 * (q - 1) < x < 7 * q;
  }

  lemma WeekdayAfter(a: int, x: int)
    requires 0 <= x
    ensures (a + x) % 7 == (a % 7 + x) % 7
  {
    assert a == 7 * (a / 7) + a % 7;
    assert a + x == 7 * (a / 7) + (a % 7 + x);
  }
}
