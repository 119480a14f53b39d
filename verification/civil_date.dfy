/** Dates of the proleptic Gregorian calendar, as Python's `datetime` counts them:
    a day's ordinal is its position counted from 0001-01-01 (ordinal 1), and
    subtracting a `timedelta` of whole days moves the ordinal back by that many. */
module CivilDate {

  datatype Date = Date(year: int, month: int, day: int)

  /** Smallest and largest year a Python `datetime` can hold. */
  const MinYear := 1
  const MaxYear := 9999

  predicate IsLeapYear(y: int) {
    y % 4 == 0 && (y % 100 != 0 || y % 400 == 0)
  }

  function DaysInMonth(y: int, m: int): (n: int)
    requires 1 <= m <= 12
    ensures 28 <= n <= 31
    ensures n == 29 <==> m == 2 && IsLeapYear(y)
  {
    if m == 2 then (if IsLeapYear(y) then 29 else 28)
    else if m == 4 || m == 6 || m == 9 || m == 11 then 30
    else 31
  }

  function DaysInYear(y: int): int {
    if IsLeapYear(y) then 366 else 365
  }

  /** A day that exists in the calendar. */
  predicate Valid(d: Date) {
    1 <= d.month <= 12 && 1 <= d.day <= DaysInMonth(d.year, d.month)
  }

  /** A day a Python `date` can represent. */
  predicate InRange(d: Date) {
    Valid(d) && MinYear <= d.year <= MaxYear
  }

  /** Days in the years before `y`, counted from year 1. */
  function DaysBeforeYear(y: int): int {
    var p := y - 1;
    p * 365 + p / 4 - p / 100 + p / 400
  }

  /** Days in the months of year `y` before month `m`. */
  function DaysBeforeMonth(y: int, m: int): (n: int)
    requires 1 <= m <= 12
    ensures 28 * (m - 1) <= n <= 31 * (m - 1)
  {
    if m == 1 then 0 else DaysBeforeMonth(y, m - 1) + DaysInMonth(y, m - 1)
  }

  /** `date.toordinal()`: 0001-01-01 has ordinal 1. */
  function Ordinal(d: Date): int
    requires Valid(d)
  {
    DaysBeforeYear(d.year) + DaysBeforeMonth(d.year, d.month) + d.day
  }

  /** The calendar day before `d`: the previous day of the month, else the last day
      of the previous month, else 31 December of the previous year. */
  function PrevDay(d: Date): (r: Date)
    requires Valid(d)
    ensures Valid(r)
    ensures r.year == d.year || (r.year == d.year - 1 && d.month == 1 && d.day == 1)
  {
    if d.day > 1 then Date(d.year, d.month, d.day - 1)
    else if d.month > 1 then Date(d.year, d.month - 1, DaysInMonth(d.year, d.month - 1))
    else Date(d.year - 1, 12, 31)
  }

  /** `d - timedelta(days=n)` on the unbounded calendar. */
  function MinusDays(d: Date, n: nat): (r: Date)
    requires Valid(d)
    ensures Valid(r)
    ensures Ordinal(r) == Ordinal(d) - n
    ensures r.year <= d.year
    decreases n
  {
    if n == 0 then d
    else
      var p := PrevDay(d);
      PrevDayOrdinal(d);
      MinusDays(p, n - 1)
  }

  /** The leap day lies in February, so the eleven months before December hold 334
      days, or 335 in a leap year; with December the year is complete. */
  lemma DaysBeforeDecember(y: int)
    ensures DaysBeforeMonth(y, 12) + 31 == DaysInYear(y)
  {
    var leap := if IsLeapYear(y) then 1 else 0;
    assert DaysBeforeMonth(y, 2) == 31;
    assert DaysBeforeMonth(y, 3) == 59 + leap;
    assert DaysBeforeMonth(y, 4) == 90 + leap;
    assert DaysBeforeMonth(y, 5) == 120 + leap;
    assert DaysBeforeMonth(y, 6) == 151 + leap;
    assert DaysBeforeMonth(y, 7) == 181 + leap;
    assert DaysBeforeMonth(y, 8) == 212 + leap;
    assert DaysBeforeMonth(y, 9) == 243 + leap;
    assert DaysBeforeMonth(y, 10) == 273 + leap;
    assert DaysBeforeMonth(y, 11) == 304 + leap;
    assert DaysBeforeMonth(y, 12) == 334 + leap;
  }

  /** Year `y` begins exactly `DaysInYear(y - 1)` days after year `y - 1`. */
  lemma DaysBeforeNextYear(y: int)
    ensures DaysBeforeYear(y + 1) == DaysBeforeYear(y) + DaysInYear(y)
  {
    QuotientStep4(y);
    QuotientStep100(y);
    QuotientStep400(y);
    HundredsAreFours(y);
    FourHundredsAreHundreds(y);
    assert DaysBeforeYear(y + 1) - DaysBeforeYear(y)
        == 365 + (y / 4 - (y - 1) / 4) - (y / 100 - (y - 1) / 100) + (y / 400 - (y - 1) / 400);
  }

  /** A multiple of 100 is a multiple of 4. */
  lemma HundredsAreFours(y: int)
    ensures y % 100 == 0 ==> y % 4 == 0
  {
    if y % 100 == 0 {
      assert y == 4 * (25 * (y / 100));
    }
  }

  /** A multiple of 400 is a multiple of 100. */
  lemma FourHundredsAreHundreds(y: int)
    ensures y % 400 == 0 ==> y % 100 == 0
  {
    if y % 400 == 0 {
      assert y == 100 * (4 * (y / 400));
    }
  }

  /** Each step of `p` crosses a multiple of 4 exactly when `p` is one. */
  lemma QuotientStep4(p: int)
    ensures p / 4 - (p - 1) / 4 == if p % 4 == 0 then 1 else 0
  {
  }

  lemma QuotientStep100(p: int)
    ensures p / 100 - (p - 1) / 100 == if p % 100 == 0 then 1 else 0
  {
  }

  lemma QuotientStep400(p: int)
    ensures p / 400 - (p - 1) / 400 == if p % 400 == 0 then 1 else 0
  {
  }

  /** The day before has the ordinal one less. */
  lemma PrevDayOrdinal(d: Date)
    requires Valid(d)
    ensures Ordinal(PrevDay(d)) == Ordinal(d) - 1
  {
    var p := PrevDay(d);
    if d.day > 1 {
      assert p == Date(d.year, d.month, d.day - 1);
    } else if d.month > 1 {
      assert p == Date(d.year, d.month - 1, DaysInMonth(d.year, d.month - 1));
      assert DaysBeforeMonth(d.year, d.month)
          == DaysBeforeMonth(d.year, d.month - 1) + DaysInMonth(d.year, d.month - 1);
    } else {
      DaysBeforeNextYear(d.year - 1);
      DaysBeforeDecember(d.year - 1);
      assert p == Date(d.year - 1, 12, 31);
      assert Ordinal(p) == DaysBeforeYear(d.year - 1) + DaysBeforeMonth(d.year - 1, 12) + 31;
    }
  }

  /** Earlier months of the same year end no later than a later month begins. */
  lemma {:induction false} DaysBeforeMonthGrows(y: int, m: int, m': int)
    requires 1 <= m < m' <= 12
    ensures DaysBeforeMonth(y, m) + DaysInMonth(y, m) <= DaysBeforeMonth(y, m')
    decreases m'
  {
    if m' > m + 1 {
      DaysBeforeMonthGrows(y, m, m' - 1);
    }
  }

  /** Earlier years end no later than a later year begins. */
  lemma {:induction false} DaysBeforeYearGrows(y: int, y': int)
    requires y < y'
    ensures DaysBeforeYear(y) + DaysInYear(y) <= DaysBeforeYear(y')
    decreases y' - y
  {
    DaysBeforeNextYear(y);
    if y' > y + 1 {
      DaysBeforeYearGrows(y + 1, y');
    }
  }

  /** Every day of year `y` has an ordinal within that year's span. */
  lemma OrdinalWithinYear(d: Date)
    requires Valid(d)
    ensures DaysBeforeYear(d.year) < Ordinal(d) <= DaysBeforeYear(d.year) + DaysInYear(d.year)
  {
    DaysBeforeDecember(d.year);
    if d.month < 12 {
      DaysBeforeMonthGrows(d.year, d.month, 12);
    }
  }

  /** Calendar order: year first, then month, then day. */
  predicate Before(d: Date, e: Date) {
    d.year < e.year
    || (d.year == e.year && d.month < e.month)
    || (d.year == e.year && d.month == e.month && d.day < e.day)
  }

  /** Ordinals increase with calendar order. */
  lemma OrdinalIncreasing(d: Date, e: Date)
    requires Valid(d) && Valid(e) && Before(d, e)
    ensures Ordinal(d) < Ordinal(e)
  {
    if d.year < e.year {
      OrdinalWithinYear(d);
      OrdinalWithinYear(e);
      DaysBeforeYearGrows(d.year, e.year);
    } else if d.month < e.month {
      DaysBeforeMonthGrows(d.year, d.month, e.month);
    }
  }

  /** Distinct valid days have distinct ordinals, so a day is fixed by its ordinal. */
  lemma OrdinalInjective(d: Date, e: Date)
    requires Valid(d) && Valid(e) && Ordinal(d) == Ordinal(e)
    ensures d == e
  {
    if Before(d, e) {
      OrdinalIncreasing(d, e);
    } else if Before(e, d) {
      OrdinalIncreasing(e, d);
    }
  }

  /** Ordinals of days in year 1 or later are positive, and only those. */
  lemma OrdinalPositive(d: Date)
    requires Valid(d)
    ensures Ordinal(d) >= 1 <==> d.year >= MinYear
  {
    OrdinalWithinYear(d);
    if d.year < MinYear {
      DaysBeforeYearGrows(d.year, MinYear);
    } else if d.year > MinYear {
      DaysBeforeYearGrows(MinYear, d.year);
    }
  }
}
