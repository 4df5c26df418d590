/** The proleptic Gregorian calendar of Python's `datetime.date`, counted in
    days from 1970-01-01 (the Debezium `io.debezium.time.Date` encoding). */
module Calendar {

  datatype Date = Date(year: int, month: int, day: int)

  /** Python's datetime supports years 1 through 9999. */
  const MinYear: int := 1
  const MaxYear: int := 9999

  predicate IsLeap(y: int) {
    y % 4 == 0 && (y % 100 != 0 || y % 400 == 0)
  }

  function DaysInYear(y: int): int {
    if IsLeap(y) then 366 else 365
  }

  function DaysInMonth(y: int, m: int): int
    requires 1 <= m <= 12
  {
    if m == 2 then (if IsLeap(y) then 29 else 28)
    else if m == 4 || m == 6 || m == 9 || m == 11 then 30
    else 31
  }

  /** Days of year `y` before the first of month `m`; month 13 stands for the
      end of the year. */
  function DaysBeforeMonth(y: int, m: int): (r: int)
    requires 1 <= m <= 13
    ensures 0 <= r <= DaysInYear(y)
    ensures m == 13 ==> r == DaysInYear(y)
  {
    var leap := if IsLeap(y) then 1 else 0;
    if m == 1 then 0
    else if m == 2 then 31
    else if m == 3 then 59 + leap
    else if m == 4 then 90 + leap
    else if m == 5 then 120 + leap
    else if m == 6 then 151 + leap
    else if m == 7 then 181 + leap
    else if m == 8 then 212 + leap
    else if m == 9 then 243 + leap
    else if m == 10 then 273 + leap
    else if m == 11 then 304 + leap
    else if m == 12 then 334 + leap
    else 365 + leap
  }

  /** Each month ends where the next begins. */
  lemma MonthStep(y: int, m: int)
    requires 1 <= m <= 12
    ensures DaysBeforeMonth(y, m + 1) == DaysBeforeMonth(y, m) + DaysInMonth(y, m)
  {
  }

  predicate Valid(d: Date) {
    1 <= d.month <= 12 && 1 <= d.day <= DaysInMonth(d.year, d.month)
  }

  /** Calendar order: year, then month, then day. */
  predicate Before(a: Date, b: Date) {
    a.year < b.year
    || (a.year == b.year && a.month < b.month)
    || (a.year == b.year && a.month == b.month && a.day < b.day)
  }

  /** Leap years counted up to year y - 1 (floor division extends it to every y). */
  function LeapsBefore(y: int): int {
    (y - 1) / 4 - (y - 1) / 100 + (y - 1) / 400
  }

  /** Days from 1970-01-01 to January 1 of year `y`. */
  function YearStart(y: int): int {
    365 * (y - 1970) + LeapsBefore(y) - LeapsBefore(1970)
  }

  /** The epoch-day number of a date: days since 1970-01-01. */
  function EpochDay(d: Date): int
    requires 1 <= d.month <= 12
  {
    YearStart(d.year) + DaysBeforeMonth(d.year, d.month) + d.day - 1
  }

  /** The first and last epoch days whose date lies in years 1 .. 9999. */
  const MinEpochDay: int := -719162
  const MaxEpochDay: int := 2932896

  /** Year `y` is followed by its own number of days. */
  lemma YearStep(y: int)
    ensures YearStart(y + 1) == YearStart(y) + DaysInYear(y)
  {
    assert y / 4 - (y - 1) / 4 == (if y % 4 == 0 then 1 else 0);
    assert y / 100 - (y - 1) / 100 == (if y % 100 == 0 then 1 else 0);
    assert y / 400 - (y - 1) / 400 == (if y % 400 == 0 then 1 else 0);
  }

  /** Later years start later. */
  lemma {:induction false} YearStartIncreasing(y1: int, y2: int)
    requires y1 < y2
    ensures YearStart(y1) + DaysInYear(y1) <= YearStart(y2)
    decreases y2 - y1
  {
    YearStep(y1);
    if y1 + 1 < y2 {
      YearStartIncreasing(y1 + 1, y2);
    }
  }

  /** Locates day `z`, counted from January 1 of year `y`, as a year and a
      zero-based day of that year, walking one year at a time. */
  function YearOf(z: int, y: int): (int, int)
    decreases if z < 0 then 1 else 0, if z < 0 then -z else z
  {
    if z < 0 then YearOf(z + DaysInYear(y - 1), y - 1)
    else if z < DaysInYear(y) then (y, z)
    else YearOf(z - DaysInYear(y), y + 1)
  }

  /** Locates zero-based day `r` of year `y`, at or after month `m`, as a date. */
  function MonthOf(y: int, r: int, m: int): Date
    requires 1 <= m <= 12
    decreases 12 - m
  {
    if m == 12 || r < DaysBeforeMonth(y, m + 1) then Date(y, m, r - DaysBeforeMonth(y, m) + 1)
    else MonthOf(y, r, m + 1)
  }

  /** The date `z` days after 1970-01-01 (before it when `z` is negative). */
  function DateOfEpochDay(z: int): Date {
    var (y, r) := YearOf(z, 1970);
    MonthOf(y, r, 1)
  }

  lemma {:induction false} YearOfCorrect(z: int, y: int)
    ensures var (y', r) := YearOf(z, y);
            0 <= r < DaysInYear(y') && YearStart(y') + r == YearStart(y) + z
    decreases if z < 0 then 1 else 0, if z < 0 then -z else z
  {
    if z < 0 {
      YearStep(y - 1);
      YearOfCorrect(z + DaysInYear(y - 1), y - 1);
    } else if z >= DaysInYear(y) {
      YearStep(y);
      YearOfCorrect(z - DaysInYear(y), y + 1);
    }
  }

  lemma {:induction false} MonthOfCorrect(y: int, r: int, m: int)
    requires 1 <= m <= 12
    requires DaysBeforeMonth(y, m) <= r < DaysInYear(y)
    ensures var d := MonthOf(y, r, m);
            Valid(d) && d.year == y && DaysBeforeMonth(y, d.month) + d.day - 1 == r
    decreases 12 - m
  {
    MonthStep(y, m);
    if !(m == 12 || r < DaysBeforeMonth(y, m + 1)) {
      MonthOfCorrect(y, r, m + 1);
    }
  }

  /** The date of an epoch day is a valid calendar date whose epoch-day number
      is that day: 1970-01-01 plus `z` days. */
  lemma DateOfEpochDayCorrect(z: int)
    ensures Valid(DateOfEpochDay(z)) && EpochDay(DateOfEpochDay(z)) == z
  {
    YearOfCorrect(z, 1970);
    var (y, r) := YearOf(z, 1970);
    MonthOfCorrect(y, r, 1);
  }

  lemma DateOfEpochDayZero()
    ensures DateOfEpochDay(0) == Date(1970, 1, 1)
  {
  }

  /** A valid date lies within its year. */
  lemma EpochDayInYear(d: Date)
    requires Valid(d)
    ensures YearStart(d.year) <= EpochDay(d) < YearStart(d.year) + DaysInYear(d.year)
  {
    MonthStep(d.year, d.month);
  }

  /** Epoch-day numbering is strictly increasing in calendar order. */
  lemma EpochDayMonotone(a: Date, b: Date)
    requires Valid(a) && Valid(b) && Before(a, b)
    ensures EpochDay(a) < EpochDay(b)
  {
    if a.year < b.year {
      EpochDayInYear(a);
      EpochDayInYear(b);
      YearStartIncreasing(a.year, b.year);
    } else if a.month < b.month {
      MonthStep(a.year, a.month);
      assert DaysBeforeMonth(a.year, a.month + 1) <= DaysBeforeMonth(a.year, b.month);
    }
  }

  /** Every valid date is the date of its epoch day. */
  lemma EpochDayRoundTrip(d: Date)
    requires Valid(d)
    ensures DateOfEpochDay(EpochDay(d)) == d
  {
    var d' := DateOfEpochDay(EpochDay(d));
    DateOfEpochDayCorrect(EpochDay(d));
    if Before(d, d') {
      EpochDayMonotone(d, d');
    } else if Before(d', d) {
      EpochDayMonotone(d', d);
    }
  }

  /** Later epoch days give later dates. */
  lemma DateOfEpochDayMonotone(z1: int, z2: int)
    requires z1 < z2
    ensures Before(DateOfEpochDay(z1), DateOfEpochDay(z2))
  {
    var a, b := DateOfEpochDay(z1), DateOfEpochDay(z2);
    DateOfEpochDayCorrect(z1);
    DateOfEpochDayCorrect(z2);
    if !Before(a, b) && a != b {
      assert Before(b, a);
      EpochDayMonotone(b, a);
    }
  }

  /** Distinct epoch days give distinct dates. */
  lemma DateOfEpochDayInjective(z1: int, z2: int)
    requires DateOfEpochDay(z1) == DateOfEpochDay(z2)
    ensures z1 == z2
  {
    DateOfEpochDayCorrect(z1);
    DateOfEpochDayCorrect(z2);
  }

  /** The date of epoch day `z` falls in Python's supported years exactly when
      `z` lies between MinEpochDay and MaxEpochDay. */
  lemma SupportedRange(z: int)
    ensures MinYear <= DateOfEpochDay(z).year <= MaxYear <==> MinEpochDay <= z <= MaxEpochDay
  {
    var d := DateOfEpochDay(z);
    DateOfEpochDayCorrect(z);
    EpochDayInYear(d);
    assert YearStart(MinYear) == MinEpochDay;
    assert YearStart(MaxYear + 1) == MaxEpochDay + 1;
    if d.year < MinYear {
      YearStartIncreasing(d.year, MinYear);
    } else if d.year > MinYear {
      YearStartIncreasing(MinYear, d.year);
    }
    if d.year > MaxYear {
      YearStartIncreasing(MaxYear, d.year);
      YearStep(MaxYear);
    } else if d.year < MaxYear {
      YearStartIncreasing(d.year, MaxYear + 1);
    } else {
      YearStep(MaxYear);
    }
  }
}
