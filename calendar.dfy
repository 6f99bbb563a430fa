/** The proleptic Gregorian calendar and the naive date-times of Python's
    `datetime` module, as far as the recurrence of tasks needs them: adding
    whole days (`timedelta`), adding one calendar month with the day clamped
    to the end of the month (`relativedelta(months=1)`), and the range check
    that makes either raise past 9999-12-31. */
module Calendar {
  import opened Wrappers

  /** `datetime.MINYEAR` and `datetime.MAXYEAR`. */
  const MinYear := 1
  const MaxYear := 9999

  const MicrosPerDay := 86_400_000_000

  /** Ordinal of 9999-12-31, the last day Python's `datetime` can hold. */
  const MaxOrdinal := 3_652_059

  predicate IsLeapYear(y: int) {
    y % 4 == 0 && (y % 100 != 0 || y % 400 == 0)
  }

  function DaysInYear(y: int): int {
    if IsLeapYear(y) then 366 else 365
  }

  function DaysInMonth(y: int, m: int): (n: int)
    requires 1 <= m <= 12
    ensures 28 <= n <= 31
  {
    if m == 2 then (if IsLeapYear(y) then 29 else 28)
    else if m == 4 || m == 6 || m == 9 || m == 11 then 30
    else 31
  }

  /** The fields of a naive `datetime`. */
  datatype DateTime = DateTime(year: int, month: int, day: int,
                               hour: int, minute: int, second: int, microsecond: int)

  /** A real calendar date and time of day from year 1 on, with no upper
      bound on the year: what date arithmetic produces before the range
      check. */
  predicate WellFormed(t: DateTime) {
    && MinYear <= t.year
    && 1 <= t.month <= 12
    && 1 <= t.day <= DaysInMonth(t.year, t.month)
    && 0 <= t.hour < 24 && 0 <= t.minute < 60 && 0 <= t.second < 60
    && 0 <= t.microsecond < 1_000_000
  }

  /** A value a Python `datetime` can hold. */
  predicate Valid(t: DateTime) {
    WellFormed(t) && t.year <= MaxYear
  }

  /** The two exceptions date arithmetic raises when the result is past
      `datetime.max`: `timedelta` addition raises OverflowError, and
      `relativedelta` addition raises ValueError from `datetime.replace`. */
  datatype RangeError = OverflowError | ValueError

  function DaysBeforeYear(y: int): int
    requires y >= 1
  {
    var p := y - 1;
    365 * p + p / 4 - p / 100 + p / 400
  }

  function DaysBeforeMonth(y: int, m: int): int
    requires 1 <= m <= 13
  {
    if m == 1 then 0 else DaysBeforeMonth(y, m - 1) + DaysInMonth(y, m - 1)
  }

  /** Python's `date.toordinal()`: 0001-01-01 is day 1. */
  function Ordinal(t: DateTime): int
    requires WellFormed(t)
  {
    DaysBeforeYear(t.year) + DaysBeforeMonth(t.year, t.month) + t.day
  }

  /** Microseconds since midnight. */
  function TimeOfDay(t: DateTime): int {
    t.hour * 3_600_000_000 + t.minute * 60_000_000 + t.second * 1_000_000 + t.microsecond
  }

  /** The point on the time line, in microseconds since 0001-01-01T00:00:00;
      `a - b` between two datetimes is `Instant(a) - Instant(b)`. */
  function Instant(t: DateTime): int
    requires WellFormed(t)
  {
    (Ordinal(t) - 1) * MicrosPerDay + TimeOfDay(t)
  }

  /** The fields read as one number, most significant first: comparing two
      well-formed date-times field by field, as the database orders TIMESTAMP
      values. */
  function Stamp(t: DateTime): int {
    (((((t.year * 12 + t.month) * 31 + t.day) * 24 + t.hour) * 60 + t.minute) * 60 + t.second) * 1_000_000
    + t.microsecond
  }

  predicate SameTimeOfDay(a: DateTime, b: DateTime) {
    a.hour == b.hour && a.minute == b.minute && a.second == b.second && a.microsecond == b.microsecond
  }

  /** A year has 365 days, 366 when it is a leap year. */
  lemma YearLength(y: int)
    requires y >= 1
    ensures DaysBeforeYear(y + 1) == DaysBeforeYear(y) + DaysInYear(y)
  {
    var p := y - 1;
    assert DaysBeforeYear(y + 1) - DaysBeforeYear(y) == 365 + (y / 4 - p / 4) - (y / 100 - p / 100) + (y / 400 - p / 400);
    QuotientStep4(y);
    QuotientStep100(y);
    QuotientStep400(y);
    MultiplesNest(y);
  }

  /** Multiples of 400 are multiples of 100, which are multiples of 4. */
  lemma MultiplesNest(y: int)
    ensures y % 400 == 0 ==> y % 100 == 0
    ensures y % 100 == 0 ==> y % 4 == 0
  {
    var k, q, r := y / 400, y / 100, y % 100;
    var q4, r4 := y / 4, y % 4;
    assert y == 400 * k + y % 400 && y == 100 * q + r && y == 4 * q4 + r4;
    if y % 400 == 0 {
      assert r == 100 * (4 * k - q);
    }
    if r == 0 {
      assert r4 == 4 * (25 * q - q4);
    }
  }

  /** Crossing from `y - 1` to `y`, the count of multiples of 4 below
      grows exactly when `y` is one; likewise for 100 and 400. */
  lemma QuotientStep4(y: int)
    requires y >= 1
    ensures y / 4 - (y - 1) / 4 == if y % 4 == 0 then 1 else 0
  {
  }

  lemma QuotientStep100(y: int)
    requires y >= 1
    ensures y / 100 - (y - 1) / 100 == if y % 100 == 0 then 1 else 0
  {
  }

  lemma QuotientStep400(y: int)
    requires y >= 1
    ensures y / 400 - (y - 1) / 400 == if y % 400 == 0 then 1 else 0
  {
  }

  /** The twelve months add up to the year. */
  lemma MonthsFillYear(y: int)
    ensures DaysBeforeMonth(y, 13) == DaysInYear(y)
  {
    var leap := if IsLeapYear(y) then 1 else 0;
    assert DaysBeforeMonth(y, 2) == 31;
    assert DaysBeforeMonth(y, 3) == 59 + leap;
    assert DaysBeforeMonth(y, 4) == 90 + leap;
    assert DaysBeforeMonth(y, 5) == 120 + leap;
    assert DaysBeforeMonth(y, 6) == 151 + leap;
    assert DaysBeforeMonth(y, 7) == 181 + leap;
    assert DaysBeforeMonth(y, 8) == 212 + leap;
    assert DaysBeforeMonth(y, 9) == 243 + leap;
    assert DaysBeforeMonth(y, 10) == 273 + leap;
    assert DaysBeforeMonth(y, 11) == 304 + leap;
    assert DaysBeforeMonth(y, 12) == 334 + leap;
  }

  /** The calendar day after `t`, same time of day; it is the next ordinal. */
  function NextDay(t: DateTime): (r: DateTime)
    requires WellFormed(t)
    ensures WellFormed(r) && SameTimeOfDay(r, t)
    ensures Ordinal(r) == Ordinal(t) + 1
  {
    if t.day < DaysInMonth(t.year, t.month) then
      t.(day := t.day + 1)
    else if t.month < 12 then
      t.(month := t.month + 1, day := 1)
    else
      YearLength(t.year);
      MonthsFillYear(t.year);
      t.(year := t.year + 1, month := 1, day := 1)
  }

  /** `n` calendar days after `t`, same time of day, with no range check. */
  function AddDays(t: DateTime, n: nat): (r: DateTime)
    requires WellFormed(t)
    ensures WellFormed(r) && SameTimeOfDay(r, t)
    ensures Ordinal(r) == Ordinal(t) + n
    decreases n
  {
    if n == 0 then t else NextDay(AddDays(t, n - 1))
  }

  /** `t + timedelta(days=n)` for `n >= 0`: OverflowError past `datetime.max`. */
  function PlusDays(t: DateTime, n: nat): (r: Result<DateTime, RangeError>)
    requires Valid(t)
  {
    var u := AddDays(t, n);
    if u.year <= MaxYear then Success(u) else Failure(OverflowError)
  }

  /** Year and month counted in months. */
  function MonthIndex(t: DateTime): int {
    12 * t.year + t.month - 1
  }

  /** `t + relativedelta(months=1)` with no range check: the next calendar
      month, the day kept when that month has it and otherwise the month's
      last day, and the same time of day. */
  function AddMonth(t: DateTime): (r: DateTime)
    requires WellFormed(t)
    ensures WellFormed(r) && SameTimeOfDay(r, t)
    ensures MonthIndex(r) == MonthIndex(t) + 1
    ensures r.day <= t.day
    ensures r.day == t.day || r.day == DaysInMonth(r.year, r.month)
  {
    var y, m := if t.month == 12 then t.year + 1 else t.year, if t.month == 12 then 1 else t.month + 1;
    var last := DaysInMonth(y, m);
    t.(year := y, month := m, day := if t.day <= last then t.day else last)
  }

  /** `t + relativedelta(months=1)`: ValueError past `datetime.max`. */
  function PlusMonth(t: DateTime): (r: Result<DateTime, RangeError>)
    requires Valid(t)
  {
    var u := AddMonth(t);
    if u.year <= MaxYear then Success(u) else Failure(ValueError)
  }

  /** A date lies within its year's run of ordinals. */
  lemma OrdinalWithinYear(t: DateTime)
    requires WellFormed(t)
    ensures DaysBeforeYear(t.year) < Ordinal(t) <= DaysBeforeYear(t.year + 1)
  {
    var y, m := t.year, t.month;
    assert DaysBeforeMonth(y, m + 1) == DaysBeforeMonth(y, m) + DaysInMonth(y, m);
    DaysBeforeMonthBound(y, m + 1);
    MonthsFillYear(y);
    YearLength(y);
    assert DaysBeforeMonth(y, m) >= 0 by { DaysBeforeMonthNonNegative(y, m); }
  }

  lemma {:induction false} DaysBeforeMonthNonNegative(y: int, m: int)
    requires 1 <= m <= 13
    ensures DaysBeforeMonth(y, m) >= 0
  {
    if m > 1 {
      DaysBeforeMonthNonNegative(y, m - 1);
    }
  }

  lemma {:induction false} DaysBeforeMonthBound(y: int, m: int)
    requires 1 <= m <= 13
    ensures DaysBeforeMonth(y, m) <= DaysBeforeMonth(y, 13)
    decreases 13 - m
  {
    if m < 13 {
      DaysBeforeMonthBound(y, m + 1);
    }
  }

  lemma DaysBeforeYearMonotone(a: int, b: int)
    requires 1 <= a <= b
    ensures DaysBeforeYear(a) <= DaysBeforeYear(b)
  {
    var p, q := a - 1, b - 1;
    assert p / 4 <= q / 4;
    assert q / 100 - p / 100 <= (q - p) / 100 + 1;
    assert q / 400 >= p / 400;
  }

  /** A date is in Python's range exactly when its ordinal is at most that of
      9999-12-31. */
  lemma InRangeIffOrdinal(t: DateTime)
    requires WellFormed(t)
    ensures t.year <= MaxYear <==> Ordinal(t) <= MaxOrdinal
  {
    OrdinalWithinYear(t);
    assert DaysBeforeYear(MaxYear + 1) == MaxOrdinal;
    if t.year <= MaxYear {
      DaysBeforeYearMonotone(t.year + 1, MaxYear + 1);
    } else {
      DaysBeforeYearMonotone(MaxYear + 1, t.year);
    }
  }

  /** Adding days succeeds exactly when the target ordinal is still in range,
      and then moves the instant by exactly `n` days. */
  lemma PlusDaysSpec(t: DateTime, n: nat)
    requires Valid(t)
    ensures PlusDays(t, n).Success? <==> Ordinal(t) + n <= MaxOrdinal
    ensures PlusDays(t, n).Failure? ==> PlusDays(t, n).error == OverflowError
    ensures PlusDays(t, n).Success? ==>
              var r := PlusDays(t, n).value;
              Valid(r) && SameTimeOfDay(r, t) && Instant(r) == Instant(t) + n * MicrosPerDay
  {
    InRangeIffOrdinal(AddDays(t, n));
  }

  /** The day-of-month after a month step is determined: the old day when the
      target month has it, the target month's last day otherwise. */
  lemma AddMonthClamps(t: DateTime)
    requires WellFormed(t)
    ensures var r := AddMonth(t);
            r.day == (if t.day <= DaysInMonth(r.year, r.month) then t.day else DaysInMonth(r.year, r.month))
  {
  }

  /** December steps into January of the next year; every other month into
      the next month of the same year. */
  lemma AddMonthYearWrap(t: DateTime)
    requires WellFormed(t)
    ensures var r := AddMonth(t);
            if t.month == 12 then r.year == t.year + 1 && r.month == 1
            else r.year == t.year && r.month == t.month + 1
  {
    var r := AddMonth(t);
    assert 12 * r.year + r.month == 12 * t.year + t.month + 1;
    if t.month == 12 {
      assert r.year == t.year + 1;
    } else {
      assert r.year == t.year;
    }
  }

  /** Clamping is never undone: the day-of-month never grows along a chain of
      month steps, so the 31st of January becomes the last day of February and
      then the same day of March. */
  lemma ClampPersists(t: DateTime)
    requires WellFormed(t) && t.month == 1 && t.day == 31
    ensures var feb := AddMonth(t);
            var mar := AddMonth(feb);
            feb.month == 2 && feb.day == DaysInMonth(t.year, 2)
            && mar.month == 3 && mar.day == feb.day && mar.day < 31
  {
    AddMonthYearWrap(t);
    AddMonthYearWrap(AddMonth(t));
  }

  /** A month step from a valid date fails exactly from December 9999. */
  lemma PlusMonthSpec(t: DateTime)
    requires Valid(t)
    ensures PlusMonth(t).Failure? <==> t.year == MaxYear && t.month == 12
    ensures PlusMonth(t).Failure? ==> PlusMonth(t).error == ValueError
  {
    AddMonthYearWrap(t);
  }

  lemma {:induction false} DaysBeforeMonthMonotone(y: int, m: int, n: int)
    requires 1 <= m <= n <= 13
    ensures DaysBeforeMonth(y, m) <= DaysBeforeMonth(y, n)
    decreases n - m
  {
    if m < n {
      DaysBeforeMonthMonotone(y, m, n - 1);
    }
  }

  /** Between well-formed date-times, the field order is the time-line order. */
  lemma StampOrderIsTimeOrder(a: DateTime, b: DateTime)
    requires WellFormed(a) && WellFormed(b)
    ensures Stamp(a) < Stamp(b) <==> Instant(a) < Instant(b)
  {
    if a.year < b.year || (a.year == b.year && (a.month < b.month || (a.month == b.month && a.day < b.day))) {
      DateOrderIsOrdinalOrder(a, b);
    } else if b.year < a.year || (a.year == b.year && (b.month < a.month || (a.month == b.month && b.day < a.day))) {
      DateOrderIsOrdinalOrder(b, a);
    }
  }

  /** An earlier calendar date has a smaller ordinal. */
  lemma DateOrderIsOrdinalOrder(a: DateTime, b: DateTime)
    requires WellFormed(a) && WellFormed(b)
    requires a.year < b.year || (a.year == b.year && (a.month < b.month || (a.month == b.month && a.day < b.day)))
    ensures Ordinal(a) < Ordinal(b)
    ensures Stamp(a) < Stamp(b)
  {
    if a.year < b.year {
      OrdinalWithinYear(a);
      OrdinalWithinYear(b);
      DaysBeforeYearMonotone(a.year + 1, b.year);
    } else if a.month < b.month {
      assert DaysBeforeMonth(a.year, a.month + 1) == DaysBeforeMonth(a.year, a.month) + DaysInMonth(a.year, a.month);
      DaysBeforeMonthMonotone(a.year, a.month + 1, b.month);
    }
  }
}
