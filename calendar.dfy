/** The proleptic Gregorian calendar, and the part of JavaScript's `Date` the controllers use:
    the multi-argument constructor, which reads its arguments as local wall-clock time.
    A `Date` object is modelled by its time value (milliseconds since 1970-01-01T00:00Z), and
    None stands for an Invalid Date. The local zone is a fixed offset `tz` (local = UTC + tz);
    daylight-saving changes are not modelled. */
module Calendar {
  import opened Common

  /** A civil date; `month` is 1-based. */
  datatype Date = Date(year: int, month: int, day: int)

  const DayMs: int := 86_400_000
  const HourMs: int := 3_600_000
  const MinuteMs: int := 60_000
  /** The largest magnitude of a valid time value (TimeClip). */
  const MaxTimeValue: int := 8_640_000_000_000_000

  /** Offsets of real time zones lie strictly within one day of UTC. */
  type TzOffset = t: int | -DayMs < t < DayMs

  predicate IsLeapYear(y: int) {
    y % 4 == 0 && (y % 100 != 0 || y % 400 == 0)
  }

  function DaysInYear(y: int): int {
    if IsLeapYear(y) then 366 else 365
  }

  function DaysInMonth(y: int, m: int): (n: int)
    requires 1 <= m <= 12
    ensures 28 <= n <= 31
  {
    if m == 2 then (if IsLeapYear(y) then 29 else 28)
    else if m == 4 || m == 6 || m == 9 || m == 11 then 30
    else 31
  }

  predicate IsValid(d: Date) {
    1 <= d.month <= 12 && 1 <= d.day <= DaysInMonth(d.year, d.month)
  }

  /** Days of year y before the first of month m. */
  function DaysBeforeMonth(y: int, m: int): int
    requires 1 <= m <= 12
  {
    [0, 31, 59, 90, 120, 151, 181, 212, 243, 273, 304, 334][m - 1]
      + (if IsLeapYear(y) && m > 2 then 1 else 0)
  }

  /** Leap years among the years 0 .. y-1 (negative for y < 0). */
  function LeapYearsBefore(y: int): int {
    (y + 3) / 4 - (y + 99) / 100 + (y + 399) / 400
  }

  /** Days from 0000-01-01 to y-01-01. */
  function DaysBeforeYear(y: int): int {
    365 * y + LeapYearsBefore(y)
  }

  /** Days from 0000-01-01 to 1970-01-01. */
  const EpochDays: int := 719_528

  /** Days since 1970-01-01 of a date whose month is in range (the day may overflow). */
  function DayNumber(d: Date): int
    requires 1 <= d.month <= 12
  {
    DaysBeforeYear(d.year) - EpochDays + DaysBeforeMonth(d.year, d.month) + d.day - 1
  }

  lemma EpochIsDayZero()
    ensures DayNumber(Date(1970, 1, 1)) == 0
  {
  }

  lemma LeapYearsStep(y: int)
    ensures LeapYearsBefore(y + 1) == LeapYearsBefore(y) + (if IsLeapYear(y) then 1 else 0)
  {
    assert (y + 4) / 4 - (y + 3) / 4 == (if y % 4 == 0 then 1 else 0);
    assert (y + 100) / 100 - (y + 99) / 100 == (if y % 100 == 0 then 1 else 0);
    assert (y + 400) / 400 - (y + 399) / 400 == (if y % 400 == 0 then 1 else 0);
  }

  /** Consecutive years are DaysInYear apart. */
  lemma DaysBeforeNextYear(y: int)
    ensures DaysBeforeYear(y + 1) == DaysBeforeYear(y) + DaysInYear(y)
  {
    LeapYearsStep(y);
  }

  lemma {:induction false} DaysBeforeYearMonotone(y1: int, y2: int)
    requires y1 <= y2
    ensures DaysBeforeYear(y1) <= DaysBeforeYear(y2)
    decreases y2 - y1
  {
    if y1 < y2 {
      DaysBeforeNextYear(y1);
      DaysBeforeYearMonotone(y1 + 1, y2);
    }
  }

  /** Consecutive months are DaysInMonth apart, and December ends the year. */
  lemma DaysBeforeNextMonth(y: int, m: int)
    requires 1 <= m <= 12
    ensures m < 12 ==> DaysBeforeMonth(y, m + 1) == DaysBeforeMonth(y, m) + DaysInMonth(y, m)
    ensures m == 12 ==> DaysBeforeMonth(y, m) + DaysInMonth(y, m) == DaysInYear(y)
  {
  }

  lemma {:induction false} DaysBeforeMonthMonotone(y: int, m1: int, m2: int)
    requires 1 <= m1 < m2 <= 12
    ensures DaysBeforeMonth(y, m1) + DaysInMonth(y, m1) <= DaysBeforeMonth(y, m2)
    decreases m2 - m1
  {
    DaysBeforeNextMonth(y, m1);
    if m1 + 1 < m2 {
      DaysBeforeMonthMonotone(y, m1 + 1, m2);
    }
  }

  /** The position of a valid date within its year. */
  lemma YearDayBounds(d: Date)
    requires IsValid(d)
    ensures 0 <= DaysBeforeMonth(d.year, d.month) + d.day - 1 < DaysInYear(d.year)
  {
    DaysBeforeNextMonth(d.year, d.month);
    if d.month < 12 {
      DaysBeforeNextMonth(d.year, 12);
      DaysBeforeMonthMonotone(d.year, d.month, 12);
    }
  }

  /** Calendar order: year, then month, then day. */
  predicate NotAfter(a: Date, b: Date) {
    a.year < b.year
    || (a.year == b.year && (a.month < b.month || (a.month == b.month && a.day <= b.day)))
  }

  /** A date in an earlier year has a smaller day number. */
  lemma EarlierYear(lo: Date, hi: Date)
    requires IsValid(lo) && IsValid(hi) && lo.year < hi.year
    ensures DayNumber(lo) < DayNumber(hi)
  {
    YearDayBounds(lo);
    YearDayBounds(hi);
    DaysBeforeNextYear(lo.year);
    DaysBeforeYearMonotone(lo.year + 1, hi.year);
  }

  /** A date in an earlier month of the same year has a smaller day number. */
  lemma EarlierMonth(lo: Date, hi: Date)
    requires IsValid(lo) && IsValid(hi) && lo.year == hi.year && lo.month < hi.month
    ensures DayNumber(lo) < DayNumber(hi)
  {
    DaysBeforeMonthMonotone(lo.year, lo.month, hi.month);
  }

  /** Day numbers order valid dates exactly as the calendar does. */
  lemma DayNumberOrder(a: Date, b: Date)
    requires IsValid(a) && IsValid(b)
    ensures NotAfter(a, b) <==> DayNumber(a) <= DayNumber(b)
  {
    if a.year < b.year {
      EarlierYear(a, b);
    } else if b.year < a.year {
      EarlierYear(b, a);
    } else if a.month < b.month {
      EarlierMonth(a, b);
    } else if b.month < a.month {
      EarlierMonth(b, a);
    }
  }

  /** Different valid dates have different day numbers. */
  lemma DayNumberInjective(a: Date, b: Date)
    requires IsValid(a) && IsValid(b) && DayNumber(a) == DayNumber(b)
    ensures a == b
  {
    DayNumberOrder(a, b);
    DayNumberOrder(b, a);
  }

  // ---------------------------------------------------------------------------------------
  // Neighbouring days

  function NextDay(d: Date): (n: Date)
    requires IsValid(d)
    ensures IsValid(n)
  {
    if d.day < DaysInMonth(d.year, d.month) then Date(d.year, d.month, d.day + 1)
    else if d.month < 12 then Date(d.year, d.month + 1, 1)
    else Date(d.year + 1, 1, 1)
  }

  function PrevDay(d: Date): (p: Date)
    requires IsValid(d)
    ensures IsValid(p)
  {
    if d.day > 1 then Date(d.year, d.month, d.day - 1)
    else if d.month > 1 then Date(d.year, d.month - 1, DaysInMonth(d.year, d.month - 1))
    else Date(d.year - 1, 12, 31)
  }

  /** NextDay is the day after, across month and year ends. */
  lemma NextDayNumber(d: Date)
    requires IsValid(d)
    ensures DayNumber(NextDay(d)) == DayNumber(d) + 1
  {
    DaysBeforeNextMonth(d.year, d.month);
    if d.month == 12 && d.day == 31 {
      DaysBeforeNextYear(d.year);
    }
  }

  lemma PrevDayNumber(d: Date)
    requires IsValid(d)
    ensures DayNumber(PrevDay(d)) == DayNumber(d) - 1
  {
    if d.day == 1 {
      if d.month > 1 {
        DaysBeforeNextMonth(d.year, d.month - 1);
      } else {
        DaysBeforeNextYear(d.year - 1);
        DaysBeforeNextMonth(d.year - 1, 12);
      }
    }
  }

  // ---------------------------------------------------------------------------------------
  // JavaScript's Date constructor

  /** The two-digit-year rule of `new Date(y, ...)`: years 0..99 mean 1900..1999. */
  function FullYear(y: int): int {
    if 0 <= y <= 99 then 1900 + y else y
  }

  /** MakeDay(year, month, date): the month is 0-based and may lie outside 0..11, the date may
      lie outside the month; both overflow into the following or preceding months. */
  function MakeDay(y: int, m0: int, d: int): int {
    DayNumber(Date(y + m0 / 12, m0 % 12 + 1, 1)) + d - 1
  }

  function MakeTime(h: int, mi: int, s: int, ms: int): int {
    h * HourMs + mi * MinuteMs + s * 1000 + ms
  }

  /** TimeClip of a UTC time value. */
  function Clip(t: int): Option<int> {
    if -MaxTimeValue <= t <= MaxTimeValue then Some(t) else None
  }

  /** `new Date(y, m0, d, h, mi, s, ms)` in a zone tz milliseconds ahead of UTC. */
  function NewDate(y: int, m0: int, d: int, h: int, mi: int, s: int, ms: int, tz: TzOffset): Option<int> {
    Clip(MakeDay(FullYear(y), m0, d) * DayMs + MakeTime(h, mi, s, ms) - tz)
  }

  /** The time value of a local wall-clock time on a valid date. */
  function LocalInstant(d: Date, h: int, mi: int, s: int, ms: int, tz: TzOffset): Option<int>
    requires 1 <= d.month <= 12
  {
    Clip(DayNumber(d) * DayMs + MakeTime(h, mi, s, ms) - tz)
  }

  /** With an in-range month the constructor is the local instant of that date. */
  lemma NewDateInRange(y: int, m: int, d: int, h: int, mi: int, s: int, ms: int, tz: TzOffset)
    requires 1 <= m <= 12
    ensures NewDate(y, m - 1, d, h, mi, s, ms, tz) == LocalInstant(Date(FullYear(y), m, d), h, mi, s, ms, tz)
  {
    assert (m - 1) / 12 == 0 && (m - 1) % 12 == m - 1;
  }

  /** The calendar date that a time value falls on in UTC; PostgreSQL compares a `date` column
      with a bound sent as `toISOString()` by this date. */
  function UtcDay(t: int): int {
    t / DayMs
  }

  lemma UtcDayOf(day: int, offset: int)
    requires 0 <= offset < DayMs
    ensures UtcDay(day * DayMs + offset) == day
  {
  }

  /** The local calendar date on which a `date` column read back as UTC midnight is seen:
      the same date east of UTC, the day before west of it. */
  function LocalDateOfUtcMidnight(d: Date, tz: TzOffset): (l: Date)
    requires IsValid(d)
    ensures IsValid(l)
  {
    if tz >= 0 then d else PrevDay(d)
  }

  /** LocalDateOfUtcMidnight is the date of the local day number that `getFullYear()` and
      `getMonth()` read. */
  lemma LocalDateOfUtcMidnightDay(d: Date, tz: TzOffset)
    requires IsValid(d)
    ensures DayNumber(LocalDateOfUtcMidnight(d, tz)) == (DayNumber(d) * DayMs + tz) / DayMs
  {
    if tz >= 0 {
      UtcDayOf(DayNumber(d), tz);
    } else {
      PrevDayNumber(d);
      UtcDayOf(DayNumber(d) - 1, DayMs + tz);
      assert DayNumber(d) * DayMs + tz == (DayNumber(d) - 1) * DayMs + (DayMs + tz);
    }
  }

  // ---------------------------------------------------------------------------------------
  // Month arithmetic used by the dashboard windows

  /** The first day of the month k months before (y, m), rolling back across year ends. */
  function MonthsBack(y: int, m: int, k: nat): (r: Date)
    requires 1 <= m <= 12 && k < 12
    ensures IsValid(r) && r.day == 1
  {
    if m > k then Date(y, m - k, 1) else Date(y - 1, m + 12 - k, 1)
  }

  /** `new Date(y, m0 - 11, 1, ...)` lands on the first of the month eleven months back. */
  lemma MakeDayMonthsBack(y: int, m: int)
    requires 1 <= m <= 12
    ensures MakeDay(y, m - 1 - 11, 1) == DayNumber(MonthsBack(y, m, 11))
  {
    if m == 12 {
      assert (m - 12) / 12 == 0 && (m - 12) % 12 == 0;
    } else {
      assert (m - 12) / 12 == -1 && (m - 12) % 12 == m;
    }
  }

  /** `new Date(y, m, 0, ...)` with a 1-based month m lands on the last day of month m. */
  lemma MakeDayMonthEnd(y: int, m: int)
    requires 1 <= m <= 12
    ensures MakeDay(y, m, 0) == DayNumber(Date(y, m, DaysInMonth(y, m)))
  {
    NextDayNumber(Date(y, m, DaysInMonth(y, m)));
    if m == 12 {
      assert m / 12 == 1 && m % 12 == 0;
    } else {
      assert m / 12 == 0 && m % 12 == m;
    }
  }
}
