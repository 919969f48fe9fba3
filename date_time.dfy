/** The part of the ECMAScript Date object that the receipt list relies on:
    `new Date(v)` (TimeClip), `getFullYear()`, `getMonth()` and the local
    calendar date, following section 21.4.1 of ECMA-262 (Date objects).
    Time values are integers counting milliseconds from 1970-01-01T00:00Z;
    day numbers count days from 1970-01-01. */
module DateTime {
  import opened Wrappers

  const MsPerDay: int := 86_400_000
  /** Largest magnitude of a valid time value (section 21.4.1.1 of ECMA-262). */
  const MaxTimeValue: int := 8_640_000_000_000_000

  /** A local calendar date of the proleptic Gregorian calendar. */
  datatype CalendarDate = CalendarDate(year: int, month: int, day: int)

  predicate InLeapYear(y: int)
  {
    y % 4 == 0 && (y % 100 != 0 || y % 400 == 0)
  }

  function DaysInYear(y: int): int
  {
    if InLeapYear(y) then 366 else 365
  }

  function DaysInMonth(y: int, m: int): int
    requires 1 <= m <= 12
  {
    if m == 2 then (if InLeapYear(y) then 29 else 28)
    else if m == 4 || m == 6 || m == 9 || m == 11 then 30
    else 31
  }

  predicate ValidDate(c: CalendarDate)
  {
    1 <= c.month <= 12 && 1 <= c.day <= DaysInMonth(c.year, c.month)
  }

  /** Day number of January 1st of year y (DayFromYear of ECMA-262);
      Dafny's `/` by a positive constant is the floor the standard asks for. */
  function DayFromYear(y: int): int
  {
    365 * (y - 1970) + (y - 1969) / 4 - (y - 1901) / 100 + (y - 1601) / 400
  }

  /** Number of days of year y before the first day of month m (m == 13
      gives the length of the year): the month thresholds of MonthFromTime. */
  function DaysBeforeMonth(y: int, m: int): int
    requires 1 <= m <= 13
  {
    [0, 31, 59, 90, 120, 151, 181, 212, 243, 273, 304, 334, 365][m - 1]
      + (if m > 2 && InLeapYear(y) then 1 else 0)
  }

  /** Consecutive years are DaysInYear apart: the DayFromYear formula
      counts exactly the Gregorian leap years. */
  lemma DayFromYearStep(y: int)
    ensures DayFromYear(y + 1) == DayFromYear(y) + DaysInYear(y)
  {
    assert DayFromYear(y + 1) == 365 * (y - 1969) + (y - 1968) / 4 - (y - 1900) / 100 + (y - 1600) / 400;
    FloorStep4(y);
    FloorStep100(y);
    FloorStep400(y);
    LeapCount(y);
  }

  /** A multiple of 400 is one of 100, and a multiple of 100 is one of 4. */
  lemma LeapCount(y: int)
    ensures (if y % 4 == 0 then 1 else 0) - (if y % 100 == 0 then 1 else 0) + (if y % 400 == 0 then 1 else 0)
         == DaysInYear(y) - 365
  {
    if y % 100 == 0 {
      var q := y / 100;
      assert y == 100 * q;
      assert y == 4 * (25 * q);
    }
    if y % 400 == 0 {
      var q := y / 400;
      assert y == 100 * (4 * q);
    }
  }

  lemma FloorStep4(y: int)
    ensures (y - 1968) / 4 == (y - 1969) / 4 + (if y % 4 == 0 then 1 else 0)
  {
    var q := (y - 1969) / 4;
    assert y - 1969 == 4 * q + (y - 1969) % 4;
  }

  lemma FloorStep100(y: int)
    ensures (y - 1900) / 100 == (y - 1901) / 100 + (if y % 100 == 0 then 1 else 0)
  {
    var q := (y - 1901) / 100;
    assert y - 1901 == 100 * q + (y - 1901) % 100;
  }

  lemma FloorStep400(y: int)
    ensures (y - 1600) / 400 == (y - 1601) / 400 + (if y % 400 == 0 then 1 else 0)
  {
    var q := (y - 1601) / 400;
    assert y - 1601 == 400 * q + (y - 1601) % 400;
  }

  lemma {:induction false} DayFromYearMonotone(a: int, b: int)
    requires a <= b
    ensures DayFromYear(a) + 365 * (b - a) <= DayFromYear(b)
    decreases b - a
  {
    if a < b {
      DayFromYearStep(a);
      DayFromYearMonotone(a + 1, b);
    }
  }

  function YearAtOrAbove(dayNumber: int, y: int): (r: int)
    requires DayFromYear(y) <= dayNumber
    ensures y <= r
    ensures DayFromYear(r) <= dayNumber < DayFromYear(r + 1)
    decreases dayNumber - DayFromYear(y)
  {
    DayFromYearStep(y);
    if dayNumber < DayFromYear(y + 1) then y else YearAtOrAbove(dayNumber, y + 1)
  }

  function YearAtOrBelow(dayNumber: int, y: int): (r: int)
    requires dayNumber < DayFromYear(y + 1)
    ensures r <= y
    ensures DayFromYear(r) <= dayNumber < DayFromYear(r + 1)
    decreases DayFromYear(y + 1) - dayNumber
  {
    DayFromYearStep(y);
    if DayFromYear(y) <= dayNumber then y else YearAtOrBelow(dayNumber, y - 1)
  }

  /** The year that contains day number dayNumber. */
  function YearFromDay(dayNumber: int): (y: int)
    ensures DayFromYear(y) <= dayNumber < DayFromYear(y + 1)
  {
    if dayNumber < 0 then YearAtOrBelow(dayNumber, 1969) else YearAtOrAbove(dayNumber, 1970)
  }

  /** The year containing a day is the only year whose range contains it. */
  lemma YearFromDayUnique(dayNumber: int, y: int)
    requires DayFromYear(y) <= dayNumber < DayFromYear(y + 1)
    ensures YearFromDay(dayNumber) == y
  {
    var r := YearFromDay(dayNumber);
    if r < y {
      DayFromYearMonotone(r + 1, y);
    } else if y < r {
      DayFromYearMonotone(y + 1, r);
    }
  }

  function MonthAtOrAfter(y: int, dayInYear: int, m: int): (r: int)
    requires 1 <= m <= 12
    requires DaysBeforeMonth(y, m) <= dayInYear < DaysInYear(y)
    ensures m <= r <= 12
    ensures DaysBeforeMonth(y, r) <= dayInYear < DaysBeforeMonth(y, r + 1)
    decreases 12 - m
  {
    if dayInYear < DaysBeforeMonth(y, m + 1) then m else MonthAtOrAfter(y, dayInYear, m + 1)
  }

  /** The month (1..12) that contains the dayInYear-th day (from 0) of year y. */
  function MonthFromDayInYear(y: int, dayInYear: int): (m: int)
    requires 0 <= dayInYear < DaysInYear(y)
    ensures 1 <= m <= 12
    ensures DaysBeforeMonth(y, m) <= dayInYear < DaysBeforeMonth(y, m + 1)
  {
    MonthAtOrAfter(y, dayInYear, 1)
  }

  lemma MonthFromDayInYearUnique(y: int, dayInYear: int, m: int)
    requires 1 <= m <= 12
    requires DaysBeforeMonth(y, m) <= dayInYear < DaysBeforeMonth(y, m + 1)
    ensures 0 <= dayInYear < DaysInYear(y)
    ensures MonthFromDayInYear(y, dayInYear) == m
  {
    assert DaysBeforeMonth(y, 1) <= DaysBeforeMonth(y, m) && DaysBeforeMonth(y, m + 1) <= DaysBeforeMonth(y, 13);
  }

  /** Day number of a calendar date (MakeDay of ECMA-262). */
  function DayFromDate(c: CalendarDate): int
    requires ValidDate(c)
  {
    DayFromYear(c.year) + DaysBeforeMonth(c.year, c.month) + c.day - 1
  }

  /** The calendar date of a day number: YearFromTime, MonthFromTime and
      DateFromTime of ECMA-262 taken together. */
  function DateFromDay(dayNumber: int): (c: CalendarDate)
    ensures ValidDate(c)
    ensures DayFromDate(c) == dayNumber
  {
    var y := YearFromDay(dayNumber);
    DayFromYearStep(y);
    var dayInYear := dayNumber - DayFromYear(y);
    var m := MonthFromDayInYear(y, dayInYear);
    CalendarDate(y, m, dayInYear - DaysBeforeMonth(y, m) + 1)
  }

  /** Every valid date is the date of its own day number, so a date and its
      day number determine each other. */
  lemma {:induction false} DateFromDayOfDate(c: CalendarDate)
    requires ValidDate(c)
    ensures DateFromDay(DayFromDate(c)) == c
  {
    var n := DayFromDate(c);
    var dayInYear := n - DayFromYear(c.year);
    MonthFromDayInYearUnique(c.year, dayInYear, c.month);
    DayFromYearStep(c.year);
    YearFromDayUnique(n, c.year);
  }

  /** Day(t) of ECMA-262: floor(t / msPerDay). */
  function Day(t: int): int
  {
    t / MsPerDay
  }

  /** TimeFromYear of ECMA-262. */
  function TimeFromYear(y: int): int
  {
    MsPerDay * DayFromYear(y)
  }

  /** YearFromTime of ECMA-262: the largest y whose first instant is at or before t. */
  function YearFromTime(t: int): (y: int)
    ensures TimeFromYear(y) <= t < TimeFromYear(y + 1)
  {
    YearFromDay(Day(t))
  }

  /** `new Date(v)` on a time value: TimeClip turns out-of-range values into NaN. */
  function TimeClip(v: Option<int>): (r: Option<int>)
    ensures r.Some? <==> v.Some? && -MaxTimeValue <= v.value <= MaxTimeValue
    ensures r.Some? ==> r == v
  {
    if v.Some? && -MaxTimeValue <= v.value <= MaxTimeValue then v else None
  }

  /** The local calendar date of a Date object whose time value is t, in a
      host time zone whose offset (in ms) at instant u is zone(u); NaN has none. */
  function LocalDate(t: Option<int>, zone: int -> int): (r: Option<CalendarDate>)
    ensures r.Some? <==> t.Some?
    ensures r.Some? ==> ValidDate(r.value)
    ensures r.Some? ==> DayFromDate(r.value) == Day(t.value + zone(t.value))
  {
    if t.None? then None else Some(DateFromDay(Day(t.value + zone(t.value))))
  }

  /** `getMonth() + 1`: NaN for an invalid date, otherwise the month (1..12)
      that MonthFromTime finds for the local day within its local year. */
  function LocalMonth(t: Option<int>, zone: int -> int): (r: Option<int>)
    ensures r.Some? <==> t.Some?
    ensures r.Some? ==> 1 <= r.value <= 12
    ensures r.Some? ==>
      var lt := t.value + zone(t.value);
      var y := YearFromTime(lt);
      DaysBeforeMonth(y, r.value) <= Day(lt) - DayFromYear(y) < DaysBeforeMonth(y, r.value + 1)
  {
    match LocalDate(t, zone)
    case None => None
    case Some(c) => Some(c.month)
  }

  /** `getFullYear()`: NaN for an invalid date, otherwise the local year. */
  function LocalYear(t: Option<int>, zone: int -> int): (r: Option<int>)
    ensures r.Some? <==> t.Some?
    ensures r.Some? ==> r.value == YearFromTime(t.value + zone(t.value))
  {
    match LocalDate(t, zone)
    case None => None
    case Some(c) => Some(c.year)
  }
}
