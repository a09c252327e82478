/** The proleptic Gregorian calendar as JavaScript's `Date` uses it: leap
    years, month lengths, day numbers counted from 1970-01-01, weekdays, and
    the `toISOString` rendering of a time value (section 21.4.4.36 of
    ECMA-262). Months are numbered 1 to 12. */
module Gregorian {
  import Text

  /** A time value: milliseconds since 1970-01-01T00:00:00Z, within the range
      a JavaScript `Date` can hold (section 21.4.1.31 of ECMA-262). */
  const MaxTime: int := 8640000000000000
  type Time = t: int | -MaxTime <= t <= MaxTime

  const MsPerDay: int := 86400000

  predicate IsLeapYear(y: int) {
    y % 4 == 0 && (y % 100 != 0 || y % 400 == 0)
  }

  function YearLength(y: int): int {
    if IsLeapYear(y) then 366 else 365
  }

  function DaysInMonth(y: int, m: int): (n: int)
    requires 1 <= m <= 12
    ensures 28 <= n <= 31
  {
    if m == 2 then (if IsLeapYear(y) then 29 else 28)
    else if m == 4 || m == 6 || m == 9 || m == 11 then 30
    else 31
  }

  /** Days in the months of year `y` before month `m`; `m == 13` gives the
      whole year. */
  function DaysBeforeMonth(y: int, m: int): int
    requires 1 <= m <= 13
  {
    var base :=
      if m == 1 then 0 else if m == 2 then 31 else if m == 3 then 59
      else if m == 4 then 90 else if m == 5 then 120 else if m == 6 then 151
      else if m == 7 then 181 else if m == 8 then 212 else if m == 9 then 243
      else if m == 10 then 273 else if m == 11 then 304 else if m == 12 then 334
      else 365;
    if m > 2 && IsLeapYear(y) then base + 1 else base
  }

  lemma MonthStep(y: int, m: int)
    requires 1 <= m <= 12
    ensures DaysBeforeMonth(y, m + 1) == DaysBeforeMonth(y, m) + DaysInMonth(y, m)
    ensures DaysBeforeMonth(y, 13) == YearLength(y)
  {
  }

  /** Leap years among 1..x, extended to every integer by floor division. */
  function LeapsThrough(x: int): int {
    x / 4 - x / 100 + x / 400
  }

  /** Day number of January 1 of year `y`, counted from 1970-01-01. */
  function DaysBeforeYear(y: int): int {
    365 * (y - 1970) + LeapsThrough(y - 1) - LeapsThrough(1969)
  }

  lemma LeapStep(y: int)
    ensures LeapsThrough(y) - LeapsThrough(y - 1) == if IsLeapYear(y) then 1 else 0
  {
    var a := y / 4 - (y - 1) / 4;
    var b := y / 100 - (y - 1) / 100;
    var c := y / 400 - (y - 1) / 400;
    assert a == if y % 4 == 0 then 1 else 0;
    assert b == if y % 100 == 0 then 1 else 0;
    assert c == if y % 400 == 0 then 1 else 0;
    if y % 400 == 0 {
      assert y % 100 == 0 && y % 4 == 0;
    } else if y % 100 == 0 {
      assert y % 4 == 0;
    }
  }

  /** Consecutive years are one year length apart. */
  lemma YearStep(y: int)
    ensures DaysBeforeYear(y + 1) == DaysBeforeYear(y) + YearLength(y)
  {
    LeapStep(y);
  }

  /** Later years start strictly later. */
  lemma {:induction false} YearsIncrease(a: int, b: int)
    requires a < b
    ensures DaysBeforeYear(a + 1) <= DaysBeforeYear(b)
    decreases b - a
  {
    if a + 1 < b {
      YearsIncrease(a, b - 1);
      YearStep(b - 1);
    }
  }

  /** A calendar date. */
  datatype CivilDate = CivilDate(year: int, month: int, day: int)

  predicate ValidDate(d: CivilDate) {
    1 <= d.month <= 12 && 1 <= d.day <= DaysInMonth(d.year, d.month)
  }

  /** Day number of a date, counted from 1970-01-01 (day 0). */
  function DayNumber(d: CivilDate): int
    requires ValidDate(d)
  {
    DaysBeforeYear(d.year) + DaysBeforeMonth(d.year, d.month) + d.day - 1
  }

  /** The day number of a valid date lies within its year. */
  lemma DayNumberInYear(d: CivilDate)
    requires ValidDate(d)
    ensures DaysBeforeYear(d.year) <= DayNumber(d) < DaysBeforeYear(d.year + 1)
  {
    MonthStep(d.year, d.month);
    YearStep(d.year);
    MonthsIncrease(d.year, d.month + 1, 13);
  }

  lemma {:induction false} MonthsIncrease(y: int, a: int, b: int)
    requires 1 <= a <= b <= 13
    ensures DaysBeforeMonth(y, a) <= DaysBeforeMonth(y, b)
    decreases b - a
  {
    if a < b {
      MonthsIncrease(y, a, b - 1);
      MonthStep(y, b - 1);
    }
  }

  // ---------------------------------------------------------------------
  // From a day number back to a date
  // ---------------------------------------------------------------------

  function YearUp(n: int, y: int): (r: int)
    requires DaysBeforeYear(y) <= n
    ensures DaysBeforeYear(r) <= n < DaysBeforeYear(r + 1)
    decreases n - DaysBeforeYear(y)
  {
    YearStep(y);
    if n < DaysBeforeYear(y + 1) then y else YearUp(n, y + 1)
  }

  function YearDown(n: int, y: int): (r: int)
    requires n < DaysBeforeYear(y + 1)
    ensures DaysBeforeYear(r) <= n < DaysBeforeYear(r + 1)
    decreases DaysBeforeYear(y + 1) - n
  {
    YearStep(y - 1);
    if DaysBeforeYear(y) <= n then y else YearDown(n, y - 1)
  }

  /** The year whose days include day number `n`. */
  function YearOfDay(n: int): (y: int)
    ensures DaysBeforeYear(y) <= n < DaysBeforeYear(y + 1)
  {
    if n >= 0 then YearUp(n, 1970) else YearDown(n, 1969)
  }

  function MonthFrom(y: int, dayOfYear: int, m: int): (r: int)
    requires 1 <= m <= 12 && DaysBeforeMonth(y, m) <= dayOfYear < YearLength(y)
    ensures 1 <= r <= 12
    ensures DaysBeforeMonth(y, r) <= dayOfYear < DaysBeforeMonth(y, r + 1)
    decreases 12 - m
  {
    MonthStep(y, m);
    if dayOfYear < DaysBeforeMonth(y, m + 1) then m else MonthFrom(y, dayOfYear, m + 1)
  }

  /** The date of day number `n`: the inverse of `DayNumber`. */
  function DateOfDay(n: int): (d: CivilDate)
    ensures ValidDate(d)
    ensures DayNumber(d) == n
  {
    var y := YearOfDay(n);
    YearStep(y);
    var doy := n - DaysBeforeYear(y);
    var m := MonthFrom(y, doy, 1);
    MonthStep(y, m);
    CivilDate(y, m, doy - DaysBeforeMonth(y, m) + 1)
  }

  /** Different valid dates have different day numbers. */
  lemma DayNumberInjective(a: CivilDate, b: CivilDate)
    requires ValidDate(a) && ValidDate(b) && DayNumber(a) == DayNumber(b)
    ensures a == b
  {
    DayNumberInYear(a);
    DayNumberInYear(b);
    if a.year < b.year {
      YearsIncrease(a.year, b.year);
    } else if b.year < a.year {
      YearsIncrease(b.year, a.year);
    }
    assert a.year == b.year;
    MonthStep(a.year, a.month);
    MonthStep(b.year, b.month);
    if a.month < b.month {
      MonthsIncrease(a.year, a.month + 1, b.month);
    } else if b.month < a.month {
      MonthsIncrease(a.year, b.month + 1, a.month);
    }
  }

  /** Converting a date to its day number and back gives the date. */
  lemma DateOfDayNumber(d: CivilDate)
    requires ValidDate(d)
    ensures DateOfDay(DayNumber(d)) == d
  {
    DayNumberInjective(DateOfDay(DayNumber(d)), d);
  }

  // ---------------------------------------------------------------------
  // Weekdays
  // ---------------------------------------------------------------------

  /** `Date.prototype.getDay`: 0 is Sunday; 1970-01-01 was a Thursday. */
  function Weekday(d: CivilDate): (w: int)
    requires ValidDate(d)
    ensures 0 <= w <= 6
  {
    (DayNumber(d) + 4) % 7
  }

  /** The weekday advances by one per day. */
  lemma WeekdayOffset(first: CivilDate, day: int)
    requires ValidDate(first) && first.day == 1
    requires 1 <= day <= DaysInMonth(first.year, first.month)
    ensures ValidDate(first.(day := day))
    ensures Weekday(first.(day := day)) == (Weekday(first) + day - 1) % 7
  {
    var n := DayNumber(first);
    assert DayNumber(first.(day := day)) == n + day - 1;
    ModSevenShift(n + 4, day - 1);
  }

  /** Known dates pin the numbering: 1970-01-04 was a Sunday and reads 0,
      1970-01-01 a Thursday (4), 2000-01-01 a Saturday (6) and 2024-02-29
      a Thursday (4). */
  lemma WeekdayAnchors()
    ensures Weekday(CivilDate(1970, 1, 4)) == 0
    ensures Weekday(CivilDate(1970, 1, 1)) == 4
    ensures Weekday(CivilDate(2000, 1, 1)) == 6
    ensures Weekday(CivilDate(2024, 2, 29)) == 4
  {
  }

  lemma ModSevenShift(x: int, k: int)
    ensures (x + k) % 7 == (x % 7 + k) % 7
  {
    var q := x / 7;
    assert x == 7 * q + x % 7;
    assert x + k == 7 * q + (x % 7 + k);
  }

  // ---------------------------------------------------------------------
  // Time values
  // ---------------------------------------------------------------------

  function DayOfTime(t: Time): int {
    t / MsPerDay
  }

  function TimeWithinDay(t: Time): (ms: int)
    ensures 0 <= ms < MsPerDay
  {
    t % MsPerDay
  }

  function DateOfTime(t: Time): (d: CivilDate)
    ensures ValidDate(d)
  {
    DateOfDay(DayOfTime(t))
  }

  // ---------------------------------------------------------------------
  // `Date.prototype.toISOString`
  // ---------------------------------------------------------------------

  /** The year field: four digits for years 0 to 9999, otherwise a sign and
      six digits. */
  function IsoYear(y: int): string {
    if 0 <= y <= 9999 then Text.PadDecimal(y, 4)
    else (if y < 0 then "-" else "+") + Text.PadDecimal(if y < 0 then -y else y, 6)
  }

  /** `YYYY-MM-DD`. */
  function IsoDate(t: Time): (s: string)
    ensures 'T' !in s && '.' !in s
  {
    var d := DateOfTime(t);
    var y, m, day := IsoYear(d.year), Text.PadDecimal(d.month, 2), Text.PadDecimal(d.day, 2);
    Text.NonDigitAbsent(m, 'T');
    Text.NonDigitAbsent(m, '.');
    Text.NonDigitAbsent(day, 'T');
    Text.NonDigitAbsent(day, '.');
    assert 'T' !in y && '.' !in y by {
      if 0 <= d.year <= 9999 {
        Text.NonDigitAbsent(y, 'T');
        Text.NonDigitAbsent(y, '.');
      } else {
        var digits := Text.PadDecimal(if d.year < 0 then -d.year else d.year, 6);
        Text.NonDigitAbsent(digits, 'T');
        Text.NonDigitAbsent(digits, '.');
        assert y == (if d.year < 0 then "-" else "+") + digits;
      }
    }
    y + "-" + m + "-" + day
  }

  /** `HH:MM:SS`. */
  function IsoClock(t: Time): (s: string)
    ensures 'T' !in s && '.' !in s
    ensures |s| == 8 && s[2] == ':' && s[5] == ':'
  {
    var ms := TimeWithinDay(t);
    Text.PadDecimalWidth(ms / 3600000, 2);
    Text.PadDecimalWidth(ms / 60000 % 60, 2);
    Text.PadDecimalWidth(ms / 1000 % 60, 2);
    Text.PadDecimal(ms / 3600000, 2) + ":" + Text.PadDecimal(ms / 60000 % 60, 2) + ":"
    + Text.PadDecimal(ms / 1000 % 60, 2)
  }

  /** The three-digit milliseconds field. */
  function IsoMillis(t: Time): (s: string)
    ensures |s| == 3 && 'T' !in s && '.' !in s
  {
    Text.PadDecimalWidth(TimeWithinDay(t) % 1000, 3);
    Text.PadDecimal(TimeWithinDay(t) % 1000, 3)
  }

  /** `YYYY-MM-DDTHH:MM:SS.sssZ`. */
  function IsoString(t: Time): string {
    IsoDate(t) + "T" + IsoClock(t) + "." + IsoMillis(t) + "Z"
  }

  /** The ISO string is at least 24 characters long. */
  lemma IsoStringLength(t: Time)
    ensures |IsoString(t)| >= 24
  {
    var y := DateOfTime(t).year;
    assert |IsoYear(y)| >= 4;
    assert |IsoDate(t)| >= 10;
  }

  /** For years 0 to 9999 the date part is exactly ten characters. */
  lemma IsoDateLength(t: Time)
    requires 0 <= DateOfTime(t).year <= 9999
    ensures |IsoDate(t)| == 10
  {
    var d := DateOfTime(t);
    Text.PadDecimalWidth(d.year, 4);
    Text.PadDecimalWidth(d.month, 2);
    Text.PadDecimalWidth(d.day, 2);
  }

  /** The rendered fields denote the date and time the value stands for. */
  lemma IsoFieldsDenoteTime(t: Time)
    ensures var ms := TimeWithinDay(t);
      && Text.DecimalValue(IsoClock(t)[..2]) == ms / 3600000
      && Text.DecimalValue(IsoClock(t)[3..5]) == ms / 60000 % 60
      && Text.DecimalValue(IsoClock(t)[6..]) == ms / 1000 % 60
      && Text.DecimalValue(IsoMillis(t)) == ms % 1000
  {
    var ms := TimeWithinDay(t);
    Text.PadDecimalWidth(ms / 3600000, 2);
    Text.PadDecimalWidth(ms / 60000 % 60, 2);
    Text.PadDecimalWidth(ms / 1000 % 60, 2);
    var c := IsoClock(t);
    assert c[..2] == Text.PadDecimal(ms / 3600000, 2);
    assert c[3..5] == Text.PadDecimal(ms / 60000 % 60, 2);
    assert c[6..] == Text.PadDecimal(ms / 1000 % 60, 2);
    Text.PadDecimalValue(ms / 3600000, 2);
    Text.PadDecimalValue(ms / 60000 % 60, 2);
    Text.PadDecimalValue(ms / 1000 % 60, 2);
    Text.PadDecimalValue(ms % 1000, 3);
  }
}
