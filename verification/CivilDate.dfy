/**
 * The UTC calendar of JavaScript dates (ECMA-262, section 21.4.1): time values in milliseconds, the
 * accessors getUTCFullYear and so on, and Date.UTC, which they invert.
 */
module CivilDate {
  import opened Collections

  const MS_PER_MINUTE := 60_000
  const MS_PER_HOUR := 3_600_000
  const MS_PER_DAY := 86_400_000
  const MAX_TIME := 8_640_000_000_000_000

  function Day(t: int): int {
    t / MS_PER_DAY
  }

  function TimeWithinDay(t: int): int {
    t % MS_PER_DAY
  }

  predicate Leap(y: int) {
    y % 4 == 0 && (y % 100 != 0 || y % 400 == 0)
  }

  /** The number of the first day of a year; division rounds down. */
  function DayFromYear(y: int): int {
    365 * (y - 1970) + (y - 1969) / 4 - (y - 1901) / 100 + (y - 1601) / 400
  }

  function DaysInYear(y: int): int {
    if Leap(y) then 366 else 365
  }

  /** Rounded-down quotients grow by one exactly at the multiples of the divisor. */
  lemma FourYears(y: int)
    ensures (y - 1968) / 4 == (y - 1969) / 4 + if y % 4 == 0 then 1 else 0
  {
  }

  lemma HundredYears(y: int)
    ensures (y - 1900) / 100 == (y - 1901) / 100 + if y % 100 == 0 then 1 else 0
  {
  }

  lemma FourHundredYears(y: int)
    ensures (y - 1600) / 400 == (y - 1601) / 400 + if y % 400 == 0 then 1 else 0
  {
  }

  lemma YearLength(y: int)
    ensures DayFromYear(y + 1) == DayFromYear(y) + DaysInYear(y)
  {
    FourYears(y);
    HundredYears(y);
    FourHundredYears(y);
    assert y % 400 == 0 ==> y % 100 == 0;
    assert y % 100 == 0 ==> y % 4 == 0;
  }

  /** Every year begins after the one before it. */
  ghost predicate Grows(start: int -> int) {
    forall y :: start(y) < start(y + 1)
  }

  lemma YearsGrow()
    ensures Grows(DayFromYear)
  {
    forall y ensures DayFromYear(y) < DayFromYear(y + 1) {
      YearLength(y);
    }
  }

  lemma {:induction false} InOrder(start: int -> int, a: int, b: int)
    requires Grows(start) && a <= b
    ensures start(a) <= start(b)
    decreases b - a
  {
    if a < b {
      InOrder(start, a + 1, b);
    }
  }

  /** Walks from a first guess to the year that holds a day. */
  function FindYear(start: int -> int, day: int, guess: int): (y: int)
    requires Grows(start)
    ensures start(y) <= day < start(y + 1)
    decreases if day < start(guess) then start(guess) - day
              else if day >= start(guess + 1) then day - start(guess + 1) + 1 else 0
  {
    assert start(guess - 1) < start(guess - 1 + 1);
    assert start(guess + 1) < start(guess + 1 + 1);
    if day < start(guess) then FindYear(start, day, guess - 1)
    else if day >= start(guess + 1) then FindYear(start, day, guess + 1)
    else guess
  }

  /** YearFromTime: the year y whose first instant is the last not after the time. */
  function YearOf(t: int): (y: int)
    ensures DayFromYear(y) <= Day(t) < DayFromYear(y + 1)
  {
    YearsGrow();
    FindYear(DayFromYear, Day(t), 1970)
  }

  lemma HeldOnce(start: int -> int, day: int, a: int, b: int)
    requires Grows(start)
    requires start(a) <= day < start(a + 1) && start(b) <= day < start(b + 1)
    ensures a == b
  {
    if a < b {
      InOrder(start, a + 1, b);
    } else if b < a {
      InOrder(start, b + 1, a);
    }
  }

  lemma YearUnique(day: int, a: int, b: int)
    requires DayFromYear(a) <= day < DayFromYear(a + 1)
    requires DayFromYear(b) <= day < DayFromYear(b + 1)
    ensures a == b
  {
    YearsGrow();
    HeldOnce(DayFromYear, day, a, b);
  }

  /** Days of the year before a month (0 to 12) begins. */
  function MonthStart(m: int, leap: bool): int
    requires 0 <= m <= 12
  {
    var extra := if leap then 1 else 0;
    if m == 0 then 0
    else if m == 1 then 31
    else extra + [59, 90, 120, 151, 181, 212, 243, 273, 304, 334, 365][m - 2]
  }

  function MonthOfDay(d: int, leap: bool): (m: int)
    requires 0 <= d < (if leap then 366 else 365)
    ensures 0 <= m < 12 && MonthStart(m, leap) <= d < MonthStart(m + 1, leap)
  {
    var extra := if leap then 1 else 0;
    if d < 31 then 0
    else if d < 59 + extra then 1
    else if d < 90 + extra then 2
    else if d < 120 + extra then 3
    else if d < 151 + extra then 4
    else if d < 181 + extra then 5
    else if d < 212 + extra then 6
    else if d < 243 + extra then 7
    else if d < 273 + extra then 8
    else if d < 304 + extra then 9
    else if d < 334 + extra then 10
    else 11
  }

  function DayInYear(t: int): (d: int)
    ensures 0 <= d < DaysInYear(YearOf(t))
  {
    YearLength(YearOf(t));
    Day(t) - DayFromYear(YearOf(t))
  }

  /** getUTCMonth: 0 to 11. */
  function MonthOf(t: int): (m: int)
    ensures 0 <= m < 12
  {
    MonthOfDay(DayInYear(t), Leap(YearOf(t)))
  }

  /** getUTCDate: 1 to 31. */
  function DateOf(t: int): (d: int)
    ensures 1 <= d <= 31
  {
    DayInYear(t) - MonthStart(MonthOf(t), Leap(YearOf(t))) + 1
  }

  function HourOf(t: int): (h: int)
    ensures 0 <= h < 24
  {
    TimeWithinDay(t) / MS_PER_HOUR
  }

  function MinuteOf(t: int): (m: int)
    ensures 0 <= m < 60
  {
    TimeWithinDay(t) % MS_PER_HOUR / MS_PER_MINUTE
  }

  /** MakeDay: months and days outside their range carry over. */
  function MakeDay(year: int, month: int, date: int): int {
    var y := year + month / 12;
    DayFromYear(y) + MonthStart(month % 12, Leap(y)) + date - 1
  }

  /** Date.UTC with two-digit years taken as nineteen-hundreds; None for a time out of range. */
  function DateUTC(year: int, month: int, date: int, hour: int, minute: int): Option<int> {
    var y := if 0 <= year <= 99 then 1900 + year else year;
    var t := MakeDay(y, month, date) * MS_PER_DAY + hour * MS_PER_HOUR + minute * MS_PER_MINUTE;
    if -MAX_TIME <= t <= MAX_TIME then Some(t) else None
  }

  /** A time cut down to its minute. */
  function Minute(t: int): int {
    t - t % MS_PER_MINUTE
  }

  lemma CutToMinute(t: int, minutes: int, rest: int)
    requires t == minutes * MS_PER_MINUTE + rest && 0 <= rest < MS_PER_MINUTE
    ensures Minute(t) == minutes * MS_PER_MINUTE
  {
  }

  lemma WithinDayParts(r: int)
    requires 0 <= r
    ensures r == r / MS_PER_HOUR * MS_PER_HOUR + r % MS_PER_HOUR / MS_PER_MINUTE * MS_PER_MINUTE
            + r % MS_PER_HOUR % MS_PER_MINUTE
  {
  }

  lemma MinuteParts(t: int)
    ensures Minute(t) == Day(t) * MS_PER_DAY + HourOf(t) * MS_PER_HOUR + MinuteOf(t) * MS_PER_MINUTE
  {
    WithinDayParts(TimeWithinDay(t));
    CutToMinute(t, Day(t) * 1440 + HourOf(t) * 60 + MinuteOf(t), TimeWithinDay(t) % MS_PER_HOUR % MS_PER_MINUTE);
  }

  /** The calendar fields of a time, put back together, give its day, leap years included. */
  lemma FieldsMakeDay(t: int)
    ensures MakeDay(YearOf(t), MonthOf(t), DateOf(t)) == Day(t)
  {
    assert MonthOf(t) / 12 == 0 && MonthOf(t) % 12 == MonthOf(t);
  }

  function DaysInMonth(year: int, month: int): int
    requires 0 <= month < 12
  {
    MonthStart(month + 1, Leap(year)) - MonthStart(month, Leap(year))
  }

  lemma MonthUnique(d: int, leap: bool, m: int)
    requires 0 <= d < (if leap then 366 else 365)
    requires 0 <= m < 12 && MonthStart(m, leap) <= d < MonthStart(m + 1, leap)
    ensures MonthOfDay(d, leap) == m
  {
  }

  lemma DayOfTime(t: int, day: int, within: int)
    requires t == day * MS_PER_DAY + within && 0 <= within < MS_PER_DAY
    ensures Day(t) == day && TimeWithinDay(t) == within
  {
  }

  /** The other way round: every calendar date is read back from the time it makes. */
  lemma MakeDayFields(year: int, month: int, date: int, within: int, t: int)
    requires 0 <= month < 12 && 1 <= date <= DaysInMonth(year, month) && 0 <= within < MS_PER_DAY
    requires t == MakeDay(year, month, date) * MS_PER_DAY + within
    ensures YearOf(t) == year && MonthOf(t) == month && DateOf(t) == date && TimeWithinDay(t) == within
  {
    var day := MakeDay(year, month, date);
    DayOfTime(t, day, within);
    MadeDayInMonth(year, month, date, day);
    YearReads(t, year);
    YearLength(year);
    MonthReads(t, Leap(year), month, date, day - DayFromYear(year));
  }

  lemma MadeDayInMonth(year: int, month: int, date: int, day: int)
    requires 0 <= month < 12 && 1 <= date <= DaysInMonth(year, month) && day == MakeDay(year, month, date)
    ensures DayFromYear(year) <= day < DayFromYear(year + 1)
    ensures day - DayFromYear(year) == MonthStart(month, Leap(year)) + date - 1 < MonthStart(month + 1, Leap(year))
  {
    assert month / 12 == 0 && month % 12 == month;
    YearLength(year);
    MonthEnds(month, Leap(year));
  }

  lemma MonthAndDate(t: int, leap: bool, month: int, d: int)
    requires DayInYear(t) == d && Leap(YearOf(t)) == leap && 0 <= d < (if leap then 366 else 365)
    requires 0 <= month < 12 && month == MonthOfDay(d, leap)
    ensures MonthOf(t) == month && DateOf(t) == d - MonthStart(month, leap) + 1
  {
  }

  lemma YearReads(t: int, year: int)
    requires DayFromYear(year) <= Day(t) < DayFromYear(year + 1)
    ensures YearOf(t) == year && DayInYear(t) == Day(t) - DayFromYear(year)
  {
    YearUnique(Day(t), YearOf(t), year);
  }

  lemma MonthReads(t: int, leap: bool, month: int, date: int, d: int)
    requires DayInYear(t) == d && Leap(YearOf(t)) == leap && 0 <= d < (if leap then 366 else 365)
    requires 0 <= month < 12 && 1 <= date && d == MonthStart(month, leap) + date - 1 < MonthStart(month + 1, leap)
    ensures MonthOf(t) == month && DateOf(t) == date
  {
    MonthUnique(d, leap, month);
    MonthAndDate(t, leap, month, d);
  }

  lemma MonthEnds(m: int, leap: bool)
    requires 0 <= m < 12
    ensures 0 <= MonthStart(m, leap) < MonthStart(m + 1, leap) <= if leap then 366 else 365
  {
  }

  /** Date.UTC undoes the accessors, up to the minute, from the year 100 on and within range. */
  lemma DateUTCInverts(t: int)
    requires YearOf(t) >= 100 && -MAX_TIME <= t <= MAX_TIME
    ensures DateUTC(YearOf(t), MonthOf(t), DateOf(t), HourOf(t), MinuteOf(t)) == Some(Minute(t))
  {
    FieldsMakeDay(t);
    MinuteParts(t);
    MinuteInRange(t);
    DateUTCOfDay(YearOf(t), MonthOf(t), DateOf(t), HourOf(t), MinuteOf(t), Day(t), Minute(t));
  }

  lemma DateUTCOfDay(y: int, m: int, d: int, h: int, mi: int, day: int, t: int)
    requires y >= 100 && MakeDay(y, m, d) == day
    requires t == day * MS_PER_DAY + h * MS_PER_HOUR + mi * MS_PER_MINUTE && -MAX_TIME <= t <= MAX_TIME
    ensures DateUTC(y, m, d, h, mi) == Some(t)
  {
  }

  lemma MinuteInRange(t: int)
    requires -MAX_TIME <= t <= MAX_TIME
    ensures -MAX_TIME <= Minute(t) <= MAX_TIME
  {
    assert MAX_TIME == 144_000_000_000 * MS_PER_MINUTE;
    assert t / MS_PER_MINUTE >= -144_000_000_000;
    assert Minute(t) == t / MS_PER_MINUTE * MS_PER_MINUTE;
  }

  /** Whatever four-digit year and two-digit fields are read, the time is in range: no read is rejected. */
  lemma FourDigitYearsInRange(year: int, month: int, date: int, hour: int, minute: int)
    requires 0 <= year <= 9999 && -1 <= month <= 98 && 0 <= date <= 99 && 0 <= hour <= 99 && 0 <= minute <= 99
    ensures DateUTC(year, month, date, hour, minute).Some?
  {
    var y := if 0 <= year <= 99 then 1900 + year else year;
    var ym := y + month / 12;
    assert 99 <= ym <= 10_007;
    assert -700_000 <= DayFromYear(ym) <= 3_000_000;
    MonthEnds(month % 12, Leap(ym));
    var day := MakeDay(y, month, date);
    assert -700_001 <= day <= 3_000_500;
    var t := day * MS_PER_DAY + hour * MS_PER_HOUR + minute * MS_PER_MINUTE;
    assert -700_001 * MS_PER_DAY <= t <= 3_000_600 * MS_PER_DAY;
  }
}
