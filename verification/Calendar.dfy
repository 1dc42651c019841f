/**
 * The calendar tied to instants (src/activity-log/types.ts:59-66, src/activity-log/parser.ts:57-64; ECMA-262, section
 * 21.4.1): what the epoch prints as, and what every next day and next minute are.
 */
module Calendar {
  import opened Collections
  import opened Text
  import opened CivilDate
  import opened LogLine
  import opened LogRotation

  /** Every fourth year, but of the full centuries only every fourth. */
  predicate IsLeap(y: int) {
    if y % 100 == 0 then y % 400 == 0 else y % 4 == 0
  }

  /** The last date of a month, 0 to 11. */
  function LastDate(y: int, month: int): int {
    if month == 1 then (if IsLeap(y) then 29 else 28)
    else if month == 3 || month == 5 || month == 8 || month == 10 then 30
    else 31
  }

  lemma HundredsAreFours(y: int)
    ensures y % 100 == 0 ==> y % 4 == 0
  {
    if y % 100 == 0 {
      assert y == 4 * (25 * (y / 100));
    }
  }

  lemma FourHundredsAreHundreds(y: int)
    ensures y % 400 == 0 ==> y % 100 == 0
  {
    if y % 400 == 0 {
      assert y == 100 * (4 * (y / 400));
    }
  }

  lemma LeapRule(y: int)
    ensures Leap(y) <==> IsLeap(y)
  {
    HundredsAreFours(y);
    FourHundredsAreHundreds(y);
  }

  lemma MonthLength(y: int, month: int)
    requires 0 <= month < 12
    ensures DaysInMonth(y, month) == LastDate(y, month)
  {
    LeapRule(y);
  }

  ghost predicate OnDate(t: int, y: int, month: int, date: int) {
    YearOf(t) == y && MonthOf(t) == month && DateOf(t) == date
  }

  lemma NextDay(t: int)
    ensures Day(t + 86_400_000) == Day(t) + 1 && TimeWithinDay(t + 86_400_000) == TimeWithinDay(t)
  {
    DayOfTime(t + 86_400_000, Day(t) + 1, TimeWithinDay(t));
  }

  /** A time is on the date that makes its day. */
  lemma DateOfDay(t: int, y: int, month: int, date: int)
    requires 0 <= month < 12 && 1 <= date <= DaysInMonth(y, month) && MakeDay(y, month, date) == Day(t)
    ensures OnDate(t, y, month, date)
  {
    MakeDayFields(y, month, date, TimeWithinDay(t), t);
  }

  lemma DateInMonth(t: int)
    ensures DateOf(t) <= LastDate(YearOf(t), MonthOf(t))
  {
    MonthLength(YearOf(t), MonthOf(t));
  }

  lemma FirstOfNextMonth(y: int, month: int, date: int)
    requires 0 <= month < 11 && date == DaysInMonth(y, month)
    ensures MakeDay(y, month + 1, 1) == MakeDay(y, month, date) + 1
  {
    assert month / 12 == 0 && month % 12 == month && (month + 1) / 12 == 0 && (month + 1) % 12 == month + 1;
  }

  lemma LastDay(y: int, day: int)
    requires day == MakeDay(y, 11, 31)
    ensures day == DayFromYear(y) + DaysInYear(y) - 1
  {
  }

  lemma FirstDay(y: int, day: int)
    requires day == MakeDay(y, 0, 1)
    ensures day == DayFromYear(y)
  {
  }

  lemma FirstOfNextYear(y: int)
    ensures MakeDay(y + 1, 0, 1) == MakeDay(y, 11, 31) + 1
  {
    LastDay(y, MakeDay(y, 11, 31));
    FirstDay(y + 1, MakeDay(y + 1, 0, 1));
    YearLength(y);
  }

  /** What the date of the next day is. */
  ghost predicate Follows(t: int, u: int) {
    var y, month, date := YearOf(t), MonthOf(t), DateOf(t);
    if date < LastDate(y, month) then OnDate(u, y, month, date + 1)
    else if month < 11 then OnDate(u, y, month + 1, 1)
    else OnDate(u, y + 1, 0, 1)
  }

  /** The day after, for every time: leap years, month ends and year ends included. */
  lemma DayAfter(t: int)
    ensures 1 <= DateOf(t) <= LastDate(YearOf(t), MonthOf(t))
    ensures Follows(t, t + 86_400_000)
    ensures HourOf(t + 86_400_000) == HourOf(t) && MinuteOf(t + 86_400_000) == MinuteOf(t)
  {
    NextDay(t);
    FieldsMakeDay(t);
    DateInMonth(t);
    FollowsOn(t, t + 86_400_000, YearOf(t), MonthOf(t), DateOf(t));
    SameClock(t, t + 86_400_000);
  }

  lemma SameClock(t: int, u: int)
    requires TimeWithinDay(u) == TimeWithinDay(t)
    ensures HourOf(u) == HourOf(t) && MinuteOf(u) == MinuteOf(t)
  {
  }

  lemma FollowsOn(t: int, u: int, y: int, month: int, date: int)
    requires OnDate(t, y, month, date) && Day(t) == MakeDay(y, month, date) && date <= LastDate(y, month)
    requires Day(u) == Day(t) + 1
    ensures Follows(t, u)
  {
    MonthLength(y, month);
    if date < LastDate(y, month) {
      DateOfDay(u, y, month, date + 1);
    } else if month < 11 {
      FirstOfNextMonth(y, month, date);
      MonthLength(y, month + 1);
      DateOfDay(u, y, month + 1, 1);
    } else {
      FirstOfNextYear(y);
      MonthLength(y + 1, 0);
      DateOfDay(u, y + 1, 0, 1);
    }
  }

  lemma WithinDay(day: int, h: int, mi: int, rest: int, t: int)
    requires 0 <= h < 24 && 0 <= mi < 60 && 0 <= rest < 60_000
    requires t == day * 86_400_000 + h * 3_600_000 + mi * 60_000 + rest
    ensures Day(t) == day && HourOf(t) == h && MinuteOf(t) == mi
  {
    DayOfTime(t, day, h * 3_600_000 + mi * 60_000 + rest);
  }

  lemma Parts(t: int)
    ensures t == Day(t) * 86_400_000 + HourOf(t) * 3_600_000 + MinuteOf(t) * 60_000 + t % 60_000
  {
    MinuteParts(t);
  }

  lemma SameDay(t: int, u: int)
    requires Day(t) == Day(u)
    ensures OnDate(u, YearOf(t), MonthOf(t), DateOf(t))
  {
    FieldsMakeDay(t);
    DateInMonth(t);
    MonthLength(YearOf(t), MonthOf(t));
    DateOfDay(u, YearOf(t), MonthOf(t), DateOf(t));
  }

  /** The minute after: the next minute, the next hour, or midnight of the next day. */
  lemma MinuteAfter(t: int)
    ensures var u := t + 60_000;
            if MinuteOf(t) < 59 then
              OnDate(u, YearOf(t), MonthOf(t), DateOf(t)) && HourOf(u) == HourOf(t) && MinuteOf(u) == MinuteOf(t) + 1
            else if HourOf(t) < 23 then
              OnDate(u, YearOf(t), MonthOf(t), DateOf(t)) && HourOf(u) == HourOf(t) + 1 && MinuteOf(u) == 0
            else Follows(t, u) && HourOf(u) == 0 && MinuteOf(u) == 0
  {
    var u := t + 60_000;
    Parts(t);
    if MinuteOf(t) < 59 {
      WithinDay(Day(t), HourOf(t), MinuteOf(t) + 1, t % 60_000, u);
      SameDay(t, u);
    } else if HourOf(t) < 23 {
      WithinDay(Day(t), HourOf(t) + 1, 0, t % 60_000, u);
      SameDay(t, u);
    } else {
      WithinDay(Day(t) + 1, 0, 0, t % 60_000, u);
      DayAfter(t);
      NextDay(t);
      SameDay(t + 86_400_000, u);
    }
  }

  /** Within a minute nothing changes. */
  lemma SameMinute(t: int, u: int)
    requires 0 <= u - t < 60_000 - t % 60_000
    ensures OnDate(u, YearOf(t), MonthOf(t), DateOf(t)) && HourOf(u) == HourOf(t) && MinuteOf(u) == MinuteOf(t)
  {
    Parts(t);
    WithinDay(Day(t), HourOf(t), MinuteOf(t), t % 60_000 + (u - t), u);
    SameDay(t, u);
  }

  // --------------------------------------------------------------------- two instants

  lemma FieldsAt(t: int, y: int, leap: bool, month: int, date: int, d: int)
    requires DayFromYear(y) <= Day(t) < DayFromYear(y + 1) && Leap(y) == leap && d == Day(t) - DayFromYear(y)
    requires 0 <= d < (if leap then 366 else 365) && 0 <= month < 12 && 1 <= date
    requires d == MonthStart(month, leap) + date - 1 < MonthStart(month + 1, leap)
    ensures OnDate(t, y, month, date)
  {
    YearReads(t, y);
    MonthReads(t, leap, month, date, d);
  }

  lemma YearNumbers()
    ensures DayFromYear(1970) == 0 && DayFromYear(1971) == 365 && !Leap(1970)
    ensures DayFromYear(2024) == 19_723 && DayFromYear(2025) == 20_089 && Leap(2024)
  {
  }

  lemma EpochFields()
    ensures OnDate(0, 1970, 0, 1) && HourOf(0) == 0 && MinuteOf(0) == 0
  {
    YearNumbers();
    WithinDay(0, 0, 0, 0, 0);
    FieldsAt(0, 1970, false, 0, 1, 0);
  }

  /** 12:34 on the leap day of 2024. */
  lemma LeapDayFields(t: int)
    requires t == 1_709_210_040_000
    ensures OnDate(t, 2024, 1, 29) && HourOf(t) == 12 && MinuteOf(t) == 34
  {
    YearNumbers();
    WithinDay(19_782, 12, 34, 0, t);
    FieldsAt(t, 2024, true, 1, 29, 59);
  }

  lemma {:induction false} NextDigit(n: nat, s: string, c: char, digit: nat)
    requires n >= 1 && NatToString(n) == s && digit < 10 && DigitChar(digit) == c
    ensures NatToString(n * 10 + digit) == s + [c]
  {
  }

  lemma OneDigit(n: nat)
    requires n < 10
    ensures NatToString(n) == [DigitChar(n)]
  {
  }

  lemma DigitTexts()
    ensures DigitChar(0) == '0' && DigitChar(1) == '1' && DigitChar(2) == '2' && DigitChar(3) == '3'
    ensures DigitChar(4) == '4' && DigitChar(7) == '7' && DigitChar(9) == '9'
  {
  }

  lemma EpochTexts()
    ensures IntToString(1970) == "1970" && Pad2(1) == "01" && Pad2(0) == "00"
  {
    DigitTexts();
    OneDigit(0);
    OneDigit(1);
    NextDigit(1, "1", '9', 9);
    NextDigit(19, "19", '7', 7);
    NextDigit(197, "197", '0', 0);
  }

  lemma LeapDayTexts()
    ensures IntToString(2024) == "2024" && Pad2(2) == "02" && Pad2(29) == "29" && Pad2(12) == "12" && Pad2(34) == "34"
  {
    DigitTexts();
    OneDigit(1);
    OneDigit(2);
    OneDigit(3);
    NextDigit(2, "2", '0', 0);
    NextDigit(20, "20", '2', 2);
    NextDigit(202, "202", '4', 4);
    NextDigit(2, "2", '9', 9);
    NextDigit(1, "1", '2', 2);
    NextDigit(3, "3", '4', 4);
  }

  lemma StampOf(t: int, y: int, month: int, date: int, h: int, mi: int)
    requires OnDate(t, y, month, date) && HourOf(t) == h && MinuteOf(t) == mi
    ensures FormatUtcTimestamp(t) == StampText(IntToString(y), Pad2(month + 1), Pad2(date), Pad2(h), Pad2(mi))
  {
  }

  lemma EpochStamp(y: string, a: string, z: string)
    requires y == "1970" && a == "01" && z == "00"
    ensures StampText(y, a, a, z, z) == "1970-01-01 00:00"
  {
  }

  lemma LeapDayStamp(y: string, mo: string, d: string, h: string, mi: string)
    requires y == "2024" && mo == "02" && d == "29" && h == "12" && mi == "34"
    ensures StampText(y, mo, d, h, mi) == "2024-02-29 12:34"
  {
  }

  /** What two instants print as. */
  lemma InstantsArePrinted()
    ensures FormatUtcTimestamp(0) == "1970-01-01 00:00"
    ensures FormatUtcTimestamp(1_709_210_040_000) == "2024-02-29 12:34"
  {
    EpochFields();
    EpochTexts();
    StampOf(0, 1970, 0, 1, 0, 0);
    EpochStamp(IntToString(1970), Pad2(1), Pad2(0));
    LeapDayFields(1_709_210_040_000);
    LeapDayTexts();
    StampOf(1_709_210_040_000, 2024, 1, 29, 12, 34);
    LeapDayStamp(IntToString(2024), Pad2(2), Pad2(29), Pad2(12), Pad2(34));
  }

  lemma EntryAround(stamp: string, op: string, summary: string)
    requires stamp == "1970-01-01 00:00"
    ensures "## [" + stamp + "] " + op + " | " + summary == "## [1970-01-01 00:00] " + op + " | " + summary
  {
    assert "## [" + stamp + "] " == "## [1970-01-01 00:00] ";
  }

  /** The wire form of an entry, at the epoch. */
  lemma EntryIsPrinted(op: string, summary: string)
    ensures FormatEntry(0, op, summary) == "## [1970-01-01 00:00] " + op + " | " + summary
  {
    InstantsArePrinted();
    EntryAround(FormatUtcTimestamp(0), op, summary);
  }

  // -------------------------------------------------------------- carrying over

  lemma MonthCarries(year: int, month: int, date: int)
    ensures MakeDay(year, month + 12, date) == MakeDay(year + 1, month, date)
  {
    assert (month + 12) / 12 == month / 12 + 1 && (month + 12) % 12 == month % 12;
  }

  lemma DateCarries(year: int, month: int, date: int)
    ensures MakeDay(year, month, date + 1) == MakeDay(year, month, date) + 1
  {
  }

  function InRange(t: int): Option<int> {
    if -8_640_000_000_000_000 <= t <= 8_640_000_000_000_000 then Some(t) else None
  }

  lemma FromDay(year: int, month: int, date: int, hour: int, minute: int, day: int)
    requires !(0 <= year <= 99) && MakeDay(year, month, date) == day
    ensures DateUTC(year, month, date, hour, minute) ==
            InRange(86_400_000 * day + 3_600_000 * hour + 60_000 * minute)
  {
  }

  /** A stamp whose numbers are too large still means a time: sixty minutes are an hour, */
  lemma MinutesCarry(year: int, month: int, date: int, hour: int, minute: int)
    requires year > 99
    ensures DateUTC(year, month, date, hour, minute + 60) == DateUTC(year, month, date, hour + 1, minute)
  {
    FromDay(year, month, date, hour, minute + 60, MakeDay(year, month, date));
    FromDay(year, month, date, hour + 1, minute, MakeDay(year, month, date));
  }

  /** 24 hours a day, */
  lemma HoursCarry(year: int, month: int, date: int, hour: int, minute: int)
    requires year > 99
    ensures DateUTC(year, month, date, hour + 24, minute) == DateUTC(year, month, date + 1, hour, minute)
  {
    DateCarries(year, month, date);
    FromDay(year, month, date, hour + 24, minute, MakeDay(year, month, date));
    FromDay(year, month, date + 1, hour, minute, MakeDay(year, month, date) + 1);
  }

  /** a day more is a day later, */
  lemma DaysCarry(year: int, month: int, date: int, hour: int, minute: int, t: int)
    requires year > 99 && DateUTC(year, month, date, hour, minute) == Some(t)
    requires t + 86_400_000 <= 8_640_000_000_000_000
    ensures DateUTC(year, month, date + 1, hour, minute) == Some(t + 86_400_000)
  {
    DateCarries(year, month, date);
    FromDay(year, month, date, hour, minute, MakeDay(year, month, date));
    FromDay(year, month, date + 1, hour, minute, MakeDay(year, month, date) + 1);
  }

  /** and twelve months are a year. */
  lemma MonthsCarry(year: int, month: int, date: int, hour: int, minute: int)
    requires year > 99
    ensures DateUTC(year, month + 12, date, hour, minute) == DateUTC(year + 1, month, date, hour, minute)
  {
    MonthCarries(year, month, date);
    FromDay(year, month + 12, date, hour, minute, MakeDay(year + 1, month, date));
    FromDay(year + 1, month, date, hour, minute, MakeDay(year + 1, month, date));
  }

  /** Years below a hundred are of the twentieth century. */
  lemma ShortYears(year: int, month: int, date: int, hour: int, minute: int)
    requires 0 <= year <= 99
    ensures DateUTC(year, month, date, hour, minute) == DateUTC(1900 + year, month, date, hour, minute)
  {
  }

  // ------------------------------------------------------------- the archive

  lemma ArchiveStampOf(t: int, y: int, month: int, date: int, h: int, mi: int, s: int)
    requires OnDate(t, y, month, date) && HourOf(t) == h && MinuteOf(t) == mi && SecondOf(t) == s
    ensures ArchiveStamp(t) ==
            IntToString(y) + Pad2(month + 1) + Pad2(date) + "-" + Pad2(h) + Pad2(mi) + Pad2(s)
  {
  }

  lemma ArchiveName(y: string, mo: string, d: string, h: string, mi: string, s: string)
    requires y == "2024" && mo == "02" && d == "29" && h == "12" && mi == "34" && s == "00"
    ensures "archive/activity-log/" + (y + mo + d + "-" + h + mi + s) + ".log" ==
            "archive/activity-log/20240229-123400.log"
  {
    assert y + mo + d + "-" + h + mi + s == "20240229-123400";
  }

  lemma NoSeconds(t: int)
    requires t == 1_709_210_040_000
    ensures SecondOf(t) == 0
  {
    assert t == 19_782 * MS_PER_DAY + 45_240_000;
    assert TimeWithinDay(t) == 45_240_000;
  }

  /** The archive of a rotation at that instant, unless a path is given. */
  lemma ArchiveIsNamed(path: string)
    ensures ArchivePath(None, 1_709_210_040_000) == "archive/activity-log/20240229-123400.log"
    ensures ArchivePath(Some(path), 1_709_210_040_000) == path
  {
    LeapDayFields(1_709_210_040_000);
    NoSeconds(1_709_210_040_000);
    LeapDayTexts();
    EpochTexts();
    ArchiveStampOf(1_709_210_040_000, 2024, 1, 29, 12, 34, 0);
    ArchiveName(IntToString(2024), Pad2(2), Pad2(29), Pad2(12), Pad2(34), Pad2(0));
  }
}
