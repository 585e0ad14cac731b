/** Calendar dates as Go's time.Parse reads them with the layout "2006-01-02",
    and the one abstract timeline on which "now" and parsed dates are compared. */
module Dates {
  import opened Wrappers
  import opened GoStrings

  datatype Date = Date(year: int, month: int, day: int)

  predicate IsLeapYear(y: int) {
    y % 4 == 0 && (y % 100 != 0 || y % 400 == 0)
  }

  /** Number of days in month `m` (1..12) of year `y` in the proleptic Gregorian calendar. */
  function DaysIn(m: int, y: int): int
    requires 1 <= m <= 12
  {
    if m == 2 then (if IsLeapYear(y) then 29 else 28)
    else if m == 4 || m == 6 || m == 9 || m == 11 then 30
    else 31
  }

  /** A date that the four-digit layout can spell and that exists in the calendar. */
  predicate ValidDate(d: Date) {
    0 <= d.year <= 9999 && 1 <= d.month <= 12 && 1 <= d.day <= DaysIn(d.month, d.year)
  }

  /** The date written as YYYY-MM-DD with zero padding. */
  function FormatDate(d: Date): (s: string)
    requires ValidDate(d)
    ensures |s| == 10 && s[4] == '-' && s[7] == '-'
  {
    PadDigits(d.year, 4) + "-" + PadDigits(d.month, 2) + "-" + PadDigits(d.day, 2)
  }

  /** time.Parse("2006-01-02", s): exactly four year digits, a dash, two month
      digits, a dash and two day digits, with nothing after them; the month
      must lie in 1..12 and the day in the month's range. */
  function ParseDate(s: string): (r: Option<Date>)
    ensures r.Some? ==> ValidDate(r.value)
  {
    if |s| == 10 && AllDigits(s[..4]) && s[4] == '-' && AllDigits(s[5..7]) && s[7] == '-' && AllDigits(s[8..])
    then
      var y := DecimalValue(s[..4]);
      var m := DecimalValue(s[5..7]);
      var d := DecimalValue(s[8..]);
      DecimalValuePad(s[..4]);
      if 1 <= m <= 12 && 1 <= d <= DaysIn(m, y) then Some(Date(y, m, d)) else None
    else None
  }

  /** Only the canonical spelling parses: a parsed date spells back to the
      very string it was read from. */
  lemma ParseDateSpells(s: string)
    ensures ParseDate(s).Some? ==> FormatDate(ParseDate(s).value) == s
  {
    if ParseDate(s).Some? {
      DecimalValuePad(s[..4]);
      DecimalValuePad(s[5..7]);
      DecimalValuePad(s[8..]);
      assert s == s[..4] + "-" + s[5..7] + "-" + s[8..];
    }
  }

  /** Every valid date reads back from its own spelling. */
  lemma ParseFormatRoundTrip(d: Date)
    requires ValidDate(d)
    ensures ParseDate(FormatDate(d)) == Some(d)
  {
    var s := FormatDate(d);
    assert s[..4] == PadDigits(d.year, 4);
    assert s[5..7] == PadDigits(d.month, 2);
    assert s[8..] == PadDigits(d.day, 2);
    PadDigitsValue(d.year, 4);
    PadDigitsValue(d.month, 2);
    PadDigitsValue(d.day, 2);
  }

  /** Leap years among the years 0 .. y - 1 (year 0 is a leap year). */
  function LeapYearsBefore(y: nat): int {
    (y + 3) / 4 - (y + 99) / 100 + (y + 399) / 400
  }

  function DaysBeforeMonth(m: int, y: int): int
    requires 1 <= m <= 12
  {
    if m == 1 then 0 else DaysBeforeMonth(m - 1, y) + DaysIn(m - 1, y)
  }

  /** Days elapsed from 0000-01-01 to `d`. */
  function DayNumber(d: Date): int
    requires ValidDate(d)
  {
    365 * d.year + LeapYearsBefore(d.year) + DaysBeforeMonth(d.month, d.year) + d.day - 1
  }

  /** The calendar day after `d`; the last day the layout can spell has none. */
  function NextDate(d: Date): (n: Date)
    requires ValidDate(d) && (d.year < 9999 || d.month < 12 || d.day < 31)
    ensures ValidDate(n)
  {
    if d.day < DaysIn(d.month, d.year) then Date(d.year, d.month, d.day + 1)
    else if d.month < 12 then Date(d.year, d.month + 1, 1)
    else Date(d.year + 1, 1, 1)
  }

  /** The days of a year before December, plus December's 31. */
  lemma YearLength(y: int)
    ensures DaysBeforeMonth(12, y) + 31 == if IsLeapYear(y) then 366 else 365
  {
    assert DaysBeforeMonth(2, y) == 31;
    assert DaysBeforeMonth(3, y) == 31 + DaysIn(2, y);
    assert DaysBeforeMonth(4, y) == DaysBeforeMonth(3, y) + 31;
    assert DaysBeforeMonth(5, y) == DaysBeforeMonth(4, y) + 30;
    assert DaysBeforeMonth(6, y) == DaysBeforeMonth(5, y) + 31;
    assert DaysBeforeMonth(7, y) == DaysBeforeMonth(6, y) + 30;
    assert DaysBeforeMonth(8, y) == DaysBeforeMonth(7, y) + 31;
    assert DaysBeforeMonth(9, y) == DaysBeforeMonth(8, y) + 31;
    assert DaysBeforeMonth(10, y) == DaysBeforeMonth(9, y) + 30;
    assert DaysBeforeMonth(11, y) == DaysBeforeMonth(10, y) + 31;
    assert DaysBeforeMonth(12, y) == DaysBeforeMonth(11, y) + 30;
  }

  /** LeapYearsBefore grows by one exactly past a leap year. */
  lemma LeapYearsStep(y: nat)
    ensures LeapYearsBefore(y + 1) == LeapYearsBefore(y) + if IsLeapYear(y) then 1 else 0
  {
    assert (y + 4) / 4 == (y + 3) / 4 + (if y % 4 == 0 then 1 else 0);
    assert (y + 100) / 100 == (y + 99) / 100 + (if y % 100 == 0 then 1 else 0);
    assert (y + 400) / 400 == (y + 399) / 400 + (if y % 400 == 0 then 1 else 0);
  }

  /** Consecutive calendar days have consecutive day numbers, across the
      end of a month and the end of a year too. */
  lemma NextDateDayNumber(d: Date)
    requires ValidDate(d) && (d.year < 9999 || d.month < 12 || d.day < 31)
    ensures DayNumber(NextDate(d)) == DayNumber(d) + 1
  {
    if d.day == DaysIn(d.month, d.year) && d.month == 12 {
      YearLength(d.year);
      LeapYearsStep(d.year);
    }
  }

  /** A point on the timeline: a day number (as DayNumber counts days) and the
      time elapsed since that day's midnight. */
  datatype Instant = Instant(day: int, sinceMidnight: nat)

  /** The instant a parsed date stands for: midnight starting that day. */
  function Midnight(d: Date): Instant
    requires ValidDate(d)
  {
    Instant(DayNumber(d), 0)
  }

  /** Time.Before */
  predicate Before(a: Instant, b: Instant) {
    a.day < b.day || (a.day == b.day && a.sinceMidnight < b.sinceMidnight)
  }

  /** Time.After */
  predicate After(a: Instant, b: Instant) {
    Before(b, a)
  }
}
