/** Optional values: a flag that may be missing, a number that may fail to parse. */
module Options {
  datatype Option<T> = None | Some(value: T)
}

/**
 * Dates as the tool stores them: the `YYYY-MM-DD` prefix of an ISO 8601
 * timestamp, written when an expense is added and read back (its month only)
 * by the monthly summary.
 */
module Dates {
  import opened Options

  /** A day of the proleptic Gregorian calendar, as a clock reading gives it. */
  datatype CalendarDate = CalendarDate(year: int, month: int, day: int)

  predicate IsLeapYear(y: int) {
    y % 4 == 0 && (y % 100 != 0 || y % 400 == 0)
  }

  function DaysInMonth(y: int, m: int): (n: int)
    requires 1 <= m <= 12
    ensures 28 <= n <= 31
  {
    if m == 2 then (if IsLeapYear(y) then 29 else 28)
    else if m == 4 || m == 6 || m == 9 || m == 11 then 30
    else 31
  }

  /** A real calendar day whose year has the four digits of the plain ISO form. */
  predicate ValidDate(d: CalendarDate) {
    && 0 <= d.year <= 9999
    && 1 <= d.month <= 12
    && 1 <= d.day <= DaysInMonth(d.year, d.month)
  }

  predicate IsDigit(c: char) {
    '0' <= c <= '9'
  }

  function DigitChar(n: int): (c: char)
    requires 0 <= n <= 9
    ensures IsDigit(c)
  {
    ('0' as int + n) as char
  }

  function DigitValue(c: char): (v: int) {
    c as int - '0' as int
  }

  /** n written with exactly `width` decimal digits, most significant first. */
  function Digits(n: nat, width: nat): (r: string)
    requires n < Pow10(width)
    ensures |r| == width
    ensures forall i :: 0 <= i < |r| ==> IsDigit(r[i])
  {
    if width == 0 then [] else Digits(n / 10, width - 1) + [DigitChar(n % 10)]
  }

  function Pow10(k: nat): (p: nat)
    ensures p >= 1
  {
    if k == 0 then 1 else 10 * Pow10(k - 1)
  }

  /** The value of a string of decimal digits. */
  function DigitsValue(s: string): (v: int) {
    if s == [] then 0 else 10 * DigitsValue(s[..|s| - 1]) + DigitValue(s[|s| - 1])
  }

  /** Reading back what Digits wrote gives the number. */
  lemma {:induction false} DigitsRoundTrip(n: nat, width: nat)
    requires n < Pow10(width)
    ensures DigitsValue(Digits(n, width)) == n
  {
    if width > 0 {
      var r := Digits(n, width);
      assert r[..|r| - 1] == Digits(n / 10, width - 1);
      DigitsRoundTrip(n / 10, width - 1);
    }
  }

  /** `new Date().toISOString().split('T')[0]`: the date part `YYYY-MM-DD`. */
  function FormatDate(d: CalendarDate): (s: string)
    requires ValidDate(d)
    ensures IsIsoDate(s)
  {
    Digits(d.year, 4) + "-" + Digits(d.month, 2) + "-" + Digits(d.day, 2)
  }

  /** The shape `DDDD-DD-DD` of a date-only ISO 8601 string. */
  predicate IsIsoDate(s: string) {
    && |s| == 10
    && s[4] == '-' && s[7] == '-'
    && (forall i :: 0 <= i < 10 && i != 4 && i != 7 ==> IsDigit(s[i]))
  }

  /**
   * `new Date(date).getMonth() + 1` for a stored date: the month number read
   * from the MM field, or None (JavaScript's NaN, which equals no month) when
   * the string is not a date-only ISO string or its month is not 1..12.
   */
  function MonthOf(date: string): (m: Option<int>)
    ensures m.Some? ==> 1 <= m.value <= 12
  {
    if IsIsoDate(date) && 1 <= DigitsValue(date[5..7]) <= 12 then Some(DigitsValue(date[5..7]))
    else None
  }

  /** The three fields of a written date read back as the year, month and day it was written from. */
  lemma FormatDateRoundTrip(d: CalendarDate)
    requires ValidDate(d)
    ensures var s := FormatDate(d);
      && DigitsValue(s[..4]) == d.year
      && DigitsValue(s[5..7]) == d.month
      && DigitsValue(s[8..]) == d.day
  {
    var s := FormatDate(d);
    assert s[..4] == Digits(d.year, 4);
    assert s[5..7] == Digits(d.month, 2);
    assert s[8..] == Digits(d.day, 2);
    DigitsRoundTrip(d.year, 4);
    DigitsRoundTrip(d.month, 2);
    DigitsRoundTrip(d.day, 2);
  }

  /** A date the tool writes reads back with the month it was written with. */
  lemma MonthOfFormatDate(d: CalendarDate)
    requires ValidDate(d)
    ensures MonthOf(FormatDate(d)) == Some(d.month)
  {
    var s := FormatDate(d);
    assert s[5..7] == Digits(d.month, 2);
    DigitsRoundTrip(d.month, 2);
  }
}
