/**
 * The two numeric sub-fields of a draft proposal: the round count, read
 * with `strconv.ParseInt(s, 10, 64)`, and the date, read with the Go layout
 * `01/02@15:04` and then moved into the current year with `AddDate`.
 */
module Dates {
  import opened Options
  import opened Text

  type Month = m: int | 1 <= m <= 12 witness 1

  /** A wall-clock time in UTC, to the minute. */
  datatype DateTime = DateTime(year: int, month: Month, day: int, hour: int, minute: int)

  const MaxInt64: int := 0x7FFF_FFFF_FFFF_FFFF

  /**
   * `strconv.ParseInt(s, 10, 64)` on a run of digits. A value beyond the
   * 64-bit range comes back as the largest 64-bit integer (together with a
   * range error that the caller only logs).
   */
  function ParseRounds(s: string): (n: int)
    requires AllDigits(s)
    ensures 0 <= n <= MaxInt64
    ensures DecimalValue(s) <= MaxInt64 ==> n == DecimalValue(s)
    ensures DecimalValue(s) > MaxInt64 ==> n == MaxInt64
  {
    var v := DecimalValue(s);
    if v > MaxInt64 then MaxInt64 else v
  }

  /** Writing a round count in decimal and parsing it back is the identity. */
  lemma RoundsRoundTrip(n: nat)
    requires n <= MaxInt64
    ensures ParseRounds(Decimal(n)) == n
  {
    DecimalRoundTrip(n);
  }

  /** Go's `isLeap`. */
  predicate IsLeap(year: int)
  {
    year % 4 == 0 && (year % 100 != 0 || year % 400 == 0)
  }

  /** Go's `daysIn`: the length of a month in a given year. */
  function DaysIn(month: Month, year: int): int
  {
    if month == 2 then (if IsLeap(year) then 29 else 28)
    else if month == 4 || month == 6 || month == 9 || month == 11 then 30
    else 31
  }

  /** The text `\d\d/\d\d@\d\d:\d\d` that the proposal grammar admits as a date. */
  predicate IsClockText(d: string)
  {
    && |d| == 11
    && IsDigit(d[0]) && IsDigit(d[1]) && d[2] == '/'
    && IsDigit(d[3]) && IsDigit(d[4]) && d[5] == '@'
    && IsDigit(d[6]) && IsDigit(d[7]) && d[8] == ':'
    && IsDigit(d[9]) && IsDigit(d[10])
  }

  /** The four numbers written in a date text. */
  datatype Fields = Fields(month: int, day: int, hour: int, minute: int)

  function TwoDigits(d: string, i: nat): int
    requires i + 1 < |d| && IsDigit(d[i]) && IsDigit(d[i + 1])
  {
    10 * DigitValue(d[i]) + DigitValue(d[i + 1])
  }

  function FieldsOf(d: string): Fields
    requires IsClockText(d)
  {
    Fields(TwoDigits(d, 0), TwoDigits(d, 3), TwoDigits(d, 6), TwoDigits(d, 9))
  }

  /**
   * The range checks of `time.Parse` for this layout. Without a year in the
   * layout the year is 0, a leap year, so 02/29 is accepted.
   */
  predicate InRange(f: Fields)
  {
    && 1 <= f.month <= 12
    && 1 <= f.day <= DaysIn(f.month, 0)
    && 0 <= f.hour < 24
    && 0 <= f.minute < 60
  }

  /** `time.Parse("01/02@15:04", d)`: the fields, or nothing when one is out of range. */
  function ParseLayout(d: string): (r: Option<Fields>)
    requires IsClockText(d)
    ensures r.Some? <==> InRange(FieldsOf(d))
    ensures r.Some? ==> r.value == FieldsOf(d)
  {
    var f := FieldsOf(d);
    if f.month < 1 || 12 < f.month then None
    else if f.hour < 0 || 24 <= f.hour then None
    else if f.minute < 0 || 60 <= f.minute then None
    else if f.day < 1 || f.day > DaysIn(f.month, 0) then None
    else Some(f)
  }

  /**
   * `time.Parse(layout, d)` followed by `AddDate(year, 0, 0)`. A failed parse
   * yields Go's zero time, 1 January of year 1, so the result is 1 January
   * of the following year at midnight. A successful parse is in year 0, so
   * the result is in `year`; 29 February of a common year rolls over to
   * 1 March as `time.Date` normalises it.
   */
  function ParseDate(d: string, year: int): (t: DateTime)
    requires IsClockText(d)
  {
    match ParseLayout(d)
    case None => DateTime(year + 1, 1, 1, 0, 0)
    case Some(f) =>
      if f.month == 2 && f.day == 29 && !IsLeap(year) then DateTime(year, 3, 1, f.hour, f.minute)
      else DateTime(year, f.month, f.day, f.hour, f.minute)
  }

  /** Two decimal digits with a leading zero, as the layout's `01` writes them. */
  function TwoDigitText(n: nat): (s: string)
    requires n < 100
    ensures |s| == 2 && IsDigit(s[0]) && IsDigit(s[1])
  {
    [DigitChar(n / 10), DigitChar(n % 10)]
  }

  /** The date text for the given fields, in the layout `01/02@15:04`. */
  function FormatClock(f: Fields): (d: string)
    requires 0 <= f.month < 100 && 0 <= f.day < 100 && 0 <= f.hour < 100 && 0 <= f.minute < 100
    ensures IsClockText(d)
  {
    TwoDigitText(f.month) + "/" + TwoDigitText(f.day) + "@" + TwoDigitText(f.hour) + ":" + TwoDigitText(f.minute)
  }

  /** The digits of a formatted date read back as the fields they were written from. */
  lemma FieldsOfFormat(f: Fields)
    requires 0 <= f.month < 100 && 0 <= f.day < 100 && 0 <= f.hour < 100 && 0 <= f.minute < 100
    ensures FieldsOf(FormatClock(f)) == f
  {
    var d := FormatClock(f);
    assert d[0..2] == TwoDigitText(f.month) && d[3..5] == TwoDigitText(f.day);
    assert d[6..8] == TwoDigitText(f.hour) && d[9..11] == TwoDigitText(f.minute);
  }

  /**
   * A date written in the layout parses to the same month, day, hour and
   * minute in the given year, apart from 29 February of a common year.
   */
  lemma ParseDateRoundTrip(f: Fields, year: int)
    requires InRange(f) && f.day < 100 && !(f.month == 2 && f.day == 29 && !IsLeap(year))
    ensures ParseDate(FormatClock(f), year) == DateTime(year, f.month, f.day, f.hour, f.minute)
  {
    FieldsOfFormat(f);
  }

  /** A date text with a field out of range is stored as the next 1 January. */
  lemma ParseDateOutOfRange(d: string, year: int)
    requires IsClockText(d) && !InRange(FieldsOf(d))
    ensures ParseDate(d, year) == DateTime(year + 1, 1, 1, 0, 0)
  {
  }

  /** Every date text is some formatted `Fields`, so the round trip covers them all. */
  lemma ClockTextIsFormatted(d: string)
    requires IsClockText(d)
    ensures FormatClock(FieldsOf(d)) == d
  {
    TwoDigitsText(d, 0);
    TwoDigitsText(d, 3);
    TwoDigitsText(d, 6);
    TwoDigitsText(d, 9);
    assert d == d[0..2] + "/" + d[3..5] + "@" + d[6..8] + ":" + d[9..11];
  }

  /** Two digits read as a number and written back give the same two characters. */
  lemma TwoDigitsText(d: string, i: nat)
    requires i + 1 < |d| && IsDigit(d[i]) && IsDigit(d[i + 1])
    ensures TwoDigits(d, i) < 100 && TwoDigitText(TwoDigits(d, i)) == d[i..i + 2]
  {
    var a, b := DigitValue(d[i]), DigitValue(d[i + 1]);
    assert (10 * a + b) / 10 == a && (10 * a + b) % 10 == b;
    assert DigitChar(a) == d[i] && DigitChar(b) == d[i + 1];
  }

  /** Days since 1970-01-01 in the proleptic Gregorian calendar. */
  function DaysFromCivil(year: int, month: Month, day: int): int
  {
    var y := if month <= 2 then year - 1 else year;
    var era := y / 400;
    var yoe := y - era * 400;
    var mp := if month > 2 then month - 3 else month + 9;
    var doy := (153 * mp + 2) / 5 + day - 1;
    var doe := yoe * 365 + yoe / 4 - yoe / 100 + doy;
    era * 146097 + doe - 719468
  }

  const SecondsPerDay: int := 86400

  /** Seconds since the Unix epoch. */
  function Instant(t: DateTime): int
  {
    DaysFromCivil(t.year, t.month, t.day) * SecondsPerDay + t.hour * 3600 + t.minute * 60
  }
}
