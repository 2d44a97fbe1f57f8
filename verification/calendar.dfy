/**
 * Calendar dates and UTC timestamps as Go's `time` package reads and prints
 * them: `time.Parse("2006-01-02", s)`, `Time.IsZero`, `Time.After` on
 * midnight values, and `Time.String` for a UTC time with whole seconds.
 */
module Calendar {
  import opened Wrappers
  import opened Decimal

  /** A proleptic Gregorian date at midnight UTC. */
  datatype Date = Date(year: int, month: int, day: int)

  /** A UTC timestamp with whole seconds (the `time` column of the history table). */
  datatype Timestamp = Timestamp(date: Date, hour: int, minute: int, second: int)

  predicate IsLeapYear(y: int) {
    y % 4 == 0 && (y % 100 != 0 || y % 400 == 0)
  }

  function DaysIn(month: int, year: int): (n: int)
    requires 1 <= month <= 12
    ensures 28 <= n <= 31
  {
    if month == 2 then (if IsLeapYear(year) then 29 else 28)
    else if month == 4 || month == 6 || month == 9 || month == 11 then 30
    else 31
  }

  predicate ValidDate(d: Date) {
    1 <= d.month <= 12 && 1 <= d.day <= DaysIn(d.month, d.year)
  }

  predicate ValidTimestamp(t: Timestamp) {
    ValidDate(t.date) && 0 <= t.date.year <= 9999 &&
    0 <= t.hour < 24 && 0 <= t.minute < 60 && 0 <= t.second < 60
  }

  /** The zero `time.Time`: January 1 of year 1, 00:00:00 UTC. */
  const ZeroDate: Date := Date(1, 1, 1)

  predicate IsZero(d: Date) {
    d == ZeroDate
  }

  /** `a.Before(b)` for two midnight instants: calendar order. */
  predicate Before(a: Date, b: Date) {
    a.year < b.year ||
    (a.year == b.year && (a.month < b.month || (a.month == b.month && a.day < b.day)))
  }

  predicate After(a: Date, b: Date) {
    Before(b, a)
  }

  /** Calendar order without equality: `DATE(x) <= DATE(y)`. */
  predicate NotAfter(a: Date, b: Date) {
    !After(a, b)
  }

  function Value2(a: char, b: char): (v: int)
    requires IsDigit(a) && IsDigit(b)
    ensures 0 <= v < 100
  {
    DigitValue(a) * 10 + DigitValue(b)
  }

  function Pad2(n: int): (s: string)
    requires 0 <= n < 100
    ensures |s| == 2 && IsDigit(s[0]) && IsDigit(s[1]) && Value2(s[0], s[1]) == n
  {
    [DigitChar(n / 10), DigitChar(n % 10)]
  }

  function Pad4(n: int): (s: string)
    requires 0 <= n < 10000
    ensures |s| == 4 && AllDigits(s)
    ensures Value2(s[0], s[1]) * 100 + Value2(s[2], s[3]) == n
  {
    Pad2(n / 100) + Pad2(n % 100)
  }

  /**
   * `time.Parse("2006-01-02", s)`: exactly four year digits, '-', two month
   * digits, '-', two day digits and nothing more; the month must lie in
   * 1..12 and the day in 1..DaysIn(month, year). `None` stands for the error.
   */
  function ParseDate(s: string): (r: Option<Date>)
    ensures r.Some? ==> ValidDate(r.value) && 0 <= r.value.year <= 9999
    ensures r.Some? ==> |s| == 10
  {
    if |s| == 10 && AllDigits(s[0..4]) && s[4] == '-' && AllDigits(s[5..7]) &&
       s[7] == '-' && AllDigits(s[8..10]) then
      assert IsDigit(s[0]) && IsDigit(s[1]) && IsDigit(s[2]) && IsDigit(s[3]);
      assert IsDigit(s[5]) && IsDigit(s[6]) && IsDigit(s[8]) && IsDigit(s[9]);
      var d := Date(Value2(s[0], s[1]) * 100 + Value2(s[2], s[3]), Value2(s[5], s[6]), Value2(s[8], s[9]));
      if ValidDate(d) then Some(d) else None
    else
      None
  }

  /** `Format("2006-01-02")` for a year with at most four digits. */
  function FormatDate(d: Date): (s: string)
    requires ValidDate(d) && 0 <= d.year <= 9999
    ensures |s| == 10 && s[4] == '-' && s[7] == '-'
  {
    Pad4(d.year) + "-" + Pad2(d.month) + "-" + Pad2(d.day)
  }

  /** Every date the layout can express is read back from its own text. */
  lemma ParseFormatDate(d: Date)
    requires ValidDate(d) && 0 <= d.year <= 9999
    ensures ParseDate(FormatDate(d)) == Some(d)
  {
    var s := FormatDate(d);
    assert s[0..4] == Pad4(d.year);
    assert s[5..7] == Pad2(d.month);
    assert s[8..10] == Pad2(d.day);
  }

  /** Dates are parsed only from their one canonical text. */
  lemma FormatParseDate(s: string)
    requires ParseDate(s).Some?
    ensures FormatDate(ParseDate(s).value) == s
  {
    var d := ParseDate(s).value;
    var t := FormatDate(d);
    assert IsDigit(s[0]) && IsDigit(s[1]) && IsDigit(s[2]) && IsDigit(s[3]);
    assert IsDigit(s[5]) && IsDigit(s[6]) && IsDigit(s[8]) && IsDigit(s[9]);
    Value2Injective(t[0], t[1], s[0], s[1]);
    Value2Injective(t[2], t[3], s[2], s[3]);
    Value2Injective(t[5], t[6], s[5], s[6]);
    Value2Injective(t[8], t[9], s[8], s[9]);
    assert forall i :: 0 <= i < 10 ==> t[i] == s[i];
  }

  lemma Value2Injective(a: char, b: char, c: char, d: char)
    requires IsDigit(a) && IsDigit(b) && IsDigit(c) && IsDigit(d)
    requires Value2(a, b) == Value2(c, d)
    ensures a == c && b == d
  {
    assert DigitChar(DigitValue(a)) == a && DigitChar(DigitValue(c)) == c;
  }

  /** `Time.String()` of a UTC time with zero nanoseconds: "2006-01-02 15:04:05 +0000 UTC". */
  function FormatTimestamp(t: Timestamp): (s: string)
    requires ValidTimestamp(t)
    ensures |s| == 29 && s[..10] == FormatDate(t.date) && s[19..] == " +0000 UTC"
  {
    FormatDate(t.date) + " " + Pad2(t.hour) + ":" + Pad2(t.minute) + ":" + Pad2(t.second) + " +0000 UTC"
  }
}
