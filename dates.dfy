/**
 * Calendar dates and the `dd.MM.yyyy` pattern the core uses for parsing and rendering
 * (`DateTimeFormatter.ofPattern("dd.MM.yyyy")` with its default smart resolver).
 */
module Dates {
  import opened Wrappers
  import opened Text

  /** A `LocalDate`: proleptic Gregorian year, month and day of month. */
  datatype Date = Date(year: int, month: int, day: int)

  predicate IsLeapYear(y: int) {
    y % 4 == 0 && (y % 100 != 0 || y % 400 == 0)
  }

  function DaysInMonth(y: int, m: int): (n: int)
    requires 1 <= m <= 12
    ensures 28 <= n <= 31
  {
    if m == 2 then (if IsLeapYear(y) then 29 else 28)
    else if m == 4 || m == 6 || m == 9 || m == 11 then 30
    else 31
  }

  /** A real calendar date whose year fits the four `yyyy` digits. */
  predicate ValidDate(d: Date) {
    1 <= d.year <= 9999 && 1 <= d.month <= 12 && 1 <= d.day <= DaysInMonth(d.year, d.month)
  }

  /** `a.isBefore(b)`: chronological order, which is lexicographic on (year, month, day). */
  predicate IsBefore(a: Date, b: Date) {
    a.year < b.year || (a.year == b.year && (a.month < b.month || (a.month == b.month && a.day < b.day)))
  }

  /** `a.isAfter(b)`. */
  predicate IsAfter(a: Date, b: Date) {
    IsBefore(b, a)
  }

  /** Chronological order is a strict total order. */
  lemma BeforeIsStrictTotalOrder(a: Date, b: Date, c: Date)
    ensures !IsBefore(a, a)
    ensures IsBefore(a, b) && IsBefore(b, c) ==> IsBefore(a, c)
    ensures a == b || IsBefore(a, b) || IsBefore(b, a)
  {
  }

  /** The character layout of `dd.MM.yyyy`: ten characters, dots at 2 and 5, digits elsewhere. */
  predicate HasDateShape(s: string) {
    |s| == 10 && s[2] == '.' && s[5] == '.' &&
    IsDigit(s[0]) && IsDigit(s[1]) && IsDigit(s[3]) && IsDigit(s[4]) &&
    IsDigit(s[6]) && IsDigit(s[7]) && IsDigit(s[8]) && IsDigit(s[9])
  }

  function DayField(s: string): nat
    requires HasDateShape(s)
  {
    10 * DigitValue(s[0]) + DigitValue(s[1])
  }

  function MonthField(s: string): nat
    requires HasDateShape(s)
  {
    10 * DigitValue(s[3]) + DigitValue(s[4])
  }

  function YearField(s: string): nat
    requires HasDateShape(s)
  {
    1000 * DigitValue(s[6]) + 100 * DigitValue(s[7]) + 10 * DigitValue(s[8]) + DigitValue(s[9])
  }

  /**
   * `LocalDate.parse(s, DATE_FORMATTER)`. The fields must be in range (day 1-31, month 1-12,
   * year-of-era at least 1); the smart resolver then moves a day past the end of its month
   * to the month's last day.
   */
  function ParseDate(s: string): (r: Option<Date>)
    ensures r.Some? ==> ValidDate(r.value)
  {
    if !HasDateShape(s) then None
    else
      var day, month, year := DayField(s), MonthField(s), YearField(s);
      if 1 <= month <= 12 && 1 <= day <= 31 && 1 <= year then
        var last := DaysInMonth(year, month);
        Some(Date(year, month, if day <= last then day else last))
      else None
  }

  /** `date.format(DATE_FORMATTER)`: two-digit day and month, four-digit year. */
  function FormatDate(d: Date): (s: string)
    requires ValidDate(d)
    ensures HasDateShape(s)
  {
    [DigitChar(d.day / 10), DigitChar(d.day % 10), '.',
     DigitChar(d.month / 10), DigitChar(d.month % 10), '.',
     DigitChar(d.year / 1000), DigitChar(d.year / 100 % 10), DigitChar(d.year / 10 % 10), DigitChar(d.year % 10)]
  }

  lemma FourDigits(y: int)
    requires 0 <= y <= 9999
    ensures 1000 * (y / 1000) + 100 * (y / 100 % 10) + 10 * (y / 10 % 10) + y % 10 == y
  {
    var t := y / 10;
    var h := y / 100;
    assert y == 10 * t + y % 10;
    assert t / 10 == h;
    assert t == 10 * h + t % 10;
    assert h / 10 == y / 1000;
    assert h == 10 * (y / 1000) + h % 10;
  }

  /** Formatting a date and parsing the text back gives the same date. */
  lemma ParseFormatRoundTrip(d: Date)
    requires ValidDate(d)
    ensures ParseDate(FormatDate(d)) == Some(d)
  {
    var s := FormatDate(d);
    FourDigits(d.year);
    assert DayField(s) == d.day;
    assert MonthField(s) == d.month;
    assert YearField(s) == d.year;
  }

  lemma TwoDigitFields(a: nat, b: nat)
    requires a <= 9 && b <= 9
    ensures (10 * a + b) / 10 == a && (10 * a + b) % 10 == b
  {
    DivMod10(a, b);
  }

  lemma FourDigitFields(a: nat, b: nat, c: nat, e: nat)
    requires a <= 9 && b <= 9 && c <= 9 && e <= 9
    ensures var y := 1000 * a + 100 * b + 10 * c + e;
      y / 1000 == a && y / 100 % 10 == b && y / 10 % 10 == c && y % 10 == e
  {
    DivMod1000(a, 100 * b + 10 * c + e);
    DivMod100(10 * a + b, 10 * c + e);
    DivMod10(a, b);
    DivMod10(100 * a + 10 * b + c, e);
    DivMod10(10 * a + b, c);
  }

  /** Rendering the fields read from a well-shaped string reproduces the string. */
  lemma FormatOfFields(s: string)
    requires HasDateShape(s)
    requires ValidDate(Date(YearField(s), MonthField(s), DayField(s)))
    ensures FormatDate(Date(YearField(s), MonthField(s), DayField(s))) == s
  {
    TwoDigitFields(DigitValue(s[0]), DigitValue(s[1]));
    TwoDigitFields(DigitValue(s[3]), DigitValue(s[4]));
    FourDigitFields(DigitValue(s[6]), DigitValue(s[7]), DigitValue(s[8]), DigitValue(s[9]));
    DigitCharOfValue(s[0]); DigitCharOfValue(s[1]); DigitCharOfValue(s[3]); DigitCharOfValue(s[4]);
    DigitCharOfValue(s[6]); DigitCharOfValue(s[7]); DigitCharOfValue(s[8]); DigitCharOfValue(s[9]);
  }

  /**
   * A parsed string is rendered back to itself exactly when its day field lies within
   * its month; otherwise the smart resolver has moved the day and the text changes.
   */
  lemma FormatParseRoundTrip(s: string)
    requires ParseDate(s).Some?
    ensures FormatDate(ParseDate(s).value) == s <==> DayField(s) <= DaysInMonth(YearField(s), MonthField(s))
  {
    var d := ParseDate(s).value;
    if DayField(s) <= DaysInMonth(YearField(s), MonthField(s)) {
      FormatOfFields(s);
    } else {
      ParseFormatRoundTrip(d);
      assert DayField(FormatDate(d)) == d.day != DayField(s);
    }
  }

  /** Distinct valid dates have distinct renderings, so comparing date strings compares dates. */
  lemma FormatInjective(a: Date, b: Date)
    requires ValidDate(a) && ValidDate(b)
    ensures FormatDate(a) == FormatDate(b) <==> a == b
  {
    ParseFormatRoundTrip(a);
    ParseFormatRoundTrip(b);
  }

  /** The pattern is fixed: the dash-separated form is refused, a well-formed date is read as written. */
  lemma ParseExamples()
    ensures ParseDate("12-12-2022") == None
    ensures ParseDate("14.07.1980") == Some(Date(1980, 7, 14))
    ensures ParseDate("31.02.2023") == Some(Date(2023, 2, 28))
    ensures ParseDate("29.02.2024") == Some(Date(2024, 2, 29))
    ensures ParseDate("01.13.2023") == None
    ensures ParseDate("00.01.2023") == None
  {
    assert !HasDateShape("12-12-2022");
    ghost var s := "14.07.1980";
    assert DayField(s) == 14 && MonthField(s) == 7 && YearField(s) == 1980;
    s := "31.02.2023";
    assert DayField(s) == 31 && MonthField(s) == 2 && YearField(s) == 2023;
    s := "29.02.2024";
    assert DayField(s) == 29 && MonthField(s) == 2 && YearField(s) == 2024;
    s := "01.13.2023";
    assert MonthField(s) == 13;
    s := "00.01.2023";
    assert DayField(s) == 0;
  }
}
