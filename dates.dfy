/** Calendar dates as Python's `datetime.date` handles them: years 1 to 9999,
    the Gregorian leap-year rule, day numbers counted from 1 January of year 1
    (what `date.toordinal` returns, and what date comparison and date
    arithmetic amount to), parsing with `strptime(s, "%d.%m.%Y")` and
    formatting with `strftime("%d.%m.%Y")`. */
module Dates {
  import opened Outcomes
  import opened Text

  datatype Date = Date(day: int, month: int, year: int)

  predicate IsLeap(y: int)
  {
    y % 4 == 0 && (y % 100 != 0 || y % 400 == 0)
  }

  function DaysInMonth(m: int, y: int): int
  {
    if m == 2 then (if IsLeap(y) then 29 else 28)
    else if m == 4 || m == 6 || m == 9 || m == 11 then 30
    else 31
  }

  function DaysInYear(y: int): int
  {
    if IsLeap(y) then 366 else 365
  }

  const MinYear := 1
  const MaxYear := 9999

  /** What the `date` constructor (and `date.replace`) accepts. */
  predicate ValidDate(d: Date)
  {
    MinYear <= d.year <= MaxYear && 1 <= d.month <= 12 && 1 <= d.day <= DaysInMonth(d.month, d.year)
  }

  function DaysBeforeYear(y: int): int
  {
    var p := y - 1;
    365 * p + p / 4 - p / 100 + p / 400
  }

  function DaysBeforeMonth(m: int, y: int): (n: int)
    ensures n >= 0
    decreases m
  {
    if m <= 1 then 0 else DaysBeforeMonth(m - 1, y) + DaysInMonth(m - 1, y)
  }

  /** `date.toordinal()`: 1 January of year 1 is day 1. */
  function Ordinal(d: Date): int
  {
    DaysBeforeYear(d.year) + DaysBeforeMonth(d.month, d.year) + d.day
  }

  /** The ordinal of 31 December 9999, the last representable date. */
  const MaxOrdinal := 3652059

  /** Ordinals of consecutive years are one year's length apart. */
  lemma DaysBeforeNextYear(y: int)
    requires y >= 1
    ensures DaysBeforeYear(y + 1) == DaysBeforeYear(y) + DaysInYear(y)
  {
    var p := y - 1;
    assert (p + 1) / 4 == p / 4 + (if (p + 1) % 4 == 0 then 1 else 0);
    assert (p + 1) / 100 == p / 100 + (if (p + 1) % 100 == 0 then 1 else 0);
    assert (p + 1) / 400 == p / 400 + (if (p + 1) % 400 == 0 then 1 else 0);
  }

  /** The months before `m` never fill the year. */
  lemma DaysBeforeMonthBound(m: int, y: int)
    requires 1 <= m <= 12
    ensures DaysBeforeMonth(m, y) + DaysInMonth(m, y) <= DaysInYear(y)
  {
    var b := DaysBeforeMonth(12, y);
    assert b == DaysBeforeMonth(11, y) + 30 == DaysBeforeMonth(10, y) + 61
      == DaysBeforeMonth(9, y) + 91 == DaysBeforeMonth(8, y) + 122
      == DaysBeforeMonth(7, y) + 153 == DaysBeforeMonth(6, y) + 183
      == DaysBeforeMonth(5, y) + 214 == DaysBeforeMonth(4, y) + 244
      == DaysBeforeMonth(3, y) + 275 == DaysInMonth(2, y) + 306;
    assert DaysInYear(y) == DaysInMonth(2, y) + 337;
    if m < 12 {
      MonthsGrow(m, 12, y);
    }
  }

  lemma {:induction false} MonthsGrow(m: int, n: int, y: int)
    requires 1 <= m <= n
    ensures DaysBeforeMonth(m, y) + (if m < n then DaysInMonth(m, y) else 0) <= DaysBeforeMonth(n, y)
    decreases n - m
  {
    if m < n {
      MonthsGrow(m + 1, n, y);
    }
  }

  /** Every valid date of year `y` comes before every valid date of year
      `y + 1`. */
  lemma NextYearIsLater(a: Date, b: Date)
    requires ValidDate(a) && ValidDate(b) && b.year == a.year + 1
    ensures Ordinal(a) < Ordinal(b)
  {
    DaysBeforeMonthBound(a.month, a.year);
    DaysBeforeNextYear(a.year);
  }

  function DigitValue(c: char): int
  {
    c as int - '0' as int
  }

  function DigitChar(n: int): char
    requires 0 <= n <= 9
  {
    ('0' as int + n) as char
  }

  /** The number a string of decimal digits spells. */
  function Value(s: string): (n: int)
    requires AllDigits(s)
    ensures n >= 0
  {
    if s == [] then 0 else Value(s[..|s| - 1]) * 10 + DigitValue(s[|s| - 1])
  }

  /** The three fields `strptime(s, "%d.%m.%Y")` reads: a day of one or two
      digits, a month of one or two digits and a year of four digits. */
  predicate DateFields(dayText: string, monthText: string, yearText: string)
  {
    1 <= |dayText| <= 2 && AllDigits(dayText) && 1 <= |monthText| <= 2 && AllDigits(monthText)
    && |yearText| == 4 && AllDigits(yearText)
  }

  /** `datetime.strptime(s, "%d.%m.%Y")`: the text must be three such fields
      separated by dots that together form a valid date; `None` where
      `strptime` raises `ValueError`. */
  function ParseDate(s: string): (r: Option<Date>)
    ensures r.Some? ==> ValidDate(r.value)
    ensures r.Some? ==>
      exists dayText, monthText, yearText :: DateFields(dayText, monthText, yearText) &&
        s == dayText + "." + monthText + "." + yearText &&
        r.value == Date(Value(dayText), Value(monthText), Value(yearText))
  {
    var i := IndexOfChar(s, '.');
    if i < 0 then None
    else
      var dayText, rest := s[..i], s[i + 1..];
      var j := IndexOfChar(rest, '.');
      if j < 0 then None
      else
        var monthText, yearText := rest[..j], rest[j + 1..];
        if DateFields(dayText, monthText, yearText) then
          var d := Date(Value(dayText), Value(monthText), Value(yearText));
          if ValidDate(d) then
            SplitAtDots(s, i, j);
            assert DateFields(dayText, monthText, yearText) && s == dayText + "." + monthText + "." + yearText;
            Some(d)
          else None
        else None
  }

  lemma SplitAtDots(s: string, i: int, j: int)
    requires 0 <= i < |s| && s[i] == '.' && 0 <= j < |s[i + 1..]| && s[i + 1..][j] == '.'
    ensures s == s[..i] + "." + s[i + 1..][..j] + "." + s[i + 1..][j + 1..]
  {
    var rest := s[i + 1..];
    assert rest == rest[..j] + "." + rest[j + 1..];
    assert s == s[..i] + "." + rest;
  }

  /** Any three well-formed fields joined by dots parse to the date they
      spell, or are refused when that date does not exist. */
  lemma ParseFields(dayText: string, monthText: string, yearText: string)
    requires DateFields(dayText, monthText, yearText)
    ensures var d := Date(Value(dayText), Value(monthText), Value(yearText));
      ParseDate(dayText + "." + monthText + "." + yearText) == if ValidDate(d) then Some(d) else None
  {
    var s := dayText + "." + monthText + "." + yearText;
    var rest := monthText + "." + yearText;
    assert s == dayText + ("." + rest);
    NoDot(dayText);
    NoDot(monthText);
    IndexOfCharAt(dayText, '.', "." + rest);
    assert s[..|dayText|] == dayText && s[|dayText| + 1..] == rest;
    assert rest == monthText + ("." + yearText);
    IndexOfCharAt(monthText, '.', "." + yearText);
    assert rest[..|monthText|] == monthText && rest[|monthText| + 1..] == yearText;
  }

  /** A day past the month's end is refused, whatever the year. */
  lemma DayPastMonthEndRefused(dayText: string, monthText: string, yearText: string)
    requires DateFields(dayText, monthText, yearText)
    requires Value(dayText) > DaysInMonth(Value(monthText), Value(yearText))
    ensures ParseDate(dayText + "." + monthText + "." + yearText) == None
  {
    ParseFields(dayText, monthText, yearText);
  }

  lemma ValueTwoDigits(s: string)
    requires |s| == 2 && AllDigits(s)
    ensures Value(s) == 10 * DigitValue(s[0]) + DigitValue(s[1])
  {
    assert s[..1][..0] == [];
    assert Value(s[..1]) == DigitValue(s[0]);
  }

  lemma ValueFourDigits(s: string)
    requires |s| == 4 && AllDigits(s)
    ensures Value(s) == 1000 * DigitValue(s[0]) + 100 * DigitValue(s[1]) + 10 * DigitValue(s[2]) + DigitValue(s[3])
  {
    assert s[..3][..2] == s[..2];
    ValueTwoDigits(s[..2]);
  }

  /** 31 February does not exist. */
  lemma ThirtyFirstFebruaryRefused(d: string, m: string, y: string)
    requires d == "31" && m == "02" && y == "2024"
    ensures ParseDate(d + "." + m + "." + y) == None
  {
    ValueTwoDigits(d);
    ValueTwoDigits(m);
    ValueFourDigits(y);
    assert Value(d) == 31 && Value(m) == 2;
    assert DateFields(d, m, y);
    DayPastMonthEndRefused(d, m, y);
  }

  /** 29 February exists only in a leap year. */
  lemma LeapDayNeedsLeapYear(d: string, m: string, y: string)
    requires d == "29" && m == "02" && y == "2023"
    ensures ParseDate(d + "." + m + "." + y) == None
  {
    ValueTwoDigits(d);
    ValueTwoDigits(m);
    ValueFourDigits(y);
    assert Value(d) == 29 && Value(m) == 2 && Value(y) == 2023;
    assert DaysInMonth(2, 2023) == 28;
    assert DateFields(d, m, y);
    DayPastMonthEndRefused(d, m, y);
  }

  lemma LeapDayInLeapYear(d: string, m: string, y: string)
    requires d == "29" && m == "02" && y == "2024"
    ensures ParseDate(d + "." + m + "." + y) == Some(Date(29, 2, 2024))
  {
    ValueTwoDigits(d);
    ValueTwoDigits(m);
    ValueFourDigits(y);
    assert DateFields(d, m, y);
    ParseFields(d, m, y);
  }

  /** Fields of one digit are accepted: "1.3.2024" is 1 March 2024. */
  lemma OneDigitFields(d: string, m: string, y: string)
    requires d == "1" && m == "3" && y == "2024"
    ensures ParseDate(d + "." + m + "." + y) == Some(Date(1, 3, 2024))
  {
    assert Value(d) == 1 by { assert d[..0] == []; }
    assert Value(m) == 3 by { assert m[..0] == []; }
    ValueFourDigits(y);
    assert DateFields(d, m, y);
    ParseFields(d, m, y);
  }

  function Pad2(n: int): (s: string)
    requires 0 <= n < 100
    ensures |s| == 2 && AllDigits(s)
  {
    [DigitChar(n / 10), DigitChar(n % 10)]
  }

  function Pad4(n: int): (s: string)
    requires 0 <= n < 10000
    ensures |s| == 4 && AllDigits(s)
  {
    [DigitChar(n / 1000), DigitChar(n / 100 % 10), DigitChar(n / 10 % 10), DigitChar(n % 10)]
  }

  /** `date.strftime("%d.%m.%Y")` */
  function FormatDate(d: Date): (s: string)
    requires ValidDate(d)
    ensures |s| == 10
  {
    Pad2(d.day) + "." + Pad2(d.month) + "." + Pad4(d.year)
  }

  lemma ValuePad2(n: int)
    requires 0 <= n < 100
    ensures Value(Pad2(n)) == n
  {
    var s := Pad2(n);
    assert s[..1][..0] == [];
    assert Value(s[..1]) == n / 10;
  }

  lemma ValuePad4(n: int)
    requires 0 <= n < 10000
    ensures Value(Pad4(n)) == n
  {
    var s := Pad4(n);
    assert s[..1][..0] == [];
    assert s[..2][..1] == s[..1];
    assert s[..3][..2] == s[..2];
    assert Value(s[..1]) == n / 1000;
    assert Value(s[..2]) == n / 100;
    assert Value(s[..3]) == n / 10;
  }

  lemma NoDot(s: string)
    requires AllDigits(s)
    ensures '.' !in s
  {
    forall i | 0 <= i < |s| ensures s[i] != '.' { assert IsDigit(s[i]); }
  }

  /** Formatting a valid date and parsing the text gives the date back. */
  lemma ParseFormat(d: Date)
    requires ValidDate(d)
    ensures ParseDate(FormatDate(d)) == Some(d)
  {
    ValuePad2(d.day);
    ValuePad2(d.month);
    ValuePad4(d.year);
    ParseFields(Pad2(d.day), Pad2(d.month), Pad4(d.year));
  }
}
