/**
  `datetime.strptime(text, "%d/%m/%Y").date()` as the header parser uses it.
  CPython matches the format with a regular expression whose day part is
  `3[01]|[12]\d|0[1-9]|[1-9]| [1-9]` (the last a space and a digit), whose
  month part is `1[0-2]|0[1-9]|[1-9]` and whose year part is exactly four
  digits, rejects any text left over, and
  then builds a `datetime.date`, which rejects year 0 and days past the end
  of the month.
*/
module Dates {
  import opened Wrappers
  import opened PyStr
  import opened Numbers

  datatype Date = Date(year: int, month: int, day: int)

  /** Gregorian leap years. */
  predicate IsLeapYear(y: int) {
    y % 4 == 0 && (y % 100 != 0 || y % 400 == 0)
  }

  function DaysInMonth(y: int, m: int): (n: int)
    requires 1 <= m <= 12
    ensures 28 <= n <= 31
  {
    if m == 2 then (if IsLeapYear(y) then 29 else 28)
    else if m == 4 || m == 6 || m == 9 || m == 11 then 30
    else 31
  }

  /** A date `datetime.date` accepts: years 1 to 9999, a real day of a real month. */
  predicate IsValidDate(d: Date) {
    && 1 <= d.year <= 9999
    && 1 <= d.month <= 12
    && 1 <= d.day <= DaysInMonth(d.year, d.month)
  }

  /** What `%d` matches: one digit 1-9, two digits from 01 to 31, or a
      space followed by a digit 1-9. */
  predicate IsDayText(t: string) {
    || (|t| == 1 && '1' <= t[0] <= '9')
    || (|t| == 2 && AllDigits(t) && 1 <= DigitsValue(t) <= 31)
    || (|t| == 2 && t[0] == ' ' && '1' <= t[1] <= '9')
  }

  /** `int()` of a day text: a leading space is skipped. */
  function DayValue(t: string): (n: nat)
    requires IsDayText(t)
    ensures 1 <= n <= 31
  {
    if t[0] == ' ' then DigitValue(t[1]) else DigitsValue(t)
  }

  /** What `%m` matches: one digit 1-9, or two digits from 01 to 12. */
  predicate IsMonthText(t: string) {
    || (|t| == 1 && '1' <= t[0] <= '9')
    || (|t| == 2 && AllDigits(t) && 1 <= DigitsValue(t) <= 12)
  }

  /** What `%Y` matches: exactly four digits. */
  predicate IsYearText(t: string) {
    |t| == 4 && AllDigits(t)
  }

  /** `strptime(s, "%d/%m/%Y").date()`, `None` where it raises `ValueError`.
      The day and month parts cannot hold `/`, and the year part is followed
      by the end of the text, so the text has exactly two slashes. */
  function ParseDate(s: string): (d: Option<Date>)
    ensures d.Some? ==> IsValidDate(d.value)
  {
    var parts := Split(s, '/');
    if |parts| != 3 then None
    else if !(IsDayText(parts[0]) && IsMonthText(parts[1]) && IsYearText(parts[2])) then None
    else
      var date := Date(DigitsValue(parts[2]), DigitsValue(parts[1]), DayValue(parts[0]));
      if IsValidDate(date) then Some(date) else None
  }

  /** The zero-padded `DD/MM/YYYY` spelling of day, month and year numbers. */
  function DateText(year: nat, month: nat, day: nat): (s: string)
    requires year < 10000 && month < 100 && day < 100
    ensures |s| == 10
  {
    Fixed(day, 2) + "/" + Fixed(month, 2) + "/" + Fixed(year, 4)
  }

  /** A one- or two-digit text is a day (month) text exactly when its value is
      a possible day (month). */
  lemma TwoDigitsText(t: string)
    requires |t| == 2 && AllDigits(t)
    ensures IsDayText(t) <==> 1 <= DigitsValue(t) <= 31
    ensures IsMonthText(t) <==> 1 <= DigitsValue(t) <= 12
  {
  }

  /** Three slash-free texts joined by slashes split back into the three. */
  lemma SplitSlashes(d: string, m: string, y: string)
    requires '/' !in d && '/' !in m && '/' !in y
    ensures Split(d + "/" + m + "/" + y, '/') == [d, m, y]
  {
    SplitNoSeparator(y, '/');
    SplitCons(m, y, '/');
    SplitCons(d, m + "/" + y, '/');
    assert d + "/" + m + "/" + y == d + "/" + (m + "/" + y);
    assert [d] + ([m] + [y]) == [d, m, y];
  }

  /** A digit string holds no character that is not a digit. */
  lemma DigitsLack(s: string, c: char)
    requires AllDigits(s) && !IsDigit(c)
    ensures c !in s
  {
  }

  /** The zero-padded spelling splits at its two slashes into the three
      numbers' digit strings. */
  lemma DateTextSplit(year: nat, month: nat, day: nat)
    requires year < 10000 && month < 100 && day < 100
    ensures Split(DateText(year, month, day), '/') == [Fixed(day, 2), Fixed(month, 2), Fixed(year, 4)]
  {
    DigitsLack(Fixed(day, 2), '/');
    DigitsLack(Fixed(month, 2), '/');
    DigitsLack(Fixed(year, 4), '/');
    SplitSlashes(Fixed(day, 2), Fixed(month, 2), Fixed(year, 4));
  }

  /** The zero-padded spelling of three numbers parses back to exactly the
      date they name when that date exists, and is rejected when it does not
      (day or month 0, day past the end of the month, month above 12, year 0). */
  lemma ParseDateText(year: nat, month: nat, day: nat)
    requires year < 10000 && month < 100 && day < 100
    ensures ParseDate(DateText(year, month, day))
         == if IsValidDate(Date(year, month, day)) then Some(Date(year, month, day)) else None
  {
    DateTextSplit(year, month, day);
    TwoDigitsText(Fixed(day, 2));
    TwoDigitsText(Fixed(month, 2));
  }

  /** A day written as a space and one digit reads as the same date as its
      zero-padded spelling. */
  lemma SpacedDay(year: nat, month: nat, day: nat)
    requires year < 10000 && month < 100 && 1 <= day <= 9
    ensures ParseDate([' ', DigitChar(day)] + "/" + Fixed(month, 2) + "/" + Fixed(year, 4))
         == ParseDate(DateText(year, month, day))
  {
    DigitsLack(Fixed(month, 2), '/');
    DigitsLack(Fixed(year, 4), '/');
    SplitSlashes([' ', DigitChar(day)], Fixed(month, 2), Fixed(year, 4));
    TwoDigitsText(Fixed(month, 2));
    ParseDateText(year, month, day);
  }
}
