/** `datetime.strptime(s, '%Y-%m-%d')` as a partial function to a calendar
    date, and the order in which `datetime` values compare.

    CPython turns the format into the regular expression
      `(?P<Y>\d\d\d\d)-(?P<m>1[0-2]|0[1-9]|[1-9])-(?P<d>3[01]|[12]\d|0[1-9]|[1-9]| [1-9])`,
    matches it at the start of the text (the first alternative that lets the
    whole expression match wins), raises ValueError when text is left over,
    and then builds a `datetime`, which raises ValueError for a year below 1
    or a day past the end of the month. Only ASCII digits are modelled. */
module Dates {

  import opened Wrappers

  datatype Date = Date(year: int, month: int, day: int)

  predicate IsDigit(c: char) {
    '0' <= c <= '9'
  }

  predicate IsNonZeroDigit(c: char) {
    '1' <= c <= '9'
  }

  function DigitValue(c: char): (v: int)
    requires IsDigit(c)
    ensures 0 <= v <= 9
  {
    c as int - '0' as int
  }

  predicate IsLeapYear(y: int) {
    y % 4 == 0 && (y % 100 != 0 || y % 400 == 0)
  }

  function DaysInMonth(y: int, m: int): (n: int)
    requires 1 <= m <= 12
    ensures 28 <= n <= 31
  {
    if m == 2 then (if IsLeapYear(y) then 29 else 28)
    else if m == 4 || m == 6 || m == 9 || m == 11 then 30
    else 31
  }

  /** The dates a `datetime` can hold (years 1 to 9999). */
  predicate ValidDate(d: Date) {
    1 <= d.year <= 9999 && 1 <= d.month <= 12 && 1 <= d.day <= DaysInMonth(d.year, d.month)
  }

  /** `%m` followed by the literal '-': the value and the number of characters
      it takes. The three alternatives cannot both be followed by '-', so at
      most one of them lets the match go on. */
  function MonthField(r: string): (f: Option<(int, nat)>)
    ensures f.Some? ==> 1 <= f.value.0 <= 12 && 1 <= f.value.1 <= 2
    ensures f.Some? ==> f.value.1 < |r| && r[f.value.1] == '-'
  {
    if |r| >= 3 && r[2] == '-' && ((r[0] == '1' && '0' <= r[1] <= '2') || (r[0] == '0' && IsNonZeroDigit(r[1]))) then
      Some((10 * DigitValue(r[0]) + DigitValue(r[1]), 2))
    else if |r| >= 2 && r[1] == '-' && IsNonZeroDigit(r[0]) then
      Some((DigitValue(r[0]), 1))
    else
      None
  }

  /** `%d`: the first of its alternatives that matches at the start of `r`,
      with its value and width. Nothing follows it in the expression, so no
      later alternative is tried once one matches. */
  function DayField(r: string): (f: Option<(int, nat)>)
    ensures f.Some? ==> 1 <= f.value.0 <= 31 && 1 <= f.value.1 <= 2 && f.value.1 <= |r|
  {
    if |r| >= 2 && r[0] == '3' && (r[1] == '0' || r[1] == '1') then
      Some((30 + DigitValue(r[1]), 2))
    else if |r| >= 2 && (r[0] == '1' || r[0] == '2') && IsDigit(r[1]) then
      Some((10 * DigitValue(r[0]) + DigitValue(r[1]), 2))
    else if |r| >= 2 && r[0] == '0' && IsNonZeroDigit(r[1]) then
      Some((DigitValue(r[1]), 2))
    else if |r| >= 1 && IsNonZeroDigit(r[0]) then
      Some((DigitValue(r[0]), 1))
    else if |r| >= 2 && r[0] == ' ' && IsNonZeroDigit(r[1]) then
      Some((DigitValue(r[1]), 2))
    else
      None
  }

  /** `datetime.strptime(s, '%Y-%m-%d')`: None where it raises ValueError. */
  function ParseYmd(s: string): (r: Option<Date>)
    ensures r.Some? ==> ValidDate(r.value)
    ensures r.Some? ==> |s| >= 8 && IsDigit(s[0]) && IsDigit(s[1]) && IsDigit(s[2]) && IsDigit(s[3]) && s[4] == '-'
  {
    if |s| < 5 || !(IsDigit(s[0]) && IsDigit(s[1]) && IsDigit(s[2]) && IsDigit(s[3])) || s[4] != '-' then
      None
    else
      var year := 1000 * DigitValue(s[0]) + 100 * DigitValue(s[1]) + 10 * DigitValue(s[2]) + DigitValue(s[3]);
      match MonthField(s[5..])
      case None => None
      case Some(mf) =>
        var rest := s[5 + mf.1 + 1..];
        match DayField(rest)
        case None => None
        case Some(df) =>
          if df.1 != |rest| then None
          else if year < 1 || df.0 > DaysInMonth(year, mf.0) then None
          else Some(Date(year, mf.0, df.0))
  }

  /** Comparison of the `datetime` values strptime builds (midnight of each day). */
  predicate DateLe(a: Date, b: Date) {
    a.year < b.year || (a.year == b.year && (a.month < b.month || (a.month == b.month && a.day <= b.day)))
  }

  function Digit(n: int): (c: char)
    requires 0 <= n <= 9
    ensures IsDigit(c) && DigitValue(c) == n
  {
    ('0' as int + n) as char
  }

  function Digits2(n: int): (s: string)
    requires 0 <= n <= 99
  {
    [Digit(n / 10), Digit(n % 10)]
  }

  function Digits4(n: int): (s: string)
    requires 0 <= n <= 9999
  {
    [Digit(n / 10 / 10 / 10), Digit(n / 10 / 10 % 10), Digit(n / 10 % 10), Digit(n % 10)]
  }

  /** The canonical zero-padded `YYYY-MM-DD` text of a date. */
  function FormatYmd(d: Date): (s: string)
    requires ValidDate(d)
    ensures |s| == 10 && s[4] == '-' && s[7] == '-'
  {
    Digits4(d.year) + "-" + Digits2(d.month) + "-" + Digits2(d.day)
  }

  lemma FourDigits(n: int)
    requires 0 <= n <= 9999
    ensures 1000 * (n / 10 / 10 / 10) + 100 * (n / 10 / 10 % 10) + 10 * (n / 10 % 10) + n % 10 == n
  {
    var a := n / 10;
    var b := a / 10;
    assert n == 10 * a + n % 10;
    assert a == 10 * b + a % 10;
    assert b == 10 * (b / 10) + b % 10;
  }

  /** Every valid date written in canonical form parses back to itself. */
  lemma {:induction false} ParseFormatRoundTrip(d: Date)
    requires ValidDate(d)
    ensures ParseYmd(FormatYmd(d)) == Some(d)
  {
    var s := FormatYmd(d);
    FourDigits(d.year);
    assert s[..4] == Digits4(d.year);
    assert s[5..] == Digits2(d.month) + "-" + Digits2(d.day);
    var mf := MonthField(s[5..]);
    assert mf == Some((d.month, 2));
    assert s[8..] == Digits2(d.day);
    assert DayField(s[8..]) == Some((d.day, 2));
  }

  /** strptime accepts more than the canonical form: one-digit months and days,
      and a day written with a leading space. */
  lemma ParseAcceptsShortFields()
    ensures ParseYmd("2024-1-5") == Some(Date(2024, 1, 5))
    ensures ParseYmd("2024-12- 7") == Some(Date(2024, 12, 7))
  {
    assert MonthField("1-5") == Some((1, 1));
    assert "2024-1-5"[7..] == "5";
    assert MonthField("12- 7") == Some((12, 2));
    assert "2024-12- 7"[8..] == " 7";
  }

  /** Days past the end of the month, year 0, a three-digit day and trailing
      text are all ValueError. */
  lemma ParseRejects()
    ensures ParseYmd("2023-02-29") == None
    ensures ParseYmd("0000-01-01") == None
    ensures ParseYmd("2024-01-310") == None
    ensures ParseYmd("2024-01-01T00") == None
  {
    assert "2023-02-29"[5..] == "02-29";
    assert MonthField("02-29") == Some((2, 2));
    assert "2023-02-29"[8..] == "29";
    assert "0000-01-01"[5..] == "01-01";
    assert MonthField("01-01") == Some((1, 2));
    assert "0000-01-01"[8..] == "01";
    assert "2024-01-310"[5..] == "01-310";
    assert MonthField("01-310") == Some((1, 2));
    assert "2024-01-310"[8..] == "310";
    assert "2024-01-01T00"[5..] == "01-01T00";
    assert MonthField("01-01T00") == Some((1, 2));
    assert "2024-01-01T00"[8..] == "01T00";
  }
}
