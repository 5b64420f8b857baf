/** Calendar dates as the schema's `date` field accepts them and as `str(date)` prints them (ISO YYYY-MM-DD). */
module Dates {

  import opened Wrappers

  datatype Date = Date(year: int, month: int, day: int)

  predicate IsLeapYear(y: int) {
    y % 4 == 0 && (y % 100 != 0 || y % 400 == 0)
  }

  function DaysInMonth(y: int, m: int): int
    requires 1 <= m <= 12
  {
    if m == 2 then (if IsLeapYear(y) then 29 else 28)
    else if m == 4 || m == 6 || m == 9 || m == 11 then 30
    else 31
  }

  /** A date Python's `datetime.date` can represent: years 1 to 9999, real months and days. */
  predicate ValidDate(d: Date) {
    1 <= d.year <= 9999 && 1 <= d.month <= 12 && 1 <= d.day <= DaysInMonth(d.year, d.month)
  }

  predicate IsDigit(c: char) {
    '0' <= c <= '9'
  }

  function DigitValue(c: char): int
    requires IsDigit(c)
  {
    c as int - '0' as int
  }

  function DigitChar(d: int): (c: char)
    requires 0 <= d < 10
    ensures IsDigit(c) && DigitValue(c) == d
  {
    (d + '0' as int) as char
  }

  /** The value of the `n` decimal digits of `s` that start at `at`. */
  function Digits(s: string, at: nat, n: nat): int
    requires at + n <= |s| && forall i :: at <= i < at + n ==> IsDigit(s[i])
  {
    if n == 0 then 0 else 10 * Digits(s, at, n - 1) + DigitValue(s[at + n - 1])
  }

  predicate IsDateShape(s: string) {
    |s| == 10 && s[4] == '-' && s[7] == '-' &&
    forall i :: 0 <= i < 10 && i != 4 && i != 7 ==> IsDigit(s[i])
  }

  /** Parses "YYYY-MM-DD"; anything else, or a day that is not on the calendar, is rejected. */
  function ParseDate(s: string): (r: Option<Date>)
    ensures r.Some? ==> ValidDate(r.value) && IsDateShape(s)
  {
    if !IsDateShape(s) then None
    else
      var d := Date(Digits(s, 0, 4), Digits(s, 5, 2), Digits(s, 8, 2));
      if ValidDate(d) then Some(d) else None
  }

  /** `str(date)`: the year padded to four digits, month and day to two. */
  function FormatDate(d: Date): (s: string)
    requires ValidDate(d)
    ensures IsDateShape(s)
  {
    [DigitChar(d.year / 1000), DigitChar(d.year / 100 % 10), DigitChar(d.year / 10 % 10), DigitChar(d.year % 10),
     '-', DigitChar(d.month / 10), DigitChar(d.month % 10),
     '-', DigitChar(d.day / 10), DigitChar(d.day % 10)]
  }

  lemma SplitFour(y: int)
    requires 0 <= y < 10000
    ensures 1000 * (y / 1000) + 100 * (y / 100 % 10) + 10 * (y / 10 % 10) + y % 10 == y
  {
    var q1, d := y / 10, y % 10;
    var q2, c := q1 / 10, q1 % 10;
    var q3, b := q2 / 10, q2 % 10;
    Div100(y, q2, 10 * c + d);
    Div1000(y, q3, 100 * b + 10 * c + d);
  }

  lemma Div10(y: int, q: int, r: int)
    requires y == 10 * q + r && 0 <= r < 10
    ensures y / 10 == q && y % 10 == r
  {
  }

  lemma Div100(y: int, q: int, r: int)
    requires y == 100 * q + r && 0 <= r < 100
    ensures y / 100 == q
  {
  }

  lemma Div1000(y: int, q: int, r: int)
    requires y == 1000 * q + r && 0 <= r < 1000
    ensures y / 1000 == q
  {
  }

  lemma JoinFour(a: int, b: int, c: int, d: int)
    requires 0 <= a < 10 && 0 <= b < 10 && 0 <= c < 10 && 0 <= d < 10
    ensures var y := 1000 * a + 100 * b + 10 * c + d;
      y / 1000 == a && y / 100 % 10 == b && y / 10 % 10 == c && y % 10 == d
  {
    var y := 1000 * a + 100 * b + 10 * c + d;
    Div1000(y, a, 100 * b + 10 * c + d);
    Div100(y, 10 * a + b, 10 * c + d);
    Div10(10 * a + b, a, b);
    Div10(y, 100 * a + 10 * b + c, d);
    Div10(100 * a + 10 * b + c, 10 * a + b, c);
  }

  lemma DigitRoundTrip(c: char)
    requires IsDigit(c)
    ensures DigitChar(DigitValue(c)) == c
  {
  }

  lemma DigitsTwo(s: string, at: nat)
    requires at + 2 <= |s| && IsDigit(s[at]) && IsDigit(s[at + 1])
    ensures Digits(s, at, 2) == 10 * DigitValue(s[at]) + DigitValue(s[at + 1])
  {
    assert Digits(s, at, 1) == DigitValue(s[at]);
  }

  lemma DigitsFour(s: string, at: nat)
    requires at + 4 <= |s| && forall i :: at <= i < at + 4 ==> IsDigit(s[i])
    ensures Digits(s, at, 4) == 1000 * DigitValue(s[at]) + 100 * DigitValue(s[at + 1]) + 10 * DigitValue(s[at + 2]) + DigitValue(s[at + 3])
  {
    DigitsTwo(s, at);
    assert Digits(s, at, 3) == 10 * Digits(s, at, 2) + DigitValue(s[at + 2]);
  }

  /** What `str(date)` prints, the schema parses back to the same date. */
  lemma {:induction false} FormatThenParse(d: Date)
    requires ValidDate(d)
    ensures ParseDate(FormatDate(d)) == Some(d)
  {
    var s := FormatDate(d);
    SplitFour(d.year);
    DigitsFour(s, 0);
    DigitsTwo(s, 5);
    DigitsTwo(s, 8);
    assert Digits(s, 0, 4) == d.year;
    assert Digits(s, 5, 2) == d.month;
    assert Digits(s, 8, 2) == d.day;
  }

  /** A string the schema accepts as a date is exactly how that date prints. */
  lemma {:induction false} ParseThenFormat(s: string)
    requires ParseDate(s).Some?
    ensures FormatDate(ParseDate(s).value) == s
  {
    var d := ParseDate(s).value;
    DigitsFour(s, 0);
    DigitsTwo(s, 5);
    DigitsTwo(s, 8);
    JoinFour(DigitValue(s[0]), DigitValue(s[1]), DigitValue(s[2]), DigitValue(s[3]));
    assert d.year == 1000 * DigitValue(s[0]) + 100 * DigitValue(s[1]) + 10 * DigitValue(s[2]) + DigitValue(s[3]);
    assert d.month == 10 * DigitValue(s[5]) + DigitValue(s[6]);
    assert d.day == 10 * DigitValue(s[8]) + DigitValue(s[9]);
    Div10(d.month, DigitValue(s[5]), DigitValue(s[6]));
    Div10(d.day, DigitValue(s[8]), DigitValue(s[9]));
    var f := FormatDate(d);
    forall i | 0 <= i < 10 && i != 4 && i != 7 ensures f[i] == s[i] {
      DigitRoundTrip(s[i]);
    }
    assert f == s;
  }
}
