/** Dates and their ISO 8601 text, as `LocalDate` writes it. */
module Dates {
  import opened Options
  import opened SqlText

  datatype Date = Date(year: int, month: nat, day: nat)

  predicate IsLeap(year: int) { year % 4 == 0 && (year % 100 != 0 || year % 400 == 0) }

  function DaysIn(year: int, month: nat): nat {
    if month == 2 then (if IsLeap(year) then 29 else 28)
    else if month == 4 || month == 6 || month == 9 || month == 11 then 30
    else 31
  }

  predicate IsDate(d: Date) { 1 <= d.month <= 12 && 1 <= d.day <= DaysIn(d.year, d.month) }

  type CalendarDate = d: Date | IsDate(d) witness Date(1970, 1, 1)

  predicate Earlier(a: Date, b: Date) {
    a.year < b.year || (a.year == b.year && (a.month < b.month || (a.month == b.month && a.day < b.day)))
  }

  /** Four digits at least; a sign before negative years, and before those with more than four digits. */
  function YearText(year: int): string {
    if year < 0 then "-" + Padded(-year, 4)
    else if year > 9999 then "+" + Padded(year, 4)
    else Padded(year, 4)
  }

  function DateText(d: Date): string {
    YearText(d.year) + ("-" + Padded(d.month, 2) + "-" + Padded(d.day, 2))
  }

  function NumberOf(t: string): Option<nat> {
    var d := ReadDigits(t, 0);
    if t == "" || d.rest != "" then None else Some(d.v)
  }

  function YearOf(t: string): Option<int> {
    if t == "" then None
    else if t[0] == '-' then
      match NumberOf(t[1..])
      case Some(n) => Some(-(n as int))
      case None => None
    else
      match NumberOf(if t[0] == '+' then t[1..] else t)
      case Some(n) => Some(n)
      case None => None
  }

  /** The date that a text stands for: a year, and two digits each for the month and the day. */
  function DateOf(s: string): Option<CalendarDate> {
    if |s| < 7 then None
    else
      var k := |s| - 6;
      var year, month, day := YearOf(s[..k]), NumberOf(s[k + 1..k + 3]), NumberOf(s[k + 4..]);
      if s[k] != '-' || s[k + 3] != '-' || year.None? || month.None? || day.None? then None
      else
        var d := Date(year.value, month.value, day.value);
        if IsDate(d) then Some(d) else None
  }

  lemma NumberRoundTrip(n: nat, width: nat)
    ensures NumberOf(Padded(n, width)) == Some(n)
  {
    PaddedRead(n, width);
  }

  lemma YearRoundTrip(year: int)
    ensures YearOf(YearText(year)) == Some(year) && YearText(year) != ""
  {
    hide Padded, NumberOf;
    if year < 0 { NumberRoundTrip(-year, 4); } else { NumberRoundTrip(year, 4); }
  }

  lemma TwoDigits(n: nat)
    requires n < 100
    ensures |Padded(n, 2)| == 2
  {
    if n >= 10 { assert |Digits(n / 10)| == 1; }
  }

  /** Every date is read back from its text. */
  lemma DateRoundTrip(d: CalendarDate)
    ensures DateOf(DateText(d)) == Some(d)
  {
    hide Padded, NumberOf, YearOf, YearText;
    TwoDigits(d.month);
    TwoDigits(d.day);
    YearRoundTrip(d.year);
    NumberRoundTrip(d.month, 2);
    NumberRoundTrip(d.day, 2);
    var s, k := DateText(d), |YearText(d.year)|;
    assert s[..k] == YearText(d.year);
    assert s[k + 1..k + 3] == Padded(d.month, 2);
    assert s[k + 4..] == Padded(d.day, 2);
  }

  // ---- The calendar ----

  /** Days from March 1 of year 0 to the first of a month, March being month 0. */
  function DaysBefore(year: int, month: nat): int
    requires 1 <= month <= 12
  {
    var y, m := if month > 2 then year else year - 1, if month > 2 then month - 3 else month + 9;
    365 * y + y / 4 - y / 100 + y / 400 + (153 * m + 2) / 5
  }

  /** The months have the lengths of the Gregorian calendar: each ends where the next begins, in that calendar's count of days. */
  lemma MonthsFollow(year: int, month: nat)
    requires 1 <= month <= 12
    ensures DaysBefore(year, month) + DaysIn(year, month)
         == if month < 12 then DaysBefore(year, month + 1) else DaysBefore(year + 1, 1)
  {
    if month == 2 {
      LeapDay(year);
    }
  }

  /** The count of leap days grows by one exactly in leap years. */
  lemma LeapDay(year: int)
    ensures (year / 4 - year / 100 + year / 400) - ((year - 1) / 4 - (year - 1) / 100 + (year - 1) / 400)
         == if IsLeap(year) then 1 else 0
  {
    Multiples(year, 4);
    Multiples(year, 100);
    Multiples(year, 400);
  }

  lemma Multiples(year: int, n: int)
    requires n > 1
    ensures year / n - (year - 1) / n == if year % n == 0 then 1 else 0
  {
    var q, r := year / n, year % n;
    if r == 0 {
      assert year - 1 == n * (q - 1) + (n - 1);
      Quotient(year - 1, n, q - 1, n - 1);
    } else {
      assert year - 1 == n * q + (r - 1);
      Quotient(year - 1, n, q, r - 1);
    }
  }

  lemma Quotient(x: int, n: int, q: int, r: int)
    requires n > 0 && x == n * q + r && 0 <= r < n
    ensures x / n == q
  {
    var d := x / n - q;
    assert n * d == r - x % n;
    assert d >= 1 ==> n * d >= n;
    assert d <= -1 ==> n * d <= -n;
  }
}
