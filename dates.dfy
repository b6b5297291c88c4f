/**
 * Calendar dates written `YYYY-MM-DD` (the extended complete calendar date of
 * ISO 8601:2004, section 4.1.2.2) and the time value ECMAScript's `new Date(s).getTime()`
 * gives them: a date-only string is read as midnight UTC, and the time value
 * is MakeDate(MakeDay(year, month, day), 0) in milliseconds since 1970-01-01.
 * The main result is that, on well-formed dates, ordering by time value is
 * exactly lexicographic ordering of the strings.
 */
module Dates {

  // ---------------------------------------------------------------------
  // Digits and lexicographic order on strings
  // ---------------------------------------------------------------------

  predicate IsDigit(c: char) {
    '0' <= c <= '9'
  }

  predicate AllDigits(s: string) {
    forall i :: 0 <= i < |s| ==> IsDigit(s[i])
  }

  function DigitValue(c: char): nat
    requires IsDigit(c)
  {
    (c as int) - ('0' as int)
  }

  function Pow10(n: nat): (p: nat)
    ensures p >= 1
  {
    if n == 0 then 1 else 10 * Pow10(n - 1)
  }

  /** The number a digit string denotes, most significant digit first. */
  function DigitsValue(s: string): nat
    requires AllDigits(s)
  {
    if s == [] then 0 else DigitValue(s[0]) * Pow10(|s| - 1) + DigitsValue(s[1..])
  }

  /** Strict lexicographic order on strings, comparing characters from the left. */
  predicate LexLess(a: string, b: string)
    decreases |a|
  {
    if a == [] then b != []
    else if b == [] then false
    else if a[0] != b[0] then a[0] < b[0]
    else LexLess(a[1..], b[1..])
  }

  lemma MulLe(a: nat, b: nat, c: nat)
    requires a <= b
    ensures a * c <= b * c
  {
    var d := b - a;
    assert b * c == a * c + d * c;
  }

  /** A digit times p, plus something below p, stays below 10 p. */
  lemma DigitStep(d: nat, p: nat, t: nat)
    requires d <= 9 && t < p
    ensures d * p + t < 10 * p
  {
    MulLe(d + 1, 10, p);
    assert (d + 1) * p == d * p + p;
  }

  /** A smaller leading digit wins, whatever lower part follows. */
  lemma LeadingStep(da: nat, db: nat, p: nat, ta: nat, tb: nat)
    requires da < db && ta < p
    ensures da * p + ta < db * p + tb
  {
    MulLe(da + 1, db, p);
    assert (da + 1) * p == da * p + p;
  }

  lemma {:induction false} DigitsValueBound(s: string)
    requires AllDigits(s)
    ensures DigitsValue(s) < Pow10(|s|)
  {
    if s != [] {
      DigitsValueBound(s[1..]);
      DigitStep(DigitValue(s[0]), Pow10(|s| - 1), DigitsValue(s[1..]));
    }
  }

  /** A smaller leading digit makes a smaller number, whatever follows. */
  lemma LeadingDigitDecides(a: string, b: string)
    requires AllDigits(a) && AllDigits(b) && |a| == |b| > 0 && a[0] < b[0]
    ensures DigitsValue(a) < DigitsValue(b)
  {
    DigitsValueBound(a[1..]);
    LeadingStep(DigitValue(a[0]), DigitValue(b[0]), Pow10(|a| - 1), DigitsValue(a[1..]), DigitsValue(b[1..]));
  }

  /** On digit strings of one length, lexicographic order is numeric order. */
  lemma {:induction false} DigitsLex(a: string, b: string)
    requires AllDigits(a) && AllDigits(b) && |a| == |b|
    ensures LexLess(a, b) <==> DigitsValue(a) < DigitsValue(b)
    ensures a == b <==> DigitsValue(a) == DigitsValue(b)
  {
    if a != [] {
      if a[0] == b[0] {
        DigitsLex(a[1..], b[1..]);
        assert DigitsValue(a) - DigitsValue(b) == DigitsValue(a[1..]) - DigitsValue(b[1..]);
        assert a == b <==> a[1..] == b[1..] by {
          if a[1..] == b[1..] { assert a == [a[0]] + a[1..] && b == [b[0]] + b[1..]; }
        }
      } else if a[0] < b[0] {
        LeadingDigitDecides(a, b);
      } else {
        LeadingDigitDecides(b, a);
      }
    }
  }

  /** Comparing two concatenations whose first parts have the same length. */
  lemma {:induction false} LexAppend(a1: string, a2: string, b1: string, b2: string)
    requires |a1| == |b1|
    ensures LexLess(a1 + a2, b1 + b2) <==> LexLess(a1, b1) || (a1 == b1 && LexLess(a2, b2))
  {
    if a1 == [] {
      assert a1 + a2 == a2 && b1 + b2 == b2;
    } else {
      assert (a1 + a2)[0] == a1[0] && (a1 + a2)[1..] == a1[1..] + a2;
      assert (b1 + b2)[0] == b1[0] && (b1 + b2)[1..] == b1[1..] + b2;
      LexAppend(a1[1..], a2, b1[1..], b2);
      if a1[0] == b1[0] {
        assert a1 == b1 <==> a1[1..] == b1[1..] by {
          if a1[1..] == b1[1..] { assert a1 == [a1[0]] + a1[1..] && b1 == [b1[0]] + b1[1..]; }
        }
      }
    }
  }

  // ---------------------------------------------------------------------
  // The YYYY-MM-DD form
  // ---------------------------------------------------------------------

  predicate IsDateShape(s: string) {
    && |s| == 10
    && s[4] == '-' && s[7] == '-'
    && AllDigits(s[..4]) && AllDigits(s[5..7]) && AllDigits(s[8..])
  }

  function Year(s: string): nat
    requires IsDateShape(s)
  {
    DigitsValue(s[..4])
  }

  function Month(s: string): nat
    requires IsDateShape(s)
  {
    DigitsValue(s[5..7])
  }

  function Day(s: string): nat
    requires IsDateShape(s)
  {
    DigitsValue(s[8..])
  }

  /** Leap years of the proleptic Gregorian calendar, which ECMAScript uses. */
  predicate IsLeapYear(y: int) {
    y % 4 == 0 && (y % 100 != 0 || y % 400 == 0)
  }

  function DaysInMonth(y: int, m: int): int
    requires 1 <= m <= 12
  {
    if m == 2 then (if IsLeapYear(y) then 29 else 28)
    else if m == 4 || m == 6 || m == 9 || m == 11 then 30
    else 31
  }

  /** A string in the form YYYY-MM-DD that names an existing calendar day. */
  predicate WellFormed(s: string) {
    && IsDateShape(s)
    && 1 <= Month(s) <= 12
    && 1 <= Day(s) <= DaysInMonth(Year(s), Month(s))
  }

  // ---------------------------------------------------------------------
  // ECMAScript time values
  // ---------------------------------------------------------------------

  const MsPerDay: int := 86400000

  function DaysInYear(y: int): int {
    if IsLeapYear(y) then 366 else 365
  }

  /** ECMAScript's DayFromYear: days from 1970-01-01 to the first day of year y. */
  function DayFromYear(y: int): int {
    365 * (y - 1970) + (y - 1969) / 4 - (y - 1901) / 100 + (y - 1601) / 400
  }

  /** Days of year y before the first day of month m (1-based). */
  function DaysBeforeMonth(y: int, m: int): int
    requires 1 <= m <= 12
  {
    var common :=
      if m == 1 then 0 else if m == 2 then 31 else if m == 3 then 59
      else if m == 4 then 90 else if m == 5 then 120 else if m == 6 then 151
      else if m == 7 then 181 else if m == 8 then 212 else if m == 9 then 243
      else if m == 10 then 273 else if m == 11 then 304 else 334;
    common + (if m > 2 && IsLeapYear(y) then 1 else 0)
  }

  /** ECMAScript's MakeDay for a day of a month (months counted from 1 here). */
  function MakeDay(y: int, m: int, d: int): int
    requires 1 <= m <= 12
  {
    DayFromYear(y) + DaysBeforeMonth(y, m) + d - 1
  }

  /**
   * `new Date(s).getTime()` for a well-formed date string. For any other
   * string ECMAScript may give NaN; the views in this model require
   * well-formed dates, so the value 0 chosen here never takes part.
   */
  lemma WholeDays(n: int)
    ensures (n * MsPerDay) % MsPerDay == 0
  {
  }

  function TimeValue(s: string): (t: int)
    ensures t % MsPerDay == 0
  {
    if WellFormed(s) then
      var n := MakeDay(Year(s), Month(s), Day(s));
      WholeDays(n);
      n * MsPerDay
    else 0
  }

  lemma FourDigits(s: string)
    requires |s| == 4 && AllDigits(s)
    ensures DigitsValue(s) == 1000 * DigitValue(s[0]) + 100 * DigitValue(s[1]) + 10 * DigitValue(s[2]) + DigitValue(s[3])
  {
    var t := s[1..];
    TwoDigits(t[1..]);
    assert t[1..][0] == s[2] && t[1..][1] == s[3];
    assert Pow10(2) == 100 && Pow10(3) == 1000;
    assert DigitsValue(t) == DigitValue(t[0]) * 100 + DigitsValue(t[1..]);
  }

  lemma TwoDigits(s: string)
    requires |s| == 2 && AllDigits(s)
    ensures DigitsValue(s) == 10 * DigitValue(s[0]) + DigitValue(s[1])
  {
    var t := s[1..];
    assert t[1..] == [];
    assert DigitsValue(t) == DigitValue(t[0]) * Pow10(0) + DigitsValue(t[1..]);
    assert Pow10(1) == 10;
  }

  /** A date's fields, read from its digits. */
  lemma ReadDate(s: string, y: nat, m: nat, d: nat)
    requires IsDateShape(s)
    requires y == 1000 * DigitValue(s[0]) + 100 * DigitValue(s[1]) + 10 * DigitValue(s[2]) + DigitValue(s[3])
    requires m == 10 * DigitValue(s[5]) + DigitValue(s[6])
    requires d == 10 * DigitValue(s[8]) + DigitValue(s[9])
    ensures Year(s) == y && Month(s) == m && Day(s) == d
  {
    FourDigits(s[..4]);
    TwoDigits(s[5..7]);
    TwoDigits(s[8..]);
  }

  /** The epoch is day 0, and a leap year's March 1 comes after its February 29. */
  lemma TimeValueExamples()
    ensures TimeValue("1970-01-01") == 0
    ensures TimeValue("2024-03-01") == 1709251200000
  {
    var epoch, march := "1970-01-01", "2024-03-01";
    assert IsDateShape(epoch) && IsDateShape(march);
    ReadDate(epoch, 1970, 1, 1);
    ReadDate(march, 2024, 3, 1);
    assert DayFromYear(2024) == 19723;
    assert MakeDay(2024, 3, 1) == 19783;
  }

  lemma DivStep4(n: int)
    ensures (n + 1) / 4 == n / 4 + (if (n + 1) % 4 == 0 then 1 else 0)
  {
  }

  lemma DivStep100(n: int)
    ensures (n + 1) / 100 == n / 100 + (if (n + 1) % 100 == 0 then 1 else 0)
  {
  }

  lemma DivStep400(n: int)
    ensures (n + 1) / 400 == n / 400 + (if (n + 1) % 400 == 0 then 1 else 0)
  {
  }

  /** A multiple of m*n is a multiple of n. */
  lemma MultipleOfFactor(y: int, m: int, n: int)
    requires 0 < m && 0 < n && y % (m * n) == 0
    ensures y % n == 0
  {
    var q := y / (m * n);
    assert y == (m * n) * q;
    assert y == n * (m * q);
  }

  lemma LeapCount(y: int)
    ensures DaysInYear(y) == 365 + (if y % 4 == 0 then 1 else 0)
                                 - (if y % 100 == 0 then 1 else 0)
                                 + (if y % 400 == 0 then 1 else 0)
  {
    if y % 400 == 0 {
      MultipleOfFactor(y, 4, 100);
      MultipleOfFactor(y, 100, 4);
    } else if y % 100 == 0 {
      MultipleOfFactor(y, 25, 4);
    }
  }

  lemma ShiftedRemainder4(y: int)
    ensures (y - 1968) % 4 == y % 4
  {
    assert y - 1968 == 4 * (y / 4 - 492) + y % 4;
  }

  lemma ShiftedRemainder100(y: int)
    ensures (y - 1900) % 100 == y % 100
  {
    assert y - 1900 == 100 * (y / 100 - 19) + y % 100;
  }

  lemma ShiftedRemainder400(y: int)
    ensures (y - 1600) % 400 == y % 400
  {
    assert y - 1600 == 400 * (y / 400 - 4) + y % 400;
  }

  /** Consecutive years are DaysInYear apart. */
  lemma DayFromYearStep(y: int)
    ensures DayFromYear(y + 1) == DayFromYear(y) + DaysInYear(y)
  {
    DivStep4(y - 1969);
    DivStep100(y - 1901);
    DivStep400(y - 1601);
    ShiftedRemainder4(y);
    ShiftedRemainder100(y);
    ShiftedRemainder400(y);
    LeapCount(y);
  }

  lemma {:induction false} DayFromYearMonotone(y1: int, y2: int)
    requires y1 < y2
    ensures DayFromYear(y1) + DaysInYear(y1) <= DayFromYear(y2)
    decreases y2 - y1
  {
    DayFromYearStep(y1);
    if y1 + 1 < y2 {
      DayFromYearMonotone(y1 + 1, y2);
    }
  }

  /** A valid day of year y falls inside that year. */
  lemma WithinYear(y: int, m: int, d: int)
    requires 1 <= m <= 12 && 1 <= d <= DaysInMonth(y, m)
    ensures 0 <= DaysBeforeMonth(y, m) + d - 1 < DaysInYear(y)
  {
  }

  lemma MonthsInOrder(y: int, m1: int, d1: int, m2: int, d2: int)
    requires 1 <= m1 < m2 <= 12 && 1 <= d1 <= DaysInMonth(y, m1) && 1 <= d2
    ensures DaysBeforeMonth(y, m1) + d1 < DaysBeforeMonth(y, m2) + d2
  {
  }

  /** (year, month, day) compared lexicographically. */
  predicate TripleLess(y1: int, m1: int, d1: int, y2: int, m2: int, d2: int) {
    y1 < y2 || (y1 == y2 && (m1 < m2 || (m1 == m2 && d1 < d2)))
  }

  lemma MakeDayOrder(y1: int, m1: int, d1: int, y2: int, m2: int, d2: int)
    requires 1 <= m1 <= 12 && 1 <= d1 <= DaysInMonth(y1, m1)
    requires 1 <= m2 <= 12 && 1 <= d2 <= DaysInMonth(y2, m2)
    ensures TripleLess(y1, m1, d1, y2, m2, d2) ==> MakeDay(y1, m1, d1) < MakeDay(y2, m2, d2)
  {
    if y1 < y2 {
      WithinYear(y1, m1, d1);
      WithinYear(y2, m2, d2);
      DayFromYearMonotone(y1, y2);
    } else if y1 == y2 && m1 < m2 {
      MonthsInOrder(y1, m1, d1, m2, d2);
    }
  }

  /** Time values order well-formed dates as their (year, month, day) triples do. */
  lemma TimeValueOrder(a: string, b: string)
    requires WellFormed(a) && WellFormed(b)
    ensures TimeValue(a) < TimeValue(b) <==> TripleLess(Year(a), Month(a), Day(a), Year(b), Month(b), Day(b))
    ensures TimeValue(a) == TimeValue(b) <==> (Year(a), Month(a), Day(a)) == (Year(b), Month(b), Day(b))
  {
    MakeDayOrder(Year(a), Month(a), Day(a), Year(b), Month(b), Day(b));
    MakeDayOrder(Year(b), Month(b), Day(b), Year(a), Month(a), Day(a));
  }

  lemma SplitDate(s: string)
    requires IsDateShape(s)
    ensures s == s[..4] + ([s[4]] + (s[5..7] + ([s[7]] + s[8..])))
  {
  }

  /** Lexicographic order of well-shaped date strings is the order of their triples. */
  lemma LexOrderIsTripleOrder(a: string, b: string)
    requires IsDateShape(a) && IsDateShape(b)
    ensures LexLess(a, b) <==> TripleLess(Year(a), Month(a), Day(a), Year(b), Month(b), Day(b))
    ensures a == b <==> (Year(a), Month(a), Day(a)) == (Year(b), Month(b), Day(b))
  {
    SplitDate(a);
    SplitDate(b);
    var ra := [a[4]] + (a[5..7] + ([a[7]] + a[8..]));
    var rb := [b[4]] + (b[5..7] + ([b[7]] + b[8..]));
    var ma := [a[7]] + a[8..];
    var mb := [b[7]] + b[8..];
    DigitsLex(a[..4], b[..4]);
    DigitsLex(a[5..7], b[5..7]);
    DigitsLex(a[8..], b[8..]);
    LexAppend(a[..4], ra, b[..4], rb);
    LexAppend([a[4]], a[5..7] + ma, [b[4]], b[5..7] + mb);
    LexAppend(a[5..7], ma, b[5..7], mb);
    LexAppend([a[7]], a[8..], [b[7]], b[8..]);
    assert !LexLess([a[4]], [b[4]]) && [a[4]] == [b[4]];
    assert !LexLess([a[7]], [b[7]]) && [a[7]] == [b[7]];
  }

  /**
   * For well-formed dates, comparing `new Date(s).getTime()` values is the
   * same as comparing the strings themselves.
   */
  lemma TimeOrderIsLexOrder(a: string, b: string)
    requires WellFormed(a) && WellFormed(b)
    ensures TimeValue(a) < TimeValue(b) <==> LexLess(a, b)
    ensures TimeValue(a) == TimeValue(b) <==> a == b
  {
    TimeValueOrder(a, b);
    LexOrderIsTripleOrder(a, b);
  }
}
