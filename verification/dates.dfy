/**
  Calendar dates as Go's `time` package handles the layout "2006-01-02":
  proleptic Gregorian calendar, four-digit year, two-digit month and day.
 */
module Dates {
  import opened Wrappers
  import opened Decimal

  datatype Date = Date(year: int, month: int, day: int)

  /** The zero `time.Time`: 1 January of year 1, which `time.Parse` returns on failure. */
  const ZeroTime := Date(1, 1, 1)

  predicate IsLeap(y: int) {
    y % 4 == 0 && (y % 100 != 0 || y % 400 == 0)
  }

  function DaysInYear(y: int): nat {
    if IsLeap(y) then 366 else 365
  }

  function DaysIn(y: int, m: int): (n: nat)
    requires 1 <= m <= 12
    ensures 28 <= n <= 31
  {
    if m == 2 then (if IsLeap(y) then 29 else 28)
    else if m == 4 || m == 6 || m == 9 || m == 11 then 30
    else 31
  }

  /** A day of the proleptic Gregorian calendar, from year 0 on. */
  predicate IsCalendarDate(d: Date) {
    0 <= d.year && 1 <= d.month <= 12 && 1 <= d.day <= DaysIn(d.year, d.month)
  }

  /** A calendar date whose year fits the four digits of the layout. */
  predicate Representable(d: Date) {
    IsCalendarDate(d) && d.year <= 9999
  }

  /** Days in the years 0 .. y-1. */
  function DaysBeforeYear(y: nat): nat {
    365 * y + (y + 3) / 4 - (y + 99) / 100 + (y + 399) / 400
  }

  /** Days in the months 1 .. m-1 of year y. */
  function DaysBeforeMonth(y: int, m: int): nat
    requires 1 <= m <= 12
  {
    if m == 1 then 0 else DaysBeforeMonth(y, m - 1) + DaysIn(y, m - 1)
  }

  /** Days elapsed since 0000-01-01; every day of a year lies between that year's first and the next year's. */
  function DayNumber(d: Date): (n: nat)
    requires IsCalendarDate(d)
    ensures DaysBeforeYear(d.year) <= n < DaysBeforeYear(d.year + 1)
  {
    DaysBeforeMonthBound(d.year, d.month);
    DaysBeforeYearStep(d.year);
    DaysBeforeYear(d.year) + DaysBeforeMonth(d.year, d.month) + d.day - 1
  }

  /** A month ends within its year. */
  lemma {:induction false} DaysBeforeMonthBound(y: int, m: int)
    requires 1 <= m <= 12
    ensures DaysBeforeMonth(y, m) + DaysIn(y, m) <= DaysInYear(y)
    decreases 12 - m
  {
    if m == 12 {
      DaysBeforeDecember(y);
    } else {
      DaysBeforeMonthBound(y, m + 1);
    }
  }

  /** The following calendar day: the independent reference for `DayNumber`. */
  function NextDay(d: Date): (e: Date)
    requires IsCalendarDate(d)
    ensures IsCalendarDate(e)
  {
    if d.day < DaysIn(d.year, d.month) then Date(d.year, d.month, d.day + 1)
    else if d.month < 12 then Date(d.year, d.month + 1, 1)
    else Date(d.year + 1, 1, 1)
  }

  lemma DaysBeforeYearStep(y: nat)
    ensures DaysBeforeYear(y + 1) == DaysBeforeYear(y) + DaysInYear(y)
  {
    MultipleStep4(y);
    MultipleStep100(y);
    MultipleStep400(y);
    LeapByMultiples(y);
  }

  /** The leap rule as a sum of the three multiple-of tests. */
  lemma LeapByMultiples(y: nat)
    ensures DaysInYear(y) == 365 + (if y % 4 == 0 then 1 else 0)
      - (if y % 100 == 0 then 1 else 0) + (if y % 400 == 0 then 1 else 0)
  {
    if y % 400 == 0 {
      Divides400Divides100(y);
      Divides100Divides4(y);
    } else if y % 100 == 0 {
      Divides100Divides4(y);
    }
  }

  lemma Divides400Divides100(y: nat)
    requires y % 400 == 0
    ensures y % 100 == 0
  {
    var q := 4 * (y / 400);
    assert y == 100 * q;
    MultipleOf100(q);
  }

  lemma Divides100Divides4(y: nat)
    requires y % 100 == 0
    ensures y % 4 == 0
  {
    var q := 25 * (y / 100);
    assert y == 4 * q;
    MultipleOf4(q);
  }

  lemma MultipleOf4(q: int)
    ensures (4 * q) % 4 == 0
  {
  }

  lemma MultipleOf100(q: int)
    ensures (100 * q) % 100 == 0
  {
  }

  /** The count of multiples of 4 below y grows by one exactly past a multiple. */
  lemma MultipleStep4(y: nat)
    ensures (y + 4) / 4 - (y + 3) / 4 == (if y % 4 == 0 then 1 else 0)
  {
  }

  lemma MultipleStep100(y: nat)
    ensures (y + 100) / 100 - (y + 99) / 100 == (if y % 100 == 0 then 1 else 0)
  {
  }

  lemma MultipleStep400(y: nat)
    ensures (y + 400) / 400 - (y + 399) / 400 == (if y % 400 == 0 then 1 else 0)
  {
  }

  lemma DaysBeforeDecember(y: int)
    ensures DaysBeforeMonth(y, 12) + 31 == DaysInYear(y)
  {
    assert DaysBeforeMonth(y, 2) == 31;
    assert DaysBeforeMonth(y, 3) == 31 + DaysIn(y, 2);
    assert DaysBeforeMonth(y, 4) == DaysBeforeMonth(y, 3) + 31;
    assert DaysBeforeMonth(y, 5) == DaysBeforeMonth(y, 4) + 30;
    assert DaysBeforeMonth(y, 6) == DaysBeforeMonth(y, 5) + 31;
    assert DaysBeforeMonth(y, 7) == DaysBeforeMonth(y, 6) + 30;
    assert DaysBeforeMonth(y, 8) == DaysBeforeMonth(y, 7) + 31;
    assert DaysBeforeMonth(y, 9) == DaysBeforeMonth(y, 8) + 31;
    assert DaysBeforeMonth(y, 10) == DaysBeforeMonth(y, 9) + 30;
    assert DaysBeforeMonth(y, 11) == DaysBeforeMonth(y, 10) + 31;
    assert DaysBeforeMonth(y, 12) == DaysBeforeMonth(y, 11) + 30;
  }

  /** Day numbers count calendar days one by one. */
  lemma NextDayNumber(d: Date)
    requires IsCalendarDate(d)
    ensures DayNumber(NextDay(d)) == DayNumber(d) + 1
  {
    if d.day == DaysIn(d.year, d.month) && d.month == 12 {
      DaysBeforeYearStep(d.year);
      DaysBeforeDecember(d.year);
    }
  }

  // ---- The layout "2006-01-02" -------------------------------------------

  function Pad2(n: nat): (s: string)
    requires n < 100
    ensures |s| == 2 && AllDigits(s)
  {
    [DigitChar(n / 10), DigitChar(n % 10)]
  }

  function Pad4(n: nat): (s: string)
    requires n < 10000
    ensures |s| == 4 && AllDigits(s)
  {
    [DigitChar(n / 1000), DigitChar(n / 100 % 10), DigitChar(n / 10 % 10), DigitChar(n % 10)]
  }

  /** `t.Format("2006-01-02")`. */
  function Format(d: Date): (s: string)
    requires Representable(d)
    ensures HasLayout(s)
    ensures DigitsValue(s[0..4]) == d.year && DigitsValue(s[5..7]) == d.month && DigitsValue(s[8..10]) == d.day
  {
    var s := Pad4(d.year) + "-" + Pad2(d.month) + "-" + Pad2(d.day);
    assert s[0..4] == Pad4(d.year) && s[5..7] == Pad2(d.month) && s[8..10] == Pad2(d.day);
    Pad4Value(d.year);
    Pad2Value(d.month);
    Pad2Value(d.day);
    s
  }

  /** The shape of the layout: four digits, '-', two digits, '-', two digits. */
  predicate HasLayout(s: string) {
    && |s| == 10 && s[4] == '-' && s[7] == '-'
    && AllDigits(s[0..4]) && AllDigits(s[5..7]) && AllDigits(s[8..10])
  }

  /**
    `time.Parse("2006-01-02", s)`: the exact layout, a month in 1..12 and a
    day that exists in that month of that year; anything else fails.
   */
  function Parse(s: string): (r: Option<Date>)
    ensures r.Some? ==> Representable(r.value)
  {
    if !HasLayout(s) then None
    else
      var d := Date(DigitsValue(s[0..4]), DigitsValue(s[5..7]), DigitsValue(s[8..10]));
      if Representable(d) then Some(d) else None
  }

  /** The date the source works with after ignoring the parse error. */
  function ParseOrZero(s: string): (d: Date)
    ensures Representable(d)
    ensures Parse(s).Some? ==> Format(d) == s
    ensures Parse(s).None? ==> d == ZeroTime
  {
    FormatParse(s);
    Parse(s).GetOr(ZeroTime)
  }

  lemma Pad2Value(n: nat)
    requires n < 100
    ensures DigitsValue(Pad2(n)) == n
  {
    var s := Pad2(n);
    assert s[..1][..0] == [];
    assert s[..1] == [DigitChar(n / 10)];
    assert DigitsValue(s[..1]) == n / 10;
    assert DigitsValue(s) == DigitsValue(s[..1]) * 10 + DigitValue(s[1]);
  }

  lemma Pad4Value(n: nat)
    requires n < 10000
    ensures DigitsValue(Pad4(n)) == n
  {
    var s := Pad4(n);
    assert s[..3] == s[..4][..3];
    assert s[..2] == s[..3][..2];
    assert s[..1] == s[..2][..1];
    assert s[..1][..0] == [];
    FourDigits(n);
    assert DigitsValue(s[..1]) == n / 1000;
    assert DigitsValue(s[..2]) == n / 100;
    assert DigitsValue(s[..3]) == n / 10;
  }

  /** The four decimal digits of a number below 10000, most significant first. */
  lemma FourDigits(n: nat)
    requires n < 10000
    ensures n / 1000 < 10
    ensures n / 100 == 10 * (n / 1000) + n / 100 % 10
    ensures n / 10 == 10 * (n / 100) + n / 10 % 10
    ensures n == 10 * (n / 10) + n % 10
  {
    assert n / 10 / 10 == n / 100;
    assert n / 100 / 10 == n / 1000;
  }

  /** Parsing the text `Format` writes recovers the date. */
  lemma ParseFormat(d: Date)
    requires Representable(d)
    ensures Parse(Format(d)) == Some(d)
  {
  }

  lemma DigitsPad2(s: string)
    requires |s| == 2 && AllDigits(s)
    ensures DigitsValue(s) < 100 && Pad2(DigitsValue(s)) == s
  {
    assert s[..1][..0] == [];
    assert DigitsValue(s[..1]) == DigitValue(s[0]);
  }

  lemma FourDigitArithmetic(a: nat, b: nat, c: nat, e: nat)
    requires a < 10 && b < 10 && c < 10 && e < 10
    ensures var v := 1000 * a + 100 * b + 10 * c + e;
      v < 10000 && v / 1000 == a && v / 100 % 10 == b && v / 10 % 10 == c && v % 10 == e
  {
    var v := 1000 * a + 100 * b + 10 * c + e;
    assert v / 10 == 100 * a + 10 * b + c;
    assert v / 100 == 10 * a + b;
  }

  lemma DigitsPad4(s: string)
    requires |s| == 4 && AllDigits(s)
    ensures DigitsValue(s) < 10000 && Pad4(DigitsValue(s)) == s
  {
    assert s[..3] == s[..4][..3];
    assert s[..2] == s[..3][..2];
    assert s[..1] == s[..2][..1];
    assert s[..1][..0] == [];
    var a, b, c, e := DigitValue(s[0]), DigitValue(s[1]), DigitValue(s[2]), DigitValue(s[3]);
    assert DigitsValue(s[..1]) == a;
    assert DigitsValue(s[..2]) == a * 10 + b;
    assert DigitsValue(s[..3]) == (a * 10 + b) * 10 + c;
    assert DigitsValue(s) == 1000 * a + 100 * b + 10 * c + e;
    FourDigitArithmetic(a, b, c, e);
  }

  /** Every text `Parse` accepts is exactly the text `Format` writes for its date. */
  lemma FormatParse(s: string)
    ensures Parse(s).Some? ==> Format(Parse(s).value) == s
  {
    if Parse(s).None? {
      return;
    }
    var d := Parse(s).value;
    DigitsPad4(s[0..4]);
    DigitsPad2(s[5..7]);
    DigitsPad2(s[8..10]);
    assert Format(d) == s[0..4] + "-" + s[5..7] + "-" + s[8..10];
  }
}
