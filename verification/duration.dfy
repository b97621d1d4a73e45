/**
  The duration label shown for a project (`calculateDuration`): the span
  between two "2006-01-02" dates in whole hours, reduced by a chain of
  truncating divisions to days, weeks (7 days), months (4 weeks) and years
  (12 months), then written with the most significant non-zero unit.
 */
module Duration {
  import opened Wrappers
  import opened Decimal
  import opened Dates

  const NanosPerHour: int := 3_600_000_000_000
  const NanosPerDay: int := 86_400_000_000_000
  /** The range of Go's `time.Duration`, an int64 count of nanoseconds. */
  const MaxDuration: int := 0x7fff_ffff_ffff_ffff
  const MinDuration: int := -0x8000_0000_0000_0000
  /** The longest span, in days, whose nanoseconds fit a `time.Duration`. */
  const MaxDaySpan: int := 106751
  /** The hour counts `WholeHours` can produce from a `time.Duration`. */
  const MaxHours: int := 2562047
  const MinHours: int := -2562047

  /** Go's integer `/` on int: the quotient truncated toward zero. */
  function TruncDiv(a: int, b: int): (q: int)
    requires 0 < b
    ensures 0 <= a ==> 0 <= q && q * b <= a < q * b + b
    ensures a <= 0 ==> q <= 0 && q * b - b < a <= q * b
  {
    if 0 <= a then a / b else -((-a) / b)
  }

  /**
    `t.Sub(u)` for two midnights: the nanoseconds between them, clamped to
    the `time.Duration` range when the true difference does not fit.
   */
  function Sub(t: Date, u: Date): (ns: int)
    requires IsCalendarDate(t) && IsCalendarDate(u)
    ensures MinDuration <= ns <= MaxDuration
    ensures var span := DayNumber(t) - DayNumber(u);
      && (-MaxDaySpan <= span <= MaxDaySpan ==> ns == span * NanosPerDay)
      && (MaxDaySpan < span ==> ns == MaxDuration)
      && (span < -MaxDaySpan ==> ns == MinDuration)
  {
    var exact := (DayNumber(t) - DayNumber(u)) * NanosPerDay;
    if MaxDuration < exact then MaxDuration
    else if exact < MinDuration then MinDuration
    else exact
  }

  /**
    `int(d.Hours())`: `Hours` adds the whole hours and the fraction of the
    remainder, which has the sign of `d` and magnitude below one, so the
    conversion back to int yields the truncated quotient.
   */
  function WholeHours(ns: int): (h: int)
    ensures MinDuration <= ns <= MaxDuration ==> MinHours <= h <= MaxHours
    ensures ns % NanosPerHour == 0 ==> h * NanosPerHour == ns
  {
    TruncDiv(ns, NanosPerHour)
  }

  datatype Counts = Counts(days: int, weeks: int, months: int, years: int)

  /**
    The chain of divisions the source performs, each on the previous result.
    Each count equals one direct division of the hours.
   */
  function CountsOf(hours: int): (c: Counts)
    ensures c.days == TruncDiv(hours, 24)
    ensures c.weeks == TruncDiv(hours, 168)
    ensures c.months == TruncDiv(hours, 672)
    ensures c.years == TruncDiv(hours, 8064)
  {
    ChainedCounts(hours);
    var days := TruncDiv(hours, 24);
    var weeks := TruncDiv(days, 7);
    var months := TruncDiv(weeks, 4);
    Counts(days, weeks, months, TruncDiv(months, 12))
  }

  datatype Unit = Year | Month | Week | Day

  /** A count and its unit; rendered as "<count> <word>". */
  datatype Label = Label(count: int, unit: Unit)

  /** Only the day unit is ever shown with a count below one. */
  predicate WellFormed(l: Label) {
    l.unit == Day || 0 < l.count
  }

  function Word(u: Unit, plural: bool): string {
    match u
    case Year => if plural then "years" else "year"
    case Month => if plural then "months" else "month"
    case Week => if plural then "weeks" else "week"
    case Day => if plural then "days" else "day"
  }

  /**
    The unit selection: the most significant unit whose count is positive,
    falling back to days. The contract states it against direct divisions of
    the hour count (8064 hours to a year, 672 to a month, 168 to a week).
   */
  function Select(hours: int): (l: Label)
    ensures WellFormed(l)
    ensures 0 < TruncDiv(hours, 8064) ==> l == Label(TruncDiv(hours, 8064), Year)
    ensures TruncDiv(hours, 8064) <= 0 < TruncDiv(hours, 672) ==> l == Label(TruncDiv(hours, 672), Month)
    ensures TruncDiv(hours, 672) <= 0 < TruncDiv(hours, 168) ==> l == Label(TruncDiv(hours, 168), Week)
    ensures TruncDiv(hours, 168) <= 0 ==> l == Label(TruncDiv(hours, 24), Day)
  {
    var c := CountsOf(hours);
    // Each unit's two branches mirror the source's `> 1` and `> 0` tests; the plural is chosen by `Render`.
    if c.years > 1 then Label(c.years, Year)
    else if c.years > 0 then Label(c.years, Year)
    else if c.months > 1 then Label(c.months, Month)
    else if c.months > 0 then Label(c.months, Month)
    else if c.weeks > 1 then Label(c.weeks, Week)
    else if c.weeks > 0 then Label(c.weeks, Week)
    else if c.days > 1 then Label(c.days, Day)
    else Label(c.days, Day)
  }

  /** Chained truncating divisions equal one division by the product. */
  lemma ChainedCounts(hours: int)
    ensures TruncDiv(TruncDiv(hours, 24), 7) == TruncDiv(hours, 168)
    ensures TruncDiv(TruncDiv(hours, 168), 4) == TruncDiv(hours, 672)
    ensures TruncDiv(TruncDiv(hours, 672), 12) == TruncDiv(hours, 8064)
  {
    var a := if 0 <= hours then hours else -hours;
    assert (a / 24) / 7 == a / 168;
    assert (a / 168) / 4 == a / 672;
    assert (a / 672) / 12 == a / 8064;
  }

  /** `strconv.Itoa(count) + " " + word`, plural exactly when the count exceeds one. */
  function Render(l: Label): (r: string)
    ensures 0 < |r| && (r[|r| - 1] == 's' <==> 1 < l.count)
    ensures WellFormed(l) ==> ParseLabel(r) == Some(l)
  {
    var r := Itoa(l.count) + " " + Word(l.unit, 1 < l.count);
    ParseRender(l, r);
    r
  }

  /** The position of the first space, or the length when there is none. */
  function SpaceIndex(s: string): (i: nat)
    ensures i <= |s|
    ensures i < |s| ==> s[i] == ' '
    ensures ' ' !in s[..i]
  {
    if |s| == 0 || s[0] == ' ' then 0
    else
      var i := 1 + SpaceIndex(s[1..]);
      assert s[..i] == [s[0]] + s[1..][..i - 1];
      i
  }

  /** The unit and plurality a word names. */
  function UnitOfWord(w: string): Option<(Unit, bool)> {
    if w == "years" then Some((Year, true))
    else if w == "year" then Some((Year, false))
    else if w == "months" then Some((Month, true))
    else if w == "month" then Some((Month, false))
    else if w == "weeks" then Some((Week, true))
    else if w == "week" then Some((Week, false))
    else if w == "days" then Some((Day, true))
    else if w == "day" then Some((Day, false))
    else None
  }

  /**
    Inverse of `Render`: the label a duration text stands for, if any. The
    count must agree with the word: plural exactly when it exceeds one, and
    below one only for days.
   */
  function ParseLabel(s: string): Option<Label> {
    var i := SpaceIndex(s);
    if i == |s| then None
    else
      match (ParseInt(s[..i]), UnitOfWord(s[i + 1..]))
      case (Some(n), Some((u, plural))) =>
        if (1 < n) == plural && WellFormed(Label(n, u)) then Some(Label(n, u)) else None
      case _ => None
  }

  lemma ParseRender(l: Label, r: string)
    requires r == Itoa(l.count) + " " + Word(l.unit, 1 < l.count)
    ensures WellFormed(l) ==> ParseLabel(r) == Some(l)
  {
    var n := Itoa(l.count);
    var i := SpaceIndex(r);
    assert forall k :: 0 <= k < |n| ==> r[k] == n[k];
    assert r[|n|] == ' ';
    assert i <= |n| by {
      assert i < |r| ==> r[..i + 1][..i] == r[..i];
    }
    assert i == |n|;
    assert r[..i] == n;
    assert r[i + 1..] == Word(l.unit, 1 < l.count);
    ItoaRoundTrip(l.count);
  }
  /** Every text `ParseLabel` accepts is exactly the text `Render` writes for its label. */
  lemma RenderParse(r: string)
    ensures ParseLabel(r).Some? ==> Render(ParseLabel(r).value) == r
  {
    var i := SpaceIndex(r);
    if ParseLabel(r).Some? {
      var head, word := r[..i], r[i + 1..];
      var n := ParseInt(head).value;
      var u := UnitOfWord(word).value;
      assert ParseLabel(r).value == Label(n, u.0) && u.1 == (1 < n);
      ParseIntItoa(head);
      WordOfUnit(word);
      assert r == head + " " + word;
    }
  }

  /** `UnitOfWord` inverts `Word`. */
  lemma WordOfUnit(w: string)
    ensures UnitOfWord(w).Some? ==> Word(UnitOfWord(w).value.0, UnitOfWord(w).value.1) == w
  {
  }

  // ---- calculateDuration ------------------------------------------------

  /**
    `calculateDuration(startDate, endDate)`. A text that does not parse
    stands for the zero time, as the source ignores the parse error. The
    result is always a well-formed label whose count lies in the range its
    unit allows: the cascade only moves to a smaller unit when the larger
    count is not positive.
   */
  function CalculateDuration(startDate: string, endDate: string): (r: string)
    ensures ParseLabel(r).Some?
    ensures var l := ParseLabel(r).value;
      && (l.unit == Year ==> 1 <= l.count <= 317)
      && (l.unit == Month ==> 1 <= l.count <= 11)
      && (l.unit == Week ==> 1 <= l.count <= 3)
      && (l.unit == Day ==> -MaxDaySpan <= l.count <= 6)
  {
    var hours := WholeHours(Sub(ParseOrZero(endDate), ParseOrZero(startDate)));
    SelectRange(hours);
    Render(Select(hours))
  }

  lemma SelectRange(hours: int)
    requires MinHours <= hours <= MaxHours
    ensures var l := Select(hours);
      && (l.unit == Year ==> 1 <= l.count <= 317)
      && (l.unit == Month ==> 1 <= l.count <= 11)
      && (l.unit == Week ==> 1 <= l.count <= 3)
      && (l.unit == Day ==> -MaxDaySpan <= l.count <= 6)
  {
  }

  /** Same-text arguments give a zero span, whatever the text is. */
  lemma SameDateIsZeroDay(s: string)
    ensures CalculateDuration(s, s) == "0 day"
  {
    assert Select(0) == Label(0, Day);
    assert Itoa(0) == "0";
  }

  /**
    For two dates written by `Format`, within the range of `time.Duration`,
    the hour count is exactly 24 per calendar day between them, so the label
    is the one `Select` picks for that many hours.
   */
  lemma DurationOfDates(a: Date, b: Date)
    requires Representable(a) && Representable(b)
    requires -MaxDaySpan <= DayNumber(b) - DayNumber(a) <= MaxDaySpan
    ensures CalculateDuration(Format(a), Format(b)) == Render(Select(24 * (DayNumber(b) - DayNumber(a))))
  {
    FormattedDatesParse(a, b);
    HoursOfSpan(a, b);
  }

  /** Formatted dates are read back as themselves, so only their difference matters. */
  lemma FormattedDatesParse(a: Date, b: Date)
    requires Representable(a) && Representable(b)
    ensures CalculateDuration(Format(a), Format(b)) == Render(Select(WholeHours(Sub(b, a))))
  {
    ParseFormat(a);
    ParseFormat(b);
    assert ParseOrZero(Format(a)) == a && ParseOrZero(Format(b)) == b;
  }

  /** Within the `time.Duration` range a span of whole days is exactly 24 hours per day. */
  lemma HoursOfSpan(a: Date, b: Date)
    requires IsCalendarDate(a) && IsCalendarDate(b)
    requires -MaxDaySpan <= DayNumber(b) - DayNumber(a) <= MaxDaySpan
    ensures WholeHours(Sub(b, a)) == 24 * (DayNumber(b) - DayNumber(a))
  {
    var span := DayNumber(b) - DayNumber(a);
    assert Sub(b, a) == (24 * span) * NanosPerHour;
  }

  /** An end date before the start gives a negative count of days, always singular. */
  lemma EndBeforeStart(a: Date, b: Date)
    requires Representable(a) && Representable(b)
    requires -MaxDaySpan <= DayNumber(b) - DayNumber(a) < 0
    ensures CalculateDuration(Format(a), Format(b)) == Itoa(DayNumber(b) - DayNumber(a)) + " day"
  {
    var span := DayNumber(b) - DayNumber(a);
    calc {
      CalculateDuration(Format(a), Format(b));
      { DurationOfDates(a, b); }
      Render(Select(24 * span));
      { NegativeHoursSelectDays(span); }
      Render(Label(span, Day));
      { RenderSingular(Label(span, Day)); }
      Itoa(span) + " day";
    }
  }

  lemma RenderSingular(l: Label)
    requires l.count <= 1
    ensures Render(l) == Itoa(l.count) + " " + Word(l.unit, false)
  {
  }

  lemma NegativeHoursSelectDays(span: int)
    requires span < 0
    ensures Select(24 * span) == Label(span, Day)
  {
    assert TruncDiv(24 * span, 24) == span;
  }

  /** Spans too long for a `time.Duration` saturate and read "317 years". */
  lemma LongSpanSaturates(a: Date, b: Date)
    requires Representable(a) && Representable(b)
    requires MaxDaySpan < DayNumber(b) - DayNumber(a)
    ensures CalculateDuration(Format(a), Format(b)) == "317 years"
  {
    ParseFormat(a);
    ParseFormat(b);
    assert WholeHours(Sub(b, a)) == MaxHours;
    assert Select(MaxHours) == Label(317, Year);
    assert Itoa(317) == "317";
  }

  /** Negative spans too long for a `time.Duration` saturate and read "-106751 day". */
  lemma LongNegativeSpanSaturates(a: Date, b: Date)
    requires Representable(a) && Representable(b)
    requires DayNumber(b) - DayNumber(a) < -MaxDaySpan
    ensures CalculateDuration(Format(a), Format(b)) == "-106751 day"
  {
    ParseFormat(a);
    ParseFormat(b);
    assert WholeHours(Sub(b, a)) == MinHours;
    assert Select(MinHours) == Label(-106751, Day);
    assert Itoa(-106751) == "-106751";
  }

  /** A text that does not parse stands for 0001-01-01, on either side. */
  lemma UnparseableIsZeroTime(s: string, e: string)
    ensures Parse(e).None? ==> CalculateDuration(s, e) == CalculateDuration(s, Format(ZeroTime))
    ensures Parse(s).None? ==> CalculateDuration(s, e) == CalculateDuration(Format(ZeroTime), e)
  {
    ParseFormat(ZeroTime);
  }

  /**
    An end date that does not parse is 0001-01-01, so after a start more than
    106751 days later the span is clamped to the most negative duration.
   */
  lemma UnparseableEndSaturates(a: Date, e: string)
    requires Representable(a) && Parse(e).None?
    requires MaxDaySpan < DayNumber(a) - DayNumber(ZeroTime)
    ensures CalculateDuration(Format(a), e) == "-106751 day"
  {
    UnparseableIsZeroTime(Format(a), e);
    LongNegativeSpanSaturates(a, ZeroTime);
  }

  /** Symmetrically, a start date that does not parse before a late end date reads "317 years". */
  lemma UnparseableStartSaturates(s: string, b: Date)
    requires Representable(b) && Parse(s).None?
    requires MaxDaySpan < DayNumber(b) - DayNumber(ZeroTime)
    ensures CalculateDuration(s, Format(b)) == "317 years"
  {
    UnparseableIsZeroTime(s, Format(b));
    LongSpanSaturates(ZeroTime, b);
  }

  /** Two texts that do not parse are the same zero time, so the label is "0 day". */
  lemma UnparseableTextsZeroDay(s: string, e: string)
    requires Parse(s).None? && Parse(e).None?
    ensures CalculateDuration(s, e) == "0 day"
  {
    assert ParseOrZero(s) == ParseOrZero(e);
    SameDateIsZeroDay(e);
  }

  /** A label computed from dates, carried over to their formatted texts. */
  lemma LabelOfTexts(a: Date, b: Date, startText: string, endText: string, text: string)
    requires Representable(a) && Representable(b)
    requires Format(a) == startText && Format(b) == endText
    requires -MaxDaySpan <= DayNumber(b) - DayNumber(a) <= MaxDaySpan
    requires Render(Select(24 * (DayNumber(b) - DayNumber(a)))) == text
    ensures CalculateDuration(startText, endText) == text
  {
    DurationOfDates(a, b);
  }

  /** 2020-01-01 to 2022-06-01: 882 days, 126 weeks, 31 months, 2 years. */
  lemma ExampleTwoYears()
    ensures CalculateDuration("2020-01-01", "2022-06-01") == "2 years"
  {
    var a, b := Date(2020, 1, 1), Date(2022, 6, 1);
    TwoYearsFormats();
    TwoYearsSpan();
    assert CountsOf(24 * 882) == Counts(882, 126, 31, 2);
    assert Render(Label(2, Year)) == "2 years" by { assert Itoa(2) == "2"; }
    LabelOfTexts(a, b, "2020-01-01", "2022-06-01", "2 years");
  }

  lemma TwoYearsFormats()
    ensures Format(Date(2020, 1, 1)) == "2020-01-01" && Format(Date(2022, 6, 1)) == "2022-06-01"
  {
    assert Pad4(2020) == "2020" && Pad2(1) == "01";
    assert Pad4(2022) == "2022" && Pad2(6) == "06";
  }

  lemma TwoYearsSpan()
    ensures DayNumber(Date(2022, 6, 1)) - DayNumber(Date(2020, 1, 1)) == 882
  {
  }

  /** 2024-01-01 to 2024-02-15: 45 days, 6 weeks, 1 month. */
  lemma ExampleOneMonth()
    ensures CalculateDuration("2024-01-01", "2024-02-15") == "1 month"
  {
    var a, b := Date(2024, 1, 1), Date(2024, 2, 15);
    OneMonthFormats();
    OneMonthSpan();
    assert CountsOf(24 * 45) == Counts(45, 6, 1, 0);
    assert Render(Label(1, Month)) == "1 month" by { assert Itoa(1) == "1"; }
    LabelOfTexts(a, b, "2024-01-01", "2024-02-15", "1 month");
  }

  lemma OneMonthFormats()
    ensures Format(Date(2024, 1, 1)) == "2024-01-01" && Format(Date(2024, 2, 15)) == "2024-02-15"
  {
    assert Pad4(2024) == "2024" && Pad2(1) == "01";
    assert Pad2(2) == "02" && Pad2(15) == "15";
  }

  lemma OneMonthSpan()
    ensures DayNumber(Date(2024, 2, 15)) - DayNumber(Date(2024, 1, 1)) == 45
  {
  }

  /** 2024-01-01 to 2024-01-02: one day, singular. */
  lemma ExampleOneDay()
    ensures CalculateDuration("2024-01-01", "2024-01-02") == "1 day"
  {
    var a, b := Date(2024, 1, 1), Date(2024, 1, 2);
    OneDayFormats();
    assert DayNumber(b) - DayNumber(a) == 1;
    assert CountsOf(24) == Counts(1, 0, 0, 0);
    assert Render(Label(1, Day)) == "1 day" by { assert Itoa(1) == "1"; }
    LabelOfTexts(a, b, "2024-01-01", "2024-01-02", "1 day");
  }

  lemma OneDayFormats()
    ensures Format(Date(2024, 1, 1)) == "2024-01-01" && Format(Date(2024, 1, 2)) == "2024-01-02"
  {
    assert Pad4(2024) == "2024" && Pad2(1) == "01" && Pad2(2) == "02";
  }
}
