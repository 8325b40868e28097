/**
 * The part of Go's `time` package main.go relies on: time.Parse with the
 * three fixed layouts, time.Format of the "2006" and "01" fields and of the
 * "20060102150405" stamp, and the conversion of a Unix second count to a
 * local calendar date (time.Unix). The local zone is a fixed offset from
 * UTC; dates are in the proleptic Gregorian calendar, as in Go.
 */
module Calendar {
  import opened Wrappers
  import opened Text
  import opened Shapes

  datatype DateTime = DateTime(year: int, month: int, day: int, hour: int, minute: int, second: int)

  /** time.Time{}: what `tm, _ := time.Parse(...)` holds when parsing fails. */
  const ZeroTime: DateTime := DateTime(1, 1, 1, 0, 0, 0)

  predicate IsLeap(y: int) { y % 4 == 0 && (y % 100 != 0 || y % 400 == 0) }

  function DaysInYear(y: int): (n: nat) { if IsLeap(y) then 366 else 365 }

  /** Days in month m (1-12) of year y. */
  function DaysIn(m: int, y: int): (n: nat)
    requires 1 <= m <= 12
    ensures 28 <= n <= 31
    ensures m == 2 ==> (n == 29 <==> IsLeap(y))
  {
    if m == 2 then (if IsLeap(y) then 29 else 28)
    else if m == 4 || m == 6 || m == 9 || m == 11 then 30
    else 31
  }

  /** Days of year y before the first of month m (m = 13 gives the whole year). */
  function DaysBeforeMonth(m: int, y: int): (n: nat)
    requires 1 <= m <= 13
  {
    [0, 31, 59, 90, 120, 151, 181, 212, 243, 273, 304, 334, 365][m - 1]
      + (if m > 2 && IsLeap(y) then 1 else 0)
  }

  lemma DaysBeforeMonthStep(m: int, y: int)
    requires 1 <= m <= 12
    ensures DaysBeforeMonth(m + 1, y) == DaysBeforeMonth(m, y) + DaysIn(m, y)
    ensures DaysBeforeMonth(13, y) == DaysInYear(y)
  {
  }

  predicate ValidDateTime(t: DateTime)
  {
    && 1 <= t.month <= 12
    && 1 <= t.day <= DaysIn(t.month, t.year)
    && 0 <= t.hour < 24 && 0 <= t.minute < 60 && 0 <= t.second < 60
  }

  // ---------------------------------------------------------------------
  // Layouts and time.Parse

  /**
   * A Go layout with every field fixed-width: the shape of the text it
   * accepts and the offset of each field (the year has 4 digits, the
   * others 2).
   */
  datatype Layout = Layout(shape: Shape, year: nat, month: nat, day: nat, hour: nat, minute: nat, second: nat)

  predicate DigitField(sh: Shape, pos: nat, width: nat)
  {
    pos + width <= |sh| && forall j :: pos <= j < pos + width ==> sh[j] == AnyDigit
  }

  predicate WellFormed(l: Layout)
  {
    && DigitField(l.shape, l.year, 4)
    && DigitField(l.shape, l.month, 2) && DigitField(l.shape, l.day, 2)
    && DigitField(l.shape, l.hour, 2) && DigitField(l.shape, l.minute, 2) && DigitField(l.shape, l.second, 2)
  }

  /** "2006:01:02 15:04:05", the EXIF DateTimeOriginal layout. */
  const ExifLayout: Layout :=
    Layout(DigitRun(4) + Literal(":") + DigitRun(2) + Literal(":") + DigitRun(2) + Literal(" ")
           + DigitRun(2) + Literal(":") + DigitRun(2) + Literal(":") + DigitRun(2),
           0, 5, 8, 11, 14, 17)

  /** "20060102_150405". */
  const CompactLayout: Layout :=
    Layout(DigitRun(8) + Literal("_") + DigitRun(6), 0, 4, 6, 9, 11, 13)

  /** "2006-01-02 15.04.05". */
  const DashedLayout: Layout :=
    Layout(DigitRun(4) + Literal("-") + DigitRun(2) + Literal("-") + DigitRun(2) + Literal(" ")
           + DigitRun(2) + Literal(".") + DigitRun(2) + Literal(".") + DigitRun(2),
           0, 5, 8, 11, 14, 17)

  lemma LayoutsWellFormed()
    ensures WellFormed(ExifLayout) && WellFormed(CompactLayout) && WellFormed(DashedLayout)
    ensures |ExifLayout.shape| == 19 && |CompactLayout.shape| == 15 && |DashedLayout.shape| == 19
  {
  }

  function Field(s: string, pos: nat, width: nat): (v: nat)
    requires pos + width <= |s| && AllDigits(s[pos..pos + width])
  {
    Num(s[pos..pos + width])
  }

  /** The date and time the fields of s spell out, once s has the layout's shape. */
  function Fields(l: Layout, s: string): DateTime
    requires WellFormed(l) && MatchesAt(s, 0, l.shape)
  {
    DigitsInWindow(s, 0, l.shape, l.year, 4);
    DigitsInWindow(s, 0, l.shape, l.month, 2);
    DigitsInWindow(s, 0, l.shape, l.day, 2);
    DigitsInWindow(s, 0, l.shape, l.hour, 2);
    DigitsInWindow(s, 0, l.shape, l.minute, 2);
    DigitsInWindow(s, 0, l.shape, l.second, 2);
    DateTime(Field(s, l.year, 4), Field(s, l.month, 2), Field(s, l.day, 2),
             Field(s, l.hour, 2), Field(s, l.minute, 2), Field(s, l.second, 2))
  }

  /**
   * time.Parse(layout, s): succeeds exactly when s is a whole instance of the
   * layout's shape and its fields name a real date and time of day.
   */
  function Parse(l: Layout, s: string): (r: Option<DateTime>)
    ensures r.Some? <==> WellFormed(l) && |s| == |l.shape| && MatchesAt(s, 0, l.shape) && ValidDateTime(Fields(l, s))
    ensures r.Some? ==> r.value == Fields(l, s) && ValidDateTime(r.value)
  {
    if WellFormed(l) && |s| == |l.shape| && MatchesAt(s, 0, l.shape) && ValidDateTime(Fields(l, s))
    then Some(Fields(l, s))
    else None
  }

  // ---------------------------------------------------------------------
  // time.Format

  /** The "2006" field: the year with at least four digits, signed when negative. */
  function FormatYear(y: int): (r: string)
    ensures |r| >= 4
    ensures y >= 0 ==> AllDigits(r) && Num(r) == y && |r| >= 4
  {
    if y < 0 then "-" + Decimal(-y, 4) else Decimal(y, 4)
  }

  /** The "01" field. */
  function FormatMonth(m: int): (r: string)
    requires 1 <= m <= 12
    ensures |r| == 2 && AllDigits(r) && Num(r) == m
  {
    DecimalWidth(m, 2);
    Decimal(m, 2)
  }

  /**
   * The year and month segments main.go builds from `tm, _ := time.Parse(...)`:
   * those of the parsed time, or of the zero time when parsing failed.
   */
  function YearMonth(parsed: Option<DateTime>): (ym: (string, string))
    requires parsed.Some? ==> ValidDateTime(parsed.value)
  {
    var tm := parsed.GetOr(ZeroTime);
    (FormatYear(tm.year), FormatMonth(tm.month))
  }

  /**
   * The year and month digits as written in s when s parses under l, and
   * "0001"/"01" (the zero time's) when it does not.
   */
  function WrittenYearMonth(l: Layout, s: string): (string, string)
  {
    if Parse(l, s).Some? then (s[l.year..l.year + 4], s[l.month..l.month + 2]) else ("0001", "01")
  }

  /**
   * Whatever the layout, the year and month segments main.go formats are
   * the year and month digits of the text itself when it parses, and
   * "0001"/"01" when it does not.
   */
  lemma YearMonthOfParse(l: Layout, s: string)
    ensures YearMonth(Parse(l, s)) == WrittenYearMonth(l, s)
  {
    if Parse(l, s).Some? {
      ParsedYearMonth(l, s);
    } else {
      ZeroYearMonth();
    }
  }

  /** A parsed time's year and month print back as the digits they were read from. */
  lemma ParsedYearMonth(l: Layout, s: string)
    requires Parse(l, s).Some?
    ensures FormatYear(Parse(l, s).value.year) == s[l.year..l.year + 4]
    ensures FormatMonth(Parse(l, s).value.month) == s[l.month..l.month + 2]
  {
    var t := Parse(l, s).value;
    DigitsInWindow(s, 0, l.shape, l.year, 4);
    DigitsInWindow(s, 0, l.shape, l.month, 2);
    assert t.year == Num(s[l.year..l.year + 4]) && t.month == Num(s[l.month..l.month + 2]);
    DecimalOfNum(s[l.year..l.year + 4]);
    DecimalOfNum(s[l.month..l.month + 2]);
  }

  /** The zero time, January of year 1, prints as "0001" and "01". */
  lemma ZeroYearMonth()
    ensures FormatYear(ZeroTime.year) == "0001" && FormatMonth(ZeroTime.month) == "01"
  {
    assert Decimal(0, 1) == "0";
    assert Decimal(1, 2) == "01";
    assert Decimal(1, 4) == "0001";
  }

  /** The year and month segments of the time `s` parses to under l (the zero time's when it does not). */
  function YearMonthOf(l: Layout, s: string): (ym: (string, string))
    ensures ym == WrittenYearMonth(l, s)
  {
    YearMonthOfParse(l, s);
    YearMonth(Parse(l, s))
  }

  /** time.Now().Format("20060102150405"). */
  function Stamp(t: DateTime): (r: string)
    requires ValidDateTime(t)
    ensures |r| >= 14
  {
    FormatYear(t.year) + FormatMonth(t.month) + Decimal(t.day, 2)
      + Decimal(t.hour, 2) + Decimal(t.minute, 2) + Decimal(t.second, 2)
  }

  /** The stamp begins with the year, and ten more digits follow it. */
  lemma StampStartsWithYear(t: DateTime)
    requires ValidDateTime(t)
    ensures var y := FormatYear(t.year);
      |y| + 10 <= |Stamp(t)| && Stamp(t)[..|y|] == y
  {
    var y, mo := FormatYear(t.year), FormatMonth(t.month);
    var d, h, mi, se := Decimal(t.day, 2), Decimal(t.hour, 2), Decimal(t.minute, 2), Decimal(t.second, 2);
    PrefixOfAppend(y, mo + d + h + mi + se);
    assert y + mo + d + h + mi + se == y + (mo + d + h + mi + se);
  }

  lemma PrefixOfAppend(a: string, b: string)
    ensures (a + b)[..|a|] == a
  {
  }

  /** For a four-digit year the stamp is fourteen digits. */
  lemma StampDigits(t: DateTime)
    requires ValidDateTime(t) && 0 <= t.year < 10000
    ensures |Stamp(t)| == 14 && AllDigits(Stamp(t))
  {
    var y, mo := FormatYear(t.year), FormatMonth(t.month);
    var d, h, mi, se := Decimal(t.day, 2), Decimal(t.hour, 2), Decimal(t.minute, 2), Decimal(t.second, 2);
    DecimalWidth(t.year, 4);
    DecimalWidth(t.day, 2);
    DecimalWidth(t.hour, 2);
    DecimalWidth(t.minute, 2);
    DecimalWidth(t.second, 2);
    AllDigitsConcat(y, mo);
    AllDigitsConcat(y + mo, d);
    AllDigitsConcat(y + mo + d, h);
    AllDigitsConcat(y + mo + d + h, mi);
    AllDigitsConcat(y + mo + d + h + mi, se);
  }

  /** Whatever the year, the stamp holds neither a dot nor a slash. */
  lemma StampHasNoDotOrSlash(t: DateTime)
    requires ValidDateTime(t)
    ensures Lacks(Stamp(t), '.') && Lacks(Stamp(t), '/')
  {
    var y, mo := FormatYear(t.year), FormatMonth(t.month);
    var d, h, mi, se := Decimal(t.day, 2), Decimal(t.hour, 2), Decimal(t.minute, 2), Decimal(t.second, 2);
    assert forall i :: 0 <= i < |y| ==> y[i] == '-' || IsDigit(y[i]);
    StampLacks(y, mo, d, h, mi, se, '.');
    StampLacks(y, mo, d, h, mi, se, '/');
  }

  lemma StampLacks(y: string, mo: string, d: string, h: string, mi: string, se: string, c: char)
    requires Lacks(y, c) && Lacks(mo, c) && Lacks(d, c) && Lacks(h, c) && Lacks(mi, c) && Lacks(se, c)
    ensures Lacks(y + mo + d + h + mi + se, c)
  {
    LacksConcat(y, mo, c);
    LacksConcat(y + mo, d, c);
    LacksConcat(y + mo + d, h, c);
    LacksConcat(y + mo + d + h, mi, c);
    LacksConcat(y + mo + d + h + mi, se, c);
  }

  // ---------------------------------------------------------------------
  // time.Unix(sec, 0) in a zone at a fixed offset from UTC

  /** Day number (days since 1970-01-01) of the first of January of year y. */
  function YearStart(y: int): int
    decreases if y >= 1970 then y - 1970 else 1970 - y
  {
    if y == 1970 then 0
    else if y > 1970 then YearStart(y - 1) + DaysInYear(y - 1)
    else YearStart(y + 1) - DaysInYear(y)
  }

  lemma YearStartStep(y: int)
    ensures YearStart(y + 1) == YearStart(y) + DaysInYear(y)
  {
  }

  /** Day number of a calendar date. */
  function DayNumber(y: int, m: int, d: int): int
    requires 1 <= m <= 12
  {
    YearStart(y) + DaysBeforeMonth(m, y) + d - 1
  }

  function YearUp(n: int, y: int): (r: int)
    requires YearStart(y) <= n
    decreases n - YearStart(y)
    ensures YearStart(r) <= n < YearStart(r) + DaysInYear(r)
  {
    YearStartStep(y);
    if n < YearStart(y) + DaysInYear(y) then y else YearUp(n, y + 1)
  }

  function YearDown(n: int, y: int): (r: int)
    requires n < YearStart(y) + DaysInYear(y)
    decreases YearStart(y) + DaysInYear(y) - n
    ensures YearStart(r) <= n < YearStart(r) + DaysInYear(r)
  {
    if YearStart(y) <= n then y
    else
      YearStartStep(y - 1);
      YearDown(n, y - 1)
  }

  /** The month of year y whose days contain day-of-year `doy` (0-based). */
  function MonthFrom(doy: int, y: int, m: int): (r: int)
    requires 1 <= m <= 12 && DaysBeforeMonth(m, y) <= doy < DaysInYear(y)
    decreases 12 - m
    ensures m <= r <= 12
    ensures DaysBeforeMonth(r, y) <= doy < DaysBeforeMonth(r, y) + DaysIn(r, y)
  {
    DaysBeforeMonthStep(m, y);
    if doy < DaysBeforeMonth(m + 1, y) then m else MonthFrom(doy, y, m + 1)
  }

  /** The calendar date with day number n. */
  function CivilFromDays(n: int): (t: DateTime)
    ensures 1 <= t.month <= 12 && 1 <= t.day <= DaysIn(t.month, t.year)
    ensures DayNumber(t.year, t.month, t.day) == n
  {
    var y := if n >= 0 then YearUp(n, 1970) else YearDown(n, 1969);
    var m := MonthFrom(n - YearStart(y), y, 1);
    DateTime(y, m, n - YearStart(y) - DaysBeforeMonth(m, y) + 1, 0, 0, 0)
  }

  /** Each day number names one calendar date only. */
  lemma DayNumberInjective(y1: int, m1: int, d1: int, y2: int, m2: int, d2: int)
    requires 1 <= m1 <= 12 && 1 <= d1 <= DaysIn(m1, y1)
    requires 1 <= m2 <= 12 && 1 <= d2 <= DaysIn(m2, y2)
    requires DayNumber(y1, m1, d1) == DayNumber(y2, m2, d2)
    ensures y1 == y2 && m1 == m2 && d1 == d2
  {
    DaysBeforeMonthStep(m1, y1);
    DaysBeforeMonthStep(m2, y2);
    if y1 < y2 {
      YearStartMonotone(y1 + 1, y2);
      YearStartStep(y1);
      assert false;
    } else if y2 < y1 {
      YearStartMonotone(y2 + 1, y1);
      YearStartStep(y2);
      assert false;
    }
    if m1 < m2 {
      DaysBeforeMonotone(m1 + 1, m2, y1);
      assert false;
    } else if m2 < m1 {
      DaysBeforeMonotone(m2 + 1, m1, y1);
      assert false;
    }
  }

  lemma {:induction false} YearStartMonotone(a: int, b: int)
    requires a <= b
    ensures YearStart(a) <= YearStart(b)
    decreases b - a
  {
    if a < b {
      YearStartStep(a);
      YearStartMonotone(a + 1, b);
    }
  }

  lemma DaysBeforeMonotone(a: int, b: int, y: int)
    requires 1 <= a <= b <= 13
    ensures DaysBeforeMonth(a, y) <= DaysBeforeMonth(b, y)
  {
  }

  /**
   * The local date of a Unix time: the day number is the floor of the
   * shifted second count divided by the seconds in a day.
   */
  function LocalDate(unix: int, utcOffset: int): (t: DateTime)
    ensures 1 <= t.month <= 12 && 1 <= t.day <= DaysIn(t.month, t.year)
    ensures var n := DayNumber(t.year, t.month, t.day);
      n * 86400 <= unix + utcOffset < (n + 1) * 86400
  {
    CivilFromDays((unix + utcOffset) / 86400)
  }
}
