/**
 * Calendar dates as Python's `datetime` holds them, the parse that
 * `datetime.strptime(f"{day}-{month}-{year}", "%d-%b-%Y")` performs on the
 * three captured date fields, and the weekday that `strftime('%A')` names.
 * Month abbreviations and weekday names are those of the English (C) locale.
 */
module Dates {
  import opened Wrappers
  import opened Chars

  datatype Date = Date(year: int, month: int, day: int)

  predicate IsLeapYear(y: int)
  {
    y % 4 == 0 && (y % 100 != 0 || y % 400 == 0)
  }

  function DaysInYear(y: int): nat
  {
    if IsLeapYear(y) then 366 else 365
  }

  function DaysInMonth(y: int, m: int): (n: nat)
    requires 1 <= m <= 12
    ensures 28 <= n <= 31
  {
    if m == 2 then (if IsLeapYear(y) then 29 else 28)
    else if m == 4 || m == 6 || m == 9 || m == 11 then 30
    else 31
  }

  /** The dates `datetime` can represent: years 1..9999 and a day that exists in its month. */
  predicate IsValidDate(d: Date)
  {
    1 <= d.year <= 9999 && 1 <= d.month <= 12 && 1 <= d.day <= DaysInMonth(d.year, d.month)
  }

  /** `datetime` ordering: by year, then month, then day. */
  predicate Before(a: Date, b: Date)
  {
    a.year < b.year || (a.year == b.year && (a.month < b.month || (a.month == b.month && a.day < b.day)))
  }

  /** `%b` in the C locale; `strptime` compares them without regard to case. */
  const MonthAbbrevs: seq<string> :=
    ["jan", "feb", "mar", "apr", "may", "jun", "jul", "aug", "sep", "oct", "nov", "dec"]

  /** The abbreviations as `strftime('%b')` writes them. */
  const MonthTitles: seq<string> :=
    ["Jan", "Feb", "Mar", "Apr", "May", "Jun", "Jul", "Aug", "Sep", "Oct", "Nov", "Dec"]

  const WeekdayNames: seq<string> :=
    ["Monday", "Tuesday", "Wednesday", "Thursday", "Friday", "Saturday", "Sunday"]

  function MonthNumberFrom(s: string, m: int): (r: Option<int>)
    requires 1 <= m <= 13
    decreases 13 - m
    ensures r.Some? ==> m <= r.value <= 12 && EqualsIgnoringCase(s, MonthAbbrevs[r.value - 1])
    ensures r.None? ==> forall k :: m - 1 <= k < 12 ==> !EqualsIgnoringCase(s, MonthAbbrevs[k])
  {
    if m == 13 then None
    else if EqualsIgnoringCase(s, MonthAbbrevs[m - 1]) then Some(m)
    else MonthNumberFrom(s, m + 1)
  }

  /** The month that `%b` reads from `s`, if any. */
  function MonthNumber(s: string): (r: Option<int>)
    ensures r.Some? ==> 1 <= r.value <= 12 && EqualsIgnoringCase(s, MonthAbbrevs[r.value - 1])
    ensures r.None? ==> forall k :: 0 <= k < 12 ==> !EqualsIgnoringCase(s, MonthAbbrevs[k])
    ensures forall k :: 0 <= k < 12 && EqualsIgnoringCase(s, MonthAbbrevs[k]) ==> r == Some(k + 1)
  {
    AbbrevsDistinct(s);
    MonthNumberFrom(s, 1)
  }

  /** No text spells two different month abbreviations. */
  lemma AbbrevsDistinct(s: string)
    ensures forall i, j :: 0 <= i < j < 12 && EqualsIgnoringCase(s, MonthAbbrevs[i]) ==> !EqualsIgnoringCase(s, MonthAbbrevs[j])
  {
    forall i, j | 0 <= i < j < 12
      ensures EqualsIgnoringCase(s, MonthAbbrevs[i]) ==> !EqualsIgnoringCase(s, MonthAbbrevs[j])
    {
      assert MonthAbbrevs[i] != MonthAbbrevs[j];
      SpelledAtMostOneWay(s, MonthAbbrevs[i], MonthAbbrevs[j]);
    }
  }

  lemma {:induction false} LeadingZero(s: string)
    requires All(s, IsDigit)
    ensures All(['0'] + s, IsDigit) && DigitsValue(['0'] + s) == DigitsValue(s)
  {
    var z := ['0'] + s;
    if s != [] {
      assert z[..|z| - 1] == ['0'] + s[..|s| - 1];
      LeadingZero(s[..|s| - 1]);
    }
  }

  /**
   * `str.zfill(2)` on a run of digits: `'0'`s in front up to width 2, the
   * digits kept at the end, and the value unchanged.
   */
  function ZeroFill2(s: string): (r: string)
    ensures |r| == if |s| >= 2 then |s| else 2
    ensures r[|r| - |s|..] == s && forall k :: 0 <= k < |r| - |s| ==> r[k] == '0'
    ensures All(s, IsDigit) ==> All(r, IsDigit) && DigitsValue(r) == DigitsValue(s)
  {
    var r := if |s| >= 2 then s else seq(2 - |s|, _ => '0') + s;
    assert All(s, IsDigit) ==> All(r, IsDigit) && DigitsValue(r) == DigitsValue(s) by {
      if All(s, IsDigit) && |s| < 2 {
        LeadingZero(s);
        if |s| == 0 {
          LeadingZero(['0'] + s);
          assert r == ['0'] + (['0'] + s);
        } else {
          assert r == ['0'] + s;
        }
      }
    }
    r
  }

  /**
   * The `%d` directive on the zero-filled two-character day field: of its
   * alternatives `3[01]|[12]\d|0[1-9]|[1-9]| [1-9]`, only the two-character
   * ones can be followed by the `-` of the format.
   */
  predicate DayDirective(dd: string)
    requires |dd| == 2
  {
    (dd[0] == '3' && (dd[1] == '0' || dd[1] == '1')) || dd[0] == '1' || dd[0] == '2' ||
    (dd[0] == '0' && dd[1] != '0')
  }

  /** The day the `%d` directive reads: on digits, it accepts exactly the values 1 to 31. */
  function ParseDay(dd: string): (r: Option<int>)
    requires |dd| == 2 && All(dd, IsDigit)
    ensures r.Some? <==> 1 <= DigitsValue(dd) <= 31
    ensures r.Some? ==> r.value == DigitsValue(dd)
  {
    assert dd[..1][..0] == [];
    assert DigitsValue(dd) == DigitValue(dd[0]) * 10 + DigitValue(dd[1]);
    if DayDirective(dd) then Some(DigitsValue(dd)) else None
  }

  /**
   * `datetime.strptime(f"{day.zfill(2)}-{mon}-{year}", "%d-%b-%Y")` on the
   * fields captured by the date patterns; `None` where Python raises
   * `ValueError`. The result is exactly the valid date the fields denote.
   */
  function ParseDate(day: string, mon: string, year: string): (r: Option<Date>)
    requires 1 <= |day| <= 2 && All(day, IsDigit) && All(year, IsDigit) && |year| == 4
    ensures r.Some? ==> IsValidDate(r.value)
    ensures r.Some? ==>
      r.value.day == DigitsValue(day) && r.value.year == DigitsValue(year) &&
      EqualsIgnoringCase(mon, MonthAbbrevs[r.value.month - 1])
    ensures forall d :: (IsValidDate(d) && d.day == DigitsValue(day) && d.year == DigitsValue(year) &&
      EqualsIgnoringCase(mon, MonthAbbrevs[d.month - 1])) ==> r == Some(d)
  {
    var dd := ZeroFill2(day);
    match ParseDay(dd)
    case None => None
    case Some(d) =>
      match MonthNumber(mon)
      case None => None
      case Some(m) =>
        var y := DigitsValue(year);
        if 1 <= y && d <= DaysInMonth(y, m) then Some(Date(y, m, d)) else None
  }

  /** The three fields as `strftime("%d", "%b", "%Y")` would write them. */
  function FormatDate(d: Date): (string, string, string)
    requires IsValidDate(d)
  {
    (Digits(d.day, 2), MonthTitles[d.month - 1], Digits(d.year, 4))
  }

  /** Parsing a formatted valid date gives the date back. */
  lemma FormatParseRoundTrip(d: Date)
    requires IsValidDate(d)
    ensures ParseDate(FormatDate(d).0, FormatDate(d).1, FormatDate(d).2) == Some(d)
  {
    var (day, mon, year) := FormatDate(d);
    assert DigitsValue(day) == d.day by {
      assert Pow10(2) == 100;
      DigitsRoundTrip(d.day, 2);
    }
    assert DigitsValue(year) == d.year by {
      assert Pow10(4) == 10000;
      DigitsRoundTrip(d.year, 4);
    }
    TitleSpellsAbbrev(d.month - 1);
  }

  /** Each month's title-case abbreviation spells its lower-case one. */
  lemma TitleSpellsAbbrev(k: int)
    requires 0 <= k < 12
    ensures EqualsIgnoringCase(MonthTitles[k], MonthAbbrevs[k])
  {
  }

  /** Days in the years before `y`, as `date.toordinal` counts them. */
  function DaysBeforeYear(y: int): int
    requires y >= 1
  {
    var p := y - 1;
    p * 365 + p / 4 - p / 100 + p / 400
  }

  function DaysBeforeMonth(y: int, m: int): nat
    requires 1 <= m <= 12
  {
    if m == 1 then 0 else DaysBeforeMonth(y, m - 1) + DaysInMonth(y, m - 1)
  }

  /** `date.toordinal()`: 0001-01-01 is day 1. */
  function Ordinal(d: Date): int
    requires IsValidDate(d)
  {
    DaysBeforeYear(d.year) + DaysBeforeMonth(d.year, d.month) + d.day
  }

  /** `date.weekday()`: 0 is Monday; 0001-01-01 was a Monday. */
  function Weekday(d: Date): (w: nat)
    requires IsValidDate(d)
    ensures w < 7
  {
    (Ordinal(d) + 6) % 7
  }

  /** `strftime('%A')`. */
  function WeekdayName(d: Date): (name: string)
    requires IsValidDate(d)
    ensures name in WeekdayNames
  {
    WeekdayNames[Weekday(d)]
  }

  /** The day after `d`. */
  function NextDay(d: Date): (n: Date)
    requires IsValidDate(d) && d != Date(9999, 12, 31)
    ensures IsValidDate(n) && Before(d, n)
  {
    if d.day < DaysInMonth(d.year, d.month) then Date(d.year, d.month, d.day + 1)
    else if d.month < 12 then Date(d.year, d.month + 1, 1)
    else Date(d.year + 1, 1, 1)
  }

  lemma YearLength(y: int)
    requires y >= 1
    ensures DaysBeforeYear(y + 1) == DaysBeforeYear(y) + DaysInYear(y)
  {
    var p := y - 1;
    CountStep(p, 4);
    CountStep(p, 100);
    CountStep(p, 400);
    var c4, c100, c400 := (p + 1) / 4 - p / 4, (p + 1) / 100 - p / 100, (p + 1) / 400 - p / 400;
    assert DaysBeforeYear(y + 1) == DaysBeforeYear(y) + 365 + c4 - c100 + c400;
    assert DaysInYear(y) == 365 + c4 - c100 + c400 by {
      MultiplesNest(y);
    }
  }

  /** A multiple of 400 is a multiple of 100, and a multiple of 100 is a multiple of 4. */
  lemma MultiplesNest(y: int)
    ensures y % 400 == 0 ==> y % 100 == 0
    ensures y % 100 == 0 ==> y % 4 == 0
  {
    if y % 400 == 0 {
      var k := y / 400;
      assert y == 100 * (4 * k);
    }
    if y % 100 == 0 {
      var k := y / 100;
      assert y == 4 * (25 * k);
    }
  }

  /** `p / k` grows by one exactly when `p + 1` is a multiple of `k`. */
  lemma CountStep(p: nat, k: int)
    requires k == 4 || k == 100 || k == 400
    ensures (p + 1) / k == p / k + (if (p + 1) % k == 0 then 1 else 0)
  {
    if k == 4 {
      assert (p + 1) / 4 == p / 4 + (if (p + 1) % 4 == 0 then 1 else 0);
    } else if k == 100 {
      assert (p + 1) / 100 == p / 100 + (if (p + 1) % 100 == 0 then 1 else 0);
    } else {
      assert (p + 1) / 400 == p / 400 + (if (p + 1) % 400 == 0 then 1 else 0);
    }
  }

  /** Days in the months before `m` in a common year. */
  const CommonDaysBefore: seq<nat> := [0, 31, 59, 90, 120, 151, 181, 212, 243, 273, 304, 334]

  lemma {:induction false} DaysBeforeMonthTable(y: int, m: int)
    requires 1 <= m <= 12
    ensures DaysBeforeMonth(y, m) == CommonDaysBefore[m - 1] + (if m > 2 && IsLeapYear(y) then 1 else 0)
  {
    if m > 1 {
      DaysBeforeMonthTable(y, m - 1);
    }
  }

  lemma MonthsFillYear(y: int)
    ensures DaysBeforeMonth(y, 12) + DaysInMonth(y, 12) == DaysInYear(y)
  {
    DaysBeforeMonthTable(y, 12);
  }

  /** Consecutive days have consecutive ordinals. */
  lemma NextDayOrdinal(d: Date)
    requires IsValidDate(d) && d != Date(9999, 12, 31)
    ensures Ordinal(NextDay(d)) == Ordinal(d) + 1
  {
    if d.day == DaysInMonth(d.year, d.month) && d.month == 12 {
      MonthsFillYear(d.year);
      YearLength(d.year);
    }
  }

  /** The weekday name advances by one from each day to the next. */
  lemma NextDayWeekday(d: Date)
    requires IsValidDate(d) && d != Date(9999, 12, 31)
    ensures Weekday(NextDay(d)) == (Weekday(d) + 1) % 7
    ensures WeekdayName(NextDay(d)) == WeekdayNames[(Weekday(d) + 1) % 7]
  {
    var o := Ordinal(d);
    assert Ordinal(NextDay(d)) == o + 1 by {
      NextDayOrdinal(d);
    }
    NextResidue(o + 6);
  }

  lemma NextResidue(n: int)
    ensures (n + 1) % 7 == (n % 7 + 1) % 7
  {
  }

  /** 5 January 2025 is a Sunday. */
  lemma SundayExample()
    ensures IsValidDate(Date(2025, 1, 5)) && WeekdayName(Date(2025, 1, 5)) == "Sunday"
  {
  }

  lemma {:induction false} DaysBeforeMonthGrows(y: int, m1: int, m2: int)
    requires 1 <= m1 < m2 <= 12
    ensures DaysBeforeMonth(y, m1) + DaysInMonth(y, m1) <= DaysBeforeMonth(y, m2)
    decreases m2 - m1
  {
    if m1 + 1 < m2 {
      DaysBeforeMonthGrows(y, m1 + 1, m2);
    }
  }

  lemma {:induction false} DaysBeforeYearGrows(y1: int, y2: int)
    requires 1 <= y1 < y2
    ensures DaysBeforeYear(y1) + DaysInYear(y1) <= DaysBeforeYear(y2)
    decreases y2 - y1
  {
    YearLength(y1);
    if y1 + 1 < y2 {
      DaysBeforeYearGrows(y1 + 1, y2);
    }
  }

  lemma OrdinalWithinYear(d: Date)
    requires IsValidDate(d)
    ensures DaysBeforeYear(d.year) < Ordinal(d) <= DaysBeforeYear(d.year) + DaysInYear(d.year)
  {
    MonthsFillYear(d.year);
    if d.month < 12 {
      DaysBeforeMonthGrows(d.year, d.month, 12);
    }
  }

  /** The field-wise order `Before` is the chronological order of ordinals. */
  lemma BeforeIsChronological(a: Date, b: Date)
    requires IsValidDate(a) && IsValidDate(b)
    ensures Before(a, b) <==> Ordinal(a) < Ordinal(b)
    ensures a == b <==> Ordinal(a) == Ordinal(b)
  {
    OrdinalWithinYear(a);
    OrdinalWithinYear(b);
    if a.year < b.year {
      DaysBeforeYearGrows(a.year, b.year);
    } else if b.year < a.year {
      DaysBeforeYearGrows(b.year, a.year);
    } else if a.month < b.month {
      DaysBeforeMonthGrows(a.year, a.month, b.month);
    } else if b.month < a.month {
      DaysBeforeMonthGrows(a.year, b.month, a.month);
    }
  }
}
