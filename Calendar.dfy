/**
 * Dates as the stock reconciliation uses them: proleptic Gregorian
 * calendar dates numbered by days, a mutable `JsDate` with the
 * `setDate` normalisation of JavaScript's Date, the Monday of a week
 * given as YYYYWW, and the two text forms of a date (YYYY-MM-DD and
 * DD-MM-YYYY).  Dates are local calendar dates: time of day and time
 * zones are not part of the model.
 */
module Calendar {
  import opened Base

  /** A calendar date; `month` runs from 1 to 12 (JavaScript's getMonth() + 1). */
  datatype Date = Date(year: int, month: int, day: int)

  predicate IsLeap(y: int)
  {
    y % 4 == 0 && (y % 100 != 0 || y % 400 == 0)
  }

  function DaysInMonth(y: int, m: int): (n: int)
    requires 1 <= m <= 12
    ensures 28 <= n <= 31
  {
    if m == 2 then (if IsLeap(y) then 29 else 28)
    else if m == 4 || m == 6 || m == 9 || m == 11 then 30
    else 31
  }

  predicate ValidDate(d: Date)
  {
    1 <= d.month <= 12 && 1 <= d.day <= DaysInMonth(d.year, d.month)
  }

  /** Days in the years before `y`, counted from 0001-01-01. */
  function DaysBeforeYear(y: int): int
  {
    365 * (y - 1) + (y - 1) / 4 - (y - 1) / 100 + (y - 1) / 400
  }

  /** Days of year `y` before the first of month `m`. */
  function DaysBeforeMonth(y: int, m: int): int
    requires 1 <= m <= 12
  {
    var leap := if IsLeap(y) then 1 else 0;
    if m == 1 then 0
    else if m == 2 then 31
    else [59, 90, 120, 151, 181, 212, 243, 273, 304, 334][m - 3] + leap
  }

  /** The number of a date; 0001-01-01 is day 1. */
  function DayNumber(d: Date): int
    requires 1 <= d.month <= 12
  {
    DaysBeforeYear(d.year) + DaysBeforeMonth(d.year, d.month) + d.day
  }

  /** ISO weekday of day `n`: Monday 1 ... Sunday 7 (0001-01-01 was a Monday). */
  function IsoWeekday(n: int): (w: int)
    ensures 1 <= w <= 7
  {
    (n - 1) % 7 + 1
  }

  /** Date.prototype.getDay: Sunday 0, Monday 1 ... Saturday 6. */
  function JsWeekday(n: int): (w: int)
    ensures 0 <= w <= 6
    ensures w == 0 <==> IsoWeekday(n) == 7
    ensures w != 0 ==> w == IsoWeekday(n)
  {
    IsoWeekday(n) % 7
  }

  lemma YearLength(y: int)
    ensures DaysBeforeYear(y + 1) == DaysBeforeYear(y) + DaysBeforeMonth(y, 12) + 31
  {
    LeapDays(y);
    var leap := if IsLeap(y) then 1 else 0;
    assert DaysBeforeMonth(y, 12) == 334 + leap;
    assert DaysBeforeYear(y + 1) - DaysBeforeYear(y) == 365 + (y / 4 - (y - 1) / 4) - (y / 100 - (y - 1) / 100) + (y / 400 - (y - 1) / 400);
  }

  /** The leap-day terms of `DaysBeforeYear` grow by one exactly across a leap year. */
  lemma LeapDays(y: int)
    ensures (y / 4 - (y - 1) / 4) - (y / 100 - (y - 1) / 100) + (y / 400 - (y - 1) / 400) == if IsLeap(y) then 1 else 0
  {
    DivStep4(y);
    DivStep100(y);
    DivStep400(y);
    Divides400(y);
    Divides100(y);
  }

  lemma Divides400(y: int)
    ensures y % 400 == 0 ==> y % 100 == 0
  {
    var q := y / 400;
    assert y == 400 * q + y % 400;
    assert y % 400 == 0 ==> y == 100 * (4 * q);
  }

  lemma Divides100(y: int)
    ensures y % 100 == 0 ==> y % 4 == 0
  {
    var q := y / 100;
    assert y == 100 * q + y % 100;
    assert y % 100 == 0 ==> y == 4 * (25 * q);
  }

  lemma DivStep4(y: int)
    ensures y / 4 == (y - 1) / 4 + (if y % 4 == 0 then 1 else 0)
  {
  }

  lemma DivStep100(y: int)
    ensures y / 100 == (y - 1) / 100 + (if y % 100 == 0 then 1 else 0)
  {
  }

  lemma DivStep400(y: int)
    ensures y / 400 == (y - 1) / 400 + (if y % 400 == 0 then 1 else 0)
  {
  }

  function NextMonthStart(d: Date): (r: Date)
    requires ValidDate(d)
    ensures ValidDate(r) && r.day == 1
    ensures DayNumber(r) == DayNumber(d) - d.day + 1 + DaysInMonth(d.year, d.month)
  {
    YearLength(d.year);
    if d.month == 12 then Date(d.year + 1, 1, 1) else Date(d.year, d.month + 1, 1)
  }

  function PrevMonthEnd(d: Date): (r: Date)
    requires ValidDate(d)
    ensures ValidDate(r)
    ensures DayNumber(r) == DayNumber(d) - d.day
  {
    YearLength(d.year - 1);
    if d.month == 1 then Date(d.year - 1, 12, 31)
    else Date(d.year, d.month - 1, DaysInMonth(d.year, d.month - 1))
  }

  /** The date `k` days after `d` (before it when `k` is negative), walking month by month. */
  function AddDays(d: Date, k: int): (r: Date)
    requires ValidDate(d)
    ensures ValidDate(r) && DayNumber(r) == DayNumber(d) + k
    decreases if k < 0 then -k else k
  {
    if 1 <= d.day + k <= DaysInMonth(d.year, d.month) then Date(d.year, d.month, d.day + k)
    else if d.day + k > DaysInMonth(d.year, d.month) then
      AddDays(NextMonthStart(d), k - (DaysInMonth(d.year, d.month) - d.day + 1))
    else
      AddDays(PrevMonthEnd(d), k + d.day)
  }

  /** Two valid dates with the same number are the same date. */
  lemma {:induction false} DayNumberInjective(a: Date, b: Date)
    requires ValidDate(a) && ValidDate(b) && DayNumber(a) == DayNumber(b)
    ensures a == b
  {
    if a.year < b.year {
      YearStartBound(a.year, b.year);
      assert false;
    } else if b.year < a.year {
      YearStartBound(b.year, a.year);
      assert false;
    } else {
      assert a.month == b.month by {
        if a.month < b.month {
          MonthStartBound(a.year, a.month, b.month);
        } else if b.month < a.month {
          MonthStartBound(a.year, b.month, a.month);
        }
      }
    }
  }

  /** Every date of a year numbers below the first day of a later year. */
  lemma {:induction false} YearStartBound(y: int, z: int)
    requires y < z
    ensures DaysBeforeYear(y) + DaysBeforeMonth(y, 12) + 31 <= DaysBeforeYear(z)
    decreases z - y
  {
    YearLength(y);
    if y + 1 < z {
      YearStartBound(y + 1, z);
      assert DaysBeforeYear(y + 1) <= DaysBeforeYear(y + 1) + DaysBeforeMonth(y + 1, 12) + 31;
    }
  }

  lemma MonthStartBound(y: int, m: int, n: int)
    requires 1 <= m < n <= 12
    ensures DaysBeforeMonth(y, m) + DaysInMonth(y, m) <= DaysBeforeMonth(y, n)
  {
  }

  // ---------------------------------------------------------------------
  // JavaScript's Date, reduced to its calendar date
  // ---------------------------------------------------------------------

  /** `new Date(y, ...)` reads years 0 to 99 as 1900 to 1999. */
  function JsYear(y: int): int
  {
    if 0 <= y <= 99 then 1900 + y else y
  }

  class JsDate {
    var date: Date

    ghost predicate Valid()
      reads this
    {
      ValidDate(date)
    }

    /** `new Date(year, monthIndex, day)`: an out-of-month `day` rolls over into the neighbouring months. */
    constructor (year: int, monthIndex: int, day: int)
      requires 0 <= monthIndex <= 11
      ensures Valid()
      ensures DayNumber(date) == DayNumber(Date(JsYear(year), monthIndex + 1, 1)) + day - 1
    {
      date := AddDays(Date(JsYear(year), monthIndex + 1, 1), day - 1);
    }

    /** `new Date(other)`. */
    constructor Copy(other: JsDate)
      requires other.Valid()
      ensures Valid() && date == other.date
    {
      date := other.date;
    }

    /** Date.prototype.getDate: the day of the month. */
    function GetDate(): int
      reads this
    {
      date.day
    }

    /** Date.prototype.getDay. */
    function GetDay(): int
      reads this
      requires Valid()
    {
      JsWeekday(DayNumber(date))
    }

    /** Date.prototype.setDate: day `d` of the current month, rolling over as `new Date` does. */
    method SetDate(d: int)
      requires Valid()
      modifies this
      ensures Valid()
      ensures DayNumber(date) == DayNumber(Date(old(date).year, old(date).month, 1)) + d - 1
    {
      date := AddDays(Date(date.year, date.month, 1), d - 1);
    }
  }

  // ---------------------------------------------------------------------
  // The Monday of a YYYYWW week
  // ---------------------------------------------------------------------

  /** `a % 100` as JavaScript computes it: the remainder takes the sign of `a`. */
  function JsRem100(a: int): (r: int)
    ensures a >= 0 ==> r == a % 100
    ensures a < 0 ==> r <= 0
    ensures -100 < r < 100
    ensures (a - r) % 100 == 0
  {
    if a >= 0 then a % 100 else -((-a) % 100)
  }

  /** Number of 4 January of `y` (years 0..99 meaning 1900..1999). */
  function Jan4(y: int): int
  {
    DayNumber(Date(JsYear(y), 1, 4))
  }

  /** The day the stock reconciliation takes for week `yearWeek`: the Monday on or before 4 January, plus weeks. */
  function MondayNumber(yearWeek: int): int
  {
    MondayFrom(Jan4(yearWeek / 100), JsRem100(yearWeek))
  }

  /** The Monday on or before day `n`, moved by `week - 1` weeks. */
  function MondayFrom(n: int, week: int): int
  {
    n - IsoWeekday(n) + 1 + (week - 1) * 7
  }

  /**
   * getMondayOfWeek: the Monday of ISO week WW of year YYYY, found from
   * 4 January (which always lies in week 1) by two `setDate` calls.
   */
  method MondayOfWeek(yearWeek: int) returns (monday: Date)
    ensures ValidDate(monday)
    ensures DayNumber(monday) == MondayNumber(yearWeek)
    ensures IsoWeekday(DayNumber(monday)) == 1
  {
    var year := yearWeek / 100;
    var week := JsRem100(yearWeek);
    var jan4 := new JsDate(year, 0, 4);
    ghost var n4 := DayNumber(jan4.date);
    MonthDay(Date(JsYear(year), 1, 4));
    assert n4 == Jan4(year);
    var dayOfWeek := jan4.GetDay();
    if dayOfWeek == 0 {
      dayOfWeek := 7;
    }
    assert dayOfWeek == IsoWeekday(n4);
    var mondayWeek1 := new JsDate.Copy(jan4);
    MonthDay(jan4.date);
    mondayWeek1.SetDate(jan4.GetDate() - dayOfWeek + 1);
    assert DayNumber(mondayWeek1.date) == MondayFrom(n4, 1);
    var targetMonday := new JsDate.Copy(mondayWeek1);
    MonthDay(mondayWeek1.date);
    targetMonday.SetDate(mondayWeek1.GetDate() + (week - 1) * 7);
    assert DayNumber(targetMonday.date) == MondayFrom(n4, week);
    monday := targetMonday.date;
    MondayIsMonday(yearWeek);
  }

  /** A date's number is its month's first day's number plus the days after it. */
  lemma MonthDay(d: Date)
    requires 1 <= d.month <= 12
    ensures DayNumber(Date(d.year, d.month, 1)) + d.day - 1 == DayNumber(d)
  {
  }

  lemma MondayIsMonday(yearWeek: int)
    ensures IsoWeekday(MondayNumber(yearWeek)) == 1
  {
    MondayFromIsMonday(Jan4(yearWeek / 100), JsRem100(yearWeek));
  }

  lemma MondayFromIsMonday(n: int, w: int)
    ensures IsoWeekday(MondayFrom(n, w)) == 1
  {
    var q := (n - 1) / 7;
    assert MondayFrom(n, w) - 1 == 7 * (q + w - 1) by {
      assert n - 1 == 7 * q + (n - 1) % 7;
    }
    SevenAfterMonday(MondayFrom(n, w), q + w - 1);
  }

  lemma SevenAfterMonday(m: int, t: int)
    requires m - 1 == 7 * t
    ensures IsoWeekday(m) == 1
  {
  }

  /** Week 1 starts between 29 December of the previous year and 4 January. */
  lemma WeekOneStart(year: int)
    requires year >= 100
    ensures var m := MondayNumber(year * 100 + 1);
            DayNumber(Date(year - 1, 12, 29)) <= m <= DayNumber(Date(year, 1, 4))
  {
    YearLength(year - 1);
    assert (year * 100 + 1) / 100 == year;
    assert JsRem100(year * 100 + 1) == 1;
  }

  /** Consecutive weeks of a year start seven days apart. */
  lemma NextWeek(yearWeek: int)
    requires yearWeek >= 0 && yearWeek % 100 < 99
    ensures MondayNumber(yearWeek + 1) == MondayNumber(yearWeek) + 7
  {
    assert (yearWeek + 1) / 100 == yearWeek / 100;
    assert (yearWeek + 1) % 100 == yearWeek % 100 + 1;
  }

  lemma WeekOf2026Example()
    ensures ValidDate(Date(2025, 12, 29)) && MondayNumber(202601) == DayNumber(Date(2025, 12, 29))
  {
    assert JsRem100(202601) == 1;
    assert IsoWeekday(Jan4(2026)) == 7;
  }

  // ---------------------------------------------------------------------
  // Text forms
  // ---------------------------------------------------------------------

  /** formatDateISO: `${year}-${MM}-${DD}` with month and day padded to two digits. */
  function FormatIso(d: Date): string
  {
    IntToString(d.year) + "-" + Pad2(if d.month < 0 then 0 else d.month) + "-" + Pad2(if d.day < 0 then 0 else d.day)
  }

  /** formatDateDMY: `${DD}-${MM}-${year}`. */
  function FormatDmy(d: Date): string
  {
    Pad2(if d.day < 0 then 0 else d.day) + "-" + Pad2(if d.month < 0 then 0 else d.month) + "-" + IntToString(d.year)
  }

  /**
   * The two forms of a valid date from year 0 on carry the same three
   * numerals, in opposite order, two digits each for day and month.
   */
  lemma FormatsAgree(d: Date)
    requires ValidDate(d) && d.year >= 0
    ensures var iso := FormatIso(d);
            var y := NatToString(d.year);
            |iso| == |y| + 6 && iso[..|y|] == y && iso[|y|] == '-' && iso[|y| + 3] == '-'
            && iso[|y| + 1..|y| + 3] == Pad2(d.month) && iso[|y| + 4..] == Pad2(d.day)
    ensures var dmy := FormatDmy(d);
            |dmy| == |NatToString(d.year)| + 6 && dmy[..2] == Pad2(d.day) && dmy[2] == '-' && dmy[5] == '-'
            && dmy[3..5] == Pad2(d.month) && dmy[6..] == NatToString(d.year)
    ensures DigitsValue(Pad2(d.month)) == d.month && DigitsValue(Pad2(d.day)) == d.day
  {
    Pad2Shape(d.month);
    Pad2Shape(d.day);
  }
}
