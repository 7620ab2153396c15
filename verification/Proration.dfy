/** The fraction of a year that a billing window of local wall-clock time
    covers, years of unequal length included. Durations are microseconds. */
module Proration {
  import opened Numbers
  import Invoices

  // ---------------------------------------------------------------------
  // Calendar.

  // An instant as its year and the time since the start of that year.
  datatype Moment = Moment(year: int, offset: int)

  predicate IsLeap(year: int) {
    year % 4 == 0 && (year % 100 != 0 || year % 400 == 0)
  }

  function DaysIn(year: int): int {
    if IsLeap(year) then 366 else 365
  }

  function YearLength(year: int): (length: int)
    ensures length > 0
  {
    DaysIn(year) * Invoices.DAY
  }

  predicate ValidMoment(m: Moment) {
    m.year >= 1 && 0 <= m.offset < YearLength(m.year)
  }

  predicate Earlier(a: Moment, b: Moment) {
    a.year < b.year || (a.year == b.year && a.offset < b.offset)
  }

  // Days from the first year of the calendar to the start of a year.
  function DaysBefore(year: int): int
    requires year >= 1
    decreases year
  {
    if year == 1 then 0 else DaysBefore(year - 1) + DaysIn(year - 1)
  }

  // The Gregorian count.
  lemma {:induction false} DaysBeforeCount(year: int)
    requires year >= 1
    ensures DaysBefore(year) == 365 * (year - 1) + (year - 1) / 4 - (year - 1) / 100 + (year - 1) / 400
    decreases year
  {
    if year > 1 {
      DaysBeforeCount(year - 1);
      OneMoreYear(year - 1);
    }
  }

  lemma OneMoreYear(year: int)
    requires year >= 1
    ensures DaysIn(year) == 365 + (year / 4 - (year - 1) / 4) - (year / 100 - (year - 1) / 100) + (year / 400 - (year - 1) / 400)
  {
    MultiplesUpTo(year, 4);
    MultiplesUpTo(year, 100);
    MultiplesUpTo(year, 400);
  }

  lemma MultiplesUpTo(year: int, k: int)
    requires year >= 1 && k in {4, 100, 400}
    ensures year / k - (year - 1) / k == if year % k == 0 then 1 else 0
  {
  }

  // The same instant as microseconds of wall time.
  function WallClock(m: Moment): int
    requires m.year >= 1
  {
    DaysBefore(m.year) * Invoices.DAY + m.offset
  }

  lemma {:induction false} YearsApart(year: int, k: nat)
    requires year >= 1
    ensures DaysBefore(year + 1 + k) >= DaysBefore(year) + DaysIn(year)
  {
    if k > 0 {
      YearsApart(year, k - 1);
    }
  }

  // Wall time orders instants as year and offset do.
  lemma ClockOrder(a: Moment, b: Moment)
    requires ValidMoment(a) && ValidMoment(b)
    ensures WallClock(a) < WallClock(b) <==> Earlier(a, b)
  {
    if a.year < b.year {
      YearsApart(a.year, b.year - a.year - 1);
    } else if b.year < a.year {
      YearsApart(b.year, a.year - b.year - 1);
    }
  }

  function YearPart(offset: int, length: int): real
    requires length > 0
  {
    offset as real / length as real
  }

  // Years since the epoch, each year counting one whatever its length.
  function Position(m: Moment): real {
    m.year as real + YearPart(m.offset, YearLength(m.year))
  }

  // The annual fraction of a window: its years, weighted by their own length.
  function Fraction(a: Moment, b: Moment): real {
    Position(b) - Position(a)
  }

  lemma PartSplits(from: int, to: int, length: int)
    requires length > 0
    ensures YearPart(to - from, length) == YearPart(to, length) - YearPart(from, length)
    ensures YearPart(length, length) == 1.0 && YearPart(0, length) == 0.0
  {
  }

  // Walks year by year; ends at the difference of the positions.
  method PeriodFraction(start: Moment, end: Moment) returns (r: Option<real>)
    requires ValidMoment(start) && ValidMoment(end)
    ensures r.Some? <==> Earlier(start, end)
    ensures r.Some? ==> r.value == Fraction(start, end)
  {
    if !Earlier(start, end) {
      return None;
    }
    var fraction, cursor := 0.0, start;
    while Earlier(cursor, end)
      invariant ValidMoment(cursor) && !Earlier(end, cursor)
      invariant fraction == Fraction(start, cursor)
      decreases end.year - cursor.year, end.offset - cursor.offset
    {
      var length := YearLength(cursor.year);
      var yearEnd := Moment(cursor.year + 1, 0);
      var segmentEnd := if Earlier(end, yearEnd) then end else yearEnd;
      var elapsed := if segmentEnd == yearEnd then length - cursor.offset else segmentEnd.offset - cursor.offset;
      PartSplits(cursor.offset, if segmentEnd == yearEnd then length else segmentEnd.offset, length);
      PartSplits(0, 0, YearLength(yearEnd.year));
      fraction := fraction + YearPart(elapsed, length);
      cursor := segmentEnd;
    }
    r := Some(fraction);
  }

  // A chain of consecutive windows adds up to the window it spans.
  function ChainFractions(bounds: seq<Moment>): (r: seq<real>)
    requires |bounds| >= 1
    ensures |r| == |bounds| - 1
  {
    seq(|bounds| - 1, k requires 0 <= k < |bounds| - 1 => Fraction(bounds[k], bounds[k + 1]))
  }

  lemma {:induction false} WindowsAddUp(bounds: seq<Moment>)
    requires |bounds| >= 1
    ensures Sum(ChainFractions(bounds)) == Fraction(bounds[0], bounds[|bounds| - 1])
  {
    var n := |bounds| - 1;
    if n > 0 {
      WindowsAddUp(bounds[..n]);
      assert ChainFractions(bounds)[..n - 1] == ChainFractions(bounds[..n]);
    }
  }

  lemma PartOfYear(offset: int, length: int)
    requires 0 <= offset < length
    ensures 0.0 <= YearPart(offset, length) < 1.0
  {
  }

  lemma PartGrows(a: int, b: int, length: int)
    requires a < b && length > 0
    ensures YearPart(a, length) < YearPart(b, length)
  {
  }

  // Positions order instants as year and offset do.
  lemma LaterIsFurther(a: Moment, b: Moment)
    requires ValidMoment(a) && ValidMoment(b) && Earlier(a, b)
    ensures Position(a) < Position(b)
  {
    if a.year == b.year {
      PartGrows(a.offset, b.offset, YearLength(a.year));
    } else {
      PartOfYear(a.offset, YearLength(a.year));
      PartOfYear(b.offset, YearLength(b.year));
    }
  }

  // Only a window with a positive length has a positive fraction.
  lemma FractionIsPositive(a: Moment, b: Moment)
    requires ValidMoment(a) && ValidMoment(b)
    ensures Fraction(a, b) > 0.0 <==> Earlier(a, b)
  {
    if Earlier(a, b) {
      LaterIsFurther(a, b);
    } else if Earlier(b, a) {
      LaterIsFurther(b, a);
    } else {
      assert a == b;
    }
  }

  // ---------------------------------------------------------------------
  // Whole years.

  // A calendar date and a time of day.
  datatype Stamp = Stamp(year: int, month: int, day: int, time: int)

  const DAYS_BEFORE := [0, 31, 59, 90, 120, 151, 181, 212, 243, 273, 304, 334, 365]

  function MonthStart(year: int, month: int): int
    requires 1 <= month <= 13
  {
    DAYS_BEFORE[month - 1] + if IsLeap(year) && month > 2 then 1 else 0
  }

  predicate ValidStamp(s: Stamp) {
    && s.year >= 1
    && 1 <= s.month <= 12
    && 1 <= s.day <= MonthStart(s.year, s.month + 1) - MonthStart(s.year, s.month)
    && 0 <= s.time < Invoices.DAY
  }

  function MomentOf(s: Stamp): (m: Moment)
    requires ValidStamp(s)
    ensures ValidMoment(m)
  {
    MonthsAscend(s.year, s.month + 1);
    Moment(s.year, (MonthStart(s.year, s.month) + s.day - 1) * Invoices.DAY + s.time)
  }

  lemma MonthsAscend(year: int, month: int)
    requires 1 <= month <= 13
    ensures 0 <= MonthStart(year, month) <= DaysIn(year)
  {
  }

  // The same date and time k years later.
  function Anniversary(s: Stamp, k: int): Stamp {
    s.(year := s.year + k)
  }

  predicate NewYear(s: Stamp) {
    s.month == 1 && s.day == 1 && s.time == 0
  }

  lemma EqualParts(a: int, m: int, b: int, n: int)
    requires m > 0 && n > 0
    ensures YearPart(a, m) == YearPart(b, n) <==> a * n == b * m
  {
    var x, y := YearPart(a, m), YearPart(b, n);
    assert x * m as real == a as real && y * n as real == b as real;
    if a * n == b * m {
      assert x * m as real * n as real == y * n as real * m as real;
      assert (m * n) as real * x == (m * n) as real * y;
      assert (m * n) as real > 0.0;
    }
    if x == y {
      assert a as real * n as real == b as real * m as real;
      assert (a * n) as real == (b * m) as real;
    }
  }

  // The offset of a date in a year of either length.
  function OffsetIn(s: Stamp, leap: bool): int
    requires 1 <= s.month <= 12
  {
    (DAYS_BEFORE[s.month - 1] + (if leap && s.month > 2 then 1 else 0) + s.day - 1) * Invoices.DAY + s.time
  }

  // A date is the same part of a common and of a leap year only at New Year.
  lemma CommonAndLeap(s: Stamp)
    requires 1 <= s.month <= 12 && s.day >= 1 && 0 <= s.time < Invoices.DAY
    requires DAYS_BEFORE[s.month - 1] + s.day <= 365
    ensures OffsetIn(s, true) * (365 * Invoices.DAY) == OffsetIn(s, false) * (366 * Invoices.DAY) <==> NewYear(s)
  {
    var common := OffsetIn(s, false);
    assert 0 <= common < 365 * Invoices.DAY;
    if s.month > 2 {
      assert OffsetIn(s, true) == common + Invoices.DAY;
    }
  }

  lemma DayInBoth(s: Stamp, k: int)
    requires ValidStamp(s) && ValidStamp(Anniversary(s, k)) && IsLeap(s.year) != IsLeap(s.year + k)
    ensures DAYS_BEFORE[s.month - 1] + s.day <= 365
  {
    MonthsAscend(if IsLeap(s.year) then s.year + k else s.year, s.month + 1);
  }

  // Calendar years count exactly k iff the two years have the same length or
  // the window runs from New Year to New Year.
  lemma WholeYears(s: Stamp, k: int)
    requires ValidStamp(s) && ValidStamp(Anniversary(s, k))
    ensures Fraction(MomentOf(s), MomentOf(Anniversary(s, k))) == k as real
            <==> IsLeap(s.year) == IsLeap(s.year + k) || NewYear(s)
  {
    var a, b := MomentOf(s), MomentOf(Anniversary(s, k));
    assert a.offset == OffsetIn(s, IsLeap(s.year)) && b.offset == OffsetIn(s, IsLeap(s.year + k));
    EqualParts(a.offset, YearLength(a.year), b.offset, YearLength(b.year));
    if IsLeap(s.year) != IsLeap(s.year + k) {
      DayInBoth(s, k);
      CommonAndLeap(s);
    }
  }

  // From July to July across the start of a leap year is not a year.
  lemma JulyToJuly()
    ensures var july := Stamp(2023, 7, 1, 0);
            ValidStamp(july) && Fraction(MomentOf(july), MomentOf(Anniversary(july, 1))) != 1.0
  {
    WholeYears(Stamp(2023, 7, 1, 0), 1);
  }

  // The months of the calendar.
  lemma MonthLengths(year: int, month: int)
    requires 1 <= month <= 12
    ensures MonthStart(year, 1) == 0
    ensures MonthStart(year, month + 1) - MonthStart(year, month) ==
      if month == 2 then (if year % 4 == 0 && (year % 100 != 0 || year % 400 == 0) then 29 else 28)
      else if month in {4, 6, 9, 11} then 30 else 31
  {
  }

  // A year is its days of 86400 seconds, and an instant its share of that.
  lemma PositionIs(m: Moment)
    requires ValidMoment(m)
    ensures var days := if m.year % 4 == 0 && (m.year % 100 != 0 || m.year % 400 == 0) then 366 else 365;
      Position(m) == m.year as real + m.offset as real / (days * 86400000000) as real
  {
  }

  // Wall time counts microseconds from the first day of the calendar.
  lemma WallClockIs(m: Moment)
    requires ValidMoment(m)
    ensures var y := m.year - 1;
      WallClock(m) == (365 * y + y / 4 - y / 100 + y / 400) * 86400000000 + m.offset
  {
    DaysBeforeCount(m.year);
  }
}
