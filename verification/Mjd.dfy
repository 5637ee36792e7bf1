/** The conversion of a modified Julian day to a calendar date, against counting days on the calendar. */
module Mjd {

  datatype Date = Date(year: int, month: int, day: int)

  // ---- The Gregorian calendar from 1 March 2000 on ----

  predicate Leap(year: int) { year % 4 == 0 && (year % 100 != 0 || year % 400 == 0) }

  function DaysIn(year: int, month: int): int {
    if month == 2 then if Leap(year) then 29 else 28
    else if month == 4 || month == 6 || month == 9 || month == 11 then 30
    else 31
  }

  predicate Valid(d: Date) {
    && (d.year > 2000 || (d.year == 2000 && d.month >= 3))
    && 1 <= d.month <= 12 && 1 <= d.day <= DaysIn(d.year, d.month)
  }

  function NextDay(d: Date): (r: Date)
    requires Valid(d)
    ensures Valid(r)
  {
    if d.day < DaysIn(d.year, d.month) then Date(d.year, d.month, d.day + 1)
    else if d.month < 12 then Date(d.year, d.month + 1, 1)
    else Date(d.year + 1, 1, 1)
  }

  /** The calendar date `n` days after 1 March 2000. */
  function DateAfter(n: nat): (d: Date)
    ensures Valid(d)
  {
    if n == 0 then Date(2000, 3, 1) else NextDay(DateAfter(n - 1))
  }

  // ---- Day counts in closed form ----

  /** Days from 1 March 2000 to 1 March `y` years later. */
  function YearStart(y: int): int { 365 * y + y / 4 - y / 100 + y / 400 }

  /** Days from 1 March to the first of the month `m` months later. */
  function MonthStart(m: int): int
    requires 0 <= m <= 12
  {
    [0, 31, 61, 92, 122, 153, 184, 214, 245, 275, 306, 337, 366][m]
  }

  /** Years that begin in March, counted from 2000. */
  function MarchYear(d: Date): int { if d.month >= 3 then d.year - 2000 else d.year - 2001 }

  /** Months counted from March. */
  function MarchMonth(d: Date): (m: int)
    requires 1 <= d.month <= 12
    ensures 0 <= m < 12
  {
    if d.month >= 3 then d.month - 3 else d.month + 9
  }

  function DayInYear(d: Date): int
    requires 1 <= d.month <= 12
  {
    MonthStart(MarchMonth(d)) + d.day - 1
  }

  function DayCount(d: Date): int
    requires 1 <= d.month <= 12
  {
    YearStart(MarchYear(d)) + DayInYear(d)
  }

  lemma NextDayCounts(d: Date)
    requires Valid(d)
    ensures DayCount(NextDay(d)) == DayCount(d) + 1
  {
    if d.month == 2 && d.day == DaysIn(d.year, 2) {
      YearLength(d.year - 2001);
    }
  }

  /** A year from March to March has the length its last February gives it. */
  lemma YearLength(y: int)
    ensures YearStart(y + 1) - YearStart(y) == if Leap(2001 + y) then 366 else 365
  {
    Quotients4(y);
    Quotients100(y);
    Quotients400(y);
    CenturiesDivide(2001 + y);
  }

  lemma Quotients4(y: int)
    ensures (y + 1) / 4 == y / 4 + if (2001 + y) % 4 == 0 then 1 else 0
  {
  }

  lemma Quotients100(y: int)
    ensures (y + 1) / 100 == y / 100 + if (2001 + y) % 100 == 0 then 1 else 0
  {
  }

  lemma Quotients400(y: int)
    ensures (y + 1) / 400 == y / 400 + if (2001 + y) % 400 == 0 then 1 else 0
  {
  }

  lemma CenturiesDivide(year: int)
    ensures year % 400 == 0 ==> year % 100 == 0
    ensures year % 100 == 0 ==> year % 4 == 0
  {
    var k, q, f := year / 400, year / 100, year / 4;
    if year % 400 == 0 {
      assert year % 100 == 100 * (4 * k - q);
    }
    if year % 100 == 0 {
      assert year % 4 == 4 * (25 * q - f);
    }
  }

  lemma {:induction false} CountOfDateAfter(n: nat)
    ensures DayCount(DateAfter(n)) == n
  {
    if n > 0 {
      hide DayCount, NextDay;
      CountOfDateAfter(n - 1);
      NextDayCounts(DateAfter(n - 1));
    } else {
      assert YearStart(0) == 0;
    }
  }

  lemma YearBounds(d: Date)
    requires Valid(d)
    ensures 0 <= DayInYear(d) < YearStart(MarchYear(d) + 1) - YearStart(MarchYear(d))
    ensures MarchYear(d) >= 0
  {
    YearLength(MarchYear(d));
  }

  lemma {:induction false} YearsOrdered(a: int, b: int)
    requires a < b
    ensures YearStart(a + 1) <= YearStart(b)
    decreases b - a
  {
    if a + 1 < b {
      hide YearStart, Leap;
      YearsOrdered(a, b - 1);
      YearLength(b - 1);
    }
  }

  /** Different dates have different counts. */
  lemma CountsDiffer(d: Date, e: Date)
    requires Valid(d) && Valid(e) && DayCount(d) == DayCount(e)
    ensures d == e
  {
    hide YearStart;
    YearBounds(d);
    YearBounds(e);
    if MarchYear(d) < MarchYear(e) {
      YearsOrdered(MarchYear(d), MarchYear(e));
    } else if MarchYear(e) < MarchYear(d) {
      YearsOrdered(MarchYear(e), MarchYear(d));
    }
    SameYear(d, e);
  }

  lemma SameYear(d: Date, e: Date)
    requires Valid(d) && Valid(e) && MarchYear(d) == MarchYear(e) && DayInYear(d) == DayInYear(e)
    ensures d == e
  {
    MonthRoom(d);
    MonthRoom(e);
  }

  lemma MonthRoom(d: Date)
    requires Valid(d)
    ensures MonthStart(MarchMonth(d)) <= DayInYear(d) < MonthStart(MarchMonth(d) + 1)
  {
  }

  // ---- The month formulas ----

  function MonthFormula(day: int): int { (1071 * day + 450) / 32768 }

  function StartFormula(month: int): int { (979 * month + 16) / 32 }

  /** The shift-multiply formulas are exact for every day of a year. */
  lemma MonthFormulasExact(day: int)
    requires 0 <= day <= 365
    ensures 0 <= MonthFormula(day) < 12
    ensures StartFormula(MonthFormula(day)) == MonthStart(MonthFormula(day))
    ensures MonthStart(MonthFormula(day)) <= day < MonthStart(MonthFormula(day) + 1)
  {
  }

  // ---- The conversion ----

  const EPOCH := 51604

  /** Days since 1 March 2000, days before it taken as a sixteen-bit count that has wrapped. */
  function Offset(mjd: int): int { if mjd < EPOCH then mjd - EPOCH + 0x10000 else mjd - EPOCH }

  /** The last day of a period of four hundred years: 29 February. */
  predicate LastOfPeriod(n: int) { n % 146097 == 146096 }

  /** Years since 2000, split as the conversion splits them. */
  lemma YearStartSplit(a1: nat, a2: nat, a3: nat, a4: nat)
    requires a2 <= 4 && a3 <= 24 && a4 <= 3 && (a2 == 4 ==> a3 == 0 && a4 == 0)
    ensures a2 < 4 ==> YearStart(400 * a1 + 100 * a2 + 4 * a3 + a4) == 146097 * a1 + 36524 * a2 + 1461 * a3 + 365 * a4
    ensures a2 == 4 ==> YearStart(400 * a1 + 400) == 146097 * a1 + 146097
  {
    var y := 400 * a1 + 100 * a2 + 4 * a3 + a4;
    assert y / 4 == 100 * a1 + 25 * a2 + a3;
    if a2 < 4 {
      assert y / 100 == 4 * a1 + a2;
      assert y / 400 == a1;
    }
  }

  /** The 366th day of a split year is there only in a leap year. */
  lemma LongYear(a1: nat, a2: nat, a3: nat)
    requires a2 <= 3 && a3 <= 24 && 1461 * a3 + 1460 < 36524
    ensures Leap(2001 + 400 * a1 + 100 * a2 + 4 * a3 + 3)
  {
    var y := 2001 + 400 * a1 + 100 * a2 + 4 * a3 + 3;
    assert a3 < 24;
    assert y % 4 == 0;
    assert y == 100 * (20 + 4 * a1 + a2) + 4 * a3 + 4;
    assert y % 100 == 4 * a3 + 4;
  }

  /** The date on day `day` of the year that begins in March `y` years after 2000. */
  function DateIn(y: nat, day: nat): Date
    requires day <= 365
  {
    var m := MonthFormula(day);
    var d := day - StartFormula(m) + 1;
    if m + 3 > 12 then Date(2001 + y, m - 9, d) else Date(2000 + y, m + 3, d)
  }

  lemma DateInYear(y: nat, day: nat)
    requires day <= 365 && (day == 365 ==> Leap(2001 + y))
    ensures Valid(DateIn(y, day)) && DayCount(DateIn(y, day)) == YearStart(y) + day
  {
    hide YearStart, MonthFormula, StartFormula;
    MonthFormulasExact(day);
  }

  /** The split of a day count: periods of 400, 100, 4 and 1 years, and the day in the year. */
  datatype Split = Split(a1: nat, a2: nat, a3: nat, a4: nat, day: nat)

  function SplitOf(n: nat): (s: Split)
    ensures s.a2 <= 4 && s.a3 <= 24 && s.a4 <= 3 && s.day <= 365
    ensures n == 146097 * s.a1 + 36524 * s.a2 + 1461 * s.a3 + 365 * s.a4 + s.day
    ensures s.a2 == 4 ==> s.a3 == 0 && s.a4 == 0 && s.day == 0 && LastOfPeriod(n)
    ensures s.a2 < 4 ==> !LastOfPeriod(n) && (s.day == 365 ==> s.a4 == 3 && 1461 * s.a3 + 1460 < 36524)
  {
    var a1, m1 := n / 146097, n % 146097;
    var a2 := m1 / 36524;
    var m2 := m1 - a2 * 36524;
    var a3 := m2 / 1461;
    var m3 := m2 - a3 * 1461;
    var a4 := if m3 / 365 > 3 then 3 else m3 / 365;
    Split(a1, a2, a3, a4, m3 - a4 * 365)
  }

  function SplitDate(s: Split): Date
    requires s.day <= 365
  {
    DateIn(400 * s.a1 + 100 * s.a2 + 4 * s.a3 + s.a4, s.day)
  }

  /** The date of a split is the date its day count says, and one day late on the last day of a period. */
  lemma SplitDateIs(n: nat)
    ensures Valid(SplitDate(SplitOf(n)))
    ensures SplitDate(SplitOf(n)) == DateAfter(if LastOfPeriod(n) then n + 1 else n)
  {
    hide SplitOf, YearStart, DateIn, DateAfter, LastOfPeriod, DayCount;
    var s := SplitOf(n);
    YearStartSplit(s.a1, s.a2, s.a3, s.a4);
    if s.day == 365 {
      LongYear(s.a1, s.a2, s.a3);
    }
    DateInYear(400 * s.a1 + 100 * s.a2 + 4 * s.a3 + s.a4, s.day);
    var k := if LastOfPeriod(n) then n + 1 else n;
    CountOfDateAfter(k);
    CountsDiffer(SplitDate(s), DateAfter(k));
  }

  /** So the result is right exactly on the other days. */
  lemma RightExactlyWhen(n: nat)
    ensures SplitDate(SplitOf(n)) == DateAfter(n) <==> !LastOfPeriod(n)
  {
    hide SplitOf, SplitDate, DateAfter, LastOfPeriod;
    SplitDateIs(n);
    CountOfDateAfter(n);
    CountOfDateAfter(n + 1);
  }

  /** Sixteen-bit day counts, less at most 256 days, never meet the day that fails. */
  lemma CallersSafe(mjd: int)
    requires -256 <= mjd <= 0xffff + 254
    ensures Offset(mjd) >= 0 && !LastOfPeriod(Offset(mjd))
  {
  }

  /** Known days: 51604 is 1 March 2000, 58849 is 1 January 2020, and the wrapped count 0 is 23 April 2038. */
  lemma KnownDays()
    ensures Offset(51604) == 0 && DateAfter(0) == Date(2000, 3, 1)
    ensures Offset(58849) >= 0 && DateAfter(Offset(58849)) == Date(2020, 1, 1)
    ensures Offset(0) >= 0 && DateAfter(Offset(0)) == Date(2038, 4, 23)
  {
    hide DateAfter, DayCount;
    FirstDay();
    CountsOfKnownDays();
    DateWithCount(7245, Date(2020, 1, 1));
    DateWithCount(13932, Date(2038, 4, 23));
  }

  lemma CountsOfKnownDays()
    ensures DayCount(Date(2020, 1, 1)) == 7245 && DayCount(Date(2038, 4, 23)) == 13932
  {
  }

  lemma DateWithCount(n: nat, d: Date)
    requires Valid(d) && DayCount(d) == n
    ensures DateAfter(n) == d
  {
    hide DateAfter, DayCount, Valid;
    CountOfDateAfter(n);
    CountsDiffer(d, DateAfter(n));
  }

  lemma FirstDay()
    ensures DateAfter(0) == Date(2000, 3, 1)
  {
  }

  /** The first half of `extract_mjd`: the day count is split. */
  method SplitDays(mjd: nat) returns (a1: nat, a2: nat, a3: nat, a4: nat, m4: nat)
    ensures Split(a1, a2, a3, a4, m4) == SplitOf(mjd)
  {
    hide LastOfPeriod;
    var m1 := mjd % 146097;
    a1 := mjd / 146097;
    a2 := m1 / 36524;
    var m2 := m1 - a2 * 36524;
    a3 := m2 / 1461;
    var m3 := m2 - a3 * 1461;
    a4 := m3 / 365;
    if a4 > 3 {
      a4 := 3;
    }
    m4 := m3 - a4 * 365;
  }

  /** The second half: month, day and year from the split. */
  method JoinDate(a1: nat, a2: nat, a3: nat, a4: nat, m4: nat) returns (yy: int, mm: int, dd: int)
    requires m4 <= 365
    ensures Date(yy, mm, dd) == SplitDate(Split(a1, a2, a3, a4, m4))
  {
    var mw := (1071 * m4 + 450) / 32768;
    var dw := m4 - (979 * mw + 16) / 32;
    var yw := a1 * 400 + a2 * 100 + a3 * 4 + a4 + 2000;
    mw := mw + 3;
    if mw > 12 {
      mw := mw - 12;
      yw := yw + 1;
    }
    dw := dw + 1;
    yy, mm, dd := yw, mw, dw;
  }

  /** `extract_mjd` finds the date of every day but the last of a period, and there it is one day late. */
  method Extract(mjd0: int) returns (yy: int, mm: int, dd: int)
    requires Offset(mjd0) >= 0
    ensures Valid(Date(yy, mm, dd))
    ensures !LastOfPeriod(Offset(mjd0)) ==> Date(yy, mm, dd) == DateAfter(Offset(mjd0))
    ensures LastOfPeriod(Offset(mjd0)) ==> Date(yy, mm, dd) == DateAfter(Offset(mjd0) + 1)
  {
    hide DateAfter, LastOfPeriod, SplitOf, SplitDate, Valid;
    var mjd := mjd0 - EPOCH;
    if mjd < 0 {
      mjd := mjd + 0x10000;
    }
    SplitDateIs(mjd);
    var a1, a2, a3, a4, m4 := SplitDays(mjd);
    yy, mm, dd := JoinDate(a1, a2, a3, a4, m4);
  }
}
