/** Calendar arithmetic (src/PqUtils.cpp) against the proleptic Gregorian calendar itself. */
module PqUtils {

  /** C++ division truncates toward zero. */
  function Quot(a: int, b: int): int
    requires b > 0
  {
    if a >= 0 then a / b else -(-a / b)
  }

  function Era(y: int): int {
    Quot(if y >= 0 then y else y - 399, 400)
  }

  function YearOfEra(y: int): int {
    y - Era(y) * 400
  }

  /** Day of the year that starts in March, from 0. */
  function DayOfMarchYear(m: int, d: int): int {
    Quot(153 * (m + if m > 2 then -3 else 9) + 2, 5) + d - 1
  }

  function DayOfEra(y: int, m: int, d: int): int {
    var yoe := YearOfEra(y);
    yoe * 365 + Quot(yoe, 4) - Quot(yoe, 100) + DayOfMarchYear(m, d)
  }

  function DaysFromCivil(y: int, m: int, d: int): int {
    var y' := if m <= 2 then y - 1 else y;
    Era(y') * 146097 + DayOfEra(y', m, d) - 719468
  }

  // ----- The calendar -----

  datatype Date = Date(y: int, m: int, d: int)

  predicate Leap(y: int) {
    y % 4 == 0 && (y % 100 != 0 || y % 400 == 0)
  }

  function DaysInMonth(y: int, m: int): int
    requires 1 <= m <= 12
  {
    if m == 2 then (if Leap(y) then 29 else 28)
    else if m in {4, 6, 9, 11} then 30
    else 31
  }

  predicate IsDate(t: Date) {
    1 <= t.m <= 12 && 1 <= t.d <= DaysInMonth(t.y, t.m)
  }

  function Tomorrow(t: Date): (u: Date)
    requires IsDate(t)
    ensures IsDate(u)
  {
    if t.d < DaysInMonth(t.y, t.m) then Date(t.y, t.m, t.d + 1)
    else if t.m < 12 then Date(t.y, t.m + 1, 1)
    else Date(t.y + 1, 1, 1)
  }

  function Yesterday(t: Date): (u: Date)
    requires IsDate(t)
    ensures IsDate(u) && Tomorrow(u) == t
  {
    if t.d > 1 then Date(t.y, t.m, t.d - 1)
    else if t.m > 1 then Date(t.y, t.m - 1, DaysInMonth(t.y, t.m - 1))
    else Date(t.y - 1, 12, 31)
  }

  const EPOCH := Date(1970, 1, 1)

  /** The date reached by walking the calendar `n` days from the epoch, backwards if `n` is negative. */
  function Walk(n: int): (t: Date)
    ensures IsDate(t)
    decreases if n < 0 then -n else n
  {
    if n == 0 then EPOCH
    else if n > 0 then Tomorrow(Walk(n - 1))
    else Yesterday(Walk(n + 1))
  }

  function Days(t: Date): int {
    DaysFromCivil(t.y, t.m, t.d)
  }

  predicate Before(t: Date, u: Date) {
    t.y < u.y || (t.y == u.y && (t.m < u.m || (t.m == u.m && t.d < u.d)))
  }

  /** Leap years from year 1 up to year `y`, counted backwards for earlier years. */
  function LeapYears(y: int): int {
    y / 4 - y / 100 + y / 400
  }

  // ----- The code counts calendar days -----

  /** The eras computed with truncating division are floors, and they add up to the usual leap-year count. */
  lemma EraIsFloor(y: int)
    ensures Era(y) == y / 400 && 0 <= YearOfEra(y) <= 399
    ensures var yoe := YearOfEra(y);
      Era(y) * 146097 + yoe * 365 + Quot(yoe, 4) - Quot(yoe, 100) == 365 * y + LeapYears(y)
  {
    if y < 0 {
      assert -(-(y - 399) / 400) == y / 400;
    }
    var e, yoe := y / 400, y - y / 400 * 400;
    assert y == 400 * e + yoe;
    assert y / 4 == 100 * e + yoe / 4;
    assert y / 100 == 4 * e + yoe / 100;
  }

  /** Days from 1 March to the first of the month. */
  function MonthStart(m: int): int
    requires 1 <= m <= 12
  {
    [306, 337, 0, 31, 61, 92, 122, 153, 184, 214, 245, 275][m - 1]
  }

  lemma Unfolded(t: Date)
    requires 1 <= t.m <= 12
    ensures var y := if t.m <= 2 then t.y - 1 else t.y;
      Days(t) == 365 * y + LeapYears(y) + MonthStart(t.m) + t.d - 1 - 719468
  {
    EraIsFloor(if t.m <= 2 then t.y - 1 else t.y);
  }

  lemma FourStep(y: int)
    ensures y / 4 == (y - 1) / 4 + if y % 4 == 0 then 1 else 0
  {
  }

  lemma HundredStep(y: int)
    ensures y / 100 == (y - 1) / 100 + if y % 100 == 0 then 1 else 0
  {
  }

  lemma FourHundredStep(y: int)
    ensures y / 400 == (y - 1) / 400 + if y % 400 == 0 then 1 else 0
  {
  }

  lemma LeapCases(y: int)
    ensures Leap(y) <==> (y % 4 == 0 && y % 100 != 0) || y % 400 == 0
    ensures y % 400 == 0 ==> y % 100 == 0
    ensures y % 100 == 0 ==> y % 4 == 0
  {
  }

  lemma LeapStep(y: int)
    ensures LeapYears(y) == LeapYears(y - 1) + if Leap(y) then 1 else 0
  {
    hide Leap;
    FourStep(y);
    HundredStep(y);
    FourHundredStep(y);
    LeapCases(y);
  }

  /** The ranges the source gives in comments; and no intermediate leaves 32 bits for years up to five million. */
  lemma Ranges(t: Date)
    requires IsDate(t)
    ensures var y' := if t.m <= 2 then t.y - 1 else t.y;
      && 0 <= YearOfEra(y') <= 399
      && 0 <= DayOfMarchYear(t.m, t.d) <= 365
      && 0 <= DayOfEra(y', t.m, t.d) <= 146096
      && (-5_000_000 <= t.y <= 5_000_000 ==> -0x8000_0000 <= Era(y') * 146097 - 719468 && Era(y') * 146097 + 146096 < 0x8000_0000)
  {
    EraIsFloor(if t.m <= 2 then t.y - 1 else t.y);
    assert DayOfMarchYear(t.m, t.d) == MonthStart(t.m) + t.d - 1;
  }

  /** The calendar successor of a date is one day later, in every year. */
  lemma TomorrowIsOneMore(t: Date)
    requires IsDate(t)
    ensures Days(Tomorrow(t)) == Days(t) + 1
  {
    hide Days, LeapYears, Leap;
    Unfolded(t);
    Unfolded(Tomorrow(t));
    LeapStep(t.y);
  }

  /** The code inverts walking the calendar: the day number of the n-th date from the epoch is n. */
  lemma {:induction false} DaysOfWalk(n: int)
    ensures Days(Walk(n)) == n
    decreases if n < 0 then -n else n
  {
    if n > 0 {
      DaysOfWalk(n - 1);
      TomorrowIsOneMore(Walk(n - 1));
    } else if n < 0 {
      DaysOfWalk(n + 1);
      TomorrowIsOneMore(Walk(n));
    } else {
      assert Days(EPOCH) == 0;
    }
  }

  // ----- Order -----

  /** Day of the year, from 0, as `tm_yday`. */
  function DayOfYear(t: Date): int
    requires 1 <= t.m <= 12
  {
    [0, 31, 59, 90, 120, 151, 181, 212, 243, 273, 304, 334][t.m - 1] + (if t.m > 2 && Leap(t.y) then 1 else 0) + t.d - 1
  }

  function YearStart(y: int): int {
    Days(Date(y, 1, 1))
  }

  lemma SplitAtYear(t: Date)
    requires IsDate(t)
    ensures Days(t) == YearStart(t.y) + DayOfYear(t)
    ensures YearStart(t.y + 1) == YearStart(t.y) + 365 + (if Leap(t.y) then 1 else 0)
    ensures YearStart(t.y) <= Days(t) < YearStart(t.y + 1)
  {
    hide Days, LeapYears, Leap;
    Unfolded(t);
    Unfolded(Date(t.y, 1, 1));
    Unfolded(Date(t.y + 1, 1, 1));
    LeapStep(t.y);
  }

  lemma {:induction false} YearsAscend(y: int, z: int)
    requires y <= z
    ensures YearStart(y) <= YearStart(z)
    decreases z - y
  {
    if y < z {
      SplitAtYear(Date(z - 1, 1, 1));
      YearsAscend(y, z - 1);
    }
  }

  /** Later dates have larger numbers, across all years, negative ones included. */
  lemma DaysAscend(t: Date, u: Date)
    requires IsDate(t) && IsDate(u)
    ensures Before(t, u) <==> Days(t) < Days(u)
  {
    DaysAscendOneWay(t, u);
    DaysAscendOneWay(u, t);
  }

  lemma DaysAscendOneWay(t: Date, u: Date)
    requires IsDate(t) && IsDate(u)
    ensures Before(t, u) ==> Days(t) < Days(u)
  {
    hide Days, YearStart, Leap;
    SplitAtYear(t);
    SplitAtYear(u);
    if t.y < u.y {
      YearsAscend(t.y + 1, u.y);
    }
  }

  /** Walking the calendar is the inverse: every date is the one reached after as many days as it is numbered. */
  lemma WalkOfDays(t: Date)
    requires IsDate(t)
    ensures Walk(Days(t)) == t
  {
    DaysOfWalk(Days(t));
    DaysAscend(t, Walk(Days(t)));
    DaysAscend(Walk(Days(t)), t);
  }

  // ----- Times -----

  /** Broken-down time with the offsets of `struct tm`: years from 1900, months from 0. */
  datatype Tm = Tm(year: int, mon: int, mday: int, hour: int, min: int, sec: int)

  function TmToTimeT(tm: Tm): int {
    DaysFromCivil(tm.year + 1900, tm.mon + 1, tm.mday) * 86400 + tm.hour * 60 * 60 + tm.min * 60 + tm.sec
  }

  function DateOf(tm: Tm): Date {
    Date(tm.year + 1900, tm.mon + 1, tm.mday)
  }

  predicate IsTm(tm: Tm) {
    IsDate(DateOf(tm)) && 0 <= tm.hour < 24 && 0 <= tm.min < 60 && 0 <= tm.sec < 60
  }

  /** "Seconds Since the Epoch", section 4.16 of the POSIX.1-2017 Base Definitions. */
  function SecondsSinceEpoch(tm: Tm): int
    requires 0 <= tm.mon < 12
  {
    var yday := DayOfYear(DateOf(tm));
    tm.sec + tm.min * 60 + tm.hour * 3600 + yday * 86400 +
    (tm.year - 70) * 31536000 + ((tm.year - 69) / 4) * 86400 -
    ((tm.year - 1) / 100) * 86400 + ((tm.year + 299) / 400) * 86400
  }

  lemma DaysOf(t: Date)
    ensures Days(t) == DaysFromCivil(t.y, t.m, t.d)
  {
  }

  lemma YearStartFrom1970(y: int)
    requires 1970 <= y
    ensures YearStart(y) == (y - 1970) * 365 + (y - 1969) / 4 - (y - 1901) / 100 + (y - 1601) / 400
  {
    hide Days;
    Unfolded(Date(y, 1, 1));
    assert (y - 1) / 4 == (y - 1969) / 4 + 492;
    assert (y - 1) / 100 == (y - 1901) / 100 + 19;
    assert (y - 1) / 400 == (y - 1601) / 400 + 4;
  }

  /** From the epoch on, the code computes the formula of the standard; for a leap second too. */
  lemma TmIsPosix(tm: Tm)
    requires IsDate(DateOf(tm)) && 70 <= tm.year
    ensures TmToTimeT(tm) == SecondsSinceEpoch(tm)
  {
    hide Days, DayOfYear, IsDate;
    var t := DateOf(tm);
    SplitAtYear(t);
    YearStartFrom1970(t.y);
    assert DaysFromCivil(t.y, t.m, t.d) == Days(t) by { DaysOf(t); }
  }

  predicate EarlierTm(a: Tm, b: Tm) {
    || Before(DateOf(a), DateOf(b))
    || (DateOf(a) == DateOf(b) &&
        (a.hour < b.hour || (a.hour == b.hour && (a.min < b.min || (a.min == b.min && a.sec < b.sec)))))
  }

  /** Time stamps are ordered as their fields are, in every year. */
  lemma TmAscends(a: Tm, b: Tm)
    requires IsTm(a) && IsTm(b)
    ensures EarlierTm(a, b) <==> TmToTimeT(a) < TmToTimeT(b)
  {
    hide DaysFromCivil, Before;
    DaysAscend(DateOf(a), DateOf(b));
    DaysAscend(DateOf(b), DateOf(a));
    Trichotomy(DateOf(a), DateOf(b));
  }

  lemma Trichotomy(t: Date, u: Date)
    ensures Before(t, u) || t == u || Before(u, t)
  {
  }
}
