/**
 Subscription periods: the date arithmetic of ECMA-262 (section 21.4.1) on days since 1970, the
 overflow rules of `setMonth` and `setFullYear`, and how long each billing cycle then lasts.
 */
module BillingPeriod {
  predicate Leap(y: int) {
    y % 4 == 0 && (y % 100 != 0 || y % 400 == 0)
  }

  function YearDays(y: int): nat {
    if Leap(y) then 366 else 365
  }

  /** The day number of 1 January, counted year by year from 1970. */
  function DayFromYear(y: int): int
    decreases if y < 1970 then 1970 - y else y - 1970
  {
    if y == 1970 then 0
    else if y > 1970 then DayFromYear(y - 1) + YearDays(y - 1)
    else DayFromYear(y + 1) - YearDays(y)
  }

  lemma {:induction false} YearLength(y: int)
    ensures DayFromYear(y + 1) - DayFromYear(y) == YearDays(y)
  {}

  lemma {:induction false} Fourths(y: int)
    ensures (y - 1968) / 4 - (y - 1969) / 4 == if y % 4 == 0 then 1 else 0
  {}

  lemma {:induction false} Hundredths(y: int)
    ensures (y - 1900) / 100 - (y - 1901) / 100 == if y % 100 == 0 then 1 else 0
  {}

  lemma {:induction false} FourHundredths(y: int)
    ensures (y - 1600) / 400 - (y - 1601) / 400 == if y % 400 == 0 then 1 else 0
  {}

  /** DayFromYear of ECMA-262. */
  function EcmaDayFromYear(y: int): int {
    365 * (y - 1970) + (y - 1969) / 4 - (y - 1901) / 100 + (y - 1601) / 400
  }

  lemma {:induction false} EcmaYearLength(y: int)
    ensures EcmaDayFromYear(y + 1) - EcmaDayFromYear(y) == YearDays(y)
  {
    Fourths(y);
    Hundredths(y);
    FourHundredths(y);
    assert y % 400 == 0 ==> y % 100 == 0;
    assert y % 100 == 0 ==> y % 4 == 0;
  }

  /** Counting year by year gives the closed form the standard defines. */
  lemma {:induction false} DayFromYearIsEcma(y: int)
    ensures DayFromYear(y) == EcmaDayFromYear(y)
    decreases if y < 1970 then 1970 - y else y - 1970
  {
    if y > 1970 {
      DayFromYearIsEcma(y - 1);
      EcmaYearLength(y - 1);
    } else if y < 1970 {
      DayFromYearIsEcma(y + 1);
      EcmaYearLength(y);
    }
  }

  /** Days before month `m` (0 is January) of a year; `m == 12` gives the whole year. */
  function Cumulative(leap: bool, m: nat): nat
    requires m <= 12
  {
    (if m == 0 then 0 else if m == 1 then 31 else if m == 2 then 59 else if m == 3 then 90
     else if m == 4 then 120 else if m == 5 then 151 else if m == 6 then 181 else if m == 7 then 212
     else if m == 8 then 243 else if m == 9 then 273 else if m == 10 then 304 else if m == 11 then 334
     else 365) + if m >= 2 && leap then 1 else 0
  }

  function MonthStart(y: int, m: nat): nat
    requires m <= 12
  {
    Cumulative(Leap(y), m)
  }

  function MonthLength(y: int, m: nat): (len: nat)
    requires m < 12
    ensures 28 <= len <= 31
  {
    MonthStart(y, m + 1) - MonthStart(y, m)
  }

  /** Thirty days have September, April, June and November (months count from 0). */
  lemma {:induction false} MonthLengths(y: int, m: nat)
    requires m < 12
    ensures MonthLength(y, m) ==
            if m in {3, 5, 8, 10} then 30 else if m != 1 then 31 else if Leap(y) then 29 else 28
    ensures Leap(y) <==> y % 4 == 0 && (y % 100 == 0 ==> y % 400 == 0)
  {}

  /** MakeDay: months and days may run over; the surplus moves on. */
  function MakeDay(y: int, m: int, d: int): int {
    DayFromYear(y + m / 12) + MonthStart(y + m / 12, m % 12) + d - 1
  }

  lemma {:induction false} MonthRunsOn(y: int, m: int, d: int)
    ensures MakeDay(y, m + 1, d) == MakeDay(y, m, d) + MonthLength(y + m / 12, m % 12)
  {
    var y', m' := y + m / 12, m % 12;
    YearLength(y');
    if m' == 11 {
      assert (m + 1) / 12 == m / 12 + 1 && (m + 1) % 12 == 0;
      assert MakeDay(y, m + 1, d) == DayFromYear(y' + 1) + d - 1;
    } else {
      assert (m + 1) / 12 == m / 12 && (m + 1) % 12 == m' + 1;
    }
  }

  /** How months and days run over: day by day, month by month, and twelve months to a year;
      1 January 1970 is day 0. */
  lemma {:induction false} MakeDayRunsOver(y: int, m: int, d: int)
    ensures MakeDay(1970, 0, 1) == 0
    ensures MakeDay(y, m, d + 1) == MakeDay(y, m, d) + 1
    ensures MakeDay(y, m + 12, d) == MakeDay(y + 1, m, d)
    ensures MakeDay(y, m + 1, d) == MakeDay(y, m, d) + MonthLength(y + m / 12, m % 12)
  {
    assert (m + 12) / 12 == m / 12 + 1 && (m + 12) % 12 == m % 12;
    MonthRunsOn(y, m, d);
  }

  // ----- Reading a day number -----

  /** Walks from year `y` to the year day `n` lies in. */
  function YearFrom(n: int, y: int): (r: int)
    ensures DayFromYear(r) <= n < DayFromYear(r + 1)
    decreases if n < DayFromYear(y) then DayFromYear(y) - n
              else if n >= DayFromYear(y + 1) then n - DayFromYear(y + 1) + 1 else 0
  {
    YearLength(y - 1);
    YearLength(y);
    YearLength(y + 1);
    if n < DayFromYear(y) then YearFrom(n, y - 1)
    else if n >= DayFromYear(y + 1) then YearFrom(n, y + 1)
    else y
  }

  function MonthFrom(y: int, dayInYear: nat, m: nat): (r: nat)
    requires m < 12 && MonthStart(y, m) <= dayInYear < MonthStart(y, 12)
    ensures r < 12 && MonthStart(y, r) <= dayInYear < MonthStart(y, r + 1)
    decreases 12 - m
  {
    if dayInYear < MonthStart(y, m + 1) then m else MonthFrom(y, dayInYear, m + 1)
  }

  datatype Fields = Fields(year: int, month: nat, date: nat)

  predicate Real(f: Fields) {
    f.month < 12 && 1 <= f.date <= MonthLength(f.year, f.month)
  }

  /** The day number of a date whose month does not run over. */
  function DayOf(f: Fields): int
    requires f.month < 12
  {
    DayFromYear(f.year) + MonthStart(f.year, f.month) + f.date - 1
  }

  /** The date of day `dayInYear`, counted from 0, of a year. */
  function FieldsIn(y: int, dayInYear: nat): (f: Fields)
    requires dayInYear < MonthStart(y, 12)
    ensures Real(f) && f.year == y && MonthStart(y, f.month) + f.date - 1 == dayInYear
  {
    var m := MonthFrom(y, dayInYear, 0);
    Fields(y, m, dayInYear - MonthStart(y, m) + 1)
  }

  /** The calendar date of a day number. */
  function FieldsOf(n: int): (f: Fields)
    ensures Real(f) && DayOf(f) == n
  {
    var y := YearFrom(n, 1970);
    YearLength(y);
    FieldsIn(y, n - DayFromYear(y))
  }

  lemma {:induction false} YearsAreOrdered(a: int, b: int)
    requires a < b
    ensures DayFromYear(a + 1) <= DayFromYear(b)
    decreases b - a
  {
    if a + 1 < b {
      YearsAreOrdered(a, b - 1);
      YearLength(b - 1);
    }
  }

  lemma {:induction false} MakesDayOf(f: Fields)
    requires f.month < 12
    ensures MakeDay(f.year, f.month, f.date) == DayOf(f)
  {
    assert f.month / 12 == 0 && f.month % 12 == f.month;
  }

  /** A real date lies in its own year. */
  lemma {:induction false} RealDay(f: Fields)
    requires Real(f)
    ensures DayFromYear(f.year) <= DayOf(f) < DayFromYear(f.year + 1)
  {
    YearLength(f.year);
  }

  lemma {:induction false} MonthsAreOrdered(leap: bool, m: nat, k: nat)
    requires m < k <= 12
    ensures Cumulative(leap, m + 1) <= Cumulative(leap, k)
  {}

  lemma {:induction false} SameYear(f: Fields, g: Fields)
    requires Real(f) && Real(g)
    requires DayOf(f) == DayOf(g)
    ensures f.year == g.year
  {
    RealDay(f);
    RealDay(g);
    if f.year < g.year {
      YearsAreOrdered(f.year, g.year);
    } else if g.year < f.year {
      YearsAreOrdered(g.year, f.year);
    }
  }

  lemma {:induction false} SameMonth(leap: bool, m: nat, d: nat, m': nat, d': nat)
    requires m < 12 && m' < 12 && 1 <= d && 1 <= d'
    requires Cumulative(leap, m) + d <= Cumulative(leap, m + 1) && Cumulative(leap, m') + d' <= Cumulative(leap, m' + 1)
    requires Cumulative(leap, m) + d == Cumulative(leap, m') + d'
    ensures m == m' && d == d'
  {
    if m < m' {
      MonthsAreOrdered(leap, m, m');
    } else if m' < m {
      MonthsAreOrdered(leap, m', m);
    }
  }

  /** A day number has only one calendar date. */
  lemma {:induction false} SameDate(f: Fields, g: Fields)
    requires Real(f) && Real(g)
    requires DayOf(f) == DayOf(g)
    ensures f == g
  {
    SameYear(f, g);
    SameMonth(Leap(f.year), f.month, f.date, g.month, g.date);
  }

  /** Reading back what `MakeDay` made of a real date gives the same date. */
  lemma {:induction false} FieldsRoundTrip(f: Fields)
    requires Real(f)
    ensures FieldsOf(MakeDay(f.year, f.month, f.date)) == f
  {
    MakesDayOf(f);
    SameDate(f, FieldsOf(DayOf(f)));
  }

  // ----- The mutable date -----

  /** A date as the source mutates it: a day number and the time within the day. */
  class JsDate {
    var day: int
    var msInDay: nat

    constructor (day: int, msInDay: nat)
      ensures this.day == day && this.msInDay == msInDay
    {
      this.day, this.msInDay := day, msInDay;
    }

    method SetMonth(month: int)
      modifies this
      ensures var f := FieldsOf(old(day)); day == MakeDay(f.year, month, f.date) && msInDay == old(msInDay)
    {
      var f := FieldsOf(day);
      day := MakeDay(f.year, month, f.date);
    }

    method SetFullYear(year: int)
      modifies this
      ensures var f := FieldsOf(old(day)); day == MakeDay(year, f.month, f.date) && msInDay == old(msInDay)
    {
      var f := FieldsOf(day);
      day := MakeDay(year, f.month, f.date);
    }
  }

  datatype BillingCycle = MONTHLY | QUARTERLY | YEARLY | ONE_TIME

  function MonthsOn(f: Fields, months: nat): int {
    MakeDay(f.year, f.month + months, f.date)
  }

  function YearsOn(f: Fields, years: nat): int {
    MakeDay(f.year + years, f.month, f.date)
  }

  function EndDay(cycle: BillingCycle, f: Fields): int {
    match cycle
    case MONTHLY => MonthsOn(f, 1)
    case QUARTERLY => MonthsOn(f, 3)
    case YEARLY => YearsOn(f, 1)
    case ONE_TIME => YearsOn(f, 10)
  }

  /** The year and month the cycle leads to; the month may run over December. */
  function Target(cycle: BillingCycle, f: Fields): (int, nat) {
    match cycle
    case MONTHLY => (f.year, f.month + 1)
    case QUARTERLY => (f.year, f.month + 3)
    case YEARLY => (f.year + 1, f.month)
    case ONE_TIME => (f.year + 10, f.month)
  }

  function PeriodEndDay(cycle: BillingCycle, start: int): int {
    EndDay(cycle, FieldsOf(start))
  }

  /** The end date starts as a copy of now and is moved in place. */
  method PeriodEnd(cycle: BillingCycle, now: JsDate) returns (periodEnd: JsDate)
    ensures fresh(periodEnd)
    ensures periodEnd.msInDay == now.msInDay
    ensures periodEnd.day == PeriodEndDay(cycle, now.day)
  {
    periodEnd := new JsDate(now.day, now.msInDay);
    MoveToEnd(cycle, periodEnd);
  }

  /** The switch over the billing cycles. */
  method MoveToEnd(cycle: BillingCycle, date: JsDate)
    modifies date
    ensures date.msInDay == old(date.msInDay)
    ensures date.day == PeriodEndDay(cycle, old(date.day))
  {
    match cycle {
      case MONTHLY => AddMonths(date, 1);
      case QUARTERLY => AddMonths(date, 3);
      case YEARLY => AddYears(date, 1);
      case ONE_TIME => AddYears(date, 10);
    }
  }

  method AddMonths(date: JsDate, months: nat)
    modifies date
    ensures date.msInDay == old(date.msInDay)
    ensures date.day == MonthsOn(FieldsOf(old(date.day)), months)
  {
    date.SetMonth(FieldsOf(date.day).month + months);
  }

  method AddYears(date: JsDate, years: nat)
    modifies date
    ensures date.msInDay == old(date.msInDay)
    ensures date.day == YearsOn(FieldsOf(old(date.day)), years)
  {
    date.SetFullYear(FieldsOf(date.day).year + years);
  }

  // ----- How long a period lasts -----

  function LeapDay(y: int): nat {
    if Leap(y) then 1 else 0
  }

  /** How many of the given number of years, from year `y` on, are leap years. */
  function LeapsFrom(y: int, years: nat): nat {
    if years == 0 then 0 else LeapsFrom(y, years - 1) + LeapDay(y + years - 1)
  }

  lemma {:induction false} YearsLast(y: int, years: nat)
    ensures DayFromYear(y + years) - DayFromYear(y) == 365 * years + LeapsFrom(y, years)
  {
    if years > 0 {
      YearsLast(y, years - 1);
      YearLength(y + years - 1);
    }
  }

  lemma {:induction false} LeapsShift(y: int, years: nat)
    ensures LeapsFrom(y + 1, years) == LeapsFrom(y, years) + LeapDay(y + years) - LeapDay(y)
  {
    if years > 0 {
      LeapsShift(y, years - 1);
    }
  }

  lemma {:induction false} NoTwoRunning(y: int)
    ensures !(Leap(y) && Leap(y + 1))
  {}

  /** How often a number divisible by 4, by 100 and by 400 is passed in ten steps. */
  lemma {:induction false} TenSteps(a: int)
    ensures 2 <= (a + 10) / 4 - a / 4 <= 3
    ensures 0 <= (a + 10) / 400 - a / 400 <= (a + 10) / 100 - a / 100 <= 1
  {
    var q, q' := a / 100, (a + 10) / 100;
    assert a / 400 == q / 4 && (a + 10) / 400 == q' / 4;
  }

  lemma {:induction false} TenYears(y: int)
    ensures 1 <= LeapsFrom(y, 10) <= 3
  {
    YearsLast(y, 10);
    DayFromYearIsEcma(y);
    DayFromYearIsEcma(y + 10);
    TenSteps(y - 1969);
    TenSteps(y - 1601);
    assert (y - 1901) / 100 == (y - 1601) / 100 - 3 && (y - 1891) / 100 == (y - 1591) / 100 - 3;
  }

  /** The 29 February that a year-long period can cross: this year's before March, else the next. */
  function LeapYearAhead(f: Fields): int {
    if f.month <= 1 then f.year else f.year + 1
  }

  lemma {:induction false} YearsAhead(f: Fields, years: nat)
    requires Real(f)
    ensures MakeDay(f.year + years, f.month, f.date) - DayOf(f) == 365 * years + LeapsFrom(LeapYearAhead(f), years)
  {
    YearsLast(f.year, years);
    LeapsShift(f.year, years);
    MakesDayOf(f.(year := f.year + years));
  }

  lemma {:induction false} OneMonth(f: Fields)
    requires Real(f)
    ensures MakeDay(f.year, f.month + 1, f.date) - DayOf(f) == MonthLength(f.year, f.month)
  {
    YearLength(f.year);
    assert (f.month + 1) / 12 == (if f.month == 11 then 1 else 0) &&
           (f.month + 1) % 12 == if f.month == 11 then 0 else f.month + 1;
  }

  /** The days of month `m` in a row of two years; 12 is the second January. */
  function LengthOf(leap: bool, leap': bool, m: nat): nat
    requires m < 24
  {
    if m < 12 then Cumulative(leap, m + 1) - Cumulative(leap, m)
    else Cumulative(leap', m - 11) - Cumulative(leap', m - 12)
  }

  lemma {:induction false} QuarterLength(leap: bool, leap': bool, m: nat)
    requires m < 12 && !(leap && leap')
    ensures var days := if m <= 9 then Cumulative(leap, m + 3) - Cumulative(leap, m)
                        else Cumulative(leap, 12) - Cumulative(leap, m) + Cumulative(leap', m - 9);
            && 89 <= days <= 92
            && days == LengthOf(leap, leap', m) + LengthOf(leap, leap', m + 1) + LengthOf(leap, leap', m + 2)
  {}

  lemma {:induction false} OneQuarter(f: Fields)
    requires Real(f)
    ensures var days := MonthsOn(f, 3) - DayOf(f);
            89 <= days <= 92 && days == QuarterDays(f)
  {
    QuarterSpan(f);
    NoTwoRunning(f.year);
    QuarterLength(Leap(f.year), Leap(f.year + 1), f.month);
  }

  lemma {:induction false} QuarterSpan(f: Fields)
    requires f.month < 12
    ensures MonthsOn(f, 3) - DayOf(f) ==
            if f.month <= 9 then Cumulative(Leap(f.year), f.month + 3) - Cumulative(Leap(f.year), f.month)
            else Cumulative(Leap(f.year), 12) - Cumulative(Leap(f.year), f.month) +
                 Cumulative(Leap(f.year + 1), f.month - 9)
  {
    var m := f.month;
    YearLength(f.year);
    assert (m + 3) / 12 == (if m >= 9 then 1 else 0) && (m + 3) % 12 == if m >= 9 then m - 9 else m + 3;
  }

  /** The days of the start month and the two after it. */
  function QuarterDays(f: Fields): nat
    requires f.month < 12
  {
    var a, b := Leap(f.year), Leap(f.year + 1);
    LengthOf(a, b, f.month) + LengthOf(a, b, f.month + 1) + LengthOf(a, b, f.month + 2)
  }

  lemma {:induction false} OneYear(f: Fields)
    requires Real(f)
    ensures MakeDay(f.year + 1, f.month, f.date) - DayOf(f) ==
            if Leap(LeapYearAhead(f)) then 366 else 365
  {
    YearsAhead(f, 1);
    assert LeapsFrom(LeapYearAhead(f), 1) == LeapsFrom(LeapYearAhead(f), 0) + LeapDay(LeapYearAhead(f));
  }

  /** Over all Gregorian start dates, a monthly period lasts the days of the start month. */
  lemma {:induction false} MonthlyPeriod(start: int)
    ensures var f := FieldsOf(start); PeriodEndDay(MONTHLY, start) - start == MonthLength(f.year, f.month)
  {
    OneMonth(FieldsOf(start));
  }

  /** A quarter lasts the days of the start month and the two after it: 89 to 92. */
  lemma {:induction false} QuarterlyPeriod(start: int)
    ensures 89 <= PeriodEndDay(QUARTERLY, start) - start <= 92
    ensures var f := FieldsOf(start);
            PeriodEndDay(QUARTERLY, start) - start == QuarterDays(f)
  {
    var f := FieldsOf(start);
    OneQuarter(f);
  }

  /** A year lasts 366 days exactly when a 29 February lies ahead of the start within it. */
  lemma {:induction false} YearlyPeriod(start: int)
    ensures PeriodEndDay(YEARLY, start) - start == if Leap(LeapYearAhead(FieldsOf(start))) then 366 else 365
  {
    OneYear(FieldsOf(start));
  }

  lemma {:induction false} OneTimePeriod(start: int)
    ensures PeriodEndDay(ONE_TIME, start) - start == 3650 + LeapsFrom(LeapYearAhead(FieldsOf(start)), 10)
    ensures 3651 <= PeriodEndDay(ONE_TIME, start) - start <= 3653
  {
    YearsAhead(FieldsOf(start), 10);
    TenYears(LeapYearAhead(FieldsOf(start)));
  }

  lemma {:induction false} PeriodEndsLater(cycle: BillingCycle, start: int)
    ensures PeriodEndDay(cycle, start) > start
  {
    MonthlyPeriod(start);
    QuarterlyPeriod(start);
    YearlyPeriod(start);
    OneTimePeriod(start);
  }

  lemma {:induction false} DateOfDay(g: Fields, day: int)
    requires Real(g) && DayOf(g) == day
    ensures FieldsOf(day) == g
  {
    SameDate(g, FieldsOf(day));
  }

  /** A date its month is too short for runs over into the next one. */
  lemma {:induction false} DateMade(y: int, m: nat, d: nat)
    requires 1 <= d <= 31
    ensures var len := MonthLength(y + m / 12, m % 12);
            FieldsOf(MakeDay(y, m, d)).date == if d <= len then d else d - len
  {
    var y', m' := y + m / 12, m % 12;
    var len := MonthLength(y', m');
    var g := if d <= len then Fields(y', m', d) else Fields(y', m' + 1, d - len);
    assert DayOf(g) == MakeDay(y, m, d);
    DateOfDay(g, MakeDay(y, m, d));
  }

  lemma {:induction false} EndIsMade(cycle: BillingCycle, f: Fields)
    ensures var (y, m) := Target(cycle, f); EndDay(cycle, f) == MakeDay(y, m, f.date)
  {}

  /** The end falls on the start's day of the month if and only if the month the cycle leads to is
      long enough for it; a shorter month makes the period run over into the one after. */
  lemma {:induction false} SameDayOfMonth(cycle: BillingCycle, start: Fields)
    requires Real(start)
    ensures var (y, m) := Target(cycle, start);
            FieldsOf(EndDay(cycle, start)).date == start.date <==> start.date <= MonthLength(y + m / 12, m % 12)
  {
    var (y, m) := Target(cycle, start);
    DateMade(y, m, start.date);
    EndIsMade(cycle, start);
  }

  /** A month from 31 January of a common year ends on 3 March. */
  lemma {:induction false} MonthRunsOver(y: int)
    requires !Leap(y)
    ensures FieldsOf(EndDay(MONTHLY, Fields(y, 0, 31))) == Fields(y, 2, 3)
  {
    DateOfDay(Fields(y, 2, 3), EndDay(MONTHLY, Fields(y, 0, 31)));
  }
}
