/** Gregorian calendar dates as the widgets see them through Carbon: every
    value is a date at midnight, compared lexicographically, advanced by
    Carbon's addDay/addWeek/addMonth/addYear (with month overflow) and
    measured by Carbon's whole-unit diffIn* functions. */
module Calendar {

  datatype Date = Date(year: int, month: int, day: int)

  predicate IsLeapYear(y: int) {
    y % 4 == 0 && (y % 100 != 0 || y % 400 == 0)
  }

  function DaysInMonth(y: int, m: int): (n: int)
    ensures 28 <= n <= 31
  {
    if m == 2 then (if IsLeapYear(y) then 29 else 28)
    else if m == 4 || m == 6 || m == 9 || m == 11 then 30
    else 31
  }

  /** A calendar date Carbon can hold (years before 1 are not modelled). */
  predicate Valid(d: Date) {
    1 <= d.year && 1 <= d.month <= 12 && 1 <= d.day <= DaysInMonth(d.year, d.month)
  }

  /** Carbon's lte on two dates at midnight. */
  predicate LessEq(a: Date, b: Date) {
    a.year < b.year || (a.year == b.year && (a.month < b.month || (a.month == b.month && a.day <= b.day)))
  }

  /** Carbon's lt; `a.gt(b)` is Before(b, a). */
  predicate Before(a: Date, b: Date) {
    !LessEq(b, a)
  }

  /** Months since January of year 0; consecutive calendar months differ by one. */
  function MonthIndex(d: Date): int {
    d.year * 12 + d.month - 1
  }

  /** The first day of the month with the given month index. */
  function FirstOfMonthIndex(k: int): Date {
    Date(k / 12, k % 12 + 1, 1)
  }

  /** Carbon's startOfMonth (the time of day is not modelled). */
  function StartOfMonth(d: Date): Date {
    Date(d.year, d.month, 1)
  }

  /** The date part of Carbon's endOfMonth (23:59:59.999999 of the last day). */
  function EndOfMonth(d: Date): Date {
    Date(d.year, d.month, DaysInMonth(d.year, d.month))
  }

  /** The Y-m key under which Carbon's format('Y-m') files a date. */
  datatype YearMonth = YearMonth(year: int, month: int)

  function KeyOf(d: Date): YearMonth {
    YearMonth(d.year, d.month)
  }

  /** Carbon's addMonths(n) with month overflow: the day of month is laid
      on the target month and counted from its first day, so a day past the
      end of that month spills into the following one (January 31 plus one
      month is March 2 or 3). */
  function AddMonths(d: Date, n: int): (r: Date)
    ensures Valid(d) && n >= 0 ==> Valid(r)
  {
    var k := MonthIndex(d) + n;
    var dim := DaysInMonth(k / 12, k % 12 + 1);
    if d.day <= dim then Date(k / 12, k % 12 + 1, d.day)
    else FirstOfMonthIndex(k + 1).(day := d.day - dim)
  }

  /** Carbon's addYear: the same date a year later, except that February 29
      overflows to March 1. */
  function AddYear(d: Date): (r: Date)
    ensures Valid(d) ==> r == if d.month == 2 && d.day == 29 then Date(d.year + 1, 3, 1) else Date(d.year + 1, d.month, d.day)
  {
    YearsLater(d, 1);
    AddMonths(d, 12)
  }

  /** Carbon's addDay. */
  function NextDay(d: Date): Date {
    if d.day < DaysInMonth(d.year, d.month) then d.(day := d.day + 1)
    else if d.month < 12 then Date(d.year, d.month + 1, 1)
    else Date(d.year + 1, 1, 1)
  }

  /** Carbon's addDays(n). */
  function AddDays(d: Date, n: nat): Date
    decreases n
  {
    if n == 0 then d else AddDays(NextDay(d), n - 1)
  }

  /** Carbon's addWeek. */
  function AddWeek(d: Date): Date {
    AddDays(d, 7)
  }

  /** The month Carbon::now()->startOfMonth()->addMonths(i) denotes. */
  function MonthStart(now: Date, i: int): Date {
    AddMonths(StartOfMonth(now), i)
  }

  // ---------------------------------------------------------------------
  // Day numbers (days since 1 January of year 1)

  function DaysBeforeYear(y: int): int {
    365 * (y - 1) + (y - 1) / 4 - (y - 1) / 100 + (y - 1) / 400
  }

  function DaysBeforeMonth(y: int, m: int): int {
    (if m > 2 && IsLeapYear(y) then 1 else 0) +
    (if m <= 1 then 0 else if m == 2 then 31 else if m == 3 then 59
     else if m == 4 then 90 else if m == 5 then 120 else if m == 6 then 151
     else if m == 7 then 181 else if m == 8 then 212 else if m == 9 then 243
     else if m == 10 then 273 else if m == 11 then 304 else 334)
  }

  function DayNumber(d: Date): int {
    DaysBeforeYear(d.year) + DaysBeforeMonth(d.year, d.month) + d.day - 1
  }

  // ---------------------------------------------------------------------
  // Carbon's diffIn* (Carbon 2: absolute value, whole units only)

  function DiffInDays(a: Date, b: Date): (r: nat)
    requires Valid(a) && Valid(b)
    ensures LessEq(a, b) ==> r == DayNumber(b) - DayNumber(a)
    ensures LessEq(b, a) ==> r == DayNumber(a) - DayNumber(b)
    ensures r == 0 <==> a == b
  {
    DayNumberOrder(a, b);
    DayNumberOrder(b, a);
    if DayNumber(a) <= DayNumber(b) then DayNumber(b) - DayNumber(a) else DayNumber(a) - DayNumber(b)
  }

  /** Whole weeks: the day distance counted in sevens, the remainder dropped. */
  function DiffInWeeks(a: Date, b: Date): (r: nat)
    requires Valid(a) && Valid(b)
    ensures 7 * r <= DiffInDays(a, b) < 7 * r + 7
  {
    DiffInDays(a, b) / 7
  }

  /** Whole months from a to b: the calendar months between them, less one
      when b's day of month has not yet reached a's. */
  function WholeMonths(a: Date, b: Date): (r: nat)
    requires Valid(a) && Valid(b) && LessEq(a, b)
    ensures r <= MonthIndex(b) - MonthIndex(a)
  {
    MonthIndex(b) - MonthIndex(a) - (if b.day < a.day then 1 else 0)
  }

  /** From the earlier date, r months later is not past the later date and
      r + 1 months later is (for a day of month every month has). */
  function DiffInMonths(a: Date, b: Date): (r: nat)
    requires Valid(a) && Valid(b)
    ensures LessEq(a, b) && a.day <= 28 ==> LessEq(AddMonths(a, r), b) && Before(b, AddMonths(a, r + 1))
    ensures LessEq(b, a) && b.day <= 28 ==> LessEq(AddMonths(b, r), a) && Before(a, AddMonths(b, r + 1))
  {
    WholeMonthsBracket(a, b);
    WholeMonthsBracket(b, a);
    if LessEq(a, b) then WholeMonths(a, b) else WholeMonths(b, a)
  }

  /** r whole years separate lo from the later date hi: r years after lo is
      not past hi and r + 1 years after lo is (for any lo but February 29). */
  predicate WholeYearsApart(lo: Date, hi: Date, r: nat) {
    !(lo.month == 2 && lo.day == 29) ==>
      LessEq(AddMonths(lo, 12 * r), hi) && Before(hi, AddMonths(lo, 12 * (r + 1)))
  }

  function DiffInYears(a: Date, b: Date): (r: nat)
    requires Valid(a) && Valid(b)
    ensures LessEq(a, b) ==> WholeYearsApart(a, b, r)
    ensures Before(b, a) ==> WholeYearsApart(b, a, r)
  {
    if LessEq(a, b) then
      WholeYearsBracket(a, b);
      WholeMonths(a, b) / 12
    else
      WholeYearsBracket(b, a);
      WholeMonths(b, a) / 12
  }

  // ---------------------------------------------------------------------
  // Lemmas

  lemma LeapYearStep(y: int)
    ensures DaysBeforeYear(y + 1) == DaysBeforeYear(y) + (if IsLeapYear(y) then 366 else 365)
  {
    DivStep4(y);
    DivStep100(y);
    DivStep400(y);
    DivisorChain(y);
  }

  lemma DivisorChain(y: int)
    ensures y % 400 == 0 ==> y % 100 == 0
    ensures y % 100 == 0 ==> y % 4 == 0
  {
    if y % 400 == 0 {
      Remainder100(y, 4 * (y / 400), 0);
    }
    if y % 100 == 0 {
      Remainder4(y, 25 * (y / 100), 0);
    }
  }

  lemma Remainder100(x: int, q: int, r: int)
    requires x == 100 * q + r && 0 <= r < 100
    ensures x % 100 == r
  {
  }

  lemma Remainder4(x: int, q: int, r: int)
    requires x == 4 * q + r && 0 <= r < 4
    ensures x % 4 == r
  {
  }

  lemma DivStep4(y: int)
    ensures y / 4 == (if y % 4 == 0 then (y - 1) / 4 + 1 else (y - 1) / 4)
  {
  }

  lemma DivStep100(y: int)
    ensures y / 100 == (if y % 100 == 0 then (y - 1) / 100 + 1 else (y - 1) / 100)
  {
  }

  lemma DivStep400(y: int)
    ensures y / 400 == (if y % 400 == 0 then (y - 1) / 400 + 1 else (y - 1) / 400)
  {
  }

  lemma {:induction false} DaysBeforeYearGrows(y1: int, y2: int)
    requires y1 <= y2
    ensures DaysBeforeYear(y1) + 365 * (y2 - y1) <= DaysBeforeYear(y2)
    decreases y2 - y1
  {
    if y1 < y2 {
      DaysBeforeYearGrows(y1, y2 - 1);
      LeapYearStep(y2 - 1);
    }
  }

  /** The day after a valid date is valid and one day number later. */
  lemma NextDayNumber(d: Date)
    requires Valid(d)
    ensures Valid(NextDay(d)) && DayNumber(NextDay(d)) == DayNumber(d) + 1
  {
    if d.day == DaysInMonth(d.year, d.month) && d.month == 12 {
      LeapYearStep(d.year);
    }
  }

  lemma {:induction false} AddDaysNumber(d: Date, n: nat)
    requires Valid(d)
    ensures Valid(AddDays(d, n)) && DayNumber(AddDays(d, n)) == DayNumber(d) + n
    decreases n
  {
    if n > 0 {
      NextDayNumber(d);
      AddDaysNumber(NextDay(d), n - 1);
    }
  }

  lemma DayNumberBefore(a: Date, b: Date)
    requires Valid(a) && Valid(b) && Before(a, b)
    ensures DayNumber(a) < DayNumber(b)
  {
    if a.year < b.year {
      LeapYearStep(a.year);
      DaysBeforeYearGrows(a.year + 1, b.year);
    }
  }

  /** Day numbers are an order embedding of valid dates. */
  lemma DayNumberOrder(a: Date, b: Date)
    requires Valid(a) && Valid(b)
    ensures LessEq(a, b) <==> DayNumber(a) <= DayNumber(b)
    ensures a == b <==> DayNumber(a) == DayNumber(b)
  {
    if Before(a, b) { DayNumberBefore(a, b); }
    if Before(b, a) { DayNumberBefore(b, a); }
  }

  /** Month index arithmetic: the month starting at index k has index k. */
  lemma FirstOfMonthIndexInverse(k: int)
    requires k >= 12
    ensures Valid(FirstOfMonthIndex(k)) && MonthIndex(FirstOfMonthIndex(k)) == k
  {
  }

  /** Adding months to a valid date gives a valid date whose month index has
      advanced by n, or by n + 1 when the day overflowed. */
  lemma AddMonthsValid(d: Date, n: nat)
    requires Valid(d)
    ensures Valid(AddMonths(d, n))
    ensures MonthIndex(AddMonths(d, n)) == MonthIndex(d) + n || MonthIndex(AddMonths(d, n)) == MonthIndex(d) + n + 1
    ensures d.day <= 28 ==> AddMonths(d, n) == FirstOfMonthIndex(MonthIndex(d) + n).(day := d.day)
  {
    var k := MonthIndex(d) + n;
    FirstOfMonthIndexInverse(k);
    FirstOfMonthIndexInverse(k + 1);
  }

  /** The overflow rule of addMonths: the result lies d.day - 1 days after
      the first of the target month, whichever month that lands in. */
  lemma AddMonthsDayNumber(d: Date, n: nat)
    requires Valid(d)
    ensures DayNumber(AddMonths(d, n)) == DayNumber(FirstOfMonthIndex(MonthIndex(d) + n)) + d.day - 1
  {
    var k := MonthIndex(d) + n;
    var dim := DaysInMonth(k / 12, k % 12 + 1);
    if d.day > dim {
      assert AddMonths(d, n) == FirstOfMonthIndex(k + 1).(day := d.day - dim);
      DayNumberOfDay(FirstOfMonthIndex(k + 1), d.day - dim);
      NextMonthStart(k);
    } else {
      assert AddMonths(d, n) == FirstOfMonthIndex(k).(day := d.day);
      DayNumberOfDay(FirstOfMonthIndex(k), d.day);
    }
  }

  /** Moving a date within its month moves its day number by as many days. */
  lemma DayNumberOfDay(e: Date, x: int)
    ensures DayNumber(e.(day := x)) == DayNumber(e) - e.day + x
  {
  }

  /** Month starts: MonthStart(now, i) is the first of the month i months
      after now's month, and it is valid. */
  lemma MonthStartIndex(now: Date, i: nat)
    requires Valid(now)
    ensures MonthStart(now, i) == FirstOfMonthIndex(MonthIndex(now) + i)
    ensures Valid(MonthStart(now, i)) && MonthIndex(MonthStart(now, i)) == MonthIndex(now) + i
    ensures MonthStart(now, i).day == 1
  {
    AddMonthsValid(StartOfMonth(now), i);
  }

  /** On dates of different months the order is the order of month indices. */
  lemma MonthIndexOrder(a: Date, b: Date)
    requires Valid(a) && Valid(b)
    ensures MonthIndex(a) < MonthIndex(b) ==> Before(a, b)
    ensures LessEq(a, b) ==> MonthIndex(a) <= MonthIndex(b)
  {
  }

  lemma ModUnique(x: int, q: int, r: int)
    requires x == 12 * q + r && 0 <= r < 12
    ensures x / 12 == q && x % 12 == r
  {
  }

  /** The first of the next month is a month's length of days later. */
  lemma NextMonthStart(k: int)
    ensures DayNumber(FirstOfMonthIndex(k + 1)) == DayNumber(FirstOfMonthIndex(k)) + DaysInMonth(k / 12, k % 12 + 1)
  {
    if k % 12 < 11 {
      ModUnique(k + 1, k / 12, k % 12 + 1);
    } else {
      ModUnique(k + 1, k / 12 + 1, 0);
      LeapYearStep(k / 12);
    }
  }

  /** Twelve months times j later is the same day of the same month, j years
      on, for any date but February 29. */
  lemma YearsLater(d: Date, j: nat)
    ensures Valid(d) && !(d.month == 2 && d.day == 29) ==> AddMonths(d, 12 * j) == Date(d.year + j, d.month, d.day)
    ensures Valid(d) && d.month == 2 && d.day == 29 && j == 1 ==> AddMonths(d, 12) == Date(d.year + 1, 3, 1)
  {
    if Valid(d) {
      ModUnique(MonthIndex(d) + 12 * j, d.year + j, d.month - 1);
      if d.month == 2 && d.day == 29 && j == 1 {
        ModUnique(MonthIndex(d) + 13, d.year + 1, 2);
      }
    }
  }

  /** Valid dates compare as (month index, day) pairs. */
  lemma LessEqByMonthIndex(a: Date, b: Date)
    requires Valid(a) && Valid(b)
    ensures LessEq(a, b) <==> MonthIndex(a) < MonthIndex(b) || (MonthIndex(a) == MonthIndex(b) && a.day <= b.day)
  {
  }

  lemma WholeMonthsBracket(a: Date, b: Date)
    requires Valid(a) && Valid(b)
    ensures LessEq(a, b) && a.day <= 28 ==>
              LessEq(AddMonths(a, WholeMonths(a, b)), b) && Before(b, AddMonths(a, WholeMonths(a, b) + 1))
  {
    if LessEq(a, b) && a.day <= 28 {
      var r := WholeMonths(a, b);
      AddMonthsValid(a, r);
      AddMonthsValid(a, r + 1);
      FirstOfMonthIndexInverse(MonthIndex(a) + r);
      FirstOfMonthIndexInverse(MonthIndex(a) + r + 1);
      LessEqByMonthIndex(AddMonths(a, r), b);
      LessEqByMonthIndex(AddMonths(a, r + 1), b);
    }
  }

  lemma WholeYearsBracket(a: Date, b: Date)
    requires Valid(a) && Valid(b) && LessEq(a, b)
    ensures WholeYearsApart(a, b, WholeMonths(a, b) / 12)
  {
    if !(a.month == 2 && a.day == 29) {
      var r := WholeMonths(a, b) / 12;
      YearsLater(a, r);
      YearsLater(a, r + 1);
      LessEqByMonthIndex(AddMonths(a, 12 * r), b);
      LessEqByMonthIndex(AddMonths(a, 12 * (r + 1)), b);
    }
  }

  /** Same calendar month in the same or a later year means a whole number
      of years of months later. */
  lemma WholeYearsOfMonths(c: Date, o: Date)
    ensures 1 <= c.month <= 12 && 1 <= o.month <= 12 ==>
              ((c.month == o.month && c.year >= o.year) <==>
                 MonthIndex(o) <= MonthIndex(c) && (MonthIndex(c) - MonthIndex(o)) % 12 == 0)
  {
    if 1 <= c.month <= 12 && 1 <= o.month <= 12 {
      var x := MonthIndex(c) - MonthIndex(o);
      if c.month >= o.month {
        ModUnique(x, c.year - o.year, c.month - o.month);
      } else {
        ModUnique(x, c.year - o.year - 1, 12 + c.month - o.month);
      }
    }
  }
}
