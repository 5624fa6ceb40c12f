/** Calendar dates in the proleptic Gregorian calendar (the calendar of
    JavaScript's `Date`), and their day numbers: the count of days since
    1970-01-01, so that each date is `ToDays` of it and each day number is
    `FromDays` of it.  Years use astronomical numbering (year 0 exists). */
module CivilDate {

  datatype Date = Date(year: int, month: int, day: int)

  /** 1970-01-01, day number 0. */
  const Epoch := Date(1970, 1, 1)

  /** Milliseconds in a day: `1000 * 60 * 60 * 24`. */
  const MsPerDay := 86400000

  predicate IsLeapYear(y: int) {
    y % 4 == 0 && (y % 100 != 0 || y % 400 == 0)
  }

  function MonthLength(y: int, m: int): int {
    if m == 2 then (if IsLeapYear(y) then 29 else 28)
    else if m == 4 || m == 6 || m == 9 || m == 11 then 30
    else 31
  }

  function YearLength(y: int): int {
    if IsLeapYear(y) then 366 else 365
  }

  predicate IsValid(d: Date) {
    1 <= d.month <= 12 && 1 <= d.day <= MonthLength(d.year, d.month)
  }

  // ---------------------------------------------------------------------
  // Date to day number

  /** The multiples of 4, less those of 100, plus those of 400, among 1..x
      (counted with a sign when x is negative). */
  function LeapCount(x: int): int {
    x / 4 - x / 100 + x / 400
  }

  /** Days from 1970-01-01 to the first of January of year `y`. */
  function DaysBeforeYear(y: int): int {
    365 * (y - 1970) + LeapCount(y - 1) - LeapCount(1969)
  }

  /** Days from the first of January to the first day of month `m` of year `y`. */
  function DaysBeforeMonth(y: int, m: int): int {
    var common :=
      if m <= 1 then 0 else if m == 2 then 31 else if m == 3 then 59
      else if m == 4 then 90 else if m == 5 then 120 else if m == 6 then 151
      else if m == 7 then 181 else if m == 8 then 212 else if m == 9 then 243
      else if m == 10 then 273 else if m == 11 then 304 else 334;
    common + (if m > 2 && IsLeapYear(y) then 1 else 0)
  }

  /** The day number of `d`. */
  function ToDays(d: Date): int {
    DaysBeforeYear(d.year) + DaysBeforeMonth(d.year, d.month) + d.day - 1
  }

  // ---------------------------------------------------------------------
  // Day number to date

  /** The calendar day after `d`. */
  function NextDay(d: Date): Date {
    if d.day < MonthLength(d.year, d.month) then Date(d.year, d.month, d.day + 1)
    else if d.month < 12 then Date(d.year, d.month + 1, 1)
    else Date(d.year + 1, 1, 1)
  }

  /** The calendar day before `d`. */
  function PrevDay(d: Date): Date {
    if d.day > 1 then Date(d.year, d.month, d.day - 1)
    else if d.month > 1 then Date(d.year, d.month - 1, MonthLength(d.year, d.month - 1))
    else Date(d.year - 1, 12, 31)
  }

  /** The date reached by walking `n` calendar days from 1970-01-01 (back,
      for negative `n`); `FromDaysIsDayNumber` shows it is the valid date
      whose day number is `n`. */
  function FromDays(n: int): Date
    decreases if n < 0 then -n else n
  {
    if n == 0 then Epoch
    else if n > 0 then NextDay(FromDays(n - 1))
    else PrevDay(FromDays(n + 1))
  }

  /** `a` falls on or before `b` in calendar order (year, then month, then day). */
  predicate NotAfter(a: Date, b: Date) {
    a.year < b.year
    || (a.year == b.year && a.month < b.month)
    || (a.year == b.year && a.month == b.month && a.day <= b.day)
  }

  /** The date `k` calendar days after `d` (before it, for negative `k`). */
  function AddDays(d: Date, k: int): Date {
    FromDays(ToDays(d) + k)
  }

  // ---------------------------------------------------------------------
  // Lemmas

  lemma DivStep4(x: int)
    ensures x / 4 - (x - 1) / 4 == if x % 4 == 0 then 1 else 0
  {
  }

  lemma DivStep100(x: int)
    ensures x / 100 - (x - 1) / 100 == if x % 100 == 0 then 1 else 0
  {
  }

  lemma DivStep400(x: int)
    ensures x / 400 - (x - 1) / 400 == if x % 400 == 0 then 1 else 0
  {
  }

  /** Each year adds its own length to the day count. */
  lemma YearStep(y: int)
    ensures DaysBeforeYear(y + 1) == DaysBeforeYear(y) + YearLength(y)
  {
    DivStep4(y);
    DivStep100(y);
    DivStep400(y);
    assert DaysBeforeYear(y + 1) - DaysBeforeYear(y) == 365 + LeapCount(y) - LeapCount(y - 1);
    assert LeapCount(y) - LeapCount(y - 1) == if IsLeapYear(y) then 1 else 0 by {
      LeapStep(y);
    }
  }

  /** Year `y` is a leap year exactly when the leap count grows at `y`. */
  lemma LeapStep(y: int)
    ensures LeapCount(y) - LeapCount(y - 1) == if IsLeapYear(y) then 1 else 0
  {
    DivStep4(y);
    DivStep100(y);
    DivStep400(y);
    if y % 400 == 0 {
      Div400Div100(y);
      Div100Div4(y);
    } else if y % 100 == 0 {
      Div100Div4(y);
    }
  }

  lemma Div400Div100(y: int)
    requires y % 400 == 0
    ensures y % 100 == 0
  {
    var q := y / 400;
    assert y == 100 * (4 * q);
  }

  lemma Div100Div4(y: int)
    requires y % 100 == 0
    ensures y % 4 == 0
  {
    var q := y / 100;
    assert y == 4 * (25 * q);
  }

  /** Each month adds its own length to the day count, and December ends the year. */
  lemma MonthStep(y: int, m: int)
    requires 1 <= m <= 12
    ensures m < 12 ==> DaysBeforeMonth(y, m + 1) == DaysBeforeMonth(y, m) + MonthLength(y, m)
    ensures m == 12 ==> DaysBeforeMonth(y, m) + MonthLength(y, m) == YearLength(y)
  {
  }

  lemma NextDayStep(d: Date)
    requires IsValid(d)
    ensures IsValid(NextDay(d)) && ToDays(NextDay(d)) == ToDays(d) + 1
  {
    MonthStep(d.year, d.month);
    if d.day == MonthLength(d.year, d.month) && d.month == 12 {
      YearStep(d.year);
    }
  }

  lemma PrevDayStep(d: Date)
    requires IsValid(d)
    ensures IsValid(PrevDay(d)) && ToDays(PrevDay(d)) == ToDays(d) - 1
  {
    if d.day == 1 {
      if d.month > 1 {
        MonthStep(d.year, d.month - 1);
      } else {
        YearStep(d.year - 1);
        MonthStep(d.year - 1, 12);
      }
    }
  }

  lemma EpochIsDayZero()
    ensures IsValid(Epoch) && ToDays(Epoch) == 0
  {
  }

  /** Later years start later: a year ends no later than any later year begins. */
  lemma {:induction false} YearsAreOrdered(y1: int, y2: int)
    requires y1 < y2
    ensures DaysBeforeYear(y1 + 1) <= DaysBeforeYear(y2)
    decreases y2 - y1
  {
    if y1 + 1 < y2 {
      YearsAreOrdered(y1 + 1, y2);
      YearStep(y1 + 1);
    }
  }

  /** Later months of a year start later: a month ends no later than any later month begins. */
  lemma MonthsAreOrdered(y: int, m1: int, m2: int)
    requires 1 <= m1 < m2 <= 12
    ensures DaysBeforeMonth(y, m1) + MonthLength(y, m1) <= DaysBeforeMonth(y, m2)
  {
  }

  /** A valid date's day number lies within its month and within its year. */
  lemma DayWithinYear(d: Date)
    requires IsValid(d)
    ensures DaysBeforeYear(d.year) <= ToDays(d) < DaysBeforeYear(d.year + 1)
  {
    YearStep(d.year);
    MonthStep(d.year, d.month);
    if d.month < 12 {
      MonthsAreOrdered(d.year, d.month, 12);
      MonthStep(d.year, 12);
    }
  }

  /** Day numbers order valid dates as the calendar does (year, then month, then day). */
  lemma {:induction false} ToDaysIsMonotonic(a: Date, b: Date)
    requires IsValid(a) && IsValid(b)
    requires a.year < b.year
          || (a.year == b.year && a.month < b.month)
          || (a.year == b.year && a.month == b.month && a.day < b.day)
    ensures ToDays(a) < ToDays(b)
  {
    if a.year < b.year {
      DayWithinYear(a);
      DayWithinYear(b);
      YearsAreOrdered(a.year, b.year);
    } else if a.month < b.month {
      MonthsAreOrdered(a.year, a.month, b.month);
    }
  }

  /** Distinct valid dates have distinct day numbers. */
  lemma ToDaysIsInjective(a: Date, b: Date)
    requires IsValid(a) && IsValid(b) && ToDays(a) == ToDays(b)
    ensures a == b
  {
    if a.year < b.year || (a.year == b.year && a.month < b.month)
       || (a.year == b.year && a.month == b.month && a.day < b.day) {
      ToDaysIsMonotonic(a, b);
    } else if b.year < a.year || (a.year == b.year && b.month < a.month)
       || (a.year == b.year && a.month == b.month && b.day < a.day) {
      ToDaysIsMonotonic(b, a);
    }
  }

  /** Calendar order is the order of day numbers. */
  lemma NotAfterIsDayOrder(a: Date, b: Date)
    requires IsValid(a) && IsValid(b)
    ensures NotAfter(a, b) <==> ToDays(a) <= ToDays(b)
  {
    if NotAfter(a, b) {
      if a != b {
        ToDaysIsMonotonic(a, b);
      }
    } else {
      ToDaysIsMonotonic(b, a);
    }
  }

  /** Round trip: every valid date is the date of its own day number. */
  lemma FromDaysOfToDays(d: Date)
    requires IsValid(d)
    ensures FromDays(ToDays(d)) == d
  {
    DateOfDayNumber(d, ToDays(d));
  }

  /** Round trip: the walk of `n` days ends on a valid date whose day number is `n`. */
  lemma {:induction false} FromDaysIsDayNumber(n: int)
    ensures IsValid(FromDays(n)) && ToDays(FromDays(n)) == n
    decreases if n < 0 then -n else n
  {
    if n == 0 {
      EpochIsDayZero();
    } else if n > 0 {
      var d := FromDays(n - 1);
      FromDaysIsDayNumber(n - 1);
      NextDayStep(d);
      assert FromDays(n) == NextDay(d);
    } else {
      var d := FromDays(n + 1);
      FromDaysIsDayNumber(n + 1);
      PrevDayStep(d);
      assert FromDays(n) == PrevDay(d);
    }
  }

  /** `k` days after a date is a valid date, `k` day numbers later. */
  lemma AddDaysIsDayShift(d: Date, k: int)
    ensures IsValid(AddDays(d, k)) && ToDays(AddDays(d, k)) == ToDays(d) + k
  {
    FromDaysIsDayNumber(ToDays(d) + k);
  }

  /** Adding up to 28 days moves the day of the month forward, rolling over
      into the next month (and year) when it runs past the month's end: what
      `setDate(getDate() + k)` does. */
  lemma AddDaysOnCalendar(d: Date, k: int)
    requires IsValid(d) && 0 <= k <= 28
    ensures AddDays(d, k) ==
      if d.day + k <= MonthLength(d.year, d.month) then Date(d.year, d.month, d.day + k)
      else if d.month < 12 then Date(d.year, d.month + 1, d.day + k - MonthLength(d.year, d.month))
      else Date(d.year + 1, 1, d.day + k - 31)
  {
    if d.day + k <= MonthLength(d.year, d.month) {
      LandsOn(d, k, Date(d.year, d.month, d.day + k));
    } else if d.month < 12 {
      IntoNextMonth(d, k);
      LandsOn(d, k, Date(d.year, d.month + 1, d.day + k - MonthLength(d.year, d.month)));
    } else {
      IntoNextYear(d, k);
      LandsOn(d, k, Date(d.year + 1, 1, d.day + k - 31));
    }
  }

  /** A valid date `k` days on from `d` is the date `k` days after `d`. */
  lemma LandsOn(d: Date, k: int, c: Date)
    requires IsValid(c) && ToDays(c) == ToDays(d) + k
    ensures AddDays(d, k) == c
  {
    var n := ToDays(d) + k;
    assert AddDays(d, k) == FromDays(n);
    DateOfDayNumber(c, n);
  }

  /** A valid date is the date of its own day number. */
  lemma DateOfDayNumber(c: Date, n: int)
    requires IsValid(c) && ToDays(c) == n
    ensures FromDays(n) == c
  {
    FromDaysIsDayNumber(n);
    ToDaysIsInjective(FromDays(n), c);
  }

  /** Running past the end of a month other than December. */
  lemma IntoNextMonth(d: Date, k: int)
    requires IsValid(d) && 0 <= k <= 28 && d.month < 12 && d.day + k > MonthLength(d.year, d.month)
    ensures var c := Date(d.year, d.month + 1, d.day + k - MonthLength(d.year, d.month));
            IsValid(c) && ToDays(c) == ToDays(d) + k
  {
    MonthStep(d.year, d.month);
  }

  /** Running past the end of December. */
  lemma IntoNextYear(d: Date, k: int)
    requires IsValid(d) && 0 <= k <= 28 && d.month == 12 && d.day + k > 31
    ensures var c := Date(d.year + 1, 1, d.day + k - 31);
            IsValid(c) && ToDays(c) == ToDays(d) + k
  {
    MonthStep(d.year, 12);
    YearStep(d.year);
  }
}
