// The Gregorian calendar, counted out year by year and month by month, and the closed
// form that replaces the count of the years.
module Calendar {

  datatype Civil = Civil(year: int, month: int, day: int, hour: int, minute: int, second: int)

  predicate Leap(year: int) {
    year % 4 == 0 && (year % 100 != 0 || year % 400 == 0)
  }

  function YearLength(year: int): int {
    if Leap(year) then 366 else 365
  }

  function MonthLength(year: int, month: int): (days: int)
    ensures 28 <= days <= 31
  {
    if month == 2 then (if Leap(year) then 29 else 28)
    else if month == 4 || month == 6 || month == 9 || month == 11 then 30
    else 31
  }

  /** Days from 1970-01-01 to the first day of `year`, negative before 1970. */
  function DaysBeforeYear(year: int): int
    decreases if year >= 1970 then year - 1970 else 1970 - year
  {
    if year == 1970 then 0
    else if year > 1970 then DaysBeforeYear(year - 1) + YearLength(year - 1)
    else DaysBeforeYear(year + 1) - YearLength(year)
  }

  /** Days in the first `months` months of `year`. */
  function DaysInMonths(year: int, months: nat): nat {
    if months == 0 then 0 else DaysInMonths(year, months - 1) + MonthLength(year, months)
  }

  function DayNumber(year: int, month: int, day: int): int
    requires month >= 1
  {
    DaysBeforeYear(year) + DaysInMonths(year, month - 1) + day - 1
  }

  /** Seconds since 1970-01-01T00:00:00Z of a date and time in a zone `offset` minutes east of Greenwich. */
  function Epoch(c: Civil, offset: int): int
    requires c.month >= 1
  {
    DayNumber(c.year, c.month, c.day) * 86400 + c.hour * 3600 + (c.minute - offset) * 60 + c.second
  }

  predicate ValidDate(year: int, month: int, day: int) {
    1 <= month <= 12 && 1 <= day <= MonthLength(year, month)
  }

  predicate ValidTime(c: Civil) {
    0 <= c.hour <= 23 && 0 <= c.minute <= 59 && 0 <= c.second <= 59
  }

  predicate Valid(c: Civil) {
    ValidDate(c.year, c.month, c.day) && ValidTime(c)
  }

  // ---------------------------------------------------------------- the count is a calendar

  function Tomorrow(year: int, month: int, day: int): (int, int, int) {
    if day < MonthLength(year, month) then (year, month, day + 1)
    else if month < 12 then (year, month + 1, 1)
    else (year + 1, 1, 1)
  }

  lemma WholeYear(year: int)
    ensures DaysInMonths(year, 12) == YearLength(year)
  {
    var february := MonthLength(year, 2);
    assert DaysInMonths(year, 1) == 31;
    assert DaysInMonths(year, 2) == 31 + february;
    assert DaysInMonths(year, 4) == 92 + february;
    assert DaysInMonths(year, 6) == 153 + february;
    assert DaysInMonths(year, 8) == 215 + february;
    assert DaysInMonths(year, 10) == 276 + february;
  }

  lemma NextYear(year: int)
    ensures DaysBeforeYear(year + 1) == DaysBeforeYear(year) + YearLength(year)
  {
  }

  /** Day 0 is 1970-01-01 and every day has the number after that of the day before it. */
  lemma DaysAreCountedOneByOne(year: int, month: int, day: int)
    requires ValidDate(year, month, day)
    ensures DayNumber(1970, 1, 1) == 0
    ensures var (y, m, d) := Tomorrow(year, month, day);
            ValidDate(y, m, d) && DayNumber(y, m, d) == DayNumber(year, month, day) + 1
  {
    if day == MonthLength(year, month) && month == 12 {
      WholeYear(year);
      NextYear(year);
    }
  }

  /** One second later. */
  function Tick(c: Civil): Civil {
    if c.second < 59 then c.(second := c.second + 1)
    else if c.minute < 59 then c.(minute := c.minute + 1, second := 0)
    else if c.hour < 23 then c.(hour := c.hour + 1, minute := 0, second := 0)
    else
      var (y, m, d) := Tomorrow(c.year, c.month, c.day);
      Civil(y, m, d, 0, 0, 0)
  }

  lemma NextDay(c: Civil, offset: int)
    requires Valid(c) && c.hour == 23 && c.minute == 59 && c.second == 59
    ensures Valid(Tick(c)) && Epoch(Tick(c), offset) == Epoch(c, offset) + 1
  {
    DaysAreCountedOneByOne(c.year, c.month, c.day);
    hide DayNumber, Tomorrow, MonthLength;
    var (y, m, d) := Tomorrow(c.year, c.month, c.day);
    assert Tick(c) == Civil(y, m, d, 0, 0, 0);
  }

  lemma SameDay(c: Civil, offset: int)
    requires Valid(c) && !(c.hour == 23 && c.minute == 59 && c.second == 59)
    ensures Valid(Tick(c)) && Epoch(Tick(c), offset) == Epoch(c, offset) + 1
  {
    hide DayNumber, Tomorrow, MonthLength;
  }

  /** Second 0 is 1970-01-01T00:00:00Z, every second has the number after that of the second before it, and a zone of
      an hour to the east is an hour earlier. */
  lemma SecondsAreCountedOneByOne(c: Civil, offset: int)
    requires Valid(c)
    ensures Epoch(Civil(1970, 1, 1, 0, 0, 0), 0) == 0
    ensures Valid(Tick(c)) && Epoch(Tick(c), offset) == Epoch(c, offset) + 1
    ensures Epoch(c, offset + 60) == Epoch(c, offset) - 3600
  {
    hide Epoch, Tick, MonthLength;
    SecondZero();
    EastIsEarlier(c, offset);
    if c.hour == 23 && c.minute == 59 && c.second == 59 {
      NextDay(c, offset);
    } else {
      SameDay(c, offset);
    }
  }

  lemma SecondZero()
    ensures Epoch(Civil(1970, 1, 1, 0, 0, 0), 0) == 0
  {
    assert DayNumber(1970, 1, 1) == 0;
  }

  lemma EastIsEarlier(c: Civil, offset: int)
    requires c.month >= 1
    ensures Epoch(c, offset + 60) == Epoch(c, offset) - 3600
  {
    hide DayNumber;
  }

  lemma {:induction false} MonthsGrow(year: int, m: nat, n: nat)
    requires m < n <= 12
    ensures DaysInMonths(year, m) + MonthLength(year, m + 1) <= DaysInMonths(year, n) <= YearLength(year)
    decreases n - m
  {
    if n > m + 1 {
      MonthsGrow(year, m, n - 1);
    }
    MonthsFit(year, n);
  }

  lemma {:induction false} MonthsFit(year: int, n: nat)
    requires n <= 12
    ensures DaysInMonths(year, n) <= YearLength(year)
    decreases 12 - n
  {
    if n == 12 {
      WholeYear(year);
    } else {
      MonthsFit(year, n + 1);
    }
  }

  lemma {:induction false} YearsGrow(y: int, z: int)
    requires y < z
    ensures DaysBeforeYear(y) + YearLength(y) <= DaysBeforeYear(z)
    decreases z - y
  {
    NextYear(z - 1);
    if y < z - 1 {
      YearsGrow(y, z - 1);
    }
  }

  predicate DateBefore(y: int, m: int, d: int, y': int, m': int, d': int) {
    y < y' || (y == y' && (m < m' || (m == m' && d < d')))
  }

  predicate Before(a: Civil, b: Civil) {
    || DateBefore(a.year, a.month, a.day, b.year, b.month, b.day)
    || (a.year == b.year && a.month == b.month && a.day == b.day &&
        (a.hour < b.hour || (a.hour == b.hour &&
        (a.minute < b.minute || (a.minute == b.minute && a.second < b.second)))))
  }

  lemma DatesGrow(y: int, m: int, d: int, y': int, m': int, d': int)
    requires ValidDate(y, m, d) && ValidDate(y', m', d') && DateBefore(y, m, d, y', m', d')
    ensures DayNumber(y, m, d) < DayNumber(y', m', d')
  {
    if y < y' {
      YearsGrow(y, y');
      MonthsFit(y, m);
    } else if m < m' {
      MonthsGrow(y, m - 1, m' - 1);
    }
  }

  /** Later dates and times have larger values, and only they. */
  lemma EpochIsStrictlyMonotone(a: Civil, b: Civil)
    requires Valid(a) && Valid(b)
    ensures Before(a, b) <==> Epoch(a, 0) < Epoch(b, 0)
  {
    if DateBefore(a.year, a.month, a.day, b.year, b.month, b.day) {
      DatesGrow(a.year, a.month, a.day, b.year, b.month, b.day);
    } else if DateBefore(b.year, b.month, b.day, a.year, a.month, a.day) {
      DatesGrow(b.year, b.month, b.day, a.year, a.month, a.day);
    }
  }

  // ---------------------------------------------------------------- the closed form

  /** How many of `from`, `from` + 100, … before `year` are not leap years after all. */
  function SkipsUp(from: int, year: int): nat
    decreases year - from
  {
    if from >= year then 0 else (if from % 400 == 0 then 0 else 1) + SkipsUp(from + 100, year)
  }

  /** How many of `from`, `from` - 100, … down to `year` are not leap years after all. */
  function SkipsDown(from: int, year: int): nat
    decreases from - year
  {
    if from < year then 0 else (if from % 400 == 0 then 0 else 1) + SkipsDown(from - 100, year)
  }

  predicate Skipped(year: int) {
    year % 100 == 0 && year % 400 != 0
  }

  lemma BetweenCenturies(century: int, year: int)
    requires century % 100 == 0 && century < year < century + 100
    ensures !Skipped(year)
  {
  }

  lemma {:induction false} OneMoreUp(from: int, year: int)
    requires from % 100 == 0 && year > from - 100
    ensures SkipsUp(from, year + 1) == SkipsUp(from, year) + (if year >= from && Skipped(year) then 1 else 0)
    decreases year - from
  {
    if year > from {
      hide Skipped;
      OneMoreUp(from + 100, year);
      if year < from + 100 {
        BetweenCenturies(from, year);
      }
    }
  }

  lemma {:induction false} OneMoreDown(from: int, year: int)
    requires from % 100 == 0 && year < from + 100
    ensures SkipsDown(from, year) == SkipsDown(from, year + 1) + (if year <= from && Skipped(year) then 1 else 0)
    decreases from - year
  {
    if year < from {
      hide Skipped;
      OneMoreDown(from - 100, year);
      if year > from - 100 {
        BetweenCenturies(from - 100, year);
      }
    }
  }

  function One(b: bool): int {
    if b then 1 else 0
  }

  lemma FourthsLessCenturies(year: int)
    ensures YearLength(year) == 365 + One(year % 4 == 0) - One(Skipped(year))
  {
  }

  lemma NextFourth(year: int)
    ensures (year - 1970 + 2) / 4 == (year - 1970 + 1) / 4 + One(year % 4 == 0)
    ensures (1970 - year + 2) / 4 == (1970 - year + 1) / 4 + One(year % 4 == 0)
  {
  }

  /** Every fourth year less the centuries, from 1970 on. */
  lemma {:induction false} YearsUp(year: int)
    requires year >= 1970
    ensures DaysBeforeYear(year) == (year - 1970) * 365 + (year - 1970 + 1) / 4 - SkipsUp(2100, year)
    decreases year
  {
    if year > 1970 {
      YearsUp(year - 1);
      FourthsLessCenturies(year - 1);
      NextFourth(year - 1);
      if year - 1 > 2000 {
        hide YearLength, Skipped;
        OneMoreUp(2100, year - 1);
      }
    }
  }

  /** Every fourth year less the centuries, before 1970. */
  lemma {:induction false} YearsDown(year: int)
    requires year < 1970
    ensures DaysBeforeYear(year) == (year - 1970) * 365 - (1970 - year + 2) / 4 + SkipsDown(1900, year)
    decreases 1970 - year
  {
    if year < 1969 {
      hide YearLength, Skipped;
      YearsDown(year + 1);
      FourthsLessCenturies(year);
      NextFourth(year);
      OneMoreDown(1900, year);
    }
  }
}
