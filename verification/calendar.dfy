/**
 * The proleptic Gregorian calendar as JavaScript's `Date` sees it in local time.
 *
 * An instant is a whole number of milliseconds since 1970-01-01 00:00 local time
 * (the time zone is taken to be UTC and daylight saving time is not modelled, so
 * every day lasts exactly `MsPerDay`). A day number counts days since 1970-01-01,
 * which was a Thursday. Months are 1-based here; `MakeDay` takes JavaScript's
 * 0-based month index and normalises it the way `new Date(y, m, d)` does.
 */
module Calendar {

  const MsPerDay: int := 86400000

  /** The day an instant falls on (JavaScript floors towards the past). */
  function DayOf(t: int): int { t / MsPerDay }

  /** Milliseconds since the local midnight that starts `DayOf(t)`. */
  function TimeOfDay(t: int): int { t % MsPerDay }

  /** The instant of local midnight at the start of day `d`. */
  function Midnight(d: int): int { d * MsPerDay }

  lemma DayOfMidnight(d: int, tod: int)
    requires 0 <= tod < MsPerDay
    ensures DayOf(Midnight(d) + tod) == d && TimeOfDay(Midnight(d) + tod) == tod
  {
  }

  /** Two midnights lie a whole number of days apart. */
  lemma MidnightsApart(a: int, b: int)
    ensures TimeOfDay(Midnight(a)) == 0 && TimeOfDay(Midnight(b)) == 0
    ensures Midnight(b) - Midnight(a) == (b - a) * MsPerDay
  {
    DayOfMidnight(a, 0);
    DayOfMidnight(b, 0);
  }

  /** `getDay()`: 0 is Sunday, 1 Monday, ..., 6 Saturday; day 0 was a Thursday. */
  function Weekday(d: int): int { (d + 4) % 7 }

  function IsLeap(y: int): bool {
    y % 4 == 0 && (y % 100 != 0 || y % 400 == 0)
  }

  function DaysInYear(y: int): int { if IsLeap(y) then 366 else 365 }

  /** Number of days in month `m` (1..12) of year `y`. */
  function DaysInMonth(y: int, m: int): (n: int)
    requires 1 <= m <= 12
    ensures 28 <= n <= 31
  {
    if m == 2 then (if IsLeap(y) then 29 else 28)
    else if m == 4 || m == 6 || m == 9 || m == 11 then 30
    else 31
  }

  /** Days of year `y` that precede the first of month `m`; month 13 stands for the year's end. */
  function DaysBeforeMonth(y: int, m: int): int
    requires 1 <= m <= 13
  {
    var leap := if IsLeap(y) then 1 else 0;
    if m == 1 then 0
    else if m == 2 then 31
    else if m == 3 then 59 + leap
    else if m == 4 then 90 + leap
    else if m == 5 then 120 + leap
    else if m == 6 then 151 + leap
    else if m == 7 then 181 + leap
    else if m == 8 then 212 + leap
    else if m == 9 then 243 + leap
    else if m == 10 then 273 + leap
    else if m == 11 then 304 + leap
    else if m == 12 then 334 + leap
    else 365 + leap
  }

  lemma DaysBeforeMonthStep(y: int, m: int)
    requires 1 <= m <= 12
    ensures DaysBeforeMonth(y, m + 1) == DaysBeforeMonth(y, m) + DaysInMonth(y, m)
    ensures DaysBeforeMonth(y, 13) == DaysInYear(y)
  {
  }

  /** Day number of January 1st of year `y`, counted from 1970 in whole years. */
  function YearStart(y: int): int
    decreases if y < 1970 then 1970 - y else y - 1970
  {
    if y == 1970 then 0
    else if y > 1970 then YearStart(y - 1) + DaysInYear(y - 1)
    else YearStart(y + 1) - DaysInYear(y)
  }

  lemma YearStartStep(y: int)
    ensures YearStart(y + 1) == YearStart(y) + DaysInYear(y)
  {
  }

  /** Years further on start at least 365 days per year later. */
  lemma {:induction false} YearStartGrows(y: int, k: nat)
    ensures YearStart(y + k) >= YearStart(y) + 365 * k
    decreases k
  {
    if k > 0 {
      YearStartGrows(y, k - 1);
      YearStartStep(y + k - 1);
    }
  }

  /**
   * The day number JavaScript gives `new Date(y, m0, d)` at local midnight: a month
   * index outside 0..11 carries into the year, and any day of month (0 included) is
   * counted from the first of the normalised month.
   */
  function MakeDay(y: int, m0: int, d: int): int {
    var year := y + m0 / 12;
    var month := m0 % 12 + 1;
    YearStart(year) + DaysBeforeMonth(year, month) + d - 1
  }

  /** The year that day `d` belongs to, searched upwards from 1970 or downwards from 1969. */
  function YearOf(d: int): (y: int)
    ensures YearStart(y) <= d < YearStart(y + 1)
  {
    if d >= 0 then YearUp(1970, d) else YearDown(1969, d)
  }

  function YearUp(y: int, d: int): (r: int)
    requires YearStart(y) <= d
    ensures YearStart(r) <= d < YearStart(r + 1)
    decreases d - YearStart(y)
  {
    YearStartStep(y);
    if d < YearStart(y + 1) then y else YearUp(y + 1, d)
  }

  function YearDown(y: int, d: int): (r: int)
    requires d < YearStart(y + 1)
    ensures YearStart(r) <= d < YearStart(r + 1)
    decreases YearStart(y + 1) - d
  {
    YearStartStep(y);
    if YearStart(y) <= d then y else YearDown(y - 1, d)
  }

  /** Any year whose span contains `d` is the year `YearOf` finds. */
  lemma {:induction false} YearOfUnique(d: int, y: int)
    requires YearStart(y) <= d < YearStart(y + 1)
    ensures YearOf(d) == y
  {
    var r := YearOf(d);
    if r < y {
      YearStartGrows(r + 1, y - r - 1);
      YearStartStep(r);
    } else if r > y {
      YearStartGrows(y + 1, r - y - 1);
      YearStartStep(y);
    }
  }

  /** The month (1..12) of year `y` that day `d` of that year belongs to. */
  function MonthOf(y: int, d: int): (m: int)
    requires YearStart(y) <= d < YearStart(y + 1)
    ensures 1 <= m <= 12
    ensures DaysBeforeMonth(y, m) <= d - YearStart(y) < DaysBeforeMonth(y, m + 1)
  {
    YearStartStep(y);
    MonthFrom(y, 1, d - YearStart(y))
  }

  function MonthFrom(y: int, m: int, offset: int): (r: int)
    requires 1 <= m <= 12
    requires DaysBeforeMonth(y, m) <= offset < DaysInYear(y)
    ensures m <= r <= 12
    ensures DaysBeforeMonth(y, r) <= offset < DaysBeforeMonth(y, r + 1)
    decreases 12 - m
  {
    DaysBeforeMonthStep(y, m);
    if m == 12 || offset < DaysBeforeMonth(y, m + 1) then m else MonthFrom(y, m + 1, offset)
  }

  /** Months start later the later they come in the year. */
  lemma DaysBeforeMonthMonotone(y: int, m: int, n: int)
    requires 1 <= m <= n <= 13
    ensures DaysBeforeMonth(y, m) <= DaysBeforeMonth(y, n)
  {
  }

  /** Two months of one year whose spans both hold the same offset are the same month. */
  lemma SameMonth(y: int, offset: int, r: int, m: int)
    requires 1 <= r <= 12 && 1 <= m <= 12
    requires DaysBeforeMonth(y, r) <= offset < DaysBeforeMonth(y, r + 1)
    requires DaysBeforeMonth(y, m) <= offset < DaysBeforeMonth(y, m + 1)
    ensures r == m
  {
    if r < m {
      DaysBeforeMonthMonotone(y, r + 1, m);
    } else if r > m {
      DaysBeforeMonthMonotone(y, m + 1, r);
    }
  }

  /** Any month whose span holds the day is the month `MonthOf` finds. */
  lemma MonthOfUnique(y: int, d: int, m: int)
    requires YearStart(y) <= d < YearStart(y + 1)
    requires 1 <= m <= 12
    requires DaysBeforeMonth(y, m) <= d - YearStart(y) < DaysBeforeMonth(y, m + 1)
    ensures MonthOf(y, d) == m
  {
    SameMonth(y, d - YearStart(y), MonthOf(y, d), m);
  }

  /** `getFullYear()`, `getMonth()` (0-based) and `getDate()` of an instant. */
  function FullYear(t: int): int { YearOf(DayOf(t)) }

  function Month0(t: int): (m: int)
    ensures 0 <= m <= 11
  {
    MonthOf(YearOf(DayOf(t)), DayOf(t)) - 1
  }

  function DateOfMonth(t: int): (dm: int)
    ensures 1 <= dm <= 31
  {
    var y := YearOf(DayOf(t));
    var m := MonthOf(y, DayOf(t));
    DaysBeforeMonthStep(y, m);
    DayOf(t) - YearStart(y) - DaysBeforeMonth(y, m) + 1
  }

  /** The day of a year, month and day of month found for day `d` rebuilds to `d`. */
  lemma MakeDayOfParts(d: int, y: int, m: int, m0: int, dm: int)
    requires YearStart(y) <= d < YearStart(y + 1)
    requires 1 <= m <= 12 && m0 == m - 1
    requires dm == d - YearStart(y) - DaysBeforeMonth(y, m) + 1
    ensures MakeDay(y, m0, dm) == d
  {
    assert m0 / 12 == 0 && m0 % 12 + 1 == m;
  }

  /**
   * `new Date(y, m0, d)` for a day of month the month has: `getFullYear`, `getMonth`
   * and `getDate` read back the carried year, the month index modulo 12 and `d`.
   */
  lemma MakeDayParts(y: int, m0: int, d: int)
    requires 1 <= d <= DaysInMonth(y + m0 / 12, m0 % 12 + 1)
    ensures var t := Midnight(MakeDay(y, m0, d));
            FullYear(t) == y + m0 / 12 && Month0(t) == m0 % 12 && DateOfMonth(t) == d
  {
    var day := MakeDay(y, m0, d);
    DayOfMidnight(day, 0);
    assert DayOf(Midnight(day)) == day;
    DayParts(day, y + m0 / 12, m0 % 12 + 1, d);
  }

  /** Day `d` of month `m` of year `y` lies in that year and month, `d - 1` days after its first. */
  lemma DayParts(day: int, y: int, m: int, d: int)
    requires 1 <= m <= 12 && 1 <= d <= DaysInMonth(y, m)
    requires day == YearStart(y) + DaysBeforeMonth(y, m) + d - 1
    ensures YearOf(day) == y && MonthOf(y, day) == m
  {
    DaysBeforeMonthStep(y, m);
    DaysBeforeMonthMonotone(y, m + 1, 13);
    YearStartStep(y);
    YearOfUnique(day, y);
    MonthOfUnique(y, day, m);
  }

  /** Rebuilding a day from its year, month and day of month gives the day back. */
  lemma CivilRoundTrip(t: int)
    ensures MakeDay(FullYear(t), Month0(t), DateOfMonth(t)) == DayOf(t)
  {
    var y := FullYear(t);
    MakeDayOfParts(DayOf(t), y, MonthOf(y, DayOf(t)), Month0(t), DateOfMonth(t));
  }

  /** `new Date(y, 0, 1)` falls in year `y`, at day 1 of month 1. */
  lemma YearOfYearStart(y: int)
    ensures YearOf(YearStart(y)) == y
  {
    YearStartStep(y);
    YearOfUnique(YearStart(y), y);
  }
}
