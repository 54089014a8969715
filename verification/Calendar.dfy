/**
 Dates in UTC, after section 21.4.1 of ECMA-262. A time is a number of milliseconds since 1970; days, years and months
 are counted as there, months from 0.
 */
module Calendar {
  const HOUR := 3_600_000
  const DAY := 86_400_000

  type Month = m: int | 0 <= m < 12

  function DayOf(t: int): int {
    t / DAY
  }

  function HourOf(t: int): int {
    t % DAY / HOUR
  }

  predicate IsLeap(y: int) {
    y % 4 == 0 && (y % 100 != 0 || y % 400 == 0)
  }

  function DayFromYear(y: int): int {
    365 * (y - 1970) + (y - 1969) / 4 - (y - 1901) / 100 + (y - 1601) / 400
  }

  function LeapDay(y: int): (days: int)
    ensures 0 <= days <= 1
  {
    if IsLeap(y) then 1 else 0
  }

  lemma Fourths(y: int)
    ensures (y - 1968) / 4 == (y - 1969) / 4 + (if y % 4 == 0 then 1 else 0)
  {
  }

  lemma Hundredths(y: int)
    ensures (y - 1900) / 100 == (y - 1901) / 100 + (if y % 100 == 0 then 1 else 0)
  {
  }

  lemma FourHundredths(y: int)
    ensures (y - 1600) / 400 == (y - 1601) / 400 + (if y % 400 == 0 then 1 else 0)
  {
  }

  lemma FourHundredIsHundred(y: int)
    requires y % 400 == 0
    ensures y % 100 == 0
  {
    var q := y / 400;
    assert y == 100 * (4 * q);
  }

  lemma HundredIsFour(y: int)
    requires y % 100 == 0
    ensures y % 4 == 0
  {
    var q := y / 100;
    assert y == 4 * (25 * q);
  }

  lemma LeapCount(y: int)
    ensures LeapDay(y) ==
            (if y % 4 == 0 then 1 else 0) - (if y % 100 == 0 then 1 else 0) + (if y % 400 == 0 then 1 else 0)
  {
    if y % 400 == 0 {
      FourHundredIsHundred(y);
    }
    if y % 100 == 0 {
      HundredIsFour(y);
    }
  }

  lemma YearLength(y: int)
    ensures DayFromYear(y + 1) == DayFromYear(y) + 365 + LeapDay(y)
  {
    hide IsLeap, LeapDay;
    Fourths(y);
    Hundredths(y);
    FourHundredths(y);
    LeapCount(y);
  }

  /** The first year from `y` on that ends after the day. */
  function YearSearch(day: int, y: int): (year: int)
    requires DayFromYear(y) <= day
    ensures DayFromYear(year) <= day < DayFromYear(year + 1)
    ensures DayFromYear(year + 1) == DayFromYear(year) + MonthStart(12, LeapDay(year))
    decreases day - DayFromYear(y)
  {
    YearLength(y);
    if day < DayFromYear(y + 1) then y else YearSearch(day, y + 1)
  }

  function YearOfDay(day: int): (year: int)
    ensures DayFromYear(year) <= day < DayFromYear(year + 1)
    ensures DayFromYear(year + 1) == DayFromYear(year) + MonthStart(12, LeapDay(year))
  {
    YearSearch(day, if day < 0 then 1970 + day else 1970)
  }

  lemma {:induction false} YearsIncrease(y: int, z: int)
    requires y <= z
    ensures DayFromYear(y) <= DayFromYear(z)
    decreases z - y
  {
    hide DayFromYear;
    if y < z {
      YearLength(z - 1);
      YearsIncrease(y, z - 1);
    }
  }

  lemma YearUnique(day: int, y: int)
    requires DayFromYear(y) <= day < DayFromYear(y + 1)
    ensures YearOfDay(day) == y
  {
    hide YearOfDay, DayFromYear;
    var z := YearOfDay(day);
    if z < y {
      YearsIncrease(z + 1, y);
    } else if y < z {
      YearsIncrease(y + 1, z);
    }
  }

  /** How many days a year has before a month; month 12 is the end of the year. */
  function MonthStart(m: int, leap: int): int
    requires 0 <= m <= 12
  {
    if m <= 1 then 31 * m
    else if m == 2 then 59 + leap
    else if m == 3 then 90 + leap
    else if m == 4 then 120 + leap
    else if m == 5 then 151 + leap
    else if m == 6 then 181 + leap
    else if m == 7 then 212 + leap
    else if m == 8 then 243 + leap
    else if m == 9 then 273 + leap
    else if m == 10 then 304 + leap
    else if m == 11 then 334 + leap
    else 365 + leap
  }

  function MonthSearch(day: int, leap: int, m: Month): (month: Month)
    requires 0 <= leap <= 1 && MonthStart(m, leap) <= day < MonthStart(12, leap)
    ensures MonthStart(month, leap) <= day < MonthStart(month + 1, leap)
    decreases 12 - m
  {
    if day < MonthStart(m + 1, leap) then m else MonthSearch(day, leap, m + 1)
  }

  function MonthOfYear(day: int, y: int): (month: Month)
    requires DayFromYear(y) <= day < DayFromYear(y) + MonthStart(12, LeapDay(y))
    ensures DayFromYear(y) + MonthStart(month, LeapDay(y)) <= day < DayFromYear(y) + MonthStart(month + 1, LeapDay(y))
  {
    MonthSearch(day - DayFromYear(y), LeapDay(y), 0)
  }

  function MonthOfDay(day: int): (month: Month)
    ensures var y := YearOfDay(day);
            DayFromYear(y) + MonthStart(month, LeapDay(y)) <= day < DayFromYear(y) + MonthStart(month + 1, LeapDay(y))
  {
    MonthOfYear(day, YearOfDay(day))
  }

  function DateOfDay(day: int): int {
    day - DayFromYear(YearOfDay(day)) - MonthStart(MonthOfDay(day), LeapDay(YearOfDay(day))) + 1
  }

  /** Months and dates out of range carry over. */
  function MakeDay(year: int, month: int, date: int): int {
    var y := year + month / 12;
    DayFromYear(y) + MonthStart(month % 12, LeapDay(y)) + date - 1
  }

  /** `Date.UTC`: a year before 100 is taken for one of the twentieth century. */
  function Utc(year: int, month: int, date: int, hour: int): int {
    MakeDay(if 0 <= year <= 99 then 1900 + year else year, month, date) * DAY + hour * HOUR
  }

  lemma MonthsIncrease(m: int, n: int, leap: int)
    requires 0 <= m <= n <= 12 && 0 <= leap <= 1
    ensures MonthStart(m, leap) <= MonthStart(n, leap)
  {
  }

  lemma OneMonth(day: int, leap: int, m: Month, n: Month)
    requires 0 <= leap <= 1
    requires MonthStart(m, leap) <= day < MonthStart(m + 1, leap)
    requires MonthStart(n, leap) <= day < MonthStart(n + 1, leap)
    ensures m == n
  {
    if n < m {
      MonthsIncrease(n + 1, m, leap);
    } else if m < n {
      MonthsIncrease(m + 1, n, leap);
    }
  }

  lemma MonthUnique(day: int, y: int, m: Month)
    requires DayFromYear(y) + MonthStart(m, LeapDay(y)) <= day < DayFromYear(y) + MonthStart(m + 1, LeapDay(y))
    ensures YearOfDay(day) == y && MonthOfDay(day) == m
  {
    hide YearOfDay, MonthOfDay, DayFromYear, IsLeap;
    YearLength(y);
    MonthsIncrease(m + 1, 12, LeapDay(y));
    MonthsIncrease(0, m, LeapDay(y));
    YearUnique(day, y);
    OneMonth(day - DayFromYear(y), LeapDay(y), m, MonthOfDay(day));
  }

  lemma MakeDayInYear(year: int, month: Month, date: int)
    ensures MakeDay(year, month, date) == DayFromYear(year) + MonthStart(month, LeapDay(year)) + date - 1
  {
    hide YearOfDay, MonthOfDay, DayFromYear, IsLeap;
    assert month / 12 == 0 && month % 12 == month;
  }

  /** A day is put together again from its year, month and date. */
  lemma MakeDayParts(day: int)
    ensures MakeDay(YearOfDay(day), MonthOfDay(day), DateOfDay(day)) == day
  {
    hide YearOfDay, MonthOfDay, DayFromYear, IsLeap;
    MakeDayInYear(YearOfDay(day), MonthOfDay(day), DateOfDay(day));
  }

  /** The month after a year's month begins where that month ends, in December too. */
  lemma NextMonth(year: int, month: Month)
    ensures MakeDay(year, month + 1, 1) == DayFromYear(year) + MonthStart(month + 1, LeapDay(year))
  {
    hide YearOfDay, MonthOfDay, DayFromYear, IsLeap;
    if month < 11 {
      MakeDayInYear(year, month + 1, 1);
    } else {
      assert (month + 1) / 12 == 1 && (month + 1) % 12 == 0;
      YearLength(year);
    }
  }

  // ---------------------------------------------------------------- the calendar itself

  /** Thirty days have April, June, September and November; February has 28, or 29 in a leap year; the others have 31. */
  lemma MonthLengths(month: Month, leap: int)
    ensures MonthStart(month + 1, leap) - MonthStart(month, leap) ==
            if month == 1 then 28 + leap
            else if month == 3 || month == 5 || month == 8 || month == 10 then 30
            else 31
    ensures MonthStart(0, leap) == 0
  {
  }

  /** Every fourth year is a leap year, but of the full centuries only every fourth. Day 0 began the year 1970. */
  lemma YearLengths(y: int)
    ensures DayFromYear(y + 1) - DayFromYear(y) ==
            if y % 400 == 0 then 366 else if y % 100 == 0 then 365 else if y % 4 == 0 then 366 else 365
    ensures DayFromYear(1970) == 0
  {
    YearLength(y);
    if y % 400 == 0 {
      FourHundredIsHundred(y);
    }
    if y % 100 == 0 {
      HundredIsFour(y);
    }
  }

  lemma HourAndDay()
    ensures HOUR == 60 * 60 * 1000 && DAY == 24 * HOUR
  {
  }
}
