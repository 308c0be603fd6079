/**
 * Calendar years of `java.util.Date` instants. A date is its epoch time in milliseconds
 * (`Date.getTime()`); the year is the one `Calendar.get(Calendar.YEAR)` reports for that
 * instant, taken here in UTC on the proleptic Gregorian calendar.
 */
module Dates {

  const MillisPerDay: int := 86_400_000

  /** Gregorian leap years: divisible by 4, except centuries not divisible by 400. */
  predicate IsLeapYear(year: int) {
    year % 4 == 0 && (year % 100 != 0 || year % 400 == 0)
  }

  function DaysInYear(year: int): int {
    if IsLeapYear(year) then 366 else 365
  }

  /** The year holding the day `days` days after January 1st of `year` (counting backwards when negative). */
  function YearFrom(year: int, days: int): int
    decreases if days < 0 then 1 else 0, if days < 0 then -days else days
  {
    if days < 0 then YearFrom(year - 1, days + DaysInYear(year - 1))
    else if days >= DaysInYear(year) then YearFrom(year + 1, days - DaysInYear(year))
    else year
  }

  /**
   * The astronomical year of the instant `millis` milliseconds after 1970-01-01T00:00Z: year 0 is
   * 1 BC, year -1 is 2 BC, and so on.
   */
  function AstronomicalYear(millis: int): int {
    YearFrom(1970, millis / MillisPerDay)
  }

  /**
   * `Calendar.get(Calendar.YEAR)`: the year of era, which is never below 1. A date BC reports
   * its year counted backwards from 1 BC (the era itself sits in a separate field).
   */
  function YearOf(millis: int): (y: int)
    ensures y >= 1
    ensures AstronomicalYear(millis) >= 1 ==> y == AstronomicalYear(millis)
    ensures AstronomicalYear(millis) <= 0 ==> y + AstronomicalYear(millis) == 1
  {
    var a := AstronomicalYear(millis);
    if a <= 0 then 1 - a else a
  }

  /** Years BC and AD with the same number cannot be told apart by `YEAR` alone. */
  lemma {:induction false} EraYearsCollide(ad: int, bc: int)
    requires AstronomicalYear(ad) >= 1 && AstronomicalYear(bc) == 1 - AstronomicalYear(ad)
    ensures YearOf(ad) == YearOf(bc)
  {
  }

  /** The epoch instant falls in 1970, the millisecond before it in 1969, and 1971 starts 365 days later. */
  lemma YearOfEpoch()
    ensures YearOf(0) == 1970
    ensures YearOf(-1) == 1969
    ensures YearOf(365 * MillisPerDay) == 1971
  {
    assert -1 / MillisPerDay == -1;
    assert YearFrom(1969, 364) == 1969;
    assert YearFrom(1971, 0) == 1971;
    assert AstronomicalYear(-1) == 1969;
  }
}
