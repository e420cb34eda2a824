/** The calendar arithmetic of the ad-hoc scripts: Gregorian leap years,
 *  calendar-year lengths in seconds, and the fixed cycle lengths the
 *  lunar and diurnal phases are normalised by. */
module Calendar {
  const DAY_SECS: nat := 86400

  /** The mean synodic month, 29.53059 days, in seconds. */
  const LUNAR_CYCLE_SECS: real := 29.53059 * 86400.0

  /** `is_leap_year`: divisible by 4 and not by 100, or divisible by 400.
   *  Python's `%` and Dafny's agree here: both are non-negative for a
   *  positive divisor. */
  predicate IsLeapYear(year: int)
  {
    (year % 4 == 0 && year % 100 != 0) || year % 400 == 0
  }

  /** `year_length_seconds`. */
  function YearLengthSeconds(year: int): (s: nat)
    ensures s == (if IsLeapYear(year) then 366 else 365) * DAY_SECS
    ensures s >= 365 * DAY_SECS
  {
    if IsLeapYear(year) then 366 * DAY_SECS else 365 * DAY_SECS
  }

  /** The exceptions of the rule: century years are common years unless
   *  divisible by 400, and years not divisible by 4 are never leap years. */
  lemma LeapYearRule(year: int)
    ensures year % 4 != 0 ==> !IsLeapYear(year)
    ensures year % 100 == 0 && year % 400 != 0 ==> !IsLeapYear(year)
    ensures year % 400 == 0 ==> IsLeapYear(year)
    ensures year % 4 == 0 && year % 100 != 0 ==> IsLeapYear(year)
  {
  }

  /** The rule repeats every 400 years. */
  lemma LeapYearShift(year: int)
    ensures IsLeapYear(year + 400) == IsLeapYear(year)
  {
    assert (year + 400) % 4 == year % 4;
    assert (year + 400) % 100 == year % 100;
    assert (year + 400) % 400 == year % 400;
  }

  lemma {:induction false} LeapYearPeriodic(year: int, m: nat)
    ensures IsLeapYear(year + 400 * m) == IsLeapYear(year)
    ensures IsLeapYear(year - 400 * m) == IsLeapYear(year)
  {
    if m > 0 {
      LeapYearPeriodic(year, m - 1);
      LeapYearShift(year + 400 * (m - 1));
      LeapYearShift(year - 400 * m);
    }
  }

  /** Some reference years. */
  lemma LeapYearExamples()
    ensures IsLeapYear(2000) && IsLeapYear(2024) && IsLeapYear(1972)
    ensures !IsLeapYear(1900) && !IsLeapYear(2100) && !IsLeapYear(2023)
    ensures YearLengthSeconds(2000) == 31622400 && YearLengthSeconds(1900) == 31536000
  {
  }
}
