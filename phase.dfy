/** Phases of event times with respect to a period: the fractional phase of
 *  the Schuster and MFPA engines and the solar phase of the declustering,
 *  hemisphere, magnitude and stationarity scripts. */
module Phase {
  import opened Numerics

  /** `(t % T) / T` with Python's floor-based float remainder. For T > 0 and
   *  for T < 0 alike this is the fractional part of t / T. */
  function FractionalPhase(t: real, period: real): (r: real)
    requires period != 0.0
    ensures 0.0 <= r < 1.0
    ensures (t / period - r).Floor as real == t / period - r
  {
    Frac(t / period)
  }

  /** Shifting the event time by whole periods leaves its phase unchanged. */
  lemma FractionalPhasePeriodic(t: real, period: real, m: int)
    requires period != 0.0
    ensures FractionalPhase(t + m as real * period, period) == FractionalPhase(t, period)
  {
    assert (t + m as real * period) / period == t / period + m as real;
    FracShift(t / period, m);
  }

  /** The solar-year length in seconds (365.25 days) of the declustering
   *  scripts. */
  const SOLAR_YEAR_SECS: real := 31557600.0

  /** `compute_phase`: `(solar_secs / SOLAR_YEAR_SECS) % 1.0`. */
  function SolarPhase(solarSecs: real): (r: real)
    ensures 0.0 <= r < 1.0
    ensures (solarSecs / SOLAR_YEAR_SECS - r).Floor as real == solarSecs / SOLAR_YEAR_SECS - r
  {
    FractionalPhase(solarSecs, SOLAR_YEAR_SECS)
  }

  /** The start of the solar year has phase 0, and so does a whole year
   *  later: the phase wraps around instead of reaching 1. */
  lemma SolarPhaseWraps(years: int)
    ensures SolarPhase(0.0) == 0.0
    ensures SolarPhase(years as real * SOLAR_YEAR_SECS) == 0.0
  {
    FracUnique(0.0 / SOLAR_YEAR_SECS, 0.0, 0);
    FracUnique(years as real * SOLAR_YEAR_SECS / SOLAR_YEAR_SECS, 0.0, years);
  }

  /** Phases of a whole catalog, element by element. */
  function SolarPhases(solarSecs: seq<real>): (r: seq<real>)
    ensures |r| == |solarSecs|
    ensures forall i :: 0 <= i < |r| ==> 0.0 <= r[i] < 1.0
  {
    seq(|solarSecs|, i requires 0 <= i < |solarSecs| => SolarPhase(solarSecs[i]))
  }
}
