/** The rolling-window stationarity analysis: 62 overlapping ten-year
 *  windows of the catalog, the k = 24 bin counts and the Rayleigh
 *  results of each, and the summary that counts the significant windows,
 *  classifies the signal's stationarity and checks the 1970s anomaly. */
module Stationarity {
  import opened Numerics
  import opened Binning
  import opened Phase

  const WINDOW_YEARS: nat := 10
  const STEP_YEARS: nat := 1
  const K_BINS: nat := 24
  const FIRST_START: int := 1950
  const LAST_YEAR: int := 2021
  const EXPECTED_WINDOWS: nat := 62

  // ---------------------------------------------------------------------
  // Windows
  // ---------------------------------------------------------------------

  /** `range(1950, 2021 - WINDOW_YEARS + 1)`. */
  function WindowStarts(): (ws: seq<int>)
    ensures |ws| == LAST_YEAR - WINDOW_YEARS + 1 - FIRST_START
    ensures forall i :: 0 <= i < |ws| ==> ws[i] == FIRST_START + i
  {
    seq(LAST_YEAR - WINDOW_YEARS + 1 - FIRST_START, i => FIRST_START + i)
  }

  /** The starts run from 1950 to 2011 in steps of one year: 62 windows. */
  lemma WindowStartsRange()
    ensures |WindowStarts()| == EXPECTED_WINDOWS
    ensures WindowStarts()[0] == 1950 && WindowStarts()[EXPECTED_WINDOWS - 1] == 2011
    ensures forall i :: 0 <= i < |WindowStarts()| - 1 ==> WindowStarts()[i + 1] == WindowStarts()[i] + STEP_YEARS
  {
  }

  datatype Event = Event(year: int, solarSecs: real)

  predicate InWindow(year: int, start: int)
  {
    start <= year < start + WINDOW_YEARS
  }

  /** The events of the window starting at the given year, in catalog
   *  order. */
  function WindowEvents(events: seq<Event>, start: int): (r: seq<Event>)
    ensures |r| <= |events|
    ensures forall i :: 0 <= i < |r| ==> InWindow(r[i].year, start) && r[i] in events
  {
    if events == [] then []
    else
      var last := events[|events| - 1];
      WindowEvents(events[..|events| - 1], start) + (if InWindow(last.year, start) then [last] else [])
  }

  /** Every event of the window's years is in the window. */
  lemma {:induction false} WindowEventsComplete(events: seq<Event>, start: int, i: nat)
    requires i < |events| && InWindow(events[i].year, start)
    ensures events[i] in WindowEvents(events, start)
  {
    if i < |events| - 1 {
      WindowEventsComplete(events[..|events| - 1], start, i);
    }
  }

  /** The solar phases of a window's events. */
  function PhasesOf(events: seq<Event>): (r: seq<real>)
    ensures |r| == |events|
    ensures forall i :: 0 <= i < |r| ==> 0.0 <= r[i] < 1.0
  {
    seq(|events|, i requires 0 <= i < |events| => SolarPhase(events[i].solarSecs))
  }

  /** The bin indices of `compute_chi2_k24`: `astype(int)` truncates, then
   *  the clip. */
  function TruncatedBins(phases: seq<real>, k: nat): (r: seq<nat>)
    requires k > 0
    ensures |r| == |phases|
    ensures forall i :: 0 <= i < |r| ==> r[i] < k
  {
    seq(|phases|, i requires 0 <= i < |phases| => TruncatedBin(phases[i], k))
  }

  function TruncatedBin(phase: real, k: nat): (b: nat)
    requires k > 0
    ensures b < k
  {
    Clip(Trunc(phase * k as real), k)
  }

  /** `np.histogram(bin_indices, bins=range(k + 1))` over indices below k. */
  function WindowCounts(phases: seq<real>, k: nat): (r: seq<nat>)
    requires k > 0
    ensures |r| == k
  {
    Histogram(TruncatedBins(phases, k), k)
  }

  /** Truncating before the clip gives the clipped counts of the other
   *  analyses, so the k counts add up to the window's size. */
  lemma WindowCountsAreClipped(phases: seq<real>, k: nat)
    requires k > 0
    ensures WindowCounts(phases, k) == ClippedCounts(phases, k)
    ensures SumNat(WindowCounts(phases, k)) == |phases|
  {
    forall i | 0 <= i < |phases|
      ensures TruncatedBins(phases, k)[i] == BinIndices(phases, k)[i]
    {
      TruncClipIsBinIndex(phases[i], k);
    }
    assert TruncatedBins(phases, k) == BinIndices(phases, k);
  }

  /** What `compute_rayleigh` returns for a sequence of phases; its
   *  trigonometry is not modelled. */
  datatype Rayleigh = Rayleigh(r: real, z: real, p: real, meanPhase: real)

  datatype Window = Window(
    windowStart: int, windowEnd: int, n: nat,
    rayleighR: real, rayleighZ: real, pRayleigh: real, meanPhase: real,
    chi2K24: real, pChi2K24: real, is1970sWindow: bool)

  /** One window: its events, the Rayleigh results and the chi-square
   *  test of its k = 24 counts (`chisquare` maps counts to the statistic
   *  and its p-value). */
  function WindowOf(events: seq<Event>, start: int, rayleigh: seq<real> -> Rayleigh,
                    chisquare: seq<nat> -> (real, real)): (w: Window)
    ensures w.windowStart == start && w.windowEnd == start + WINDOW_YEARS - 1
    ensures w.n == |WindowEvents(events, start)|
    ensures w.is1970sWindow <==> 1970 <= start <= 1979
  {
    var subset := WindowEvents(events, start);
    var phases := PhasesOf(subset);
    var ray := rayleigh(phases);
    var chi := chisquare(WindowCounts(phases, K_BINS));
    Window(start, start + WINDOW_YEARS - 1, |subset|, ray.r, ray.z, ray.p, ray.meanPhase, chi.0, chi.1,
           1970 <= start <= 1979)
  }

  function Windows(events: seq<Event>, rayleigh: seq<real> -> Rayleigh, chisquare: seq<nat> -> (real, real))
    : (ws: seq<Window>)
    ensures |ws| == |WindowStarts()|
    ensures forall i :: 0 <= i < |ws| ==> ws[i] == WindowOf(events, WindowStarts()[i], rayleigh, chisquare)
  {
    seq(|WindowStarts()|, i requires 0 <= i < |WindowStarts()| => WindowOf(events, WindowStarts()[i], rayleigh, chisquare))
  }

  /** `run_rolling_windows`: one window record per start year. */
  method RunRollingWindows(events: seq<Event>, rayleigh: seq<real> -> Rayleigh, chisquare: seq<nat> -> (real, real))
    returns (windows: seq<Window>)
    ensures windows == Windows(events, rayleigh, chisquare)
  {
    var windowStarts := WindowStarts();
    windows := [];
    var i := 0;
    while i < |windowStarts|
      invariant 0 <= i <= |windowStarts|
      invariant windows == Windows(events, rayleigh, chisquare)[..i]
    {
      var y := windowStarts[i];
      var yEnd := y + WINDOW_YEARS - 1;
      var subset := WindowEvents(events, y);
      var phases := PhasesOf(subset);
      var ray := rayleigh(phases);
      var chi := chisquare(WindowCounts(phases, K_BINS));
      var is1970s := 1970 <= y <= 1979;
      windows := windows + [Window(y, yEnd, |subset|, ray.r, ray.z, ray.p, ray.meanPhase, chi.0, chi.1, is1970s)];
      i := i + 1;
    }
  }

  /** The window list always has the 62 windows `main` asserts; windows
   *  21 to 30 (indices 20 to 29) are the 1970s windows. */
  lemma WindowsShape(events: seq<Event>, rayleigh: seq<real> -> Rayleigh, chisquare: seq<nat> -> (real, real))
    ensures var ws := Windows(events, rayleigh, chisquare);
      |ws| == EXPECTED_WINDOWS &&
      forall i :: 0 <= i < |ws| ==> (ws[i].is1970sWindow <==> 20 <= i <= 29)
  {
  }

  /** Every event lies in exactly the windows whose start is at most its
   *  year and more than nine years before it. */
  lemma EventInWindow(events: seq<Event>, e: nat, i: nat)
    requires e < |events| && i < EXPECTED_WINDOWS
    ensures events[e] in WindowEvents(events, WindowStarts()[i]) <==>
      FIRST_START + i <= events[e].year <= FIRST_START + i + WINDOW_YEARS - 1
  {
    WindowStartsRange();
    if InWindow(events[e].year, WindowStarts()[i]) {
      WindowEventsComplete(events, WindowStarts()[i], e);
    }
  }

  // ---------------------------------------------------------------------
  // The summary
  // ---------------------------------------------------------------------

  const STATIONARY: string := "stationary"
  const PARTIALLY_STATIONARY: string := "partially stationary"
  const NON_STATIONARY: string := "non-stationary"

  /** `classify_stationarity` on the share of significant windows and the
   *  circular standard deviation of their mean phases. */
  function ClassifyStationarity(nSig: nat, nWindows: nat, circStdDeg: real): (c: string)
    requires nWindows > 0
    ensures var pct := nSig as real / nWindows as real;
      (c == STATIONARY <==> pct >= 0.70 && circStdDeg < 20.0) &&
      (c == NON_STATIONARY <==> !(pct >= 0.70 && circStdDeg < 20.0) && (pct < 0.30 || circStdDeg > 40.0)) &&
      (c == PARTIALLY_STATIONARY <==> !(pct >= 0.70 && circStdDeg < 20.0) && !(pct < 0.30 || circStdDeg > 40.0))
  {
    var pctSig := nSig as real / nWindows as real;
    if pctSig >= 0.70 && circStdDeg < 20.0 then STATIONARY
    else if pctSig < 0.30 || circStdDeg > 40.0 then NON_STATIONARY
    else PARTIALLY_STATIONARY
  }

  /** The number of windows whose Rayleigh p-value is below a threshold. */
  function CountBelow(windows: seq<Window>, threshold: real): (c: nat)
    ensures c <= |windows|
  {
    if windows == [] then 0
    else CountBelow(windows[..|windows| - 1], threshold) + (if windows[|windows| - 1].pRayleigh < threshold then 1 else 0)
  }

  /** A smaller threshold counts no more windows. */
  lemma {:induction false} CountBelowMonotone(windows: seq<Window>, t1: real, t2: real)
    requires t1 <= t2
    ensures CountBelow(windows, t1) <= CountBelow(windows, t2)
  {
    if windows != [] {
      CountBelowMonotone(windows[..|windows| - 1], t1, t2);
    }
  }

  /** The R values of the windows in or out of the 1970s, in order. */
  function RValues(windows: seq<Window>, in1970s: bool): (rs: seq<real>)
    ensures |rs| <= |windows|
  {
    if windows == [] then []
    else
      var w := windows[|windows| - 1];
      RValues(windows[..|windows| - 1], in1970s) + (if w.is1970sWindow == in1970s then [w.rayleighR] else [])
  }

  /** `float(np.mean(xs)) if xs else 0.0`. */
  function MeanOrZero(xs: seq<real>): real
  {
    if xs == [] then 0.0 else Sum(xs) / |xs| as real
  }

  function AnomalyRatio(mean1970s: real, meanNon1970s: real): (r: real)
    ensures meanNon1970s <= 0.0 ==> r == 0.0
    ensures meanNon1970s > 0.0 ==> r * meanNon1970s == mean1970s
  {
    if meanNon1970s > 0.0 then mean1970s / meanNon1970s else 0.0
  }

  const ANOMALY_RATIO: real := 1.5

  datatype Summary = Summary(
    nWindows: nat, nSignificantRayleighP05: nat, nBonferroniSignificant: nat, bonferroniThreshold: real,
    circularStdDeg: real, circularVariance: real, classification: string,
    mean1970sR: real, meanNon1970sR: real, anomalyRatio: real, anomalyFlagged: bool)

  /** `compute_stationarity`; `circularStd` maps the mean phases to the
   *  circular variance and the circular standard deviation in degrees. */
  function ComputeStationarity(windows: seq<Window>, circularStd: seq<real> -> (real, real)): (s: Summary)
    requires |windows| > 0
    ensures s.nWindows == |windows|
    ensures s.nBonferroniSignificant <= s.nSignificantRayleighP05 <= s.nWindows
    ensures s.classification == ClassifyStationarity(s.nSignificantRayleighP05, s.nWindows, s.circularStdDeg)
    ensures RValues(windows, false) == [] ==> s.anomalyRatio == 0.0
    ensures s.anomalyFlagged <==> s.anomalyRatio > ANOMALY_RATIO
  {
    var nWindows := |windows|;
    var bonferroni := 0.05 / nWindows as real;
    var nSig := CountBelow(windows, 0.05);
    var nBonferroni := CountBelow(windows, bonferroni);
    QuotientAtMostOne(1.0, nWindows as real);
    assert bonferroni == 0.05 * (1.0 / nWindows as real);
    CountBelowMonotone(windows, bonferroni, 0.05);
    var meanPhases := seq(nWindows, i requires 0 <= i < nWindows => windows[i].meanPhase);
    var circ := circularStd(meanPhases);
    var classification := ClassifyStationarity(nSig, nWindows, circ.1);
    var mean1970s := MeanOrZero(RValues(windows, true));
    var meanNon1970s := MeanOrZero(RValues(windows, false));
    var ratio := AnomalyRatio(mean1970s, meanNon1970s);
    Summary(nWindows, nSig, nBonferroni, bonferroni, circ.1, circ.0, classification,
            mean1970s, meanNon1970s, ratio, ratio > ANOMALY_RATIO)
  }

  /** When the non-1970s windows have the same positive mean R as the
   *  1970s windows, the ratio is 1 and no anomaly is flagged. */
  lemma EqualMeansNotFlagged(windows: seq<Window>, circularStd: seq<real> -> (real, real))
    requires |windows| > 0
    requires MeanOrZero(RValues(windows, false)) > 0.0
    requires MeanOrZero(RValues(windows, true)) == MeanOrZero(RValues(windows, false))
    ensures ComputeStationarity(windows, circularStd).anomalyRatio == 1.0
    ensures !ComputeStationarity(windows, circularStd).anomalyFlagged
  {
    QuotientSelf(MeanOrZero(RValues(windows, false)));
  }
}
