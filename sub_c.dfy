/** Sub-analysis C of the declustering comparison: the phase statistics of
 *  each aftershock catalog, the elevated intervals of a significant
 *  catalog, and the classification of the aftershocks' phase preference
 *  against the mainshock intervals and the A1b baseline intervals. */
module SubC {
  import opened Numerics
  import opened Wrappers
  import opened Phase
  import opened Binning
  import opened ElevatedIntervals
  import SubA
  import SubB

  /** The aftershock catalogs, their display names and the mainshock
   *  catalog each one is compared with, in processing order. */
  const CATALOG_KEYS: seq<string> := ["gk_aftershocks", "reas_aftershocks", "a1b_aftershocks"]
  const CATALOG_NAMES: seq<string> := ["G-K Aftershocks", "Reasenberg Aftershocks", "A1b Aftershocks"]
  const MAINSHOCK_KEYS: seq<string> := ["gk_mainshocks", "reas_mainshocks", "a1b_mainshocks"]

  /** The key of the k = 24 results and its position among the bin counts. */
  const K24_KEY: string := "k24"
  const K24_INDEX: nat := 1

  /** The significance level of the chi-square p-values. */
  const ALPHA: real := 0.05

  /** The overlap fraction above which two intervals count as the same. */
  const MIN_OVERLAP: real := 0.5

  const NO_PREFERENCE: string := "no preference"
  const MATCHES_A1B: string := "significant, intervals match A1b baseline"
  const SAME_AS_MAINSHOCKS: string := "same intervals as mainshocks"
  const DIFFERENT_FROM_MAINSHOCKS: string := "different intervals from mainshocks"

  function EmptyMessage(name: string): string
  {
    "Aftershock catalog " + name + " is empty."
  }

  // ---------------------------------------------------------------------
  // Classification
  // ---------------------------------------------------------------------

  /** The A1b baselines as phase intervals. */
  function BaselineIntervals(): (bs: seq<PhaseInterval>)
    ensures |bs| == |A1B_BASELINES|
    ensures forall j :: 0 <= j < |bs| ==> bs[j].start == A1B_BASELINES[j].start && bs[j].end == A1B_BASELINES[j].end
  {
    seq(|A1B_BASELINES|, j requires 0 <= j < |A1B_BASELINES| => PhaseInterval(A1B_BASELINES[j].start, A1B_BASELINES[j].end))
  }

  /** `any(p < 0.05 for p in p_values_all_k)`. */
  predicate AnySignificant(pValues: seq<real>)
  {
    exists i :: 0 <= i < |pValues| && pValues[i] < ALPHA
  }

  /** More than half of interval a lies inside b. */
  predicate Overlaps(a: PhaseInterval, b: PhaseInterval)
  {
    OverlapFraction(a.start, a.end, b.start, b.end) > MIN_OVERLAP
  }

  /** Some interval of `xs` overlaps some interval of `ys` by more than half
   *  of its own width. */
  predicate AnyOverlap(xs: seq<PhaseInterval>, ys: seq<PhaseInterval>)
  {
    exists i, j :: 0 <= i < |xs| && 0 <= j < |ys| && Overlaps(xs[i], ys[j])
  }

  /** The classification `classify_aftershock_preference` returns. */
  function PreferenceClass(aftershock: seq<PhaseInterval>, mainshock: seq<PhaseInterval>, pValues: seq<real>): (s: string)
    ensures s == NO_PREFERENCE <==> forall i :: 0 <= i < |pValues| ==> pValues[i] >= ALPHA
    ensures s == MATCHES_A1B <==> AnySignificant(pValues) && AnyOverlap(aftershock, BaselineIntervals())
    ensures s == SAME_AS_MAINSHOCKS <==>
      AnySignificant(pValues) && !AnyOverlap(aftershock, BaselineIntervals()) && AnyOverlap(aftershock, mainshock)
    ensures s == DIFFERENT_FROM_MAINSHOCKS <==>
      AnySignificant(pValues) && !AnyOverlap(aftershock, BaselineIntervals()) && !AnyOverlap(aftershock, mainshock)
  {
    if !AnySignificant(pValues) then NO_PREFERENCE
    else if AnyOverlap(aftershock, BaselineIntervals()) then MATCHES_A1B
    else if AnyOverlap(aftershock, mainshock) then SAME_AS_MAINSHOCKS
    else DIFFERENT_FROM_MAINSHOCKS
  }

  /** The classification is always one of the four fixed strings. */
  lemma PreferenceClassIsOneOfFour(aftershock: seq<PhaseInterval>, mainshock: seq<PhaseInterval>, pValues: seq<real>)
    ensures PreferenceClass(aftershock, mainshock, pValues) in
      [NO_PREFERENCE, MATCHES_A1B, SAME_AS_MAINSHOCKS, DIFFERENT_FROM_MAINSHOCKS]
  {
  }

  /** A significant catalog without elevated intervals matches nothing. */
  lemma NoIntervalsAreDifferent(mainshock: seq<PhaseInterval>, pValues: seq<real>)
    requires AnySignificant(pValues)
    ensures PreferenceClass([], mainshock, pValues) == DIFFERENT_FROM_MAINSHOCKS
  {
  }

  /** A non-empty interval lies entirely inside itself. */
  lemma SelfOverlap(a: PhaseInterval)
    requires a.start < a.end
    ensures Overlaps(a, a)
  {
  }

  /** Aftershock intervals that coincide with the mainshock intervals, and
   *  miss every baseline, are classified as the same as the mainshocks'. */
  lemma IdenticalIntervalsAreSame(intervals: seq<PhaseInterval>, pValues: seq<real>)
    requires AnySignificant(pValues)
    requires |intervals| > 0 && intervals[0].start < intervals[0].end
    requires !AnyOverlap(intervals, BaselineIntervals())
    ensures PreferenceClass(intervals, intervals, pValues) == SAME_AS_MAINSHOCKS
  {
    SelfOverlap(intervals[0]);
    assert Overlaps(intervals[0], intervals[0]);
  }

  /** The nested loop of `classify_aftershock_preference`: the flag is set
   *  when some pair overlaps; the `break` leaves only the inner loop. */
  method OverlapFlag(aftershock: seq<PhaseInterval>, others: seq<PhaseInterval>) returns (found: bool)
    ensures found == AnyOverlap(aftershock, others)
  {
    found := false;
    var i := 0;
    while i < |aftershock|
      invariant 0 <= i <= |aftershock|
      invariant found <==> exists q, j :: 0 <= q < i && 0 <= j < |others| && Overlaps(aftershock[q], others[j])
    {
      var j := 0;
      while j < |others|
        invariant 0 <= j <= |others|
        invariant found <==>
          (exists q, r :: 0 <= q < i && 0 <= r < |others| && Overlaps(aftershock[q], others[r])) ||
          (exists r :: 0 <= r < j && Overlaps(aftershock[i], others[r]))
      {
        var frac := OverlapFraction(aftershock[i].start, aftershock[i].end, others[j].start, others[j].end);
        if frac > MIN_OVERLAP {
          found := true;
          assert Overlaps(aftershock[i], others[j]);
          break;
        }
        j := j + 1;
      }
      i := i + 1;
    }
  }

  /** `classify_aftershock_preference`. */
  method ClassifyAftershockPreference(aftershockElevated: seq<PhaseInterval>, mainshockElevated: seq<PhaseInterval>,
    pValuesAllK: seq<real>) returns (s: string)
    ensures s == PreferenceClass(aftershockElevated, mainshockElevated, pValuesAllK)
  {
    if !AnySignificant(pValuesAllK) {
      return NO_PREFERENCE;
    }
    var overlapWithMainshocks := OverlapFlag(aftershockElevated, mainshockElevated);
    var overlapWithA1b := OverlapFlag(aftershockElevated, BaselineIntervals());
    if overlapWithA1b {
      return MATCHES_A1B;
    }
    if overlapWithMainshocks {
      return SAME_AS_MAINSHOCKS;
    }
    return DIFFERENT_FROM_MAINSHOCKS;
  }

  // ---------------------------------------------------------------------
  // One catalog at one bin count
  // ---------------------------------------------------------------------

  /** The statistics `run_sub_c_single` keeps: the chi-square statistic
   *  and its p-value, the bin counts and the elevated intervals. */
  datatype SubCStats = SubCStats(
    n: nat, k: nat, chi2: real, pChi2: real, binCounts: seq<nat>, elevatedIntervals: seq<PhaseInterval>)

  /** The elevated intervals of a catalog at k bins, in the list-merge form. */
  function ElevatedOf(phases: seq<real>, k: nat, tr: Transcendentals): (es: seq<PhaseInterval>)
    requires k > 0
  {
    PhaseIntervals(Runs(ElevatedBins(ClippedCounts(phases, k), Threshold(|phases| as real / k as real, tr))), k)
  }

  /** The statistics of a non-empty catalog; `chi2Sf(x, dof)` is the
   *  chi-square survival function, the p-value of `scipy.stats.chisquare`. */
  function StatsOf(solarSecs: seq<real>, k: nat, chi2Sf: (real, nat) -> real, tr: Transcendentals): (r: SubCStats)
    requires k > 0 && |solarSecs| > 0
    ensures r.n == |solarSecs| && r.k == k
    ensures |r.binCounts| == k && SumNat(r.binCounts) == |solarSecs|
    ensures r.chi2 >= 0.0
    ensures r.pChi2 >= ALPHA ==> r.elevatedIntervals == []
  {
    var n := |solarSecs|;
    var phases := SolarPhases(solarSecs);
    var obs := ClippedCounts(phases, k);
    var expected := n as real / k as real;
    QuotientPositive(n as real, k as real);
    var chi2 := Pearson(obs, expected);
    var p := chi2Sf(chi2, k - 1);
    SubCStats(n, k, chi2, p, obs, if p < ALPHA then ElevatedOf(phases, k, tr) else [])
  }

  /** `run_sub_c_single` as a value: the empty-catalog error, or the
   *  statistics. */
  function SubCSingle(solarSecs: seq<real>, name: string, k: nat, chi2Sf: (real, nat) -> real, tr: Transcendentals)
    : (r: Result<SubCStats>)
    requires k > 0
    ensures r.Failure? <==> |solarSecs| == 0
    ensures r.Failure? ==> r.error == EmptyMessage(name)
    ensures r.Success? ==> r.value == StatsOf(solarSecs, k, chi2Sf, tr)
  {
    if |solarSecs| == 0 then Failure(EmptyMessage(name)) else Success(StatsOf(solarSecs, k, chi2Sf, tr))
  }

  /** A significant catalog's elevated intervals are the (start, end) pairs
   *  of the intervals sub-analysis B recovers from the same catalog. */
  lemma ElevatedMatchesRecovered(phases: seq<real>, k: nat, tr: Transcendentals)
    requires k > 0
    ensures var es := ElevatedOf(phases, k, tr);
      var rec := SubB.RecoveredIntervals(phases, k, tr);
      |es| == |rec| &&
      forall j :: 0 <= j < |es| ==> es[j].start == rec[j].phaseStart && es[j].end == rec[j].phaseEnd
  {
    var es := ElevatedOf(phases, k, tr);
    var rec := SubB.RecoveredIntervals(phases, k, tr);
    var merged := SubB.MergedBins(phases, k, tr);
    assert |es| == |merged| == |rec|;
    forall j | 0 <= j < |es|
      ensures es[j].start == rec[j].phaseStart && es[j].end == rec[j].phaseEnd
    {
      assert rec[j] == SubB.Recovered(phases, merged[j], k, tr);
      assert es[j] == BinsToPhaseInterval(merged[j].first, merged[j].last, k);
    }
  }

  /** `run_sub_c_single`: the empty-catalog guard, the clipped histogram,
   *  the statistic and, for a significant catalog, the elevated
   *  intervals. */
  method RunSubCSingle(solarSecs: seq<real>, name: string, k: nat, chi2Sf: (real, nat) -> real, tr: Transcendentals)
    returns (r: Result<SubCStats>)
    requires k > 0
    ensures r == SubCSingle(solarSecs, name, k, chi2Sf, tr)
  {
    var n := |solarSecs|;
    if n == 0 {
      return Failure(EmptyMessage(name));
    }
    var phases := SolarPhases(solarSecs);
    var obs := ClippedCounts(phases, k);
    var expectedPerBin := n as real / k as real;
    QuotientPositive(n as real, k as real);
    var chi2 := Pearson(obs, expectedPerBin);
    var pChi2 := chi2Sf(chi2, k - 1);
    var elevated: seq<PhaseInterval> := [];
    if pChi2 < ALPHA {
      elevated := GetElevatedIntervals(obs, k, expectedPerBin, tr);
      assert obs[..k] == obs;
    }
    r := Success(SubCStats(n, k, chi2, pChi2, obs, elevated));
  }

  // ---------------------------------------------------------------------
  // All catalogs
  // ---------------------------------------------------------------------

  /** The per-catalog result of `run_sub_c`. */
  datatype SubCCatalog = SubCCatalog(n: nat, byK: seq<SubCStats>, classification: string)

  /** `mainshock_sub_b_results.get(key, {}).get("k24", {}).get("recovered_intervals", [])`,
   *  projected to (phase_start, phase_end). */
  function MainshockElevated(mainshock: map<string, map<string, SubB.SubBResult>>, key: string): (es: seq<PhaseInterval>)
    ensures key !in mainshock ==> es == []
    ensures key in mainshock && K24_KEY !in mainshock[key] ==> es == []
    ensures key in mainshock && K24_KEY in mainshock[key] ==>
      var rec := mainshock[key][K24_KEY].recovered;
      |es| == |rec| && forall j :: 0 <= j < |es| ==> es[j].start == rec[j].phaseStart && es[j].end == rec[j].phaseEnd
  {
    var rec := if key in mainshock && K24_KEY in mainshock[key] then mainshock[key][K24_KEY].recovered else [];
    seq(|rec|, j requires 0 <= j < |rec| => PhaseInterval(rec[j].phaseStart, rec[j].phaseEnd))
  }

  /** A non-empty catalog at every bin count. */
  function StatsAtAllK(solarSecs: seq<real>, chi2Sf: (real, nat) -> real, tr: Transcendentals): (row: seq<SubCStats>)
    requires |solarSecs| > 0
    ensures |row| == |SubA.BIN_COUNTS|
  {
    seq(|SubA.BIN_COUNTS|, ki requires 0 <= ki < |SubA.BIN_COUNTS| => StatsOf(solarSecs, SubA.BIN_COUNTS[ki], chi2Sf, tr))
  }

  /** The p-values at every bin count, in order. */
  function PValues(row: seq<SubCStats>): (ps: seq<real>)
    ensures |ps| == |row|
    ensures forall i :: 0 <= i < |ps| ==> ps[i] == row[i].pChi2
  {
    seq(|row|, i requires 0 <= i < |row| => row[i].pChi2)
  }

  /** The result of catalog c of a non-empty catalog. */
  function CatalogResult(solarSecs: seq<real>, c: nat, mainshock: map<string, map<string, SubB.SubBResult>>,
    chi2Sf: (real, nat) -> real, tr: Transcendentals): (r: SubCCatalog)
    requires |solarSecs| > 0 && c < |MAINSHOCK_KEYS|
  {
    var row := StatsAtAllK(solarSecs, chi2Sf, tr);
    SubCCatalog(|solarSecs|, row,
      PreferenceClass(row[K24_INDEX].elevatedIntervals, MainshockElevated(mainshock, MAINSHOCK_KEYS[c]), PValues(row)))
  }

  /** A catalog whose p-values are all at least 0.05 has no preference,
   *  and at k = 24 no elevated interval. */
  lemma InsignificantCatalog(solarSecs: seq<real>, c: nat, mainshock: map<string, map<string, SubB.SubBResult>>,
    chi2Sf: (real, nat) -> real, tr: Transcendentals)
    requires |solarSecs| > 0 && c < |MAINSHOCK_KEYS|
    requires forall ki :: 0 <= ki < |SubA.BIN_COUNTS| ==> chi2Sf(
      StatsOf(solarSecs, SubA.BIN_COUNTS[ki], chi2Sf, tr).chi2, SubA.BIN_COUNTS[ki] - 1) >= ALPHA
    ensures var r := CatalogResult(solarSecs, c, mainshock, chi2Sf, tr);
      r.classification == NO_PREFERENCE && r.byK[K24_INDEX].elevatedIntervals == []
  {
    var row := StatsAtAllK(solarSecs, chi2Sf, tr);
    forall i | 0 <= i < |row|
      ensures row[i].pChi2 >= ALPHA
    {
      assert row[i] == StatsOf(solarSecs, SubA.BIN_COUNTS[i], chi2Sf, tr);
    }
  }

  /** One catalog at every bin count; the first bin count raises the
   *  empty-catalog error. */
  method CatalogRow(solarSecs: seq<real>, name: string, chi2Sf: (real, nat) -> real, tr: Transcendentals)
    returns (r: Result<seq<SubCStats>>)
    ensures r.Failure? <==> |solarSecs| == 0
    ensures r.Failure? ==> r.error == EmptyMessage(name)
    ensures r.Success? ==> |solarSecs| > 0 && r.value == StatsAtAllK(solarSecs, chi2Sf, tr)
  {
    var row: seq<SubCStats> := [];
    var ki := 0;
    while ki < |SubA.BIN_COUNTS|
      invariant 0 <= ki <= |SubA.BIN_COUNTS|
      invariant ki > 0 ==> |solarSecs| > 0
      invariant |solarSecs| > 0 ==> row == StatsAtAllK(solarSecs, chi2Sf, tr)[..ki]
    {
      var single := RunSubCSingle(solarSecs, name, SubA.BIN_COUNTS[ki], chi2Sf, tr);
      if single.Failure? {
        return Failure(single.error);
      }
      row := row + [single.value];
      ki := ki + 1;
    }
    r := Success(row);
  }

  /** `run_sub_c`: every aftershock catalog at every bin count, then its
   *  classification from the k = 24 intervals and the mainshock intervals
   *  of sub-analysis B. The error of the first empty catalog escapes. */
  method RunSubC(catalogs: seq<seq<real>>, mainshock: map<string, map<string, SubB.SubBResult>>,
    chi2Sf: (real, nat) -> real, tr: Transcendentals) returns (r: Result<seq<SubCCatalog>>)
    requires |catalogs| == |CATALOG_KEYS|
    ensures r.Failure? <==> SubA.FirstEmpty(catalogs, 0).Some?
    ensures r.Failure? ==> r.error == EmptyMessage(CATALOG_NAMES[SubA.FirstEmpty(catalogs, 0).value])
    ensures r.Success? ==>
      |r.value| == |CATALOG_KEYS| &&
      forall c :: 0 <= c < |CATALOG_KEYS| ==> |catalogs[c]| > 0 && r.value[c] == CatalogResult(catalogs[c], c, mainshock, chi2Sf, tr)
  {
    var results: seq<SubCCatalog> := [];
    var c := 0;
    while c < |CATALOG_KEYS|
      invariant 0 <= c <= |CATALOG_KEYS|
      invariant |results| == c
      invariant forall q :: 0 <= q < c ==> |catalogs[q]| > 0 && results[q] == CatalogResult(catalogs[q], q, mainshock, chi2Sf, tr)
    {
      var row := CatalogRow(catalogs[c], CATALOG_NAMES[c], chi2Sf, tr);
      if row.Failure? {
        SubA.FirstEmptyAt(catalogs, c);
        return Failure(row.error);
      }
      var mainshockElevated := MainshockElevated(mainshock, MAINSHOCK_KEYS[c]);
      var classification := ClassifyAftershockPreference(row.value[K24_INDEX].elevatedIntervals, mainshockElevated, PValues(row.value));
      results := results + [SubCCatalog(|catalogs[c]|, row.value, classification)];
      c := c + 1;
    }
    SubA.FirstEmptyNone(catalogs);
    r := Success(results);
  }
}
