/** The per-catalog bin statistics the hemisphere and magnitude-band
 *  analyses share: the clipped histogram at k bins and the elevated
 *  intervals of the while-loop form, at each of the bin counts 16, 24
 *  and 32. */
module BinnedStats {
  import opened Numerics
  import opened Binning
  import opened ElevatedIntervals

  const BIN_COUNTS: seq<nat> := [16, 24, 32]

  /** The position of k = 24 among the bin counts. */
  const K24_INDEX: nat := 1

  /** The discrete part of `compute_hemisphere_stats` and
   *  `compute_band_stats_at_k`. */
  datatype BinStats = BinStats(n: nat, k: nat, binCounts: seq<nat>, elevatedIntervals: seq<ElevatedInterval>)

  /** The statistics of a sequence of phases at k bins: the counts of the
   *  clipped bin indices and the runs of bins above E + sqrt(E). */
  function StatsOf(phases: seq<real>, k: nat, tr: Transcendentals): (s: BinStats)
    requires k > 0
    ensures s.n == |phases| && s.k == k
    ensures |s.binCounts| == k && SumNat(s.binCounts) == |phases|
  {
    var obs := ClippedCounts(phases, k);
    var threshold := Threshold(|phases| as real / k as real, tr);
    BinStats(|phases|, k, obs, ToElevatedAll(MaskRunsFrom(ElevatedMask(obs, threshold)[..k], 0), k))
  }

  /** The elevated intervals lie in [0, 1], and each mean phase is the
   *  midpoint, so in [0, 1). */
  lemma StatsIntervalsBounded(phases: seq<real>, k: nat, tr: Transcendentals)
    requires k > 0
    ensures var es := StatsOf(phases, k, tr).elevatedIntervals;
      forall j :: 0 <= j < |es| ==>
        0.0 <= es[j].phaseStart < es[j].phaseEnd <= 1.0 && 0.0 <= es[j].meanPhase < 1.0
  {
    var obs := ClippedCounts(phases, k);
    var threshold := Threshold(|phases| as real / k as real, tr);
    var es := ToElevatedAll(MaskRunsFrom(ElevatedMask(obs, threshold)[..k], 0), k);
    assert es == StatsOf(phases, k, tr).elevatedIntervals;
    forall j | 0 <= j < |es|
      ensures 0.0 <= es[j].phaseStart < es[j].phaseEnd <= 1.0 && 0.0 <= es[j].meanPhase < 1.0
    {
      FindElevatedIntervalBoundsAt(obs, k, threshold, j);
    }
  }

  /** Clipped histogram, then the elevated intervals of the while-loop
   *  form. */
  method ComputeBinStats(phases: seq<real>, k: nat, tr: Transcendentals) returns (s: BinStats)
    requires k > 0
    ensures s == StatsOf(phases, k, tr)
  {
    var n := |phases|;
    var obs := ClippedCounts(phases, k);
    var elevated := FindElevatedIntervals(obs, k, n, tr);
    s := BinStats(n, k, obs, elevated);
  }

  /** The statistics at k = 16, 24 and 32, in that order. */
  function StatsAtAllK(phases: seq<real>, tr: Transcendentals): (row: seq<BinStats>)
    ensures |row| == |BIN_COUNTS|
    ensures forall ki :: 0 <= ki < |row| ==> row[ki].k == BIN_COUNTS[ki] && row[ki].n == |phases|
  {
    seq(|BIN_COUNTS|, ki requires 0 <= ki < |BIN_COUNTS| => StatsOf(phases, BIN_COUNTS[ki], tr))
  }

  /** The inner loop over the bin counts for one catalog. */
  method ComputeStatsAtAllK(phases: seq<real>, tr: Transcendentals) returns (row: seq<BinStats>)
    ensures row == StatsAtAllK(phases, tr)
  {
    row := [];
    var ki := 0;
    while ki < |BIN_COUNTS|
      invariant 0 <= ki <= |BIN_COUNTS|
      invariant row == StatsAtAllK(phases, tr)[..ki]
    {
      var stats := ComputeBinStats(phases, BIN_COUNTS[ki], tr);
      row := row + [stats];
      ki := ki + 1;
    }
  }
}
