/** The discrete side of the Modified Fourier Power Analysis scan: the
 *  power of a set of phases, the bootstrap null thresholds, the
 *  bootstrap-fraction p-value, the harmonic-phase label against the three
 *  baseline intervals and the significant-period filter. The random draws
 *  of the bootstrap and numpy's percentile arrive as parameters. */
module Mfpa {
  import opened Numerics
  import opened Text
  import Schuster

  const MFPA_N_PERIODS: nat := 300
  const MFPA_MIN_DAYS: real := 0.25
  const MFPA_MAX_DAYS: real := 548.0
  const N_BOOTSTRAP: nat := 1000

  /** The solar year in days used for the predicted peak phases. */
  const YEAR_DAYS: real := 365.25

  /** The three baseline solar-phase intervals (lo, hi). */
  const A1B_INTERVALS: seq<(real, real)> := [(0.1875, 0.25), (0.625, 0.656), (0.875, 0.917)]

  // ---------------------------------------------------------------------
  // Power
  // ---------------------------------------------------------------------

  /** `mfpa_power`: |sum of exp(i phi)|^2 / n, with the real and imaginary
   *  parts of the sum taken as the sums of cosines and sines; 0 when there
   *  are no phases. */
  function MfpaPower(phases: seq<real>, tr: Transcendentals): (r: real)
    ensures r >= 0.0
    ensures |phases| == 0 ==> r == 0.0
  {
    Schuster.D2(Sum(MapReal(tr.cos, phases)), Sum(MapReal(tr.sin, phases)), |phases|)
  }

  /** n times the power is the squared modulus of the complex sum. */
  lemma MfpaPowerResultant(phases: seq<real>, tr: Transcendentals)
    requires |phases| > 0
    ensures MfpaPower(phases, tr) * |phases| as real ==
      Square(Sum(MapReal(tr.cos, phases))) + Square(Sum(MapReal(tr.sin, phases)))
  {
    Schuster.D2Resultant(Sum(MapReal(tr.cos, phases)), Sum(MapReal(tr.sin, phases)), |phases|);
  }

  /** On the angles 2 pi ((t % T) / T) the power is the standard Schuster
   *  statistic at the same period. */
  lemma MfpaPowerIsSchusterD2(times: seq<real>, period: real, tr: Transcendentals)
    requires period != 0.0
    ensures MfpaPower(Schuster.Angles(times, period), tr) == Schuster.StandardD2(times, period, tr)
  {
  }

  // ---------------------------------------------------------------------
  // Bootstrap null distribution
  // ---------------------------------------------------------------------

  /** The null power of each bootstrap replicate, whose uniform random
   *  phases are given. */
  function NullPowers(draws: seq<seq<real>>, tr: Transcendentals): (r: seq<real>)
    ensures |r| == |draws|
    ensures forall k :: 0 <= k < |r| ==> r[k] >= 0.0
  {
    seq(|draws|, k requires 0 <= k < |draws| => MfpaPower(draws[k], tr))
  }

  /** `bootstrap_null_percentiles`: fills the array of null powers one
   *  replicate at a time, then takes its 95th and 99th percentiles. */
  method BootstrapNullPercentiles(draws: seq<seq<real>>, percentile: (seq<real>, real) -> real, tr: Transcendentals)
    returns (p95: real, p99: real)
    ensures p95 == percentile(NullPowers(draws, tr), 95.0)
    ensures p99 == percentile(NullPowers(draws, tr), 99.0)
  {
    var nullPowers := new real[|draws|];
    var k := 0;
    while k < |draws|
      invariant 0 <= k <= |draws|
      invariant forall q :: 0 <= q < k ==> nullPowers[q] == MfpaPower(draws[q], tr)
    {
      nullPowers[k] := MfpaPower(draws[k], tr);
      k := k + 1;
    }
    assert nullPowers[..] == NullPowers(draws, tr);
    p95 := percentile(nullPowers[..], 95.0);
    p99 := percentile(nullPowers[..], 99.0);
  }

  /** Column j of a matrix stored as rows. */
  function Column(matrix: seq<seq<real>>, j: nat): (c: seq<real>)
    requires forall k :: 0 <= k < |matrix| ==> j < |matrix[k]|
    ensures |c| == |matrix|
  {
    seq(|matrix|, k requires 0 <= k < |matrix| => matrix[k][j])
  }

  /** The null matrix of the scan: replicate k's power fills its whole row,
   *  one column per period. */
  method NullPowerMatrix(draws: seq<seq<real>>, nPeriods: nat, tr: Transcendentals)
    returns (matrix: seq<seq<real>>)
    ensures |matrix| == |draws|
    ensures forall k :: 0 <= k < |matrix| ==> |matrix[k]| == nPeriods
    ensures forall k, j :: 0 <= k < |matrix| && 0 <= j < nPeriods ==> matrix[k][j] == NullPowers(draws, tr)[k]
  {
    matrix := [];
    var k := 0;
    while k < |draws|
      invariant 0 <= k <= |draws|
      invariant |matrix| == k
      invariant forall q :: 0 <= q < k ==> |matrix[q]| == nPeriods
      invariant forall q, j :: 0 <= q < k && 0 <= j < nPeriods ==> matrix[q][j] == NullPowers(draws, tr)[q]
    {
      var power := MfpaPower(draws[k], tr);
      matrix := matrix + [seq(nPeriods, j => power)];
      k := k + 1;
    }
  }

  /** Every column of the null matrix is the list of null powers: the null
   *  distribution, and hence every percentile threshold, is the same at
   *  every period. */
  lemma NullColumnsIdentical(matrix: seq<seq<real>>, draws: seq<seq<real>>, nPeriods: nat, tr: Transcendentals,
                             percentile: (seq<real>, real) -> real, j1: nat, j2: nat)
    requires |matrix| == |draws|
    requires forall k :: 0 <= k < |matrix| ==> |matrix[k]| == nPeriods
    requires forall k, j :: 0 <= k < |matrix| && 0 <= j < nPeriods ==> matrix[k][j] == NullPowers(draws, tr)[k]
    requires j1 < nPeriods && j2 < nPeriods
    ensures Column(matrix, j1) == NullPowers(draws, tr)
    ensures forall q :: percentile(Column(matrix, j1), q) == percentile(Column(matrix, j2), q)
  {
    assert Column(matrix, j1) == NullPowers(draws, tr);
    assert Column(matrix, j2) == NullPowers(draws, tr);
  }

  // ---------------------------------------------------------------------
  // Bootstrap-fraction p-value
  // ---------------------------------------------------------------------

  /** How many null powers are at least the observed power. */
  function CountAtLeast(nulls: seq<real>, power: real): (c: nat)
    ensures c <= |nulls|
  {
    if nulls == [] then 0
    else CountAtLeast(nulls[..|nulls| - 1], power) + (if nulls[|nulls| - 1] >= power then 1 else 0)
  }

  /** `np.mean(column >= power)`: the fraction of null powers at least the
   *  observed power. */
  function PValue(nulls: seq<real>, power: real): (p: real)
    requires |nulls| > 0
    ensures 0.0 <= p <= 1.0
  {
    QuotientNonNegative(CountAtLeast(nulls, power) as real, |nulls| as real);
    QuotientAtMostOne(CountAtLeast(nulls, power) as real, |nulls| as real);
    CountAtLeast(nulls, power) as real / |nulls| as real
  }

  /** A larger observed power is exceeded by fewer null powers. */
  lemma {:induction false} CountAtLeastAntitone(nulls: seq<real>, lo: real, hi: real)
    requires lo <= hi
    ensures CountAtLeast(nulls, hi) <= CountAtLeast(nulls, lo)
  {
    if nulls != [] {
      CountAtLeastAntitone(nulls[..|nulls| - 1], lo, hi);
    }
  }

  /** A power no larger than every null power is exceeded by all of them. */
  lemma {:induction false} CountAtLeastAll(nulls: seq<real>, power: real)
    requires forall k :: 0 <= k < |nulls| ==> nulls[k] >= power
    ensures CountAtLeast(nulls, power) == |nulls|
  {
    if nulls != [] {
      CountAtLeastAll(nulls[..|nulls| - 1], power);
    }
  }

  /** A power above every null power is exceeded by none of them. */
  lemma {:induction false} CountAtLeastNone(nulls: seq<real>, power: real)
    requires forall k :: 0 <= k < |nulls| ==> nulls[k] < power
    ensures CountAtLeast(nulls, power) == 0
  {
    if nulls != [] {
      CountAtLeastNone(nulls[..|nulls| - 1], power);
    }
  }

  /** The p-value falls as the observed power rises; it is 1 below the
   *  whole null distribution and 0 above it. */
  lemma PValueAntitone(nulls: seq<real>, lo: real, hi: real)
    requires |nulls| > 0 && lo <= hi
    ensures PValue(nulls, hi) <= PValue(nulls, lo)
    ensures (forall k :: 0 <= k < |nulls| ==> nulls[k] >= hi) ==> PValue(nulls, hi) == 1.0
    ensures (forall k :: 0 <= k < |nulls| ==> nulls[k] < lo) ==> PValue(nulls, lo) == 0.0
  {
    CountAtLeastAntitone(nulls, lo, hi);
    var n := |nulls| as real;
    if CountAtLeast(nulls, hi) < CountAtLeast(nulls, lo) {
      QuotientMonotone(CountAtLeast(nulls, hi) as real, CountAtLeast(nulls, lo) as real, n);
    }
    if forall k :: 0 <= k < |nulls| ==> nulls[k] >= hi {
      CountAtLeastAll(nulls, hi);
      QuotientSelf(n);
    }
    if forall k :: 0 <= k < |nulls| ==> nulls[k] < lo {
      CountAtLeastNone(nulls, lo);
    }
  }

  // ---------------------------------------------------------------------
  // Harmonic-phase label against the baseline intervals
  // ---------------------------------------------------------------------

  /** `max(1, int(365.25 / period))` with Python's truncating `int`. */
  function NHarmonics(period: real): (n: nat)
    requires period != 0.0
    ensures n >= 1
    ensures YEAR_DAYS / period >= 1.0 ==> n as real <= YEAR_DAYS / period < n as real + 1.0
    ensures YEAR_DAYS / period < 2.0 ==> n == 1
  {
    var q := YEAR_DAYS / period;
    var t := if q >= 0.0 then q.Floor else -((-q).Floor);
    if t < 1 then 1 else t
  }

  /** The k-th predicted peak phase, `(k * period / 365.25) % 1.0`. */
  function PredictedPhase(k: nat, period: real): (r: real)
    ensures 0.0 <= r < 1.0
  {
    Frac(k as real * period / YEAR_DAYS)
  }

  /** The predicted peak phases for k = 0 .. NHarmonics(period). */
  function PredictedPhases(period: real): (r: seq<real>)
    requires period != 0.0
    ensures |r| == NHarmonics(period) + 1
    ensures r[0] == 0.0
    ensures forall k :: 0 <= k < |r| ==> 0.0 <= r[k] < 1.0
  {
    FracUnique(0.0 * period / YEAR_DAYS, 0.0, 0);
    seq(NHarmonics(period) + 1, k requires 0 <= k => PredictedPhase(k, period))
  }

  /** `_phase_in_interval`: which intervals contain the phase, ends
   *  included. */
  function PhaseInInterval(phase: real, intervals: seq<(real, real)>): (r: seq<bool>)
    ensures |r| == |intervals|
    ensures forall i :: 0 <= i < |r| ==> (r[i] <==> intervals[i].0 <= phase <= intervals[i].1)
  {
    seq(|intervals|, i requires 0 <= i < |intervals| => intervals[i].0 <= phase <= intervals[i].1)
  }

  /** Whether one of the first m predicted phases lies in [lo, hi]. */
  function HitBefore(period: real, lo: real, hi: real, m: nat): bool
  {
    m > 0 && (HitBefore(period, lo, hi, m - 1) || lo <= PredictedPhase(m - 1, period) <= hi)
  }

  /** HitBefore is the existential it abbreviates. */
  lemma {:induction false} HitBeforeIff(period: real, lo: real, hi: real, m: nat)
    ensures HitBefore(period, lo, hi, m) <==> exists k :: 0 <= k < m && lo <= PredictedPhase(k, period) <= hi
  {
    if m > 0 {
      HitBeforeIff(period, lo, hi, m - 1);
      if lo <= PredictedPhase(m - 1, period) <= hi {
        assert exists k :: 0 <= k < m && lo <= PredictedPhase(k, period) <= hi;
      }
    }
  }

  /** The `hits` list of `a1b_consistency_label`: slot idx is set when
   *  interval idx holds a predicted phase; the list has three slots. */
  function Hits(period: real, intervals: seq<(real, real)>): (h: seq<bool>)
    requires period != 0.0 && |intervals| <= 3
    ensures |h| == 3
  {
    seq(3, idx requires 0 <= idx < 3 =>
      idx < |intervals| && HitBefore(period, intervals[idx].0, intervals[idx].1, NHarmonics(period) + 1))
  }

  /** Interval idx is hit exactly when some predicted phase of the list
   *  lies in its closed range, as `_phase_in_interval` reports it. */
  lemma HitsSpec(period: real, intervals: seq<(real, real)>, idx: nat)
    requires period != 0.0 && |intervals| <= 3 && idx < |intervals|
    ensures Hits(period, intervals)[idx] <==>
      exists k :: 0 <= k < |PredictedPhases(period)| && PhaseInInterval(PredictedPhases(period)[k], intervals)[idx]
  {
    var ps := PredictedPhases(period);
    var lo, hi := intervals[idx].0, intervals[idx].1;
    HitBeforeIff(period, lo, hi, |ps|);
    if Hits(period, intervals)[idx] {
      var k :| 0 <= k < |ps| && lo <= PredictedPhase(k, period) <= hi;
      assert PhaseInInterval(ps[k], intervals)[idx];
    }
    if exists k :: 0 <= k < |ps| && PhaseInInterval(ps[k], intervals)[idx] {
      var k :| 0 <= k < |ps| && PhaseInInterval(ps[k], intervals)[idx];
      assert lo <= PredictedPhase(k, period) <= hi;
    }
  }

  /** The nested loops of `a1b_consistency_label` over the predicted phases
   *  and the intervals, setting `hits[idx]` in place. */
  method ComputeHits(period: real, intervals: seq<(real, real)>) returns (h: seq<bool>)
    requires period != 0.0 && |intervals| <= 3
    ensures h == Hits(period, intervals)
  {
    var predicted := PredictedPhases(period);
    var hits := new bool[3](_ => false);
    var k := 0;
    while k < |predicted|
      invariant 0 <= k <= |predicted|
      invariant forall idx :: 0 <= idx < 3 ==>
        hits[idx] == (idx < |intervals| && HitBefore(period, intervals[idx].0, intervals[idx].1, k))
    {
      var phase := predicted[k];
      var idx := 0;
      while idx < |intervals|
        invariant 0 <= idx <= |intervals|
        invariant forall i :: 0 <= i < idx ==>
          hits[i] == HitBefore(period, intervals[i].0, intervals[i].1, k + 1)
        invariant forall i :: idx <= i < 3 ==>
          hits[i] == (i < |intervals| && HitBefore(period, intervals[i].0, intervals[i].1, k))
      {
        if intervals[idx].0 <= phase <= intervals[idx].1 {
          hits[idx] := true;
        }
        idx := idx + 1;
      }
      k := k + 1;
    }
    h := hits[..];
  }

  /** `[i + 1 for i, h in enumerate(hits) if h]`, from position i on. */
  function HitIndicesFrom(hits: seq<bool>, i: nat): (r: seq<nat>)
    decreases |hits| - i
  {
    if i >= |hits| then []
    else if hits[i] then [i + 1] + HitIndicesFrom(hits, i + 1)
    else HitIndicesFrom(hits, i + 1)
  }

  /** `"+".join(str(i) for i in xs)`. */
  function JoinPlus(xs: seq<nat>): (s: string)
  {
    if xs == [] then ""
    else if |xs| == 1 then NatToString(xs[0])
    else NatToString(xs[0]) + "+" + JoinPlus(xs[1..])
  }

  /** The consistency label of a hits list. */
  function ConsistencyLabel(hits: seq<bool>): string
  {
    var indices := HitIndicesFrom(hits, 0);
    var count := |indices|;
    if count == 0 then "inconsistent with all A1b intervals"
    else if count == 1 && indices == [1] then "consistent with interval 1 only"
    else if count == 2 && indices == [1, 2] then "consistent with intervals 1+2"
    else if count == 2 && indices == [1, 3] then "consistent with intervals 1+3 (6-month)"
    else if count == 2 && indices == [2, 3] then "consistent with intervals 2+3"
    else if count == 3 then "consistent with all three intervals (4-month if applicable)"
    else "consistent with intervals " + JoinPlus(indices)
  }

  /** The label of every one of the eight hit patterns. */
  lemma ConsistencyLabelTable()
    ensures ConsistencyLabel([false, false, false]) == "inconsistent with all A1b intervals"
    ensures ConsistencyLabel([true, false, false]) == "consistent with interval 1 only"
    ensures ConsistencyLabel([false, true, false]) == "consistent with intervals 2"
    ensures ConsistencyLabel([false, false, true]) == "consistent with intervals 3"
    ensures ConsistencyLabel([true, true, false]) == "consistent with intervals 1+2"
    ensures ConsistencyLabel([true, false, true]) == "consistent with intervals 1+3 (6-month)"
    ensures ConsistencyLabel([false, true, true]) == "consistent with intervals 2+3"
    ensures ConsistencyLabel([true, true, true]) == "consistent with all three intervals (4-month if applicable)"
  {
    assert HitIndicesFrom([false, true, false], 0) == [2];
    assert HitIndicesFrom([false, false, true], 0) == [3];
    assert HitIndicesFrom([true, false, true], 0) == [1, 3];
    assert HitIndicesFrom([false, true, true], 0) == [2, 3];
    assert NatToString(2) == "2" && NatToString(3) == "3";
  }

  /** A three-slot hits list is one of the eight patterns. */
  lemma HitPatterns(h: seq<bool>)
    requires |h| == 3
    ensures h == [false, false, false] || h == [true, false, false] || h == [false, true, false] ||
      h == [false, false, true] || h == [true, true, false] || h == [true, false, true] ||
      h == [false, true, true] || h == [true, true, true]
  {
    assert h == [h[0], h[1], h[2]];
    if h[0] {
      if h[1] {
        if h[2] { assert h == [true, true, true]; } else { assert h == [true, true, false]; }
      } else {
        if h[2] { assert h == [true, false, true]; } else { assert h == [true, false, false]; }
      }
    } else {
      if h[1] {
        if h[2] { assert h == [false, true, true]; } else { assert h == [false, true, false]; }
      } else {
        if h[2] { assert h == [false, false, true]; } else { assert h == [false, false, false]; }
      }
    }
  }

  /** Distinct hit patterns get distinct labels, so the label records
   *  exactly which intervals are hit. */
  lemma ConsistencyLabelInjective(h1: seq<bool>, h2: seq<bool>)
    requires |h1| == 3 && |h2| == 3
    requires ConsistencyLabel(h1) == ConsistencyLabel(h2)
    ensures h1 == h2
  {
    ConsistencyLabelTable();
    HitPatterns(h1);
    HitPatterns(h2);
  }

  /** `a1b_consistency_label`. */
  method A1bConsistencyLabel(period: real, intervals: seq<(real, real)>) returns (text: string)
    requires period != 0.0 && |intervals| <= 3
    ensures text == ConsistencyLabel(Hits(period, intervals))
  {
    var hits := ComputeHits(period, intervals);
    text := ConsistencyLabel(hits);
  }

  // ---------------------------------------------------------------------
  // The scan
  // ---------------------------------------------------------------------

  datatype MfpaEntry = MfpaEntry(
    period: real, power: real, p95: real, p99: real, pMfpa: real, consistency: string)

  datatype SignificantPeriod = SignificantPeriod(period: real, power: real, pMfpa: real, consistency: string)

  /** The spectrum entry at a period, against the null powers of its
   *  column. */
  function EntryAt(times: seq<real>, period: real, nulls: seq<real>,
                   percentile: (seq<real>, real) -> real, tr: Transcendentals): (e: MfpaEntry)
    requires period != 0.0 && |nulls| > 0
    ensures e.power >= 0.0 && 0.0 <= e.pMfpa <= 1.0
  {
    var power := MfpaPower(Schuster.Angles(times, period), tr);
    MfpaEntry(period, power, percentile(nulls, 95.0), percentile(nulls, 99.0),
      PValue(nulls, power), ConsistencyLabel(Hits(period, A1B_INTERVALS)))
  }

  function Summary(e: MfpaEntry): SignificantPeriod
  {
    SignificantPeriod(e.period, e.power, e.pMfpa, e.consistency)
  }

  /** The entries whose power exceeds their 95th-percentile threshold, in
   *  spectrum order. */
  function Significant(spectrum: seq<MfpaEntry>): seq<SignificantPeriod>
  {
    if spectrum == [] then []
    else
      var last := spectrum[|spectrum| - 1];
      Significant(spectrum[..|spectrum| - 1]) + (if last.power > last.p95 then [Summary(last)] else [])
  }

  /** The filter respects concatenation, so it keeps spectrum order. */
  lemma {:induction false} SignificantAppend(s: seq<MfpaEntry>, t: seq<MfpaEntry>)
    ensures Significant(s + t) == Significant(s) + Significant(t)
  {
    if t == [] {
      assert s + t == s;
    } else {
      assert (s + t)[..|s + t| - 1] == s + t[..|t| - 1];
      SignificantAppend(s, t[..|t| - 1]);
    }
  }

  /** Every significant period is an entry above its threshold, and every
   *  entry above its threshold is reported. */
  lemma {:induction false} SignificantSpec(spectrum: seq<MfpaEntry>)
    ensures |Significant(spectrum)| <= |spectrum|
    ensures forall i :: 0 <= i < |Significant(spectrum)| ==>
      exists j :: 0 <= j < |spectrum| && spectrum[j].power > spectrum[j].p95 && Significant(spectrum)[i] == Summary(spectrum[j])
    ensures forall j :: 0 <= j < |spectrum| && spectrum[j].power > spectrum[j].p95 ==> Summary(spectrum[j]) in Significant(spectrum)
  {
    if spectrum != [] {
      var front := spectrum[..|spectrum| - 1];
      SignificantSpec(front);
      var sig := Significant(spectrum);
      forall i | 0 <= i < |sig|
        ensures exists j :: 0 <= j < |spectrum| && spectrum[j].power > spectrum[j].p95 && sig[i] == Summary(spectrum[j])
      {
        if i < |Significant(front)| {
          var j :| 0 <= j < |front| && front[j].power > front[j].p95 && Significant(front)[i] == Summary(front[j]);
          assert spectrum[j] == front[j];
        } else {
          assert sig[i] == Summary(spectrum[|spectrum| - 1]);
        }
      }
      forall j | 0 <= j < |spectrum| && spectrum[j].power > spectrum[j].p95
        ensures Summary(spectrum[j]) in sig
      {
        if j < |front| {
          assert spectrum[j] == front[j];
        }
      }
    }
  }

  /** Appending one entry extends the filter by that entry alone. */
  lemma SignificantSnoc(spectrum: seq<MfpaEntry>, entry: MfpaEntry)
    ensures Significant(spectrum + [entry]) ==
      Significant(spectrum) + (if entry.power > entry.p95 then [Summary(entry)] else [])
  {
    assert (spectrum + [entry])[..|spectrum + [entry]| - 1] == spectrum;
  }

  /** One pass of the scan loop keeps the spectrum invariant. */
  lemma ScanSnoc(spectrum: seq<MfpaEntry>, entry: MfpaEntry, times: seq<real>, periods: seq<real>, j: nat,
                 nulls: seq<real>, percentile: (seq<real>, real) -> real, tr: Transcendentals)
    requires j < |periods| && |spectrum| == j && |nulls| > 0
    requires forall q :: 0 <= q < |periods| ==> periods[q] != 0.0
    requires forall q :: 0 <= q < j ==> spectrum[q] == EntryAt(times, periods[q], nulls, percentile, tr)
    requires entry == EntryAt(times, periods[j], nulls, percentile, tr)
    ensures forall q :: 0 <= q < j + 1 ==> (spectrum + [entry])[q] == EntryAt(times, periods[q], nulls, percentile, tr)
  {
  }

  /** `mfpa_scan` over a given grid of periods: the null matrix is filled
   *  from the given bootstrap draws, then every period gets an entry and
   *  the entries above their 95th-percentile threshold are collected. */
  method MfpaScan(times: seq<real>, periods: seq<real>, draws: seq<seq<real>>,
                  percentile: (seq<real>, real) -> real, tr: Transcendentals)
    returns (spectrum: seq<MfpaEntry>, significant: seq<SignificantPeriod>)
    requires forall j :: 0 <= j < |periods| ==> periods[j] != 0.0
    requires |draws| > 0
    ensures |spectrum| == |periods|
    ensures forall j :: 0 <= j < |periods| ==>
      spectrum[j] == EntryAt(times, periods[j], NullPowers(draws, tr), percentile, tr)
    ensures significant == Significant(spectrum)
  {
    var matrix := NullPowerMatrix(draws, |periods|, tr);
    ghost var nulls := NullPowers(draws, tr);
    spectrum := [];
    significant := [];
    var j := 0;
    while j < |periods|
      invariant 0 <= j <= |periods|
      invariant |spectrum| == j
      invariant forall q :: 0 <= q < j ==> spectrum[q] == EntryAt(times, periods[q], nulls, percentile, tr)
      invariant significant == Significant(spectrum)
    {
      var period := periods[j];
      var column := Column(matrix, j);
      assert column == nulls;
      var power := MfpaPower(Schuster.Angles(times, period), tr);
      var p95 := percentile(column, 95.0);
      var p99 := percentile(column, 99.0);
      var pMfpa := PValue(column, power);
      var consistency := A1bConsistencyLabel(period, A1B_INTERVALS);
      var entry := MfpaEntry(period, power, p95, p99, pMfpa, consistency);
      assert entry == EntryAt(times, period, nulls, percentile, tr);
      ScanSnoc(spectrum, entry, times, periods, j, nulls, percentile, tr);
      SignificantSnoc(spectrum, entry);
      spectrum := spectrum + [entry];
      if power > p95 {
        significant := significant + [Summary(entry)];
      }
      j := j + 1;
    }
  }
}
