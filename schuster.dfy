/** The Schuster engine: temporal clustering of event times, the standard
 *  Schuster D^2 statistic and its cluster-robust variant, over one period,
 *  a grid of periods, and the named explicit periods. */
module Schuster {
  import opened Numerics
  import opened Phase

  const DEFAULT_DT_CLUSTER_DAYS: real := 1.0
  const SPECTRUM_N_PERIODS: nat := 200
  const SPECTRUM_MIN_DAYS: real := 0.25
  const SPECTRUM_MAX_DAYS: real := 548.0

  /** The named test periods in days, in the order of the script's dict. */
  const EXPLICIT_PERIODS: seq<(string, real)> := [
    ("tidal_12h", 0.5),
    ("tidal_24h", 1.0),
    ("tidal_14d", 14.77),
    ("tidal_27d", 27.32),
    ("third_year_122", 121.75),
    ("half_year_182", 182.625),
    ("annual_365", 365.25)
  ]

  // ---------------------------------------------------------------------
  // Temporal clusters
  // ---------------------------------------------------------------------

  /** The cluster of event i: how many of the gaps between consecutive
   *  events up to i are at least dt. */
  function ClusterId(times: seq<real>, dt: real, i: nat): (c: nat)
    requires i < |times|
    ensures c <= i
  {
    if i == 0 then 0
    else ClusterId(times, dt, i - 1) + (if times[i] - times[i - 1] >= dt then 1 else 0)
  }

  function ClusterIds(times: seq<real>, dt: real): (ids: seq<nat>)
    ensures |ids| == |times|
    ensures forall i :: 0 <= i < |ids| ==> ids[i] <= i
  {
    seq(|times|, i requires 0 <= i < |times| => ClusterId(times, dt, i))
  }

  /** `assign_clusters`: a left-to-right sweep that starts a new cluster at
   *  every gap of at least dt, writing the ids into a zero-filled array. */
  method AssignClusters(times: seq<real>, dt: real) returns (ids: seq<nat>)
    ensures ids == ClusterIds(times, dt)
  {
    var n := |times|;
    var clusterIds := new nat[n](_ => 0);
    if n == 0 {
      return clusterIds[..];
    }
    var currentId := 0;
    var i := 1;
    while i < n
      invariant 1 <= i <= n
      invariant currentId == ClusterId(times, dt, i - 1)
      invariant forall j :: 0 <= j < i ==> clusterIds[j] == ClusterId(times, dt, j)
    {
      if times[i] - times[i - 1] >= dt {
        currentId := currentId + 1;
      }
      clusterIds[i] := currentId;
      i := i + 1;
    }
    ids := clusterIds[..];
    assert forall j :: 0 <= j < n ==> ids[j] == ClusterIds(times, dt)[j];
  }

  /** The first id is 0 and every later id repeats its predecessor or
   *  exceeds it by one, the latter exactly at a gap of at least dt. */
  lemma ClusterIdsSteps(times: seq<real>, dt: real)
    ensures var ids := ClusterIds(times, dt);
      (|times| > 0 ==> ids[0] == 0) &&
      forall i :: 1 <= i < |times| ==>
        (ids[i] == ids[i - 1] || ids[i] == ids[i - 1] + 1) &&
        (ids[i] == ids[i - 1] + 1 <==> times[i] - times[i - 1] >= dt)
  {
  }

  /** Cluster ids never decrease along the event sequence. */
  lemma {:induction false} ClusterIdsMonotone(times: seq<real>, dt: real, i: nat, j: nat)
    requires i <= j < |times|
    ensures ClusterIds(times, dt)[i] <= ClusterIds(times, dt)[j]
  {
    if i < j {
      ClusterIdsMonotone(times, dt, i, j - 1);
    }
  }

  /** The number of clusters, `cluster_ids[-1] + 1`, or 0 without events. */
  function NumClusters(times: seq<real>, dt: real): (c: nat)
    ensures c <= |times|
    ensures |times| > 0 <==> c >= 1
  {
    if |times| == 0 then 0 else ClusterIds(times, dt)[|times| - 1] + 1
  }

  /** Some event carries cluster id c. */
  predicate HasMember(ids: seq<nat>, c: nat)
  {
    exists i :: 0 <= i < |ids| && ids[i] == c
  }

  /** Every id below the cluster count is used by some event: clusters are
   *  never empty. */
  lemma ClustersNonEmpty(times: seq<real>, dt: real, c: nat)
    requires c < NumClusters(times, dt)
    ensures HasMember(ClusterIds(times, dt), c)
  {
    var i := ClusterIdReached(times, dt, |times| - 1, c);
    assert ClusterIds(times, dt)[i] == c;
  }

  lemma AllClustersNonEmpty(times: seq<real>, dt: real)
    ensures forall c :: 0 <= c < NumClusters(times, dt) ==> HasMember(ClusterIds(times, dt), c)
  {
    forall c | 0 <= c < NumClusters(times, dt)
      ensures HasMember(ClusterIds(times, dt), c)
    {
      ClustersNonEmpty(times, dt, c);
    }
  }

  lemma {:induction false} ClusterIdReached(times: seq<real>, dt: real, j: nat, c: nat) returns (i: nat)
    requires j < |times| && c <= ClusterId(times, dt, j)
    ensures i <= j && ClusterId(times, dt, i) == c
  {
    if c < ClusterId(times, dt, j) {
      assert j > 0 && c <= ClusterId(times, dt, j - 1);
      i := ClusterIdReached(times, dt, j - 1, c);
    } else {
      i := j;
    }
  }

  /** Wide gaps everywhere: each event is a cluster of its own. */
  lemma {:induction false} AllGapsWide(times: seq<real>, dt: real, i: nat)
    requires forall j :: 1 <= j < |times| ==> times[j] - times[j - 1] >= dt
    requires i < |times|
    ensures ClusterIds(times, dt)[i] == i
  {
    if i > 0 {
      AllGapsWide(times, dt, i - 1);
    }
  }

  /** Narrow gaps everywhere: all events form one cluster. */
  lemma {:induction false} AllGapsNarrow(times: seq<real>, dt: real, i: nat)
    requires forall j :: 1 <= j < |times| ==> times[j] - times[j - 1] < dt
    requires i < |times|
    ensures ClusterIds(times, dt)[i] == 0
  {
    if i > 0 {
      AllGapsNarrow(times, dt, i - 1);
    }
  }

  // ---------------------------------------------------------------------
  // The D^2 statistic
  // ---------------------------------------------------------------------

  /** `_compute_d2`: (C^2 + S^2) / n, and 0 when there are no vectors. */
  function D2(cosSum: real, sinSum: real, n: nat): (r: real)
    ensures r >= 0.0
    ensures n == 0 ==> r == 0.0
  {
    if n == 0 then 0.0
    else
      QuotientNonNegative(Square(cosSum) + Square(sinSum), n as real);
      (Square(cosSum) + Square(sinSum)) / n as real
  }

  /** n D^2 is the squared length of the resultant vector. */
  lemma D2Resultant(cosSum: real, sinSum: real, n: nat)
    requires n > 0
    ensures D2(cosSum, sinSum, n) * n as real == Square(cosSum) + Square(sinSum)
  {
    QuotientTimes(Square(cosSum) + Square(sinSum), n as real);
  }

  /** `_standard_p_from_d2`: exp(-D^2), a probability whenever exp is
   *  well behaved. */
  function StandardP(d2: real, tr: Transcendentals): (p: real)
    requires d2 >= 0.0
    ensures ExpIsProbability(tr) ==> 0.0 < p <= 1.0
  {
    tr.exp(-d2)
  }

  /** `compute_phases`: 2 pi times the fractional phase of every event. */
  function Angles(times: seq<real>, period: real): (a: seq<real>)
    requires period != 0.0
    ensures |a| == |times|
    ensures forall i :: 0 <= i < |a| ==> 0.0 <= a[i] < TWO_PI
  {
    seq(|times|, i requires 0 <= i < |times| => TWO_PI * FractionalPhase(times[i], period))
  }

  /** The angles of the events that belong to cluster c, in event order. */
  function Members(angles: seq<real>, ids: seq<nat>, c: nat): (m: seq<real>)
    requires |angles| == |ids|
    ensures |m| <= |angles|
    ensures HasMember(ids, c) ==> |m| > 0
  {
    if angles == [] then []
    else
      var front := Members(angles[..|angles| - 1], ids[..|ids| - 1], c);
      assert forall i :: 0 <= i < |ids| - 1 ==> ids[..|ids| - 1][i] == ids[i];
      if ids[|ids| - 1] == c then front + [angles[|angles| - 1]] else front
  }

  /** `np.mean` of a non-empty sequence. */
  function Mean(s: seq<real>): real
    requires |s| > 0
  {
    Sum(s) / |s| as real
  }

  /** The unit vector at the mean resultant direction of cluster c. */
  function ClusterUnit(angles: seq<real>, ids: seq<nat>, c: nat, tr: Transcendentals): (u: (real, real))
    requires |angles| == |ids|
    requires HasMember(ids, c)
  {
    var members := Members(angles, ids, c);
    var mc := Mean(MapReal(tr.cos, members));
    var ms := Mean(MapReal(tr.sin, members));
    var angle := tr.atan2(ms, mc);
    (tr.cos(angle), tr.sin(angle))
  }

  /** The standard statistic over all events. */
  function StandardD2(times: seq<real>, period: real, tr: Transcendentals): (r: real)
    requires period != 0.0
    ensures r >= 0.0
    ensures |times| == 0 ==> r == 0.0
  {
    var a := Angles(times, period);
    D2(Sum(MapReal(tr.cos, a)), Sum(MapReal(tr.sin, a)), |times|)
  }

  /** The cluster-robust statistic: one unit vector per cluster. */
  function ClusterD2(times: seq<real>, period: real, dt: real, tr: Transcendentals): (r: real)
    requires period != 0.0
    ensures r >= 0.0
    ensures |times| == 0 ==> r == 0.0
  {
    var a := Angles(times, period);
    var ids := ClusterIds(times, dt);
    var nc := NumClusters(times, dt);
    var unitCos := seq(nc, c requires 0 <= c < nc =>
      ClustersNonEmpty(times, dt, c); ClusterUnit(a, ids, c, tr).0);
    var unitSin := seq(nc, c requires 0 <= c < nc =>
      ClustersNonEmpty(times, dt, c); ClusterUnit(a, ids, c, tr).1);
    D2(Sum(unitCos), Sum(unitSin), nc)
  }

  /** Fills the per-cluster unit-vector arrays of the cluster-robust test. */
  method ClusterUnitVectors(angles: seq<real>, ids: seq<nat>, nClusters: nat, tr: Transcendentals)
    returns (unitCos: seq<real>, unitSin: seq<real>)
    requires |angles| == |ids|
    requires forall c :: 0 <= c < nClusters ==> HasMember(ids, c)
    ensures |unitCos| == nClusters && |unitSin| == nClusters
    ensures forall c :: 0 <= c < nClusters ==>
      unitCos[c] == ClusterUnit(angles, ids, c, tr).0 && unitSin[c] == ClusterUnit(angles, ids, c, tr).1
  {
    var uc := new real[nClusters](_ => 0.0);
    var us := new real[nClusters](_ => 0.0);
    var cid := 0;
    while cid < nClusters
      invariant 0 <= cid <= nClusters
      invariant forall c :: 0 <= c < cid ==>
        uc[c] == ClusterUnit(angles, ids, c, tr).0 && us[c] == ClusterUnit(angles, ids, c, tr).1
    {
      var u := ClusterUnit(angles, ids, cid, tr);
      uc[cid] := u.0;
      us[cid] := u.1;
      cid := cid + 1;
    }
    unitCos, unitSin := uc[..], us[..];
  }

  // ---------------------------------------------------------------------
  // One period, a grid of periods, the named periods
  // ---------------------------------------------------------------------

  datatype SchusterResult = SchusterResult(
    nEvents: nat, nClusters: nat, d2: real, pStandard: real, pClusterRobust: real)

  /** The fixed result for an empty catalog. */
  const EMPTY_RESULT: SchusterResult := SchusterResult(0, 0, 0.0, 1.0, 1.0)

  /** What `schuster_single_period` returns. */
  function SinglePeriod(times: seq<real>, period: real, dt: real, tr: Transcendentals): SchusterResult
    requires period != 0.0
  {
    if |times| == 0 then EMPTY_RESULT
    else
      var d2 := StandardD2(times, period, tr);
      SchusterResult(|times|, NumClusters(times, dt), d2,
        StandardP(d2, tr), StandardP(ClusterD2(times, period, dt, tr), tr))
  }

  /** The shape of every single-period result: the empty-catalog sentinel,
   *  and otherwise between 1 and n clusters, a non-negative D^2 and
   *  probabilities in (0, 1]. */
  lemma SinglePeriodShape(times: seq<real>, period: real, dt: real, tr: Transcendentals)
    requires period != 0.0
    ensures var r := SinglePeriod(times, period, dt, tr);
      (|times| == 0 ==> r == SchusterResult(0, 0, 0.0, 1.0, 1.0)) &&
      (|times| > 0 ==>
        (r.nEvents == |times| && 1 <= r.nClusters <= r.nEvents &&
         r.nClusters == ClusterIds(times, dt)[|times| - 1] + 1 && r.d2 >= 0.0)) &&
      (ExpIsProbability(tr) ==> 0.0 < r.pStandard <= 1.0 && 0.0 < r.pClusterRobust <= 1.0)
  {
  }

  /** `schuster_single_period`. */
  method SchusterSinglePeriod(times: seq<real>, period: real, dt: real, tr: Transcendentals)
    returns (r: SchusterResult)
    requires period != 0.0
    ensures r == SinglePeriod(times, period, dt, tr)
  {
    var n := |times|;
    if n == 0 {
      return EMPTY_RESULT;
    }
    var phases := Angles(times, period);
    var d2Standard := D2(Sum(MapReal(tr.cos, phases)), Sum(MapReal(tr.sin, phases)), n);
    var clusterIds := AssignClusters(times, dt);
    var nClusters := clusterIds[n - 1] + 1;
    AllClustersNonEmpty(times, dt);
    var unitCos, unitSin := ClusterUnitVectors(phases, clusterIds, nClusters, tr);
    var d2Cluster := D2(Sum(unitCos), Sum(unitSin), nClusters);
    assert unitCos == seq(nClusters, c requires 0 <= c < nClusters => ClusterUnit(phases, clusterIds, c, tr).0);
    assert unitSin == seq(nClusters, c requires 0 <= c < nClusters => ClusterUnit(phases, clusterIds, c, tr).1);
    r := SchusterResult(n, nClusters, d2Standard, StandardP(d2Standard, tr), StandardP(d2Cluster, tr));
  }

  datatype SpectrumEntry = SpectrumEntry(period: real, d2: real, pStandard: real, pClusterRobust: real)

  /** The spectrum entry of one period. */
  function SpectrumAt(times: seq<real>, period: real, dt: real, tr: Transcendentals): SpectrumEntry
    requires period != 0.0
  {
    var d2 := StandardD2(times, period, tr);
    SpectrumEntry(period, d2, StandardP(d2, tr), StandardP(ClusterD2(times, period, dt, tr), tr))
  }

  /** For a non-empty catalog a spectrum entry carries the statistic and
   *  both probabilities of the single-period test at its period. */
  lemma SpectrumAgreesWithSinglePeriod(times: seq<real>, period: real, dt: real, tr: Transcendentals)
    requires period != 0.0 && |times| > 0
    ensures var e, r := SpectrumAt(times, period, dt, tr), SinglePeriod(times, period, dt, tr);
      e.period == period && e.d2 == r.d2 && e.pStandard == r.pStandard && e.pClusterRobust == r.pClusterRobust
  {
  }

  /** One pass of the spectrum loop: the entry computed from the shared
   *  cluster ids is the entry of that period. */
  lemma SpectrumStep(times: seq<real>, period: real, dt: real, tr: Transcendentals,
                     clusterIds: seq<nat>, unitCos: seq<real>, unitSin: seq<real>)
    requires period != 0.0
    requires clusterIds == ClusterIds(times, dt)
    requires var nc := NumClusters(times, dt);
      |unitCos| == nc && |unitSin| == nc &&
      forall c :: 0 <= c < nc ==> (HasMember(clusterIds, c) &&
        unitCos[c] == ClusterUnit(Angles(times, period), clusterIds, c, tr).0 &&
        unitSin[c] == ClusterUnit(Angles(times, period), clusterIds, c, tr).1)
    ensures var phases := Angles(times, period);
      var d2Std := D2(Sum(MapReal(tr.cos, phases)), Sum(MapReal(tr.sin, phases)), |times|);
      var d2Cr := D2(Sum(unitCos), Sum(unitSin), NumClusters(times, dt));
      SpectrumEntry(period, d2Std, StandardP(d2Std, tr), StandardP(d2Cr, tr)) == SpectrumAt(times, period, dt, tr)
  {
    var nc := NumClusters(times, dt);
    var a := Angles(times, period);
    assert unitCos == seq(nc, c requires 0 <= c < nc => ClusterUnit(a, clusterIds, c, tr).0);
    assert unitSin == seq(nc, c requires 0 <= c < nc => ClusterUnit(a, clusterIds, c, tr).1);
  }

  lemma SpectrumSnoc(spectrum: seq<SpectrumEntry>, entry: SpectrumEntry, times: seq<real>, periods: seq<real>, j: nat, dt: real, tr: Transcendentals)
    requires j < |periods| && |spectrum| == j
    requires forall q :: 0 <= q < |periods| ==> periods[q] > 0.0
    requires forall q :: 0 <= q < j ==> spectrum[q] == SpectrumAt(times, periods[q], dt, tr)
    requires entry == SpectrumAt(times, periods[j], dt, tr)
    ensures forall q :: 0 <= q < j + 1 ==> (spectrum + [entry])[q] == SpectrumAt(times, periods[q], dt, tr)
  {
  }

  /** `schuster_spectrum` over a given grid of periods (the log-spaced grid
   *  values themselves are not modelled). Cluster ids are computed once. */
  method SchusterSpectrum(times: seq<real>, periods: seq<real>, dt: real, tr: Transcendentals)
    returns (spectrum: seq<SpectrumEntry>)
    requires forall j :: 0 <= j < |periods| ==> periods[j] > 0.0
    ensures |spectrum| == |periods|
    ensures forall j :: 0 <= j < |periods| ==> spectrum[j] == SpectrumAt(times, periods[j], dt, tr)
  {
    spectrum := [];
    var clusterIds := AssignClusters(times, dt);
    var n := |times|;
    var nClusters := if n > 0 then clusterIds[n - 1] + 1 else 0;
    assert nClusters == NumClusters(times, dt);
    AllClustersNonEmpty(times, dt);
    var j := 0;
    while j < |periods|
      invariant 0 <= j <= |periods|
      invariant |spectrum| == j
      invariant forall q :: 0 <= q < j ==> spectrum[q] == SpectrumAt(times, periods[q], dt, tr)
    {
      var period := periods[j];
      ghost var e := SpectrumAt(times, period, dt, tr);
      var phases := Angles(times, period);
      var d2Std := D2(Sum(MapReal(tr.cos, phases)), Sum(MapReal(tr.sin, phases)), n);
      var unitCos, unitSin := ClusterUnitVectors(phases, clusterIds, nClusters, tr);
      var d2Cr := D2(Sum(unitCos), Sum(unitSin), nClusters);
      SpectrumStep(times, period, dt, tr, clusterIds, unitCos, unitSin);
      var entry := SpectrumEntry(period, d2Std, StandardP(d2Std, tr), StandardP(d2Cr, tr));
      assert entry == e;
      SpectrumSnoc(spectrum, entry, times, periods, j, dt, tr);
      spectrum := spectrum + [entry];
      j := j + 1;
    }
  }

  /** Labels of an ordered label-to-period table. */
  function Labels(periods: seq<(string, real)>): (ls: set<string>)
    ensures forall j :: 0 <= j < |periods| ==> periods[j].0 in ls
    ensures forall l :: l in ls ==> exists j :: 0 <= j < |periods| && periods[j].0 == l
  {
    set j | 0 <= j < |periods| :: periods[j].0
  }

  /** `schuster_explicit_tests`: one single-period result per label of a
   *  table whose labels are distinct, as the keys of a dict are. */
  method SchusterExplicitTests(times: seq<real>, dt: real, periods: seq<(string, real)>, tr: Transcendentals)
    returns (results: map<string, SchusterResult>)
    requires forall j :: 0 <= j < |periods| ==> periods[j].1 != 0.0
    requires forall i, j :: 0 <= i < j < |periods| ==> periods[i].0 != periods[j].0
    ensures results.Keys == Labels(periods)
    ensures forall j :: 0 <= j < |periods| ==>
      results[periods[j].0] == SinglePeriod(times, periods[j].1, dt, tr)
  {
    results := map[];
    var j := 0;
    while j < |periods|
      invariant 0 <= j <= |periods|
      invariant results.Keys == set q | 0 <= q < j :: periods[q].0
      invariant forall q :: 0 <= q < j ==> results[periods[q].0] == SinglePeriod(times, periods[q].1, dt, tr)
    {
      var name := periods[j].0;
      var r := SchusterSinglePeriod(times, periods[j].1, dt, tr);
      results := results[name := r];
      j := j + 1;
    }
  }
}
