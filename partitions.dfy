/** The descriptive partitions of the A1b analysis: the clamped solar
 *  phase, each event's distance to the nearest plate-boundary vertex and
 *  its proximity class, the 30-degree latitude bands, the magnitude bins,
 *  and the proposed declustering window. */
module CatalogPartitions {
  import opened Numerics
  import opened Calendar

  // ---------------------------------------------------------------------
  // compute_solar_phase
  // ---------------------------------------------------------------------

  const SOLAR_CLAMP: real := 0.999999

  function ClampSolar(x: real): (r: real)
    ensures x >= 1.0 ==> r == SOLAR_CLAMP
    ensures x < 1.0 ==> r == x
  {
    if x >= 1.0 then SOLAR_CLAMP else x
  }

  /** The solar phase of each (solar seconds, solaration year) pair, the
   *  seconds divided by the calendar-year length, with every value of 1 or
   *  more replaced by 0.999999. */
  function SolarPhases(events: seq<(real, int)>): (r: seq<real>)
    ensures |r| == |events|
  {
    seq(|events|, i requires 0 <= i < |events| => ClampSolar(events[i].0 / YearLengthSeconds(events[i].1) as real))
  }

  /** Every clamped phase is below 1, and a phase below 1 is unchanged. */
  lemma SolarPhasesBelowOne(events: seq<(real, int)>, i: nat)
    requires i < |events|
    ensures var raw := events[i].0 / YearLengthSeconds(events[i].1) as real;
      SolarPhases(events)[i] < 1.0 && (raw < 1.0 ==> SolarPhases(events)[i] == raw)
  {
  }

  // ---------------------------------------------------------------------
  // Distance to the nearest boundary vertex
  // ---------------------------------------------------------------------

  datatype Location = Location(lat: real, lon: real)

  const CHUNK_SIZE: nat := 200

  /** The smallest distance from e to a boundary vertex; `dist` is the
   *  great-circle distance. */
  function NearestDistance(e: Location, boundary: seq<Location>, dist: (Location, Location) -> real): (d: real)
    requires |boundary| > 0
    ensures forall j :: 0 <= j < |boundary| ==> d <= dist(e, boundary[j])
    ensures exists j :: 0 <= j < |boundary| && d == dist(e, boundary[j])
  {
    var ds := seq(|boundary|, j requires 0 <= j < |boundary| => dist(e, boundary[j]));
    assert forall j :: 0 <= j < |boundary| ==> ds[j] == dist(e, boundary[j]);
    MinOf(ds)
  }

  function NearestDistances(events: seq<Location>, boundary: seq<Location>, dist: (Location, Location) -> real): (ds: seq<real>)
    requires |boundary| > 0
    ensures |ds| == |events|
    ensures forall i :: 0 <= i < |events| ==> ds[i] == NearestDistance(events[i], boundary, dist)
  {
    seq(|events|, i requires 0 <= i < |events| => NearestDistance(events[i], boundary, dist))
  }

  /** The chunked loop of `classify_proximity`: `min_dists[start:end]`
   *  filled one chunk of 200 events at a time. */
  method ChunkedNearestDistances(events: seq<Location>, boundary: seq<Location>, dist: (Location, Location) -> real)
    returns (ds: seq<real>)
    requires |boundary| > 0
    ensures ds == NearestDistances(events, boundary, dist)
  {
    var n := |events|;
    var minDists := new real[n];
    var start := 0;
    while start < n
      invariant 0 <= start <= n
      invariant forall i :: 0 <= i < start ==> minDists[i] == NearestDistance(events[i], boundary, dist)
    {
      var end := if start + CHUNK_SIZE < n then start + CHUNK_SIZE else n;
      var i := start;
      while i < end
        invariant start <= i <= end
        invariant forall j :: 0 <= j < i ==> minDists[j] == NearestDistance(events[j], boundary, dist)
      {
        minDists[i] := NearestDistance(events[i], boundary, dist);
        i := i + 1;
      }
      start := end;
    }
    ds := minDists[..];
  }

  // ---------------------------------------------------------------------
  // Boundary proximity classes
  // ---------------------------------------------------------------------

  const NEAR_BOUNDARY_KM: real := 100.0
  const TRANSITIONAL_KM: real := 300.0

  datatype Proximity = NearBoundary | Transitional | Intraplate

  /** Near within 100 km, transitional within (100, 300] km, intraplate
   *  beyond 300 km. */
  function ClassifyProximity(d: real): (p: Proximity)
    ensures p == NearBoundary <==> d <= NEAR_BOUNDARY_KM
    ensures p == Transitional <==> NEAR_BOUNDARY_KM < d <= TRANSITIONAL_KM
    ensures p == Intraplate <==> d > TRANSITIONAL_KM
  {
    if d <= NEAR_BOUNDARY_KM then NearBoundary
    else if d <= TRANSITIONAL_KM then Transitional
    else Intraplate
  }

  function CountClass(ds: seq<real>, p: Proximity): (n: nat)
    ensures n <= |ds|
  {
    if ds == [] then 0
    else CountClass(ds[..|ds| - 1], p) + (if ClassifyProximity(ds[|ds| - 1]) == p then 1 else 0)
  }

  /** The three classes partition the events. */
  lemma {:induction false} ProximityCountsSum(ds: seq<real>)
    ensures CountClass(ds, NearBoundary) + CountClass(ds, Transitional) + CountClass(ds, Intraplate) == |ds|
  {
    if ds != [] {
      ProximityCountsSum(ds[..|ds| - 1]);
    }
  }

  /** `count / total * 100`. */
  function Pct(count: nat, total: nat): real
    requires total > 0
  {
    count as real / total as real * 100.0
  }

  datatype ProximityPcts = ProximityPcts(near: real, transitional: real, intraplate: real)

  function ProximityPctsOf(ds: seq<real>): ProximityPcts
    requires |ds| > 0
  {
    ProximityPcts(Pct(CountClass(ds, NearBoundary), |ds|),
                  Pct(CountClass(ds, Transitional), |ds|),
                  Pct(CountClass(ds, Intraplate), |ds|))
  }

  /** Before rounding, the three percentages sum to exactly 100. */
  lemma ProximityPctsSum(ds: seq<real>)
    requires |ds| > 0
    ensures var p := ProximityPctsOf(ds); p.near + p.transitional + p.intraplate == 100.0
  {
    ProximityCountsSum(ds);
    var t := |ds| as real;
    var a := CountClass(ds, NearBoundary) as real;
    var b := CountClass(ds, Transitional) as real;
    var c := CountClass(ds, Intraplate) as real;
    QuotientSum(a, b, t);
    QuotientSum(a + b, c, t);
    QuotientSelf(t);
    assert a / t + b / t + c / t == 1.0;
  }

  // ---------------------------------------------------------------------
  // Counting in half-open ranges: latitude bands and magnitude bins
  // ---------------------------------------------------------------------

  /** `((x >= lo) & (x < hi)).sum()`. */
  function CountIn(xs: seq<real>, lo: real, hi: real): (n: nat)
    ensures n <= |xs|
  {
    if xs == [] then 0
    else CountIn(xs[..|xs| - 1], lo, hi) + (if lo <= xs[|xs| - 1] < hi then 1 else 0)
  }

  /** `(x >= lo).sum()`. */
  function CountAtLeast(xs: seq<real>, lo: real): (n: nat)
    ensures n <= |xs|
  {
    if xs == [] then 0
    else CountAtLeast(xs[..|xs| - 1], lo) + (if lo <= xs[|xs| - 1] then 1 else 0)
  }

  /** Adjacent ranges add up. */
  lemma {:induction false} CountInSplit(xs: seq<real>, a: real, b: real, c: real)
    requires a <= b <= c
    ensures CountIn(xs, a, c) == CountIn(xs, a, b) + CountIn(xs, b, c)
  {
    if xs != [] {
      CountInSplit(xs[..|xs| - 1], a, b, c);
    }
  }

  lemma {:induction false} CountAtLeastSplit(xs: seq<real>, a: real, b: real)
    requires a <= b
    ensures CountAtLeast(xs, a) == CountIn(xs, a, b) + CountAtLeast(xs, b)
  {
    if xs != [] {
      CountAtLeastSplit(xs[..|xs| - 1], a, b);
    }
  }

  lemma {:induction false} CountAtLeastAll(xs: seq<real>, a: real)
    requires forall i :: 0 <= i < |xs| ==> a <= xs[i]
    ensures CountAtLeast(xs, a) == |xs|
  {
    if xs != [] {
      CountAtLeastAll(xs[..|xs| - 1], a);
    }
  }

  datatype Band = Band(name: string, lo: real, hi: real)

  /** Ranges that follow each other without gap or overlap. */
  predicate Contiguous(bands: seq<Band>)
  {
    (forall i :: 0 <= i < |bands| ==> bands[i].lo <= bands[i].hi) &&
    (forall i :: 0 <= i < |bands| - 1 ==> bands[i].hi == bands[i + 1].lo)
  }

  function BandCounts(xs: seq<real>, bands: seq<Band>): (r: seq<nat>)
    ensures |r| == |bands|
    ensures forall b :: 0 <= b < |bands| ==> r[b] == CountIn(xs, bands[b].lo, bands[b].hi)
  {
    seq(|bands|, b requires 0 <= b < |bands| => CountIn(xs, bands[b].lo, bands[b].hi))
  }

  function SumCounts(s: seq<nat>): nat
  {
    if s == [] then 0 else SumCounts(s[..|s| - 1]) + s[|s| - 1]
  }

  /** The counts of contiguous bands sum to the count in their union. */
  lemma {:induction false} ContiguousCountsSum(xs: seq<real>, bands: seq<Band>)
    requires |bands| > 0 && Contiguous(bands)
    ensures bands[0].lo <= bands[|bands| - 1].hi
    ensures SumCounts(BandCounts(xs, bands)) == CountIn(xs, bands[0].lo, bands[|bands| - 1].hi)
  {
    var n := |bands| - 1;
    var front := bands[..n];
    assert BandCounts(xs, bands)[..n] == BandCounts(xs, front);
    if n > 0 {
      assert Contiguous(front);
      ContiguousCountsSum(xs, front);
      CountInSplit(xs, bands[0].lo, bands[n].lo, bands[n].hi);
    } else {
      assert BandCounts(xs, front) == [];
    }
  }

  /** `latitude_banding`: six 30-degree bands from -90 to 90. */
  const LAT_BANDS: seq<Band> := [
    Band("90S-60S", -90.0, -60.0),
    Band("60S-30S", -60.0, -30.0),
    Band("30S-0", -30.0, 0.0),
    Band("0-30N", 0.0, 30.0),
    Band("30N-60N", 30.0, 60.0),
    Band("60N-90N", 60.0, 90.0)]

  /** The latitude band counts sum to the number of latitudes in
   *  [-90, 90): a latitude of exactly 90 falls in no band. */
  lemma LatitudeBandsSum(lats: seq<real>)
    ensures SumCounts(BandCounts(lats, LAT_BANDS)) == CountIn(lats, -90.0, 90.0)
    ensures CountIn([90.0], -90.0, 90.0) == 0
  {
    ContiguousCountsSum(lats, LAT_BANDS);
    assert [90.0][..0] == [];
  }

  /** The latitude bands are disjoint: no latitude lies in two of them. */
  lemma LatitudeBandsDisjoint(lat: real, b: nat, c: nat)
    requires b < c < |LAT_BANDS|
    ensures !(LAT_BANDS[b].lo <= lat < LAT_BANDS[b].hi && LAT_BANDS[c].lo <= lat < LAT_BANDS[c].hi)
  {
  }

  /** `mag_bins` of `magnitude_analysis`. */
  datatype MagBins = MagBins(m60: nat, m65: nat, m70: nat, m75: nat)

  function MagBinsOf(mags: seq<real>): MagBins
  {
    MagBins(CountIn(mags, 6.0, 6.5), CountIn(mags, 6.5, 7.0), CountIn(mags, 7.0, 7.5), CountAtLeast(mags, 7.5))
  }

  /** The four bins partition [6, infinity): they sum to the number of
   *  magnitudes of 6 or more, which is every magnitude of an M6+ catalog. */
  lemma MagBinsSum(mags: seq<real>)
    ensures var b := MagBinsOf(mags); b.m60 + b.m65 + b.m70 + b.m75 == CountAtLeast(mags, 6.0)
    ensures (forall i :: 0 <= i < |mags| ==> 6.0 <= mags[i]) ==>
      var b := MagBinsOf(mags); b.m60 + b.m65 + b.m70 + b.m75 == |mags|
  {
    CountAtLeastSplit(mags, 6.0, 7.5);
    CountInSplit(mags, 6.0, 7.0, 7.5);
    CountInSplit(mags, 6.0, 6.5, 7.0);
    if forall i :: 0 <= i < |mags| ==> 6.0 <= mags[i] {
      CountAtLeastAll(mags, 6.0);
    }
  }

  // ---------------------------------------------------------------------
  // declustering_window_estimate
  // ---------------------------------------------------------------------

  datatype Window = Window(spatialKm: real, temporalDays: real)

  /** The proposed window: the 75th-percentile nearest-neighbour distance
   *  and the 90th-percentile inter-event interval, each rounded to one
   *  decimal. */
  function ProposedWindow(nnP75Km: real, ieiP90Days: real): (w: Window)
    ensures -0.05 <= w.spatialKm - nnP75Km <= 0.05
    ensures -0.05 <= w.temporalDays - ieiP90Days <= 0.05
    ensures (w.spatialKm * 10.0).Floor as real == w.spatialKm * 10.0
    ensures (w.temporalDays * 10.0).Floor as real == w.temporalDays * 10.0
  {
    Window(Round1(nnP75Km), Round1(ieiP90Days))
  }
}
