/** The magnitude stratification analysis: the split of the catalog into
 *  four half-open magnitude bands, the per-band bin statistics, and the
 *  rule tables of the effect-size trend analysis that turn the per-band
 *  k = 24 results into a trend class and four prediction verdicts. */
module MagnitudeBands {
  import opened Numerics
  import opened Wrappers
  import opened Text
  import opened Phase
  import opened BinnedStats

  const EXPECTED_TOTAL: nat := 9210

  // ---------------------------------------------------------------------
  // The bands
  // ---------------------------------------------------------------------

  /** A band holds the magnitudes in [lo, hi). */
  datatype Band = Band(name: string, lo: real, hi: real)

  const M75_LABEL: string := "M7.5+"

  const BANDS: seq<Band> := [
    Band("M6.0-6.4", 6.0, 6.5),
    Band("M6.5-6.9", 6.5, 7.0),
    Band("M7.0-7.4", 7.0, 7.5),
    Band(M75_LABEL, 7.5, 99.0)
  ]

  predicate InBand(mag: real, b: Band)
  {
    b.lo <= mag < b.hi
  }

  /** The magnitudes some band covers. */
  predicate InRange(mag: real)
  {
    6.0 <= mag < 99.0
  }

  /** The bands tile [6.0, 99.0): a magnitude is in some band exactly when
   *  it is in range, and then in only one. */
  lemma BandsPartitionRange(mag: real)
    ensures InRange(mag) <==> exists i :: 0 <= i < |BANDS| && InBand(mag, BANDS[i])
    ensures forall i, j :: 0 <= i < |BANDS| && 0 <= j < |BANDS| && InBand(mag, BANDS[i]) && InBand(mag, BANDS[j]) ==> i == j
  {
    if InRange(mag) {
      if mag < 6.5 { assert InBand(mag, BANDS[0]); }
      else if mag < 7.0 { assert InBand(mag, BANDS[1]); }
      else if mag < 7.5 { assert InBand(mag, BANDS[2]); }
      else { assert InBand(mag, BANDS[3]); }
    }
  }

  datatype Event = Event(mag: real, solarSecs: real)

  /** `df[mask]` for one band: its events, in catalog order. */
  function InBandEvents(events: seq<Event>, b: Band): (r: seq<Event>)
    ensures |r| <= |events|
    ensures forall i :: 0 <= i < |r| ==> InBand(r[i].mag, b) && r[i] in events
  {
    if events == [] then []
    else
      var last := events[|events| - 1];
      InBandEvents(events[..|events| - 1], b) + (if InBand(last.mag, b) then [last] else [])
  }

  /** Every event of a band is kept. */
  lemma {:induction false} InBandComplete(events: seq<Event>, b: Band, i: nat)
    requires i < |events| && InBand(events[i].mag, b)
    ensures events[i] in InBandEvents(events, b)
  {
    if i < |events| - 1 {
      InBandComplete(events[..|events| - 1], b, i);
    }
  }

  /** The events whose magnitude lies in [6.0, 99.0): every one of them
   *  and nothing else. */
  function InRangeEvents(events: seq<Event>): (r: seq<Event>)
    ensures |r| <= |events|
    ensures forall i :: 0 <= i < |r| ==> InRange(r[i].mag) && r[i] in events
    ensures forall e :: e in events && InRange(e.mag) ==> e in r
  {
    if events == [] then []
    else
      var last := events[|events| - 1];
      InRangeEvents(events[..|events| - 1]) + (if InRange(last.mag) then [last] else [])
  }

  /** Without out-of-range magnitudes, nothing is dropped. */
  lemma {:induction false} InRangeEventsAll(events: seq<Event>)
    requires forall i :: 0 <= i < |events| ==> InRange(events[i].mag)
    ensures InRangeEvents(events) == events
  {
    if events != [] {
      var front := events[..|events| - 1];
      assert forall i :: 0 <= i < |front| ==> front[i] == events[i];
      InRangeEventsAll(front);
      assert events == front + [events[|events| - 1]];
    }
  }

  /** The band data frames in band order. */
  function BandEvents(events: seq<Event>): (bs: seq<seq<Event>>)
    ensures |bs| == |BANDS|
    ensures forall i :: 0 <= i < |BANDS| ==> bs[i] == InBandEvents(events, BANDS[i])
  {
    seq(|BANDS|, i requires 0 <= i < |BANDS| => InBandEvents(events, BANDS[i]))
  }

  /** `sum(len(v) for v in band_dfs.values())`. */
  function SumLengths(bs: seq<seq<Event>>): nat
  {
    if bs == [] then 0 else SumLengths(bs[..|bs| - 1]) + |bs[|bs| - 1]|
  }

  lemma SumLengthsFour(bs: seq<seq<Event>>)
    requires |bs| == 4
    ensures SumLengths(bs) == |bs[0]| + |bs[1]| + |bs[2]| + |bs[3]|
  {
    var b3, b2, b1 := bs[..3], bs[..2], bs[..1];
    assert b3[..2] == b2 && b2[..1] == b1 && b1[..0] == [];
    assert SumLengths(b1) == |bs[0]|;
    assert SumLengths(b2) == |bs[0]| + |bs[1]|;
    assert SumLengths(b3) == |bs[0]| + |bs[1]| + |bs[2]|;
  }

  /** No event is counted twice and every event in range is counted once:
   *  the band sizes add up to the number of events in [6.0, 99.0). */
  lemma {:induction false} BandSizesSum(events: seq<Event>)
    ensures SumLengths(BandEvents(events)) == |InRangeEvents(events)|
  {
    SumLengthsFour(BandEvents(events));
    if events != [] {
      var front := events[..|events| - 1];
      BandSizesSum(front);
      SumLengthsFour(BandEvents(front));
    }
  }

  function PartitionMessage(total: nat): string
  {
    "Band sizes sum to " + NatToString(total) + ", expected " + NatToString(EXPECTED_TOTAL) +
    ". Check for missing or overlapping band boundaries."
  }

  /** The per-band frames, one filter per band. */
  method CollectBands(events: seq<Event>) returns (bandDfs: seq<seq<Event>>)
    ensures bandDfs == BandEvents(events)
  {
    bandDfs := [];
    var i := 0;
    while i < |BANDS|
      invariant 0 <= i <= |BANDS|
      invariant |bandDfs| == i
      invariant forall j :: 0 <= j < i ==> bandDfs[j] == InBandEvents(events, BANDS[j])
    {
      var dfBand := InBandEvents(events, BANDS[i]);
      bandDfs := bandDfs + [dfBand];
      i := i + 1;
    }
  }

  /** The total size of the band frames. */
  method BandsTotal(bandDfs: seq<seq<Event>>) returns (total: nat)
    ensures total == SumLengths(bandDfs)
  {
    total := 0;
    var i := 0;
    while i < |bandDfs|
      invariant 0 <= i <= |bandDfs|
      invariant total == SumLengths(bandDfs[..i])
    {
      assert bandDfs[..i + 1][..i] == bandDfs[..i];
      total := total + |bandDfs[i]|;
      i := i + 1;
    }
    assert bandDfs[..i] == bandDfs;
  }

  /** `split_by_magnitude`: one filtered frame per band, then the assertion
   *  that the band sizes sum to the catalog size. */
  method SplitByMagnitude(events: seq<Event>) returns (r: Result<seq<seq<Event>>>)
    ensures r.Success? <==> |InRangeEvents(events)| == EXPECTED_TOTAL
    ensures r.Success? ==> r.value == BandEvents(events)
    ensures r.Failure? ==> r.error == PartitionMessage(|InRangeEvents(events)|)
  {
    var bandDfs := CollectBands(events);
    var total := BandsTotal(bandDfs);
    BandSizesSum(events);
    if total == EXPECTED_TOTAL {
      r := Success(bandDfs);
    } else {
      r := Failure(PartitionMessage(total));
    }
  }

  /** On a catalog whose magnitudes all lie in [6.0, 99.0) the split
   *  succeeds exactly when the catalog has the expected size. */
  lemma SplitOfInRangeCatalog(events: seq<Event>)
    requires forall i :: 0 <= i < |events| ==> InRange(events[i].mag)
    ensures SumLengths(BandEvents(events)) == |events|
  {
    BandSizesSum(events);
    InRangeEventsAll(events);
  }

  // ---------------------------------------------------------------------
  // Per-band statistics
  // ---------------------------------------------------------------------

  function SolarSecsOf(events: seq<Event>): (r: seq<real>)
    ensures |r| == |events|
    ensures forall i :: 0 <= i < |r| ==> r[i] == events[i].solarSecs
  {
    seq(|events|, i requires 0 <= i < |events| => events[i].solarSecs)
  }

  /** The statistics rows of all bands, in band order. */
  function AllBandStats(bandDfs: seq<seq<Event>>, tr: Transcendentals): (rs: seq<seq<BinStats>>)
    ensures |rs| == |bandDfs|
    ensures forall b :: 0 <= b < |rs| ==> rs[b] == StatsAtAllK(SolarPhases(SolarSecsOf(bandDfs[b])), tr)
  {
    seq(|bandDfs|, b requires 0 <= b < |bandDfs| => StatsAtAllK(SolarPhases(SolarSecsOf(bandDfs[b])), tr))
  }

  /** The binning part of `compute_all_band_stats`: for each band its
   *  solar phases, then the statistics at k = 16, 24 and 32. */
  method ComputeAllBandStats(bandDfs: seq<seq<Event>>, tr: Transcendentals) returns (rs: seq<seq<BinStats>>)
    ensures rs == AllBandStats(bandDfs, tr)
  {
    rs := [];
    var b := 0;
    while b < |bandDfs|
      invariant 0 <= b <= |bandDfs|
      invariant rs == AllBandStats(bandDfs, tr)[..b]
    {
      var phases := SolarPhases(SolarSecsOf(bandDfs[b]));
      var entry := ComputeStatsAtAllK(phases, tr);
      rs := rs + [entry];
      b := b + 1;
    }
  }

  // ---------------------------------------------------------------------
  // The trend analysis
  // ---------------------------------------------------------------------

  const INCREASING: string := "increasing"
  const DECREASING: string := "decreasing"
  const FLAT: string := "flat"

  /** The trend class of the Spearman correlation of Cramér's V with the
   *  band index. */
  function TrendClass(rho: real): (t: string)
    ensures t == INCREASING <==> rho > 0.5
    ensures t == DECREASING <==> rho < -0.5
    ensures t == FLAT <==> -0.5 <= rho <= 0.5
  {
    if rho > 0.5 then INCREASING else if rho < -0.5 then DECREASING else FLAT
  }

  const SUPPORTED: string := "supported"
  const PARTIALLY: string := "partially"
  const NOT_SUPPORTED: string := "not supported"

  predicate IsSupport(s: string)
  {
    s == SUPPORTED || s == PARTIALLY || s == NOT_SUPPORTED
  }

  /** The k = 24 results of one band the trend analysis reads. */
  datatype BandSummary = BandSummary(cramerV: real, rayleighR: real, pChi2: real)

  const SIGNIFICANCE: real := 0.05

  /** The labels of the bands whose k = 24 p-value is below 0.05, in band
   *  order. */
  function SignificantBands(k24: seq<BandSummary>): (r: seq<string>)
    requires |k24| <= |BANDS|
    ensures |r| <= |k24|
  {
    if k24 == [] then []
    else
      SignificantBands(k24[..|k24| - 1]) +
        (if k24[|k24| - 1].pChi2 < SIGNIFICANCE then [BANDS[|k24| - 1].name] else [])
  }

  /** A band's label is listed exactly when the band is significant. */
  lemma {:induction false} SignificantBandsSpec(k24: seq<BandSummary>, b: nat)
    requires |k24| <= |BANDS| && b < |BANDS|
    ensures BANDS[b].name in SignificantBands(k24) <==> b < |k24| && k24[b].pChi2 < SIGNIFICANCE
  {
    if k24 != [] {
      var n := |k24| - 1;
      SignificantBandsSpec(k24[..n], b);
      assert BANDS[n].name == BANDS[b].name <==> n == b;
      if b < n {
        assert k24[..n][b] == k24[b];
      }
    }
  }

  /** One of the three verdicts from a strong and a weak condition. */
  function Verdict(strong: bool, weak: bool): (s: string)
    ensures IsSupport(s)
    ensures s == SUPPORTED <==> strong
    ensures s == PARTIALLY <==> !strong && weak
  {
    if strong then SUPPORTED else if weak then PARTIALLY else NOT_SUPPORTED
  }

  /** The index of the first band attaining the largest value: Python's
   *  `max` with a key keeps the first of equal maxima. */
  function FirstMaxIndex(vs: seq<real>): (i: nat)
    requires |vs| > 0
    ensures i < |vs|
    ensures forall j :: 0 <= j < |vs| ==> vs[j] <= vs[i]
    ensures forall j :: 0 <= j < i ==> vs[j] < vs[i]
  {
    if |vs| == 1 then 0
    else
      var i := FirstMaxIndex(vs[..|vs| - 1]);
      if vs[|vs| - 1] > vs[i] then |vs| - 1 else i
  }

  /** The ratio max V / min V, infinite when min V is not positive. */
  datatype Ratio = Finite(value: real) | Infinite

  function VRatio(vs: seq<real>): (r: Ratio)
    requires |vs| > 0
    ensures r.Infinite? <==> MinOf(vs) <= 0.0
    ensures r.Finite? ==> r.value >= 1.0
  {
    var vMin := MinOf(vs);
    if vMin > 0.0 then
      assert MinOf(vs) <= vs[0] <= MaxOf(vs);
      QuotientAtLeastOne(MaxOf(vs), vMin);
      Finite(MaxOf(vs) / vMin)
    else Infinite
  }

  /** The magnitude-independence verdict from the ratio. */
  function RatioVerdict(r: Ratio): (s: string)
    ensures IsSupport(s)
    ensures s == SUPPORTED <==> r.Finite? && r.value < 1.5
    ensures s == PARTIALLY <==> r.Finite? && 1.5 <= r.value < 2.0
  {
    if r.Finite? && r.value < 1.5 then SUPPORTED
    else if r.Finite? && r.value < 2.0 then PARTIALLY
    else NOT_SUPPORTED
  }

  datatype TrendAnalysis = TrendAnalysis(
    cramerVByBand: seq<real>,
    rayleighRByBand: seq<real>,
    trendClassification: string,
    significantBands: seq<string>,
    m75Significant: bool,
    cramerVRatio: Ratio,
    hydrologicalLoading: string,
    solarGeometric: string,
    tidalLiteraturePattern: string,
    magnitudeIndependent: string)

  function CramerVs(k24: seq<BandSummary>): (vs: seq<real>)
    ensures |vs| == |k24|
    ensures forall b :: 0 <= b < |k24| ==> vs[b] == k24[b].cramerV
  {
    seq(|k24|, b requires 0 <= b < |k24| => k24[b].cramerV)
  }

  function RayleighRs(k24: seq<BandSummary>): (rs: seq<real>)
    ensures |rs| == |k24|
    ensures forall b :: 0 <= b < |k24| ==> rs[b] == k24[b].rayleighR
  {
    seq(|k24|, b requires 0 <= b < |k24| => k24[b].rayleighR)
  }

  /** `compute_trend_analysis` given the k = 24 results of the four bands
   *  in band order and the Spearman rho of V against the band index. */
  function TrendAnalysisOf(k24: seq<BandSummary>, rhoV: real): (t: TrendAnalysis)
    requires |k24| == |BANDS|
    ensures t.trendClassification == TrendClass(rhoV)
    ensures t.m75Significant <==> k24[3].pChi2 < SIGNIFICANCE
    ensures IsSupport(t.hydrologicalLoading) && IsSupport(t.solarGeometric)
    ensures IsSupport(t.tidalLiteraturePattern) && IsSupport(t.magnitudeIndependent)
  {
    var vs := CramerVs(k24);
    var trend := TrendClass(rhoV);
    var significant := SignificantBands(k24);
    var m75 := M75_LABEL in significant;
    SignificantBandsSpec(k24, 3);
    var decreasing := trend == DECREASING;
    var flatOrIncreasing := trend == FLAT || trend == INCREASING;
    var maxBand := FirstMaxIndex(vs);
    var ratio := VRatio(vs);
    TrendAnalysis(
      vs, RayleighRs(k24), trend, significant, m75, ratio,
      Verdict(!m75 && decreasing, !m75 || decreasing),
      Verdict(flatOrIncreasing && m75, flatOrIncreasing || m75),
      Verdict(BANDS[maxBand].name == BANDS[0].name, vs[0] > vs[3]),
      RatioVerdict(ratio))
  }

  /** The four verdict tables in terms of the inputs: hydrological loading
   *  is supported exactly when M7.5+ is not significant and the trend is
   *  decreasing; solar-geometric forcing exactly when the trend is not
   *  decreasing and M7.5+ is significant; the tidal pattern exactly when
   *  the lowest band's V is at least every other band's, and partially
   *  when it is not but exceeds the top band's. */
  lemma TrendVerdicts(k24: seq<BandSummary>, rhoV: real)
    requires |k24| == |BANDS|
    ensures var t := TrendAnalysisOf(k24, rhoV);
      var m75 := k24[3].pChi2 < SIGNIFICANCE;
      (t.hydrologicalLoading == SUPPORTED <==> !m75 && rhoV < -0.5) &&
      (t.hydrologicalLoading == PARTIALLY <==> (m75 && rhoV < -0.5) || (!m75 && rhoV >= -0.5)) &&
      (t.solarGeometric == SUPPORTED <==> rhoV >= -0.5 && m75) &&
      (t.solarGeometric == PARTIALLY <==> (rhoV >= -0.5 && !m75) || (rhoV < -0.5 && m75))
    ensures var t := TrendAnalysisOf(k24, rhoV);
      var v0 := k24[0].cramerV;
      (t.tidalLiteraturePattern == SUPPORTED <==> forall b :: 0 <= b < |k24| ==> k24[b].cramerV <= v0) &&
      (t.tidalLiteraturePattern == PARTIALLY <==>
        (exists b :: 0 <= b < |k24| && k24[b].cramerV > v0) && v0 > k24[3].cramerV)
  {
    var vs := CramerVs(k24);
    var maxBand := FirstMaxIndex(vs);
    BandLabelsDistinct(maxBand);
    if forall b :: 0 <= b < |k24| ==> k24[b].cramerV <= k24[0].cramerV {
      assert vs[0] >= vs[maxBand];
    }
  }

  /** The band labels are pairwise distinct. */
  lemma BandLabelsDistinct(i: nat)
    requires i < |BANDS|
    ensures BANDS[i].name == BANDS[0].name <==> i == 0
  {
  }

  /** Equal positive V in every band makes the ratio 1: magnitude
   *  independence is supported. */
  lemma EqualVIsMagnitudeIndependent(k24: seq<BandSummary>, rhoV: real, v: real)
    requires |k24| == |BANDS| && v > 0.0
    requires forall b :: 0 <= b < |k24| ==> k24[b].cramerV == v
    ensures TrendAnalysisOf(k24, rhoV).cramerVRatio == Finite(1.0)
    ensures TrendAnalysisOf(k24, rhoV).magnitudeIndependent == SUPPORTED
  {
    var vs := CramerVs(k24);
    assert MaxOf(vs) == v && MinOf(vs) == v;
    QuotientSelf(v);
  }

  /** `compute_trend_analysis`: the loop over the band labels that reads
   *  V and R, the significant-band list, then the verdicts. */
  method ComputeTrendAnalysis(k24: seq<BandSummary>, rhoV: real) returns (t: TrendAnalysis)
    requires |k24| == |BANDS|
    ensures t == TrendAnalysisOf(k24, rhoV)
  {
    var vVals: seq<real> := [];
    var rVals: seq<real> := [];
    var b := 0;
    while b < |BANDS|
      invariant 0 <= b <= |BANDS|
      invariant vVals == CramerVs(k24)[..b] && rVals == RayleighRs(k24)[..b]
    {
      vVals := vVals + [k24[b].cramerV];
      rVals := rVals + [k24[b].rayleighR];
      b := b + 1;
    }
    assert vVals == CramerVs(k24) && rVals == RayleighRs(k24);
    var trend := TrendClass(rhoV);
    var significant := SignificantBands(k24);
    var m75 := M75_LABEL in significant;
    var flatOrIncreasing := trend == FLAT || trend == INCREASING;
    var hydro := Verdict(!m75 && trend == DECREASING, !m75 || trend == DECREASING);
    var solarGeo := Verdict(flatOrIncreasing && m75, flatOrIncreasing || m75);
    var maxBand := FirstMaxIndex(vVals);
    var tidal := Verdict(BANDS[maxBand].name == BANDS[0].name, vVals[0] > vVals[|vVals| - 1]);
    var ratio := VRatio(vVals);
    var magIndep := RatioVerdict(ratio);
    t := TrendAnalysis(vVals, rVals, trend, significant, m75, ratio, hydro, solarGeo, tidal, magIndep);
  }
}
