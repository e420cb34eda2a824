/** The hemisphere stratification analysis: the split of the catalog by
 *  latitude, per-hemisphere bin counts and elevated intervals, the four
 *  symmetry tests on the k = 24 intervals, and the support each mechanistic
 *  hypothesis receives from them. */
module Hemisphere {
  import opened Numerics
  import opened Wrappers
  import opened Text
  import opened Binning
  import opened ElevatedIntervals
  import opened BinnedStats

  const EXPECTED_TOTAL: nat := 9210

  /** The three A1b intervals of the hemisphere analysis. */
  const A1B_INTERVALS: seq<PhaseInterval> := [
    PhaseInterval(0.1875, 0.25),
    PhaseInterval(0.625, 0.656),
    PhaseInterval(0.875, 0.917)
  ]

  /** One bin width at k = 24, the tolerance of the phase comparisons. */
  const BIN_WIDTH_K24: real := 1.0 / 24.0

  const OVERLAP_THRESHOLD: real := 0.5

  // ---------------------------------------------------------------------
  // The split by latitude
  // ---------------------------------------------------------------------

  datatype Event = Event(latitude: real, solarSecs: real)

  /** Northern (latitude > 0), southern (< 0) and equatorial (== 0). */
  datatype Side = North | South | Equator

  predicate OnSide(latitude: real, side: Side)
  {
    match side
    case North => latitude > 0.0
    case South => latitude < 0.0
    case Equator => latitude == 0.0
  }

  /** `df[mask]` for one side: the events on that side, in catalog order. */
  function OnSideEvents(events: seq<Event>, side: Side): (r: seq<Event>)
    ensures |r| <= |events|
    ensures forall i :: 0 <= i < |r| ==> OnSide(r[i].latitude, side) && r[i] in events
  {
    if events == [] then []
    else
      var last := events[|events| - 1];
      OnSideEvents(events[..|events| - 1], side) + (if OnSide(last.latitude, side) then [last] else [])
  }

  /** Every event on a side is kept. */
  lemma {:induction false} OnSideComplete(events: seq<Event>, side: Side, i: nat)
    requires i < |events| && OnSide(events[i].latitude, side)
    ensures events[i] in OnSideEvents(events, side)
  {
    if i < |events| - 1 {
      OnSideComplete(events[..|events| - 1], side, i);
    }
  }

  /** The three sides partition the catalog. */
  lemma {:induction false} SidesPartition(events: seq<Event>)
    ensures |OnSideEvents(events, North)| + |OnSideEvents(events, South)| + |OnSideEvents(events, Equator)| == |events|
  {
    if events != [] {
      SidesPartition(events[..|events| - 1]);
    }
  }

  datatype Split = Split(nh: seq<Event>, sh: seq<Event>, nEquatorial: nat)

  function PartitionMessage(nNh: nat, nSh: nat, nEquatorial: nat): string
  {
    "Partition mismatch: " + NatToString(nNh) + " + " + NatToString(nSh) + " + " + NatToString(nEquatorial) +
    " != " + NatToString(EXPECTED_TOTAL)
  }

  /** `split_hemispheres`: its assertion compares the three counts with the
   *  expected catalog size, so it fails exactly on a catalog of another
   *  size. */
  function SplitHemispheres(events: seq<Event>): (r: Result<Split>)
    ensures r.Failure? <==> |events| != EXPECTED_TOTAL
    ensures r.Success? ==>
      r.value.nh == OnSideEvents(events, North) && r.value.sh == OnSideEvents(events, South) &&
      |r.value.nh| + |r.value.sh| + r.value.nEquatorial == |events|
  {
    var nh := OnSideEvents(events, North);
    var sh := OnSideEvents(events, South);
    var nEquatorial := |OnSideEvents(events, Equator)|;
    SidesPartition(events);
    if |nh| + |sh| + nEquatorial == EXPECTED_TOTAL then Success(Split(nh, sh, nEquatorial))
    else Failure(PartitionMessage(|nh|, |sh|, nEquatorial))
  }

  // ---------------------------------------------------------------------
  // Per-hemisphere statistics
  // ---------------------------------------------------------------------

  /** `compute_all_hemisphere_stats`: the northern row, then the southern. */
  method ComputeAllHemisphereStats(phasesNh: seq<real>, phasesSh: seq<real>, tr: Transcendentals)
    returns (result: seq<seq<BinStats>>)
    ensures result == [StatsAtAllK(phasesNh, tr), StatsAtAllK(phasesSh, tr)]
  {
    var hemispheres := [phasesNh, phasesSh];
    result := [];
    var h := 0;
    while h < |hemispheres|
      invariant 0 <= h <= |hemispheres|
      invariant |result| == h
      invariant forall q :: 0 <= q < h ==> result[q] == StatsAtAllK(hemispheres[q], tr)
    {
      var row := ComputeStatsAtAllK(hemispheres[h], tr);
      result := result + [row];
      h := h + 1;
    }
  }

  // ---------------------------------------------------------------------
  // Presence of a baseline interval
  // ---------------------------------------------------------------------

  /** More than half of the baseline lies inside the elevated interval. */
  predicate Covers(b: PhaseInterval, e: ElevatedInterval)
  {
    OverlapFraction(b.start, b.end, e.phaseStart, e.phaseEnd) > OVERLAP_THRESHOLD
  }

  /** `interval_in_elevated`: the scan that returns on the first covering
   *  interval. */
  function IntervalInElevated(b: PhaseInterval, elevated: seq<ElevatedInterval>): (found: bool)
    ensures found <==> exists i :: 0 <= i < |elevated| && Covers(b, elevated[i])
  {
    if elevated == [] then false
    else if Covers(b, elevated[0]) then true
    else
      var rest := IntervalInElevated(b, elevated[1..]);
      assert forall i :: 1 <= i < |elevated| ==> elevated[i] == elevated[1..][i - 1];
      rest
  }

  // ---------------------------------------------------------------------
  // Test 1: global symmetry
  // ---------------------------------------------------------------------

  datatype Presence = Presence(inNh: bool, inSh: bool, symmetric: bool)

  datatype Test1Result = Test1Result(intervals: seq<Presence>, classification: string)

  const FULLY_SYMMETRIC: string := "fully symmetric"
  const PARTIALLY_SYMMETRIC: string := "partially symmetric"
  const ASYMMETRIC: string := "asymmetric"

  function PresenceOf(b: PhaseInterval, nh: seq<ElevatedInterval>, sh: seq<ElevatedInterval>): Presence
  {
    var inNh := IntervalInElevated(b, nh);
    var inSh := IntervalInElevated(b, sh);
    Presence(inNh, inSh, inNh && inSh)
  }

  /** `all(v["symmetric"] ...)` and `any(...)` over the three intervals. */
  predicate AllSymmetric(ps: seq<Presence>)
  {
    forall i :: 0 <= i < |ps| ==> ps[i].symmetric
  }

  predicate AnySymmetric(ps: seq<Presence>)
  {
    exists i :: 0 <= i < |ps| && ps[i].symmetric
  }

  function SymmetryClass(ps: seq<Presence>): (c: string)
    ensures c == FULLY_SYMMETRIC <==> AllSymmetric(ps)
    ensures c == PARTIALLY_SYMMETRIC <==> AnySymmetric(ps) && !AllSymmetric(ps)
    ensures c == ASYMMETRIC <==> !AnySymmetric(ps) && !AllSymmetric(ps)
  {
    if AllSymmetric(ps) then FULLY_SYMMETRIC
    else if AnySymmetric(ps) then PARTIALLY_SYMMETRIC
    else ASYMMETRIC
  }

  /** On a non-empty list, "asymmetric" means no interval is symmetric. */
  lemma AsymmetricMeansNone(ps: seq<Presence>)
    requires |ps| > 0
    ensures SymmetryClass(ps) == ASYMMETRIC <==> forall i :: 0 <= i < |ps| ==> !ps[i].symmetric
  {
    if forall i :: 0 <= i < |ps| ==> !ps[i].symmetric {
      assert !ps[0].symmetric;
    }
  }

  /** `test_1_global_symmetry`. */
  function Test1(nh: seq<ElevatedInterval>, sh: seq<ElevatedInterval>): (r: Test1Result)
    ensures |r.intervals| == |A1B_INTERVALS|
    ensures forall i :: 0 <= i < |r.intervals| ==>
      r.intervals[i].inNh == IntervalInElevated(A1B_INTERVALS[i], nh) &&
      r.intervals[i].inSh == IntervalInElevated(A1B_INTERVALS[i], sh) &&
      (r.intervals[i].symmetric <==> r.intervals[i].inNh && r.intervals[i].inSh)
    ensures r.classification == SymmetryClass(r.intervals)
  {
    var results := seq(|A1B_INTERVALS|, i requires 0 <= i < |A1B_INTERVALS| => PresenceOf(A1B_INTERVALS[i], nh, sh));
    Test1Result(results, SymmetryClass(results))
  }

  // ---------------------------------------------------------------------
  // Test 2: interval 1 in both hemispheres
  // ---------------------------------------------------------------------

  function Fraction(b: PhaseInterval, e: ElevatedInterval): real
  {
    OverlapFraction(b.start, b.end, e.phaseStart, e.phaseEnd)
  }

  /** The best overlap so far, 0.0 before any interval qualified. */
  function BestOverlap(b: PhaseInterval, elevated: seq<ElevatedInterval>, best: Option<nat>): real
  {
    if best.Some? && best.value < |elevated| then Fraction(b, elevated[best.value]) else 0.0
  }

  /** The index `get_interval_mean_phase` settles on: an interval replaces
   *  the current best only when its fraction exceeds 0.5 and is strictly
   *  larger, so the first of equal fractions wins. */
  function BestIndex(b: PhaseInterval, elevated: seq<ElevatedInterval>): (best: Option<nat>)
    ensures best.Some? ==> best.value < |elevated| && Covers(b, elevated[best.value])
  {
    if elevated == [] then None
    else
      var front := elevated[..|elevated| - 1];
      var prev := BestIndex(b, front);
      var frac := Fraction(b, elevated[|elevated| - 1]);
      assert prev.Some? ==> front[prev.value] == elevated[prev.value];
      if frac > OVERLAP_THRESHOLD && frac > BestOverlap(b, front, prev) then Some(|elevated| - 1) else prev
  }

  /** The chosen interval has the largest fraction of all, every earlier
   *  interval has a strictly smaller one, and there is a choice exactly
   *  when some interval covers the baseline. */
  lemma {:induction false} BestIndexSpec(b: PhaseInterval, elevated: seq<ElevatedInterval>)
    ensures BestIndex(b, elevated).Some? <==> IntervalInElevated(b, elevated)
    ensures var best := BestIndex(b, elevated);
      best.Some? ==>
        (forall i :: 0 <= i < |elevated| ==> Fraction(b, elevated[i]) <= Fraction(b, elevated[best.value])) &&
        (forall i :: 0 <= i < best.value ==> Fraction(b, elevated[i]) < Fraction(b, elevated[best.value]))
  {
    if elevated != [] {
      var front := elevated[..|elevated| - 1];
      BestIndexSpec(b, front);
      assert forall i :: 0 <= i < |front| ==> front[i] == elevated[i];
      var prev := BestIndex(b, front);
      if prev.Some? {
        assert front[prev.value] == elevated[prev.value];
      }
    }
  }

  function MeanOf(elevated: seq<ElevatedInterval>, best: Option<nat>): Option<real>
  {
    if best.Some? && best.value < |elevated| then Some(elevated[best.value].meanPhase) else None
  }

  /** `get_interval_mean_phase`: the loop that tracks the best overlap. */
  method IntervalMeanPhase(b: PhaseInterval, elevated: seq<ElevatedInterval>) returns (bestMean: Option<real>)
    ensures bestMean == MeanOf(elevated, BestIndex(b, elevated))
  {
    var bestOverlap := 0.0;
    bestMean := None;
    var i := 0;
    while i < |elevated|
      invariant 0 <= i <= |elevated|
      invariant bestOverlap == BestOverlap(b, elevated[..i], BestIndex(b, elevated[..i]))
      invariant bestMean == MeanOf(elevated[..i], BestIndex(b, elevated[..i]))
    {
      var frac := OverlapFraction(b.start, b.end, elevated[i].phaseStart, elevated[i].phaseEnd);
      assert elevated[..i + 1][..i] == elevated[..i];
      ghost var prev := BestIndex(b, elevated[..i]);
      if prev.Some? {
        assert elevated[..i + 1][prev.value] == elevated[..i][prev.value];
      }
      if frac > OVERLAP_THRESHOLD && frac > bestOverlap {
        bestOverlap := frac;
        bestMean := Some(elevated[i].meanPhase);
      }
      i := i + 1;
    }
    assert elevated[..i] == elevated;
  }

  datatype Test2Result = Test2Result(interval1Nh: bool, interval1Sh: bool, phaseOffset: Option<real>)

  /** `test_2_interval_1_symmetry` as a value. */
  function Test2(nh: seq<ElevatedInterval>, sh: seq<ElevatedInterval>): (r: Test2Result)
    ensures r.interval1Nh == IntervalInElevated(A1B_INTERVALS[0], nh)
    ensures r.interval1Sh == IntervalInElevated(A1B_INTERVALS[0], sh)
  {
    var b := A1B_INTERVALS[0];
    var inNh := IntervalInElevated(b, nh);
    var inSh := IntervalInElevated(b, sh);
    var nhMean := if inNh then MeanOf(nh, BestIndex(b, nh)) else None;
    var shMean := if inSh then MeanOf(sh, BestIndex(b, sh)) else None;
    Test2Result(inNh, inSh, if nhMean.Some? && shMean.Some? then Some(nhMean.value - shMean.value) else None)
  }

  /** There is a phase offset exactly when interval 1 is present in both
   *  hemispheres, and it is the difference of the mean phases of the
   *  best-overlapping intervals. */
  lemma Test2Offset(nh: seq<ElevatedInterval>, sh: seq<ElevatedInterval>)
    ensures var r := Test2(nh, sh);
      (r.phaseOffset.Some? <==> r.interval1Nh && r.interval1Sh) &&
      (r.phaseOffset.Some? ==>
        r.phaseOffset.value ==
          nh[BestIndex(A1B_INTERVALS[0], nh).value].meanPhase - sh[BestIndex(A1B_INTERVALS[0], sh).value].meanPhase)
  {
    BestIndexSpec(A1B_INTERVALS[0], nh);
    BestIndexSpec(A1B_INTERVALS[0], sh);
  }

  /** `test_2_interval_1_symmetry`. */
  method RunTest2(nh: seq<ElevatedInterval>, sh: seq<ElevatedInterval>) returns (r: Test2Result)
    ensures r == Test2(nh, sh)
  {
    var b := A1B_INTERVALS[0];
    var inNh := IntervalInElevated(b, nh);
    var inSh := IntervalInElevated(b, sh);
    var nhMean: Option<real> := None;
    if inNh {
      nhMean := IntervalMeanPhase(b, nh);
    }
    var shMean: Option<real> := None;
    if inSh {
      shMean := IntervalMeanPhase(b, sh);
    }
    var phaseOffset: Option<real> := None;
    if nhMean.Some? && shMean.Some? {
      phaseOffset := Some(nhMean.value - shMean.value);
    }
    r := Test2Result(inNh, inSh, phaseOffset);
  }

  // ---------------------------------------------------------------------
  // Test 3: specificity of intervals 2 and 3
  // ---------------------------------------------------------------------

  const BOTH: string := "both"
  const NH_ONLY: string := "nh_only"
  const SH_ONLY: string := "sh_only"
  const NEITHER: string := "neither"

  /** The `classify` table of test 3. */
  function HemisphereClass(inNh: bool, inSh: bool): (s: string)
    ensures s in [BOTH, NH_ONLY, SH_ONLY, NEITHER]
  {
    if inNh && inSh then BOTH
    else if inNh then NH_ONLY
    else if inSh then SH_ONLY
    else NEITHER
  }

  /** The label determines both presence flags. */
  lemma HemisphereClassInjective(a: bool, b: bool, c: bool, d: bool)
    requires HemisphereClass(a, b) == HemisphereClass(c, d)
    ensures a == c && b == d
  {
  }

  /** `test_3_interval_23_specificity`: the labels of intervals 2 and 3. */
  function Test3(nh: seq<ElevatedInterval>, sh: seq<ElevatedInterval>): (r: seq<string>)
    ensures |r| == 2
    ensures forall i :: 0 <= i < 2 ==>
      r[i] == HemisphereClass(IntervalInElevated(A1B_INTERVALS[i + 1], nh), IntervalInElevated(A1B_INTERVALS[i + 1], sh))
  {
    seq(2, i requires 0 <= i < 2 =>
      HemisphereClass(IntervalInElevated(A1B_INTERVALS[i + 1], nh), IntervalInElevated(A1B_INTERVALS[i + 1], sh)))
  }

  // ---------------------------------------------------------------------
  // Test 4: half-cycle offset
  // ---------------------------------------------------------------------

  datatype OffsetDetail = OffsetDetail(
    nhIntervalCenter: real, expectedShCounterpart: real, shIntervalCenter: real, offset: real, withinTolerance: bool)

  function Abs(x: real): (r: real)
    ensures r >= 0.0 && (r == x || r == -x)
  {
    if x < 0.0 then -x else x
  }

  /** Python's `min(a, b)`. */
  function MinReal(a: real, b: real): (r: real)
    ensures r <= a && r <= b && (r == a || r == b)
  {
    if b < a then b else a
  }

  /** The comparison of one NH centre with one SH centre: the wrap-around
   *  distance to the point half a cycle away. */
  function Detail(nhE: ElevatedInterval, shE: ElevatedInterval): (d: OffsetDetail)
    ensures 0.0 <= d.expectedShCounterpart < 1.0
    ensures d.withinTolerance <==> d.offset <= BIN_WIDTH_K24
  {
    var counterpart := Frac(nhE.meanPhase + 0.5);
    var raw := Abs(shE.meanPhase - counterpart);
    var offset := MinReal(raw, 1.0 - raw);
    OffsetDetail(nhE.meanPhase, counterpart, shE.meanPhase, offset, offset <= BIN_WIDTH_K24)
  }

  /** For a SH centre in [0, 1) the wrap-around distance is in [0, 0.5]. */
  lemma DetailOffsetBounds(nhE: ElevatedInterval, shE: ElevatedInterval)
    requires 0.0 <= shE.meanPhase < 1.0
    ensures 0.0 <= Detail(nhE, shE).offset <= 0.5
  {
  }

  function DetailsRow(nhE: ElevatedInterval, sh: seq<ElevatedInterval>): (row: seq<OffsetDetail>)
    ensures |row| == |sh|
    ensures forall j :: 0 <= j < |sh| ==> row[j] == Detail(nhE, sh[j])
  {
    seq(|sh|, j requires 0 <= j < |sh| => Detail(nhE, sh[j]))
  }

  /** The details list in nested order: every SH interval for the first NH
   *  interval, then for the second, and so on. */
  function Details(nh: seq<ElevatedInterval>, sh: seq<ElevatedInterval>): (ds: seq<OffsetDetail>)
    ensures |ds| == |nh| * |sh|
  {
    if nh == [] then []
    else Details(nh[..|nh| - 1], sh) + DetailsRow(nh[|nh| - 1], sh)
  }

  /** Entry i * |sh| + j compares NH interval i with SH interval j. */
  lemma {:induction false} DetailsIndex(nh: seq<ElevatedInterval>, sh: seq<ElevatedInterval>, i: nat, j: nat)
    requires i < |nh| && j < |sh|
    ensures i * |sh| + j < |nh| * |sh|
    ensures Details(nh, sh)[i * |sh| + j] == Detail(nh[i], sh[j])
  {
    var front := nh[..|nh| - 1];
    assert |Details(front, sh)| == (|nh| - 1) * |sh|;
    if i < |nh| - 1 {
      DetailsIndex(front, sh, i, j);
      assert i * |sh| + j < (|nh| - 1) * |sh|;
    } else {
      assert i * |sh| == (|nh| - 1) * |sh|;
    }
  }

  /** Every offset of a details list over centres in [0, 1) is in [0, 0.5]. */
  lemma {:induction false} DetailsBounded(nh: seq<ElevatedInterval>, sh: seq<ElevatedInterval>)
    requires forall j :: 0 <= j < |sh| ==> 0.0 <= sh[j].meanPhase < 1.0
    ensures forall d :: 0 <= d < |Details(nh, sh)| ==> 0.0 <= Details(nh, sh)[d].offset <= 0.5
  {
    if nh != [] {
      var front := nh[..|nh| - 1];
      DetailsBounded(front, sh);
      var row := DetailsRow(nh[|nh| - 1], sh);
      forall j | 0 <= j < |row|
        ensures 0.0 <= row[j].offset <= 0.5
      {
        DetailOffsetBounds(nh[|nh| - 1], sh[j]);
      }
      var ds := Details(front, sh);
      assert Details(nh, sh) == ds + row;
      assert forall d :: 0 <= d < |ds + row| ==> (ds + row)[d] == if d < |ds| then ds[d] else row[d - |ds|];
    }
  }

  /** For intervals computed from actual phases every offset is in [0, 0.5]. */
  lemma HalfCycleOffsetsBounded(phasesNh: seq<real>, phasesSh: seq<real>, k: nat, tr: Transcendentals)
    requires k > 0
    ensures var ds := Details(StatsOf(phasesNh, k, tr).elevatedIntervals, StatsOf(phasesSh, k, tr).elevatedIntervals);
      forall d :: 0 <= d < |ds| ==> 0.0 <= ds[d].offset <= 0.5
  {
    StatsIntervalsBounded(phasesSh, k, tr);
    DetailsBounded(StatsOf(phasesNh, k, tr).elevatedIntervals, StatsOf(phasesSh, k, tr).elevatedIntervals);
  }

  /** Some SH centre is within tolerance of NH interval e's counterpart. */
  predicate RowWithin(e: ElevatedInterval, sh: seq<ElevatedInterval>)
  {
    exists l :: 0 <= l < |sh| && Detail(e, sh[l]).withinTolerance
  }

  /** Some pair is within tolerance. */
  predicate AnyWithin(nh: seq<ElevatedInterval>, sh: seq<ElevatedInterval>)
  {
    exists i, j :: 0 <= i < |nh| && 0 <= j < |sh| && Detail(nh[i], sh[j]).withinTolerance
  }

  lemma AnyWithinSnoc(nh: seq<ElevatedInterval>, e: ElevatedInterval, sh: seq<ElevatedInterval>)
    ensures AnyWithin(nh + [e], sh) <==> AnyWithin(nh, sh) || RowWithin(e, sh)
  {
    var nh' := nh + [e];
    if AnyWithin(nh', sh) {
      var i, j :| 0 <= i < |nh'| && 0 <= j < |sh| && Detail(nh'[i], sh[j]).withinTolerance;
      if i < |nh| {
        assert nh'[i] == nh[i];
      }
    }
    if AnyWithin(nh, sh) {
      var i, j :| 0 <= i < |nh| && 0 <= j < |sh| && Detail(nh[i], sh[j]).withinTolerance;
      assert nh'[i] == nh[i];
    }
    if RowWithin(e, sh) {
      var l :| 0 <= l < |sh| && Detail(e, sh[l]).withinTolerance;
      assert nh'[|nh|] == e;
    }
  }

  datatype HalfCycleResult = HalfCycleResult(anyHalfCycleOffsetFound: bool, details: seq<OffsetDetail>)

  /** The inner loop of `compute_half_cycle_offset` for one NH interval:
   *  one detail per SH interval; the flag is raised on any within
   *  tolerance. */
  method HalfCycleRow(nhE: ElevatedInterval, sh: seq<ElevatedInterval>, anyFoundBefore: bool)
    returns (row: seq<OffsetDetail>, anyFound: bool)
    ensures row == DetailsRow(nhE, sh)
    ensures anyFound <==> anyFoundBefore || RowWithin(nhE, sh)
  {
    var nhCenter := nhE.meanPhase;
    var counterpart := Frac(nhCenter + 0.5);
    row := [];
    anyFound := anyFoundBefore;
    var j := 0;
    while j < |sh|
      invariant 0 <= j <= |sh|
      invariant row == DetailsRow(nhE, sh)[..j]
      invariant anyFound <==> anyFoundBefore || exists l :: 0 <= l < j && Detail(nhE, sh[l]).withinTolerance
    {
      var shCenter := sh[j].meanPhase;
      var offset := Abs(shCenter - counterpart);
      offset := MinReal(offset, 1.0 - offset);
      var withinTolerance := offset <= BIN_WIDTH_K24;
      if withinTolerance {
        anyFound := true;
      }
      assert OffsetDetail(nhCenter, counterpart, shCenter, offset, withinTolerance) == Detail(nhE, sh[j]);
      row := row + [OffsetDetail(nhCenter, counterpart, shCenter, offset, withinTolerance)];
      j := j + 1;
    }
  }

  /** `compute_half_cycle_offset`: a detail for every pair in nested order,
   *  and the flag that some pair is within tolerance. */
  method ComputeHalfCycleOffset(nh: seq<ElevatedInterval>, sh: seq<ElevatedInterval>) returns (r: HalfCycleResult)
    ensures r.details == Details(nh, sh)
    ensures r.anyHalfCycleOffsetFound <==> AnyWithin(nh, sh)
  {
    var details: seq<OffsetDetail> := [];
    var anyFound := false;
    var i := 0;
    while i < |nh|
      invariant 0 <= i <= |nh|
      invariant details == Details(nh[..i], sh)
      invariant anyFound <==> AnyWithin(nh[..i], sh)
    {
      var row;
      row, anyFound := HalfCycleRow(nh[i], sh, anyFound);
      assert nh[..i + 1] == nh[..i] + [nh[i]];
      assert nh[..i + 1][..i] == nh[..i];
      AnyWithinSnoc(nh[..i], nh[i], sh);
      details := details + row;
      i := i + 1;
    }
    assert nh[..i] == nh;
    r := HalfCycleResult(anyFound, details);
  }

  // ---------------------------------------------------------------------
  // All four tests and the hypotheses
  // ---------------------------------------------------------------------

  datatype SymmetryTests = SymmetryTests(test1: Test1Result, test2: Test2Result, test3: seq<string>, test4: HalfCycleResult)

  /** `run_symmetry_tests` on the k = 24 intervals of both hemispheres. */
  method RunSymmetryTests(hemiStats: seq<seq<BinStats>>) returns (t: SymmetryTests)
    requires |hemiStats| == 2 && |hemiStats[0]| == |BIN_COUNTS| && |hemiStats[1]| == |BIN_COUNTS|
    ensures var nh := hemiStats[0][K24_INDEX].elevatedIntervals;
      var sh := hemiStats[1][K24_INDEX].elevatedIntervals;
      t.test1 == Test1(nh, sh) && t.test2 == Test2(nh, sh) && t.test3 == Test3(nh, sh) &&
      t.test4.details == Details(nh, sh) && (t.test4.anyHalfCycleOffsetFound <==> AnyWithin(nh, sh))
  {
    var nh := hemiStats[0][K24_INDEX].elevatedIntervals;
    var sh := hemiStats[1][K24_INDEX].elevatedIntervals;
    var t1 := Test1(nh, sh);
    var t2 := RunTest2(nh, sh);
    var t3 := Test3(nh, sh);
    var t4 := ComputeHalfCycleOffset(nh, sh);
    t := SymmetryTests(t1, t2, t3, t4);
  }

  const SUPPORTED: string := "supported"
  const PARTIALLY_SUPPORTED: string := "partially supported"
  const NOT_SUPPORTED: string := "not supported"

  /** The support values and their scores 3, 2, 1. */
  predicate IsSupport(s: string)
  {
    s == SUPPORTED || s == PARTIALLY_SUPPORTED || s == NOT_SUPPORTED
  }

  function Score(s: string): (n: nat)
    requires IsSupport(s)
    ensures 1 <= n <= 3
  {
    if s == SUPPORTED then 3 else if s == PARTIALLY_SUPPORTED then 2 else 1
  }

  /** Distinct support values score differently. */
  lemma ScoreInjective(a: string, b: string)
    requires IsSupport(a) && IsSupport(b) && Score(a) == Score(b)
    ensures a == b
  {
  }

  /** A two-condition rule: supported when both hold, partially supported
   *  when the weaker condition holds, and not supported otherwise. */
  function Rule(strong: bool, weak: bool): (s: string)
    ensures IsSupport(s)
    ensures s == SUPPORTED <==> strong
    ensures s == PARTIALLY_SUPPORTED <==> !strong && weak
  {
    if strong then SUPPORTED else if weak then PARTIALLY_SUPPORTED else NOT_SUPPORTED
  }

  const HYPOTHESES: seq<string> := ["geometric", "hydrological", "mixed"]
  const AMBIGUOUS: string := "ambiguous"

  datatype PredictionSupport = PredictionSupport(geometric: string, hydrological: string, mixed: string, primaryConclusion: string)

  /** The names whose score equals the top score, in hypothesis order. */
  function TopHypotheses(scores: seq<nat>, top: nat): (r: seq<string>)
    requires |scores| <= |HYPOTHESES|
  {
    if scores == [] then []
    else
      TopHypotheses(scores[..|scores| - 1], top) +
        (if scores[|scores| - 1] == top then [HYPOTHESES[|scores| - 1]] else [])
  }

  function Max3(a: nat, b: nat, c: nat): (m: nat)
    ensures m >= a && m >= b && m >= c && (m == a || m == b || m == c)
  {
    if a >= b && a >= c then a else if b >= c then b else c
  }

  /** The primary conclusion: the only top-scoring hypothesis, or
   *  "ambiguous". */
  function Primary(g: nat, h: nat, m: nat): string
  {
    var tops := TopHypotheses([g, h, m], Max3(g, h, m));
    if |tops| == 1 then tops[0] else AMBIGUOUS
  }

  /** A hypothesis is the primary conclusion exactly when it scores
   *  strictly above both others; otherwise the conclusion is ambiguous. */
  lemma PrimarySpec(g: nat, h: nat, m: nat)
    ensures Primary(g, h, m) == HYPOTHESES[0] <==> g > h && g > m
    ensures Primary(g, h, m) == HYPOTHESES[1] <==> h > g && h > m
    ensures Primary(g, h, m) == HYPOTHESES[2] <==> m > g && m > h
    ensures Primary(g, h, m) == AMBIGUOUS <==> !(g > h && g > m) && !(h > g && h > m) && !(m > g && m > h)
  {
    var top := Max3(g, h, m);
    var s := [g, h, m];
    assert s[..2] == [g, h] && s[..2][..1] == [g] && s[..2][..1][..0] == [];
    assert TopHypotheses([g], top) == (if g == top then [HYPOTHESES[0]] else []);
    assert TopHypotheses([g, h], top) == TopHypotheses([g], top) + (if h == top then [HYPOTHESES[1]] else []);
    assert TopHypotheses(s, top) == TopHypotheses([g, h], top) + (if m == top then [HYPOTHESES[2]] else []);
  }

  /** `evaluate_predictions`. */
  function EvaluatePredictions(t: SymmetryTests): (p: PredictionSupport)
    requires |t.test1.intervals| == |A1B_INTERVALS| && |t.test3| == 2
    ensures IsSupport(p.geometric) && IsSupport(p.hydrological) && IsSupport(p.mixed)
    ensures var g, h, m := Score(p.geometric), Score(p.hydrological), Score(p.mixed);
      (p.primaryConclusion == HYPOTHESES[0] <==> g > h && g > m) &&
      (p.primaryConclusion == HYPOTHESES[1] <==> h > g && h > m) &&
      (p.primaryConclusion == HYPOTHESES[2] <==> m > g && m > h) &&
      (p.primaryConclusion == AMBIGUOUS <==> !(g > h && g > m) && !(h > g && h > m) && !(m > g && m > h))
  {
    var sym := t.test1.intervals;
    var allSymmetric := sym[0].symmetric && sym[1].symmetric && sym[2].symmetric;
    var halfCycleFound := t.test4.anyHalfCycleOffsetFound;
    var geometric := Rule(allSymmetric && !halfCycleFound, allSymmetric || (sym[0].symmetric && !halfCycleFound));
    var i2Specific := t.test3[0] == NH_ONLY || t.test3[0] == SH_ONLY;
    var i3Specific := t.test3[1] == NH_ONLY || t.test3[1] == SH_ONLY;
    var hydrological := Rule(halfCycleFound && (i2Specific || i3Specific), halfCycleFound || (i2Specific && i3Specific));
    var i1Symmetric := sym[0].symmetric || (t.test2.interval1Nh && t.test2.interval1Sh);
    var mixed := Rule(i1Symmetric && (i2Specific || i3Specific), i1Symmetric || i2Specific || i3Specific);
    PrimarySpec(Score(geometric), Score(hydrological), Score(mixed));
    PredictionSupport(geometric, hydrological, mixed, Primary(Score(geometric), Score(hydrological), Score(mixed)))
  }

  /** The support tables spelled out: geometric is supported exactly when
   *  all three intervals are symmetric and no half-cycle offset was found;
   *  hydrological exactly when an offset was found and interval 2 or 3 is
   *  hemisphere-specific; mixed exactly when interval 1 is in both
   *  hemispheres and interval 2 or 3 is hemisphere-specific. Each is
   *  partially supported exactly when its weaker condition holds and its
   *  strong one does not. */
  lemma EvaluatePredictionsSupported(t: SymmetryTests)
    requires |t.test1.intervals| == |A1B_INTERVALS| && |t.test3| == 2
    ensures var p := EvaluatePredictions(t);
      var sym := t.test1.intervals;
      var i2Specific := t.test3[0] == NH_ONLY || t.test3[0] == SH_ONLY;
      var i3Specific := t.test3[1] == NH_ONLY || t.test3[1] == SH_ONLY;
      (p.geometric == SUPPORTED <==>
        sym[0].symmetric && sym[1].symmetric && sym[2].symmetric && !t.test4.anyHalfCycleOffsetFound) &&
      (p.hydrological == SUPPORTED <==> t.test4.anyHalfCycleOffsetFound && (i2Specific || i3Specific)) &&
      (p.mixed == SUPPORTED <==>
        (sym[0].symmetric || (t.test2.interval1Nh && t.test2.interval1Sh)) && (i2Specific || i3Specific))
    ensures var p := EvaluatePredictions(t);
      var sym := t.test1.intervals;
      var all := sym[0].symmetric && sym[1].symmetric && sym[2].symmetric;
      var half := t.test4.anyHalfCycleOffsetFound;
      var i1 := sym[0].symmetric || (t.test2.interval1Nh && t.test2.interval1Sh);
      var i2Specific := t.test3[0] == NH_ONLY || t.test3[0] == SH_ONLY;
      var i3Specific := t.test3[1] == NH_ONLY || t.test3[1] == SH_ONLY;
      (p.geometric == PARTIALLY_SUPPORTED <==> !(all && !half) && (all || (sym[0].symmetric && !half))) &&
      (p.hydrological == PARTIALLY_SUPPORTED <==>
        !(half && (i2Specific || i3Specific)) && (half || (i2Specific && i3Specific))) &&
      (p.mixed == PARTIALLY_SUPPORTED <==>
        !(i1 && (i2Specific || i3Specific)) && (i1 || i2Specific || i3Specific))
  {
  }

  /** On the results of the symmetry tests, the second clause of the mixed
   *  rule's interval-1 condition adds nothing: test 2 recomputes the same
   *  presence flags as test 1. */
  lemma Interval1ConditionRedundant(nh: seq<ElevatedInterval>, sh: seq<ElevatedInterval>)
    ensures var t1 := Test1(nh, sh);
      var t2 := Test2(nh, sh);
      t1.intervals[0].symmetric == (t2.interval1Nh && t2.interval1Sh)
  {
  }
}
