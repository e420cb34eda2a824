/** Elevated-bin detection and interval logic shared by the declustering
 *  sub-analyses B and C, the hemisphere analysis and the magnitude-band
 *  analysis: the E + sqrt(E) threshold, maximal runs of adjacent elevated
 *  bins (in the list-merge form and in the while-loop form), their phase
 *  intervals, overlap fractions and the first-match classification against
 *  the three A1b baseline intervals. */
module ElevatedIntervals {
  import opened Numerics
  import opened Wrappers
  import opened Text

  // ---------------------------------------------------------------------
  // The threshold
  // ---------------------------------------------------------------------

  /** The threshold E + sqrt(E) for an expected count E per bin. */
  function Threshold(expected: real, tr: Transcendentals): real
  {
    expected + tr.sqrt(expected)
  }

  /** With a true square root, a count exceeds the threshold exactly when
   *  it exceeds E by more than sqrt(E), i.e. (count - E)^2 > E. */
  lemma ThresholdSquared(count: real, expected: real, root: real)
    requires root >= 0.0 && root * root == expected
    ensures count > expected + root <==>
      count - expected > 0.0 && (count - expected) * (count - expected) > expected
  {
    var d := count - expected;
    if count > expected + root {
      SquareMonotone(d, root);
    }
    if d > 0.0 && d * d > expected {
      SquareMonotoneConverse(d, root);
    }
  }

  /** `bin_counts > threshold`, bin by bin. */
  function ElevatedMask(counts: seq<nat>, threshold: real): (m: seq<bool>)
    ensures |m| == |counts|
    ensures forall i :: 0 <= i < |m| ==> (m[i] <==> counts[i] as real > threshold)
  {
    seq(|counts|, i requires 0 <= i < |counts| => counts[i] as real > threshold)
  }

  predicate StrictlyAscending(xs: seq<nat>)
  {
    forall a, b :: 0 <= a < b < |xs| ==> xs[a] < xs[b]
  }

  /** The positions from i on where the mask holds, in ascending order. */
  function TrueIndicesFrom(mask: seq<bool>, i: nat): seq<nat>
    requires i <= |mask|
    decreases |mask| - i
  {
    if i == |mask| then []
    else if mask[i] then [i] + TrueIndicesFrom(mask, i + 1)
    else TrueIndicesFrom(mask, i + 1)
  }

  /** Exactly the set positions from i on, strictly ascending. */
  lemma {:induction false} TrueIndicesFromSpec(mask: seq<bool>, i: nat)
    requires i <= |mask|
    ensures var xs := TrueIndicesFrom(mask, i);
      StrictlyAscending(xs) &&
      (forall j :: 0 <= j < |xs| ==> i <= xs[j] < |mask| && mask[xs[j]]) &&
      (forall x :: i <= x < |mask| && mask[x] ==> x in xs)
    decreases |mask| - i
  {
    if i < |mask| {
      TrueIndicesFromSpec(mask, i + 1);
      var ys := TrueIndicesFrom(mask, i + 1);
      if mask[i] {
        var xs := [i] + ys;
        assert forall j :: 1 <= j < |xs| ==> xs[j] == ys[j - 1];
      }
    }
  }

  /** `identify_elevated_bins`: the indices whose count exceeds the
   *  threshold, ascending. */
  function ElevatedBins(counts: seq<nat>, threshold: real): seq<nat>
  {
    TrueIndicesFrom(ElevatedMask(counts, threshold), 0)
  }

  /** The elevated bins are exactly the bins above the threshold, listed
   *  once each in ascending order. */
  lemma ElevatedBinsSpec(counts: seq<nat>, threshold: real)
    ensures var xs := ElevatedBins(counts, threshold);
      StrictlyAscending(xs) &&
      (forall j :: 0 <= j < |xs| ==> xs[j] < |counts| && counts[xs[j]] as real > threshold) &&
      (forall x :: 0 <= x < |counts| && counts[x] as real > threshold ==> x in xs)
  {
    TrueIndicesFromSpec(ElevatedMask(counts, threshold), 0);
  }

  // ---------------------------------------------------------------------
  // Maximal runs, list-merge form
  // ---------------------------------------------------------------------

  /** An inclusive range of bin indices. */
  datatype BinRange = BinRange(first: nat, last: nat)

  /** The open range first..last followed by the runs of the indices after
   *  it: joined with the next run when that one starts at last + 1. */
  function Extend(first: nat, last: nat, rest: seq<BinRange>): (rs: seq<BinRange>)
    ensures |rs| > 0 && rs[0].first == first
  {
    if rest != [] && rest[0].first == last + 1 then [BinRange(first, rest[0].last)] + rest[1..]
    else [BinRange(first, last)] + rest
  }

  /** The maximal runs of consecutive integers in a list of indices. */
  function Runs(xs: seq<nat>): (rs: seq<BinRange>)
    ensures (xs == []) == (rs == [])
    ensures xs != [] ==> rs[0].first == xs[0]
  {
    if xs == [] then [] else Extend(xs[0], xs[0], Runs(xs[1..]))
  }

  lemma ExtendJoin(first: nat, last: nat, rest: seq<BinRange>)
    ensures Extend(first, last, Extend(last + 1, last + 1, rest)) == Extend(first, last + 1, rest)
  {
  }

  lemma ExtendBreak(first: nat, last: nat, x: nat, rest: seq<BinRange>)
    requires x != last + 1
    ensures Extend(first, last, Extend(x, x, rest)) == [BinRange(first, last)] + Extend(x, x, rest)
  {
  }

  /** `merge_adjacent_bins`: one left-to-right pass that keeps the open
   *  range in start/prev and closes it at every gap. */
  method MergeAdjacentBins(elevated: seq<nat>) returns (merged: seq<BinRange>)
    ensures merged == Runs(elevated)
  {
    if |elevated| == 0 {
      return [];
    }
    merged := [];
    var start, prev := elevated[0], elevated[0];
    var i := 1;
    MergeInit(elevated);
    while i < |elevated|
      invariant MergeState(elevated, i, merged, start, prev)
    {
      var idx := elevated[i];
      if idx == prev + 1 {
        MergeJoin(elevated, i, merged, start, prev);
        prev := idx;
      } else {
        MergeBreak(elevated, i, merged, start, prev);
        merged := merged + [BinRange(start, prev)];
        start, prev := idx, idx;
      }
      i := i + 1;
    }
    MergeFinish(elevated, merged, start, prev);
    merged := merged + [BinRange(start, prev)];
  }

  /** The state of the merge pass before position i: the closed runs so
   *  far, then the open range start..prev, extended by the runs of the
   *  remaining indices, give the runs of the whole list. */
  ghost predicate MergeState(elevated: seq<nat>, i: nat, closed: seq<BinRange>, start: nat, prev: nat)
  {
    1 <= i <= |elevated| && Runs(elevated) == closed + Extend(start, prev, Runs(elevated[i..]))
  }

  lemma MergeInit(elevated: seq<nat>)
    requires |elevated| > 0
    ensures MergeState(elevated, 1, [], elevated[0], elevated[0])
  {
  }

  lemma MergeJoin(elevated: seq<nat>, i: nat, closed: seq<BinRange>, start: nat, prev: nat)
    requires MergeState(elevated, i, closed, start, prev)
    requires i < |elevated| && elevated[i] == prev + 1
    ensures MergeState(elevated, i + 1, closed, start, elevated[i])
  {
    RunsUnfold(elevated, i);
    ExtendJoin(start, prev, Runs(elevated[i + 1..]));
  }

  lemma MergeBreak(elevated: seq<nat>, i: nat, closed: seq<BinRange>, start: nat, prev: nat)
    requires MergeState(elevated, i, closed, start, prev)
    requires i < |elevated| && elevated[i] != prev + 1
    ensures MergeState(elevated, i + 1, closed + [BinRange(start, prev)], elevated[i], elevated[i])
  {
    var x, rest := elevated[i], Runs(elevated[i + 1..]);
    RunsUnfold(elevated, i);
    ExtendBreak(start, prev, x, rest);
    var open := Extend(x, x, rest);
    assert closed + ([BinRange(start, prev)] + open) == (closed + [BinRange(start, prev)]) + open;
  }

  lemma RunsUnfold(elevated: seq<nat>, i: nat)
    requires i < |elevated|
    ensures Runs(elevated[i..]) == Extend(elevated[i], elevated[i], Runs(elevated[i + 1..]))
  {
    assert elevated[i..][1..] == elevated[i + 1..];
  }

  lemma MergeFinish(elevated: seq<nat>, closed: seq<BinRange>, start: nat, prev: nat)
    requires MergeState(elevated, |elevated|, closed, start, prev)
    ensures Runs(elevated) == closed + [BinRange(start, prev)]
  {
  }

  /** The bins first..last. */
  function Range(first: nat, last: nat): (s: seq<nat>)
    requires first <= last
    ensures |s| == last - first + 1
    ensures forall j :: 0 <= j < |s| ==> s[j] == first + j
    decreases last - first
  {
    if first == last then [first] else [first] + Range(first + 1, last)
  }

  predicate WellFormed(rs: seq<BinRange>)
  {
    forall j :: 0 <= j < |rs| ==> rs[j].first <= rs[j].last
  }

  /** Non-empty ranges in ascending order with at least one bin between
   *  consecutive ranges. */
  predicate ValidRuns(rs: seq<BinRange>)
  {
    WellFormed(rs) && forall j :: 0 <= j < |rs| - 1 ==> rs[j].last + 1 < rs[j + 1].first
  }

  /** The indices covered by a list of ranges, in order. */
  function Expand(rs: seq<BinRange>): (xs: seq<nat>)
    requires WellFormed(rs)
    ensures rs != [] ==> xs != [] && xs[0] == rs[0].first
  {
    if rs == [] then [] else Range(rs[0].first, rs[0].last) + Expand(rs[1..])
  }

  /** On strictly ascending input the runs are valid and cover exactly the
   *  input, in order; empty input gives no runs. */
  lemma {:induction false} RunsValid(xs: seq<nat>)
    requires StrictlyAscending(xs)
    ensures ValidRuns(Runs(xs))
    ensures Expand(Runs(xs)) == xs
  {
    if xs != [] {
      var ys := xs[1..];
      RunsValid(ys);
      var rest := Runs(ys);
      assert xs == [xs[0]] + ys;
      if rest != [] && rest[0].first == xs[0] + 1 {
        RunsValidJoin(xs[0], ys, rest);
      } else {
        RunsValidBreak(xs[0], ys, rest);
      }
    }
  }

  lemma RunsValidJoin(x: nat, ys: seq<nat>, rest: seq<BinRange>)
    requires ValidRuns(rest) && Expand(rest) == ys
    requires rest != [] && rest[0].first == x + 1
    ensures ValidRuns(Extend(x, x, rest))
    ensures Expand(Extend(x, x, rest)) == [x] + ys
  {
    JoinValid(x, rest);
    JoinExpand(x, rest);
  }

  lemma JoinValid(x: nat, rest: seq<BinRange>)
    requires ValidRuns(rest) && rest != [] && rest[0].first == x + 1
    ensures ValidRuns(Extend(x, x, rest))
  {
    var rs := Extend(x, x, rest);
    assert rs == [BinRange(x, rest[0].last)] + rest[1..];
    forall j | 1 <= j < |rs|
      ensures rs[j] == rest[j]
    {
    }
  }

  lemma JoinExpand(x: nat, rest: seq<BinRange>)
    requires WellFormed(rest) && rest != [] && rest[0].first == x + 1
    ensures WellFormed(Extend(x, x, rest))
    ensures Expand(Extend(x, x, rest)) == [x] + Expand(rest)
  {
    var last, tail := rest[0].last, rest[1..];
    ExtendJoinsHead(x, rest);
    assert rest == [BinRange(x + 1, last)] + tail;
    ExpandPrepend(x, last, tail);
  }

  lemma ExtendJoinsHead(x: nat, rest: seq<BinRange>)
    requires rest != [] && rest[0].first == x + 1
    ensures Extend(x, x, rest) == [BinRange(x, rest[0].last)] + rest[1..]
  {
  }

  /** Prepending bin x to a run that starts at x + 1. */
  lemma ExpandPrepend(x: nat, last: nat, tail: seq<BinRange>)
    requires x + 1 <= last && WellFormed(tail)
    ensures WellFormed([BinRange(x + 1, last)] + tail)
    ensures WellFormed([BinRange(x, last)] + tail)
    ensures Expand([BinRange(x, last)] + tail) == [x] + Expand([BinRange(x + 1, last)] + tail)
  {
    ExpandCons(BinRange(x + 1, last), tail);
    ExpandCons(BinRange(x, last), tail);
    RangeCons(x, last);
    var inner := Range(x + 1, last);
    assert ([x] + inner) + Expand(tail) == [x] + (inner + Expand(tail));
  }

  lemma ExpandCons(r: BinRange, tail: seq<BinRange>)
    requires r.first <= r.last && WellFormed(tail)
    ensures WellFormed([r] + tail)
    ensures Expand([r] + tail) == Range(r.first, r.last) + Expand(tail)
  {
    assert ([r] + tail)[1..] == tail;
  }

  lemma RangeCons(first: nat, last: nat)
    requires first < last
    ensures Range(first, last) == [first] + Range(first + 1, last)
  {
  }

  lemma RunsValidBreak(x: nat, ys: seq<nat>, rest: seq<BinRange>)
    requires ValidRuns(rest) && Expand(rest) == ys
    requires rest != [] ==> rest[0].first != x + 1 && rest[0].first > x
    ensures ValidRuns(Extend(x, x, rest))
    ensures Expand(Extend(x, x, rest)) == [x] + ys
  {
    var rs := Extend(x, x, rest);
    assert rs == [BinRange(x, x)] + rest;
    assert rs[1..] == rest;
  }

  /** A block a..b followed by indices that start at least two bins later
   *  produces the run a..b followed by the runs of those indices. */
  lemma {:induction false} RunsOfBlock(a: nat, b: nat, tail: seq<nat>)
    requires a <= b
    requires tail != [] ==> tail[0] >= b + 2
    ensures Runs(Range(a, b) + tail) == [BinRange(a, b)] + Runs(tail)
    decreases b - a
  {
    var s := Range(a, b) + tail;
    assert s[0] == a;
    if a == b {
      assert s[1..] == tail;
    } else {
      assert s[1..] == Range(a + 1, b) + tail;
      RunsOfBlock(a + 1, b, tail);
    }
  }

  /** Merging the expansion of valid runs gives the same runs back, so runs
   *  and ascending index lists determine each other. */
  lemma {:induction false} RunsOfExpand(rs: seq<BinRange>)
    requires ValidRuns(rs)
    ensures Runs(Expand(rs)) == rs
  {
    if rs != [] {
      var rest := rs[1..];
      assert ValidRuns(rest) by {
        forall j | 0 <= j < |rest| - 1 ensures rest[j].last + 1 < rest[j + 1].first {
          assert rest[j] == rs[j + 1] && rest[j + 1] == rs[j + 2];
        }
      }
      RunsOfExpand(rest);
      assert Expand(rs) == Range(rs[0].first, rs[0].last) + Expand(rest);
      RunsOfBlock(rs[0].first, rs[0].last, Expand(rest));
      assert rs == [BinRange(rs[0].first, rs[0].last)] + rest;
    }
  }

  /** Merging is idempotent: expanding the runs and merging again changes
   *  nothing. */
  lemma MergeIdempotent(xs: seq<nat>)
    requires StrictlyAscending(xs)
    ensures ValidRuns(Runs(xs)) && Runs(Expand(Runs(xs))) == Runs(xs)
  {
    RunsValid(xs);
    RunsOfExpand(Runs(xs));
  }

  lemma {:induction false} ExpandContains(rs: seq<BinRange>, j: nat, b: nat)
    requires WellFormed(rs) && j < |rs| && rs[j].first <= b <= rs[j].last
    ensures b in Expand(rs)
  {
    assert Expand(rs) == Range(rs[0].first, rs[0].last) + Expand(rs[1..]);
    if j == 0 {
      assert Range(rs[0].first, rs[0].last)[b - rs[0].first] == b;
    } else {
      assert rs[1..][j - 1] == rs[j];
      ExpandContains(rs[1..], j - 1, b);
    }
  }

  /** No wrap-around: every run is a non-empty block first..last of bins
   *  that are all in the input, so bins k - 1 and 0 share a run only when
   *  every bin in between is elevated too. */
  lemma RunsAreBlocks(xs: seq<nat>, j: nat, b: nat)
    requires StrictlyAscending(xs)
    requires j < |Runs(xs)|
    ensures Runs(xs)[j].first <= Runs(xs)[j].last
    ensures Runs(xs)[j].first <= b <= Runs(xs)[j].last ==> b in xs
  {
    RunsValid(xs);
    if Runs(xs)[j].first <= b <= Runs(xs)[j].last {
      ExpandContains(Runs(xs), j, b);
    }
  }

  // ---------------------------------------------------------------------
  // Phase intervals
  // ---------------------------------------------------------------------

  datatype PhaseInterval = PhaseInterval(start: real, end: real)

  /** `bins_to_phase_interval`: (first / k, (last + 1) / k). */
  function BinsToPhaseInterval(first: nat, last: nat, k: nat): PhaseInterval
    requires k > 0
  {
    PhaseInterval(first as real / k as real, (last + 1) as real / k as real)
  }

  /** A range of bins below k is a non-empty sub-interval of [0, 1]. */
  lemma BinsToPhaseIntervalBounds(first: nat, last: nat, k: nat)
    requires k > 0 && first <= last < k
    ensures var p := BinsToPhaseInterval(first, last, k); 0.0 <= p.start < p.end <= 1.0
  {
    QuotientNonNegative(first as real, k as real);
    QuotientMonotone(first as real, (last + 1) as real, k as real);
    QuotientAtMostOne((last + 1) as real, k as real);
  }

  function PhaseIntervals(rs: seq<BinRange>, k: nat): seq<PhaseInterval>
    requires k > 0
  {
    seq(|rs|, j requires 0 <= j < |rs| => BinsToPhaseInterval(rs[j].first, rs[j].last, k))
  }

  lemma PhaseIntervalsSnoc(rs: seq<BinRange>, r: BinRange, k: nat)
    requires k > 0
    ensures PhaseIntervals(rs + [r], k) == PhaseIntervals(rs, k) + [BinsToPhaseInterval(r.first, r.last, k)]
  {
    assert forall j :: 0 <= j < |rs| ==> (rs + [r])[j] == rs[j];
  }

  /** `get_elevated_intervals` of sub-analysis C: the same pass as
   *  `merge_adjacent_bins` over the elevated bins among the first k, each
   *  closed range converted to its phase interval at once. */
  method GetElevatedIntervals(obs: seq<nat>, k: nat, expectedPerBin: real, tr: Transcendentals)
    returns (intervals: seq<PhaseInterval>)
    requires k <= |obs|
    ensures k == 0 ==> intervals == []
    ensures k > 0 ==> intervals == PhaseIntervals(Runs(ElevatedBins(obs[..k], Threshold(expectedPerBin, tr))), k)
  {
    var threshold := Threshold(expectedPerBin, tr);
    var elevated := ElevatedBins(obs[..k], threshold);
    if |elevated| == 0 {
      return [];
    }
    assert k > 0;
    intervals := [];
    ghost var done: seq<BinRange> := [];
    var start, prev := elevated[0], elevated[0];
    var i := 1;
    MergeInit(elevated);
    while i < |elevated|
      invariant MergeState(elevated, i, done, start, prev)
      invariant intervals == PhaseIntervals(done, k)
    {
      var idx := elevated[i];
      if idx == prev + 1 {
        MergeJoin(elevated, i, done, start, prev);
        prev := idx;
      } else {
        MergeBreak(elevated, i, done, start, prev);
        PhaseIntervalsSnoc(done, BinRange(start, prev), k);
        intervals := intervals + [BinsToPhaseInterval(start, prev, k)];
        done := done + [BinRange(start, prev)];
        start, prev := idx, idx;
      }
      i := i + 1;
    }
    MergeFinish(elevated, done, start, prev);
    PhaseIntervalsSnoc(done, BinRange(start, prev), k);
    intervals := intervals + [BinsToPhaseInterval(start, prev, k)];
    done := done + [BinRange(start, prev)];
  }

  // ---------------------------------------------------------------------
  // Maximal runs, while-loop form
  // ---------------------------------------------------------------------

  /** The end (exclusive) of the block of set mask entries starting at i. */
  function RunEnd(mask: seq<bool>, i: nat): (j: nat)
    requires i <= |mask|
    ensures i <= j <= |mask|
    ensures forall l :: i <= l < j ==> mask[l]
    ensures j < |mask| ==> !mask[j]
    decreases |mask| - i
  {
    if i == |mask| || !mask[i] then i else RunEnd(mask, i + 1)
  }

  lemma {:induction false} RunEndIs(mask: seq<bool>, i: nat, j: nat)
    requires i <= j <= |mask|
    requires forall l :: i <= l < j ==> mask[l]
    requires j < |mask| ==> !mask[j]
    ensures RunEnd(mask, i) == j
    decreases j - i
  {
    if i < j {
      RunEndIs(mask, i + 1, j);
    }
  }

  /** The runs that the scan `while i < k` of `find_elevated_intervals`
   *  finds from position i on. */
  function MaskRunsFrom(mask: seq<bool>, i: nat): seq<BinRange>
    requires i <= |mask|
    decreases |mask| - i
  {
    if i == |mask| then []
    else if mask[i] then
      var j := RunEnd(mask, i);
      [BinRange(i, j - 1)] + MaskRunsFrom(mask, j)
    else MaskRunsFrom(mask, i + 1)
  }

  lemma {:induction false} TrueIndicesHead(mask: seq<bool>, i: nat)
    requires i <= |mask|
    ensures var xs := TrueIndicesFrom(mask, i); xs != [] ==> i <= xs[0] < |mask| && mask[xs[0]]
    decreases |mask| - i
  {
    if i < |mask| && !mask[i] {
      TrueIndicesHead(mask, i + 1);
    }
  }

  /** A block m..j-1 of set entries, followed by an unset entry or the end,
   *  starts the runs with m..j-1. */
  lemma {:induction false} TrueBlockRuns(mask: seq<bool>, m: nat, j: nat)
    requires m < j <= |mask|
    requires forall l :: m <= l < j ==> mask[l]
    requires j < |mask| ==> !mask[j]
    ensures Runs(TrueIndicesFrom(mask, m)) == [BinRange(m, j - 1)] + Runs(TrueIndicesFrom(mask, j))
    decreases j - m
  {
    var xs := TrueIndicesFrom(mask, m);
    var ys := TrueIndicesFrom(mask, m + 1);
    var rest := Runs(TrueIndicesFrom(mask, j));
    assert xs == [m] + ys;
    assert xs[1..] == ys;
    assert Runs(xs) == Extend(m, m, Runs(ys));
    if m + 1 == j {
      TrueIndicesHead(mask, j);
      if ys != [] {
        assert mask[ys[0]];
        assert rest[0].first != m + 1;
      }
    } else {
      TrueBlockRuns(mask, m + 1, j);
      var joined := [BinRange(m + 1, j - 1)] + rest;
      assert joined[1..] == rest;
      assert Extend(m, m, joined) == [BinRange(m, j - 1)] + rest;
    }
  }

  /** The while-loop scan and the list-merge pass find the same runs. */
  lemma {:induction false} MaskRunsAreRuns(mask: seq<bool>, i: nat)
    requires i <= |mask|
    ensures MaskRunsFrom(mask, i) == Runs(TrueIndicesFrom(mask, i))
    decreases |mask| - i
  {
    if i < |mask| {
      if mask[i] {
        var j := RunEnd(mask, i);
        assert MaskRunsFrom(mask, i) == [BinRange(i, j - 1)] + MaskRunsFrom(mask, j);
        MaskRunsAreRuns(mask, j);
        TrueBlockRuns(mask, i, j);
      } else {
        assert MaskRunsFrom(mask, i) == MaskRunsFrom(mask, i + 1);
        assert TrueIndicesFrom(mask, i) == TrueIndicesFrom(mask, i + 1);
        MaskRunsAreRuns(mask, i + 1);
      }
    }
  }

  datatype ElevatedInterval = ElevatedInterval(phaseStart: real, phaseEnd: real, meanPhase: real)

  /** The interval reported for the block of bins startBin..endBin-1 at
   *  bin width w, before rounding: its boundaries and their midpoint. */
  function BlockInterval(startBin: nat, endBin: nat, binWidth: real): ElevatedInterval
  {
    var phaseStart := startBin as real * binWidth;
    var phaseEnd := endBin as real * binWidth;
    ElevatedInterval(phaseStart, phaseEnd, (phaseStart + phaseEnd) / 2.0)
  }

  /** A run as `find_elevated_intervals` reports it, at bin width 1/k. */
  function ToElevated(r: BinRange, k: nat): ElevatedInterval
    requires k > 0
  {
    BlockInterval(r.first, r.last + 1, 1.0 / k as real)
  }

  function ToElevatedAll(rs: seq<BinRange>, k: nat): seq<ElevatedInterval>
    requires k > 0
  {
    seq(|rs|, j requires 0 <= j < |rs| => ToElevated(rs[j], k))
  }

  /** One block of set entries startBin..endBin-1 is the next run. */
  lemma MaskRunStep(mask: seq<bool>, done: seq<BinRange>, startBin: nat, endBin: nat)
    requires startBin < endBin <= |mask|
    requires forall l :: startBin <= l < endBin ==> mask[l]
    requires endBin < |mask| ==> !mask[endBin]
    requires MaskRunsFrom(mask, 0) == done + MaskRunsFrom(mask, startBin)
    ensures MaskRunsFrom(mask, 0) == (done + [BinRange(startBin, endBin - 1)]) + MaskRunsFrom(mask, endBin)
  {
    RunEndIs(mask, startBin, endBin);
  }

  lemma ToElevatedAllSnoc(rs: seq<BinRange>, r: BinRange, k: nat)
    requires k > 0
    ensures ToElevatedAll(rs + [r], k) == ToElevatedAll(rs, k) + [ToElevated(r, k)]
  {
    assert forall j :: 0 <= j < |rs| ==> (rs + [r])[j] == rs[j];
  }

  /** `find_elevated_intervals` of the hemisphere and magnitude-band
   *  analyses: a while loop over the bins that skips a whole block of
   *  elevated bins with an inner loop. */
  method FindElevatedIntervals(binCounts: seq<nat>, k: nat, n: nat, tr: Transcendentals)
    returns (intervals: seq<ElevatedInterval>)
    requires 0 < k <= |binCounts|
    ensures intervals == ToElevatedAll(MaskRunsFrom(ElevatedMask(binCounts, Threshold(n as real / k as real, tr))[..k], 0), k)
  {
    var expected := n as real / k as real;
    var threshold := Threshold(expected, tr);
    var elevatedMask := ElevatedMask(binCounts, threshold);
    ghost var mask := elevatedMask[..k];
    var binWidth := 1.0 / k as real;
    intervals := [];
    ghost var done: seq<BinRange> := [];
    var i := 0;
    while i < k
      invariant 0 <= i <= k
      invariant MaskRunsFrom(mask, 0) == done + MaskRunsFrom(mask, i)
      invariant intervals == ToElevatedAll(done, k)
      decreases k - i
    {
      if elevatedMask[i] {
        var startBin := i;
        while i < k && elevatedMask[i]
          invariant startBin <= i <= k
          invariant forall l :: startBin <= l < i ==> mask[l]
          invariant i == startBin ==> i < k && elevatedMask[i]
        {
          i := i + 1;
        }
        var endBin := i;
        MaskRunStep(mask, done, startBin, endBin);
        ghost var run := BinRange(startBin, endBin - 1);
        assert run.last + 1 == endBin;
        ToElevatedAllSnoc(done, run, k);
        intervals := intervals + [BlockInterval(startBin, endBin, binWidth)];
        done := done + [run];
      } else {
        assert MaskRunsFrom(mask, i) == MaskRunsFrom(mask, i + 1);
        i := i + 1;
      }
    }
  }

  /** 1/k times a bin boundary is the boundary divided by k. */
  lemma ToElevatedPhase(r: BinRange, k: nat)
    requires k > 0
    ensures ToElevated(r, k).phaseStart == BinsToPhaseInterval(r.first, r.last, k).start
    ensures ToElevated(r, k).phaseEnd == BinsToPhaseInterval(r.first, r.last, k).end
  {
    var a, b, w := r.first as real, (r.last + 1) as real, k as real;
    TimesReciprocal(a, w);
    TimesReciprocal(b, w);
    assert ToElevated(r, k) == BlockInterval(r.first, r.last + 1, 1.0 / w);
  }

  lemma MaskPrefix(counts: seq<nat>, k: nat, threshold: real)
    requires k <= |counts|
    ensures ElevatedMask(counts, threshold)[..k] == ElevatedMask(counts[..k], threshold)
  {
    var a, b := ElevatedMask(counts, threshold)[..k], ElevatedMask(counts[..k], threshold);
    forall i | 0 <= i < k ensures a[i] == b[i] {
      assert counts[..k][i] == counts[i];
    }
  }

  /** The two forms agree: the while-loop runs over the first k bins are
   *  the merged runs of the elevated bins among them, and each reported
   *  start and end is the phase interval of the list-merge form. */
  lemma WhileFormMatchesMergeForm(counts: seq<nat>, k: nat, threshold: real)
    requires 0 < k <= |counts|
    ensures MaskRunsFrom(ElevatedMask(counts, threshold)[..k], 0) == Runs(ElevatedBins(counts[..k], threshold))
    ensures var rs := Runs(ElevatedBins(counts[..k], threshold));
      forall j :: 0 <= j < |rs| ==>
        ToElevated(rs[j], k).phaseStart == BinsToPhaseInterval(rs[j].first, rs[j].last, k).start &&
        ToElevated(rs[j], k).phaseEnd == BinsToPhaseInterval(rs[j].first, rs[j].last, k).end
  {
    MaskPrefix(counts, k, threshold);
    MaskRunsAreRuns(ElevatedMask(counts[..k], threshold), 0);
    var rs := Runs(ElevatedBins(counts[..k], threshold));
    forall j | 0 <= j < |rs|
      ensures ToElevated(rs[j], k).phaseStart == BinsToPhaseInterval(rs[j].first, rs[j].last, k).start
      ensures ToElevated(rs[j], k).phaseEnd == BinsToPhaseInterval(rs[j].first, rs[j].last, k).end
    {
      ToElevatedPhase(rs[j], k);
    }
  }

  /** Reported intervals lie in [0, 1] and each mean phase is the
   *  midpoint. */
  lemma FindElevatedIntervalsBounds(counts: seq<nat>, k: nat, threshold: real)
    requires 0 < k <= |counts|
    ensures var es := ToElevatedAll(MaskRunsFrom(ElevatedMask(counts, threshold)[..k], 0), k);
      forall j :: 0 <= j < |es| ==>
        0.0 <= es[j].phaseStart < es[j].phaseEnd <= 1.0 &&
        es[j].meanPhase == (es[j].phaseStart + es[j].phaseEnd) / 2.0
  {
    WhileFormMatchesMergeForm(counts, k, threshold);
    var xs := ElevatedBins(counts[..k], threshold);
    var rs := Runs(xs);
    ElevatedBinsSpec(counts[..k], threshold);
    RunsValid(xs);
    var es := ToElevatedAll(rs, k);
    forall j | 0 <= j < |rs|
      ensures 0.0 <= es[j].phaseStart < es[j].phaseEnd <= 1.0
      ensures es[j].meanPhase == (es[j].phaseStart + es[j].phaseEnd) / 2.0
    {
      RunsAreBlocks(xs, j, rs[j].last);
      assert rs[j].last < k;
      ToElevatedPhase(rs[j], k);
      BinsToPhaseIntervalBounds(rs[j].first, rs[j].last, k);
    }
  }

  /** The same bounds for one reported interval, with its mean in [0, 1). */
  lemma FindElevatedIntervalBoundsAt(counts: seq<nat>, k: nat, threshold: real, j: nat)
    requires 0 < k <= |counts|
    requires j < |ToElevatedAll(MaskRunsFrom(ElevatedMask(counts, threshold)[..k], 0), k)|
    ensures var e := ToElevatedAll(MaskRunsFrom(ElevatedMask(counts, threshold)[..k], 0), k)[j];
      0.0 <= e.phaseStart < e.phaseEnd <= 1.0 && 0.0 <= e.meanPhase < 1.0
  {
    WhileFormMatchesMergeForm(counts, k, threshold);
    var xs := ElevatedBins(counts[..k], threshold);
    var rs := Runs(xs);
    ElevatedBinsSpec(counts[..k], threshold);
    RunsValid(xs);
    RunsAreBlocks(xs, j, rs[j].last);
    ToElevatedPhase(rs[j], k);
    BinsToPhaseIntervalBounds(rs[j].first, rs[j].last, k);
  }

  /** Consecutive reported intervals are disjoint and ascending. */
  lemma FindElevatedIntervalsOrdered(counts: seq<nat>, k: nat, threshold: real)
    requires 0 < k <= |counts|
    ensures var es := ToElevatedAll(MaskRunsFrom(ElevatedMask(counts, threshold)[..k], 0), k);
      forall j :: 0 <= j < |es| - 1 ==> es[j].phaseEnd < es[j + 1].phaseStart
  {
    WhileFormMatchesMergeForm(counts, k, threshold);
    var xs := ElevatedBins(counts[..k], threshold);
    var rs := Runs(xs);
    ElevatedBinsSpec(counts[..k], threshold);
    RunsValid(xs);
    var es := ToElevatedAll(rs, k);
    forall j | 0 <= j < |rs| - 1
      ensures es[j].phaseEnd < es[j + 1].phaseStart
    {
      ToElevatedPhase(rs[j], k);
      ToElevatedPhase(rs[j + 1], k);
      QuotientMonotone((rs[j].last + 1) as real, rs[j + 1].first as real, k as real);
    }
  }

  // ---------------------------------------------------------------------
  // Overlap and classification against the baselines
  // ---------------------------------------------------------------------

  function Min(a: real, b: real): real { if a <= b then a else b }
  function Max(a: real, b: real): real { if a >= b then a else b }

  /** Length of the intersection of [aStart, aEnd] and [bStart, bEnd]. */
  function Overlap(aStart: real, aEnd: real, bStart: real, bEnd: real): (o: real)
    ensures o >= 0.0
    ensures aStart <= aEnd ==> o <= aEnd - aStart
  {
    Max(0.0, Min(aEnd, bEnd) - Max(aStart, bStart))
  }

  /** `overlap_fraction` (and `intervals_overlap`): the share of interval A
   *  covered by interval B, 0 for an empty or reversed A. */
  function OverlapFraction(aStart: real, aEnd: real, bStart: real, bEnd: real): (f: real)
    ensures aEnd - aStart <= 0.0 ==> f == 0.0
    ensures 0.0 <= f <= 1.0
    ensures bEnd <= aStart || aEnd <= bStart ==> f == 0.0
    ensures aStart < aEnd && bStart <= aStart && aEnd <= bEnd ==> f == 1.0
  {
    var width := aEnd - aStart;
    if width <= 0.0 then 0.0
    else
      var overlap := Overlap(aStart, aEnd, bStart, bEnd);
      QuotientNonNegative(overlap, width);
      QuotientAtMostOne(overlap, width);
      QuotientSelf(width);
      overlap / width
  }

  /** Two disjoint intervals B1 before B2 cover at most all of A between
   *  them, so their fractions add up to at most 1. */
  lemma DisjointFractions(aStart: real, aEnd: real, b1Start: real, b1End: real, b2Start: real, b2End: real)
    requires b1End <= b2Start
    ensures OverlapFraction(aStart, aEnd, b1Start, b1End) + OverlapFraction(aStart, aEnd, b2Start, b2End) <= 1.0
  {
    var width := aEnd - aStart;
    if width > 0.0 {
      var o1 := Overlap(aStart, aEnd, b1Start, b1End);
      var o2 := Overlap(aStart, aEnd, b2Start, b2End);
      assert o1 + o2 <= width;
      QuotientSum(o1, o2, width);
      QuotientAtMostOne(o1 + o2, width);
    }
  }

  datatype Baseline = Baseline(id: nat, start: real, end: real)

  /** The three A1b baseline phase intervals. */
  const A1B_BASELINES: seq<Baseline> := [
    Baseline(1, 0.1875, 0.25),
    Baseline(2, 0.625, 0.656),
    Baseline(3, 0.875, 0.917)
  ]

  /** The overlap fraction of interval (ps, pe) with baseline j. */
  function BaselineFraction(ps: real, pe: real, bs: seq<Baseline>, j: nat): real
    requires j < |bs|
  {
    OverlapFraction(ps, pe, bs[j].start, bs[j].end)
  }

  /** The first baseline from position i on that covers more than half of
   *  the interval. */
  function FirstMatchFrom(ps: real, pe: real, bs: seq<Baseline>, i: nat): (m: Option<nat>)
    requires i <= |bs|
    ensures m.Some? ==> (i <= m.value < |bs| && BaselineFraction(ps, pe, bs, m.value) > 0.5 &&
      forall q :: i <= q < m.value ==> BaselineFraction(ps, pe, bs, q) <= 0.5)
    ensures m.None? ==> forall q :: i <= q < |bs| ==> BaselineFraction(ps, pe, bs, q) <= 0.5
    decreases |bs| - i
  {
    if i == |bs| then None
    else if BaselineFraction(ps, pe, bs, i) > 0.5 then Some(i)
    else FirstMatchFrom(ps, pe, bs, i + 1)
  }

  datatype Classification = MatchesInterval(id: nat) | NewInterval

  /** `classify_interval`: the id of the first baseline covering more than
   *  half of the interval, or a new interval. */
  function ClassifyInterval(ps: real, pe: real, bs: seq<Baseline>): Classification
  {
    match FirstMatchFrom(ps, pe, bs, 0)
    case Some(j) => MatchesInterval(bs[j].id)
    case None => NewInterval
  }

  /** The classification string. */
  function ClassificationLabel(c: Classification): string
  {
    match c
    case MatchesInterval(id) => "matches interval " + NatToString(id)
    case NewInterval => "new interval"
  }

  /** Distinct classifications have distinct labels. */
  lemma ClassificationLabelInjective(c1: Classification, c2: Classification)
    requires ClassificationLabel(c1) == ClassificationLabel(c2)
    ensures c1 == c2
  {
    var prefix := "matches interval ";
    if c1.MatchesInterval? && c2.MatchesInterval? {
      var l1, l2 := ClassificationLabel(c1), ClassificationLabel(c2);
      assert l1[|prefix|..] == NatToString(c1.id);
      assert l2[|prefix|..] == NatToString(c2.id);
      ParseNatToString(c1.id);
      ParseNatToString(c2.id);
    }
  }

  /** The A1b baselines are pairwise disjoint, so an interval matches at
   *  most one of them: a match is the only baseline above one half. */
  lemma ClassificationUnique(ps: real, pe: real, j: nat, q: nat)
    requires j < 3 && q < 3 && j != q
    requires BaselineFraction(ps, pe, A1B_BASELINES, j) > 0.5
    ensures BaselineFraction(ps, pe, A1B_BASELINES, q) <= 0.5
  {
    var b := A1B_BASELINES;
    var lo, hi := if j < q then j else q, if j < q then q else j;
    assert b[lo].end <= b[hi].start;
    DisjointFractions(ps, pe, b[lo].start, b[lo].end, b[hi].start, b[hi].end);
  }
}
