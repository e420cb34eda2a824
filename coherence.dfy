/** The combined elevated phase set of the A1b analysis: the three bins of
 *  largest deviation at k = 16, 24 and 32, the sorted breakpoints of their
 *  ranges, the sub-intervals whose midpoint at least two of the three bin
 *  counts cover, and the merge of those sub-intervals. */
module PhaseCoherence {
  import opened Wrappers
  import opened Numerics
  import opened Binning

  const BIN_COUNTS: seq<nat> := [16, 24, 32]
  const TOP_N: nat := 3
  const MIN_VOTES: nat := 2

  /** numpy's message for a negative entry passed to `np.bincount`. */
  const NEGATIVE_BIN_MESSAGE: string := "'list' argument must have no negative elements"

  /** Spans closer than this are merged. */
  const MERGE_GAP: real := 0.000000000001

  /** A phase range [lo, hi). */
  datatype Span = Span(lo: real, hi: real)

  predicate Contains(s: Span, x: real)
  {
    s.lo <= x < s.hi
  }

  predicate InUnion(xs: seq<Span>, x: real)
  {
    exists i :: 0 <= i < |xs| && Contains(xs[i], x)
  }

  /** x lies in a span of xs extended downward by the merge gap. */
  predicate NearUnion(xs: seq<Span>, x: real)
  {
    exists i :: 0 <= i < |xs| && xs[i].lo - MERGE_GAP <= x < xs[i].hi
  }

  predicate StartsSorted(xs: seq<Span>)
  {
    forall i, j :: 0 <= i < j < |xs| ==> xs[i].lo <= xs[j].lo
  }

  predicate WellFormed(xs: seq<Span>)
  {
    forall i :: 0 <= i < |xs| ==> xs[i].lo <= xs[i].hi
  }

  /** Consecutive spans are apart by more than the merge gap. */
  predicate Separated(xs: seq<Span>)
  {
    forall i :: 0 <= i < |xs| - 1 ==> xs[i].hi + MERGE_GAP < xs[i + 1].lo
  }

  predicate Within(xs: seq<Span>, a: real, b: real)
  {
    forall i :: 0 <= i < |xs| ==> a <= xs[i].lo && xs[i].hi <= b
  }

  lemma InUnionSnoc(xs: seq<Span>, s: Span, x: real)
    ensures InUnion(xs + [s], x) <==> InUnion(xs, x) || Contains(s, x)
  {
    if InUnion(xs, x) {
      var i :| 0 <= i < |xs| && Contains(xs[i], x);
      assert (xs + [s])[i] == xs[i];
    }
    if Contains(s, x) {
      assert (xs + [s])[|xs|] == s;
    }
  }

  // ---------------------------------------------------------------------
  // _merge_intervals
  // ---------------------------------------------------------------------

  /** `_merge_intervals` as a value, one input span at a time: a span that
   *  starts within the merge gap of the last merged span extends it,
   *  any other span starts a new one. */
  function Merged(xs: seq<Span>): (r: seq<Span>)
    ensures |r| <= |xs|
    ensures |r| == 0 <==> |xs| == 0
  {
    if |xs| <= 1 then xs
    else
      var m := Merged(xs[..|xs| - 1]);
      var x := xs[|xs| - 1];
      var last := m[|m| - 1];
      if x.lo <= last.hi + MERGE_GAP then m[|m| - 1 := Span(last.lo, if x.hi > last.hi then x.hi else last.hi)]
      else m + [x]
  }

  /** Merged spans are well formed and apart by more than the merge gap,
   *  whatever the order of the input. */
  lemma {:induction false} MergedSeparated(xs: seq<Span>)
    requires WellFormed(xs)
    ensures WellFormed(Merged(xs)) && Separated(Merged(xs))
  {
    if |xs| > 1 {
      var p := xs[..|xs| - 1];
      assert forall i :: 0 <= i < |p| ==> p[i] == xs[i];
      MergedSeparated(p);
    }
  }

  /** Merged spans stay inside any range holding the input spans. */
  lemma {:induction false} MergedWithin(xs: seq<Span>, a: real, b: real)
    requires Within(xs, a, b)
    ensures Within(Merged(xs), a, b)
  {
    if |xs| > 1 {
      var p := xs[..|xs| - 1];
      assert forall i :: 0 <= i < |p| ==> p[i] == xs[i];
      MergedWithin(p, a, b);
    }
  }

  /** On input sorted by start, the last merged span starts no later than
   *  the last input span. */
  lemma {:induction false} MergedLastStart(xs: seq<Span>)
    requires |xs| > 0 && StartsSorted(xs)
    ensures Merged(xs)[|Merged(xs)| - 1].lo <= xs[|xs| - 1].lo
  {
    if |xs| > 1 {
      var p := xs[..|xs| - 1];
      assert forall i :: 0 <= i < |p| ==> p[i] == xs[i];
      MergedLastStart(p);
    }
  }

  /** One more input span never uncovers a point: the last merged span
   *  only grows. */
  lemma MergedKeepsPoints(xs: seq<Span>, x: real)
    requires |xs| > 1
    ensures InUnion(Merged(xs[..|xs| - 1]), x) ==> InUnion(Merged(xs), x)
  {
    var m := Merged(xs[..|xs| - 1]);
    var last := m[|m| - 1];
    var y := xs[|xs| - 1];
    var r := Merged(xs);
    if InUnion(m, x) {
      var j :| 0 <= j < |m| && Contains(m[j], x);
      if y.lo <= last.hi + MERGE_GAP {
        assert r == m[|m| - 1 := Span(last.lo, if y.hi > last.hi then y.hi else last.hi)];
        assert r[j].lo == m[j].lo && r[j].hi >= m[j].hi;
      } else {
        assert r == m + [y];
        assert r[j] == m[j];
      }
      assert Contains(r[j], x);
    }
  }

  /** On input sorted by start, the last input span lies in a merged span. */
  lemma MergedCoversLast(xs: seq<Span>, x: real)
    requires |xs| > 1 && StartsSorted(xs)
    ensures Contains(xs[|xs| - 1], x) ==> InUnion(Merged(xs), x)
  {
    var n := |xs| - 1;
    var p := xs[..n];
    var m := Merged(p);
    if Contains(xs[n], x) {
      if xs[n].lo <= m[|m| - 1].hi + MERGE_GAP {
        assert forall i :: 0 <= i < |p| ==> p[i] == xs[i];
        MergedLastStart(p);
        assert Contains(Merged(xs)[|m| - 1], x);
      } else {
        assert Contains(Merged(xs)[|m|], x);
      }
    }
  }

  /** On input sorted by start, every point of an input span lies in a
   *  merged span. */
  lemma {:induction false} MergedCovers(xs: seq<Span>, x: real)
    requires StartsSorted(xs)
    ensures InUnion(xs, x) ==> InUnion(Merged(xs), x)
  {
    if |xs| > 1 && InUnion(xs, x) {
      var n := |xs| - 1;
      var p := xs[..n];
      var i :| 0 <= i < |xs| && Contains(xs[i], x);
      if i == n {
        MergedCoversLast(xs, x);
      } else {
        assert p[i] == xs[i];
        MergedCovers(p, x);
        MergedKeepsPoints(xs, x);
      }
    }
  }

  /** Every point of a merged span lies in an input span or in a gap of at
   *  most the merge gap just below one: the merge only bridges such gaps. */
  lemma {:induction false} MergedReach(xs: seq<Span>, x: real)
    ensures InUnion(Merged(xs), x) ==> NearUnion(xs, x)
  {
    if |xs| <= 1 {
      if InUnion(xs, x) {
        assert xs[0].lo - MERGE_GAP <= x < xs[0].hi;
      }
    } else if InUnion(Merged(xs), x) {
      var n := |xs| - 1;
      var p := xs[..n];
      assert forall i :: 0 <= i < |p| ==> p[i] == xs[i];
      var m := Merged(p);
      var last := m[|m| - 1];
      var r := Merged(xs);
      var j :| 0 <= j < |r| && Contains(r[j], x);
      if xs[n].lo <= last.hi + MERGE_GAP && j == |m| - 1 {
        if x < last.hi {
          assert Contains(m[j], x);
          MergedReach(p, x);
          var i :| 0 <= i < |p| && p[i].lo - MERGE_GAP <= x < p[i].hi;
          assert xs[i].lo - MERGE_GAP <= x < xs[i].hi;
        } else {
          assert xs[n].lo - MERGE_GAP <= x < xs[n].hi;
        }
      } else if j < |m| && (xs[n].lo > last.hi + MERGE_GAP || j < |m| - 1) {
        assert Contains(m[j], x);
        MergedReach(p, x);
        var i :| 0 <= i < |p| && p[i].lo - MERGE_GAP <= x < p[i].hi;
        assert xs[i].lo - MERGE_GAP <= x < xs[i].hi;
      } else {
        assert xs[n].lo - MERGE_GAP <= x < xs[n].hi;
      }
    }
  }

  /** `_merge_intervals` does not sort its input; the copy of it in the
   *  tests sorts first. Without that sort a point can be lost: the second
   *  span below starts before the first, is absorbed into it, and its
   *  points are not covered. */
  lemma UnsortedInputLosesPoints()
    ensures var xs := [Span(0.5, 0.6), Span(0.1, 0.2)];
      InUnion(xs, 0.15) && !InUnion(Merged(xs), 0.15)
  {
    var xs := [Span(0.5, 0.6), Span(0.1, 0.2)];
    assert Contains(xs[1], 0.15);
    assert Merged(xs) == [Span(0.5, 0.6)];
  }

  /** `_merge_intervals`, updating the last merged span in place. */
  method MergeIntervals(intervals: seq<Span>) returns (merged: seq<Span>)
    ensures merged == Merged(intervals)
  {
    if |intervals| == 0 {
      return [];
    }
    merged := [intervals[0]];
    var i := 1;
    while i < |intervals|
      invariant 1 <= i <= |intervals|
      invariant merged == Merged(intervals[..i])
    {
      assert intervals[..i + 1][..i] == intervals[..i];
      var x := intervals[i];
      var last := merged[|merged| - 1];
      if x.lo <= last.hi + MERGE_GAP {
        merged := merged[|merged| - 1 := Span(last.lo, if x.hi > last.hi then x.hi else last.hi)];
      } else {
        merged := merged + [x];
      }
      i := i + 1;
    }
    assert intervals[..i] == intervals;
  }

  // ---------------------------------------------------------------------
  // Total length and `expected_pct_under_null`
  // ---------------------------------------------------------------------

  function TotalLength(xs: seq<Span>): real
  {
    if xs == [] then 0.0 else TotalLength(xs[..|xs| - 1]) + (xs[|xs| - 1].hi - xs[|xs| - 1].lo)
  }

  /** Separated spans are no longer in total than the range from the first
   *  start to the last end, and no shorter than 0. */
  lemma {:induction false} TotalLengthBounded(xs: seq<Span>)
    requires |xs| > 0 && WellFormed(xs) && Separated(xs)
    ensures 0.0 <= TotalLength(xs) <= xs[|xs| - 1].hi - xs[0].lo
  {
    if |xs| > 1 {
      var p := xs[..|xs| - 1];
      assert forall i :: 0 <= i < |p| ==> p[i] == xs[i];
      TotalLengthBounded(p);
    }
  }

  /** The fraction of the phase axis the merged spans cover, in percent. */
  function ExpectedPct(merged: seq<Span>): real
  {
    TotalLength(merged) * 100.0
  }

  /** On spans inside [0, 1] the expected percentage lies in [0, 100]. */
  lemma ExpectedPctBounds(spans: seq<Span>)
    requires WellFormed(spans) && Within(spans, 0.0, 1.0)
    ensures 0.0 <= ExpectedPct(Merged(spans)) <= 100.0
  {
    var m := Merged(spans);
    if |m| > 0 {
      MergedSeparated(spans);
      MergedWithin(spans, 0.0, 1.0);
      TotalLengthBounded(m);
    }
  }

  // ---------------------------------------------------------------------
  // The three bins of largest deviation
  // ---------------------------------------------------------------------

  function CountTrue(s: seq<bool>): (n: nat)
    ensures n <= |s|
  {
    if s == [] then 0 else CountTrue(s[..|s| - 1]) + (if s[|s| - 1] then 1 else 0)
  }

  /** Setting one unset flag adds one to the count. */
  lemma {:induction false} CountTrueSet(s: seq<bool>, m: nat)
    requires m < |s| && !s[m]
    ensures CountTrue(s[m := true]) == CountTrue(s) + 1
  {
    var n := |s| - 1;
    assert s[m := true][..n] == if m < n then s[..n][m := true] else s[..n];
    if m < n {
      CountTrueSet(s[..n], m);
    }
  }

  /** Fewer set flags than flags leaves one unset. */
  lemma {:induction false} CountTrueBelowLength(s: seq<bool>)
    requires CountTrue(s) < |s|
    ensures exists i :: 0 <= i < |s| && !s[i]
  {
    var n := |s| - 1;
    if s[n] {
      CountTrueBelowLength(s[..n]);
      var i :| 0 <= i < n && !s[..n][i];
      assert !s[i];
    }
  }

  function AllFalse(n: nat): (s: seq<bool>)
    ensures |s| == n && CountTrue(s) == 0
    ensures forall i :: 0 <= i < n ==> !s[i]
  {
    if n == 0 then [] else
      var s := AllFalse(n - 1) + [false];
      assert s[..n - 1] == AllFalse(n - 1);
      s
  }

  /** The first largest deviation among the bins not yet taken. */
  method FirstMaxUntaken(devs: seq<real>, taken: seq<bool>) returns (m: nat)
    requires |taken| == |devs|
    requires exists i :: 0 <= i < |devs| && !taken[i]
    ensures m < |devs| && !taken[m]
    ensures forall j :: 0 <= j < |devs| && !taken[j] ==> devs[j] <= devs[m]
  {
    var found := false;
    m := 0;
    var i := 0;
    while i < |devs|
      invariant 0 <= i <= |devs|
      invariant found ==> m < i && !taken[m]
      invariant found <==> exists j :: 0 <= j < i && !taken[j]
      invariant found ==> forall j :: 0 <= j < i && !taken[j] ==> devs[j] <= devs[m]
    {
      if !taken[i] && (!found || devs[i] > devs[m]) {
        m := i;
        found := true;
      }
      i := i + 1;
    }
  }

  /** `top` names `min(t, |devs|)` bins in ascending order, and no bin left
   *  out has a larger deviation than a bin named. */
  predicate IsTopSelection(devs: seq<real>, top: seq<nat>, t: nat)
  {
    |top| == (if t < |devs| then t else |devs|) &&
    (forall a :: 0 <= a < |top| ==> top[a] < |devs|) &&
    (forall a, b :: 0 <= a < b < |top| ==> top[a] < top[b]) &&
    (forall a, j :: 0 <= a < |top| && 0 <= j < |devs| && j !in top ==> devs[j] <= devs[top[a]])
  }

  /** The flags after t rounds of taking the largest remaining deviation:
   *  `min(t, |devs|)` bins taken, none left out above one taken. */
  method TakeLargest(devs: seq<real>, t: nat) returns (taken: seq<bool>)
    ensures |taken| == |devs|
    ensures CountTrue(taken) == if t < |devs| then t else |devs|
    ensures forall c, j :: 0 <= c < |devs| && 0 <= j < |devs| && taken[c] && !taken[j] ==> devs[j] <= devs[c]
  {
    var want := if t < |devs| then t else |devs|;
    taken := AllFalse(|devs|);
    var r := 0;
    while r < want
      invariant r <= want && |taken| == |devs|
      invariant CountTrue(taken) == r
      invariant forall c, j :: 0 <= c < |devs| && 0 <= j < |devs| && taken[c] && !taken[j] ==> devs[j] <= devs[c]
    {
      CountTrueBelowLength(taken);
      var m := FirstMaxUntaken(devs, taken);
      CountTrueSet(taken, m);
      taken := taken[m := true];
      r := r + 1;
    }
  }

  /** The taken bins in ascending order. */
  method AscendingTaken(taken: seq<bool>) returns (top: seq<nat>)
    ensures |top| == CountTrue(taken)
    ensures forall a, b :: 0 <= a < b < |top| ==> top[a] < top[b]
    ensures forall x: nat :: x in top <==> x < |taken| && taken[x]
  {
    top := [];
    var i := 0;
    while i < |taken|
      invariant 0 <= i <= |taken|
      invariant |top| == CountTrue(taken[..i])
      invariant forall a :: 0 <= a < |top| ==> top[a] < i
      invariant forall a, b :: 0 <= a < b < |top| ==> top[a] < top[b]
      invariant forall x: nat :: x in top <==> x < i && taken[x]
    {
      assert taken[..i + 1][..i] == taken[..i];
      if taken[i] {
        top := top + [i];
      }
      i := i + 1;
    }
    assert taken[..i] == taken;
  }

  /** `sorted(np.argsort(deviations)[::-1][:t])`. */
  method TopBins(devs: seq<real>, t: nat) returns (top: seq<nat>)
    ensures IsTopSelection(devs, top, t)
  {
    var taken := TakeLargest(devs, t);
    top := AscendingTaken(taken);
    assert forall a :: 0 <= a < |top| ==> top[a] in top;
  }

  /** A selection of at least one bin names a bin of largest deviation. */
  lemma TopSelectionHasMaximum(devs: seq<real>, top: seq<nat>, t: nat)
    requires t > 0 && |devs| > 0 && IsTopSelection(devs, top, t)
    ensures exists a :: 0 <= a < |top| && devs[top[a]] == MaxOf(devs)
  {
    var j :| 0 <= j < |devs| && devs[j] == MaxOf(devs);
    if j !in top {
      assert devs[j] <= devs[top[0]];
    }
  }

  /** `counts - n / k` for the floored bins of `np.bincount`. On phases in
   *  [0, 1) every floored bin already lies in [0, k), so the clipped
   *  histogram is the script's. */
  function Deviations(phases: seq<real>, k: nat): (d: seq<real>)
    requires k > 0
    requires forall i :: 0 <= i < |phases| ==> 0.0 <= phases[i] < 1.0
    ensures |d| == k
    ensures forall i :: 0 <= i < |phases| ==> BinIndices(phases, k)[i] == (phases[i] * k as real).Floor
    ensures forall b :: 0 <= b < k ==>
      d[b] == multiset(BinIndices(phases, k))[b] as real - |phases| as real / k as real
  {
    ClippedCountsSpec(phases, k);
    forall i | 0 <= i < |phases|
      ensures BinIndices(phases, k)[i] == (phases[i] * k as real).Floor
    {
      BinIndexBounds(phases[i], k);
    }
    var counts := ClippedCounts(phases, k);
    seq(k, b requires 0 <= b < k => counts[b] as real - |phases| as real / k as real)
  }

  /** The range (i/k, (i+1)/k) of bin i. */
  function BinRange(i: nat, k: nat): (s: Span)
    requires k > 0
    ensures s.lo < s.hi
    ensures i < k ==> 0.0 <= s.lo && s.hi <= 1.0
  {
    Span(i as real / k as real, (i + 1) as real / k as real)
  }

  function TopRanges(top: seq<nat>, k: nat): (r: seq<Span>)
    requires k > 0
    ensures |r| == |top|
    ensures forall a :: 0 <= a < |r| ==> r[a] == BinRange(top[a], k)
  {
    seq(|top|, a requires 0 <= a < |top| => BinRange(top[a], k))
  }

  // ---------------------------------------------------------------------
  // Breakpoints
  // ---------------------------------------------------------------------

  predicate Increasing(s: seq<real>)
  {
    forall i, j :: 0 <= i < j < |s| ==> s[i] < s[j]
  }

  /** x placed into a strictly increasing sequence, once. */
  function Insert(s: seq<real>, x: real): (r: seq<real>)
    requires Increasing(s)
    ensures Increasing(r)
    ensures forall y :: y in r <==> y in s || y == x
  {
    if s == [] then [x]
    else if x < s[0] then [x] + s
    else if x == s[0] then s
    else
      var rest := Insert(s[1..], x);
      assert forall y :: y in s[1..] ==> s[0] < y;
      assert forall j :: 0 <= j < |rest| ==> s[0] < rest[j] by {
        forall j | 0 <= j < |rest|
          ensures s[0] < rest[j]
        {
          assert rest[j] in rest;
        }
      }
      [s[0]] + rest
  }

  /** `sorted(set(points))`. */
  function SortedSet(points: seq<real>): (r: seq<real>)
    ensures Increasing(r)
    ensures forall y :: y in r <==> y in points
  {
    if points == [] then []
    else
      var p := points[..|points| - 1];
      assert forall y :: y in points <==> y in p || y == points[|points| - 1];
      Insert(SortedSet(p), points[|points| - 1])
  }

  function Flatten(rangesByK: seq<seq<Span>>): (r: seq<Span>)
    ensures forall s :: s in r <==> exists q :: 0 <= q < |rangesByK| && s in rangesByK[q]
  {
    if rangesByK == [] then []
    else
      var n := |rangesByK| - 1;
      var front := Flatten(rangesByK[..n]);
      assert forall q :: 0 <= q < n ==> rangesByK[..n][q] == rangesByK[q];
      front + rangesByK[n]
  }

  function Endpoints(spans: seq<Span>): (r: seq<real>)
    ensures forall y :: y in r <==> exists s :: s in spans && (y == s.lo || y == s.hi)
  {
    if spans == [] then []
    else
      var n := |spans| - 1;
      assert forall s :: s in spans <==> s in spans[..n] || s == spans[n];
      Endpoints(spans[..n]) + [spans[n].lo, spans[n].hi]
  }

  /** `breakpoints_sorted`: 0, 1 and every range boundary, once each, in
   *  increasing order. */
  function Breakpoints(rangesByK: seq<seq<Span>>): (bp: seq<real>)
    ensures Increasing(bp)
    ensures forall y :: y in bp <==> (y == 0.0 || y == 1.0 ||
      exists s :: s in Flatten(rangesByK) && (y == s.lo || y == s.hi))
  {
    SortedSet([0.0, 1.0] + Endpoints(Flatten(rangesByK)))
  }

  /** With ranges inside [0, 1], the breakpoints run from 0 to 1. */
  lemma BreakpointsSpan(rangesByK: seq<seq<Span>>)
    requires WellFormed(Flatten(rangesByK)) && Within(Flatten(rangesByK), 0.0, 1.0)
    ensures var bp := Breakpoints(rangesByK);
      |bp| >= 2 && bp[0] == 0.0 && bp[|bp| - 1] == 1.0
  {
    var bp := Breakpoints(rangesByK);
    assert 0.0 in bp && 1.0 in bp;
    var spans := Flatten(rangesByK);
    forall y | y in bp
      ensures 0.0 <= y <= 1.0
    {
      if y != 0.0 && y != 1.0 {
        var s :| s in spans && (y == s.lo || y == s.hi);
        var i :| 0 <= i < |spans| && spans[i] == s;
      }
    }
    var i0 :| 0 <= i0 < |bp| && bp[i0] == 0.0;
    var i1 :| 0 <= i1 < |bp| && bp[i1] == 1.0;
    assert bp[0] in bp && bp[|bp| - 1] in bp;
    assert i0 == 0 && i1 == |bp| - 1;
  }

  // ---------------------------------------------------------------------
  // Votes and candidate sub-intervals
  // ---------------------------------------------------------------------

  /** `k_covers_point`. */
  predicate KCovers(ranges: seq<Span>, x: real)
  {
    InUnion(ranges, x)
  }

  /** The number of bin counts whose top ranges cover x. */
  function VoteCount(rangesByK: seq<seq<Span>>, x: real): (n: nat)
    ensures n <= |rangesByK|
  {
    if rangesByK == [] then 0
    else VoteCount(rangesByK[..|rangesByK| - 1], x) + (if KCovers(rangesByK[|rangesByK| - 1], x) then 1 else 0)
  }

  function Midpoint(lo: real, hi: real): (m: real)
    ensures lo < hi ==> lo < m < hi
  {
    (lo + hi) / 2.0
  }

  /** The candidate sub-intervals among the first n of the breakpoints. */
  function CandidatesUpTo(bp: seq<real>, rangesByK: seq<seq<Span>>, n: nat): seq<Span>
    requires n < |bp|
  {
    if n == 0 then []
    else
      var front := CandidatesUpTo(bp, rangesByK, n - 1);
      if VoteCount(rangesByK, Midpoint(bp[n - 1], bp[n])) >= MIN_VOTES then front + [Span(bp[n - 1], bp[n])] else front
  }

  function Candidates(bp: seq<real>, rangesByK: seq<seq<Span>>): seq<Span>
  {
    if bp == [] then [] else CandidatesUpTo(bp, rangesByK, |bp| - 1)
  }

  /** A sub-interval between consecutive breakpoints is a candidate exactly
   *  when at least two bin counts cover its midpoint; the candidates are
   *  non-empty, sorted, and inside the breakpoints' range. */
  lemma {:induction false} CandidatesUpToSpec(bp: seq<real>, rangesByK: seq<seq<Span>>, n: nat)
    requires n < |bp| && Increasing(bp)
    ensures var c := CandidatesUpTo(bp, rangesByK, n);
      StartsSorted(c) && WellFormed(c) && Within(c, bp[0], bp[n]) &&
      (forall i :: 0 <= i < n ==>
        (Span(bp[i], bp[i + 1]) in c <==> VoteCount(rangesByK, Midpoint(bp[i], bp[i + 1])) >= MIN_VOTES)) &&
      (forall s :: s in c ==> (exists i :: 0 <= i < n && s == Span(bp[i], bp[i + 1]) &&
                                VoteCount(rangesByK, Midpoint(bp[i], bp[i + 1])) >= MIN_VOTES))
  {
    if n > 0 {
      CandidatesUpToSpec(bp, rangesByK, n - 1);
      var front := CandidatesUpTo(bp, rangesByK, n - 1);
      var s := Span(bp[n - 1], bp[n]);
      assert forall i :: 0 <= i < |front| ==> front[i].hi <= bp[n - 1];
      assert s !in front;
      forall i | 0 <= i < n - 1
        ensures Span(bp[i], bp[i + 1]) != s
      {
      }
    }
  }

  lemma CandidatesSpec(bp: seq<real>, rangesByK: seq<seq<Span>>)
    requires |bp| >= 2 && Increasing(bp)
    ensures var c := Candidates(bp, rangesByK);
      StartsSorted(c) && WellFormed(c) && Within(c, bp[0], bp[|bp| - 1]) &&
      (forall i :: 0 <= i < |bp| - 1 ==>
        (Span(bp[i], bp[i + 1]) in c <==> VoteCount(rangesByK, Midpoint(bp[i], bp[i + 1])) >= MIN_VOTES)) &&
      (forall s :: s in c ==> (exists i :: 0 <= i < |bp| - 1 && s == Span(bp[i], bp[i + 1]) &&
                                VoteCount(rangesByK, Midpoint(bp[i], bp[i + 1])) >= MIN_VOTES))
  {
    CandidatesUpToSpec(bp, rangesByK, |bp| - 1);
  }

  /** The loop over consecutive breakpoints collecting the sub-intervals of
   *  two or more votes. */
  method SelectCandidates(bp: seq<real>, rangesByK: seq<seq<Span>>) returns (cands: seq<Span>)
    ensures cands == Candidates(bp, rangesByK)
  {
    cands := [];
    if |bp| == 0 {
      return;
    }
    var i := 0;
    while i < |bp| - 1
      invariant 0 <= i <= |bp| - 1
      invariant cands == CandidatesUpTo(bp, rangesByK, i)
    {
      var mid := Midpoint(bp[i], bp[i + 1]);
      var votes := VoteCount(rangesByK, mid);
      if votes >= MIN_VOTES {
        cands := cands + [Span(bp[i], bp[i + 1])];
      }
      i := i + 1;
    }
  }

  // ---------------------------------------------------------------------
  // The elevated mask and the whole analysis
  // ---------------------------------------------------------------------

  function MaskOf(phases: seq<real>, spans: seq<Span>): (mask: seq<bool>)
    ensures |mask| == |phases|
    ensures forall i :: 0 <= i < |phases| ==> (mask[i] <==> InUnion(spans, phases[i]))
  {
    seq(|phases|, i requires 0 <= i < |phases| => InUnion(spans, phases[i]))
  }

  /** `elevated_mask |= (phases >= lo) & (phases < hi)` for each merged
   *  span in turn. */
  method ElevatedMask(phases: seq<real>, merged: seq<Span>) returns (mask: seq<bool>)
    ensures mask == MaskOf(phases, merged)
  {
    mask := seq(|phases|, i => false);
    var j := 0;
    while j < |merged|
      invariant 0 <= j <= |merged|
      invariant |mask| == |phases|
      invariant forall i :: 0 <= i < |phases| ==> (mask[i] <==> InUnion(merged[..j], phases[i]))
    {
      var s := merged[j];
      assert merged[..j + 1] == merged[..j] + [s];
      forall i | 0 <= i < |phases|
        ensures InUnion(merged[..j + 1], phases[i]) <==> InUnion(merged[..j], phases[i]) || Contains(s, phases[i])
      {
        InUnionSnoc(merged[..j], s, phases[i]);
      }
      mask := seq(|phases|, i requires 0 <= i < |phases| => mask[i] || Contains(s, phases[i]));
      j := j + 1;
    }
    assert merged[..j] == merged;
  }

  datatype Coherence = Coherence(
    topBins: seq<seq<nat>>,
    topRanges: seq<seq<Span>>,
    merged: seq<Span>,
    fullCatalogInIntervals: nat,
    expectedPct: real)

  function RangesByK(tops: seq<seq<nat>>): (r: seq<seq<Span>>)
    requires |tops| <= |BIN_COUNTS|
    ensures |r| == |tops|
    ensures forall q :: 0 <= q < |r| ==> r[q] == TopRanges(tops[q], BIN_COUNTS[q])
  {
    seq(|tops|, q requires 0 <= q < |tops| => TopRanges(tops[q], BIN_COUNTS[q]))
  }

  /** The analysis for a given choice of top bins per bin count. */
  function CoherenceOf(phases: seq<real>, tops: seq<seq<nat>>): (c: Coherence)
    requires |tops| <= |BIN_COUNTS|
  {
    var ranges := RangesByK(tops);
    var merged := Merged(Candidates(Breakpoints(ranges), ranges));
    Coherence(tops, ranges, merged, CountTrue(MaskOf(phases, merged)), ExpectedPct(merged))
  }

  /** The top bins of every bin count are valid bins. */
  predicate TopsInRange(tops: seq<seq<nat>>)
    requires |tops| <= |BIN_COUNTS|
  {
    forall q, a :: 0 <= q < |tops| && 0 <= a < |tops[q]| ==> tops[q][a] < BIN_COUNTS[q]
  }

  /** Whatever bins are chosen, the merged set is a sorted sequence of
   *  well-separated spans inside [0, 1], its expected percentage lies in
   *  [0, 100], an event lies in it exactly when the sub-interval around
   *  its phase won two votes (up to the merge gap), and the count of such
   *  events is at most the catalog size. */
  lemma CoherenceSpec(phases: seq<real>, tops: seq<seq<nat>>, x: real)
    requires |tops| <= |BIN_COUNTS| && TopsInRange(tops)
    ensures var c := CoherenceOf(phases, tops);
      var bp := Breakpoints(c.topRanges);
      var cands := Candidates(bp, c.topRanges);
      WellFormed(c.merged) && Separated(c.merged) && Within(c.merged, 0.0, 1.0) &&
      0.0 <= c.expectedPct <= 100.0 &&
      c.fullCatalogInIntervals <= |phases| &&
      (InUnion(cands, x) ==> InUnion(c.merged, x)) &&
      (InUnion(c.merged, x) ==> NearUnion(cands, x)) &&
      (forall s :: s in cands ==> (exists i :: 0 <= i < |bp| - 1 && s == Span(bp[i], bp[i + 1]) &&
                                    VoteCount(c.topRanges, Midpoint(bp[i], bp[i + 1])) >= MIN_VOTES))
  {
    var ranges := RangesByK(tops);
    var spans := Flatten(ranges);
    forall i | 0 <= i < |spans|
      ensures 0.0 <= spans[i].lo <= spans[i].hi <= 1.0
    {
      var s := spans[i];
      assert s in spans;
      var q :| 0 <= q < |ranges| && s in ranges[q];
      var a :| 0 <= a < |ranges[q]| && ranges[q][a] == s;
    }
    BreakpointsSpan(ranges);
    var bp := Breakpoints(ranges);
    CandidatesSpec(bp, ranges);
    var cands := Candidates(bp, ranges);
    MergedSeparated(cands);
    MergedWithin(cands, 0.0, 1.0);
    ExpectedPctBounds(cands);
    MergedCovers(cands, x);
    MergedReach(cands, x);
  }

  /** `phase_coherence_analysis` on the clamped solar phases, which are
   *  below 1: `np.bincount` raises ValueError on the negative bin of a
   *  negative phase; otherwise the top bins of each bin count, then the
   *  breakpoints, the voted sub-intervals, their merge and the events
   *  inside it. */
  method PhaseCoherenceAnalysis(phases: seq<real>) returns (r: Result<Coherence>)
    requires forall i :: 0 <= i < |phases| ==> phases[i] < 1.0
    ensures r.Failure? <==> exists i :: 0 <= i < |phases| && phases[i] < 0.0
    ensures r.Success? ==> |r.value.topBins| == |BIN_COUNTS| && TopsInRange(r.value.topBins)
    ensures r.Success? ==> forall q :: 0 <= q < |BIN_COUNTS| ==>
      IsTopSelection(Deviations(phases, BIN_COUNTS[q]), r.value.topBins[q], TOP_N)
    ensures r.Success? ==> r.value == CoherenceOf(phases, r.value.topBins)
  {
    if exists i | 0 <= i < |phases| :: phases[i] < 0.0 {
      return Failure(NEGATIVE_BIN_MESSAGE);
    }
    var tops: seq<seq<nat>> := [];
    var q := 0;
    while q < |BIN_COUNTS|
      invariant 0 <= q <= |BIN_COUNTS|
      invariant |tops| == q
      invariant forall r :: 0 <= r < q ==> IsTopSelection(Deviations(phases, BIN_COUNTS[r]), tops[r], TOP_N)
    {
      var k := BIN_COUNTS[q];
      var top := TopBins(Deviations(phases, k), TOP_N);
      tops := tops + [top];
      q := q + 1;
    }
    var ranges := RangesByK(tops);
    var bp := Breakpoints(ranges);
    var cands := SelectCandidates(bp, ranges);
    var merged := MergeIntervals(cands);
    var mask := ElevatedMask(phases, merged);
    r := Success(Coherence(tops, ranges, merged, CountTrue(mask), ExpectedPct(merged)));
  }
}
