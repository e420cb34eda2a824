/** Phase binning shared by the scripts: the clipped bin index of
 *  `np.clip(np.floor(phase * k), 0, k - 1)`, the `np.bincount` histogram
 *  and Pearson's chi-square sum against a uniform expectation. */
module Binning {
  import opened Numerics

  /** `np.clip(i, 0, k - 1)`. */
  function Clip(i: int, k: nat): (b: nat)
    requires k > 0
    ensures b < k
    ensures 0 <= i < k ==> b == i
  {
    if i < 0 then 0 else if i >= k then k - 1 else i
  }

  /** The clipped bin of a phase among k equal bins. */
  function BinIndex(phase: real, k: nat): (b: nat)
    requires k > 0
    ensures b < k
  {
    Clip((phase * k as real).Floor, k)
  }

  /** A phase in [0, 1) falls in the bin whose range [b/k, (b+1)/k) holds it. */
  lemma BinIndexBounds(phase: real, k: nat)
    requires k > 0 && 0.0 <= phase < 1.0
    ensures var b := BinIndex(phase, k); b as real <= phase * k as real < b as real + 1.0
  {
    var x := phase * k as real;
    assert 0.0 <= x < k as real;
  }

  /** Python's `int()` and numpy's `astype(int)`: truncation toward zero. */
  function Trunc(x: real): (r: int)
    ensures 0.0 <= x ==> r as real <= x < r as real + 1.0
    ensures x < 0.0 ==> r as real - 1.0 < x <= r as real
  {
    if x >= 0.0 then x.Floor else -((-x).Floor)
  }

  /** Truncating instead of flooring before the clip makes no difference:
   *  the two only disagree on negative arguments, which both clip to 0. */
  lemma TruncClipIsBinIndex(phase: real, k: nat)
    requires k > 0
    ensures Clip(Trunc(phase * k as real), k) == BinIndex(phase, k)
  {
  }

  /** Bin indices of a whole sequence of phases. */
  function BinIndices(phases: seq<real>, k: nat): (r: seq<nat>)
    requires k > 0
    ensures |r| == |phases|
    ensures forall i :: 0 <= i < |r| ==> r[i] < k
  {
    seq(|phases|, i requires 0 <= i < |phases| => BinIndex(phases[i], k))
  }

  /** `np.bincount(bins, minlength=k)` for indices below k: entry b counts
   *  the occurrences of b. */
  function Histogram(bins: seq<nat>, k: nat): (r: seq<nat>)
    requires forall i :: 0 <= i < |bins| ==> bins[i] < k
    ensures |r| == k
  {
    if bins == [] then seq(k, b => 0)
    else
      var front := bins[..|bins| - 1];
      var last := bins[|bins| - 1];
      assert bins == front + [last];
      var h := Histogram(front, k);
      h[last := h[last] + 1]
  }

  /** Entry b of the histogram counts the occurrences of b. */
  lemma {:induction false} HistogramSpec(bins: seq<nat>, k: nat)
    requires forall i :: 0 <= i < |bins| ==> bins[i] < k
    ensures forall b :: 0 <= b < k ==> Histogram(bins, k)[b] == multiset(bins)[b]
  {
    if bins != [] {
      var front := bins[..|bins| - 1];
      assert bins == front + [bins[|bins| - 1]];
      HistogramSpec(front, k);
    }
  }

  function SumNat(s: seq<nat>): nat
  {
    if s == [] then 0 else SumNat(s[..|s| - 1]) + s[|s| - 1]
  }

  lemma {:induction false} SumNatIncrement(s: seq<nat>, b: nat)
    requires b < |s|
    ensures SumNat(s[b := s[b] + 1]) == SumNat(s) + 1
  {
    var t := s[b := s[b] + 1];
    if b == |s| - 1 {
      assert t[..|t| - 1] == s[..|s| - 1];
    } else {
      assert t[..|t| - 1] == s[..|s| - 1][b := s[b] + 1];
      SumNatIncrement(s[..|s| - 1], b);
    }
  }

  lemma {:induction false} SumNatZeros(k: nat)
    ensures SumNat(seq(k, b => 0)) == 0
  {
    if k > 0 {
      assert seq(k, b => 0)[..k - 1] == seq(k - 1, b => 0);
      SumNatZeros(k - 1);
    }
  }

  /** Every phase lands in exactly one bin: the counts add up to n. */
  lemma {:induction false} HistogramTotal(bins: seq<nat>, k: nat)
    requires forall i :: 0 <= i < |bins| ==> bins[i] < k
    ensures SumNat(Histogram(bins, k)) == |bins|
  {
    if bins == [] {
      SumNatZeros(k);
    } else {
      var front := bins[..|bins| - 1];
      HistogramTotal(front, k);
      SumNatIncrement(Histogram(front, k), bins[|bins| - 1]);
    }
  }

  /** The observed counts of a catalog at k bins, clipped indices. */
  function ClippedCounts(phases: seq<real>, k: nat): (r: seq<nat>)
    requires k > 0
    ensures |r| == k
    ensures SumNat(r) == |phases|
  {
    HistogramTotal(BinIndices(phases, k), k);
    Histogram(BinIndices(phases, k), k)
  }

  /** Count b is the number of phases whose clipped bin is b. */
  lemma ClippedCountsSpec(phases: seq<real>, k: nat)
    requires k > 0
    ensures forall b :: 0 <= b < k ==> ClippedCounts(phases, k)[b] == multiset(BinIndices(phases, k))[b]
  {
    HistogramSpec(BinIndices(phases, k), k);
  }

  /** `scipy.stats.chisquare` statistic against a uniform expected count e:
   *  the sum of (O - e)^2 / e. */
  function Pearson(obs: seq<nat>, e: real): (r: real)
    requires e > 0.0
    ensures r >= 0.0
  {
    if obs == [] then 0.0
    else
      var term := Square(obs[|obs| - 1] as real - e);
      QuotientNonNegative(term, e);
      Pearson(obs[..|obs| - 1], e) + term / e
  }

  /** Perfectly uniform counts give a statistic of zero. */
  lemma {:induction false} PearsonUniform(obs: seq<nat>, e: real)
    requires e > 0.0
    requires forall i :: 0 <= i < |obs| ==> obs[i] as real == e
    ensures Pearson(obs, e) == 0.0
  {
    if obs != [] {
      var front := obs[..|obs| - 1];
      assert forall i :: 0 <= i < |front| ==> front[i] == obs[i];
      PearsonUniform(front, e);
      assert obs[|obs| - 1] as real - e == 0.0;
    }
  }
}
