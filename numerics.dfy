/** Exact real arithmetic shared by every script: fractional parts, sums,
 *  Python's rounding, and the transcendental functions the scripts take
 *  from numpy, which the model receives as function values. */
module Numerics {

  /** `x % 1.0` in Python: the floor-based remainder, always in [0, 1). */
  function Frac(x: real): (r: real)
    ensures 0.0 <= r < 1.0
    ensures (x - r).Floor as real == x - r
  {
    x - x.Floor as real
  }

  /** The fractional part is the unique value in [0, 1) that differs from x
   *  by a whole number. */
  lemma FracUnique(x: real, y: real, m: int)
    requires 0.0 <= y < 1.0 && x == m as real + y
    ensures Frac(x) == y
  {
    assert m as real <= x < m as real + 1.0;
    assert x.Floor == m;
  }

  /** Adding a whole number leaves the fractional part unchanged. */
  lemma FracShift(x: real, m: int)
    ensures Frac(x + m as real) == Frac(x)
  {
    FracUnique(x + m as real, Frac(x), x.Floor + m);
  }

  /** x * x, never negative. */
  function Square(x: real): (r: real)
    ensures r >= 0.0
  {
    x * x
  }

  /* Small facts of real arithmetic, each stated over plain variables so
   * that the solver can prove it in isolation. */

  lemma ProductPositive(a: real, b: real)
    requires a > 0.0 && b > 0.0
    ensures a * b > 0.0
  {
  }

  lemma QuotientNonNegative(x: real, e: real)
    requires x >= 0.0 && e > 0.0
    ensures x / e >= 0.0
  {
  }

  lemma QuotientPositive(x: real, e: real)
    requires x > 0.0 && e > 0.0
    ensures x / e > 0.0
  {
  }

  lemma QuotientAtMostOne(x: real, e: real)
    requires x <= e && e > 0.0
    ensures x / e <= 1.0
  {
  }

  lemma QuotientAtLeastOne(x: real, e: real)
    requires x >= e && e > 0.0
    ensures x / e >= 1.0
  {
  }

  lemma QuotientMonotone(a: real, b: real, k: real)
    requires a < b && k > 0.0
    ensures a / k < b / k
  {
  }

  lemma QuotientSum(a: real, b: real, w: real)
    requires w > 0.0
    ensures a / w + b / w == (a + b) / w
  {
  }

  lemma QuotientSelf(w: real)
    requires w > 0.0
    ensures w / w == 1.0
  {
  }

  /** Multiplying by a bin width 1 / k is dividing by k. */
  lemma TimesReciprocal(s: real, k: real)
    requires k > 0.0
    ensures s * (1.0 / k) == s / k
  {
  }

  lemma QuotientTimes(x: real, k: real)
    requires k > 0.0
    ensures (x / k) * k == x
  {
  }

  lemma QuotientOfProduct(x: real, k: real, n: real)
    requires k > 0.0 && x * k == n
    ensures x == n / k
  {
  }

  /** Squaring is strictly increasing on the non-negative reals. */
  lemma SquareMonotone(d: real, s: real)
    requires d > s >= 0.0
    ensures d * d > s * s
  {
    ProductPositive(d - s, d + s);
    assert (d - s) * (d + s) == d * d - s * s;
  }

  lemma SquareMonotoneConverse(d: real, s: real)
    requires d > 0.0 && s >= 0.0 && d * d > s * s
    ensures d > s
  {
  }

  /** Python's `round` on a float that stays a float: round half to even. */
  function RoundHalfEven(x: real): (r: int)
    ensures -0.5 <= r as real - x <= 0.5
    ensures (r as real - x == 0.5 || x - r as real == 0.5) ==> r % 2 == 0
  {
    var f := x.Floor;
    var d := x - f as real;
    if d < 0.5 then f
    else if d > 0.5 then f + 1
    else if f % 2 == 0 then f
    else f + 1
  }

  /** `round(x, 1)`, taken on the exact real value. */
  function Round1(x: real): (r: real)
    ensures -0.05 <= r - x <= 0.05
    ensures (r * 10.0).Floor as real == r * 10.0
  {
    RoundHalfEven(x * 10.0) as real / 10.0
  }

  /** Sum of a sequence of reals, `np.sum`. */
  function Sum(s: seq<real>): real
  {
    if s == [] then 0.0 else Sum(s[..|s| - 1]) + s[|s| - 1]
  }

  lemma {:induction false} SumAppend(s: seq<real>, t: seq<real>)
    ensures Sum(s + t) == Sum(s) + Sum(t)
  {
    if t == [] {
      assert s + t == s;
    } else {
      assert (s + t)[..|s + t| - 1] == s + t[..|t| - 1];
      SumAppend(s, t[..|t| - 1]);
    }
  }

  /** Python's `max` and `min` of a non-empty sequence. */
  function MaxOf(vs: seq<real>): (m: real)
    requires |vs| > 0
    ensures forall j :: 0 <= j < |vs| ==> vs[j] <= m
    ensures exists j :: 0 <= j < |vs| && vs[j] == m
  {
    if |vs| == 1 then vs[0]
    else
      var m := MaxOf(vs[..|vs| - 1]);
      assert forall j :: 0 <= j < |vs| - 1 ==> vs[..|vs| - 1][j] == vs[j];
      if vs[|vs| - 1] > m then vs[|vs| - 1] else m
  }

  function MinOf(vs: seq<real>): (m: real)
    requires |vs| > 0
    ensures forall j :: 0 <= j < |vs| ==> m <= vs[j]
    ensures exists j :: 0 <= j < |vs| && vs[j] == m
  {
    if |vs| == 1 then vs[0]
    else
      var m := MinOf(vs[..|vs| - 1]);
      assert forall j :: 0 <= j < |vs| - 1 ==> vs[..|vs| - 1][j] == vs[j];
      if vs[|vs| - 1] < m then vs[|vs| - 1] else m
  }

  /** Element-wise image of a sequence under a function value. */
  function MapReal(f: real -> real, s: seq<real>): (r: seq<real>)
    ensures |r| == |s| && forall i :: 0 <= i < |s| ==> r[i] == f(s[i])
  {
    seq(|s|, i requires 0 <= i < |s| => f(s[i]))
  }

  /** 2 * numpy.pi, the double nearest to the circle constant. */
  const TWO_PI: real := 6.283185307179586

  /** The foreign floating-point functions the scripts call: numpy's cos,
   *  sin, arctan2, sqrt and exp. The model keeps them uninterpreted. */
  datatype Transcendentals = Transcendentals(
    cos: real -> real,
    sin: real -> real,
    atan2: (real, real) -> real,
    sqrt: real -> real,
    exp: real -> real)

  /** The only fact about exp that the discrete logic relies on:
   *  exp of a non-positive argument is a probability. */
  ghost predicate ExpIsProbability(tr: Transcendentals)
  {
    forall x :: x <= 0.0 ==> 0.0 < tr.exp(x) <= 1.0
  }
}
