/** Sub-analysis A of the declustering comparison: the phase histogram and
 *  chi-square statistic of a catalog at one bin count, and the chi-square
 *  suppression of each mainshock catalog relative to the raw catalog.
 *  The chi-square p-value, Rayleigh and Cramer's V statistics come from
 *  scipy and numpy and are not part of this model. */
module SubA {
  import opened Wrappers
  import opened Numerics
  import opened Phase
  import opened Binning

  /** The bin counts every sub-analysis runs at. */
  const BIN_COUNTS: seq<nat> := [16, 24, 32]

  /** The catalogs of sub-analysis A, in the order they are processed. */
  const CATALOG_KEYS: seq<string> := ["raw", "gk_mainshocks", "reas_mainshocks", "a1b_mainshocks"]

  /** The mainshock methods of the suppression summary, in order; method m
   *  is catalog m + 1. */
  const METHOD_LABELS: seq<string> := ["gk", "reas", "a1b"]

  datatype SubAStats = SubAStats(n: nat, k: nat, expectedPerBin: real, chi2: real, binCounts: seq<nat>)

  function EmptyMessage(name: string): string
  {
    "Catalog " + name + " is empty."
  }

  /** `run_sub_a_single`: a `ValueError` on an empty catalog; otherwise the
   *  clipped phase histogram, the uniform expectation n / k and Pearson's
   *  statistic against it. */
  function SubASingle(solarSecs: seq<real>, name: string, k: nat): (r: Result<SubAStats>)
    requires k > 0
    ensures r.Failure? <==> |solarSecs| == 0
    ensures r.Failure? ==> r.error == EmptyMessage(name)
    ensures r.Success? ==>
      r.value.n == |solarSecs| && r.value.k == k && |r.value.binCounts| == k &&
      SumNat(r.value.binCounts) == |solarSecs| && r.value.chi2 >= 0.0 &&
      r.value.expectedPerBin == |solarSecs| as real / k as real
  {
    var n := |solarSecs|;
    if n == 0 then Failure(EmptyMessage(name))
    else
      var obs := ClippedCounts(SolarPhases(solarSecs), k);
      var expected := n as real / k as real;
      QuotientPositive(n as real, k as real);
      Success(SubAStats(n, k, expected, Pearson(obs, expected), obs))
  }

  /** A catalog spread perfectly evenly, m events in each of the k bins,
   *  has a statistic of 0. */
  lemma SubASingleUniform(solarSecs: seq<real>, name: string, k: nat, m: nat)
    requires k > 0 && |solarSecs| == m * k && m > 0
    requires forall b :: 0 <= b < k ==> ClippedCounts(SolarPhases(solarSecs), k)[b] == m
    ensures SubASingle(solarSecs, name, k).value.chi2 == 0.0
  {
    UniformCountsPearson(ClippedCounts(SolarPhases(solarSecs), k), k, m);
  }

  lemma UniformCountsPearson(obs: seq<nat>, k: nat, m: nat)
    requires k > 0 && m > 0 && |obs| == k
    requires forall b :: 0 <= b < k ==> obs[b] == m
    ensures (m * k) as real / k as real > 0.0
    ensures Pearson(obs, (m * k) as real / k as real) == 0.0
  {
    var e := (m * k) as real / k as real;
    QuotientOfProduct(m as real, k as real, (m * k) as real);
    PearsonUniform(obs, e);
  }

  /** The chi-square suppression percentage of a mainshock catalog. */
  function Suppression(chi2Raw: real, chi2Mainshock: real): (pct: real)
    ensures chi2Raw <= 0.0 ==> pct == 0.0
  {
    if chi2Raw > 0.0 then (chi2Raw - chi2Mainshock) / chi2Raw * 100.0 else 0.0
  }

  /** With a positive raw statistic the suppression is positive exactly
   *  when the mainshock statistic is smaller, zero exactly when the two
   *  agree, at most 100 for a non-negative mainshock statistic, and exactly
   *  100 when the mainshock statistic vanishes. */
  lemma SuppressionSign(chi2Raw: real, chi2Mainshock: real)
    requires chi2Raw > 0.0
    ensures Suppression(chi2Raw, chi2Mainshock) > 0.0 <==> chi2Mainshock < chi2Raw
    ensures Suppression(chi2Raw, chi2Mainshock) == 0.0 <==> chi2Mainshock == chi2Raw
    ensures chi2Mainshock >= 0.0 ==> Suppression(chi2Raw, chi2Mainshock) <= 100.0
    ensures chi2Mainshock == 0.0 ==> Suppression(chi2Raw, chi2Mainshock) == 100.0
  {
    var d := chi2Raw - chi2Mainshock;
    var q := d / chi2Raw;
    assert q * chi2Raw == d by { QuotientTimes(d, chi2Raw); }
    if d > 0.0 {
      QuotientPositive(d, chi2Raw);
    } else if d < 0.0 {
      QuotientPositive(-d, chi2Raw);
      assert -d / chi2Raw == -q;
    }
    if chi2Mainshock >= 0.0 {
      QuotientAtMostOne(d, chi2Raw);
    }
    if chi2Mainshock == 0.0 {
      QuotientSelf(chi2Raw);
    }
  }

  datatype SuppressionAtK = SuppressionAtK(chi2Raw: real, chi2Mainshock: real, pct: real)

  datatype SuppressionEntry = SuppressionEntry(methodLabel: string, byK: seq<SuppressionAtK>)

  /** A catalog's statistics at every bin count. */
  function StatsAtAllK(solarSecs: seq<real>): (r: seq<SubAStats>)
    requires |solarSecs| > 0
    ensures |r| == |BIN_COUNTS|
    ensures forall ki :: 0 <= ki < |r| ==> r[ki].k == BIN_COUNTS[ki]
  {
    seq(|BIN_COUNTS|, ki requires 0 <= ki < |BIN_COUNTS| => SubASingle(solarSecs, "", BIN_COUNTS[ki]).value)
  }

  /** The suppression summary built from the four catalogs' results: one
   *  entry per mainshock method, each comparing its statistic with the raw
   *  catalog's at every bin count. */
  function SuppressionSummary(results: seq<seq<SubAStats>>): (s: seq<SuppressionEntry>)
    requires |results| == |CATALOG_KEYS|
    requires forall c :: 0 <= c < |results| ==> |results[c]| == |BIN_COUNTS|
    ensures |s| == |METHOD_LABELS|
    ensures forall m :: 0 <= m < |s| ==> s[m].methodLabel == METHOD_LABELS[m] && |s[m].byK| == |BIN_COUNTS|
  {
    seq(|METHOD_LABELS|, m requires 0 <= m < |METHOD_LABELS| =>
      SuppressionEntry(METHOD_LABELS[m], seq(|BIN_COUNTS|, ki requires 0 <= ki < |BIN_COUNTS| =>
        SuppressionAtK(results[0][ki].chi2, results[m + 1][ki].chi2,
          Suppression(results[0][ki].chi2, results[m + 1][ki].chi2)))))
  }

  /** The index of the first empty catalog from position i on. */
  function FirstEmpty(catalogs: seq<seq<real>>, i: nat): (f: Option<nat>)
    decreases |catalogs| - i
    ensures f.Some? ==> (i <= f.value < |catalogs| && |catalogs[f.value]| == 0 &&
      forall c :: i <= c < f.value ==> |catalogs[c]| > 0)
    ensures f.None? ==> forall c :: i <= c < |catalogs| ==> |catalogs[c]| > 0
  {
    if i >= |catalogs| then None
    else if |catalogs[i]| == 0 then Some(i)
    else FirstEmpty(catalogs, i + 1)
  }

  datatype SubAOutput = SubAOutput(results: seq<seq<SubAStats>>, suppressionSummary: seq<SuppressionEntry>)

  /** The inner loop of `run_sub_a`: one catalog at every bin count. */
  method CatalogStats(solarSecs: seq<real>, name: string) returns (r: Result<seq<SubAStats>>)
    ensures r.Failure? <==> |solarSecs| == 0
    ensures r.Failure? ==> r.error == EmptyMessage(name)
    ensures r.Success? ==> |solarSecs| > 0 && r.value == StatsAtAllK(solarSecs)
  {
    if |solarSecs| == 0 {
      var single := SubASingle(solarSecs, name, BIN_COUNTS[0]);
      return Failure(single.error);
    }
    var row: seq<SubAStats> := [];
    var ki := 0;
    while ki < |BIN_COUNTS|
      invariant 0 <= ki <= |BIN_COUNTS|
      invariant row == StatsAtAllK(solarSecs)[..ki]
    {
      var single := SubASingle(solarSecs, name, BIN_COUNTS[ki]);
      SubASingleNameFree(solarSecs, name, BIN_COUNTS[ki]);
      row := row + [single.value];
      ki := ki + 1;
    }
    r := Success(row);
  }

  /** The suppression loops of `run_sub_a`. */
  method BuildSuppressionSummary(results: seq<seq<SubAStats>>) returns (summary: seq<SuppressionEntry>)
    requires |results| == |CATALOG_KEYS|
    requires forall c :: 0 <= c < |results| ==> |results[c]| == |BIN_COUNTS|
    ensures summary == SuppressionSummary(results)
  {
    summary := [];
    var m := 0;
    while m < |METHOD_LABELS|
      invariant 0 <= m <= |METHOD_LABELS|
      invariant summary == SuppressionSummary(results)[..m]
    {
      var byK: seq<SuppressionAtK> := [];
      var ki := 0;
      while ki < |BIN_COUNTS|
        invariant 0 <= ki <= |BIN_COUNTS|
        invariant byK == SuppressionSummary(results)[m].byK[..ki]
      {
        var chi2Raw := results[0][ki].chi2;
        var chi2Ms := results[m + 1][ki].chi2;
        byK := byK + [SuppressionAtK(chi2Raw, chi2Ms, Suppression(chi2Raw, chi2Ms))];
        ki := ki + 1;
      }
      assert byK == SuppressionSummary(results)[m].byK;
      summary := summary + [SuppressionEntry(METHOD_LABELS[m], byK)];
      m := m + 1;
    }
  }

  /** `run_sub_a`: the statistics of every catalog at every bin count, then
   *  the suppression summary. The empty-catalog error of the first empty
   *  catalog, in processing order, escapes. */
  method RunSubA(catalogs: seq<seq<real>>) returns (r: Result<SubAOutput>)
    requires |catalogs| == |CATALOG_KEYS|
    ensures r.Failure? <==> FirstEmpty(catalogs, 0).Some?
    ensures r.Failure? ==> r.error == EmptyMessage(CATALOG_KEYS[FirstEmpty(catalogs, 0).value])
    ensures r.Success? ==>
      |r.value.results| == |CATALOG_KEYS| &&
      (forall c :: 0 <= c < |CATALOG_KEYS| ==> |catalogs[c]| > 0 && r.value.results[c] == StatsAtAllK(catalogs[c])) &&
      r.value.suppressionSummary == SuppressionSummary(r.value.results)
  {
    var results: seq<seq<SubAStats>> := [];
    var c := 0;
    while c < |CATALOG_KEYS|
      invariant 0 <= c <= |CATALOG_KEYS|
      invariant |results| == c
      invariant forall q :: 0 <= q < c ==> |catalogs[q]| > 0 && results[q] == StatsAtAllK(catalogs[q])
    {
      var row := CatalogStats(catalogs[c], CATALOG_KEYS[c]);
      if row.Failure? {
        FirstEmptyAt(catalogs, c);
        return Failure(row.error);
      }
      results := results + [row.value];
      c := c + 1;
    }
    FirstEmptyNone(catalogs);
    var summary := BuildSuppressionSummary(results);
    r := Success(SubAOutput(results, summary));
  }

  /** The statistics do not depend on the catalog name, which only enters
   *  the error message. */
  lemma SubASingleNameFree(solarSecs: seq<real>, name: string, k: nat)
    requires k > 0 && |solarSecs| > 0
    ensures SubASingle(solarSecs, name, k) == SubASingle(solarSecs, "", k)
  {
  }

  lemma FirstEmptyAt(catalogs: seq<seq<real>>, c: nat)
    requires c < |catalogs| && |catalogs[c]| == 0
    requires forall q :: 0 <= q < c ==> |catalogs[q]| > 0
    ensures FirstEmpty(catalogs, 0) == Some(c)
  {
  }

  lemma FirstEmptyNone(catalogs: seq<seq<real>>)
    requires forall q :: 0 <= q < |catalogs| ==> |catalogs[q]| > 0
    ensures FirstEmpty(catalogs, 0).None?
  {
  }
}
