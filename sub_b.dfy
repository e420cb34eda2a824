/** Sub-analysis B of the declustering comparison: the elevated intervals
 *  recovered from each mainshock catalog, their classification against the
 *  A1b baselines, and whether each baseline survives declustering. */
module SubB {
  import opened Numerics
  import opened Phase
  import opened Binning
  import opened ElevatedIntervals
  import SubA

  /** The mainshock catalogs of sub-analysis B, in order. */
  const CATALOG_KEYS: seq<string> := ["gk_mainshocks", "reas_mainshocks", "a1b_mainshocks"]

  /** The bin count of the survival summary (position 1 of the bin counts). */
  const SUMMARY_K_INDEX: nat := 1

  // ---------------------------------------------------------------------
  // Coherence inside an interval
  // ---------------------------------------------------------------------

  /** `phase[(phase >= start) & (phase < end)]`: the phases in the
   *  half-open interval, in order. */
  function InWindow(phases: seq<real>, start: real, end: real): (sub: seq<real>)
    ensures |sub| <= |phases|
    ensures forall i :: 0 <= i < |sub| ==> start <= sub[i] < end
  {
    if phases == [] then []
    else
      var last := phases[|phases| - 1];
      InWindow(phases[..|phases| - 1], start, end) + (if start <= last < end then [last] else [])
  }

  /** Every phase in the interval is kept. */
  lemma {:induction false} InWindowComplete(phases: seq<real>, start: real, end: real, i: nat)
    requires i < |phases| && start <= phases[i] < end
    ensures phases[i] in InWindow(phases, start, end)
  {
    if i < |phases| - 1 {
      InWindowComplete(phases[..|phases| - 1], start, end, i);
    }
  }

  /** The interval holds no phase exactly when the filtered list is empty,
   *  and then the coherence is 0.0. */
  lemma {:induction false} InWindowEmpty(phases: seq<real>, start: real, end: real, tr: Transcendentals)
    ensures |InWindow(phases, start, end)| == 0 <==> forall i :: 0 <= i < |phases| ==> !(start <= phases[i] < end)
    ensures |InWindow(phases, start, end)| == 0 ==> IntervalCoherence(phases, start, end, tr) == 0.0
  {
    if exists i :: 0 <= i < |phases| && start <= phases[i] < end {
      var i :| 0 <= i < |phases| && start <= phases[i] < end;
      InWindowComplete(phases, start, end, i);
    }
    if phases != [] {
      InWindowEmpty(phases[..|phases| - 1], start, end, tr);
      assert forall i :: 0 <= i < |phases| - 1 ==> phases[..|phases| - 1][i] == phases[i];
    }
  }

  /** `compute_interval_coherence`: the mean resultant length of the phases
   *  in the interval, 0.0 when there are none. */
  function IntervalCoherence(phases: seq<real>, start: real, end: real, tr: Transcendentals): (r: real)
    ensures |InWindow(phases, start, end)| == 0 ==> r == 0.0
  {
    var sub := InWindow(phases, start, end);
    if |sub| == 0 then 0.0
    else
      var angles := seq(|sub|, i requires 0 <= i < |sub| => TWO_PI * sub[i]);
      var mc := Sum(MapReal(tr.cos, angles)) / |sub| as real;
      var ms := Sum(MapReal(tr.sin, angles)) / |sub| as real;
      tr.sqrt(Square(mc) + Square(ms))
  }

  // ---------------------------------------------------------------------
  // One catalog at one bin count
  // ---------------------------------------------------------------------

  datatype RecoveredInterval = RecoveredInterval(
    phaseStart: real, phaseEnd: real, classification: string, nEvents: nat, rCoherence: real)

  datatype BaselineSurvival = BaselineSurvival(id: nat, survives: bool, matching: seq<RecoveredInterval>)

  /** The record of one merged range of elevated bins. */
  function Recovered(phases: seq<real>, r: BinRange, k: nat, tr: Transcendentals): RecoveredInterval
    requires k > 0
  {
    var p := BinsToPhaseInterval(r.first, r.last, k);
    RecoveredInterval(p.start, p.end, ClassificationLabel(ClassifyInterval(p.start, p.end, A1B_BASELINES)),
      |InWindow(phases, p.start, p.end)|, IntervalCoherence(phases, p.start, p.end, tr))
  }

  /** The merged ranges of elevated bins of a catalog at k bins. */
  function MergedBins(phases: seq<real>, k: nat, tr: Transcendentals): seq<BinRange>
    requires k > 0
  {
    var obs := ClippedCounts(phases, k);
    Runs(ElevatedBins(obs, Threshold(|phases| as real / k as real, tr)))
  }

  function RecoveredIntervals(phases: seq<real>, k: nat, tr: Transcendentals): (rs: seq<RecoveredInterval>)
    requires k > 0
    ensures |rs| == |MergedBins(phases, k, tr)|
  {
    var merged := MergedBins(phases, k, tr);
    seq(|merged|, j requires 0 <= j < |merged| => Recovered(phases, merged[j], k, tr))
  }

  /** The recovered intervals classified as matching baseline id. */
  function Matching(recovered: seq<RecoveredInterval>, id: nat): (m: seq<RecoveredInterval>)
    ensures forall i :: 0 <= i < |m| ==> (m[i] in recovered &&
      m[i].classification == ClassificationLabel(MatchesInterval(id)))
  {
    if recovered == [] then []
    else
      var last := recovered[|recovered| - 1];
      var front := Matching(recovered[..|recovered| - 1], id);
      (if last.classification == ClassificationLabel(MatchesInterval(id)) then front + [last] else front)
  }

  /** An interval is listed as matching exactly when its classification
   *  names the baseline. */
  lemma {:induction false} MatchingComplete(recovered: seq<RecoveredInterval>, id: nat, i: nat)
    requires i < |recovered| && recovered[i].classification == ClassificationLabel(MatchesInterval(id))
    ensures recovered[i] in Matching(recovered, id)
  {
    if i < |recovered| - 1 {
      MatchingComplete(recovered[..|recovered| - 1], id, i);
    }
  }

  function Survival(recovered: seq<RecoveredInterval>): (s: seq<BaselineSurvival>)
    ensures |s| == |A1B_BASELINES|
  {
    seq(|A1B_BASELINES|, b requires 0 <= b < |A1B_BASELINES| =>
      var m := Matching(recovered, A1B_BASELINES[b].id);
      BaselineSurvival(A1B_BASELINES[b].id, |m| > 0, m))
  }

  /** A baseline survives exactly when one of the recovered intervals of
   *  the catalog is classified as matching it. */
  lemma SurvivalIff(phases: seq<real>, k: nat, tr: Transcendentals, b: nat)
    requires k > 0 && b < |A1B_BASELINES|
    ensures var rec := RecoveredIntervals(phases, k, tr);
      Survival(rec)[b].survives <==>
      exists j :: 0 <= j < |rec| &&
        ClassifyInterval(rec[j].phaseStart, rec[j].phaseEnd, A1B_BASELINES) == MatchesInterval(A1B_BASELINES[b].id)
  {
    var rec := RecoveredIntervals(phases, k, tr);
    var id := A1B_BASELINES[b].id;
    var m := Matching(rec, id);
    if |m| > 0 {
      assert m[0] in rec;
      var j :| 0 <= j < |rec| && rec[j] == m[0];
      var c := ClassifyInterval(rec[j].phaseStart, rec[j].phaseEnd, A1B_BASELINES);
      ClassificationLabelInjective(c, MatchesInterval(id));
    }
    if exists j :: 0 <= j < |rec| &&
        ClassifyInterval(rec[j].phaseStart, rec[j].phaseEnd, A1B_BASELINES) == MatchesInterval(id) {
      var j :| 0 <= j < |rec| &&
        ClassifyInterval(rec[j].phaseStart, rec[j].phaseEnd, A1B_BASELINES) == MatchesInterval(id);
      MatchingComplete(rec, id, j);
    }
  }

  datatype SubBResult = SubBResult(recovered: seq<RecoveredInterval>, survival: seq<BaselineSurvival>)

  function SubBSingle(solarSecs: seq<real>, k: nat, tr: Transcendentals): (r: SubBResult)
    requires k > 0
    ensures |r.survival| == |A1B_BASELINES|
  {
    var rec := RecoveredIntervals(SolarPhases(solarSecs), k, tr);
    SubBResult(rec, Survival(rec))
  }

  /** The loop of `run_sub_b_single` over the merged ranges. */
  method BuildRecovered(phases: seq<real>, merged: seq<BinRange>, k: nat, tr: Transcendentals)
    returns (recovered: seq<RecoveredInterval>)
    requires k > 0
    ensures recovered == seq(|merged|, j requires 0 <= j < |merged| => Recovered(phases, merged[j], k, tr))
  {
    recovered := [];
    var j := 0;
    while j < |merged|
      invariant 0 <= j <= |merged|
      invariant |recovered| == j
      invariant forall q :: 0 <= q < j ==> recovered[q] == Recovered(phases, merged[q], k, tr)
    {
      var p := BinsToPhaseInterval(merged[j].first, merged[j].last, k);
      var classification := ClassificationLabel(ClassifyInterval(p.start, p.end, A1B_BASELINES));
      var coherence := IntervalCoherence(phases, p.start, p.end, tr);
      var nIn := |InWindow(phases, p.start, p.end)|;
      recovered := recovered + [RecoveredInterval(p.start, p.end, classification, nIn, coherence)];
      j := j + 1;
    }
  }

  /** The loop of `run_sub_b_single` over the baselines. */
  method BuildSurvival(recovered: seq<RecoveredInterval>) returns (survival: seq<BaselineSurvival>)
    ensures survival == Survival(recovered)
  {
    survival := [];
    var b := 0;
    while b < |A1B_BASELINES|
      invariant 0 <= b <= |A1B_BASELINES|
      invariant |survival| == b
      invariant forall q :: 0 <= q < b ==> survival[q] == Survival(recovered)[q]
    {
      var matched := Matching(recovered, A1B_BASELINES[b].id);
      survival := survival + [BaselineSurvival(A1B_BASELINES[b].id, |matched| > 0, matched)];
      b := b + 1;
    }
  }

  /** `run_sub_b_single`: bins the catalog, merges the elevated bins,
   *  records each range, then looks up every baseline among the records. */
  method RunSubBSingle(solarSecs: seq<real>, k: nat, tr: Transcendentals) returns (r: SubBResult)
    requires k > 0
    ensures r == SubBSingle(solarSecs, k, tr)
  {
    var n := |solarSecs|;
    var phases := SolarPhases(solarSecs);
    var obs := ClippedCounts(phases, k);
    var expectedPerBin := n as real / k as real;
    var elevated := ElevatedBins(obs, Threshold(expectedPerBin, tr));
    var merged := MergeAdjacentBins(elevated);
    assert merged == MergedBins(phases, k, tr);
    var recovered := BuildRecovered(phases, merged, k, tr);
    var survival := BuildSurvival(recovered);
    r := SubBResult(recovered, survival);
  }

  // ---------------------------------------------------------------------
  // All catalogs and the survival summary
  // ---------------------------------------------------------------------

  function SurvivalWord(survives: bool): string
  {
    if survives then "survives" else "absent"
  }

  /** A catalog's results at every bin count. */
  function CatalogRow(solarSecs: seq<real>, tr: Transcendentals): (row: seq<SubBResult>)
    ensures |row| == |SubA.BIN_COUNTS|
    ensures forall ki :: 0 <= ki < |row| ==> |row[ki].survival| == |A1B_BASELINES|
  {
    seq(|SubA.BIN_COUNTS|, ki requires 0 <= ki < |SubA.BIN_COUNTS| => SubBSingle(solarSecs, SubA.BIN_COUNTS[ki], tr))
  }

  /** The results of every catalog. */
  function AllResults(catalogs: seq<seq<real>>, tr: Transcendentals): (rs: seq<seq<SubBResult>>)
    ensures |rs| == |catalogs|
    ensures forall c :: 0 <= c < |rs| ==> rs[c] == CatalogRow(catalogs[c], tr)
  {
    seq(|catalogs|, c requires 0 <= c < |catalogs| => CatalogRow(catalogs[c], tr))
  }

  /** The summary entry of baseline b and method m: the word for the
   *  method's survival at the summary bin count. */
  function SurvivalSummary(results: seq<seq<SubBResult>>): (s: seq<seq<string>>)
    requires |results| == |CATALOG_KEYS|
    requires forall c :: 0 <= c < |results| ==> (|results[c]| == |SubA.BIN_COUNTS| &&
      |results[c][SUMMARY_K_INDEX].survival| == |A1B_BASELINES|)
    ensures |s| == |A1B_BASELINES|
    ensures forall b :: 0 <= b < |s| ==> |s[b]| == |CATALOG_KEYS|
  {
    seq(|A1B_BASELINES|, b requires 0 <= b < |A1B_BASELINES| =>
      seq(|CATALOG_KEYS|, m requires 0 <= m < |CATALOG_KEYS| =>
        SurvivalWord(results[m][SUMMARY_K_INDEX].survival[b].survives)))
  }

  /** The summary says "survives" exactly when the baseline is matched by
   *  a recovered interval of that catalog at k = 24, and "absent"
   *  otherwise. */
  lemma SurvivalSummarySpec(catalogs: seq<seq<real>>, tr: Transcendentals, b: nat, m: nat)
    requires |catalogs| == |CATALOG_KEYS|
    requires b < |A1B_BASELINES| && m < |CATALOG_KEYS|
    ensures var rec := RecoveredIntervals(SolarPhases(catalogs[m]), 24, tr);
      var word := SurvivalSummary(AllResults(catalogs, tr))[b][m];
      (word == "survives" <==>
        exists j :: 0 <= j < |rec| &&
          ClassifyInterval(rec[j].phaseStart, rec[j].phaseEnd, A1B_BASELINES) == MatchesInterval(A1B_BASELINES[b].id)) &&
      (word == "survives" || word == "absent")
  {
    assert AllResults(catalogs, tr)[m][SUMMARY_K_INDEX] == SubBSingle(catalogs[m], 24, tr);
    SurvivalIff(SolarPhases(catalogs[m]), 24, tr, b);
  }

  /** One catalog at every bin count. */
  method CatalogResults(solarSecs: seq<real>, tr: Transcendentals) returns (row: seq<SubBResult>)
    ensures row == CatalogRow(solarSecs, tr)
  {
    row := [];
    var ki := 0;
    while ki < |SubA.BIN_COUNTS|
      invariant 0 <= ki <= |SubA.BIN_COUNTS|
      invariant row == CatalogRow(solarSecs, tr)[..ki]
    {
      var single := RunSubBSingle(solarSecs, SubA.BIN_COUNTS[ki], tr);
      assert CatalogRow(solarSecs, tr)[..ki + 1] == CatalogRow(solarSecs, tr)[..ki] + [single];
      row := row + [single];
      ki := ki + 1;
    }
  }

  /** The summary loops of `run_sub_b`. */
  method BuildSurvivalSummary(results: seq<seq<SubBResult>>) returns (summary: seq<seq<string>>)
    requires |results| == |CATALOG_KEYS|
    requires forall c :: 0 <= c < |results| ==> (|results[c]| == |SubA.BIN_COUNTS| &&
      |results[c][SUMMARY_K_INDEX].survival| == |A1B_BASELINES|)
    ensures summary == SurvivalSummary(results)
  {
    summary := [];
    var b := 0;
    while b < |A1B_BASELINES|
      invariant 0 <= b <= |A1B_BASELINES|
      invariant summary == SurvivalSummary(results)[..b]
    {
      var entry: seq<string> := [];
      var m := 0;
      while m < |CATALOG_KEYS|
        invariant 0 <= m <= |CATALOG_KEYS|
        invariant entry == SurvivalSummary(results)[b][..m]
      {
        entry := entry + [SurvivalWord(results[m][SUMMARY_K_INDEX].survival[b].survives)];
        m := m + 1;
      }
      assert entry == SurvivalSummary(results)[b];
      summary := summary + [entry];
      b := b + 1;
    }
  }

  /** `run_sub_b`: every mainshock catalog at every bin count, then the
   *  survival summary at k = 24. */
  method RunSubB(catalogs: seq<seq<real>>, tr: Transcendentals)
    returns (results: seq<seq<SubBResult>>, summary: seq<seq<string>>)
    requires |catalogs| == |CATALOG_KEYS|
    ensures results == AllResults(catalogs, tr)
    ensures summary == SurvivalSummary(results)
  {
    results := [];
    var c := 0;
    while c < |CATALOG_KEYS|
      invariant 0 <= c <= |CATALOG_KEYS|
      invariant results == AllResults(catalogs, tr)[..c]
    {
      var row := CatalogResults(catalogs[c], tr);
      results := results + [row];
      c := c + 1;
    }
    summary := BuildSurvivalSummary(results);
  }
}
