/** The phase-normalised chi-square analysis of the ad-hoc scripts: solar,
 *  lunar and diurnal phases normalised by the actual calendar-year length,
 *  the synodic month and the day, validated and clamped into [0, 1), then
 *  binned at k = 8, 16, 24 and 32 with a Bonferroni-corrected significance
 *  flag per test and a robustness flag per metric. */
module NormalizedPhases {
  import opened Numerics
  import opened Wrappers
  import opened Binning
  import opened Calendar

  const METRICS: seq<string> := ["solar_secs", "lunar_secs", "midnight_secs"]
  const PHASE_COLUMNS: seq<string> := ["solar_phase", "lunar_phase", "midnight_phase"]
  const BIN_COUNTS: seq<nat> := [8, 16, 24, 32]
  const ALPHA: real := 0.05
  const N_TESTS: nat := |METRICS| * |BIN_COUNTS|
  const ALPHA_BONFERRONI: real := ALPHA / N_TESTS as real

  /** The largest tolerated overshoot past 1, and the value an overshoot
   *  is clamped to. */
  const CLAMP_TOL: real := 0.01
  const CLAMPED: real := 1.0 - 0.000000001

  /** The catalog columns the phases are computed from. */
  datatype Row = Row(solarSecs: real, solarationYear: int, lunarSecs: real, midnightSecs: real)

  // ---------------------------------------------------------------------
  // compute_phase
  // ---------------------------------------------------------------------

  /** The three raw phase columns, before validation. */
  function RawColumns(rows: seq<Row>): (cols: seq<seq<real>>)
    ensures |cols| == |PHASE_COLUMNS|
    ensures forall c :: 0 <= c < |cols| ==> |cols[c]| == |rows|
  {
    [seq(|rows|, i requires 0 <= i < |rows| => rows[i].solarSecs / YearLengthSeconds(rows[i].solarationYear) as real),
     seq(|rows|, i requires 0 <= i < |rows| => rows[i].lunarSecs / LUNAR_CYCLE_SECS),
     seq(|rows|, i requires 0 <= i < |rows| => rows[i].midnightSecs / DAY_SECS as real)]
  }

  function ClampPhase(x: real): real
  {
    if x >= 1.0 then CLAMPED else x
  }

  function Clamped(p: seq<real>): (r: seq<real>)
    ensures |r| == |p|
    ensures forall i :: 0 <= i < |p| ==> r[i] == ClampPhase(p[i])
  {
    seq(|p|, i requires 0 <= i < |p| => ClampPhase(p[i]))
  }

  function BelowMessage(col: string): string
  {
    "Phase values < 0 for " + col + "."
  }

  function OverMessage(col: string): string
  {
    "Phase values significantly out of [0, 1) for " + col
  }

  predicate AnyBelowZero(p: seq<real>)
  {
    exists i :: 0 <= i < |p| && p[i] < 0.0
  }

  predicate AnyAtLeastOne(p: seq<real>)
  {
    exists i :: 0 <= i < |p| && p[i] >= 1.0
  }

  /** The check of one column: an error for a negative phase, an error
   *  when some phase is 1 or more and the maximum reaches 1 + CLAMP_TOL,
   *  and otherwise the column with every phase of 1 or more clamped. */
  function ColumnCheck(col: string, p: seq<real>): Result<seq<real>>
  {
    if AnyBelowZero(p) then Failure(BelowMessage(col))
    else if |p| > 0 && AnyAtLeastOne(p) && MaxOf(p) >= 1.0 + CLAMP_TOL then Failure(OverMessage(col))
    else Success(Clamped(p))
  }

  /** A column passes exactly when all its phases lie in [0, 1.01); the
   *  clamped column then lies in [0, 1). */
  lemma ColumnCheckSpec(col: string, p: seq<real>)
    ensures ColumnCheck(col, p).Success? <==> forall i :: 0 <= i < |p| ==> 0.0 <= p[i] < 1.0 + CLAMP_TOL
    ensures ColumnCheck(col, p).Success? ==> forall i :: 0 <= i < |p| ==> 0.0 <= ColumnCheck(col, p).value[i] < 1.0
  {
    if !AnyBelowZero(p) && |p| > 0 {
      var m := MaxOf(p);
      if m >= 1.0 + CLAMP_TOL {
        var j :| 0 <= j < |p| && p[j] == m;
        assert p[j] >= 1.0;
      }
    }
  }

  /** The loop of `compute_phase` over the columns, as a value: the first
   *  failing column's error, or all columns checked and clamped. */
  function CheckColumns(raw: seq<seq<real>>): (r: Result<seq<seq<real>>>)
    requires |raw| <= |PHASE_COLUMNS|
    ensures r.Success? ==> |r.value| == |raw|
  {
    if raw == [] then Success([])
    else
      var n := |raw| - 1;
      var front := CheckColumns(raw[..n]);
      if front.Failure? then front
      else
        var last := ColumnCheck(PHASE_COLUMNS[n], raw[n]);
        if last.Failure? then Failure(last.error) else Success(front.value + [last.value])
  }

  /** Once a column fails, later columns are not looked at. */
  lemma {:induction false} CheckColumnsFailurePersists(raw: seq<seq<real>>, c: nat)
    requires c <= |raw| <= |PHASE_COLUMNS|
    requires CheckColumns(raw[..c]).Failure?
    ensures CheckColumns(raw) == CheckColumns(raw[..c])
  {
    if c < |raw| {
      var n := |raw| - 1;
      assert raw[..n][..c] == raw[..c];
      CheckColumnsFailurePersists(raw[..n], c);
    } else {
      assert raw[..c] == raw;
    }
  }

  /** Every column of a successful check is its clamped raw column. */
  lemma {:induction false} CheckColumnsSpec(raw: seq<seq<real>>)
    requires |raw| <= |PHASE_COLUMNS|
    ensures CheckColumns(raw).Success? <==>
      forall c, i :: 0 <= c < |raw| && 0 <= i < |raw[c]| ==> 0.0 <= raw[c][i] < 1.0 + CLAMP_TOL
    ensures CheckColumns(raw).Success? ==>
      forall c :: 0 <= c < |raw| ==> CheckColumns(raw).value[c] == Clamped(raw[c])
  {
    if raw != [] {
      var n := |raw| - 1;
      CheckColumnsSpec(raw[..n]);
      ColumnCheckSpec(PHASE_COLUMNS[n], raw[n]);
      assert forall c :: 0 <= c < n ==> raw[..n][c] == raw[c];
    }
  }

  /** `compute_phase` as a value. */
  function PhaseColumns(rows: seq<Row>): Result<seq<seq<real>>>
  {
    CheckColumns(RawColumns(rows))
  }

  /** `compute_phase` fails exactly when some raw phase is negative or
   *  reaches 1 + CLAMP_TOL; otherwise every phase ends up in [0, 1), a
   *  value at or past 1 as 1 - 1e-9 and every other value unchanged. */
  lemma PhaseColumnsSpec(rows: seq<Row>)
    ensures var raw := RawColumns(rows);
      PhaseColumns(rows).Success? <==>
        forall c, i :: 0 <= c < |raw| && 0 <= i < |rows| ==> 0.0 <= raw[c][i] < 1.0 + CLAMP_TOL
    ensures var raw := RawColumns(rows);
      var r := PhaseColumns(rows);
      r.Success? ==>
        |r.value| == |PHASE_COLUMNS| &&
        (forall c :: 0 <= c < |raw| ==> |r.value[c]| == |rows|) &&
        forall c, i :: 0 <= c < |raw| && 0 <= i < |rows| ==>
          r.value[c][i] == ClampPhase(raw[c][i]) && 0.0 <= r.value[c][i] < 1.0
  {
    CheckColumnsSpec(RawColumns(rows));
  }

  /** The scan for `df[col] < 0`. */
  method AnyBelowZeroIn(a: array<real>) returns (found: bool)
    ensures found <==> AnyBelowZero(a[..])
  {
    var i := 0;
    while i < a.Length
      invariant 0 <= i <= a.Length
      invariant forall j :: 0 <= j < i ==> a[j] >= 0.0
    {
      if a[i] < 0.0 {
        return true;
      }
      i := i + 1;
    }
    return false;
  }

  /** The scan for `df[col] >= 1.0`. */
  method AnyAtLeastOneIn(a: array<real>) returns (found: bool)
    ensures found <==> AnyAtLeastOne(a[..])
  {
    found := false;
    var i := 0;
    while i < a.Length
      invariant 0 <= i <= a.Length
      invariant found <==> exists j :: 0 <= j < i && a[j] >= 1.0
    {
      if a[i] >= 1.0 {
        found := true;
      }
      i := i + 1;
    }
  }

  /** `df[col].max()` of a non-empty column. */
  method MaxIn(a: array<real>) returns (m: real)
    requires a.Length > 0
    ensures m == MaxOf(a[..])
  {
    m := a[0];
    var i := 1;
    while i < a.Length
      invariant 1 <= i <= a.Length
      invariant m == MaxOf(a[..i])
    {
      assert a[..i + 1][..i] == a[..i];
      m := if a[i] > m then a[i] else m;
      i := i + 1;
    }
    assert a[..i] == a[..];
  }

  /** `df.loc[df[col] >= 1.0, col] = 1 - 1e-9`. */
  method ClampInPlace(a: array<real>)
    modifies a
    ensures a[..] == Clamped(old(a[..]))
  {
    var i := 0;
    while i < a.Length
      invariant 0 <= i <= a.Length
      invariant forall j :: 0 <= j < i ==> a[j] == ClampPhase(old(a[j]))
      invariant forall j :: i <= j < a.Length ==> a[j] == old(a[j])
    {
      if a[i] >= 1.0 {
        a[i] := CLAMPED;
      }
      i := i + 1;
    }
  }

  /** The validation of one column in place: the error, or the column with
   *  its overshoots clamped. */
  method ValidateColumn(col: string, a: array<real>) returns (err: Option<string>)
    modifies a
    ensures err.Some? <==> ColumnCheck(col, old(a[..])).Failure?
    ensures err.Some? ==> err.value == ColumnCheck(col, old(a[..])).error && a[..] == old(a[..])
    ensures err.None? ==> a[..] == ColumnCheck(col, old(a[..])).value
  {
    var below := AnyBelowZeroIn(a);
    if below {
      return Some(BelowMessage(col));
    }
    var over := AnyAtLeastOneIn(a);
    if over {
      var maxOver := MaxIn(a);
      if maxOver >= 1.0 + CLAMP_TOL {
        return Some(OverMessage(col));
      }
      ClampInPlace(a);
    } else {
      assert a[..] == Clamped(a[..]);
    }
    err := None;
  }

  /** `compute_phase`: the raw columns into arrays, then the validation
   *  of each column in turn. */
  method ComputePhase(rows: seq<Row>) returns (r: Result<seq<seq<real>>>)
    ensures r == PhaseColumns(rows)
  {
    var raw := RawColumns(rows);
    var cols: seq<seq<real>> := [];
    var c := 0;
    while c < |raw|
      invariant 0 <= c <= |raw|
      invariant CheckColumns(raw[..c]) == Success(cols)
    {
      var column := raw[c];
      var a := new real[|column|](i requires 0 <= i < |column| => column[i]);
      assert a[..] == column;
      var err := ValidateColumn(PHASE_COLUMNS[c], a);
      assert raw[..c + 1][..c] == raw[..c];
      if err.Some? {
        CheckColumnsFailurePersists(raw, c + 1);
        return Failure(err.value);
      }
      cols := cols + [a[..]];
      c := c + 1;
    }
    assert raw[..c] == raw;
    r := Success(cols);
  }

  // ---------------------------------------------------------------------
  // Binning and the per-metric tests
  // ---------------------------------------------------------------------

  predicate InUnit(phases: seq<real>)
  {
    forall i :: 0 <= i < |phases| ==> 0.0 <= phases[i] < 1.0
  }

  /** `np.floor(phase * k)` of a phase in [0, 1). */
  function FloorBin(phase: real, k: nat): (b: nat)
    requires k > 0 && 0.0 <= phase < 1.0
    ensures b < k
  {
    BinIndexBounds(phase, k);
    (phase * k as real).Floor
  }

  function FloorBins(phases: seq<real>, k: nat): (r: seq<nat>)
    requires k > 0 && InUnit(phases)
    ensures |r| == |phases|
    ensures forall i :: 0 <= i < |r| ==> r[i] < k
  {
    seq(|phases|, i requires 0 <= i < |phases| => FloorBin(phases[i], k))
  }

  /** `bin_phases`: `np.bincount` of the floored indices. */
  function BinPhases(phases: seq<real>, k: nat): (r: seq<nat>)
    requires k > 0 && InUnit(phases)
    ensures |r| == k
  {
    Histogram(FloorBins(phases, k), k)
  }

  /** On phases in [0, 1) no clip is needed: the counts are the clipped
   *  counts of the other analyses, so they sum to the number of phases and
   *  the assertion after `bin_phases` always holds. */
  lemma BinPhasesSpec(phases: seq<real>, k: nat)
    requires k > 0 && InUnit(phases)
    ensures BinPhases(phases, k) == ClippedCounts(phases, k)
    ensures SumNat(BinPhases(phases, k)) == |phases|
  {
    assert FloorBins(phases, k) == BinIndices(phases, k);
  }

  datatype BinTest = BinTest(k: nat, chi2: real, pValue: real, significantBonferroni: bool)

  datatype MetricResult = MetricResult(tests: seq<BinTest>, nSignificant: nat, robust: bool)

  /** The test at one k; `chisquare` maps counts to the statistic and its
   *  p-value. */
  function BinTestOf(phases: seq<real>, k: nat, chisquare: seq<nat> -> (real, real)): (t: BinTest)
    requires k > 0 && InUnit(phases)
    ensures t.k == k
    ensures t.significantBonferroni <==> t.pValue < ALPHA / 12.0
  {
    var test := chisquare(BinPhases(phases, k));
    BinTest(k, test.0, test.1, test.1 < ALPHA_BONFERRONI)
  }

  function CountSignificant(tests: seq<BinTest>): (n: nat)
    ensures n <= |tests|
  {
    if tests == [] then 0
    else CountSignificant(tests[..|tests| - 1]) + (if tests[|tests| - 1].significantBonferroni then 1 else 0)
  }

  /** The count is the number of significant tests. */
  lemma {:induction false} CountSignificantIsSetSize(tests: seq<BinTest>)
    ensures CountSignificant(tests) == |set i | 0 <= i < |tests| && tests[i].significantBonferroni|
  {
    if tests != [] {
      var n := |tests| - 1;
      CountSignificantIsSetSize(tests[..n]);
      var front := set i | 0 <= i < n && tests[..n][i].significantBonferroni;
      var all := set i | 0 <= i < |tests| && tests[i].significantBonferroni;
      if tests[n].significantBonferroni {
        assert all == front + {n};
      } else {
        assert all == front;
      }
    }
  }

  function Tests(phases: seq<real>, chisquare: seq<nat> -> (real, real)): (ts: seq<BinTest>)
    requires InUnit(phases)
    ensures |ts| == |BIN_COUNTS|
    ensures forall ki :: 0 <= ki < |ts| ==> ts[ki] == BinTestOf(phases, BIN_COUNTS[ki], chisquare)
  {
    seq(|BIN_COUNTS|, ki requires 0 <= ki < |BIN_COUNTS| => BinTestOf(phases, BIN_COUNTS[ki], chisquare))
  }

  /** One metric's results: a test per bin count, the number of
   *  significant ones, and robustness at three or more of the four. */
  function MetricResultOf(phases: seq<real>, chisquare: seq<nat> -> (real, real)): (m: MetricResult)
    requires InUnit(phases)
    ensures |m.tests| == |BIN_COUNTS| && m.nSignificant <= |BIN_COUNTS|
    ensures m.robust <==> |set i | 0 <= i < |m.tests| && m.tests[i].significantBonferroni| >= 3
  {
    var tests := Tests(phases, chisquare);
    var n := CountSignificant(tests);
    CountSignificantIsSetSize(tests);
    MetricResult(tests, n, n >= 3)
  }

  /** The inner loop of `run_analysis` for one metric, incrementing
   *  `sig_count`. */
  method RunMetric(phases: seq<real>, chisquare: seq<nat> -> (real, real)) returns (m: MetricResult)
    requires InUnit(phases)
    ensures m == MetricResultOf(phases, chisquare)
  {
    var tests: seq<BinTest> := [];
    var sigCount := 0;
    var ki := 0;
    while ki < |BIN_COUNTS|
      invariant 0 <= ki <= |BIN_COUNTS|
      invariant tests == Tests(phases, chisquare)[..ki]
      invariant sigCount == CountSignificant(tests)
    {
      var k := BIN_COUNTS[ki];
      var observed := BinPhases(phases, k);
      BinPhasesSpec(phases, k);
      assert SumNat(observed) == |phases|;
      var test := chisquare(observed);
      var sig := test.1 < ALPHA_BONFERRONI;
      if sig {
        sigCount := sigCount + 1;
      }
      assert (tests + [BinTest(k, test.0, test.1, sig)])[..ki] == tests;
      tests := tests + [BinTest(k, test.0, test.1, sig)];
      ki := ki + 1;
    }
    assert tests == Tests(phases, chisquare);
    m := MetricResult(tests, sigCount, sigCount >= 3);
  }

  predicate AllInUnit(columns: seq<seq<real>>)
  {
    forall c :: 0 <= c < |columns| ==> InUnit(columns[c])
  }

  function AnalysisOf(columns: seq<seq<real>>, chisquare: seq<nat> -> (real, real)): (rs: seq<MetricResult>)
    requires AllInUnit(columns)
    ensures |rs| == |columns|
    ensures forall c :: 0 <= c < |rs| ==> rs[c] == MetricResultOf(columns[c], chisquare)
  {
    seq(|columns|, c requires 0 <= c < |columns| => MetricResultOf(columns[c], chisquare))
  }

  /** The outer loop of `run_analysis` over the metrics. */
  method RunAnalysis(columns: seq<seq<real>>, chisquare: seq<nat> -> (real, real)) returns (rs: seq<MetricResult>)
    requires AllInUnit(columns)
    ensures rs == AnalysisOf(columns, chisquare)
  {
    rs := [];
    var c := 0;
    while c < |columns|
      invariant 0 <= c <= |columns|
      invariant rs == AnalysisOf(columns, chisquare)[..c]
    {
      var m := RunMetric(columns[c], chisquare);
      rs := rs + [m];
      c := c + 1;
    }
  }

  /** On the output of a successful `compute_phase`, the results hold one
   *  metric per phase column and one test per metric and bin count: 12
   *  tests, the Bonferroni divisor. */
  lemma AnalysisShape(rows: seq<Row>, chisquare: seq<nat> -> (real, real))
    requires PhaseColumns(rows).Success?
    ensures AllInUnit(PhaseColumns(rows).value)
    ensures var rs := AnalysisOf(PhaseColumns(rows).value, chisquare);
      |rs| == |METRICS| && (forall c :: 0 <= c < |rs| ==> |rs[c].tests| == |BIN_COUNTS|) &&
      |METRICS| * |BIN_COUNTS| == N_TESTS == 12
  {
    PhaseColumnsSpec(rows);
  }
}
