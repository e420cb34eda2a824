/** The catalog comparison reference report: descriptive statistics of the
 *  ComCat and ISC-GEM catalogs. It covers the ComCat ID prefix groups, the
 *  decades of the ISC-GEM-prefixed ComCat records, the precision of the
 *  magnitudes, the 0.1-magnitude bins and the year and magnitude ranges. */
module CatalogReport {
  import opened Numerics
  import opened Wrappers
  import opened Binning
  import CrossCatalog
  import CatalogPartitions

  /** One catalog row as the report reads it: the `usgs_id`, the
   *  `solaration_year` column as a float, and `usgs_mag`. */
  datatype Row = Row(usgsId: string, solarationYear: real, mag: real)

  /** `int(x)` of a float: truncation toward zero. */
  function TruncInt(x: real): (r: int)
    ensures 0.0 <= x ==> 0.0 <= x - r as real < 1.0
    ensures x < 0.0 ==> 0.0 <= r as real - x < 1.0
  {
    if x >= 0.0 then x.Floor else -((-x).Floor)
  }

  function Year(r: Row): int
  {
    TruncInt(r.solarationYear)
  }

  function Ids(rows: seq<Row>): (ids: seq<string>)
    ensures |ids| == |rows|
    ensures forall i :: 0 <= i < |rows| ==> ids[i] == rows[i].usgsId
  {
    seq(|rows|, i requires 0 <= i < |rows| => rows[i].usgsId)
  }

  function Mags(rows: seq<Row>): (mags: seq<real>)
    ensures |mags| == |rows|
    ensures forall i :: 0 <= i < |rows| ==> mags[i] == rows[i].mag
  {
    seq(|rows|, i requires 0 <= i < |rows| => rows[i].mag)
  }

  // ---------------------------------------------------------------------
  // ID prefix groups. `classify_prefix` is the same three-way split as
  // the cross-catalog script's `get_id_prefix`, CrossCatalog.IdPrefix.
  // ---------------------------------------------------------------------

  /** How many of the ids fall into prefix group g. */
  function CountGroup(ids: seq<string>, g: string): (c: nat)
    ensures c <= |ids|
  {
    if ids == [] then 0
    else CountGroup(ids[..|ids| - 1], g) + (if CrossCatalog.IdPrefix(ids[|ids| - 1]) == g then 1 else 0)
  }

  datatype PrefixCounts = PrefixCounts(usNative: nat, iscgem: nat, other: nat)

  function PrefixCountsOf(ids: seq<string>): PrefixCounts
  {
    PrefixCounts(CountGroup(ids, "us_native"), CountGroup(ids, "iscgem"), CountGroup(ids, "other"))
  }

  /** `counts[group] += 1`. */
  function AddGroup(c: PrefixCounts, g: string): PrefixCounts
  {
    if g == "us_native" then c.(usNative := c.usNative + 1)
    else if g == "iscgem" then c.(iscgem := c.iscgem + 1)
    else c.(other := c.other + 1)
  }

  lemma PrefixCountsStep(ids: seq<string>, i: nat)
    requires i < |ids|
    ensures PrefixCountsOf(ids[..i + 1]) == AddGroup(PrefixCountsOf(ids[..i]), CrossCatalog.IdPrefix(ids[i]))
  {
    assert ids[..i + 1][..i] == ids[..i];
  }

  /** Every id lands in exactly one group: the three counts add up to the
   *  number of rows. */
  lemma {:induction false} PrefixCountsSum(ids: seq<string>)
    ensures var c := PrefixCountsOf(ids); c.usNative + c.iscgem + c.other == |ids|
  {
    if ids != [] {
      PrefixCountsSum(ids[..|ids| - 1]);
    }
  }

  /** A count and its percentage of the total, `round(count / total * 100, 1)`. */
  datatype Share = Share(count: nat, pct: real)

  function ShareOf(count: nat, total: nat): (s: Share)
    requires total > 0
    ensures s.count == count
    ensures -0.05 <= s.pct - CatalogPartitions.Pct(count, total) <= 0.05
  {
    Share(count, Round1(CatalogPartitions.Pct(count, total)))
  }

  datatype PrefixBreakdown = PrefixBreakdown(usNative: Share, iscgem: Share, other: Share)

  /** `comcat_prefix_breakdown`: the per-group counts of one pass over the
   *  rows, and their percentages. An empty catalog divides by zero. */
  method ComcatPrefixBreakdown(rows: seq<Row>) returns (r: Option<PrefixBreakdown>)
    ensures r.None? <==> |rows| == 0
    ensures r.Some? ==>
      var c := PrefixCountsOf(Ids(rows));
      r.value == PrefixBreakdown(ShareOf(c.usNative, |rows|), ShareOf(c.iscgem, |rows|), ShareOf(c.other, |rows|))
  {
    var ids := Ids(rows);
    var counts := PrefixCounts(0, 0, 0);
    var i := 0;
    while i < |rows|
      invariant 0 <= i <= |rows|
      invariant counts == PrefixCountsOf(ids[..i])
    {
      PrefixCountsStep(ids, i);
      var group := CrossCatalog.IdPrefix(rows[i].usgsId);
      counts := AddGroup(counts, group);
      i := i + 1;
    }
    assert ids[..|rows|] == ids;
    var total := |rows|;
    if total == 0 {
      return None;
    }
    r := Some(PrefixBreakdown(ShareOf(counts.usNative, total), ShareOf(counts.iscgem, total),
                              ShareOf(counts.other, total)));
  }

  /** The rounded percentages of the breakdown sum to 100 within the three
   *  roundings. */
  lemma PrefixPctsNearHundred(rows: seq<Row>)
    requires |rows| > 0
    ensures
      var c := PrefixCountsOf(Ids(rows));
      var sum := ShareOf(c.usNative, |rows|).pct + ShareOf(c.iscgem, |rows|).pct + ShareOf(c.other, |rows|).pct;
      -0.15 <= sum - 100.0 <= 0.15
  {
    var c := PrefixCountsOf(Ids(rows));
    PrefixCountsSum(Ids(rows));
    var t := |rows| as real;
    var a := c.usNative as real;
    var b := c.iscgem as real;
    var d := c.other as real;
    QuotientSum(a, b, t);
    QuotientSum(a + b, d, t);
    QuotientSelf(t);
    assert a / t + b / t + d / t == 1.0;
  }

  // ---------------------------------------------------------------------
  // Decades of the ISC-GEM-prefixed ComCat records
  // ---------------------------------------------------------------------

  const DECADES: seq<string> := ["1940s", "1950s", "1960s", "1970s", "1980s", "1990s", "2000s", "2010s", "2020s"]
  const DECADE_STARTS: seq<int> := [1940, 1950, 1960, 1970, 1980, 1990, 2000, 2010, 2020]

  /** The years of the rows whose id starts with "iscgem", in row order. */
  function IscgemYears(rows: seq<Row>): (ys: seq<int>)
    ensures |ys| <= |rows|
  {
    if rows == [] then []
    else
      var front := IscgemYears(rows[..|rows| - 1]);
      var last := rows[|rows| - 1];
      if "iscgem" <= last.usgsId then front + [Year(last)] else front
  }

  /** The filtered rows are exactly those the breakdown counts as "iscgem". */
  lemma {:induction false} IscgemYearsCount(rows: seq<Row>)
    ensures |IscgemYears(rows)| == CountGroup(Ids(rows), "iscgem")
  {
    if rows != [] {
      var front := rows[..|rows| - 1];
      assert Ids(rows)[..|rows| - 1] == Ids(front);
      IscgemYearsCount(front);
    }
  }

  /** The downward scan over the first i decade starts: the first start
   *  at or below the year, met from the top. */
  function DecadeScan(year: int, i: nat): (r: Option<nat>)
    requires i <= |DECADE_STARTS|
    ensures r.Some? ==> r.value < i && DECADE_STARTS[r.value] <= year
    ensures r.Some? ==> forall j :: r.value < j < i ==> year < DECADE_STARTS[j]
    ensures r.None? ==> forall j :: 0 <= j < i ==> year < DECADE_STARTS[j]
  {
    if i == 0 then None
    else if year >= DECADE_STARTS[i - 1] then Some(i - 1)
    else DecadeScan(year, i - 1)
  }

  /** The decade a year is counted in, None when it is dropped. */
  function DecadeOf(year: int): Option<nat>
  {
    DecadeScan(year, |DECADE_STARTS|)
  }

  /** A year from 1940 on falls into exactly one decade, the one whose
   *  start is the last at or below it, so years from 2020 on go to the
   *  "2020s"; a year before 1940 is dropped. */
  lemma DecadeOfSpec(year: int)
    ensures DecadeOf(year).Some? <==> year >= 1940
    ensures DecadeOf(year).Some? ==>
      var d := DecadeOf(year).value;
      d < 9 && DECADE_STARTS[d] <= year && (d == 8 || year < DECADE_STARTS[d + 1])
    ensures year >= 2020 ==> DecadeOf(year) == Some(8)
    ensures forall d :: 0 <= d < 9 && DECADE_STARTS[d] <= year && (d == 8 || year < DECADE_STARTS[d + 1])
              ==> DecadeOf(year) == Some(d)
  {
    var r := DecadeOf(year);
    if r.Some? {
      assert DECADE_STARTS[0] <= DECADE_STARTS[r.value];
    } else {
      assert year < DECADE_STARTS[0];
    }
    forall d | 0 <= d < 9 && DECADE_STARTS[d] <= year && (d == 8 || year < DECADE_STARTS[d + 1])
      ensures r == Some(d)
    {
      assert r.Some?;
    }
  }

  /** The decade indices of the counted years, in order. */
  function DecadeIndices(years: seq<int>): (ds: seq<nat>)
    ensures |ds| <= |years|
    ensures forall j :: 0 <= j < |ds| ==> ds[j] < 9
  {
    if years == [] then []
    else
      var front := DecadeIndices(years[..|years| - 1]);
      match DecadeOf(years[|years| - 1])
      case None => front
      case Some(d) => front + [d]
  }

  /** How many of the years are 1940 or later. */
  function CountFrom1940(years: seq<int>): (c: nat)
    ensures c <= |years|
  {
    if years == [] then 0
    else CountFrom1940(years[..|years| - 1]) + (if years[|years| - 1] >= 1940 then 1 else 0)
  }

  /** The decade counts add up to the years from 1940 on: only earlier
   *  years are dropped. */
  lemma {:induction false} DecadeCountsTotal(years: seq<int>)
    ensures SumNat(Histogram(DecadeIndices(years), 9)) == CountFrom1940(years)
  {
    DecadeIndicesCount(years);
    HistogramTotal(DecadeIndices(years), 9);
  }

  lemma {:induction false} DecadeIndicesCount(years: seq<int>)
    ensures |DecadeIndices(years)| == CountFrom1940(years)
  {
    if years != [] {
      DecadeIndicesCount(years[..|years| - 1]);
      DecadeOfSpec(years[|years| - 1]);
    }
  }

  /** A decade's percentage of the iscgem-prefixed rows, 0.0 when there
   *  are none. */
  function DecadePct(count: nat, total: nat): (p: real)
    ensures total == 0 ==> p == 0.0
    ensures total > 0 ==> -0.05 <= p - CatalogPartitions.Pct(count, total) <= 0.05
  {
    if total > 0 then Round1(CatalogPartitions.Pct(count, total)) else 0.0
  }

  /** The decade a year is counted in, found by `iscgem_prefix_temporal`'s downward
   *  scan that stops at the first start at or below the year. */
  method FindDecade(year: int) returns (r: Option<nat>)
    ensures r == DecadeOf(year)
  {
    r := None;
    var i := |DECADE_STARTS|;
    while i > 0
      invariant 0 <= i <= |DECADE_STARTS|
      invariant DecadeScan(year, |DECADE_STARTS|) == DecadeScan(year, i)
      decreases i
    {
      if year >= DECADE_STARTS[i - 1] {
        r := Some(i - 1);
        return;
      }
      i := i - 1;
    }
  }

  /** `decade_counts[decades[i]] += 1` for a counted year. */
  function AddDecade(h: seq<nat>, d: Option<nat>): seq<nat>
    requires d.Some? ==> d.value < |h|
  {
    match d
    case None => h
    case Some(b) => h[b := h[b] + 1]
  }

  lemma DecadeCountsStep(years: seq<int>, i: nat)
    requires i < |years|
    ensures Histogram(DecadeIndices(years[..i + 1]), 9)
              == AddDecade(Histogram(DecadeIndices(years[..i]), 9), DecadeOf(years[i]))
  {
    assert years[..i + 1][..i] == years[..i];
    var front := DecadeIndices(years[..i]);
    match DecadeOf(years[i])
    case None =>
    case Some(d) =>
      var ds := front + [d];
      assert DecadeIndices(years[..i + 1]) == ds;
      assert ds[..|ds| - 1] == front;
  }

  /** The decade counts of one pass over the years. */
  method CountDecades(years: seq<int>) returns (counts: seq<nat>)
    ensures counts == Histogram(DecadeIndices(years), 9)
  {
    counts := seq(9, d => 0);
    var i := 0;
    while i < |years|
      invariant 0 <= i <= |years|
      invariant counts == Histogram(DecadeIndices(years[..i]), 9)
    {
      DecadeCountsStep(years, i);
      var d := FindDecade(years[i]);
      counts := AddDecade(counts, d);
      i := i + 1;
    }
    assert years[..|years|] == years;
  }

  /** The percentage of each decade's count. */
  method DecadePcts(counts: seq<nat>, total: nat) returns (pcts: seq<real>)
    ensures |pcts| == |counts|
    ensures forall d :: 0 <= d < |counts| ==> pcts[d] == DecadePct(counts[d], total)
  {
    pcts := [];
    var j := 0;
    while j < |counts|
      invariant 0 <= j <= |counts|
      invariant |pcts| == j
      invariant forall e :: 0 <= e < j ==> pcts[e] == DecadePct(counts[e], total)
    {
      pcts := pcts + [DecadePct(counts[j], total)];
      j := j + 1;
    }
  }

  /** `iscgem_prefix_temporal`: per decade, the count of iscgem-prefixed
   *  rows and its percentage of them. */
  method IscgemPrefixTemporal(rows: seq<Row>) returns (counts: seq<nat>, pcts: seq<real>)
    ensures counts == Histogram(DecadeIndices(IscgemYears(rows)), 9)
    ensures |pcts| == 9
    ensures forall d :: 0 <= d < 9 ==> pcts[d] == DecadePct(counts[d], |IscgemYears(rows)|)
  {
    var years := IscgemYears(rows);
    counts := CountDecades(years);
    pcts := DecadePcts(counts, |years|);
  }

  // ---------------------------------------------------------------------
  // Magnitude precision
  // ---------------------------------------------------------------------

  /** `classify_precision`: "one_decimal" when the magnitude in hundredths,
   *  rounded half to even, is a multiple of ten. */
  function ClassifyPrecision(mag: real): (c: string)
    ensures c == "one_decimal" || c == "two_decimal"
  {
    if RoundHalfEven(mag * 100.0) % 10 == 0 then "one_decimal" else "two_decimal"
  }

  lemma RoundOfInteger(n: int)
    ensures RoundHalfEven(n as real) == n
  {
  }

  /** For a magnitude written with two decimals, h / 100, the class is
   *  "one_decimal" exactly when the second decimal is zero. */
  lemma PrecisionOfHundredths(h: int)
    ensures ClassifyPrecision(h as real / 100.0) == "one_decimal" <==> h % 10 == 0
  {
    assert (h as real / 100.0) * 100.0 == h as real;
    RoundOfInteger(h);
  }

  /** How many of the magnitudes fall into precision class c. */
  function CountPrecision(mags: seq<real>, c: string): (n: nat)
    ensures n <= |mags|
  {
    if mags == [] then 0
    else CountPrecision(mags[..|mags| - 1], c) + (if ClassifyPrecision(mags[|mags| - 1]) == c then 1 else 0)
  }

  /** Each magnitude has one of the two classes: the counts add up to the
   *  number of rows. */
  lemma {:induction false} PrecisionCountsSum(mags: seq<real>)
    ensures CountPrecision(mags, "one_decimal") + CountPrecision(mags, "two_decimal") == |mags|
  {
    if mags != [] {
      PrecisionCountsSum(mags[..|mags| - 1]);
    }
  }

  datatype PrecisionReport = PrecisionReport(oneDecimal: Share, twoDecimal: Share)

  /** `magnitude_precision`: the class counts of one pass over the rows and
   *  their percentages. An empty catalog divides by zero. */
  method MagnitudePrecision(rows: seq<Row>) returns (r: Option<PrecisionReport>)
    ensures r.None? <==> |rows| == 0
    ensures r.Some? ==>
      var mags := Mags(rows);
      r.value == PrecisionReport(ShareOf(CountPrecision(mags, "one_decimal"), |rows|),
                                 ShareOf(CountPrecision(mags, "two_decimal"), |rows|))
  {
    var mags := Mags(rows);
    var one, two := 0, 0;
    var i := 0;
    while i < |rows|
      invariant 0 <= i <= |rows|
      invariant one == CountPrecision(mags[..i], "one_decimal")
      invariant two == CountPrecision(mags[..i], "two_decimal")
    {
      assert mags[..i + 1][..i] == mags[..i];
      if ClassifyPrecision(rows[i].mag) == "one_decimal" {
        one := one + 1;
      } else {
        two := two + 1;
      }
      i := i + 1;
    }
    assert mags[..|rows|] == mags;
    var total := |rows|;
    if total == 0 {
      return None;
    }
    r := Some(PrecisionReport(ShareOf(one, total), ShareOf(two, total)));
  }

  // ---------------------------------------------------------------------
  // 0.1-magnitude bins from 6.0 to 9.6
  // ---------------------------------------------------------------------

  const MAG_BINS: nat := 36

  /** The bin of a magnitude: its distance from 6.0 in tenths, rounded half
   *  to even and clamped to [0, 35]. Bin b is centred on 6.0 + b / 10. */
  function MagBinIndex(mag: real): (b: nat)
    ensures b < MAG_BINS
    ensures 5.95 <= mag <= 9.55 ==> -0.05 <= mag - (6.0 + b as real / 10.0) <= 0.05
    ensures mag < 5.95 ==> b == 0
    ensures mag > 9.55 ==> b == MAG_BINS - 1
  {
    var idx := RoundHalfEven((mag - 6.0) * 10.0);
    if idx < 0 then 0
    else if idx >= MAG_BINS then MAG_BINS - 1
    else idx
  }

  /** A one-decimal magnitude from 6.0 to 9.5 lands in the bin of its own
   *  tenth. */
  lemma MagBinOfTenths(d: int)
    requires 60 <= d <= 95
    ensures MagBinIndex(d as real / 10.0) == d - 60
  {
    assert (d as real / 10.0 - 6.0) * 10.0 == (d - 60) as real;
    RoundOfInteger(d - 60);
  }

  function MagBinIndices(mags: seq<real>): (bs: seq<nat>)
    ensures |bs| == |mags|
    ensures forall i :: 0 <= i < |mags| ==> bs[i] == MagBinIndex(mags[i]) && bs[i] < MAG_BINS
  {
    seq(|mags|, i requires 0 <= i < |mags| => MagBinIndex(mags[i]))
  }

  lemma MagBinsStep(bins: seq<nat>, i: nat)
    requires i < |bins|
    requires forall j :: 0 <= j < |bins| ==> bins[j] < MAG_BINS
    ensures var h := Histogram(bins[..i], MAG_BINS);
      Histogram(bins[..i + 1], MAG_BINS) == h[bins[i] := h[bins[i]] + 1]
  {
    assert bins[..i + 1][..i] == bins[..i];
  }

  /** `magnitude_bins`: the list of 36 counts, incremented in place once
   *  per row. */
  method MagnitudeBins(rows: seq<Row>) returns (r: seq<nat>)
    ensures r == Histogram(MagBinIndices(Mags(rows)), MAG_BINS)
  {
    var bins := MagBinIndices(Mags(rows));
    var counts := new nat[MAG_BINS](_ => 0);
    assert counts[..] == Histogram([], MAG_BINS);
    var i := 0;
    while i < |rows|
      invariant 0 <= i <= |rows|
      invariant counts[..] == Histogram(bins[..i], MAG_BINS)
    {
      MagBinsStep(bins, i);
      var idx := MagBinIndex(rows[i].mag);
      counts[idx] := counts[idx] + 1;
      i := i + 1;
    }
    assert bins[..|rows|] == bins;
    r := counts[..];
  }

  /** Every row is counted in exactly one of the 36 bins. */
  lemma MagnitudeBinsTotal(rows: seq<Row>)
    ensures |Histogram(MagBinIndices(Mags(rows)), MAG_BINS)| == MAG_BINS
    ensures SumNat(Histogram(MagBinIndices(Mags(rows)), MAG_BINS)) == |rows|
  {
    HistogramTotal(MagBinIndices(Mags(rows)), MAG_BINS);
  }

  // ---------------------------------------------------------------------
  // Population summary
  // ---------------------------------------------------------------------

  /** `Numerics.MaxOf` over the integer years: Dafny has no ordering
   *  shared by `int` and `real` that one generic function could use. */
  function MaxInt(vs: seq<int>): (m: int)
    requires |vs| > 0
    ensures forall j :: 0 <= j < |vs| ==> vs[j] <= m
    ensures exists j :: 0 <= j < |vs| && vs[j] == m
  {
    if |vs| == 1 then vs[0]
    else
      var m := MaxInt(vs[..|vs| - 1]);
      assert forall j :: 0 <= j < |vs| - 1 ==> vs[..|vs| - 1][j] == vs[j];
      if vs[|vs| - 1] > m then vs[|vs| - 1] else m
  }

  /** `Numerics.MinOf` over the integer years, for the same reason. */
  function MinInt(vs: seq<int>): (m: int)
    requires |vs| > 0
    ensures forall j :: 0 <= j < |vs| ==> m <= vs[j]
    ensures exists j :: 0 <= j < |vs| && vs[j] == m
  {
    if |vs| == 1 then vs[0]
    else
      var m := MinInt(vs[..|vs| - 1]);
      assert forall j :: 0 <= j < |vs| - 1 ==> vs[..|vs| - 1][j] == vs[j];
      if vs[|vs| - 1] < m then vs[|vs| - 1] else m
  }

  /** `round(x, 2)`, taken on the exact real value. */
  function Round2(x: real): (r: real)
    ensures -0.005 <= r - x <= 0.005
  {
    RoundHalfEven(x * 100.0) as real / 100.0
  }

  lemma RoundHalfEvenMonotone(x: real, y: real)
    requires x <= y
    ensures RoundHalfEven(x) <= RoundHalfEven(y)
  {
  }

  lemma Round2Monotone(x: real, y: real)
    requires x <= y
    ensures Round2(x) <= Round2(y)
  {
    RoundHalfEvenMonotone(x * 100.0, y * 100.0);
  }

  function Years(rows: seq<Row>): (ys: seq<int>)
    ensures |ys| == |rows|
    ensures forall i :: 0 <= i < |rows| ==> ys[i] == Year(rows[i])
  {
    seq(|rows|, i requires 0 <= i < |rows| => Year(rows[i]))
  }

  datatype Summary = Summary(eventCount: nat, yearMin: int, yearMax: int, magMin: real, magMax: real)

  /** `population_summary`: the event count, the year range and the
   *  magnitude range rounded to two decimals. Python's `min` of an empty
   *  list raises, which is None here. */
  function PopulationSummary(rows: seq<Row>): (r: Option<Summary>)
    ensures r.None? <==> |rows| == 0
    ensures r.Some? ==> r.value.eventCount == |rows|
    ensures r.Some? ==> forall i :: 0 <= i < |rows| ==>
      r.value.yearMin <= Year(rows[i]) <= r.value.yearMax &&
      r.value.magMin - 0.005 <= rows[i].mag <= r.value.magMax + 0.005
  {
    if |rows| == 0 then None
    else
      var mags := Mags(rows);
      Some(Summary(|rows|, MinInt(Years(rows)), MaxInt(Years(rows)), Round2(MinOf(mags)), Round2(MaxOf(mags))))
  }

  /** For a non-empty catalog both ranges are ordered, and each bound is
   *  attained by some row (the magnitudes up to the rounding). */
  lemma PopulationSummaryOrdered(rows: seq<Row>)
    requires |rows| > 0
    ensures var s := PopulationSummary(rows).value;
      s.yearMin <= s.yearMax && s.magMin <= s.magMax
    ensures var s := PopulationSummary(rows).value;
      (exists i :: 0 <= i < |rows| && Year(rows[i]) == s.yearMin) &&
      (exists i :: 0 <= i < |rows| && Year(rows[i]) == s.yearMax)
  {
    var mags := Mags(rows);
    Round2Monotone(MinOf(mags), MaxOf(mags));
    var ys := Years(rows);
    var lo := MinInt(ys);
    var hi := MaxInt(ys);
    var a :| 0 <= a < |ys| && ys[a] == lo;
    var b :| 0 <= b < |ys| && ys[b] == hi;
    assert Year(rows[a]) == lo && Year(rows[b]) == hi;
  }
}
