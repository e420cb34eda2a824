# Earthquake periodicity analyses: a Dafny model of the discrete core

This project models the deterministic, discrete core of a set of Python
scripts. The scripts study whether large earthquakes cluster at particular
phases of the solar year, the lunar cycle or the day. The model covers:

- the temporal clustering and bookkeeping of the cluster-robust Schuster
  spectrum engine;
- the discrete side of the Modified Fourier Power Analysis (MFPA) scan:
  predicted-phase hits, consistency labels, null columns and empirical p-values;
- the phase histograms, elevated-bin detection and interval merging shared by
  the declustering sub-analyses A, B and C;
- the hemisphere symmetry tests and their prediction evaluation;
- the magnitude-band split and trend analysis;
- the rolling-window stationarity analysis;
- the ad-hoc reports: normalised phases with Bonferroni-corrected bin tests,
  phase coherence across bin counts, the catalog partitions (boundary
  proximity, latitude and magnitude bins, declustering windows), the
  cross-catalog matching of ComCat and ISC-GEM events, and the catalog
  comparison statistics.

Each Python script is one Dafny module. Shared concepts live in shared
modules, each defined once:

- `Wrappers`: Option and Result.
- `Numerics`: fractional part, round-half-even, max and min, and the record
  of transcendental functions.
- `Phase`: fractional and solar phases.
- `Binning`: clipped bin index, histogram, Pearson sum.
- `ElevatedIntervals`: elevated bins, runs and phase intervals.
- `Calendar`: leap years and cycle lengths.
- `Text`: decimal rendering and parsing of integers.

Code that works by updating state step by step is modelled as methods with
loops. Each method is proved equal to a specification function. Code that
only computes a value is modelled as functions and lemmas.

Floating-point values are modelled as exact reals, and integers as unbounded
integers; none of the modelled code depends on machine widths. Python's `%`
and `//` with a positive divisor agree with Dafny's Euclidean operators.
Python's `round` is modelled as round-half-even on the exact value. numpy's
transcendental functions (`cos`, `sin`, `arctan2`, `sqrt`, `exp`) are fields
of a `Transcendentals` value passed in. Most lemmas hold for any such value;
where a lemma needs a property of one of them, it says so in its requires.

Where a docstring or comment and the code disagree, the model follows the
code:

- `assign_clusters` starts a new cluster when the gap is at least `dt`; its
  docstring says "exceeds".
- The normalised-phase script's docstring speaks of a tolerance of 0.002,
  and its log message of clamping to 0.999999. The code uses a tolerance of
  0.01 and clamps to 1 - 1e-9.
- `magnitude_bins` rounds to the nearest tenth, so bin b is centred on
  6.0 + b/10. The code comment describes half-open bins [6.0, 6.1), ….
- The phase-coherence script's `_merge_intervals` does not sort its input.
  On unsorted input it drops coverage, as `PhaseCoherence.UnsortedInputLosesPoints`
  shows. Its only caller, `phase_coherence_analysis`, passes candidates built in
  breakpoint order, which `PhaseCoherence.CandidatesSpec` proves sorted by start.

## Model

| member | source | states |
|---|---|---|
| Schuster.ClusterIds | topic-a2/src/case-a1-schuster.py:109-121 | one id per event, and event i's id is at most i |
| Schuster.AssignClusters | topic-a2/src/case-a1-schuster.py:88-121 | the array-filling gap sweep returns exactly the cluster ids of the specification |
| Schuster.ClusterIdsSteps | topic-a2/src/case-a1-schuster.py:114-119 | the first id is 0; each later id repeats its predecessor or exceeds it by one, and it exceeds it exactly when the gap is at least dt |
| Schuster.ClusterIdsMonotone | topic-a2/src/case-a1-schuster.py:114-119 | cluster ids never decrease along the sorted events |
| Schuster.NumClusters | topic-a2/src/case-a1-schuster.py:195 | the cluster count is at most the number of events, and it is at least 1 exactly when there are events |
| Schuster.ClustersNonEmpty | topic-a2/src/case-a1-schuster.py:204-213 | every id below the cluster count is carried by some event, so no cluster mean is taken over an empty mask |
| Schuster.AllClustersNonEmpty | topic-a2/src/case-a1-schuster.py:204-213 | all clusters below the count are non-empty |
| Schuster.ClusterIdReached | topic-a2/src/case-a1-schuster.py:114-119 | every id up to event j's id is the id of some earlier or equal event |
| Schuster.AllGapsWide | topic-a2/src/case-a1-schuster.py:114-119 | when every gap is at least dt, each event is a cluster of its own |
| Schuster.AllGapsNarrow | topic-a2/src/case-a1-schuster.py:114-119 | when every gap is below dt, all events form cluster 0 |
| Schuster.D2 | topic-a2/src/case-a1-schuster.py:46-65 | D² is non-negative, and it is 0 when there are no vectors |
| Schuster.D2Resultant | topic-a2/src/case-a1-schuster.py:62-65 | n·D² is the squared length of the resultant vector |
| Schuster.StandardP | topic-a2/src/case-a1-schuster.py:68-81 | exp(-D²) is a probability in (0, 1] whenever exp maps non-positive arguments into (0, 1] |
| Schuster.Angles | topic-a2/src/case-a1-schuster.py:128-147 | one angle per event, each in [0, 2π) |
| Schuster.Members | topic-a2/src/case-a1-schuster.py:207-208 | the masked phases of cluster c are a sub-sequence, and they are non-empty when c is carried by some event |
| Schuster.StandardD2 | topic-a2/src/case-a1-schuster.py:187-190 | the standard statistic is non-negative, and it is 0 on an empty catalog |
| Schuster.ClusterD2 | topic-a2/src/case-a1-schuster.py:193-217 | the cluster-robust statistic is non-negative, and it is 0 on an empty catalog |
| Schuster.ClusterUnitVectors | topic-a2/src/case-a1-schuster.py:204-213 | the loop fills entry c of both arrays with the unit vector at cluster c's mean direction, for every cluster |
| Schuster.SinglePeriodShape | topic-a2/src/case-a1-schuster.py:154-226 | empty catalog: the sentinel (0, 0, 0.0, 1.0, 1.0). Otherwise n events, between 1 and n clusters (the last id + 1), D² >= 0, and both p-values in (0, 1] |
| Schuster.SchusterSinglePeriod | topic-a2/src/case-a1-schuster.py:154-226 | the method returns the single-period result of the specification |
| Schuster.SpectrumAgreesWithSinglePeriod | topic-a2/src/case-a1-schuster.py:272-305 | for a non-empty catalog, a spectrum entry carries the single-period test's D² and p-values at that period |
| Schuster.SpectrumStep | topic-a2/src/case-a1-schuster.py:272-305 | one loop pass, with the cluster ids and unit vectors computed once and reused, yields the entry of that period |
| Schuster.SchusterSpectrum | topic-a2/src/case-a1-schuster.py:233-308 | one entry per grid period, in grid order. Entry j is the spectrum entry of period j |
| Schuster.Labels | topic-a2/src/case-a1-schuster.py:338-340 | the label set is exactly the labels of the period table |
| Schuster.SchusterExplicitTests | topic-a2/src/case-a1-schuster.py:315-341 | the result's keys are the table's labels. Each label maps to the single-period result at its period |
| Phase.FractionalPhase | topic-a2/src/case-a1-schuster.py:146 | `(t % T) / T` lies in [0, 1) and differs from t/T by an integer |
| Phase.FractionalPhasePeriodic | topic-a2/src/case-a1-schuster.py:146 | shifting an event time by whole periods leaves its phase unchanged |
| Phase.SolarPhase | topic-a2/src/case-a3-analysis.py:103-112 | the solar phase lies in [0, 1) and differs from solar_secs / 31 557 600 by an integer |
| Phase.SolarPhaseWraps | topic-a2/src/case-a3-analysis.py:112 | phase 0 at the start of the solar year and again after any whole number of years |
| Phase.SolarPhases | topic-a2/src/case-b1-analysis.py:109-118 | one phase per event, each in [0, 1) |
| Binning.Clip | topic-a2/src/case-a3-analysis.py:200 | the clipped index is below k, and an index already in range is unchanged |
| Binning.BinIndex | topic-a2/src/case-a3-analysis.py:199-200 | the clipped bin index is below k |
| Binning.BinIndexBounds | topic-a2/src/case-a3-analysis.py:199-200 | a phase in [0, 1) falls in the bin b with b/k <= phase < (b+1)/k |
| Binning.Trunc | topic-a2/src/case-b6-analysis.py:100 | `astype(int)` truncates toward zero |
| Binning.TruncClipIsBinIndex | topic-a2/src/case-b6-analysis.py:100-101 | truncate-then-clip (case B6) equals floor-then-clip (the other scripts) for every phase |
| Binning.BinIndices | topic-a2/src/case-a4-sub-a.py:57-58 | one clipped index per phase, each below k |
| Binning.Histogram | topic-a2/src/case-a3-analysis.py:201 | `np.bincount(minlength=k)` over indices below k has k entries |
| Binning.HistogramSpec | topic-a2/src/case-a3-analysis.py:201 | entry b of the histogram is the number of occurrences of b |
| Binning.HistogramTotal | topic-a2/src/case-a3-analysis.py:201 | the histogram entries add up to the number of indices |
| Binning.ClippedCounts | topic-a2/src/case-a3-analysis.py:199-201 | k observed counts that add up to the number of events |
| Binning.ClippedCountsSpec | topic-a2/src/case-a3-analysis.py:199-201 | count b is the number of events whose clipped bin is b |
| Binning.Pearson | topic-a2/src/case-a3-analysis.py:206 | the chi-square statistic against a positive uniform expectation is non-negative |
| Binning.PearsonUniform | topic-a2/src/case-a3-analysis.py:206 | counts equal to the expectation give a statistic of 0 |
| Calendar.YearLengthSeconds | topic-adhoc/src/case-a1-analysis.py:47-49 | 366 days in a leap year and 365 days otherwise, in seconds |
| Calendar.LeapYearRule | topic-adhoc/src/case-a1-analysis.py:42-44 | the Gregorian rule in all four cases: not divisible by 4, century not divisible by 400, divisible by 400, divisible by 4 but not by 100 |
| Calendar.LeapYearPeriodic | topic-adhoc/src/case-a1b-analysis.py:60-62 | the leap-year rule repeats every 400·m years, forwards and backwards |
| Calendar.LeapYearExamples | topic-adhoc/src/case-a1b-analysis.py:60-67 | 2000, 2024 and 1972 are leap years; 1900, 2100 and 2023 are not; the year lengths of 2000 and 1900 in seconds |
| Mfpa.MfpaPower | topic-a2/src/case-a1-mfpa.py:44-65 | the power is non-negative, and it is 0 when there are no phases |
| Mfpa.MfpaPowerResultant | topic-a2/src/case-a1-mfpa.py:61-65 | n times the power is the squared modulus of the sum of the unit vectors |
| Mfpa.MfpaPowerIsSchusterD2 | topic-a2/src/case-a1-mfpa.py:229-230 | on the angles 2π·((t % T)/T), the MFPA power equals the standard Schuster D² of the catalog |
| Mfpa.NullPowers | topic-a2/src/case-a1-mfpa.py:95-97 | one non-negative null power per bootstrap replicate |
| Mfpa.BootstrapNullPercentiles | topic-a2/src/case-a1-mfpa.py:72-98 | the array loop fills the null powers, and the method returns their 95th and 99th percentiles |
| Mfpa.Column | topic-a2/src/case-a1-mfpa.py:236 | a column has one entry per row of the matrix |
| Mfpa.NullPowerMatrix | topic-a2/src/case-a1-mfpa.py:214-220 | replicate k's null power fills every entry of row k |
| Mfpa.NullColumnsIdentical | topic-a2/src/case-a1-mfpa.py:217-223 | every column is the list of null powers, so every period gets the same percentile thresholds |
| Mfpa.CountAtLeast | topic-a2/src/case-a1-mfpa.py:236 | the number of null powers at or above the observed power is at most the number of replicates |
| Mfpa.PValue | topic-a2/src/case-a1-mfpa.py:236 | the empirical p-value lies in [0, 1] |
| Mfpa.CountAtLeastAntitone | topic-a2/src/case-a1-mfpa.py:236 | a larger observed power is reached by no more null powers |
| Mfpa.CountAtLeastAll | topic-a2/src/case-a1-mfpa.py:236 | a power at or below every null power is reached by all of them |
| Mfpa.CountAtLeastNone | topic-a2/src/case-a1-mfpa.py:236 | a power above every null power is reached by none |
| Mfpa.PValueAntitone | topic-a2/src/case-a1-mfpa.py:236 | the p-value does not increase with the observed power. It is 1 at or below every null power and 0 above them all |
| Mfpa.NHarmonics | topic-a2/src/case-a1-mfpa.py:137 | `max(1, int(365.25 / T))` is at least 1. It is the integer part of 365.25/T when that is at least 1, and 1 when 365.25/T < 2 |
| Mfpa.PredictedPhase | topic-a2/src/case-a1-mfpa.py:139 | each predicted peak phase lies in [0, 1) |
| Mfpa.PredictedPhases | topic-a2/src/case-a1-mfpa.py:136-139 | n_harmonics + 1 predicted phases, the first 0, all in [0, 1) |
| Mfpa.PhaseInInterval | topic-a2/src/case-a1-mfpa.py:105-107 | entry i is true exactly when the phase lies in interval i, ends included |
| Mfpa.HitBeforeIff | topic-a2/src/case-a1-mfpa.py:142-145 | the hit flag before step m is true exactly when one of the first m predicted phases lies in the interval |
| Mfpa.Hits | topic-a2/src/case-a1-mfpa.py:141-145 | the hits list always has three slots |
| Mfpa.HitsSpec | topic-a2/src/case-a1-mfpa.py:141-145 | slot idx is set exactly when some predicted phase lies in interval idx |
| Mfpa.ComputeHits | topic-a2/src/case-a1-mfpa.py:141-145 | the nested loops compute the hits list of the specification |
| Mfpa.ConsistencyLabelTable | topic-a2/src/case-a1-mfpa.py:147-164 | the label of each of the eight hit patterns, the generic fall-through included |
| Mfpa.HitPatterns | topic-a2/src/case-a1-mfpa.py:141 | a three-slot hits list is one of the eight patterns |
| Mfpa.ConsistencyLabelInjective | topic-a2/src/case-a1-mfpa.py:147-164 | distinct hit patterns get distinct labels |
| Mfpa.A1bConsistencyLabel | topic-a2/src/case-a1-mfpa.py:110-164 | the method returns the label of the specified hits list |
| Mfpa.EntryAt | topic-a2/src/case-a1-mfpa.py:228-247 | a spectrum entry has a non-negative power and a p-value in [0, 1] |
| Mfpa.SignificantAppend | topic-a2/src/case-a1-mfpa.py:250-258 | filtering the significant periods respects concatenation, so it keeps spectrum order |
| Mfpa.SignificantSpec | topic-a2/src/case-a1-mfpa.py:250-258 | every significant period comes from an entry whose power exceeds its 95th-percentile threshold, and every such entry is listed |
| Mfpa.SignificantSnoc | topic-a2/src/case-a1-mfpa.py:248-258 | appending an entry extends the list by its summary exactly when its power exceeds p95 |
| Mfpa.MfpaScan | topic-a2/src/case-a1-mfpa.py:171-264 | one entry per grid period, computed against the shared null powers, and the significant list is the filter of the spectrum |
| SubA.SubASingle | topic-a2/src/case-a4-sub-a.py:34-96 | empty catalog: ValueError (a Failure naming the catalog). Otherwise n events, k bins whose counts add up to n, a non-negative chi-square, and expectation n/k |
| SubA.SubASingleUniform | topic-a2/src/case-a4-sub-a.py:61-65 | a catalog with m events in every one of the k bins has chi-square 0 |
| SubA.UniformCountsPearson | topic-a2/src/case-a4-sub-a.py:62-65 | counts all equal to m have expectation m·k/k > 0 and a chi-square of 0 |
| SubA.Suppression | topic-a2/src/case-a4-sub-a.py:139 | the suppression percentage is 0 when the raw chi-square is not positive |
| SubA.SuppressionSign | topic-a2/src/case-a4-sub-a.py:139 | with a positive raw chi-square: positive exactly when the mainshock chi-square is smaller, 0 exactly when the two are equal, at most 100 for a non-negative mainshock chi-square, and 100 when it is 0 |
| SubA.StatsAtAllK | topic-a2/src/case-a4-sub-a.py:123-125 | one statistics record per bin count 16, 24, 32, in order |
| SubA.SuppressionSummary | topic-a2/src/case-a4-sub-a.py:128-145 | one entry per mainshock method (gk, reas, a1b), in order, each holding all three bin counts |
| SubA.FirstEmpty | topic-a2/src/case-a4-sub-a.py:120-125 | the first empty catalog, with every earlier catalog non-empty, or none when all are non-empty |
| SubA.CatalogStats | topic-a2/src/case-a4-sub-a.py:123-125 | the inner loop fails on an empty catalog with its message, and otherwise yields the statistics at every bin count |
| SubA.BuildSuppressionSummary | topic-a2/src/case-a4-sub-a.py:128-145 | the loops build the specified suppression summary |
| SubA.RunSubA | topic-a2/src/case-a4-sub-a.py:99-148 | on failure, the error of the first empty catalog in key order. Otherwise every catalog's statistics at every bin count, and the suppression summary |
| SubA.SubASingleNameFree | topic-a2/src/case-a4-sub-a.py:34-96 | the statistics do not depend on the catalog name, which only enters the error message and the log |
| SubA.FirstEmptyAt | topic-a2/src/case-a4-sub-a.py:120-125 | the first empty catalog is found when all earlier ones are non-empty |
| SubA.FirstEmptyNone | topic-a2/src/case-a4-sub-a.py:120-125 | no catalog is reported empty when all are non-empty |
| ElevatedIntervals.ThresholdSquared | topic-a2/src/case-a4-sub-b.py:49-50 | exceeding E + √E is exceeding E by an amount whose square exceeds E |
| ElevatedIntervals.ElevatedMask | topic-a2/src/case-b1-analysis.py:144-185 | one mask entry per bin, true exactly when the count exceeds the threshold |
| ElevatedIntervals.TrueIndicesFromSpec | topic-a2/src/case-a4-sub-b.py:50 | the indices from position i on are strictly ascending. They are exactly the positions whose mask entry is true |
| ElevatedIntervals.ElevatedBinsSpec | topic-a2/src/case-a4-sub-b.py:39-50 | the elevated bins are strictly ascending. They are exactly the bins whose count exceeds the threshold |
| ElevatedIntervals.Extend | topic-a2/src/case-a4-sub-b.py:66-75 | extending the run list always yields a first run that starts at the given bin |
| ElevatedIntervals.Runs | topic-a2/src/case-a4-sub-b.py:53-76 | no runs exactly when there are no elevated bins, and the first run starts at the first elevated bin |
| ElevatedIntervals.ExtendJoin | topic-a2/src/case-a4-sub-b.py:68-70 | a bin adjacent to the current run extends it |
| ElevatedIntervals.ExtendBreak | topic-a2/src/case-a4-sub-b.py:71-74 | a non-adjacent bin closes the current run and opens a new one |
| ElevatedIntervals.MergeAdjacentBins | topic-a2/src/case-a4-sub-b.py:53-76 | the loop with start, prev and the merged list computes the run list of the specification |
| ElevatedIntervals.MergeFinish | topic-a2/src/case-a4-sub-b.py:75 | after the loop, the closed runs plus the final (start, prev) run are the run list |
| ElevatedIntervals.Range | topic-a2/src/case-a4-sub-b.py:61 | the bins of an inclusive range, in order |
| ElevatedIntervals.RunsValid | topic-a2/src/case-a4-sub-b.py:53-76 | for strictly ascending input, the runs are ordered, separated by gaps, and expand back to the input bins |
| ElevatedIntervals.RunsOfExpand | topic-a2/src/case-a4-sub-b.py:53-76 | merging the bins of a valid run list gives that run list back |
| ElevatedIntervals.MergeIdempotent | topic-a2/src/case-a4-sub-b.py:53-76 | merging is idempotent: the runs of the expanded runs are the runs |
| ElevatedIntervals.ExpandContains | topic-a2/src/case-a4-sub-b.py:61 | every bin inside a run is among the expanded bins |
| ElevatedIntervals.RunsAreBlocks | topic-a2/src/case-a4-sub-b.py:53-76 | every run has first <= last, and every bin inside it was elevated |
| ElevatedIntervals.BinsToPhaseIntervalBounds | topic-a2/src/case-a4-sub-b.py:79-90 | the phase interval of a bin range inside [0, k) satisfies 0 <= start < end <= 1 |
| ElevatedIntervals.PhaseIntervalsSnoc | topic-a2/src/case-a4-sub-c.py:76-85 | the phase intervals of runs already converted, plus one run, gain that run's interval |
| ElevatedIntervals.GetElevatedIntervals | topic-a2/src/case-a4-sub-c.py:57-86 | the phase intervals of the merged elevated bins among the first k counts. k = 0 gives none |
| ElevatedIntervals.RunEnd | topic-a2/src/case-b1-analysis.py:170-173 | the inner while loop stops at the first false mask entry from i on |
| ElevatedIntervals.RunEndIs | topic-a2/src/case-b1-analysis.py:170-173 | the end of a true block followed by a false entry (or the end) is that position |
| ElevatedIntervals.MaskRunsAreRuns | topic-a2/src/case-b1-analysis.py:165-183 | the while-loop scan of the mask produces the same runs as merging the list of elevated bins |
| ElevatedIntervals.FindElevatedIntervals | topic-a2/src/case-b1-analysis.py:144-185 | the while loop returns the elevated intervals of the mask runs of the first k counts, at threshold E + √E with E = n / k |
| ElevatedIntervals.ToElevatedPhase | topic-a2/src/case-b1-analysis.py:174-182 | an elevated interval's phase bounds are those of its bin range |
| ElevatedIntervals.MaskPrefix | topic-a2/src/case-b1-analysis.py:163-165 | masking then taking k entries is masking the first k counts |
| ElevatedIntervals.WhileFormMatchesMergeForm | topic-a2/src/case-b1-analysis.py:144-185 | the B1/A3 while-form and the sub-B/C merge-form give the same runs and the same phase bounds |
| ElevatedIntervals.FindElevatedIntervalsBounds | topic-a2/src/case-b1-analysis.py:174-182 | every interval satisfies 0 <= start < end <= 1, and its mean phase is the midpoint |
| ElevatedIntervals.FindElevatedIntervalBoundsAt | topic-a2/src/case-b1-analysis.py:174-182 | interval j satisfies 0 <= start < end <= 1, and its mean phase is in [0, 1) |
| ElevatedIntervals.FindElevatedIntervalsOrdered | topic-a2/src/case-b1-analysis.py:165-183 | the intervals are in ascending order and separated: each ends before the next starts |
| ElevatedIntervals.Overlap | topic-a2/src/case-a4-sub-b.py:106 | the overlap length is non-negative and at most the width of A |
| ElevatedIntervals.OverlapFraction | topic-a2/src/case-a4-sub-b.py:93-107 | 0 for a degenerate A; in [0, 1]; 0 for disjoint intervals; 1 when B contains A |
| ElevatedIntervals.DisjointFractions | topic-a2/src/case-a4-sub-b.py:93-107 | an interval's overlap fractions with two disjoint intervals add up to at most 1 |
| ElevatedIntervals.FirstMatchFrom | topic-a2/src/case-a4-sub-b.py:120-127 | the first baseline, from position i on, whose overlap fraction exceeds 0.5, with no earlier one exceeding it; none when no baseline does |
| ElevatedIntervals.ClassificationLabelInjective | topic-a2/src/case-a4-sub-b.py:126-127 | distinct classifications get distinct labels |
| ElevatedIntervals.ClassificationUnique | topic-a2/src/case-a4-sub-b.py:19-23 | the three baseline intervals are disjoint, so at most one of them can match more than half of an interval |
| BinnedStats.StatsOf | topic-a2/src/case-b1-analysis.py:188-228 | n and k recorded; k bin counts that add up to n |
| BinnedStats.StatsIntervalsBounded | topic-a2/src/case-b1-analysis.py:188-228 | the elevated intervals of the statistics lie in [0, 1] with their mean phase in [0, 1) |
| BinnedStats.ComputeBinStats | topic-a2/src/case-a3-analysis.py:187-222 | histogram then elevated intervals: the method returns the specified statistics |
| BinnedStats.StatsAtAllK | topic-a2/src/case-b1-analysis.py:231-257 | one record per bin count 16, 24, 32, in order, each over all n phases |
| BinnedStats.ComputeStatsAtAllK | topic-a2/src/case-b1-analysis.py:231-257 | the loop over the bin counts returns the specified row |
| SubB.InWindow | topic-a2/src/case-a4-sub-b.py:145-146 | the masked phases are a sub-list that lies in [start, end) |
| SubB.InWindowComplete | topic-a2/src/case-a4-sub-b.py:145-146 | every phase in [start, end) is kept |
| SubB.InWindowEmpty | topic-a2/src/case-a4-sub-b.py:145-148 | the window is empty exactly when no phase lies in it, and then the coherence is 0.0 |
| SubB.IntervalCoherence | topic-a2/src/case-a4-sub-b.py:130-150 | the coherence of an empty window is 0.0 |
| SubB.RecoveredIntervals | topic-a2/src/case-a4-sub-b.py:176-191 | one recovered interval per merged range of elevated bins |
| SubB.Matching | topic-a2/src/case-a4-sub-b.py:196-199 | the matched list holds only recovered intervals classified as matching that baseline |
| SubB.MatchingComplete | topic-a2/src/case-a4-sub-b.py:196-199 | every recovered interval classified as matching the baseline is in the matched list |
| SubB.Survival | topic-a2/src/case-a4-sub-b.py:194-203 | one survival entry per baseline |
| SubB.SurvivalIff | topic-a2/src/case-a4-sub-b.py:194-203 | a baseline survives exactly when some recovered interval is classified as matching it |
| SubB.SubBSingle | topic-a2/src/case-a4-sub-b.py:153-212 | a survival entry for each of the three baselines |
| SubB.BuildRecovered | topic-a2/src/case-a4-sub-b.py:179-191 | the loop builds one record per merged range, in order |
| SubB.BuildSurvival | topic-a2/src/case-a4-sub-b.py:194-203 | the loop builds the specified survival list |
| SubB.RunSubBSingle | topic-a2/src/case-a4-sub-b.py:153-212 | the method returns the specified single-catalog result |
| SubB.CatalogRow | topic-a2/src/case-a4-sub-b.py:241-243 | one result per bin count, each with three survival entries |
| SubB.AllResults | topic-a2/src/case-a4-sub-b.py:238-243 | one row per mainshock catalog, in key order |
| SubB.SurvivalSummary | topic-a2/src/case-a4-sub-b.py:245-259 | one entry per baseline, each with a word for each of the three methods |
| SubB.SurvivalSummarySpec | topic-a2/src/case-a4-sub-b.py:245-259 | at k = 24: the word is "survives" exactly when some recovered interval matches the baseline, and "absent" otherwise |
| SubB.CatalogResults | topic-a2/src/case-a4-sub-b.py:241-243 | the inner loop returns the specified row |
| SubB.BuildSurvivalSummary | topic-a2/src/case-a4-sub-b.py:245-259 | the summary loops build the specified summary |
| SubB.RunSubB | topic-a2/src/case-a4-sub-b.py:215-261 | all results and the survival summary, as specified |
| SubC.BaselineIntervals | topic-a2/src/case-a4-sub-c.py:20-24 | the baselines as phase intervals, bounds unchanged |
| SubC.PreferenceClass | topic-a2/src/case-a4-sub-c.py:89-136 | each of the four classifications holds exactly under its condition: no significant p-value; A1b overlap; mainshock overlap and no A1b overlap; neither overlap |
| SubC.PreferenceClassIsOneOfFour | topic-a2/src/case-a4-sub-c.py:104-136 | the classification is one of the four fixed strings |
| SubC.NoIntervalsAreDifferent | topic-a2/src/case-a4-sub-c.py:108-136 | a significant catalog with no elevated intervals is "different intervals from mainshocks" |
| SubC.SelfOverlap | topic-a2/src/case-a4-sub-c.py:40-54 | a non-empty interval overlaps itself by more than half |
| SubC.IdenticalIntervalsAreSame | topic-a2/src/case-a4-sub-c.py:108-135 | aftershock intervals equal to the mainshock ones, with no A1b overlap, are "same intervals as mainshocks" |
| SubC.OverlapFlag | topic-a2/src/case-a4-sub-c.py:109-118 | the nested loop with break sets the flag exactly when some pair overlaps by more than half |
| SubC.ClassifyAftershockPreference | topic-a2/src/case-a4-sub-c.py:89-136 | the method returns the specified classification |
| SubC.StatsOf | topic-a2/src/case-a4-sub-c.py:154-194 | n and k recorded; k bin counts that add up to n; chi-square >= 0; no elevated intervals unless p < 0.05 |
| SubC.SubCSingle | topic-a2/src/case-a4-sub-c.py:139-199 | empty catalog: ValueError naming it. Otherwise the statistics |
| SubC.ElevatedMatchesRecovered | topic-a2/src/case-a4-sub-c.py:57-86 | sub-C's elevated intervals are exactly the (start, end) pairs of sub-B's recovered intervals at the same k |
| SubC.RunSubCSingle | topic-a2/src/case-a4-sub-c.py:139-199 | the method returns the specified single-catalog result |
| SubC.MainshockElevated | topic-a2/src/case-a4-sub-c.py:240-246 | the chained `.get` lookups give nothing when either key is missing, and otherwise the (start, end) pairs of the recovered intervals |
| SubC.StatsAtAllK | topic-a2/src/case-a4-sub-c.py:231-234 | one record per bin count |
| SubC.PValues | topic-a2/src/case-a4-sub-c.py:230-234 | the p-values at every bin count, in order |
| SubC.InsignificantCatalog | topic-a2/src/case-a4-sub-c.py:104-106 | a catalog whose p-values are all >= 0.05 is "no preference", and its k = 24 results carry no elevated intervals |
| SubC.CatalogRow | topic-a2/src/case-a4-sub-c.py:226-234 | empty catalog: the ValueError of the first bin count. Otherwise the statistics at every bin count |
| SubC.RunSubC | topic-a2/src/case-a4-sub-c.py:202-256 | on failure, the error of the first empty catalog; otherwise every catalog's results and classification |
| Hemisphere.OnSideEvents | topic-a2/src/case-b1-analysis.py:92-94 | the events kept for a side are events of the catalog whose latitude lies on that side (> 0, < 0 or == 0) |
| Hemisphere.OnSideComplete | topic-a2/src/case-b1-analysis.py:92-94 | every event whose latitude lies on a side is kept for that side |
| Hemisphere.SidesPartition | topic-a2/src/case-b1-analysis.py:92-106 | the northern, southern and equatorial counts add up to the catalog size |
| Hemisphere.SplitHemispheres | topic-a2/src/case-b1-analysis.py:83-106 | the partition assertion fails exactly when the catalog does not hold 9210 events; otherwise the NH and SH frames and the equatorial count |
| Hemisphere.ComputeAllHemisphereStats | topic-a2/src/case-b1-analysis.py:231-257 | statistics at every bin count for NH then SH |
| Hemisphere.IntervalInElevated | topic-a2/src/case-b1-analysis.py:284-308 | the early-return loop finds a match exactly when some elevated interval covers more than half of the baseline |
| Hemisphere.SymmetryClass | topic-a2/src/case-b1-analysis.py:334-342 | "fully symmetric" iff all intervals are symmetric; "partially symmetric" iff some but not all; "asymmetric" iff none |
| Hemisphere.AsymmetricMeansNone | topic-a2/src/case-b1-analysis.py:334-342 | over a non-empty list, "asymmetric" exactly when no interval is symmetric |
| Hemisphere.Test1 | topic-a2/src/case-b1-analysis.py:311-349 | per A1b interval: its presence in NH and in SH, symmetric iff present in both; and the classification above |
| Hemisphere.BestIndex | topic-a2/src/case-b1-analysis.py:371-379 | a chosen interval covers more than half of interval 1 |
| Hemisphere.BestIndexSpec | topic-a2/src/case-b1-analysis.py:371-382 | an interval is chosen exactly when interval 1 is present; the chosen one has the largest overlap and is the first with it |
| Hemisphere.IntervalMeanPhase | topic-a2/src/case-b1-analysis.py:371-379 | the strict-improvement loop returns the mean phase of the specified best interval |
| Hemisphere.Test2 | topic-a2/src/case-b1-analysis.py:352-393 | the interval-1 presence flags in NH and SH |
| Hemisphere.Test2Offset | topic-a2/src/case-b1-analysis.py:381-387 | an offset exists exactly when interval 1 is present in both hemispheres, and it is NH mean minus SH mean of the best intervals |
| Hemisphere.RunTest2 | topic-a2/src/case-b1-analysis.py:352-393 | the method returns the specified test 2 result |
| Hemisphere.HemisphereClass | topic-a2/src/case-b1-analysis.py:408-418 | one of "both", "nh_only", "sh_only", "neither" |
| Hemisphere.HemisphereClassInjective | topic-a2/src/case-b1-analysis.py:408-418 | the label determines both presence flags |
| Hemisphere.Test3 | topic-a2/src/case-b1-analysis.py:396-426 | two labels, for A1b intervals 2 and 3, from their presence in NH and SH |
| Hemisphere.Detail | topic-a2/src/case-b1-analysis.py:447-466 | the expected counterpart lies in [0, 1); within tolerance iff the offset is at most 1/24 |
| Hemisphere.DetailOffsetBounds | topic-a2/src/case-b1-analysis.py:452-455 | for an SH centre in [0, 1) the wrapped offset lies in [0, 0.5] |
| Hemisphere.DetailsRow | topic-a2/src/case-b1-analysis.py:451-466 | one detail per SH interval, in order |
| Hemisphere.Details | topic-a2/src/case-b1-analysis.py:446-466 | one detail per (NH, SH) pair |
| Hemisphere.DetailsIndex | topic-a2/src/case-b1-analysis.py:446-466 | the detail at i * |SH| + j is that of NH interval i against SH interval j (row-major order) |
| Hemisphere.DetailsBounded | topic-a2/src/case-b1-analysis.py:452-455 | every offset lies in [0, 0.5] when the SH centres lie in [0, 1) |
| Hemisphere.HalfCycleOffsetsBounded | topic-a2/src/case-b1-analysis.py:429-471 | on the intervals found by the elevated-bin analysis, every offset lies in [0, 0.5] |
| Hemisphere.AnyWithinSnoc | topic-a2/src/case-b1-analysis.py:446-458 | the found flag over one more NH interval is the old flag or a match in its row |
| Hemisphere.HalfCycleRow | topic-a2/src/case-b1-analysis.py:451-466 | the inner loop returns the specified row, and the flag becomes set exactly when it was set or some SH interval is within tolerance |
| Hemisphere.ComputeHalfCycleOffset | topic-a2/src/case-b1-analysis.py:429-471 | the details of every pair, and found exactly when some pair is within tolerance |
| Hemisphere.RunSymmetryTests | topic-a2/src/case-b1-analysis.py:474-511 | the four tests run on the k = 24 elevated intervals of NH and SH |
| Hemisphere.Score | topic-a2/src/case-b1-analysis.py:577-581 | scores lie in 1..3 |
| Hemisphere.ScoreInjective | topic-a2/src/case-b1-analysis.py:577-581 | different support words have different scores |
| Hemisphere.Rule | topic-a2/src/case-b1-analysis.py:543-574 | "supported" iff the strong condition; "partially supported" iff the weak condition without the strong one |
| Hemisphere.PrimarySpec | topic-a2/src/case-b1-analysis.py:582-590 | a hypothesis is primary exactly when its score is strictly the highest; "ambiguous" exactly when none is |
| Hemisphere.EvaluatePredictions | topic-a2/src/case-b1-analysis.py:517-602 | three support words, and the primary conclusion is the hypothesis with the unique top score, else "ambiguous" |
| Hemisphere.EvaluatePredictionsSupported | topic-a2/src/case-b1-analysis.py:535-574 | the conditions that make each hypothesis supported and partially supported, written out over the test results |
| Hemisphere.Interval1ConditionRedundant | topic-a2/src/case-b1-analysis.py:565-567 | test 1's symmetric flag for interval 1 equals test 2's "present in NH and in SH", so the second disjunct adds nothing |
| MagnitudeBands.BandsPartitionRange | topic-a2/src/case-a3-analysis.py:45-50 | a magnitude is in [6.0, 99.0) exactly when it falls in some band, and it falls in at most one (the half-open bands tile the range) |
| MagnitudeBands.InBandEvents | topic-a2/src/case-a3-analysis.py:84-85 | the band frame holds only events of the catalog with min <= mag < max |
| MagnitudeBands.InBandComplete | topic-a2/src/case-a3-analysis.py:84-85 | every event with min <= mag < max is in the band frame |
| MagnitudeBands.InRangeEvents | topic-a2/src/case-a3-analysis.py:45-50 | exactly the catalog's events with magnitude in [6.0, 99.0): every kept event is from the input and in range, and every in-range event is kept, so the events below 6.0 or from 99.0 up are the ones no band takes |
| MagnitudeBands.InRangeEventsAll | topic-a2/src/case-a3-analysis.py:45-50 | a catalog all inside [6.0, 99.0) loses no event |
| MagnitudeBands.BandEvents | topic-a2/src/case-a3-analysis.py:82-89 | one frame per band, in band order, each the band's events |
| MagnitudeBands.BandSizesSum | topic-a2/src/case-a3-analysis.py:91 | the band sizes add up to the number of events inside [6.0, 99.0) |
| MagnitudeBands.CollectBands | topic-a2/src/case-a3-analysis.py:82-89 | the band loop builds the specified frames |
| MagnitudeBands.BandsTotal | topic-a2/src/case-a3-analysis.py:91 | the summing loop returns the total of the band sizes |
| MagnitudeBands.SplitByMagnitude | topic-a2/src/case-a3-analysis.py:73-97 | the assertion passes exactly when 9210 events lie inside [6.0, 99.0); then the band frames, otherwise the assertion message with the total |
| MagnitudeBands.SplitOfInRangeCatalog | topic-a2/src/case-a3-analysis.py:91-95 | for a catalog inside [6.0, 99.0) the band sizes add up to its size, so the assertion is the check that the catalog holds 9210 events |
| MagnitudeBands.AllBandStats | topic-a2/src/case-a3-analysis.py:286-320 | one entry per band: the statistics at every bin count of that band's phases |
| MagnitudeBands.ComputeAllBandStats | topic-a2/src/case-a3-analysis.py:267-322 | the band loop returns the specified statistics |
| MagnitudeBands.CramerVs | topic-a2/src/case-a3-analysis.py:345-349 | the k = 24 Cramér's V of every band, in band order |
| MagnitudeBands.RayleighRs | topic-a2/src/case-a3-analysis.py:345-350 | the k = 24 Rayleigh R of every band, in band order |
| MagnitudeBands.TrendClass | topic-a2/src/case-a3-analysis.py:355-361 | "increasing" iff rho > 0.5; "decreasing" iff rho < -0.5; "flat" iff -0.5 <= rho <= 0.5 |
| MagnitudeBands.SignificantBands | topic-a2/src/case-a3-analysis.py:373-376 | at most one label per band |
| MagnitudeBands.SignificantBandsSpec | topic-a2/src/case-a3-analysis.py:373-377 | a band's label is listed exactly when its k = 24 p-value is below 0.05 |
| MagnitudeBands.Verdict | topic-a2/src/case-a3-analysis.py:384-397 | "supported" iff the strong condition; "partially" iff the weak condition without the strong one |
| MagnitudeBands.FirstMaxIndex | topic-a2/src/case-a3-analysis.py:401 | an index of a largest value, the first such index (as `max` with a key keeps the first maximum) |
| MagnitudeBands.VRatio | topic-a2/src/case-a3-analysis.py:410-412 | the ratio is infinite exactly when the smallest V is not positive; otherwise it is at least 1 |
| MagnitudeBands.RatioVerdict | topic-a2/src/case-a3-analysis.py:413-418 | "supported" iff ratio < 1.5; "partially" iff 1.5 <= ratio < 2.0 |
| MagnitudeBands.TrendAnalysisOf | topic-a2/src/case-a3-analysis.py:328-443 | the trend class of rho, M7.5+ significant iff its p-value is below 0.05, and four support words |
| MagnitudeBands.TrendVerdicts | topic-a2/src/case-a3-analysis.py:382-418 | each of the four predictions' words, with the conditions that make it supported and partially supported written out |
| MagnitudeBands.BandLabelsDistinct | topic-a2/src/case-a3-analysis.py:401-402 | only the first band carries the label "M6.0-6.4", so the label test picks the first band |
| MagnitudeBands.EqualVIsMagnitudeIndependent | topic-a2/src/case-a3-analysis.py:409-418 | equal positive V in every band gives ratio 1 and "supported" for magnitude independence |
| MagnitudeBands.ComputeTrendAnalysis | topic-a2/src/case-a3-analysis.py:328-443 | the method returns the specified trend analysis |
| Stationarity.WindowStarts | topic-a2/src/case-b6-analysis.py:158-159 | consecutive start years from 1950, one per window |
| Stationarity.WindowStartsRange | topic-a2/src/case-b6-analysis.py:158-159 | 62 windows, first 1950, last 2011, one year apart |
| Stationarity.WindowEvents | topic-a2/src/case-b6-analysis.py:166 | the window holds only catalog events whose year lies in [start, start + 10) |
| Stationarity.WindowEventsComplete | topic-a2/src/case-b6-analysis.py:166 | every event whose year lies in the window is in it |
| Stationarity.PhasesOf | topic-a2/src/case-b6-analysis.py:57 | one phase per event, each in [0, 1) |
| Stationarity.TruncatedBins | topic-a2/src/case-b6-analysis.py:100-101 | one bin per phase, each below k |
| Stationarity.WindowCounts | topic-a2/src/case-b6-analysis.py:99-102 | k counts |
| Stationarity.WindowCountsAreClipped | topic-a2/src/case-b6-analysis.py:100-102 | truncation then clipping gives the same histogram as floor then clip, and the counts add up to the window size |
| Stationarity.WindowOf | topic-a2/src/case-b6-analysis.py:164-186 | start and end years (end = start + 9), the window's event count, and the 1970s flag for starts 1970..1979 |
| Stationarity.Windows | topic-a2/src/case-b6-analysis.py:149-192 | one window per start year, in order |
| Stationarity.RunRollingWindows | topic-a2/src/case-b6-analysis.py:149-192 | the window loop returns the specified windows |
| Stationarity.WindowsShape | topic-a2/src/case-b6-analysis.py:158-173 | 62 windows, and exactly the 21st to 30th are flagged as 1970s windows |
| Stationarity.EventInWindow | topic-a2/src/case-b6-analysis.py:164-166 | an event is in window i exactly when its year lies in [1950 + i, 1959 + i] |
| Stationarity.ClassifyStationarity | topic-a2/src/case-b6-analysis.py:125-146 | each of the three classes holds exactly under its condition on the significant fraction and the circular std |
| Stationarity.CountBelow | topic-a2/src/case-b6-analysis.py:207-208 | at most one count per window |
| Stationarity.CountBelowMonotone | topic-a2/src/case-b6-analysis.py:205-208 | a smaller threshold never counts more windows, so the Bonferroni count is at most the p < 0.05 count |
| Stationarity.RValues | topic-a2/src/case-b6-analysis.py:216-217 | at most one R per window |
| Stationarity.AnomalyRatio | topic-a2/src/case-b6-analysis.py:220 | 0.0 when the other windows' mean is not positive; otherwise the ratio of the two means |
| Stationarity.ComputeStationarity | topic-a2/src/case-b6-analysis.py:195-240 | the window count; Bonferroni count <= p < 0.05 count <= windows; the classification of those counts; ratio 0 with no other windows; flagged iff ratio > 1.5 |
| Stationarity.EqualMeansNotFlagged | topic-a2/src/case-b6-analysis.py:216-221 | equal positive means give ratio 1.0 and no flag |
| NormalizedPhases.RawColumns | topic-adhoc/src/case-a1-analysis.py:63-71 | three phase columns (solar over the calendar-year length, lunar over the synodic month, diurnal over the day), one value per event |
| NormalizedPhases.Clamped | topic-adhoc/src/case-a1-analysis.py:93 | every value from 1.0 up becomes 1 - 1e-9, the others are unchanged |
| NormalizedPhases.ColumnCheckSpec | topic-adhoc/src/case-a1-analysis.py:74-93 | a column passes exactly when all its values lie in [0, 1.01); a column that passes is clamped into [0, 1) |
| NormalizedPhases.CheckColumns | topic-adhoc/src/case-a1-analysis.py:74-93 | on success, one checked column per raw column |
| NormalizedPhases.CheckColumnsFailurePersists | topic-adhoc/src/case-a1-analysis.py:74-88 | once a column fails, later columns do not change the error: the first failing column decides it |
| NormalizedPhases.CheckColumnsSpec | topic-adhoc/src/case-a1-analysis.py:74-93 | the columns pass exactly when every value lies in [0, 1.01), and then each column is its clamped copy |
| NormalizedPhases.PhaseColumnsSpec | topic-adhoc/src/case-a1-analysis.py:52-95 | the phase computation succeeds exactly when every normalised value lies in [0, 1.01); then three columns of one clamped value per event |
| NormalizedPhases.AnyBelowZeroIn | topic-adhoc/src/case-a1-analysis.py:75-76 | the scan finds a value below 0 exactly when there is one |
| NormalizedPhases.AnyAtLeastOneIn | topic-adhoc/src/case-a1-analysis.py:81-82 | the scan finds a value of at least 1.0 exactly when there is one |
| NormalizedPhases.MaxIn | topic-adhoc/src/case-a1-analysis.py:83 | the scan returns the column maximum |
| NormalizedPhases.ClampInPlace | topic-adhoc/src/case-a1-analysis.py:93 | the array becomes its clamped copy in place |
| NormalizedPhases.ValidateColumn | topic-adhoc/src/case-a1-analysis.py:74-93 | an error exactly when the column check fails, with its message and the array untouched; otherwise the array is clamped in place |
| NormalizedPhases.ComputePhase | topic-adhoc/src/case-a1-analysis.py:52-95 | the method returns the specified phase columns or error |
| NormalizedPhases.FloorBin | topic-adhoc/src/case-a1-analysis.py:100 | for a phase in [0, 1) the floor bin is below k |
| NormalizedPhases.FloorBins | topic-adhoc/src/case-a1-analysis.py:100 | one bin per phase, each below k |
| NormalizedPhases.BinPhases | topic-adhoc/src/case-a1-analysis.py:98-102 | k counts |
| NormalizedPhases.BinPhasesSpec | topic-adhoc/src/case-a1-analysis.py:98-102 | on phases in [0, 1) the counts equal the clipped histogram, and they add up to n (the assertion at line 137 holds) |
| NormalizedPhases.BinTestOf | topic-adhoc/src/case-a1-analysis.py:136-150 | the test records k, and it is Bonferroni-significant exactly when p < 0.05 / 12 |
| NormalizedPhases.CountSignificant | topic-adhoc/src/case-a1-analysis.py:134-143 | at most one count per test |
| NormalizedPhases.CountSignificantIsSetSize | topic-adhoc/src/case-a1-analysis.py:134-143 | the count is the number of significant tests |
| NormalizedPhases.Tests | topic-adhoc/src/case-a1-analysis.py:135-150 | one test per bin count 8, 16, 24, 32, in order |
| NormalizedPhases.MetricResultOf | topic-adhoc/src/case-a1-analysis.py:129-158 | four tests, at most four significant, and robust exactly when at least three are significant |
| NormalizedPhases.RunMetric | topic-adhoc/src/case-a1-analysis.py:132-158 | the counting loop returns the specified metric result |
| NormalizedPhases.AnalysisOf | topic-adhoc/src/case-a1-analysis.py:127-158 | one result per phase column, in metric order |
| NormalizedPhases.RunAnalysis | topic-adhoc/src/case-a1-analysis.py:127-158 | the metric loop returns the specified results |
| NormalizedPhases.AnalysisShape | topic-adhoc/src/case-a1-analysis.py:33-37 | after a successful phase computation: all phases lie in [0, 1), three metrics of four tests each, 12 tests in all |
| PhaseCoherence.Deviations | topic-adhoc/src/case-a1b-analysis.py:151-154 | for phases in [0, 1): every floored bin index is already in range, so deviation b is the number of phases in floored bin b minus n/k |
| PhaseCoherence.FirstMaxUntaken | topic-adhoc/src/case-a1b-analysis.py:156 | an untaken bin with the largest deviation among the untaken ones |
| PhaseCoherence.TakeLargest | topic-adhoc/src/case-a1b-analysis.py:156 | min(t, k) bins taken, and no untaken bin deviates more than a taken one |
| PhaseCoherence.AscendingTaken | topic-adhoc/src/case-a1b-analysis.py:157 | the taken bins in increasing order, and no others |
| PhaseCoherence.TopBins | topic-adhoc/src/case-a1b-analysis.py:156-157 | min(3, k) distinct bins, ascending, and no other bin deviates more than a chosen one |
| PhaseCoherence.TopSelectionHasMaximum | topic-adhoc/src/case-a1b-analysis.py:156-157 | a bin of largest deviation is among the chosen ones |
| PhaseCoherence.BinRange | topic-adhoc/src/case-a1b-analysis.py:158 | bin i is the non-empty range [i/k, (i+1)/k), inside [0, 1] when i < k |
| PhaseCoherence.TopRanges | topic-adhoc/src/case-a1b-analysis.py:158 | one range per chosen bin, in order |
| PhaseCoherence.RangesByK | topic-adhoc/src/case-a1b-analysis.py:150-166 | the ranges of the chosen bins at each bin count |
| PhaseCoherence.Insert | topic-adhoc/src/case-a1b-analysis.py:171-176 | inserting into an increasing list keeps it increasing, with the same elements plus the new one |
| PhaseCoherence.SortedSet | topic-adhoc/src/case-a1b-analysis.py:171-176 | an increasing list of exactly the given points |
| PhaseCoherence.Flatten | topic-adhoc/src/case-a1b-analysis.py:172-173 | exactly the ranges of every bin count |
| PhaseCoherence.Endpoints | topic-adhoc/src/case-a1b-analysis.py:173-175 | exactly the ends of the given ranges |
| PhaseCoherence.Breakpoints | topic-adhoc/src/case-a1b-analysis.py:171-176 | an increasing list of exactly 0.0, 1.0 and the ends of every chosen range |
| PhaseCoherence.BreakpointsSpan | topic-adhoc/src/case-a1b-analysis.py:171-176 | with ranges inside [0, 1], at least two breakpoints, the first 0.0 and the last 1.0 |
| PhaseCoherence.VoteCount | topic-adhoc/src/case-a1b-analysis.py:180-193 | at most one vote per bin count |
| PhaseCoherence.Midpoint | topic-adhoc/src/case-a1b-analysis.py:192 | the midpoint of a non-empty sub-interval lies strictly inside it |
| PhaseCoherence.CandidatesUpToSpec | topic-adhoc/src/case-a1b-analysis.py:188-195 | after n steps: candidates sorted, well formed, inside the breakpoints; a sub-interval is a candidate exactly when at least two bin counts cover its midpoint, and every candidate is such a consecutive-breakpoint sub-interval with two votes |
| PhaseCoherence.CandidatesSpec | topic-adhoc/src/case-a1b-analysis.py:188-195 | the same over all sub-intervals between consecutive breakpoints: the candidates are exactly the voted sub-intervals |
| PhaseCoherence.SelectCandidates | topic-adhoc/src/case-a1b-analysis.py:188-195 | the voting loop returns the specified candidates |
| PhaseCoherence.Merged | topic-adhoc/src/case-a1b-analysis.py:237-256 | no more intervals than the input, and none exactly when the input is empty |
| PhaseCoherence.MergedSeparated | topic-adhoc/src/case-a1b-analysis.py:250-256 | well-formed input gives well-formed merged intervals, each starting more than 1e-12 after the previous one ends |
| PhaseCoherence.MergedWithin | topic-adhoc/src/case-a1b-analysis.py:250-256 | merging stays inside any bounds the input lies in |
| PhaseCoherence.MergedLastStart | topic-adhoc/src/case-a1b-analysis.py:250-256 | on sorted input the last merged interval starts no later than the last input interval |
| PhaseCoherence.MergedKeepsPoints | topic-adhoc/src/case-a1b-analysis.py:251-255 | a point covered before the last step stays covered after it |
| PhaseCoherence.MergedCoversLast | topic-adhoc/src/case-a1b-analysis.py:251-255 | on sorted input the merge covers the last interval |
| PhaseCoherence.MergedCovers | topic-adhoc/src/case-a1b-analysis.py:237-256 | on sorted input every covered point stays covered |
| PhaseCoherence.MergedReach | topic-adhoc/src/case-a1b-analysis.py:252 | a merged point lies in some input interval or at most 1e-12 before its start |
| PhaseCoherence.UnsortedInputLosesPoints | topic-adhoc/src/case-a1b-analysis.py:242-255 | on the unsorted input [(0.5, 0.6), (0.1, 0.2)] the point 0.15 drops out of the union |
| PhaseCoherence.MergeIntervals | topic-adhoc/src/case-a1b-analysis.py:248-256 | the loop that extends the last interval or appends returns the specified merge |
| PhaseCoherence.TotalLengthBounded | topic-adhoc/src/case-a1b-analysis.py:214 | the total length of separated intervals lies between 0 and the span from the first start to the last end |
| PhaseCoherence.ExpectedPctBounds | topic-adhoc/src/case-a1b-analysis.py:213-216 | the expected share under the null lies in [0, 100] |
| PhaseCoherence.MaskOf | topic-adhoc/src/case-a1b-analysis.py:204-206 | event i is marked exactly when its phase lies in some merged interval |
| PhaseCoherence.ElevatedMask | topic-adhoc/src/case-a1b-analysis.py:204-206 | the or-ing loop returns the specified mask |
| PhaseCoherence.CoherenceSpec | topic-adhoc/src/case-a1b-analysis.py:126-234 | merged intervals well formed, separated and in [0, 1]; expected share in [0, 100]; full-catalog count at most n; the merge covers every candidate point and reaches only candidates or their 1e-12 neighbourhood, and every candidate is a sub-interval between consecutive breakpoints covered by at least two bin counts |
| PhaseCoherence.PhaseCoherenceAnalysis | topic-adhoc/src/case-a1b-analysis.py:126-234 | on phases below 1, as `compute_solar_phase` clamps them: a failure exactly when some phase is negative (where `np.bincount` raises ValueError); otherwise a top-3 selection of the deviations at each bin count, and the specified coherence result built from them |
| CatalogPartitions.ClampSolar | topic-adhoc/src/case-a1b-analysis.py:78-82 | a phase from 1.0 up becomes 0.999999; a smaller phase is unchanged |
| CatalogPartitions.SolarPhases | topic-adhoc/src/case-a1b-analysis.py:70-83 | one phase per event |
| CatalogPartitions.SolarPhasesBelowOne | topic-adhoc/src/case-a1b-analysis.py:75-83 | every phase is below 1, and a raw phase (solar seconds over the calendar-year length) below 1 is kept as it is |
| CatalogPartitions.NearestDistance | topic-adhoc/src/case-a1b-analysis.py:489-490 | the distance to a nearest boundary vertex: no larger than any vertex's distance, and attained by one |
| CatalogPartitions.NearestDistances | topic-adhoc/src/case-a1b-analysis.py:483-490 | one nearest distance per event |
| CatalogPartitions.ChunkedNearestDistances | topic-adhoc/src/case-a1b-analysis.py:483-490 | the chunks of 200 events together give every event's nearest distance, in order |
| CatalogPartitions.ClassifyProximity | topic-adhoc/src/case-a1b-analysis.py:492-494 | near iff d <= 100 km; transitional iff 100 < d <= 300 km; intraplate iff d > 300 km |
| CatalogPartitions.CountClass | topic-adhoc/src/case-a1b-analysis.py:492-494 | at most one count per distance |
| CatalogPartitions.ProximityCountsSum | topic-adhoc/src/case-a1b-analysis.py:492-495 | the three class counts add up to the number of events |
| CatalogPartitions.ProximityPctsSum | topic-adhoc/src/case-a1b-analysis.py:497-501 | before rounding, the three percentages add up to exactly 100 |
| CatalogPartitions.CountIn | topic-adhoc/src/case-a1b-analysis.py:545 | at most one count per value |
| CatalogPartitions.CountAtLeast | topic-adhoc/src/case-a1b-analysis.py:579 | at most one count per value |
| CatalogPartitions.CountInSplit | topic-adhoc/src/case-a1b-analysis.py:544-546 | the count in [a, c) is the count in [a, b) plus the count in [b, c) |
| CatalogPartitions.CountAtLeastSplit | topic-adhoc/src/case-a1b-analysis.py:576-579 | the count from a up is the count in [a, b) plus the count from b up |
| CatalogPartitions.CountAtLeastAll | topic-adhoc/src/case-a1b-analysis.py:573-580 | when every value is at least a, all of them are counted |
| CatalogPartitions.BandCounts | topic-adhoc/src/case-a1b-analysis.py:540-547 | one count per band, each the number of values in that band |
| CatalogPartitions.ContiguousCountsSum | topic-adhoc/src/case-a1b-analysis.py:540-547 | the counts of contiguous half-open bands add up to the count over their whole range |
| CatalogPartitions.LatitudeBandsSum | topic-adhoc/src/case-a1b-analysis.py:531-547 | the six latitude bands' counts add up to the number of latitudes in [-90, 90); a latitude of exactly 90 falls in none |
| CatalogPartitions.LatitudeBandsDisjoint | topic-adhoc/src/case-a1b-analysis.py:531-538 | no latitude lies in two bands |
| CatalogPartitions.MagBinsSum | topic-adhoc/src/case-a1b-analysis.py:573-580 | the four magnitude bins add up to the number of magnitudes of 6.0 or more, which is every event of an M6+ catalog |
| CatalogPartitions.ProposedWindow | topic-adhoc/src/case-a1b-analysis.py:610-618 | the 75th-percentile distance and the 90th-percentile interval, each within 0.05 of its input and a whole number of tenths |
| CrossCatalog.BisectLeft | topic-adhoc/src/case-a0b-analysis.py:134 | on sorted times, the first index whose time is at least the bound: every earlier time is smaller |
| CrossCatalog.BisectRight | topic-adhoc/src/case-a0b-analysis.py:135 | on sorted times, the first index whose time exceeds the bound: every earlier time is at most it |
| CrossCatalog.BestIn | topic-adhoc/src/case-a0b-analysis.py:137-152 | a chosen target lies among the first n |
| CrossCatalog.BestInSpec | topic-adhoc/src/case-a0b-analysis.py:137-152 | a target is chosen exactly when some target passes all three tolerances; it passes them, has the smallest time difference, and no earlier admissible target has the same difference (strict `<` keeps the first) |
| CrossCatalog.BestInStable | topic-adhoc/src/case-a0b-analysis.py:133-140 | targets that fail the tolerances do not change the choice, so scanning only the bisect window loses nothing |
| CrossCatalog.BestInStep | topic-adhoc/src/case-a0b-analysis.py:140-152 | one more target replaces the best exactly when it is admissible and strictly closer in time |
| CrossCatalog.ScanWindow | topic-adhoc/src/case-a0b-analysis.py:140-152 | the filtered scan of the window returns the specified best target and its time difference |
| CrossCatalog.BestTarget | topic-adhoc/src/case-a0b-analysis.py:133-152 | bisection then the window scan give the best target over all targets, and its time difference |
| CrossCatalog.RawMatchesOf | topic-adhoc/src/case-a0b-analysis.py:127-155 | at most one raw match per source |
| CrossCatalog.RawMatchAt | topic-adhoc/src/case-a0b-analysis.py:154-155 | each raw match pairs a source with its best target and records their time difference |
| CrossCatalog.RawMatchesIncreasing | topic-adhoc/src/case-a0b-analysis.py:127-155 | raw matches come in increasing source order |
| CrossCatalog.RawMatchedIff | topic-adhoc/src/case-a0b-analysis.py:154-155 | a source is matched exactly when some target is admissible for it |
| CrossCatalog.RawMatches | topic-adhoc/src/case-a0b-analysis.py:127-155 | the source loop returns the specified raw matches |
| CrossCatalog.MatchedSourcesMonotone | topic-adhoc/src/case-a0b-analysis.py:133-155 | tightening all three tolerances can only shrink the set of matched sources |
| CrossCatalog.InsertByDiff | topic-adhoc/src/case-a0b-analysis.py:159 | inserting keeps every match and adds the new one |
| CrossCatalog.InsertByDiffSorted | topic-adhoc/src/case-a0b-analysis.py:159 | inserting into a list ordered by time difference keeps it ordered |
| CrossCatalog.SortByDiff | topic-adhoc/src/case-a0b-analysis.py:159 | the sort is a permutation of the matches |
| CrossCatalog.SortByDiffSorted | topic-adhoc/src/case-a0b-analysis.py:159 | the sorted matches are ordered by time difference |
| CrossCatalog.SourcesSnoc | topic-adhoc/src/case-a0b-analysis.py:165-167 | appending a pair adds its source and its target to the used sets |
| CrossCatalog.GreedyKeepsMatches | topic-adhoc/src/case-a0b-analysis.py:163-165 | every kept pair comes from a raw match |
| CrossCatalog.GreedyDistinct | topic-adhoc/src/case-a0b-analysis.py:160-167 | no source and no target appears twice in the one-to-one result |
| CrossCatalog.GreedyUsedCount | topic-adhoc/src/case-a0b-analysis.py:160-167 | the used-source and used-target sets are as large as the result |
| CrossCatalog.GreedyDropsOnlyUsed | topic-adhoc/src/case-a0b-analysis.py:163-167 | a candidate is dropped only when its source or its target is already used |
| CrossCatalog.GreedyOneToOne | topic-adhoc/src/case-a0b-analysis.py:160-168 | the loop over the sorted candidates with the two used sets returns the specified greedy result |
| CrossCatalog.FindProximityMatches | topic-adhoc/src/case-a0b-analysis.py:92-170 | the method returns the specified pairs, one-to-one or raw |
| CrossCatalog.OneToOneCounts | topic-adhoc/src/case-a0b-analysis.py:157-168 | every one-to-one pair indexes both catalogs and passes the tolerances, and there are at most as many pairs as sources and as targets, so the ComCat-only and ISC-GEM-only counts are not negative |
| CrossCatalog.OneToOnePairAdmissible | topic-adhoc/src/case-a0b-analysis.py:157-168 | the pair at any position indexes both catalogs and passes the tolerances |
| CrossCatalog.MagBandLabel | topic-adhoc/src/case-a0b-analysis.py:63-72 | each of the four labels holds exactly on its band: below 6.5, [6.5, 7.0), [7.0, 7.5), from 7.5 up |
| CrossCatalog.DecadeLabel | topic-adhoc/src/case-a0b-analysis.py:57-60 | the label ends in "s" |
| CrossCatalog.DecadeLabelSpec | topic-adhoc/src/case-a0b-analysis.py:57-60 | the label is the decimal of (year div 10) * 10 followed by "s": a multiple of ten, the start of the decade holding year |
| CrossCatalog.DecadeLabelInjective | topic-adhoc/src/case-a0b-analysis.py:57-60 | two years get the same label exactly when they lie in the same decade |
| CrossCatalog.IdPrefix | topic-adhoc/src/case-a0b-analysis.py:82-89 | "iscgem" iff the ID starts with "iscgem"; "us_native" iff it does not but starts with "us"; "other" iff neither |
| CrossCatalog.Bucket | topic-adhoc/src/case-a0b-analysis.py:239-246 | one duplicate adds exactly one to the bucket counts |
| CrossCatalog.DupDecadesSum | topic-adhoc/src/case-a0b-analysis.py:236-246 | the four decade buckets add up to the number of duplicates |
| CrossCatalog.CountDupDecades | topic-adhoc/src/case-a0b-analysis.py:236-246 | the bucketing loop returns the specified counts |
| CrossCatalog.IdCrossRefSplit | topic-adhoc/src/case-a0b-analysis.py:196-200 | matched and unmatched are disjoint and together make up the iscgem-prefixed ComCat IDs |
| CatalogReport.TruncInt | topic-adhoc/src/case-a0-analysis.py:42 | `int()` truncates toward zero: within one below a non-negative value, within one above a negative one |
| CatalogReport.Ids | topic-adhoc/src/case-a0-analysis.py:71 | the ID of every row, in order |
| CatalogReport.Mags | topic-adhoc/src/case-a0-analysis.py:126 | the magnitude of every row, in order |
| CatalogReport.CountGroup | topic-adhoc/src/case-a0-analysis.py:70-72 | at most one count per ID |
| CatalogReport.PrefixCountsStep | topic-adhoc/src/case-a0-analysis.py:70-72 | one more row adds one to the counter of its prefix group |
| CatalogReport.PrefixCountsSum | topic-adhoc/src/case-a0-analysis.py:66-81 | the us_native, iscgem and other counts add up to the number of rows |
| CatalogReport.ShareOf | topic-adhoc/src/case-a0-analysis.py:76-79 | the count, and a percentage within 0.05 of count / total * 100 (rounded to one decimal) |
| CatalogReport.ComcatPrefixBreakdown | topic-adhoc/src/case-a0-analysis.py:66-81 | no result exactly when there are no rows (the division by zero); otherwise each group's count and share, in the order us_native, iscgem, other |
| CatalogReport.PrefixPctsNearHundred | topic-adhoc/src/case-a0-analysis.py:75-79 | the three rounded percentages add up to within 0.15 of 100 |
| CatalogReport.IscgemYears | topic-adhoc/src/case-a0-analysis.py:86 | no more years than rows |
| CatalogReport.IscgemYearsCount | topic-adhoc/src/case-a0-analysis.py:86-87 | the filtered rows are exactly those that classify_prefix calls "iscgem" |
| CatalogReport.DecadeScan | topic-adhoc/src/case-a0-analysis.py:96-99 | the downward scan stops at the last start not above the year, and finds none when every start is above it |
| CatalogReport.DecadeOfSpec | topic-adhoc/src/case-a0-analysis.py:90-99 | a year gets a decade exactly when it is 1940 or later; the decade is the only one with start <= year < next start, and 2020 on gives "2020s" |
| CatalogReport.DecadeIndices | topic-adhoc/src/case-a0-analysis.py:94-99 | one of the nine decades per counted year |
| CatalogReport.CountFrom1940 | topic-adhoc/src/case-a0-analysis.py:94-99 | no more counted years than years |
| CatalogReport.DecadeCountsTotal | topic-adhoc/src/case-a0-analysis.py:93-99 | the decade counts add up to the number of years from 1940 on, so earlier years are dropped |
| CatalogReport.DecadeIndicesCount | topic-adhoc/src/case-a0-analysis.py:94-99 | exactly the years from 1940 on get a decade |
| CatalogReport.DecadePct | topic-adhoc/src/case-a0-analysis.py:105 | 0.0 when there are no iscgem-prefixed rows; otherwise within 0.05 of count / total * 100 |
| CatalogReport.FindDecade | topic-adhoc/src/case-a0-analysis.py:96-99 | the loop with `break` returns the specified decade |
| CatalogReport.DecadeCountsStep | topic-adhoc/src/case-a0-analysis.py:94-99 | one more year adds one to its decade's count, or nothing when it lies before 1940 |
| CatalogReport.CountDecades | topic-adhoc/src/case-a0-analysis.py:93-99 | the counting loop returns the histogram of the years' decades |
| CatalogReport.DecadePcts | topic-adhoc/src/case-a0-analysis.py:101-106 | one percentage per decade, as specified |
| CatalogReport.IscgemPrefixTemporal | topic-adhoc/src/case-a0-analysis.py:84-107 | the decade counts of the iscgem-prefixed rows and nine percentages of their total |
| CatalogReport.ClassifyPrecision | topic-adhoc/src/case-a0-analysis.py:110-119 | one of "one_decimal" and "two_decimal" |
| CatalogReport.RoundOfInteger | topic-adhoc/src/case-a0-analysis.py:115 | rounding an integer gives it back |
| CatalogReport.PrecisionOfHundredths | topic-adhoc/src/case-a0-analysis.py:113-119 | a magnitude of h hundredths is "one_decimal" exactly when h is a multiple of 10 |
| CatalogReport.CountPrecision | topic-adhoc/src/case-a0-analysis.py:125-127 | at most one count per row |
| CatalogReport.PrecisionCountsSum | topic-adhoc/src/case-a0-analysis.py:124-127 | the one_decimal and two_decimal counts add up to the number of rows |
| CatalogReport.MagnitudePrecision | topic-adhoc/src/case-a0-analysis.py:122-137 | no result exactly when there are no rows; otherwise both classes' counts and shares |
| CatalogReport.MagBinIndex | topic-adhoc/src/case-a0-analysis.py:147-151 | a bin below 36; between 5.95 and 9.55, a bin whose centre 6.0 + b/10 lies within 0.05 of the magnitude; below 5.95 bin 0; above 9.55 bin 35 |
| CatalogReport.MagBinOfTenths | topic-adhoc/src/case-a0-analysis.py:147 | magnitude d/10 for d in 60..95 lands in bin d - 60 |
| CatalogReport.MagBinIndices | topic-adhoc/src/case-a0-analysis.py:145-151 | one clamped bin per row |
| CatalogReport.MagBinsStep | topic-adhoc/src/case-a0-analysis.py:152 | one more row adds one to its bin |
| CatalogReport.MagnitudeBins | topic-adhoc/src/case-a0-analysis.py:140-153 | the array-filling loop returns the histogram of the rows' bins |
| CatalogReport.MagnitudeBinsTotal | topic-adhoc/src/case-a0-analysis.py:144-153 | 36 counts that add up to the number of rows |
| CatalogReport.MaxInt | topic-adhoc/src/case-a0-analysis.py:46 | no value exceeds it, and some value equals it |
| CatalogReport.MinInt | topic-adhoc/src/case-a0-analysis.py:46 | no value is below it, and some value equals it |
| CatalogReport.Round2 | topic-adhoc/src/case-a0-analysis.py:47 | within 0.005 of its input |
| CatalogReport.Round2Monotone | topic-adhoc/src/case-a0-analysis.py:47 | rounding to two decimals keeps order |
| CatalogReport.Years | topic-adhoc/src/case-a0-analysis.py:42 | the truncated year of every row, in order |
| CatalogReport.PopulationSummary | topic-adhoc/src/case-a0-analysis.py:40-53 | no result exactly when there are no rows (`min` of an empty list); otherwise the row count, and every row's year and magnitude lie in the reported ranges (magnitudes within 0.005) |
| CatalogReport.PopulationSummaryOrdered | topic-adhoc/src/case-a0-analysis.py:44-47 | min <= max for years and magnitudes, and both year bounds are attained |
| Numerics.Frac | topic-a2/src/case-a4-sub-a.py:31 | `x % 1.0` lies in [0, 1) and differs from x by an integer |
| Numerics.FracUnique | topic-a2/src/case-a4-sub-a.py:31 | the fractional part is the only value in [0, 1) that differs from x by an integer |
| Numerics.FracShift | topic-a2/src/case-a4-sub-a.py:31 | adding a whole number of cycles leaves the phase unchanged |
| Numerics.RoundHalfEven | topic-adhoc/src/case-a0-analysis.py:115 | Python's `round` to an integer: within 0.5 of x, and even on a tie |
| Numerics.Round1 | topic-adhoc/src/case-a1b-analysis.py:617-618 | rounding to one decimal: within 0.05 of x, and a whole number of tenths |
| Numerics.MaxOf | topic-a2/src/case-a3-analysis.py:410 | no value exceeds it, and some value equals it |
| Numerics.MinOf | topic-a2/src/case-a3-analysis.py:411 | no value is below it, and some value equals it |
| Text.ParseNatToString | topic-adhoc/src/case-a0b-analysis.py:60 | reading back the decimal digits of a natural number gives the number |
| Text.IntToStringRoundTrip | topic-adhoc/src/case-a0b-analysis.py:60 | the decimal of an integer is an optional minus sign then digits, and reading it back gives the integer |
| Text.IntToStringInjective | topic-adhoc/src/case-a0b-analysis.py:60 | different integers have different decimals |

## Left out

- Floating-point arithmetic: values are exact reals, so rounding error (for example in `6.55 * 100`) is not modelled.
- Trigonometry, square roots and exponentials are the fields `cos`, `sin`, `atan2`, `sqrt` and `exp` of a `Numerics.Transcendentals` value passed in. They compute the Schuster and MFPA unit vectors and the per-cluster `arctan2` directions, `exp(-D²)`, the sub-B interval coherence, and the `E + sqrt(E)` threshold of the elevated intervals. Only the sign fact about `exp` that the discrete logic needs is stated (`Numerics.ExpIsProbability`).
- Other float statistics are not computed. The stationarity analysis takes `compute_rayleigh` and `compute_circular_std` as the function parameters `rayleigh` and `circularStd`. The great-circle (haversine) distance is the `dist` parameter of `CatalogPartitions` and `CrossCatalog`. Cramér's V, the Rayleigh R and the chi-square p-value of each magnitude band are read as inputs (`MagnitudeBands.BandSummary`). `BinnedStats`, `SubA`, `SubC`, `NormalizedPhases` and the hemisphere statistics leave Cramér's V and the Rayleigh test out.
- scipy statistics are parameters or inputs, with no property assumed: chi-square p-values and survival functions, Spearman's rho, and numpy percentiles.
- Random draws are a parameter (`draws`) of the MFPA bootstrap only. The magnitude-band bootstrap confidence interval (`compute_bootstrap_ci`) is left out, because it resamples with numpy's generator and takes float percentiles. The null sampling belongs to the phase-coherence script's temporal and nearest-neighbour analyses, which are left out below.
- The log-spaced period grids of the Schuster and MFPA scans are a given sequence of periods, because their float values are not modelled.
- `round(x, 4)` and `round(x, 6)` on reported reals are not modelled. One-decimal and two-decimal rounding of percentages and magnitudes is modelled by its error bound.
- Dictionaries keyed by catalog, band, bin count or label are sequences in key order.
- All I/O is left out: CSV and JSON reading and writing, `load_catalog`, datetime parsing, `parse_plate_boundaries`, logging, timestamps in the output and the `main` functions. Their assertions on row counts are left out too, except where the analysis itself asserts (the hemisphere and magnitude-band partitions).
- Error messages carry the catalog name or the totals. The offending rows that some messages print are left out.
- Years are given as integers, or truncated from an exact real by `CatalogReport.TruncInt`.
- Phase-coherence events are de-duplicated by `usgs_id` through pandas (`drop_duplicates`). This is left out, so `n_elevated` and the elevated-events frame are not modelled; the mask and the full-catalog count are.
- The inter-event interval analysis (`temporal_analysis`) and the nearest-neighbour analysis (`nearest_neighbor_analysis`, `_compute_nn_distances`) of the phase-coherence script are left out, because they consist of float distances and percentiles. `CatalogPartitions.ProposedWindow` takes their percentiles as inputs.
- In `run_cross_catalog`, the decade and magnitude-band tallies of unmatched events are left out. The labels they use are modelled (`CrossCatalog.DecadeLabel`, `CrossCatalog.MagBandLabel`).
- The source comments claim the cluster-robust D² relates to the standard D² by an inequality, and that the robust p-value is at least the standard one. Both claims are false in general, so they are not stated. For example, ten singleton clusters at phase 0 and one ten-event cluster at phase 0.5 give a standard D² of 0 and a cluster-robust D² of 81/11.
- Plotting scripts and the two orchestration-only scripts (`case-a1-analysis.py` and `case-a4-analysis.py` of topic-a2) are not part of this model.
- CrossCatalog.FindProximityMatches: takes both catalogs already sorted by timestamp. The `sort_values` calls are left out, so the indices are positions in the sorted frames, as in the script.
- CrossCatalog.SortByDiff: is stated as a permutation ordered by time difference. It keeps equal keys in their original order, as Python's stable sort does, but no lemma states that.
- PhaseCoherence.TopBins: ties between equal deviations may be chosen in any order. numpy's default `argsort` is not stable, so its choice among tied bins is not determined.
- CatalogPartitions.ProximityPctsSum: is stated only for a non-empty population. For an empty one, the script's numpy division gives nan, which is not modelled.
- Stationarity.ComputeStationarity: requires at least one window. With none, the script divides by zero; it always has 62 windows (`Stationarity.WindowsShape`).
- Stationarity.ClassifyStationarity: requires a positive number of windows, for the same reason.
- The latitude-band percentages (`count / total * 100`) are left out; the counts are modelled (`CatalogPartitions.BandCounts`).
- NormalizedPhases.BinPhases: requires phases in [0, 1), which the validated phase computation guarantees (`NormalizedPhases.AnalysisShape`). Out-of-range phases would make `np.bincount` fail or grow the array, which is not modelled.
- Mfpa.Hits: requires at most three intervals. With more, the script's three-slot `hits` list raises IndexError, which is not modelled. Its only caller passes the three A1b intervals.
- Mfpa.MfpaScan: requires at least one bootstrap draw. With none, `np.percentile` of an empty array fails, which is not modelled. The script always draws 1000 replicates.
- The Gardner-Knopoff reference windows that `declustering_window_estimate` copies into its output are fixed constants, and they are left out.
- CatalogPartitions.ChunkedNearestDistances: requires a non-empty boundary, as do `CatalogPartitions.NearestDistance` and `CatalogPartitions.NearestDistances`. With no boundary vertices, the script's `dist_mat.min(axis=1)` raises ValueError, which is not modelled.
