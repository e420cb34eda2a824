/** Event-level matching between the ComCat and ISC-GEM catalogs: for each
 *  source event the target event closest in time among those within the
 *  time, distance and magnitude tolerances, then optionally a greedy
 *  one-to-one assignment in order of time difference; and the labels and
 *  buckets of the duplicate accounting. */
module CrossCatalog {
  import opened Wrappers
  import opened Text

  datatype Quake = Quake(ts: real, lat: real, lon: real, mag: real)

  datatype Tolerances = Tolerances(timeSec: real, distKm: real, magTol: real)

  function AbsReal(x: real): (r: real)
    ensures r >= 0.0 && (r == x || r == -x)
  {
    if x < 0.0 then -x else x
  }

  function TimeDiff(s: Quake, t: Quake): real
  {
    AbsReal(s.ts - t.ts)
  }

  /** A target is admissible for a source when it lies within all three
   *  tolerances; `dist` is the great-circle distance. */
  predicate Admissible(s: Quake, t: Quake, tol: Tolerances, dist: (Quake, Quake) -> real)
  {
    TimeDiff(s, t) <= tol.timeSec && AbsReal(s.mag - t.mag) <= tol.magTol && dist(s, t) <= tol.distKm
  }

  predicate Sorted(a: seq<real>)
  {
    forall i, j :: 0 <= i < j < |a| ==> a[i] <= a[j]
  }

  function Times(qs: seq<Quake>): (r: seq<real>)
    ensures |r| == |qs|
    ensures forall i :: 0 <= i < |qs| ==> r[i] == qs[i].ts
  {
    seq(|qs|, i requires 0 <= i < |qs| => qs[i].ts)
  }

  // ---------------------------------------------------------------------
  // bisect_left and bisect_right
  // ---------------------------------------------------------------------

  /** `bisect_left`: the first index whose value is not below x. */
  method BisectLeft(a: seq<real>, x: real) returns (i: nat)
    requires Sorted(a)
    ensures i <= |a|
    ensures forall j :: 0 <= j < i ==> a[j] < x
    ensures forall j :: i <= j < |a| ==> a[j] >= x
  {
    var lo, hi := 0, |a|;
    while lo < hi
      invariant 0 <= lo <= hi <= |a|
      invariant forall j :: 0 <= j < lo ==> a[j] < x
      invariant forall j :: hi <= j < |a| ==> a[j] >= x
    {
      var mid := (lo + hi) / 2;
      if a[mid] < x {
        lo := mid + 1;
      } else {
        hi := mid;
      }
    }
    i := lo;
  }

  /** `bisect_right`: the first index whose value is above x. */
  method BisectRight(a: seq<real>, x: real) returns (i: nat)
    requires Sorted(a)
    ensures i <= |a|
    ensures forall j :: 0 <= j < i ==> a[j] <= x
    ensures forall j :: i <= j < |a| ==> a[j] > x
  {
    var lo, hi := 0, |a|;
    while lo < hi
      invariant 0 <= lo <= hi <= |a|
      invariant forall j :: 0 <= j < lo ==> a[j] <= x
      invariant forall j :: hi <= j < |a| ==> a[j] > x
    {
      var mid := (lo + hi) / 2;
      if x < a[mid] {
        hi := mid;
      } else {
        lo := mid + 1;
      }
    }
    i := lo;
  }

  // ---------------------------------------------------------------------
  // The best target of one source
  // ---------------------------------------------------------------------

  /** The admissible target among the first n closest in time to s, the
   *  first one winning ties: the scan with a strict `<`. */
  function BestIn(s: Quake, targets: seq<Quake>, tol: Tolerances, dist: (Quake, Quake) -> real, n: nat): (b: Option<nat>)
    requires n <= |targets|
    ensures b.Some? ==> b.value < n
  {
    if n == 0 then None
    else
      var b := BestIn(s, targets, tol, dist, n - 1);
      var t := targets[n - 1];
      if Admissible(s, t, tol, dist) && (b.None? || TimeDiff(s, t) < TimeDiff(s, targets[b.value])) then Some(n - 1)
      else b
  }

  /** There is a best target exactly when some target is admissible; it is
   *  admissible, no admissible target is closer in time, and every
   *  admissible target before it is strictly farther in time. */
  lemma {:induction false} BestInSpec(s: Quake, targets: seq<Quake>, tol: Tolerances, dist: (Quake, Quake) -> real, n: nat)
    requires n <= |targets|
    ensures var b := BestIn(s, targets, tol, dist, n);
      (b.Some? <==> exists j :: 0 <= j < n && Admissible(s, targets[j], tol, dist)) &&
      (b.Some? ==>
        Admissible(s, targets[b.value], tol, dist) &&
        (forall j :: 0 <= j < n && Admissible(s, targets[j], tol, dist) ==> TimeDiff(s, targets[b.value]) <= TimeDiff(s, targets[j])) &&
        (forall j :: 0 <= j < b.value && Admissible(s, targets[j], tol, dist) ==> TimeDiff(s, targets[b.value]) < TimeDiff(s, targets[j])))
  {
    if n > 0 {
      BestInSpec(s, targets, tol, dist, n - 1);
    }
  }

  /** Targets that are not admissible do not change the best one. */
  lemma {:induction false} BestInStable(s: Quake, targets: seq<Quake>, tol: Tolerances, dist: (Quake, Quake) -> real, n: nat, m: nat)
    requires n <= m <= |targets|
    requires forall j :: n <= j < m ==> !Admissible(s, targets[j], tol, dist)
    ensures BestIn(s, targets, tol, dist, m) == BestIn(s, targets, tol, dist, n)
  {
    if n < m {
      BestInStable(s, targets, tol, dist, n, m - 1);
    }
  }

  /** One more target in the scan. */
  lemma BestInStep(s: Quake, targets: seq<Quake>, tol: Tolerances, dist: (Quake, Quake) -> real, t: nat)
    requires t < |targets|
    ensures var b := BestIn(s, targets, tol, dist, t);
      BestIn(s, targets, tol, dist, t + 1) ==
        if Admissible(s, targets[t], tol, dist) && (b.None? || TimeDiff(s, targets[t]) < TimeDiff(s, targets[b.value])) then Some(t) else b
  {
  }

  /** The scan of the time window [lo, hi): the magnitude filter, the
   *  distance filter, and the closest time difference so far. */
  method ScanWindow(s: Quake, targets: seq<Quake>, tol: Tolerances, dist: (Quake, Quake) -> real, lo: nat, hi: nat)
    returns (best: Option<nat>, bestDiff: real)
    requires lo <= hi <= |targets|
    requires BestIn(s, targets, tol, dist, lo) == None
    requires forall j :: lo <= j < hi ==> TimeDiff(s, targets[j]) <= tol.timeSec
    ensures best == BestIn(s, targets, tol, dist, hi)
    ensures best.Some? ==> bestDiff == TimeDiff(s, targets[best.value])
  {
    best, bestDiff := None, 0.0;
    var t := lo;
    while t < hi
      invariant lo <= t <= hi
      invariant best == BestIn(s, targets, tol, dist, t)
      invariant best.Some? ==> bestDiff == TimeDiff(s, targets[best.value])
    {
      var q := targets[t];
      BestInStep(s, targets, tol, dist, t);
      if AbsReal(s.mag - q.mag) <= tol.magTol && dist(s, q) <= tol.distKm {
        var td := AbsReal(s.ts - q.ts);
        if best.None? || td < bestDiff {
          best, bestDiff := Some(t), td;
        }
      }
      t := t + 1;
    }
  }

  /** The inner loop of `find_proximity_matches` for one source: the time
   *  window found by bisection on the sorted target times, then the scan
   *  of that window. */
  method BestTarget(s: Quake, targets: seq<Quake>, tol: Tolerances, dist: (Quake, Quake) -> real)
    returns (best: Option<nat>, bestDiff: real)
    requires Sorted(Times(targets))
    ensures best == BestIn(s, targets, tol, dist, |targets|)
    ensures best.Some? ==> bestDiff == TimeDiff(s, targets[best.value])
  {
    var times := Times(targets);
    var lo := BisectLeft(times, s.ts - tol.timeSec);
    var hi := BisectRight(times, s.ts + tol.timeSec);
    assert forall j :: 0 <= j < lo ==> times[j] < s.ts - tol.timeSec;
    BestInStable(s, targets, tol, dist, 0, lo);
    if lo <= hi {
      assert forall j :: lo <= j < hi ==> s.ts - tol.timeSec <= times[j] <= s.ts + tol.timeSec;
      best, bestDiff := ScanWindow(s, targets, tol, dist, lo, hi);
      assert forall j :: hi <= j < |targets| ==> times[j] > s.ts + tol.timeSec;
      BestInStable(s, targets, tol, dist, hi, |targets|);
    } else {
      best, bestDiff := None, 0.0;
      assert forall j :: lo <= j < |targets| ==> times[j] > s.ts + tol.timeSec;
      BestInStable(s, targets, tol, dist, lo, |targets|);
    }
  }

  // ---------------------------------------------------------------------
  // Raw matches
  // ---------------------------------------------------------------------

  datatype Match = Match(src: nat, tgt: nat, diff: real)

  /** The raw matches of the first n sources, in source order. */
  function RawMatchesOf(sources: seq<Quake>, targets: seq<Quake>, tol: Tolerances, dist: (Quake, Quake) -> real, n: nat): (ms: seq<Match>)
    requires n <= |sources|
    ensures |ms| <= n
  {
    if n == 0 then []
    else
      var front := RawMatchesOf(sources, targets, tol, dist, n - 1);
      var b := BestIn(sources[n - 1], targets, tol, dist, |targets|);
      if b.Some? then front + [Match(n - 1, b.value, TimeDiff(sources[n - 1], targets[b.value]))] else front
  }

  function MatchedSources(ms: seq<Match>): set<nat>
  {
    set m | m in ms :: m.src
  }

  /** Every raw match pairs a source among the first n with its best
   *  target, which is admissible, at that target's time difference. */
  lemma {:induction false} RawMatchAt(sources: seq<Quake>, targets: seq<Quake>, tol: Tolerances, dist: (Quake, Quake) -> real, n: nat, a: nat)
    requires n <= |sources| && a < |RawMatchesOf(sources, targets, tol, dist, n)|
    ensures var m := RawMatchesOf(sources, targets, tol, dist, n)[a];
      m.src < n && m.tgt < |targets| &&
      Some(m.tgt) == BestIn(sources[m.src], targets, tol, dist, |targets|) &&
      m.diff == TimeDiff(sources[m.src], targets[m.tgt])
  {
    var front := RawMatchesOf(sources, targets, tol, dist, n - 1);
    if a < |front| {
      RawMatchAt(sources, targets, tol, dist, n - 1, a);
    }
  }

  /** The raw matches are in strictly increasing source order. */
  lemma {:induction false} RawMatchesIncreasing(sources: seq<Quake>, targets: seq<Quake>, tol: Tolerances, dist: (Quake, Quake) -> real, n: nat, a: nat, b: nat)
    requires n <= |sources| && a < b < |RawMatchesOf(sources, targets, tol, dist, n)|
    ensures RawMatchesOf(sources, targets, tol, dist, n)[a].src < RawMatchesOf(sources, targets, tol, dist, n)[b].src
  {
    var front := RawMatchesOf(sources, targets, tol, dist, n - 1);
    if b < |front| {
      RawMatchesIncreasing(sources, targets, tol, dist, n - 1, a, b);
    } else {
      RawMatchAt(sources, targets, tol, dist, n - 1, a);
    }
  }

  /** A source is matched exactly when it has a best target. */
  lemma {:induction false} RawMatchedIff(sources: seq<Quake>, targets: seq<Quake>, tol: Tolerances, dist: (Quake, Quake) -> real, n: nat, i: nat)
    requires i < n <= |sources|
    ensures i in MatchedSources(RawMatchesOf(sources, targets, tol, dist, n)) <==>
      BestIn(sources[i], targets, tol, dist, |targets|).Some?
  {
    var front := RawMatchesOf(sources, targets, tol, dist, n - 1);
    var ms := RawMatchesOf(sources, targets, tol, dist, n);
    assert MatchedSources(ms) == MatchedSources(front) || MatchedSources(ms) == MatchedSources(front) + {n - 1} by {
      assert ms == front || ms == front + [ms[|ms| - 1]];
    }
    if i < n - 1 {
      RawMatchedIff(sources, targets, tol, dist, n - 1, i);
    } else {
      if n - 1 in MatchedSources(front) {
        var m :| m in front && m.src == n - 1;
        var a :| 0 <= a < |front| && front[a] == m;
        RawMatchAt(sources, targets, tol, dist, n - 1, a);
      }
    }
  }

  /** The scan over the sources. */
  method RawMatches(sources: seq<Quake>, targets: seq<Quake>, tol: Tolerances, dist: (Quake, Quake) -> real)
    returns (ms: seq<Match>)
    requires Sorted(Times(targets))
    ensures ms == RawMatchesOf(sources, targets, tol, dist, |sources|)
  {
    ms := [];
    var i := 0;
    while i < |sources|
      invariant 0 <= i <= |sources|
      invariant ms == RawMatchesOf(sources, targets, tol, dist, i)
    {
      var best, bestDiff := BestTarget(sources[i], targets, tol, dist);
      if best.Some? {
        ms := ms + [Match(i, best.value, bestDiff)];
      }
      i := i + 1;
    }
  }

  predicate Within(a: Tolerances, b: Tolerances)
  {
    a.timeSec <= b.timeSec && a.distKm <= b.distKm && a.magTol <= b.magTol
  }

  /** Tightening all three tolerances can only shrink the set of matched
   *  sources. */
  lemma MatchedSourcesMonotone(sources: seq<Quake>, targets: seq<Quake>, tight: Tolerances, loose: Tolerances, dist: (Quake, Quake) -> real)
    requires Within(tight, loose)
    ensures MatchedSources(RawMatchesOf(sources, targets, tight, dist, |sources|)) <=
            MatchedSources(RawMatchesOf(sources, targets, loose, dist, |sources|))
  {
    var n := |sources|;
    forall i | i in MatchedSources(RawMatchesOf(sources, targets, tight, dist, n))
      ensures i in MatchedSources(RawMatchesOf(sources, targets, loose, dist, n))
    {
      var ms := RawMatchesOf(sources, targets, tight, dist, n);
      var m :| m in ms && m.src == i;
      var a :| 0 <= a < |ms| && ms[a] == m;
      RawMatchAt(sources, targets, tight, dist, n, a);
      RawMatchedIff(sources, targets, tight, dist, n, i);
      RawMatchedIff(sources, targets, loose, dist, n, i);
      BestInSpec(sources[i], targets, tight, dist, |targets|);
      BestInSpec(sources[i], targets, loose, dist, |targets|);
      var j :| 0 <= j < |targets| && Admissible(sources[i], targets[j], tight, dist);
      assert Admissible(sources[i], targets[j], loose, dist);
    }
  }

  // ---------------------------------------------------------------------
  // One-to-one assignment
  // ---------------------------------------------------------------------

  predicate SortedByDiff(ms: seq<Match>)
  {
    forall a, b :: 0 <= a < b < |ms| ==> ms[a].diff <= ms[b].diff
  }

  /** m placed after every match of no larger difference. */
  function InsertByDiff(sorted: seq<Match>, m: Match): (r: seq<Match>)
    ensures multiset(r) == multiset(sorted) + multiset{m}
  {
    if sorted == [] then [m]
    else if m.diff < sorted[0].diff then [m] + sorted
    else
      assert sorted == [sorted[0]] + sorted[1..];
      [sorted[0]] + InsertByDiff(sorted[1..], m)
  }

  lemma {:induction false} InsertByDiffSorted(sorted: seq<Match>, m: Match)
    requires SortedByDiff(sorted)
    ensures SortedByDiff(InsertByDiff(sorted, m))
  {
    if sorted != [] && m.diff >= sorted[0].diff {
      var rest := InsertByDiff(sorted[1..], m);
      InsertByDiffSorted(sorted[1..], m);
      forall a | 0 <= a < |rest|
        ensures sorted[0].diff <= rest[a].diff
      {
        assert rest[a] in multiset(rest);
        assert rest[a] == m || rest[a] in multiset(sorted[1..]);
      }
    }
  }

  /** `matches.sort(key=lambda x: x[2])`: a stable sort by time difference. */
  function SortByDiff(ms: seq<Match>): (r: seq<Match>)
    ensures multiset(r) == multiset(ms)
  {
    if ms == [] then []
    else
      var n := |ms| - 1;
      assert ms == ms[..n] + [ms[n]];
      InsertByDiff(SortByDiff(ms[..n]), ms[n])
  }

  /** The sort orders by time difference. */
  lemma {:induction false} SortByDiffSorted(ms: seq<Match>)
    ensures SortedByDiff(SortByDiff(ms))
  {
    if ms != [] {
      var n := |ms| - 1;
      SortByDiffSorted(ms[..n]);
      InsertByDiffSorted(SortByDiff(ms[..n]), ms[n]);
    }
  }

  datatype Pair = Pair(src: nat, tgt: nat)

  function Sources(f: seq<Pair>): set<nat>
  {
    set p | p in f :: p.src
  }

  function Targets(f: seq<Pair>): set<nat>
  {
    set p | p in f :: p.tgt
  }

  /** The greedy pass: a match is kept unless its source or its target is
   *  already used. */
  function Greedy(ms: seq<Match>): seq<Pair>
  {
    if ms == [] then []
    else
      var f := Greedy(ms[..|ms| - 1]);
      var m := ms[|ms| - 1];
      if m.tgt !in Targets(f) && m.src !in Sources(f) then f + [Pair(m.src, m.tgt)] else f
  }

  lemma SourcesSnoc(f: seq<Pair>, p: Pair)
    ensures Sources(f + [p]) == Sources(f) + {p.src}
    ensures Targets(f + [p]) == Targets(f) + {p.tgt}
  {
    assert forall q :: q in f + [p] <==> q in f || q == p;
  }

  /** Every kept pair is one of the matches. */
  lemma {:induction false} GreedyKeepsMatches(ms: seq<Match>, a: nat)
    requires a < |Greedy(ms)|
    ensures exists i :: 0 <= i < |ms| && Greedy(ms)[a] == Pair(ms[i].src, ms[i].tgt)
  {
    var n := |ms| - 1;
    var f := Greedy(ms[..n]);
    if a < |f| {
      GreedyKeepsMatches(ms[..n], a);
      var i :| 0 <= i < n && f[a] == Pair(ms[..n][i].src, ms[..n][i].tgt);
      assert Greedy(ms)[a] == f[a];
    } else {
      assert Greedy(ms)[a] == Pair(ms[n].src, ms[n].tgt);
    }
  }

  /** No source and no target is assigned twice. */
  lemma {:induction false} GreedyDistinct(ms: seq<Match>, a: nat, b: nat)
    requires a < b < |Greedy(ms)|
    ensures Greedy(ms)[a].src != Greedy(ms)[b].src && Greedy(ms)[a].tgt != Greedy(ms)[b].tgt
  {
    var n := |ms| - 1;
    var f := Greedy(ms[..n]);
    var g := Greedy(ms);
    if b < |f| {
      GreedyDistinct(ms[..n], a, b);
      assert g[a] == f[a] && g[b] == f[b];
    } else {
      assert g[a] == f[a] && f[a] in f;
    }
  }

  /** So as many sources and targets are used as pairs are kept. */
  lemma {:induction false} GreedyUsedCount(ms: seq<Match>)
    ensures |Sources(Greedy(ms))| == |Greedy(ms)| && |Targets(Greedy(ms))| == |Greedy(ms)|
  {
    if ms != [] {
      var n := |ms| - 1;
      GreedyUsedCount(ms[..n]);
      var f := Greedy(ms[..n]);
      var m := ms[n];
      if m.tgt !in Targets(f) && m.src !in Sources(f) {
        SourcesSnoc(f, Pair(m.src, m.tgt));
      }
    }
  }

  /** A match is dropped only when its source or its target was used. */
  lemma {:induction false} GreedyDropsOnlyUsed(ms: seq<Match>, i: nat)
    requires i < |ms|
    ensures var f := Greedy(ms);
      Pair(ms[i].src, ms[i].tgt) in f || ms[i].src in Sources(f) || ms[i].tgt in Targets(f)
  {
    var n := |ms| - 1;
    var f := Greedy(ms[..n]);
    var m := ms[n];
    var kept := m.tgt !in Targets(f) && m.src !in Sources(f);
    if kept {
      SourcesSnoc(f, Pair(m.src, m.tgt));
    }
    if i < n {
      GreedyDropsOnlyUsed(ms[..n], i);
      assert ms[..n][i] == ms[i];
    }
  }

  /** The greedy loop with its two sets of used indices. */
  method GreedyOneToOne(ms: seq<Match>) returns (f: seq<Pair>)
    ensures f == Greedy(ms)
  {
    f := [];
    var usedTargets: set<nat> := {};
    var usedSources: set<nat> := {};
    var i := 0;
    while i < |ms|
      invariant 0 <= i <= |ms|
      invariant f == Greedy(ms[..i])
      invariant usedTargets == Targets(f) && usedSources == Sources(f)
    {
      assert ms[..i + 1][..i] == ms[..i];
      var m := ms[i];
      if m.tgt !in usedTargets && m.src !in usedSources {
        SourcesSnoc(f, Pair(m.src, m.tgt));
        f := f + [Pair(m.src, m.tgt)];
        usedTargets := usedTargets + {m.tgt};
        usedSources := usedSources + {m.src};
      }
      i := i + 1;
    }
    assert ms[..i] == ms;
  }

  /** A set of indices below n has at most n elements. */
  lemma {:induction false} IndicesBelow(s: set<nat>, n: nat)
    requires forall x :: x in s ==> x < n
    ensures |s| <= n
  {
    if n > 0 {
      IndicesBelow(s - {n - 1}, n - 1);
    } else {
      assert s == {};
    }
  }

  /** `find_proximity_matches` as a value (on frames already sorted in
   *  time). */
  function ProximityMatchesOf(sources: seq<Quake>, targets: seq<Quake>, tol: Tolerances, dist: (Quake, Quake) -> real, oneToOne: bool): seq<Pair>
  {
    var raw := RawMatchesOf(sources, targets, tol, dist, |sources|);
    if oneToOne then Greedy(SortByDiff(raw))
    else seq(|raw|, a requires 0 <= a < |raw| => Pair(raw[a].src, raw[a].tgt))
  }

  method FindProximityMatches(sources: seq<Quake>, targets: seq<Quake>, tol: Tolerances, dist: (Quake, Quake) -> real, oneToOne: bool)
    returns (pairs: seq<Pair>)
    requires Sorted(Times(targets))
    ensures pairs == ProximityMatchesOf(sources, targets, tol, dist, oneToOne)
  {
    var raw := RawMatches(sources, targets, tol, dist);
    if oneToOne {
      var sorted := SortByDiff(raw);
      pairs := GreedyOneToOne(sorted);
    } else {
      pairs := seq(|raw|, a requires 0 <= a < |raw| => Pair(raw[a].src, raw[a].tgt));
    }
  }

  /** In one-to-one mode every pair satisfies all three tolerances, and
   *  at most min(|sources|, |targets|) pairs are formed, so the counts of
   *  ComCat-only and ISC-GEM-only events, `len - matched`, are never
   *  negative. */
  lemma OneToOneCounts(sources: seq<Quake>, targets: seq<Quake>, tol: Tolerances, dist: (Quake, Quake) -> real)
    ensures var f := ProximityMatchesOf(sources, targets, tol, dist, true);
      (forall a :: 0 <= a < |f| ==>
        f[a].src < |sources| && f[a].tgt < |targets| && Admissible(sources[f[a].src], targets[f[a].tgt], tol, dist)) &&
      |f| <= |sources| && |f| <= |targets|
  {
    var raw := RawMatchesOf(sources, targets, tol, dist, |sources|);
    var sorted := SortByDiff(raw);
    var f := Greedy(sorted);
    forall a | 0 <= a < |f|
      ensures f[a].src < |sources| && f[a].tgt < |targets| && Admissible(sources[f[a].src], targets[f[a].tgt], tol, dist)
    {
      OneToOnePairAdmissible(sources, targets, tol, dist, a);
    }
    GreedyUsedCount(sorted);
    forall x | x in Sources(f)
      ensures x < |sources|
    {
      var p :| p in f && p.src == x;
      var a :| 0 <= a < |f| && f[a] == p;
    }
    forall x | x in Targets(f)
      ensures x < |targets|
    {
      var p :| p in f && p.tgt == x;
      var a :| 0 <= a < |f| && f[a] == p;
    }
    IndicesBelow(Sources(f), |sources|);
    IndicesBelow(Targets(f), |targets|);
  }

  lemma OneToOnePairAdmissible(sources: seq<Quake>, targets: seq<Quake>, tol: Tolerances, dist: (Quake, Quake) -> real, a: nat)
    requires a < |ProximityMatchesOf(sources, targets, tol, dist, true)|
    ensures var p := ProximityMatchesOf(sources, targets, tol, dist, true)[a];
      p.src < |sources| && p.tgt < |targets| && Admissible(sources[p.src], targets[p.tgt], tol, dist)
  {
    var raw := RawMatchesOf(sources, targets, tol, dist, |sources|);
    var sorted := SortByDiff(raw);
    var f := Greedy(sorted);
    GreedyKeepsMatches(sorted, a);
    var i :| 0 <= i < |sorted| && f[a] == Pair(sorted[i].src, sorted[i].tgt);
    assert sorted[i] in multiset(raw);
    var b :| 0 <= b < |raw| && raw[b] == sorted[i];
    RawMatchAt(sources, targets, tol, dist, |sources|, b);
    BestInSpec(sources[raw[b].src], targets, tol, dist, |targets|);
  }

  // ---------------------------------------------------------------------
  // Labels and buckets
  // ---------------------------------------------------------------------

  /** `mag_band_label`: four bands cut at 6.5, 7.0 and 7.5. */
  function MagBandLabel(mag: real): (l: string)
    ensures l == "6.0-6.4" <==> mag < 6.5
    ensures l == "6.5-6.9" <==> 6.5 <= mag < 7.0
    ensures l == "7.0-7.4" <==> 7.0 <= mag < 7.5
    ensures l == "7.5+" <==> 7.5 <= mag
  {
    if mag < 6.5 then "6.0-6.4"
    else if mag < 7.0 then "6.5-6.9"
    else if mag < 7.5 then "7.0-7.4"
    else "7.5+"
  }

  /** `decade_label`: `(year // 10) * 10` followed by "s". */
  function DecadeLabel(year: int): (l: string)
    ensures |l| >= 2 && l[|l| - 1] == 's'
  {
    IntToString((year / 10) * 10) + "s"
  }

  /** The decade named by the label is the multiple of ten at or below the
   *  year. */
  lemma DecadeLabelSpec(year: int)
    ensures var dec := (year / 10) * 10;
      dec % 10 == 0 && dec <= year < dec + 10 &&
      ParseInt(DecadeLabel(year)[..|DecadeLabel(year)| - 1]) == dec
  {
    var q := year / 10;
    var dec := q * 10;
    assert year == q * 10 + year % 10;
    assert dec % 10 == 0;
    assert DecadeLabel(year)[..|DecadeLabel(year)| - 1] == IntToString(dec);
    IntToStringRoundTrip(dec);
  }

  /** Distinct decades get distinct labels. */
  lemma DecadeLabelInjective(year: int, other: int)
    ensures DecadeLabel(year) == DecadeLabel(other) <==> year / 10 == other / 10
  {
    if DecadeLabel(year) == DecadeLabel(other) {
      var d1 := (year / 10) * 10;
      var d2 := (other / 10) * 10;
      assert DecadeLabel(year)[..|DecadeLabel(year)| - 1] == IntToString(d1);
      assert DecadeLabel(other)[..|DecadeLabel(other)| - 1] == IntToString(d2);
      IntToStringInjective(d1, d2);
    }
  }

  /** `get_id_prefix`: "iscgem" is checked before "us". */
  function IdPrefix(id: string): (p: string)
    ensures p == "iscgem" <==> "iscgem" <= id
    ensures p == "us_native" <==> !("iscgem" <= id) && "us" <= id
    ensures p == "other" <==> !("iscgem" <= id) && !("us" <= id)
  {
    if "iscgem" <= id then "iscgem"
    else if "us" <= id then "us_native"
    else "other"
  }

  /** The decade buckets of the duplicate candidates: before 1960, the
   *  1960s, the 1970s, and 1980 onward. */
  datatype DupDecades = DupDecades(d1950s: nat, d1960s: nat, d1970s: nat, d1980sPlus: nat)

  function Bucket(d: DupDecades, year: int): (r: DupDecades)
    ensures r.d1950s + r.d1960s + r.d1970s + r.d1980sPlus == d.d1950s + d.d1960s + d.d1970s + d.d1980sPlus + 1
  {
    if year < 1960 then d.(d1950s := d.d1950s + 1)
    else if year < 1970 then d.(d1960s := d.d1960s + 1)
    else if year < 1980 then d.(d1970s := d.d1970s + 1)
    else d.(d1980sPlus := d.d1980sPlus + 1)
  }

  function DupDecadesOf(years: seq<int>): DupDecades
  {
    if years == [] then DupDecades(0, 0, 0, 0)
    else Bucket(DupDecadesOf(years[..|years| - 1]), years[|years| - 1])
  }

  /** The buckets sum to the number of duplicate candidates. */
  lemma {:induction false} DupDecadesSum(years: seq<int>)
    ensures var d := DupDecadesOf(years); d.d1950s + d.d1960s + d.d1970s + d.d1980sPlus == |years|
  {
    if years != [] {
      DupDecadesSum(years[..|years| - 1]);
    }
  }

  /** The loop over the duplicate matches, bucketing each source's year. */
  method CountDupDecades(years: seq<int>) returns (d: DupDecades)
    ensures d == DupDecadesOf(years)
  {
    d := DupDecades(0, 0, 0, 0);
    var i := 0;
    while i < |years|
      invariant 0 <= i <= |years|
      invariant d == DupDecadesOf(years[..i])
    {
      assert years[..i + 1][..i] == years[..i];
      var year := years[i];
      if year < 1960 {
        d := d.(d1950s := d.d1950s + 1);
      } else if year < 1970 {
        d := d.(d1960s := d.d1960s + 1);
      } else if year < 1980 {
        d := d.(d1970s := d.d1970s + 1);
      } else {
        d := d.(d1980sPlus := d.d1980sPlus + 1);
      }
      i := i + 1;
    }
    assert years[..i] == years;
  }

  /** The direct ID cross-reference: the iscgem-prefixed ComCat IDs found
   *  and not found among the ISC-GEM IDs, and the ISC-GEM IDs missing
   *  from ComCat. */
  datatype IdCrossRef = IdCrossRef(matched: set<string>, unmatched: set<string>, notInComcat: set<string>)

  function IdCrossRefOf(comcatIscgemIds: set<string>, iscgemIds: set<string>, comcatIds: set<string>): IdCrossRef
  {
    IdCrossRef(comcatIscgemIds * iscgemIds, comcatIscgemIds - iscgemIds, iscgemIds - comcatIds)
  }

  /** Matched and unmatched split the iscgem-prefixed IDs. */
  lemma IdCrossRefSplit(comcatIscgemIds: set<string>, iscgemIds: set<string>, comcatIds: set<string>)
    ensures var r := IdCrossRefOf(comcatIscgemIds, iscgemIds, comcatIds);
      r.matched !! r.unmatched && r.matched + r.unmatched == comcatIscgemIds &&
      |r.matched| + |r.unmatched| == |comcatIscgemIds|
  {
    var r := IdCrossRefOf(comcatIscgemIds, iscgemIds, comcatIds);
    assert r.matched + r.unmatched == comcatIscgemIds;
  }
}
