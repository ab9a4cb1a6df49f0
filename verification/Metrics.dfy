/** load_generator/src/metrics_collector.cpp: counters, latency samples and the final report.
    The doubles of the report are reals here, so nothing is lost to rounding. */
module Metrics {

  // ---------------------------------------------------------------------------------------
  // Sorted samples

  predicate Sorted(s: seq<int>) {
    forall i, j :: 0 <= i < j < |s| ==> s[i] <= s[j]
  }

  function Insert(s: seq<int>, x: int): (r: seq<int>)
    ensures |r| == |s| + 1
  {
    if s == [] || s[|s| - 1] <= x then s + [x] else Insert(s[..|s| - 1], x) + [s[|s| - 1]]
  }

  function SortedOf(xs: seq<int>): (r: seq<int>)
    ensures |r| == |xs|
  {
    if xs == [] then [] else Insert(SortedOf(xs[..|xs| - 1]), xs[|xs| - 1])
  }

  lemma {:induction false} InsertKeeps(s: seq<int>, x: int)
    ensures multiset(Insert(s, x)) == multiset(s) + multiset{x}
  {
    if s != [] && s[|s| - 1] > x {
      var n := |s| - 1;
      InsertKeeps(s[..n], x);
      assert s == s[..n] + [s[n]];
    }
  }

  /** Inserting leaves everything at or below a bound that was there before. */
  lemma InsertBelow(s: seq<int>, x: int, hi: int)
    requires x <= hi && forall i :: 0 <= i < |s| ==> s[i] <= hi
    ensures forall i :: 0 <= i <= |s| ==> Insert(s, x)[i] <= hi
  {
    hide Insert;
    InsertKeeps(s, x);
    var r := Insert(s, x);
    forall i | 0 <= i < |r| ensures r[i] <= hi {
      assert r[i] in multiset(r);
      assert r[i] == x || r[i] in s;
    }
  }

  lemma {:induction false} InsertSorts(s: seq<int>, x: int)
    requires Sorted(s)
    ensures Sorted(Insert(s, x))
  {
    if s != [] && s[|s| - 1] > x {
      var n := |s| - 1;
      InsertSorts(s[..n], x);
      InsertBelow(s[..n], x, s[n]);
    }
  }

  /** SortedOf is an ordered permutation. */
  lemma {:induction false} SortedOfSorts(xs: seq<int>)
    ensures Sorted(SortedOf(xs)) && multiset(SortedOf(xs)) == multiset(xs)
  {
    if xs != [] {
      var n := |xs| - 1;
      SortedOfSorts(xs[..n]);
      InsertSorts(SortedOf(xs[..n]), xs[n]);
      InsertKeeps(SortedOf(xs[..n]), xs[n]);
      assert xs == xs[..n] + [xs[n]];
    }
  }

  lemma SameLast(s: seq<int>, t: seq<int>)
    requires Sorted(s) && Sorted(t) && multiset(s) == multiset(t) && s != [] && t != []
    ensures s[|s| - 1] == t[|t| - 1]
  {
    var x, y := s[|s| - 1], t[|t| - 1];
    assert x in multiset(t) && y in multiset(s);
  }

  lemma WithoutLast(s: seq<int>)
    requires Sorted(s) && s != []
    ensures Sorted(s[..|s| - 1]) && multiset(s) == multiset(s[..|s| - 1]) + multiset{s[|s| - 1]}
  {
    assert s == s[..|s| - 1] + [s[|s| - 1]];
  }

  lemma CancelOne(a: multiset<int>, b: multiset<int>, x: int)
    requires a + multiset{x} == b + multiset{x}
    ensures a == b
  {
    assert a == a + multiset{x} - multiset{x};
    assert b == b + multiset{x} - multiset{x};
  }

  /** There is only one, whichever way it is found. */
  lemma {:induction false} SortedUnique(s: seq<int>, t: seq<int>)
    requires |s| == |t| && Sorted(s) && Sorted(t) && multiset(s) == multiset(t)
    ensures s == t
    decreases |s|
  {
    hide Sorted;
    if s != [] {
      var n := |s| - 1;
      SameLast(s, t);
      WithoutLast(s);
      WithoutLast(t);
      CancelOne(multiset(s[..n]), multiset(t[..n]), s[n]);
      SortedUnique(s[..n], t[..n]);
      assert s == s[..n] + [s[n]] && t == t[..n] + [t[n]];
    }
  }

  /** Sorting in place, as the report does with its copy of the samples. */
  method Sort(a: array<int>)
    modifies a
    ensures a[..] == SortedOf(old(a[..]))
  {
    hide Insert;
    ghost var was := a[..];
    var n := 0;
    while n < a.Length
      invariant 0 <= n <= a.Length
      invariant a[..n] == SortedOf(was[..n]) && a[n..] == was[n..]
    {
      assert was[..n + 1][..n] == was[..n];
      assert a[n] == a[n..][0] == was[n];
      SinkLast(a, n);
      assert a[n + 1..] == was[n..][1..];
      n := n + 1;
    }
    assert a[..n] == a[..] && was[..n] == was;
  }

  /** Inserting goes down past what is larger. */
  lemma InsertStep(s: seq<int>, k: nat, x: int)
    requires k <= |s|
    ensures Insert(s[..k], x)
         == if k > 0 && x < s[k - 1] then Insert(s[..k - 1], x) + [s[k - 1]] else s[..k] + [x]
  {
    assert k > 0 ==> s[..k][..k - 1] == s[..k - 1];
  }

  /** Moves a[n] down to its place among a[..n]. */
  method SinkLast(a: array<int>, n: nat)
    requires n < a.Length
    modifies a
    ensures a[..n + 1] == Insert(old(a[..n]), old(a[n])) && a[n + 1..] == old(a[n + 1..])
  {
    hide Insert;
    ghost var was, x := a[..n], a[n];
    assert was[..n] == was;
    var k := n;
    while 0 < k && a[k] < a[k - 1]
      invariant 0 <= k <= n
      invariant a[..k] == was[..k] && a[k] == x
      invariant Insert(was, x) == Insert(was[..k], x) + a[k + 1..n + 1]
      invariant a[n + 1..] == old(a[n + 1..])
    {
      ghost var above := a[k + 1..n + 1];
      assert was[k - 1] == was[..k][k - 1] == a[k - 1];
      InsertStep(was, k, x);
      a[k - 1], a[k] := a[k], a[k - 1];
      assert a[k..n + 1] == [a[k]] + above;
      k := k - 1;
    }
    assert k > 0 ==> was[k - 1] == was[..k][k - 1] == a[k - 1];
    InsertStep(was, k, x);
    assert a[..n + 1] == a[..k] + [a[k]] + a[k + 1..n + 1];
  }

  // ---------------------------------------------------------------------------------------
  // The report

  function Total(xs: seq<int>): int {
    if xs == [] then 0 else Total(xs[..|xs| - 1]) + xs[|xs| - 1]
  }

  /** The rank the percentile num / den stands at among n samples. */
  function Rank(num: nat, den: nat, n: nat): (idx: nat)
    requires 0 < num < den && 0 < n
    ensures idx < n
  {
    RankInRange(num, den, n - 1);
    num * (n - 1) / den
  }

  lemma QuotientAtMost(x: nat, d: nat, m: nat)
    requires 0 < d && x <= d * m
    ensures x / d <= m
  {
    var q := x / d;
    assert q > m ==> d * q >= d * (m + 1);
  }

  lemma MulMonotonic(a: nat, b: nat, m: nat)
    requires a <= b
    ensures a * m <= b * m
  {
  }

  lemma RankInRange(num: nat, den: nat, m: nat)
    requires 0 < num < den
    ensures 0 <= num * m / den <= m
  {
    MulMonotonic(num, den, m);
    QuotientAtMost(num * m, den, m);
  }

  function Percentile(xs: seq<int>, num: nat, den: nat): int
    requires 0 < num < den && xs != []
  {
    SortedOf(xs)[Rank(num, den, |xs|)]
  }

  datatype Stats = Stats(
    count: nat, errors: nat, rps: real, mean: real, p50: real, p90: real, p99: real, min: real, max: real)

  function Throughput(count: nat, elapsed: real): real {
    if elapsed > 0.0 then count as real / elapsed else 0.0
  }

  function Report(count: nat, errors: nat, samples: seq<int>, elapsed: real): Stats {
    var rps := Throughput(count, elapsed);
    if samples == [] then Stats(count, errors, rps, 0.0, 0.0, 0.0, 0.0, 0.0, 0.0)
    else
      Stats(count, errors, rps, Total(samples) as real / |samples| as real,
            Percentile(samples, 50, 100) as real, Percentile(samples, 90, 100) as real,
            Percentile(samples, 99, 100) as real,
            SortedOf(samples)[0] as real, SortedOf(samples)[|samples| - 1] as real)
  }

  class MetricsCollector {
    var successes: nat
    var errors: nat
    var samples: seq<int>

    constructor ()
      ensures successes == 0 && errors == 0 && samples == []
    {
      successes, errors, samples := 0, 0, [];
    }

    /** record_success counts first and stores the sample second; other threads may run in
        between. */
    method CountSuccess()
      modifies this`successes
      ensures successes == old(successes) + 1
    {
      successes := successes + 1;
    }

    method StoreSample(us: int)
      modifies this`samples
      ensures samples == old(samples) + [us]
    {
      samples := samples + [us];
    }

    method RecordError()
      modifies this`errors
      ensures errors == old(errors) + 1
    {
      errors := errors + 1;
    }

    method Compute(elapsed: real) returns (s: Stats)
      ensures s == Report(successes, errors, samples, elapsed)
    {
      hide SortedOf, Total, Rank;
      var rps := Throughput(successes, elapsed);
      var copy := samples;
      var n := |copy|;
      if n == 0 {
        return Stats(successes, errors, rps, 0.0, 0.0, 0.0, 0.0, 0.0, 0.0);
      }
      var sorted := new int[n](i requires 0 <= i < n => copy[i]);
      assert sorted[..] == samples;
      Sort(sorted);
      var sum := AddUp(sorted);
      TotalOfSorted(samples);
      s := Stats(successes, errors, rps, sum as real / n as real,
                 sorted[Rank(50, 100, n)] as real, sorted[Rank(90, 100, n)] as real, sorted[Rank(99, 100, n)] as real,
                 sorted[0] as real, sorted[n - 1] as real);
    }
  }

  /** The loop over the sorted samples. */
  method AddUp(a: array<int>) returns (sum: int)
    ensures sum == Total(a[..])
  {
    sum := 0;
    var i := 0;
    while i < a.Length
      invariant 0 <= i <= a.Length && sum == Total(a[..i])
    {
      assert a[..i + 1][..i] == a[..i];
      sum := sum + a[i];
      i := i + 1;
    }
    assert a[..a.Length] == a[..];
  }

  // ---------------------------------------------------------------------------------------
  // What the report says

  lemma {:induction false} TotalOfInsert(s: seq<int>, x: int)
    ensures Total(Insert(s, x)) == Total(s) + x
  {
    if s == [] || s[|s| - 1] <= x {
      assert (s + [x])[..|s|] == s;
    } else {
      var n := |s| - 1;
      TotalOfInsert(s[..n], x);
      var r := Insert(s[..n], x);
      assert (r + [s[n]])[..|r|] == r;
    }
  }

  lemma {:induction false} TotalOfSorted(xs: seq<int>)
    ensures Total(SortedOf(xs)) == Total(xs)
  {
    if xs != [] {
      TotalOfSorted(xs[..|xs| - 1]);
      TotalOfInsert(SortedOf(xs[..|xs| - 1]), xs[|xs| - 1]);
    }
  }

  /** How many samples satisfy f. */
  function Count(xs: seq<int>, f: int -> bool): (c: nat)
    ensures c <= |xs|
  {
    if xs == [] then 0 else Count(xs[..|xs| - 1], f) + (if f(xs[|xs| - 1]) then 1 else 0)
  }

  lemma {:induction false} CountOfInsert(s: seq<int>, x: int, f: int -> bool)
    ensures Count(Insert(s, x), f) == Count(s, f) + (if f(x) then 1 else 0)
  {
    if s == [] || s[|s| - 1] <= x {
      assert (s + [x])[..|s|] == s;
    } else {
      var n := |s| - 1;
      CountOfInsert(s[..n], x, f);
      var r := Insert(s[..n], x);
      assert (r + [s[n]])[..|r|] == r;
    }
  }

  lemma {:induction false} CountOfSorted(xs: seq<int>, f: int -> bool)
    ensures Count(SortedOf(xs), f) == Count(xs, f)
  {
    if xs != [] {
      CountOfSorted(xs[..|xs| - 1], f);
      CountOfInsert(SortedOf(xs[..|xs| - 1]), xs[|xs| - 1], f);
    }
  }

  /** A stretch of the sequence that satisfies f throughout is counted. */
  lemma {:induction false} CountStretch(xs: seq<int>, f: int -> bool, lo: nat, hi: nat)
    requires lo <= hi <= |xs| && forall i :: lo <= i < hi ==> f(xs[i])
    ensures Count(xs, f) >= hi - lo
    decreases |xs|
  {
    if xs != [] {
      var n := |xs| - 1;
      if hi <= n {
        CountStretch(xs[..n], f, lo, hi);
      } else if lo <= n {
        CountStretch(xs[..n], f, lo, n);
      }
    }
  }

  function AtMost(v: real): int -> bool {
    x => x as real <= v
  }

  function AtLeast(v: real): int -> bool {
    x => x as real >= v
  }

  /** idx is num / den * (n - 1), rounded down. */
  predicate AtRank(idx: nat, num: nat, den: nat, n: nat) {
    idx * den <= num * (n - 1) < (idx + 1) * den
  }

  /** v is the percentile num / den of the samples, said without sorting them: a sample such that,
      with that rank, at least idx + 1 samples are no larger and at least n - idx no smaller. */
  ghost predicate IsPercentile(xs: seq<int>, v: real, num: nat, den: nat) {
    && (exists x <- xs :: v == x as real)
    && forall idx: nat :: AtRank(idx, num, den, |xs|) ==>
         Count(xs, AtMost(v)) >= idx + 1 && Count(xs, AtLeast(v)) >= |xs| - idx
  }

  lemma RankIs(num: nat, den: nat, n: nat, idx: nat)
    requires 0 < num < den && 0 < n && AtRank(idx, num, den, n)
    ensures Rank(num, den, n) == idx
  {
    var x := num * (n - 1);
    var q := x / den;
    assert q * den <= x < (q + 1) * den;
    if q < idx {
      MulMonotonic(q + 1, idx, den);
    } else if idx < q {
      MulMonotonic(idx + 1, q, den);
    }
  }

  lemma RankExists(num: nat, den: nat, n: nat) returns (idx: nat)
    requires 0 < num < den && 0 < n
    ensures AtRank(idx, num, den, n) && idx < n
  {
    var x := num * (n - 1);
    idx := x / den;
    assert idx * den <= x < (idx + 1) * den;
    RankInRange(num, den, n - 1);
  }

  lemma PercentileRanks(xs: seq<int>, num: nat, den: nat)
    requires 0 < num < den && xs != []
    ensures IsPercentile(xs, Percentile(xs, num, den) as real, num, den)
  {
    hide Rank, SortedOf, Count, AtRank;
    var s, i := SortedOf(xs), Rank(num, den, |xs|);
    var v := s[i] as real;
    SortedOfSorts(xs);
    assert s[i] in multiset(s);
    assert s[i] in xs && Percentile(xs, num, den) as real == s[i] as real == v;
    CountStretch(s, AtMost(v), 0, i + 1);
    CountStretch(s, AtLeast(v), i, |xs|);
    CountOfSorted(xs, AtMost(v));
    CountOfSorted(xs, AtLeast(v));
    forall idx: nat | AtRank(idx, num, den, |xs|) ensures idx == i {
      RankIs(num, den, |xs|, idx);
    }
  }

  lemma {:induction false} CountDisjoint(xs: seq<int>, f: int -> bool, g: int -> bool)
    requires forall x :: !f(x) || !g(x)
    ensures Count(xs, f) + Count(xs, g) <= |xs|
  {
    if xs != [] {
      CountDisjoint(xs[..|xs| - 1], f, g);
    }
  }

  /** There is only one such value. */
  lemma PercentileUnique(xs: seq<int>, v: real, w: real, num: nat, den: nat)
    requires 0 < num < den && xs != [] && IsPercentile(xs, v, num, den) && IsPercentile(xs, w, num, den)
    ensures v == w
  {
    hide AtRank, Count;
    var idx := RankExists(num, den, |xs|);
    if v < w {
      CountDisjoint(xs, AtMost(v), AtLeast(w));
    } else if w < v {
      CountDisjoint(xs, AtMost(w), AtLeast(v));
    }
  }

  lemma OneMore(a: int, n: nat)
    ensures a * (n + 1) == a * n + a
  {
  }

  lemma {:induction false} TotalBetween(xs: seq<int>, lo: int, hi: int)
    requires forall x <- xs :: lo <= x <= hi
    ensures lo * |xs| <= Total(xs) <= hi * |xs|
  {
    if xs != [] {
      var n := |xs| - 1;
      assert xs[n] in xs && forall x <- xs[..n] :: x in xs;
      TotalBetween(xs[..n], lo, hi);
      OneMore(lo, n);
      OneMore(hi, n);
    }
  }

  lemma RanksAscend(n: nat)
    requires n > 0
    ensures Rank(50, 100, n) <= Rank(90, 100, n) <= Rank(99, 100, n)
  {
  }

  lemma RealQuotient(lo: int, total: int, hi: int, n: nat)
    requires n > 0 && lo * n <= total <= hi * n
    ensures lo as real <= total as real / n as real <= hi as real
  {
    assert (lo * n) as real == lo as real * n as real && (hi * n) as real == hi as real * n as real;
    var q := total as real / n as real;
    assert q * n as real == total as real;
    assert q < lo as real ==> q * n as real < lo as real * n as real;
    assert hi as real < q ==> hi as real * n as real < q * n as real;
  }

  lemma ExtremesBound(xs: seq<int>)
    requires xs != []
    ensures forall x <- xs :: SortedOf(xs)[0] <= x <= SortedOf(xs)[|xs| - 1]
  {
    hide SortedOf;
    var s := SortedOf(xs);
    SortedOfSorts(xs);
    forall x <- xs ensures s[0] <= x <= s[|xs| - 1] {
      assert x in multiset(s);
    }
  }

  lemma PercentilesAscend(xs: seq<int>)
    requires xs != []
    ensures var s, n := SortedOf(xs), |xs|;
            s[0] <= Percentile(xs, 50, 100) <= Percentile(xs, 90, 100) <= Percentile(xs, 99, 100) <= s[n - 1]
  {
    hide Rank, SortedOf;
    SortedOfSorts(xs);
    RanksAscend(|xs|);
  }

  /** The figures of a report are in order: the minimum and maximum bound every sample, the
      mean and all percentiles, and the percentiles ascend. */
  lemma ReportInOrder(count: nat, errors: nat, samples: seq<int>, elapsed: real)
    requires samples != []
    ensures var r, s, n := Report(count, errors, samples, elapsed), SortedOf(samples), |samples|;
            && r.min <= r.p50 <= r.p90 <= r.p99 <= r.max
            && r.min == s[0] as real && r.max == s[n - 1] as real
            && (forall x <- samples :: s[0] <= x <= s[n - 1])
            && s[0] * n <= Total(samples) <= s[n - 1] * n
            && r.min <= r.mean <= r.max
  {
    hide SortedOf, Total, Percentile;
    var s, n := SortedOf(samples), |samples|;
    PercentilesAscend(samples);
    ExtremesBound(samples);
    TotalBetween(samples, s[0], s[n - 1]);
    RealQuotient(s[0], Total(samples), s[n - 1], n);
  }

  lemma QuotientTimes(x: real, y: real)
    requires y != 0.0
    ensures x / y * y == x
  {
  }

  /** What each figure of a report is: the counts as collected; the throughput and the mean by what
      they give multiplied out; and the 50th, 90th and 99th percentile, each its own. */
  lemma ReportFigures(count: nat, errors: nat, samples: seq<int>, elapsed: real)
    ensures var r := Report(count, errors, samples, elapsed);
            && r.count == count && r.errors == errors
            && (if elapsed > 0.0 then r.rps * elapsed == count as real else r.rps == 0.0)
            && (if samples == [] then r.mean == r.p50 == r.p90 == r.p99 == r.min == r.max == 0.0
                else
                  && r.mean * |samples| as real == Total(samples) as real
                  && IsPercentile(samples, r.p50, 50, 100) && IsPercentile(samples, r.p90, 90, 100)
                  && IsPercentile(samples, r.p99, 99, 100))
  {
    hide SortedOf, Total, Percentile, IsPercentile;
    if elapsed > 0.0 {
      QuotientTimes(count as real, elapsed);
    }
    if samples != [] {
      QuotientTimes(Total(samples) as real, |samples| as real);
      PercentileRanks(samples, 50, 100);
      PercentileRanks(samples, 90, 100);
      PercentileRanks(samples, 99, 100);
    }
  }
}
