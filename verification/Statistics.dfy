/** The duration statistics of a benchmark cell (benchmark/harness/harness.ts, lines 542-558
    and 764-777), over exact reals. */
module Statistics {
  import opened Sorting

  function Median(sorted: seq<real>): real {
    if |sorted| == 0 then 0.0
    else
      var mid := |sorted| / 2;
      if |sorted| % 2 == 1 then sorted[mid] else (sorted[mid - 1] + sorted[mid]) / 2.0
  }

  function Ceiling(x: real): int {
    if x == x.Floor as real then x.Floor else x.Floor + 1
  }

  /** The value at a fractional position, between its two neighbours. */
  function Interpolate(sorted: seq<real>, rank: real): real
    requires 0.0 <= rank <= (|sorted| - 1) as real
  {
    var lo, hi := rank.Floor, Ceiling(rank);
    if lo == hi then sorted[lo]
    else
      var frac := rank - lo as real;
      sorted[lo] * (1.0 - frac) + sorted[hi] * frac
  }

  function RankOf(n: nat, p: real): (r: real)
    requires n > 0 && 0.0 <= p <= 100.0
    ensures 0.0 <= r <= (n - 1) as real
  {
    RankInRange(n, p);
    (p / 100.0) * (n - 1) as real
  }

  function Percentile(sorted: seq<real>, p: real): real
    requires 0.0 <= p <= 100.0
  {
    if |sorted| == 0 then 0.0
    else if |sorted| == 1 then sorted[0]
    else Interpolate(sorted, RankOf(|sorted|, p))
  }

  lemma Scale(x: real, y: real, k: real)
    requires x <= y && 0.0 <= k
    ensures x * k <= y * k
  {
  }

  lemma RankInRange(n: nat, p: real)
    requires n > 0 && 0.0 <= p <= 100.0
    ensures 0.0 <= (p / 100.0) * (n - 1) as real <= (n - 1) as real
  {
    Scale(0.0, p / 100.0, (n - 1) as real);
    Scale(p / 100.0, 1.0, (n - 1) as real);
  }

  predicate Ascending(s: seq<real>) {
    forall i, j | 0 <= i < j < |s| :: s[i] <= s[j]
  }

  /** Between neighbours the value stays between theirs. */
  lemma Between(a: real, b: real, f: real)
    requires a <= b && 0.0 <= f <= 1.0
    ensures a <= a * (1.0 - f) + b * f <= b
    ensures a * (1.0 - f) + b * f == a + (b - a) * f
  {
    Scale(0.0, f, b - a);
    Scale(f, 1.0, b - a);
  }

  lemma InterpolateCell(s: seq<real>, rank: real)
    requires Ascending(s) && 0.0 <= rank <= (|s| - 1) as real
    ensures var lo, hi := rank.Floor, Ceiling(rank);
      0 <= lo <= hi < |s| && s[lo] <= Interpolate(s, rank) <= s[hi]
  {
    var lo, hi := rank.Floor, Ceiling(rank);
    if lo != hi {
      Between(s[lo], s[hi], rank - lo as real);
    }
  }

  lemma InterpolateMonotone(s: seq<real>, x: real, y: real)
    requires Ascending(s) && 0.0 <= x <= y <= (|s| - 1) as real
    ensures Interpolate(s, x) <= Interpolate(s, y)
  {
    InterpolateCell(s, x);
    InterpolateCell(s, y);
    if x.Floor == y.Floor && Ceiling(x) == Ceiling(y) && x.Floor != Ceiling(x) {
      var lo, hi := x.Floor, Ceiling(x);
      Between(s[lo], s[hi], x - lo as real);
      Between(s[lo], s[hi], y - lo as real);
      Scale(x - lo as real, y - lo as real, s[hi] - s[lo]);
    }
  }

  lemma RankMonotone(n: nat, p: real, q: real)
    requires n > 0 && 0.0 <= p <= q <= 100.0
    ensures RankOf(n, p) <= RankOf(n, q)
  {
    var a, b, k := p / 100.0, q / 100.0, (n - 1) as real;
    Scale(a, b, k);
    assert RankOf(n, p) == a * k;
    assert RankOf(n, q) == b * k;
  }

  /** A higher percentile is never a smaller value. */
  lemma PercentileMonotone(s: seq<real>, p: real, q: real)
    requires Ascending(s) && 0.0 <= p <= q <= 100.0
    ensures Percentile(s, p) <= Percentile(s, q)
  {
    if |s| > 1 {
      RankMonotone(|s|, p, q);
      hide RankOf;
      InterpolateMonotone(s, RankOf(|s|, p), RankOf(|s|, q));
    }
  }

  lemma PercentileEnds(s: seq<real>)
    requires s != []
    ensures Percentile(s, 0.0) == s[0] && Percentile(s, 100.0) == s[|s| - 1]
  {
    var n := |s|;
    assert RankOf(n, 0.0) == 0.0 && RankOf(n, 100.0) == (n - 1) as real;
  }

  lemma Halves(a: real, b: real)
    ensures a * (1.0 - 0.5) + b * 0.5 == (a + b) / 2.0
  {
  }

  /** The median is the 50th percentile, for any list. */
  lemma MedianIsPercentile50(s: seq<real>)
    ensures Median(s) == Percentile(s, 50.0)
  {
    if |s| > 1 {
      var n, mid := |s|, |s| / 2;
      var rank := RankOf(n, 50.0);
      assert rank == (n - 1) as real / 2.0;
      if n % 2 == 1 {
        assert n - 1 == 2 * mid;
        assert rank == mid as real;
      } else {
        assert n - 1 == 2 * (mid - 1) + 1;
        assert rank == (mid - 1) as real + 0.5;
        assert rank.Floor == mid - 1 && Ceiling(rank) == mid;
        assert rank - (mid - 1) as real == 0.5;
        Halves(s[mid - 1], s[mid]);
      }
    }
  }

  // ----- the duration block

  datatype DurationStats = DurationStats(min: real, median: real, mean: real, p95: real, max: real)

  predicate Smaller(a: real, b: real) { a < b }

  function Sum(s: seq<real>): real {
    if s == [] then 0.0 else s[0] + Sum(s[1..])
  }

  function Durations(completed: seq<real>): DurationStats {
    var s := Sort(Smaller, completed);
    DurationStats(
      if s == [] then 0.0 else s[0],
      Median(s),
      if completed == [] then 0.0 else Sum(completed) / |completed| as real,
      Percentile(s, 95.0),
      if s == [] then 0.0 else s[|s| - 1])
  }

  lemma SmallerTotal()
    ensures StrictTotal(Smaller)
  {
  }

  lemma {:induction false} SumBounds(s: seq<real>, lo: real, hi: real)
    requires forall x | x in s :: lo <= x <= hi
    ensures lo * |s| as real <= Sum(s) <= hi * |s| as real
  {
    if s != [] {
      assert s[0] in s && forall x | x in s[1..] :: x in s;
      SumBounds(s[1..], lo, hi);
      OneMore(lo, |s[1..]|);
      OneMore(hi, |s[1..]|);
    }
  }

  lemma OneMore(x: real, n: nat)
    ensures x * (n + 1) as real == x * n as real + x
  {
    assert (n + 1) as real == n as real + 1.0;
  }

  lemma SortedDurations(completed: seq<real>)
    ensures var s := Sort(Smaller, completed);
      Ascending(s) && |s| == |completed| && forall x :: x in completed <==> x in s
  {
    var s := Sort(Smaller, completed);
    SmallerTotal();
    TotalIsWeak(Smaller);
    SortSorted(Smaller, completed);
    assert |s| == |multiset(s)| == |multiset(completed)| == |completed|;
    assert forall x :: x in completed <==> x in multiset(completed);
    assert forall x :: x in s <==> x in multiset(s);
    assert forall i, j | 0 <= i < j < |s| :: !Smaller(s[j], s[i]);
  }

  lemma MeanBounds(completed: seq<real>, lo: real, hi: real)
    requires completed != [] && forall x | x in completed :: lo <= x <= hi
    ensures lo <= Sum(completed) / |completed| as real <= hi
  {
    SumBounds(completed, lo, hi);
    hide Sum;
    Quotient(lo, Sum(completed), hi, |completed| as real);
  }

  lemma Quotient(lo: real, x: real, hi: real, n: real)
    requires n > 0.0 && lo * n <= x <= hi * n
    ensures lo <= x / n <= hi
  {
    Whole(x, n);
    if x / n < lo {
      Strict(x / n, lo, n);
    }
    if hi < x / n {
      Strict(hi, x / n, n);
    }
  }

  lemma Strict(x: real, y: real, k: real)
    requires x < y && 0.0 < k
    ensures x * k < y * k
  {
  }

  /** The reported numbers are in order, and the mean lies within the extremes. */
  lemma StatsOrdered(completed: seq<real>)
    ensures var d := Durations(completed);
      d.min <= d.median <= d.p95 <= d.max && d.min <= d.mean <= d.max
  {
    var s := Sort(Smaller, completed);
    SortedDurations(completed);
    MedianIsPercentile50(s);
    hide Percentile, Median, Sort, Sum, Ascending;
    PercentileMonotone(s, 0.0, 50.0);
    PercentileMonotone(s, 50.0, 95.0);
    PercentileMonotone(s, 95.0, 100.0);
    if completed != [] {
      PercentileEnds(s);
      MeanBetween(completed, s);
    } else {
      NoDurations(s);
    }
  }

  lemma MeanBetween(completed: seq<real>, s: seq<real>)
    requires completed != [] && Ascending(s) && forall x | x in completed :: x in s
    ensures s != [] && s[0] <= Sum(completed) / |completed| as real <= s[|s| - 1]
  {
    assert completed[0] in completed;
    forall x | x in completed ensures s[0] <= x <= s[|s| - 1] {
      var i :| 0 <= i < |s| && s[i] == x;
    }
    MeanBounds(completed, s[0], s[|s| - 1]);
  }

  lemma NoDurations(s: seq<real>)
    requires s == []
    ensures Percentile(s, 95.0) == 0.0 && Median(s) == 0.0
  {
  }

  // ----- what the numbers are

  /** The mean times the number of runs is the sum of their durations, which adds up over any
      split of the runs. */
  lemma MeanIsSum(completed: seq<real>, a: seq<real>, b: seq<real>, x: real)
    ensures Durations(completed).mean * |completed| as real == Sum(completed)
    ensures Sum([]) == 0.0 && Sum([x]) == x && Sum(a + b) == Sum(a) + Sum(b)
  {
    SumConcat(a, b);
    SumSmall(x);
    MeanIs(completed);
    hide *;
    if completed != [] {
      Whole(Sum(completed), |completed| as real);
    } else {
      Whole(0.0, 1.0);
    }
  }

  lemma SumSmall(x: real)
    ensures Sum([]) == 0.0 && Sum([x]) == x
  {
    assert [x][1..] == [];
  }

  lemma MeanIs(completed: seq<real>)
    ensures Durations(completed).mean == if completed == [] then 0.0 else Sum(completed) / |completed| as real
    ensures completed == [] ==> Sum(completed) == 0.0 && |completed| as real == 0.0
  {
  }

  lemma Whole(x: real, n: real)
    requires n > 0.0
    ensures x / n * n == x
  {
  }

  /** The least and the greatest are durations of runs, and bound all of them. */
  lemma ExtremesAttained(completed: seq<real>)
    ensures completed != [] ==> Durations(completed).min in completed && Durations(completed).max in completed
    ensures forall x | x in completed :: Durations(completed).min <= x <= Durations(completed).max
  {
    var s := Sort(Smaller, completed);
    SortedDurations(completed);
    hide Percentile, Median, Sort, Sum;
    if completed != [] {
      assert s[0] in s && s[|s| - 1] in s;
    }
    forall x | x in completed ensures Durations(completed).min <= x <= Durations(completed).max {
      var i :| 0 <= i < |s| && s[i] == x;
    }
  }

  lemma {:induction false} SumConcat(a: seq<real>, b: seq<real>)
    ensures Sum(a + b) == Sum(a) + Sum(b)
  {
    if a == [] {
      assert a + b == b;
    } else {
      SumConcat(a[1..], b);
      assert (a + b)[1..] == a[1..] + b;
    }
  }

  /** The percentile that falls on an element is that element, and between two elements it
      moves evenly from the one to the other. */
  lemma PercentileIsLinear(s: seq<real>, p: real, k: nat, f: real)
    requires k + 1 < |s| && 0.0 <= f <= 1.0 && 0.0 <= p <= 100.0
    requires p * (|s| - 1) as real == 100.0 * (k as real + f)
    ensures Percentile(s, p) == s[k] + (s[k + 1] - s[k]) * f
  {
    var x := k as real + f;
    Hundredth(p, (|s| - 1) as real, x);
    assert RankOf(|s|, p) == x;
    hide RankOf;
    if f == 1.0 {
      assert x.Floor == k + 1;
    } else {
      assert x.Floor == k;
      Evenly(s[k], s[k + 1], f);
    }
  }

  /** The reported median is the middle duration, or half way between the two in the middle,
      and the reported 95th percentile lies `f` of the way from the `k`-th to the next, where
      `k + f` is 95 hundredths of the last position. */
  lemma MiddleAndTail(completed: seq<real>, s: seq<real>, k: nat, f: real)
    requires Ascending(s) && multiset(s) == multiset(completed)
    ensures |s| % 2 == 1 ==> Durations(completed).median == s[|s| / 2]
    ensures |s| % 2 == 0 && s != [] ==> Durations(completed).median == (s[|s| / 2 - 1] + s[|s| / 2]) / 2.0
    ensures |s| == 1 ==> Durations(completed).p95 == s[0]
    ensures k + 1 < |s| && 0.0 <= f <= 1.0 && 95.0 * (|s| - 1) as real == 100.0 * (k as real + f) ==>
      Durations(completed).p95 == s[k] + (s[k + 1] - s[k]) * f
  {
    SortedOnce(completed, s);
    SortedStats(completed);
    hide Sort, Sum, Ascending, Durations, Percentile;
    if k + 1 < |s| && 0.0 <= f <= 1.0 && 95.0 * (|s| - 1) as real == 100.0 * (k as real + f) {
      PercentileIsLinear(s, 95.0, k, f);
    }
    if |s| == 1 {
      PercentileOfOne(s, 95.0);
    }
  }

  lemma PercentileOfOne(s: seq<real>, p: real)
    requires |s| == 1 && 0.0 <= p <= 100.0
    ensures Percentile(s, p) == s[0]
  {
  }

  lemma SortedOnce(completed: seq<real>, s: seq<real>)
    requires Ascending(s) && multiset(s) == multiset(completed)
    ensures Sort(Smaller, completed) == s
  {
    hide Sort;
    SmallerTotal();
    assert forall i, j | 0 <= i < j < |s| :: !Smaller(s[j], s[i]);
    SortCanonical(Smaller, s, completed);
  }

  lemma SortedStats(completed: seq<real>)
    ensures var s := Sort(Smaller, completed); var d := Durations(completed);
      d.median == Median(s) && d.p95 == Percentile(s, 95.0)
  {
    hide Sort, Sum, Median, Percentile;
  }

  lemma Hundredth(p: real, n: real, x: real)
    requires p * n == 100.0 * x
    ensures (p / 100.0) * n == x
  {
    assert (p / 100.0) * n == (p * n) / 100.0;
  }

  lemma Evenly(a: real, b: real, f: real)
    ensures a * (1.0 - f) + b * f == a + (b - a) * f
  {
  }

  /** The order in which runs completed does not matter to the sorted statistics. */
  lemma OrderFree(a: seq<real>, b: seq<real>)
    requires multiset(a) == multiset(b)
    ensures var d, e := Durations(a), Durations(b);
      d.min == e.min && d.median == e.median && d.p95 == e.p95 && d.max == e.max
  {
    SmallerTotal();
    SortCanonical(Smaller, a, b);
    hide Percentile, Median, Sort, Sum;
  }
}
