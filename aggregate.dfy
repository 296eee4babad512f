/**
 The aggregation over the per-period sample lists: the exceedance count at
 a fixed score cutoff per period, the 2x2 cross-tabulation of (score at or
 below the cutoff) x (heterozygosity above 0.02), and the binning of the
 scores into 30 buckets of width 5 with `numpy.digitize`, reporting the
 midpoint and the mean of every non-empty bucket among the first 29.
 */
module Aggregate {
  import opened Heterozygosity
  import opened Reconcile

  /** The score cutoffs of periods 1..5. */
  const Cutoffs: seq<int> := [24, 22, 28, 28, 32]

  /** Heterozygosity above this counts as polymorphic. */
  const Threshold: real := 0.02

  /** `numpy.arange(start, stop, step)` for a positive step: the values
      `start + j * step` below `stop`. */
  function Arange(start: int, stop: int, step: int): (r: seq<int>)
    requires step > 0 && start <= stop
    ensures |r| == (stop - start + step - 1) / step
    ensures forall j :: 0 <= j < |r| ==> r[j] == start + j * step
  {
    seq((stop - start + step - 1) / step, j => start + j * step)
  }

  /** The lower bin edges `numpy.arange(0, 150, 5)`. */
  const Bins: seq<int> := Arange(0, 150, 5)

  /** The 30 edges are 0, 5, ..., 145. */
  lemma BinEdges()
    ensures |Bins| == 30 && forall j :: 0 <= j < |Bins| ==> Bins[j] == 5 * j
  {
  }

  // ---------------------------------------------------------------------
  // Exceedance count and cross-tabulation

  /** The samples among the first `|s|` whose heterozygosity is above the
      threshold exactly when `above` and whose score is at most the cutoff
      exactly when `within`. */
  function CountCell(s: seq<int>, h: seq<real>, cutoff: int, above: bool, within: bool): nat
    requires |s| <= |h|
  {
    if |s| == 0 then 0
    else CountCell(s[..|s| - 1], h, cutoff, above, within)
         + if (h[|s| - 1] > Threshold) == above && (s[|s| - 1] <= cutoff) == within then 1 else 0
  }

  /** The four cells partition the samples. */
  lemma {:induction false} CellsPartition(s: seq<int>, h: seq<real>, cutoff: int)
    requires |s| <= |h|
    ensures CountCell(s, h, cutoff, true, true) + CountCell(s, h, cutoff, true, false)
          + CountCell(s, h, cutoff, false, true) + CountCell(s, h, cutoff, false, false) == |s|
  {
    if |s| > 0 {
      CellsPartition(s[..|s| - 1], h, cutoff);
    }
  }

  /** The first loop of `plot_results` for one period: samples with score at
      most the cutoff and heterozygosity above the threshold. */
  method ExceedCount(s: seq<int>, h: seq<real>, cutoff: int) returns (count: nat)
    requires |s| <= |h|
    ensures count == CountCell(s, h, cutoff, true, true)
    ensures count <= |s|
  {
    count := 0;
    var j := 0;
    while j < |s|
      invariant 0 <= j <= |s|
      invariant count == CountCell(s[..j], h, cutoff, true, true)
    {
      assert s[..j + 1][..j] == s[..j];
      if s[j] <= cutoff && h[j] > Threshold {
        count := count + 1;
      }
      j := j + 1;
    }
    assert s[..j] == s;
    CellsPartition(s, h, cutoff);
  }

  /** `c1` counts all samples; `c2`/`c3` those above the threshold at or
      below / above the cutoff, `c4`/`c5` the others likewise. */
  datatype CrossTab = CrossTab(c1: nat, c2: nat, c3: nat, c4: nat, c5: nat)

  /** The second loop of `plot_results` for one period. */
  method CrossTabulate(s: seq<int>, h: seq<real>, cutoff: int) returns (t: CrossTab)
    requires |s| <= |h|
    ensures t.c1 == |s|
    ensures t.c2 == CountCell(s, h, cutoff, true, true) && t.c3 == CountCell(s, h, cutoff, true, false)
    ensures t.c4 == CountCell(s, h, cutoff, false, true) && t.c5 == CountCell(s, h, cutoff, false, false)
    ensures t.c1 == t.c2 + t.c3 + t.c4 + t.c5
  {
    var c1, c2, c3, c4, c5 := 0, 0, 0, 0, 0;
    var j := 0;
    while j < |s|
      invariant 0 <= j <= |s|
      invariant c1 == j
      invariant c2 == CountCell(s[..j], h, cutoff, true, true) && c3 == CountCell(s[..j], h, cutoff, true, false)
      invariant c4 == CountCell(s[..j], h, cutoff, false, true) && c5 == CountCell(s[..j], h, cutoff, false, false)
    {
      assert s[..j + 1][..j] == s[..j];
      c1 := c1 + 1;
      if h[j] > Threshold {
        if s[j] <= cutoff {
          c2 := c2 + 1;
        } else {
          c3 := c3 + 1;
        }
      } else {
        if s[j] <= cutoff {
          c4 := c4 + 1;
        } else {
          c5 := c5 + 1;
        }
      }
      j := j + 1;
    }
    assert s[..j] == s;
    t := CrossTab(c1, c2, c3, c4, c5);
    CellsPartition(s, h, cutoff);
  }

  // ---------------------------------------------------------------------
  // Binning

  /** `numpy.digitize(x, bins)` for increasing edges: the number of edges at
      most `x`. */
  function Digitize(x: int, bins: seq<int>): (i: nat)
    ensures i <= |bins|
  {
    if |bins| == 0 then 0 else Digitize(x, bins[..|bins| - 1]) + if bins[|bins| - 1] <= x then 1 else 0
  }

  predicate Increasing(bins: seq<int>)
  {
    forall i, j :: 0 <= i < j < |bins| ==> bins[i] < bins[j]
  }

  /** Over increasing edges the digitize index `i` brackets `x`:
      `bins[i-1] <= x < bins[i]`, with 0 below the first edge and `|bins|`
      from the last edge on. */
  lemma {:induction false} DigitizeBrackets(x: int, bins: seq<int>)
    requires Increasing(bins)
    ensures forall j :: 0 <= j < |bins| ==> (bins[j] <= x <==> j < Digitize(x, bins))
    ensures Digitize(x, bins) == 0 || bins[Digitize(x, bins) - 1] <= x
    ensures Digitize(x, bins) == |bins| || x < bins[Digitize(x, bins)]
  {
    if |bins| > 0 {
      var p := bins[..|bins| - 1];
      assert forall j :: 0 <= j < |p| ==> p[j] == bins[j];
      DigitizeBrackets(x, p);
    }
  }

  /** The bucket `vals[indices[j] - 1]` that a score goes to: an index of
      0, from a score below the first edge, selects `vals[-1]`, the last. */
  function BucketOf(score: int): (b: nat)
    ensures b < |Bins|
  {
    if Digitize(score, Bins) == 0 then |Bins| - 1 else Digitize(score, Bins) - 1
  }

  /** A score in [0, 145) goes to bucket `score / 5`; every other score,
      negative or at least 145, goes to the last bucket, 29. */
  lemma BucketClosedForm(score: int)
    ensures BucketOf(score) == if 0 <= score < 145 then score / 5 else 29
  {
    BinEdges();
    DigitizeBrackets(score, Bins);
    var d := Digitize(score, Bins);
    if 0 <= score < 145 {
      assert 0 < d < 30;
      assert 5 * (d - 1) <= score < 5 * d by {
        assert Bins[d - 1] == 5 * (d - 1);
        assert Bins[d] == 5 * d;
      }
    }
  }

  /** The heterozygosities, in sample order, of the samples whose score goes
      to bucket `b`. */
  function BucketContents(s: seq<int>, h: seq<real>, b: nat): seq<real>
    requires |s| <= |h|
  {
    if |s| == 0 then []
    else BucketContents(s[..|s| - 1], h, b) + if BucketOf(s[|s| - 1]) == b then [h[|s| - 1]] else []
  }

  /** The total number of values in a list of buckets. */
  function Total(vals: seq<seq<real>>): nat
  {
    if |vals| == 0 then 0 else Total(vals[..|vals| - 1]) + |vals[|vals| - 1]|
  }

  lemma {:induction false} TotalAppend(vals: seq<seq<real>>, b: nat, x: real)
    requires b < |vals|
    ensures Total(vals[b := vals[b] + [x]]) == Total(vals) + 1
  {
    var u := vals[b := vals[b] + [x]];
    var n := |vals| - 1;
    assert u[..n] == if b < n then vals[..n][b := vals[b] + [x]] else vals[..n];
    if b < n {
      TotalAppend(vals[..n], b, x);
    }
  }

  lemma {:induction false} TotalEmpty(n: nat)
    ensures Total(seq(n, _ => [])) == 0
  {
    if n > 0 {
      var e: seq<seq<real>> := seq(n, _ => []);
      assert e[..n - 1] == seq(n - 1, _ => []);
      TotalEmpty(n - 1);
    }
  }

  /** The binning loop: every sample goes to exactly one of the 30 buckets,
      so the bucket sizes add up to the number of samples. */
  method SortIntoBuckets(s: seq<int>, h: seq<real>) returns (vals: seq<seq<real>>)
    requires |s| <= |h|
    ensures |vals| == |Bins|
    ensures forall b :: 0 <= b < |Bins| ==> vals[b] == BucketContents(s, h, b)
    ensures Total(vals) == |s|
  {
    vals := [];
    var b := 0;
    while b < |Bins|
      invariant 0 <= b <= |Bins|
      invariant vals == seq(b, _ => [])
    {
      vals := vals + [[]];
      b := b + 1;
    }
    TotalEmpty(|Bins|);
    var j := 0;
    while j < |s|
      invariant 0 <= j <= |s|
      invariant |vals| == |Bins|
      invariant forall c :: 0 <= c < |Bins| ==> vals[c] == BucketContents(s[..j], h, c)
      invariant Total(vals) == j
    {
      assert s[..j + 1][..j] == s[..j];
      var c := BucketOf(s[j]);
      TotalAppend(vals, c, h[j]);
      vals := vals[c := vals[c] + [h[j]]];
      j := j + 1;
    }
    assert s[..j] == s;
  }

  /** A reported bin: its midpoint and the mean heterozygosity in it. */
  datatype Point = Point(mid: real, mean: real)

  function Mean(v: seq<real>): real
    requires |v| > 0
  {
    Sum(v) / (|v| as real)
  }

  /** `0.5 * (bins[j] + bins[j+1])`. */
  function Midpoint(j: nat): real
    requires j + 1 < |Bins|
  {
    0.5 * ((Bins[j] + Bins[j + 1]) as real)
  }

  lemma MidpointValue(j: nat)
    requires j + 1 < |Bins|
    ensures Midpoint(j) == 5.0 * (j as real) + 2.5
  {
  }

  /** The points for the non-empty buckets among the first `n`. */
  function ReportUpTo(vals: seq<seq<real>>, n: nat): seq<Point>
    requires n <= |vals| && n < |Bins|
  {
    if n == 0 then []
    else ReportUpTo(vals, n - 1) + if |vals[n - 1]| != 0 then [Point(Midpoint(n - 1), Mean(vals[n - 1]))] else []
  }

  /** `q` is the point of a non-empty bucket among the first `n`. */
  predicate FromBucket(vals: seq<seq<real>>, n: nat, q: Point)
    requires n <= |vals| && n < |Bins|
  {
    exists j :: 0 <= j < n && |vals[j]| > 0 && q == Point(Midpoint(j), Mean(vals[j]))
  }

  /** Every reported point is that of a non-empty bucket among the first `n`. */
  lemma {:induction false} ReportSound(vals: seq<seq<real>>, n: nat)
    requires n <= |vals| && n < |Bins|
    ensures forall k :: 0 <= k < |ReportUpTo(vals, n)| ==> FromBucket(vals, n, ReportUpTo(vals, n)[k])
  {
    if n > 0 {
      ReportSound(vals, n - 1);
      var r := ReportUpTo(vals, n - 1);
      var out := ReportUpTo(vals, n);
      forall k | 0 <= k < |out| ensures FromBucket(vals, n, out[k]) {
        if k < |r| {
          assert out[k] == r[k];
          assert FromBucket(vals, n - 1, r[k]);
          var j :| 0 <= j < n - 1 && |vals[j]| > 0 && r[k] == Point(Midpoint(j), Mean(vals[j]));
        } else {
          assert out[k] == Point(Midpoint(n - 1), Mean(vals[n - 1]));
        }
      }
    }
  }

  /** Every non-empty bucket among the first `n` is reported. */
  lemma {:induction false} ReportComplete(vals: seq<seq<real>>, n: nat)
    requires n <= |vals| && n < |Bins|
    ensures forall j :: 0 <= j < n && |vals[j]| > 0 ==> Point(Midpoint(j), Mean(vals[j])) in ReportUpTo(vals, n)
  {
    if n > 0 {
      ReportComplete(vals, n - 1);
      var r := ReportUpTo(vals, n - 1);
      var out := ReportUpTo(vals, n);
      assert r <= out;
      forall j | 0 <= j < n && |vals[j]| > 0 ensures Point(Midpoint(j), Mean(vals[j])) in out {
        if j < n - 1 {
          assert Point(Midpoint(j), Mean(vals[j])) in r;
        } else {
          assert out[|out| - 1] == Point(Midpoint(j), Mean(vals[j]));
        }
      }
    }
  }

  /** The points are in strictly increasing midpoint order, all below `5n`. */
  lemma {:induction false} ReportIncreasing(vals: seq<seq<real>>, n: nat)
    requires n <= |vals| && n < |Bins|
    ensures forall k1, k2 :: 0 <= k1 < k2 < |ReportUpTo(vals, n)| ==> ReportUpTo(vals, n)[k1].mid < ReportUpTo(vals, n)[k2].mid
    ensures forall k :: 0 <= k < |ReportUpTo(vals, n)| ==> ReportUpTo(vals, n)[k].mid < 5.0 * (n as real)
  {
    if n > 0 {
      ReportIncreasing(vals, n - 1);
      MidpointValue(n - 1);
      var r := ReportUpTo(vals, n - 1);
      var out := ReportUpTo(vals, n);
      assert forall k :: 0 <= k < |r| ==> out[k] == r[k];
    }
  }

  lemma {:induction false} SumWithin(v: seq<real>, lo: real, hi: real)
    requires forall k :: 0 <= k < |v| ==> lo <= v[k] <= hi
    ensures (|v| as real) * lo <= Sum(v) <= (|v| as real) * hi
  {
    if |v| > 0 {
      var p := v[..|v| - 1];
      assert forall k :: 0 <= k < |p| ==> p[k] == v[k];
      SumWithin(p, lo, hi);
    }
  }

  /** The mean of a bucket lies between the least and the greatest bound of
      its values. */
  lemma MeanWithin(v: seq<real>, lo: real, hi: real)
    requires |v| > 0
    requires forall k :: 0 <= k < |v| ==> lo <= v[k] <= hi
    ensures lo <= Mean(v) <= hi
  {
    SumWithin(v, lo, hi);
    var n := |v| as real;
    assert Mean(v) * n == Sum(v);
  }

  /** The reporting loop: the buckets 0..28 in order, skipping empty ones;
      bucket 29 is never reported. */
  method Summarise(vals: seq<seq<real>>) returns (points: seq<Point>)
    requires |vals| == |Bins|
    ensures points == ReportUpTo(vals, |Bins| - 1)
    ensures forall k :: 0 <= k < |points| ==> FromBucket(vals, |Bins| - 1, points[k])
    ensures forall j :: 0 <= j < |Bins| - 1 && |vals[j]| > 0 ==> Point(Midpoint(j), Mean(vals[j])) in points
    ensures forall k1, k2 :: 0 <= k1 < k2 < |points| ==> points[k1].mid < points[k2].mid
  {
    points := [];
    var j := 0;
    while j < |Bins| - 1
      invariant 0 <= j <= |Bins| - 1
      invariant points == ReportUpTo(vals, j)
    {
      if |vals[j]| != 0 {
        points := points + [Point(0.5 * ((Bins[j] + Bins[j + 1]) as real), Mean(vals[j]))];
      }
      j := j + 1;
    }
    ReportSound(vals, |Bins| - 1);
    ReportComplete(vals, |Bins| - 1);
    ReportIncreasing(vals, |Bins| - 1);
  }

  // ---------------------------------------------------------------------
  // The whole aggregation

  /** What one period contributes: the exceedance count, the cross table,
      the 30 buckets and the reported points. */
  datatype PeriodReport = PeriodReport(count: nat, table: CrossTab, buckets: seq<seq<real>>, points: seq<Point>)

  /** Lists of the five periods that the loops can index. */
  predicate Indexable(samples: Samples)
  {
    |samples.scores| >= 5 && |samples.heterozs| >= 5 &&
    forall p :: 0 <= p < 5 ==> |samples.scores[p]| <= |samples.heterozs[p]|
  }

  /** `count` is the exceedance count of the samples `s`, `h`. */
  predicate CountsExceedance(s: seq<int>, h: seq<real>, cutoff: int, count: nat)
  {
    |s| <= |h| && count == CountCell(s, h, cutoff, true, true)
  }

  /** `t` is the cross table of the samples: `c1` their number, `c2` to `c5`
      the four cells in the order of the source, the total their sum. */
  predicate Tabulates(s: seq<int>, h: seq<real>, cutoff: int, t: CrossTab)
  {
    && |s| <= |h|
    && t.c1 == |s|
    && t.c2 == CountCell(s, h, cutoff, true, true)
    && t.c3 == CountCell(s, h, cutoff, true, false)
    && t.c4 == CountCell(s, h, cutoff, false, true)
    && t.c5 == CountCell(s, h, cutoff, false, false)
    && t.c1 == t.c2 + t.c3 + t.c4 + t.c5
  }

  /** `vals` are the 30 buckets of the samples, holding all of them. */
  predicate Buckets(s: seq<int>, h: seq<real>, vals: seq<seq<real>>)
  {
    && |s| <= |h|
    && |vals| == |Bins|
    && (forall b :: 0 <= b < |Bins| ==> vals[b] == BucketContents(s, h, b))
    && Total(vals) == |s|
  }

  /** `r` is what the aggregation reports for one period. */
  predicate Summarises(s: seq<int>, h: seq<real>, cutoff: int, r: PeriodReport)
  {
    && CountsExceedance(s, h, cutoff, r.count)
    && Tabulates(s, h, cutoff, r.table)
    && r.table.c2 == r.count
    && Buckets(s, h, r.buckets)
    && r.points == ReportUpTo(r.buckets, |Bins| - 1)
  }

  /** The counting and binning part of `plot_results`, its three loops over
      the periods in turn. */
  method PlotResults(samples: Samples) returns (report: seq<PeriodReport>)
    requires Indexable(samples)
    ensures |report| == 5
    ensures forall i :: 0 <= i < 5 ==> Summarises(samples.scores[i], samples.heterozs[i], Cutoffs[i], report[i])
  {
    var counts: seq<nat> := [];
    var i := 0;
    while i < 5
      invariant 0 <= i <= 5 && |counts| == i
      invariant forall p :: 0 <= p < i ==> CountsExceedance(samples.scores[p], samples.heterozs[p], Cutoffs[p], counts[p])
    {
      var count := ExceedCount(samples.scores[i], samples.heterozs[i], Cutoffs[i]);
      counts := counts + [count];
      i := i + 1;
    }
    var tables: seq<CrossTab> := [];
    i := 0;
    while i < 5
      invariant 0 <= i <= 5 && |tables| == i
      invariant forall p :: 0 <= p < i ==> Tabulates(samples.scores[p], samples.heterozs[p], Cutoffs[p], tables[p])
    {
      var t := CrossTabulate(samples.scores[i], samples.heterozs[i], Cutoffs[i]);
      tables := tables + [t];
      i := i + 1;
    }
    report := [];
    i := 0;
    while i < 5
      invariant 0 <= i <= 5 && |report| == i
      invariant forall p :: 0 <= p < i ==> Summarises(samples.scores[p], samples.heterozs[p], Cutoffs[p], report[p])
    {
      var vals := SortIntoBuckets(samples.scores[i], samples.heterozs[i]);
      var points := Summarise(vals);
      assert Summarises(samples.scores[i], samples.heterozs[i], Cutoffs[i], PeriodReport(counts[i], tables[i], vals, points));
      report := report + [PeriodReport(counts[i], tables[i], vals, points)];
      i := i + 1;
    }
  }
}
