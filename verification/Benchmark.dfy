/**
  The pipeline benchmark from two scrapes to the reported percentiles (`benchmark/main.go`), over
  the exponential bucket layout of the latency histogram (`aggregator/middleware.go`).
 */
module Benchmark {
  import opened Types
  import opened Histograms
  import opened Quantiles
  import opened Accuracy

  /** The upper bound of bucket `k` of `prometheus.ExponentialBuckets(start, factor, n)`. */
  function Edge(start: real, factor: real, k: nat): real {
    if k == 0 then start else Edge(start, factor, k - 1) * factor
  }

  /** The `n` exponential buckets and the one for +Inf. */
  ghost function Layout(start: real, factor: real, n: nat): set<Bound> {
    (set k: nat | k < n :: Fin(Edge(start, factor, k))) + {Inf}
  }

  lemma {:induction false} NextEdge(start: real, factor: real, k: nat)
    requires start > 0.0 && factor > 1.0
    ensures 0.0 < Edge(start, factor, k) < Edge(start, factor, k + 1) == Edge(start, factor, k) * factor
  {
    if k > 0 {
      NextEdge(start, factor, k - 1);
    }
    var edge := Edge(start, factor, k);
    assert Edge(start, factor, k + 1) == edge * factor;
    assert edge * factor - edge == edge * (factor - 1.0) > 0.0;
  }

  lemma {:induction false} EdgesGrow(start: real, factor: real, j: nat, k: nat)
    requires start > 0.0 && factor > 1.0 && j < k
    ensures Edge(start, factor, j) < Edge(start, factor, k)
    decreases k
  {
    if j + 1 < k {
      EdgesGrow(start, factor, j, k - 1);
    }
    NextEdge(start, factor, k - 1);
  }

  lemma EdgeIndex(b: Bound, start: real, factor: real, n: nat) returns (k: nat)
    requires b.Fin? && b in Layout(start, factor, n)
    ensures k < n && b.value == Edge(start, factor, k)
  {
    k :| k < n && b == Fin(Edge(start, factor, k));
  }

  lemma Position(bounds: seq<Bound>, keys: set<Bound>, b: Bound) returns (k: nat)
    requires Lists(bounds, keys) && b in keys
    ensures k < |bounds| && bounds[k] == b
  {
    assert b in bounds;
    k :| k < |bounds| && bounds[k] == b;
  }

  /** The next larger edge is in the layout too, so neighbouring bounds are one factor apart. */
  lemma NeighboursAreOneFactorApart(bounds: seq<Bound>, start: real, factor: real, n: nat, i: nat)
    requires start > 0.0 && factor > 1.0 && Lists(bounds, Layout(start, factor, n))
    requires 0 < i < |bounds| && bounds[i].Fin?
    ensures bounds[i-1].Fin? && bounds[i].value == bounds[i-1].value * factor
  {
    assert bounds[i-1].Below(bounds[i]) && bounds[i-1] in bounds;
    var j := EdgeIndex(bounds[i-1], start, factor, n);
    var k := EdgeIndex(bounds[i], start, factor, n);
    OneEdgeFurther(bounds, start, factor, n, i, j, k);
    NextEdge(start, factor, j);
  }

  lemma OneEdgeFurther(bounds: seq<Bound>, start: real, factor: real, n: nat, i: nat, j: nat, k: nat)
    requires start > 0.0 && factor > 1.0 && Lists(bounds, Layout(start, factor, n))
    requires 0 < i < |bounds| && j < n && k < n
    requires bounds[i-1] == Fin(Edge(start, factor, j)) && bounds[i] == Fin(Edge(start, factor, k))
    ensures k == j + 1
  {
    assert bounds[i-1].Below(bounds[i]);
    if k < j {
      EdgesGrow(start, factor, k, j);
    } else if j + 1 < k {
      EdgesGrow(start, factor, j, j + 1);
      EdgesGrow(start, factor, j + 1, k);
      var m := Position(bounds, Layout(start, factor, n), Fin(Edge(start, factor, j + 1)));
      NothingBetween(bounds, i, m);
    }
  }

  lemma NothingBetween(bounds: seq<Bound>, i: nat, m: nat)
    requires Ascending(bounds) && 0 < i < |bounds| && m < |bounds| && bounds[i-1].Below(bounds[m])
    ensures !bounds[m].Below(bounds[i])
  {
  }

  lemma LayoutFacts(bounds: seq<Bound>, start: real, factor: real, n: nat)
    requires start > 0.0 && factor > 1.0 && Lists(bounds, Layout(start, factor, n))
    ensures Positive(bounds) && GrowsBy(bounds, factor)
  {
    if |bounds| > 0 && bounds[0].Fin? {
      var k := EdgeIndex(bounds[0], start, factor, n);
      NextEdge(start, factor, k);
    }
    forall i | 0 < i < |bounds| && bounds[i].Fin? && bounds[i-1].Fin?
      ensures bounds[i].value <= factor * bounds[i-1].value
    {
      NeighboursAreOneFactorApart(bounds, start, factor, n, i);
    }
  }

  lemma BoundsAgree(a: seq<Bound>, b: seq<Bound>, keys: set<Bound>, i: nat)
    requires Lists(a, keys) && Lists(b, keys) && i < |a| && i < |b|
    requires forall k :: 0 <= k < i ==> a[k] == b[k]
    ensures a[i] == b[i]
  {
    var j := Position(b, keys, a[i]);
    var k := Position(a, keys, b[i]);
  }

  lemma {:induction false} SamePrefix(a: seq<Bound>, b: seq<Bound>, keys: set<Bound>, i: nat)
    requires Lists(a, keys) && Lists(b, keys) && i <= |a| && i <= |b|
    ensures forall k :: 0 <= k < i ==> a[k] == b[k]
  {
    if i > 0 {
      SamePrefix(a, b, keys, i - 1);
      BoundsAgree(a, b, keys, i - 1);
    }
  }

  lemma NoLonger(a: seq<Bound>, b: seq<Bound>, keys: set<Bound>)
    requires Lists(a, keys) && Lists(b, keys) && |a| <= |b|
    ensures a == b
  {
    SamePrefix(a, b, keys, |a|);
    if |a| < |b| {
      var k := Position(a, keys, b[|a|]);
    }
  }

  /** A set of bounds has one ascending listing. */
  lemma ListingIsUnique(a: seq<Bound>, b: seq<Bound>, keys: set<Bound>)
    requires Lists(a, keys) && Lists(b, keys)
    ensures a == b
  {
    if |a| <= |b| {
      NoLonger(a, b, keys);
    } else {
      NoLonger(b, a, keys);
    }
  }

  datatype Report = Report(p95: Float, p99: Float)

  /** The estimate and the exact percentile agree as far as the bucket layout allows. */
  ghost predicate Agree(r: Float, x: real, keys: set<Bound>, factor: real) {
    r.Finite? && exists bounds: seq<Bound>, i: nat :: Lists(bounds, keys) && Approximates(r.value, x, bounds, i, factor)
  }

  /**
    Over the exponential layout, the quantile of a histogram agrees with the exact percentile of the
    samples behind it.
   */
  lemma LayoutIsAccurate(samples: seq<real>, start: real, factor: real, n: nat, rank: real, r: Float, x: real)
    requires start > 0.0 && factor > 1.0 && 0.0 < rank <= |samples| as real
    requires HasQuantile(Cumulative(samples, Layout(start, factor, n)), rank, r)
    requires NearestRank(samples, rank, x)
    ensures Agree(r, x, Layout(start, factor, n), factor)
  {
    var keys := Layout(start, factor, n);
    var bounds: seq<Bound>, i: nat :| IsQuantile(Cumulative(samples, keys), bounds, rank, r, i);
    LayoutFacts(bounds, start, factor, n);
    QuantileIsAccurate(samples, keys, bounds, rank, r, i, x, factor);
  }

  /** Over the exponential layout, a higher rank never gets a lower quantile. */
  lemma LayoutIsOrdered(samples: seq<real>, start: real, factor: real, n: nat,
                        rank: real, r: Float, rank': real, r': Float)
    requires start > 0.0 && factor > 1.0 && 0.0 < rank <= rank' <= |samples| as real
    requires HasQuantile(Cumulative(samples, Layout(start, factor, n)), rank, r)
    requires HasQuantile(Cumulative(samples, Layout(start, factor, n)), rank', r')
    ensures r.Finite? && r'.Finite? && r.value <= r'.value
  {
    var keys := Layout(start, factor, n);
    var values := Cumulative(samples, keys);
    var bounds: seq<Bound>, i: nat :| IsQuantile(values, bounds, rank, r, i);
    var bounds': seq<Bound>, i': nat :| IsQuantile(values, bounds', rank', r', i');
    ListingIsUnique(bounds, bounds', keys);
    LayoutFacts(bounds, start, factor, n);
    CountAll(samples);
    QuantileIsMonotone(values, bounds, rank, r, i, rank', r', i');
  }

  /** What a report says about the latencies of its load. */
  ghost predicate Describes(r: Report, samples: seq<real>, keys: set<Bound>, factor: real) {
    && (forall x :: NearestRank(samples, 0.95 * |samples| as real, x) ==> Agree(r.p95, x, keys, factor))
    && (forall x :: NearestRank(samples, 0.99 * |samples| as real, x) ==> Agree(r.p99, x, keys, factor))
    && r.p95.Finite? && r.p99.Finite? && r.p95.value <= r.p99.value
  }

  /** The two scrapes surround exactly the samples of the load. */
  ghost predicate Surround(before: Histogram, after: Histogram, earlier: seq<real>, between: seq<real>, keys: set<Bound>) {
    before == Cumulative(earlier, keys) && after == Cumulative(earlier + between, keys)
  }

  /**
    The part of `benchmarkPipeline` that turns the scrapes around one load into its report. If the
    scrapes surround the load, over exponential buckets, a report is made exactly if the sample count is
    right; and the report of a load with samples is accurate and ordered.
   */
  method ReportLoad(after: Histogram, before: Histogram, count: nat) returns (r: Option<Report>)
    ensures r.None? <==> WasReset(after, before) || Get(Difference(after, before), Inf) != count
    ensures r.Some? ==> Reports(Difference(after, before), r.value)
    ensures forall earlier, between, start, factor, n ::
              Surround(before, after, earlier, between, Layout(start, factor, n)) && start > 0.0 && factor > 1.0 ==>
                && (r.Some? <==> |between| == count)
                && (r.Some? && count > 0 ==> Describes(r.value, between, Layout(start, factor, n), factor))
  {
    r := None;
    var delta := Subtract(after, before);
    if delta.Some? {
      assert delta.value == Difference(after, before);
      if Get(delta.value, Inf) == count {
        var p95 := HistogramQuantile(delta.value, 0.95);
        var p99 := HistogramQuantile(delta.value, 0.99);
        r := Some(Report(p95, p99));
      }
    }
    forall earlier, between, start, factor, n
      | Surround(before, after, earlier, between, Layout(start, factor, n)) && start > 0.0 && factor > 1.0
      ensures r.Some? <==> |between| == count
      ensures r.Some? && count > 0 ==> Describes(r.value, between, Layout(start, factor, n), factor)
    {
      ScrapesMatch(before, after, earlier, between, Layout(start, factor, n));
      if r.Some? && count > 0 {
        ReportDescribes(between, start, factor, n, r.value);
      }
    }
  }

  ghost predicate Reports(values: Histogram, r: Report) {
    HasQuantile(values, Rank(values, 0.95), r.p95) && HasQuantile(values, Rank(values, 0.99), r.p99)
  }

  lemma ScrapesMatch(before: Histogram, after: Histogram, earlier: seq<real>, between: seq<real>, keys: set<Bound>)
    requires Surround(before, after, earlier, between, keys) && Inf in keys
    ensures !WasReset(after, before) && Difference(after, before) == Cumulative(between, keys)
    ensures Get(Difference(after, before), Inf) == |between|
  {
    DifferenceIsBetween(earlier, between, keys);
    CountAll(between);
  }

  lemma ReportDescribes(samples: seq<real>, start: real, factor: real, n: nat, r: Report)
    requires start > 0.0 && factor > 1.0 && |samples| > 0
    requires Reports(Cumulative(samples, Layout(start, factor, n)), r)
    ensures Describes(r, samples, Layout(start, factor, n), factor)
  {
    var rank, rank' := 0.95 * |samples| as real, 0.99 * |samples| as real;
    RanksOfScrape(samples, Layout(start, factor, n), 0.95, 0.99);
    LayoutIsOrdered(samples, start, factor, n, rank, r.p95, rank', r.p99);
    forall x | NearestRank(samples, rank, x) ensures Agree(r.p95, x, Layout(start, factor, n), factor) {
      LayoutIsAccurate(samples, start, factor, n, rank, r.p95, x);
    }
    forall x | NearestRank(samples, rank', x) ensures Agree(r.p99, x, Layout(start, factor, n), factor) {
      LayoutIsAccurate(samples, start, factor, n, rank', r.p99, x);
    }
  }

  /** For 0 < q <= q' <= 1 the ranks are as `LayoutIsAccurate` and `LayoutIsOrdered` ask for them. */
  lemma RanksOfScrape(samples: seq<real>, keys: set<Bound>, q: real, q': real)
    requires Inf in keys && |samples| > 0 && 0.0 < q <= q' <= 1.0
    ensures Rank(Cumulative(samples, keys), q) == q * |samples| as real
    ensures Rank(Cumulative(samples, keys), q') == q' * |samples| as real
    ensures 0.0 < q * |samples| as real <= q' * |samples| as real <= |samples| as real
  {
    CountAll(samples);
    RankInRange(Cumulative(samples, keys), q, q');
  }

  /** For a load without a single event `histogramQuantile` returns NaN, whatever the quantile. */
  lemma EmptyLoadIsNotANumber(start: real, factor: real, n: nat, q: real, r: Float)
    requires start > 0.0 && factor > 1.0 && n > 0
    requires HasQuantile(Cumulative([], Layout(start, factor, n)), Rank(Cumulative([], Layout(start, factor, n)), q), r)
    ensures r.NonFinite?
  {
    var keys := Layout(start, factor, n);
    EmptyRankIsZero(keys, q);
    NothingIsNotANumber(keys, start, factor, n, Rank(Cumulative([], keys), q), r);
  }

  lemma EmptyRankIsZero(keys: set<Bound>, q: real)
    ensures Rank(Cumulative([], keys), q) == 0.0
  {
  }

  lemma NothingIsNotANumber(keys: set<Bound>, start: real, factor: real, n: nat, rank: real, r: Float)
    requires keys == Layout(start, factor, n) && n > 0 && rank <= 0.0
    requires HasQuantile(Cumulative([], keys), rank, r)
    ensures r.NonFinite?
  {
    var values := Cumulative([], keys);
    var bounds: seq<Bound>, i: nat :| IsQuantile(values, bounds, rank, r, i);
    var k := Position(bounds, keys, Fin(Edge(start, factor, 0)));
    assert k > 0 ==> bounds[0].Below(bounds[k]);
    NotANumberIff(values, bounds, rank, r, i);
  }
}
