/**
  How good the interpolated quantile is: when it is a number at all, that it grows with the
  quantile, and how far it can be from the exact nearest-rank percentile of the same samples.
 */
module Accuracy {
  import opened Types
  import opened Histograms
  import opened Quantiles

  lemma DivisionKeepsOrder(a: real, b: real, c: real)
    requires a <= b && c > 0.0
    ensures a / c <= b / c
  {
    assert b / c - a / c == (b - a) / c;
  }

  /** Interpolation stays in the half-open interval, and reaches the top only with the whole part. */
  lemma InterpolationIsBetween(low: real, high: real, part: real, whole: real)
    requires low < high && 0.0 < part <= whole
    ensures Interpolate(low, high, part, whole).Finite?
    ensures low < Interpolate(low, high, part, whole).value <= high
  {
    var width := high - low;
    assert width * part <= width * whole;
    DivisionKeepsOrder(width * part, width * whole, whole);
    assert width * whole / whole == width;
    assert width * part > 0.0;
    assert width * part / whole > 0.0;
  }

  lemma InterpolationGrows(low: real, high: real, part: real, part': real, whole: real)
    requires low <= high && part <= part' && whole > 0.0
    ensures Interpolate(low, high, part, whole).value <= Interpolate(low, high, part', whole).value
  {
    var width := high - low;
    assert width * part <= width * part';
    DivisionKeepsOrder(width * part, width * part', whole);
  }

  /** The first bucket of a histogram of durations starts at zero. */
  ghost predicate Positive(bounds: seq<Bound>) {
    |bounds| > 0 && bounds[0].Fin? ==> bounds[0].value > 0.0
  }

  /** The count grows strictly into the bucket in which the scan stops. */
  lemma StopFacts(values: Histogram, bounds: seq<Bound>, rank: real, i: nat)
    requires Ascending(bounds) && StopsAt(values, bounds, rank, i)
    ensures i > 0 ==> PreviousCount(values, bounds, i) < rank
    ensures i > 0 ==> bounds[i-1].Fin? && bounds[i-1].Below(bounds[i])
    ensures i > 0 && Positive(bounds) ==> bounds[i-1].value > 0.0
  {
    if i > 0 {
      assert bounds[i-1].Below(bounds[i]);
      assert i > 1 ==> bounds[0].Below(bounds[i-1]);
    }
  }

  /**
    For every histogram and every quantile, NaN or infinity comes out exactly when the first bucket
    is finite and empty and the rank asks for nothing.
   */
  lemma NotANumberIff(values: Histogram, bounds: seq<Bound>, rank: real, r: Float, stop: nat)
    requires IsQuantile(values, bounds, rank, r, stop)
    ensures r.NonFinite? <==> bounds != [] && bounds[0].Fin? && values[bounds[0]] == 0 && rank <= 0.0
  {
    if stop < |bounds| {
      StopFacts(values, bounds, rank, stop);
      if r.NonFinite? {
        assert stop == 0;
      }
    }
  }

  /** With a rank above zero and up to the number of samples, the scan stops in a bucket. */
  lemma ScanStops(values: Histogram, bounds: seq<Bound>, rank: real, r: Float, stop: nat)
    requires IsQuantile(values, bounds, rank, r, stop)
    requires 0.0 < rank <= Get(values, Inf) as real
    ensures stop < |bounds| && r.Finite?
  {
    NotANumberIff(values, bounds, rank, r, stop);
  }

  /** The ranks of 0 < q <= 1 are of that kind as soon as there is a sample, and grow with `q`. */
  lemma RankInRange(values: Histogram, q: real, q': real)
    requires Get(values, Inf) > 0 && 0.0 < q <= q' <= 1.0
    ensures 0.0 < Rank(values, q) <= Rank(values, q') <= Get(values, Inf) as real
  {
  }

  /** The estimate lies in its own bucket; in the last, unbounded one it is that bucket's lower end. */
  lemma EstimateIsInBucket(values: Histogram, bounds: seq<Bound>, rank: real, r: Float, stop: nat)
    requires IsQuantile(values, bounds, rank, r, stop) && stop < |bounds| && rank > 0.0 && Positive(bounds)
    ensures r.Finite?
    ensures bounds[stop].Fin? ==> PreviousBound(bounds, stop) < r.value <= bounds[stop].value
    ensures bounds[stop].Inf? ==> r.value == PreviousBound(bounds, stop)
  {
    StopFacts(values, bounds, rank, stop);
    if bounds[stop].Fin? {
      var before := PreviousCount(values, bounds, stop);
      InterpolationIsBetween(PreviousBound(bounds, stop), bounds[stop].value,
                             rank - before, Get(values, bounds[stop]) as real - before);
    }
  }

  /** A higher rank stops no earlier. */
  lemma StopsLater(values: Histogram, bounds: seq<Bound>, rank: real, i: nat, rank': real, i': nat)
    requires rank <= rank' && StopsAt(values, bounds, rank, i) && StopsAt(values, bounds, rank', i')
    ensures i <= i'
  {
  }

  lemma SameBucketGrows(values: Histogram, bounds: seq<Bound>, rank: real, rank': real, i: nat)
    requires Ascending(bounds) && Positive(bounds) && 0.0 < rank <= rank'
    requires StopsAt(values, bounds, rank, i) && StopsAt(values, bounds, rank', i)
    ensures Estimate(values, bounds, rank, i).value <= Estimate(values, bounds, rank', i).value
  {
    StopFacts(values, bounds, rank, i);
    if bounds[i].Fin? {
      var before := PreviousCount(values, bounds, i);
      InterpolationGrows(PreviousBound(bounds, i), bounds[i].value,
                         rank - before, rank' - before, Get(values, bounds[i]) as real - before);
    }
  }

  /** A higher rank never gets a lower estimate: the reported p95 never exceeds the p99. */
  lemma QuantileIsMonotone(values: Histogram, bounds: seq<Bound>,
                           rank: real, r: Float, i: nat, rank': real, r': Float, i': nat)
    requires IsQuantile(values, bounds, rank, r, i) && IsQuantile(values, bounds, rank', r', i')
    requires 0.0 < rank <= rank' <= Get(values, Inf) as real && Positive(bounds)
    ensures r.Finite? && r'.Finite? && r.value <= r'.value
  {
    ScanStops(values, bounds, rank, r, i);
    ScanStops(values, bounds, rank', r', i');
    StopsLater(values, bounds, rank, i, rank', i');
    if i == i' {
      SameBucketGrows(values, bounds, rank, rank', i);
    } else {
      LaterBucketIsHigher(values, bounds, rank, r, i, rank', r', i');
    }
  }

  lemma LaterBucketIsHigher(values: Histogram, bounds: seq<Bound>,
                            rank: real, r: Float, i: nat, rank': real, r': Float, i': nat)
    requires IsQuantile(values, bounds, rank, r, i) && IsQuantile(values, bounds, rank', r', i')
    requires i < i' < |bounds| && 0.0 < rank <= rank' && Positive(bounds)
    ensures r.Finite? && r'.Finite? && r.value <= r'.value
  {
    EstimateIsInBucket(values, bounds, rank, r, i);
    EstimateIsInBucket(values, bounds, rank', r', i');
    StopFacts(values, bounds, rank', i');
    assert bounds[i].Below(bounds[i']);
    assert i < i' - 1 ==> bounds[i].Below(bounds[i'-1]);
  }

  /** How many samples are strictly smaller. */
  function CountBelow(samples: seq<real>, x: real): nat {
    if samples == [] then 0
    else CountBelow(samples[..|samples|-1], x) + if samples[|samples|-1] < x then 1 else 0
  }

  /** `x` is the sample of the given rank: enough samples are at most `x`, and too few are below it. */
  ghost predicate NearestRank(samples: seq<real>, rank: real, x: real) {
    x in samples && (CountBelow(samples, x) as real) < rank <= Count(samples, Fin(x)) as real
  }

  lemma {:induction false} CountBelowGrows(samples: seq<real>, x: real, y: real)
    requires x < y
    ensures Count(samples, Fin(x)) <= CountBelow(samples, y)
  {
    if samples != [] {
      CountBelowGrows(samples[..|samples|-1], x, y);
    }
  }

  lemma NearestRankIsUnique(samples: seq<real>, rank: real, x: real, y: real)
    requires NearestRank(samples, rank, x) && NearestRank(samples, rank, y)
    ensures x == y
  {
    if x < y {
      CountBelowGrows(samples, x, y);
    } else if y < x {
      CountBelowGrows(samples, y, x);
    }
  }

  /** The exact percentile falls into the bucket in which the scan stops. */
  lemma PercentileIsInBucket(samples: seq<real>, bounds: seq<Bound>, rank: real, x: real, i: nat, keys: set<Bound>)
    requires Lists(bounds, keys) && StopsAt(Cumulative(samples, keys), bounds, rank, i)
    requires NearestRank(samples, rank, x)
    ensures Within(x, bounds[i]) && (i > 0 ==> !Within(x, bounds[i-1]))
  {
    assert bounds[i] in keys;
    if !Within(x, bounds[i]) {
      CountBelowGrows(samples, bounds[i].value, x);
    }
    assert i > 0 ==> bounds[i-1] in keys;
    if i > 0 && Within(x, bounds[i-1]) {
      CountGrows(samples, Fin(x), bounds[i-1]);
    }
  }

  /** Neighbouring finite bounds grow by at most the factor. */
  ghost predicate GrowsBy(bounds: seq<Bound>, factor: real) {
    forall i :: 0 < i < |bounds| && bounds[i].Fin? && bounds[i-1].Fin? ==> bounds[i].value <= factor * bounds[i-1].value
  }

  /** What the estimate `r` tells about the exact percentile `x`, when the scan stops in bucket `i`. */
  ghost predicate Approximates(r: real, x: real, bounds: seq<Bound>, i: nat, factor: real) {
    && i < |bounds|
    && Within(x, bounds[i]) && (i > 0 ==> !Within(x, bounds[i-1]))
    && (bounds[i].Fin? ==> Within(r, bounds[i]) && r > 0.0 && (i > 0 ==> !Within(r, bounds[i-1])))
    && (bounds[i].Fin? && i > 0 ==> r < factor * x && x < factor * r)
    && (bounds[i].Inf? ==> if i > 0 then r == bounds[i-1].value && r < x else r == 0.0)
  }

  lemma RatioIsBelow(low: real, a: real, b: real, factor: real)
    requires 0.0 < low < b && a <= factor * low && factor > 0.0
    ensures a < factor * b
  {
  }

  /**
    The quantile of any scraped histogram falls in the same bucket as the exact nearest-rank
    percentile of the samples behind it; past the first bucket and below +Inf the two are within
    the bucket factor of each other, and in the +Inf bucket the estimate is a lower bound.
   */
  lemma QuantileIsAccurate(samples: seq<real>, keys: set<Bound>, bounds: seq<Bound>, rank: real, r: Float, i: nat,
                           x: real, factor: real)
    requires IsQuantile(Cumulative(samples, keys), bounds, rank, r, i)
    requires Inf in keys && 0.0 < rank <= |samples| as real
    requires Positive(bounds) && GrowsBy(bounds, factor) && factor > 0.0
    requires NearestRank(samples, rank, x)
    ensures r.Finite? && Approximates(r.value, x, bounds, i, factor)
  {
    CountAll(samples);
    ScanStops(Cumulative(samples, keys), bounds, rank, r, i);
    EstimateIsInBucket(Cumulative(samples, keys), bounds, rank, r, i);
    PercentileIsInBucket(samples, bounds, rank, x, i, keys);
    SameBucketIsClose(bounds, r.value, x, i, factor);
  }

  lemma SameBucketIsClose(bounds: seq<Bound>, r: real, x: real, i: nat, factor: real)
    requires Ascending(bounds) && Positive(bounds) && GrowsBy(bounds, factor) && factor > 0.0
    requires i < |bounds| && Within(x, bounds[i]) && (i > 0 ==> !Within(x, bounds[i-1]))
    requires bounds[i].Fin? ==> PreviousBound(bounds, i) < r <= bounds[i].value
    requires bounds[i].Inf? ==> r == PreviousBound(bounds, i)
    ensures Approximates(r, x, bounds, i, factor)
  {
    if i > 0 {
      assert bounds[i-1].Below(bounds[i]);
      assert i > 1 ==> bounds[0].Below(bounds[i-1]);
      if bounds[i].Fin? {
        RatioIsBelow(bounds[i-1].value, r, x, factor);
        RatioIsBelow(bounds[i-1].value, x, r, factor);
      }
    }
  }
}
