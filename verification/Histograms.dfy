/** Cumulative histograms and their differences (`benchmark/main.go`, `aggregator/middleware.go`). */
module Histograms {
  import opened Types

  /** The upper bound of a bucket. */
  datatype Bound = Fin(value: real) | Inf {
    predicate Below(that: Bound) {
      Fin? && (that.Inf? || value < that.value)
    }
  }

  type Histogram = map<Bound, nat>

  /** Go's map lookup: a missing bucket reads as zero. */
  function Get(h: Histogram, b: Bound): nat {
    if b in h then h[b] else 0
  }

  predicate Within(x: real, b: Bound) {
    b.Inf? || x <= b.value
  }

  /** How many samples fall within the bound. */
  function Count(samples: seq<real>, b: Bound): nat {
    if samples == [] then 0
    else Count(samples[..|samples|-1], b) + if Within(samples[|samples|-1], b) then 1 else 0
  }

  /** What a scrape reports after these samples were observed. */
  function Cumulative(samples: seq<real>, bounds: set<Bound>): Histogram {
    map b | b in bounds :: Count(samples, b)
  }

  lemma {:induction false} CountSplits(a: seq<real>, c: seq<real>, b: Bound)
    ensures Count(a + c, b) == Count(a, b) + Count(c, b)
    decreases |c|
  {
    if c == [] {
      assert a + c == a;
    } else {
      CountSplits(a, c[..|c|-1], b);
      assert (a + c)[..|a + c|-1] == a + c[..|c|-1];
    }
  }

  lemma {:induction false} CountGrows(samples: seq<real>, b: Bound, b': Bound)
    requires b == b' || b.Below(b')
    ensures Count(samples, b) <= Count(samples, b')
  {
    if samples != [] {
      CountGrows(samples[..|samples|-1], b, b');
    }
  }

  lemma {:induction false} CountAll(samples: seq<real>)
    ensures Count(samples, Inf) == |samples|
  {
    if samples != [] {
      CountAll(samples[..|samples|-1]);
    }
  }

  /** The later scrape has lost counts that the earlier one had. */
  ghost predicate WasReset(after: Histogram, before: Histogram) {
    exists b :: b in after && after[b] < Get(before, b)
  }

  /** `subtractHistogram`: bucketwise difference, or an error if a counter went backwards. */
  method Subtract(after: Histogram, before: Histogram) returns (delta: Option<Histogram>)
    ensures delta.None? <==> WasReset(after, before)
    ensures delta.Some? ==> delta.value.Keys == after.Keys
    ensures delta.Some? ==> forall b :: b in after ==> delta.value[b] + Get(before, b) == after[b]
    ensures delta.Some? ==> forall b :: b in after && b !in before ==> delta.value[b] == after[b]
    ensures delta.Some? ==> forall b :: b in after && b in before ==> delta.value[b] == after[b] - before[b]
  {
    var result: Histogram := map[];
    var rest := after.Keys;
    while rest != {}
      invariant rest <= after.Keys && result.Keys == after.Keys - rest
      invariant forall b :: b in result ==> result[b] + Get(before, b) == after[b]
    {
      var b :| b in rest;
      if after[b] < Get(before, b) {
        return None;
      }
      result := result[b := after[b] - Get(before, b)];
      rest := rest - {b};
    }
    return Some(result);
  }

  /** The bucketwise difference. */
  ghost function Difference(after: Histogram, before: Histogram): Histogram
    requires !WasReset(after, before)
  {
    map b | b in after :: assert after[b] >= Get(before, b); after[b] - Get(before, b)
  }

  /**
    If the later scrape extends the earlier one's samples, subtraction never reports a reset, and
    gives the histogram of the samples in between.
   */
  lemma DifferenceIsBetween(earlier: seq<real>, between: seq<real>, bounds: set<Bound>)
    ensures !WasReset(Cumulative(earlier + between, bounds), Cumulative(earlier, bounds))
    ensures Difference(Cumulative(earlier + between, bounds), Cumulative(earlier, bounds))
            == Cumulative(between, bounds)
  {
    forall b | b in bounds
      ensures Count(earlier + between, b) == Count(earlier, b) + Count(between, b)
    {
      CountSplits(earlier, between, b);
    }
  }

  /** Cumulative: a larger bound never counts less. */
  ghost predicate NonDecreasing(h: Histogram) {
    forall b, b' :: b in h && b' in h && b.Below(b') ==> h[b] <= h[b']
  }

  lemma ScrapesAreCumulative(samples: seq<real>, bounds: set<Bound>)
    ensures NonDecreasing(Cumulative(samples, bounds))
    ensures Inf in bounds ==> Cumulative(samples, bounds)[Inf] == |samples|
  {
    CountAll(samples);
    forall b, b' | b in bounds && b' in bounds && b.Below(b')
      ensures Count(samples, b) <= Count(samples, b')
    {
      CountGrows(samples, b, b');
    }
  }
}
