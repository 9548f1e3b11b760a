/** The interpolated histogram quantile and the exact percentile (`benchmark/main.go`). */
module Quantiles {
  import opened Types
  import opened Histograms

  ghost predicate Ascending(bounds: seq<Bound>) {
    forall i, j :: 0 <= i < j < |bounds| ==> bounds[i].Below(bounds[j])
  }

  ghost predicate Lists(bounds: seq<Bound>, keys: set<Bound>) {
    Ascending(bounds) && forall b :: b in bounds <==> b in keys
  }

  /** `sort.Float64s` of the map's keys. */
  method SortedBounds(keys: set<Bound>) returns (bounds: seq<Bound>)
    ensures Lists(bounds, keys)
  {
    bounds := [];
    var rest := keys;
    while rest != {}
      invariant rest <= keys && Lists(bounds, keys - rest)
    {
      var b :| b in rest;
      var k := 0;
      while k < |bounds| && bounds[k].Below(b)
        invariant 0 <= k <= |bounds| && forall i :: 0 <= i < k ==> bounds[i].Below(b)
      {
        k := k + 1;
      }
      var longer := bounds[..k] + [b] + bounds[k..];
      InsertKeepsOrder(bounds, k, b);
      assert forall x :: x in longer <==> x in bounds || x == b;
      bounds := longer;
      rest := rest - {b};
    }
  }

  lemma InsertKeepsOrder(bounds: seq<Bound>, k: nat, b: Bound)
    requires Ascending(bounds) && k <= |bounds| && b !in bounds
    requires forall i :: 0 <= i < k ==> bounds[i].Below(b)
    requires k < |bounds| ==> !bounds[k].Below(b)
    ensures Ascending(bounds[..k] + [b] + bounds[k..])
  {
  }

  lemma InfIsLast(bounds: seq<Bound>, i: nat)
    requires Ascending(bounds) && i < |bounds| && bounds[i].Inf?
    ensures i == |bounds| - 1
  {
    assert i < |bounds| - 1 ==> bounds[i].Below(bounds[i+1]);
  }

  /** The scan stops at the first bucket whose count reaches the rank. */
  ghost predicate StopsAt(values: Histogram, bounds: seq<Bound>, rank: real, i: nat) {
    && i < |bounds|
    && Get(values, bounds[i]) as real >= rank
    && forall j :: 0 <= j < i ==> (Get(values, bounds[j]) as real) < rank
  }

  function PreviousBound(bounds: seq<Bound>, i: nat): real
    requires i < |bounds|
  {
    if i == 0 || bounds[i-1].Inf? then 0.0 else bounds[i-1].value
  }

  function PreviousCount(values: Histogram, bounds: seq<Bound>, i: nat): real
    requires i < |bounds|
  {
    if i == 0 then 0.0 else Get(values, bounds[i-1]) as real
  }

  /** `low + (high - low) * part / whole`, which a float division by zero turns into NaN or infinity. */
  function Interpolate(low: real, high: real, part: real, whole: real): Float {
    if whole == 0.0 then NonFinite else Finite(low + (high - low) * part / whole)
  }

  /** What is returned from bucket `i`. */
  function Estimate(values: Histogram, bounds: seq<Bound>, rank: real, i: nat): Float
    requires i < |bounds|
  {
    if bounds[i].Inf? then Finite(PreviousBound(bounds, i))
    else
      var before := PreviousCount(values, bounds, i);
      Interpolate(PreviousBound(bounds, i), bounds[i].value, rank - before, Get(values, bounds[i]) as real - before)
  }

  /**
    Bucket `i` is the first whose count reaches the rank, and `r` lies on the straight line from its
    lower bound, at the count before it, to its upper bound, at its own count. The first bucket starts at
    zero. From the unbounded bucket comes its lower bound, and from an empty one no finite number.
   */
  ghost predicate OnTheLine(values: Histogram, bounds: seq<Bound>, rank: real, r: Float, i: nat)
    requires forall b :: b in bounds ==> b in values
  {
    i < |bounds| && values[bounds[i]] as real >= rank && (forall j :: 0 <= j < i ==> values[bounds[j]] as real < rank) ==>
      && (i > 0 ==> bounds[i-1].Fin?)
      && var low := if i == 0 then 0.0 else bounds[i-1].value;
         var before, count := if i == 0 then 0.0 else values[bounds[i-1]] as real, values[bounds[i]] as real;
         && (bounds[i].Inf? ==> r.Finite? && r.value == low)
         && (bounds[i].Fin? && count == before ==> r.NonFinite?)
         && (bounds[i].Fin? && count != before ==>
               r.Finite? && (r.value - low) * (count - before) == (bounds[i].value - low) * (rank - before))
  }

  lemma DivideBack(x: real, y: real)
    requires y != 0.0
    ensures x / y * y == x
  {
  }

  lemma InterpolationIsOnTheLine(low: real, high: real, part: real, whole: real)
    ensures whole != 0.0 ==>
              && Interpolate(low, high, part, whole).Finite?
              && (Interpolate(low, high, part, whole).value - low) * whole == (high - low) * part
  {
    if whole != 0.0 {
      DivideBack((high - low) * part, whole);
    }
  }

  lemma QuantileIsOnTheLine(values: Histogram, bounds: seq<Bound>, rank: real, r: Float, stop: nat, i: nat)
    requires IsQuantile(values, bounds, rank, r, stop)
    ensures OnTheLine(values, bounds, rank, r, i)
  {
    if StopsAt(values, bounds, rank, i) {
      StopIsUnique(values, bounds, rank, stop, i);
      assert i > 0 ==> bounds[i-1].Below(bounds[i]);
      EstimateIsOnTheLine(values, bounds, rank, i);
    }
  }

  lemma EstimateIsOnTheLine(values: Histogram, bounds: seq<Bound>, rank: real, i: nat)
    requires (forall b :: b in bounds ==> b in values) && i < |bounds| && (i > 0 ==> bounds[i-1].Fin?)
    ensures OnTheLine(values, bounds, rank, Estimate(values, bounds, rank, i), i)
  {
    var before := PreviousCount(values, bounds, i);
    if bounds[i].Fin? {
      InterpolationIsOnTheLine(PreviousBound(bounds, i), bounds[i].value,
                               rank - before, Get(values, bounds[i]) as real - before);
    }
  }

  lemma StopIsUnique(values: Histogram, bounds: seq<Bound>, rank: real, stop: nat, i: nat)
    requires Lists(bounds, values.Keys) && StopsAt(values, bounds, rank, i)
    requires if stop < |bounds| then StopsAt(values, bounds, rank, stop)
             else forall b :: b in values ==> (values[b] as real) < rank
    ensures stop == i
  {
    assert bounds[i] in values;
  }

  /** `r` is interpolated in the bucket that reaches the rank, or zero if none does. */
  ghost predicate IsInterpolated(values: Histogram, rank: real, r: Float) {
    && (exists bounds: seq<Bound> :: InterpolatedIn(values, bounds, rank, r))
    && ((forall b :: b in values ==> (values[b] as real) < rank) ==> r.Finite? && r.value == 0.0)
  }

  ghost predicate InterpolatedIn(values: Histogram, bounds: seq<Bound>, rank: real, r: Float) {
    Lists(bounds, values.Keys) && forall i: nat :: OnTheLine(values, bounds, rank, r, i)
  }

  /** `histogramQuantile`. */
  method HistogramQuantile(values: Histogram, q: real) returns (r: Float)
    ensures HasQuantile(values, Rank(values, q), r)
    ensures IsInterpolated(values, q * Get(values, Inf) as real, r)
  {
    hide HasQuantile;
    hide IsInterpolated;
    var rank := q * Get(values, Inf) as real;
    var bounds := SortedBounds(values.Keys);
    r := Scan(values, bounds, rank);
  }

  function Rank(values: Histogram, q: real): real {
    q * Get(values, Inf) as real
  }

  /** `r` is the estimate of the bucket that the scan of the ascending bounds stops in, or else zero. */
  ghost predicate IsQuantile(values: Histogram, bounds: seq<Bound>, rank: real, r: Float, stop: nat) {
    && Lists(bounds, values.Keys)
    && (stop < |bounds| ==> StopsAt(values, bounds, rank, stop) && r == Estimate(values, bounds, rank, stop))
    && (stop >= |bounds| ==>
          r.Finite? && r.value == 0.0 && forall b :: b in values ==> (values[b] as real) < rank)
  }

  ghost predicate HasQuantile(values: Histogram, rank: real, r: Float) {
    exists bounds: seq<Bound>, stop: nat :: IsQuantile(values, bounds, rank, r, stop)
  }

  /** The scan stops in some bucket, or runs past the last one. */
  method Scan(values: Histogram, bounds: seq<Bound>, rank: real) returns (r: Float)
    requires Lists(bounds, values.Keys)
    ensures HasQuantile(values, rank, r) && IsInterpolated(values, rank, r)
  {
    var previousBound, previousCount := 0.0, 0.0;
    var i := 0;
    while i < |bounds|
      invariant 0 <= i <= |bounds|
      invariant forall j :: 0 <= j < i ==> (Get(values, bounds[j]) as real) < rank
      invariant i < |bounds| ==> previousBound == PreviousBound(bounds, i)
      invariant i < |bounds| ==> previousCount == PreviousCount(values, bounds, i)
    {
      var bound := bounds[i];
      var count := values[bound] as real;
      if count >= rank {
        if bound.Inf? {
          r := Finite(previousBound);
        } else {
          r := Interpolate(previousBound, bound.value, rank - previousCount, count - previousCount);
        }
        assert IsQuantile(values, bounds, rank, r, i);
        Conclude(values, bounds, rank, r, i);
        return;
      }
      if bound.Fin? {
        previousBound := bound.value;
      } else {
        assert i == |bounds| - 1 by {
          InfIsLast(bounds, i);
        }
      }
      previousCount := count;
      i := i + 1;
    }
    r := Finite(0.0);
    assert IsQuantile(values, bounds, rank, r, i);
    Conclude(values, bounds, rank, r, i);
  }

  lemma Conclude(values: Histogram, bounds: seq<Bound>, rank: real, r: Float, stop: nat)
    requires IsQuantile(values, bounds, rank, r, stop)
    ensures HasQuantile(values, rank, r) && IsInterpolated(values, rank, r)
  {
    forall i: nat ensures OnTheLine(values, bounds, rank, r, i) {
      QuantileIsOnTheLine(values, bounds, rank, r, stop, i);
    }
    assert InterpolatedIn(values, bounds, rank, r);
    assert stop < |bounds| ==> bounds[stop] in values;
  }
}
