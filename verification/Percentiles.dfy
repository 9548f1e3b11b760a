/** The exact percentile of a slice of latencies (`benchmark/main.go`). */
module Percentiles {
  import opened Types
  import opened Histograms
  import opened Accuracy

  function Ceil(x: real): (n: int)
    ensures (n - 1) as real < x <= n as real
  {
    -((-x).Floor)
  }

  ghost predicate Sorted(s: seq<real>) {
    forall i, j :: 0 <= i < j < |s| ==> s[i] <= s[j]
  }

  /** `sort.Slice`: the same latencies, in order. */
  method SortSlice(a: array<real>)
    modifies a
    ensures Sorted(a[..]) && multiset(a[..]) == multiset(old(a[..]))
  {
    var s := SortSamples(a[..]);
    assert |s| == a.Length by {
      assert |multiset(s)| == |multiset(a[..])|;
    }
    forall i | 0 <= i < a.Length {
      a[i] := s[i];
    }
    assert a[..] == s;
  }

  method SortSamples(s: seq<real>) returns (t: seq<real>)
    ensures Sorted(t) && multiset(t) == multiset(s)
  {
    t := [];
    for n := 0 to |s|
      invariant Sorted(t) && multiset(t) == multiset(s[..n])
    {
      var k := 0;
      while k < |t| && t[k] <= s[n]
        invariant 0 <= k <= |t| && forall i :: 0 <= i < k ==> t[i] <= s[n]
      {
        k := k + 1;
      }
      InsertSorted(t, k, s[n]);
      InsertAdds(t, k, s[n]);
      assert s[..n+1] == s[..n] + [s[n]];
      t := t[..k] + [s[n]] + t[k..];
    }
    assert s[..|s|] == s;
  }

  lemma InsertSorted(t: seq<real>, k: nat, x: real)
    requires Sorted(t) && k <= |t|
    requires forall i :: 0 <= i < k ==> t[i] <= x
    requires k < |t| ==> x < t[k]
    ensures Sorted(t[..k] + [x] + t[k..])
  {
    var u := t[..k] + [x] + t[k..];
    forall i, j | 0 <= i < j < |u| ensures u[i] <= u[j] {
      assert u[i] == if i < k then t[i] else if i == k then x else t[i-1];
      assert u[j] == if j < k then t[j] else if j == k then x else t[j-1];
      if k < j {
        assert x <= t[k] <= t[j-1];
      }
    }
  }

  lemma InsertAdds(t: seq<real>, k: nat, x: real)
    requires k <= |t|
    ensures multiset(t[..k] + [x] + t[k..]) == multiset(t) + multiset{x}
  {
    assert t == t[..k] + t[k..];
  }

  lemma TakeOut(t: seq<real>, k: nat)
    requires k < |t|
    ensures multiset(t) == multiset(t[..k] + t[k+1..]) + multiset{t[k]}
  {
    assert t == t[..k] + [t[k]] + t[k+1..];
  }

  lemma {:induction false} ManyWithin(t: seq<real>, n: nat, x: real)
    requires n <= |t| && forall i :: 0 <= i < n ==> t[i] <= x
    ensures Count(t, Fin(x)) >= n
  {
    if n > 0 {
      var front := t[..|t|-1];
      ManyWithin(front, if n == |t| then n - 1 else n, x);
    }
  }

  lemma {:induction false} FewBelow(t: seq<real>, n: nat, x: real)
    requires n <= |t| && forall i :: n <= i < |t| ==> x <= t[i]
    ensures CountBelow(t, x) <= n
  {
    if t != [] {
      FewBelow(t[..|t|-1], if n == |t| then n - 1 else n, x);
    }
  }

  lemma {:induction false} CountBelowSplits(a: seq<real>, c: seq<real>, x: real)
    ensures CountBelow(a + c, x) == CountBelow(a, x) + CountBelow(c, x)
    decreases |c|
  {
    if c == [] {
      assert a + c == a;
    } else {
      CountBelowSplits(a, c[..|c|-1], x);
      assert (a + c)[..|a + c|-1] == a + c[..|c|-1];
    }
  }

  /** Taking one sample out lowers the counts it was in. */
  lemma CountsWithout(t: seq<real>, k: nat, x: real)
    requires k < |t|
    ensures Count(t, Fin(x)) == Count(t[..k] + t[k+1..], Fin(x)) + if t[k] <= x then 1 else 0
    ensures CountBelow(t, x) == CountBelow(t[..k] + t[k+1..], x) + if t[k] < x then 1 else 0
  {
    assert t == t[..k+1] + t[k+1..] && t[..k+1][..k] == t[..k];
    CountSplits(t[..k+1], t[k+1..], Fin(x));
    CountSplits(t[..k], t[k+1..], Fin(x));
    CountBelowSplits(t[..k+1], t[k+1..], x);
    CountBelowSplits(t[..k], t[k+1..], x);
  }

  /** The counts do not depend on the order of the samples. */
  lemma {:induction false} CountsIgnoreOrder(s: seq<real>, t: seq<real>, x: real)
    requires multiset(s) == multiset(t)
    ensures Count(s, Fin(x)) == Count(t, Fin(x)) && CountBelow(s, x) == CountBelow(t, x)
    decreases |s|
  {
    assert |multiset(s)| == |multiset(t)|;
    if s != [] {
      var front, last := s[..|s|-1], s[|s|-1];
      assert s == front + [last];
      assert last in multiset(t);
      var k :| 0 <= k < |t| && t[k] == last;
      var rest := t[..k] + t[k+1..];
      TakeOut(t, k);
      assert multiset(s) == multiset(front) + multiset{last};
      assert multiset(front) == multiset(rest) by {
        assert multiset(front) == multiset(s) - multiset{last};
        assert multiset(rest) == multiset(t) - multiset{last};
      }
      CountsIgnoreOrder(front, rest, x);
      CountsWithout(t, k, x);
    }
  }

  /** The element of the sorted slice at index `Ceil(rank) - 1` has that rank among the samples. */
  lemma SortedHasRank(samples: seq<real>, t: seq<real>, rank: real)
    requires Sorted(t) && multiset(samples) == multiset(t) && 0 <= Ceil(rank) - 1 < |t|
    ensures NearestRank(samples, rank, t[Ceil(rank) - 1])
  {
    var m := Ceil(rank) - 1;
    ManyWithin(t, m + 1, t[m]);
    FewBelow(t, m, t[m]);
    CountsIgnoreOrder(samples, t, t[m]);
    assert t[m] in multiset(t);
  }

  lemma Scaled(q: real, n: real, rank: real)
    requires n > 0.0 && rank == q * n
    ensures rank > 0.0 <==> q > 0.0
    ensures rank > n <==> q > 1.0
  {
    if q > 0.0 {
      assert q * n > 0.0;
    } else {
      assert -q * n >= 0.0;
    }
    var excess := q - 1.0;
    assert rank - n == excess * n;
    if excess > 0.0 {
      assert excess * n > 0.0;
    } else {
      assert -excess * n >= 0.0;
    }
  }

  lemma IndexInRange(rank: real, n: nat)
    ensures 0 <= Ceil(rank) - 1 < n <==> 0.0 < rank <= n as real
  {
    assert Ceil(rank) >= 1 <==> rank > 0.0;
    assert Ceil(rank) <= n <==> rank <= n as real;
  }

  lemma RankIsIndex(q: real, n: nat, rank: real)
    requires rank == q * n as real
    ensures 0 <= Ceil(rank) - 1 < n <==> n > 0 && 0.0 < q <= 1.0
  {
    IndexInRange(rank, n);
    if n > 0 {
      Scaled(q, n as real, rank);
    }
  }

  /**
    `percentile`: sorts the slice in place and indexes it; `None` stands for the index panic, which
    happens exactly when there is no latency or the quantile is not in (0, 1].
   */
  method Percentile(a: array<real>, q: real) returns (r: Option<real>)
    modifies a
    ensures Sorted(a[..]) && multiset(a[..]) == multiset(old(a[..]))
    ensures r.Some? <==> a.Length > 0 && 0.0 < q <= 1.0
    ensures r.Some? ==> NearestRank(old(a[..]), q * a.Length as real, r.value)
  {
    ghost var samples := a[..];
    SortSlice(a);
    ghost var t := a[..];
    var rank := q * a.Length as real;
    RankIsIndex(q, a.Length, rank);
    if 0 <= Ceil(rank) - 1 < a.Length {
      SortedHasRank(samples, t, rank);
      r := Some(a[Ceil(rank) - 1]);
    } else {
      r := None;
    }
  }
}
