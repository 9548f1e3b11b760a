/**
  What a calculator measures that was started cold at some offset of the log: the legs it bills,
  set against the legs of the true journey.
 */
module Restarts {
  import opened Types
  import opened Pipeline

  // ---------- The previous point ----------

  /** The last point of `obu` in the records from `lo` up to `hi`, repetitions since `lo` ignored. */
  ghost function LastPoint(log: seq<Record>, lo: nat, hi: nat, obu: int): Option<Point>
    requires lo <= hi <= |log|
  {
    if lo == hi then None
    else if FreshSince(log, lo, hi - 1) && log[hi-1].data.obu == obu then Some(log[hi-1].data.point)
    else LastPoint(log, lo, hi - 1, obu)
  }

  ghost predicate Seen(log: seq<Record>, lo: nat, hi: nat, id: string)
    requires hi <= |log|
  {
    exists j :: lo <= j < hi && Valid(log[j]) && log[j].data.eventID == id
  }

  /** A calculator started at `lo` holds the last points since then, and remembers the IDs since then. */
  lemma {:induction false} ReplayRemembers(metric: Metric, log: seq<Record>, lo: nat, hi: nat)
    requires lo <= hi <= |log|
    ensures var c := Replay(metric, log, lo, hi);
            && (forall o :: o in c.prev <==> LastPoint(log, lo, hi, o).Some?)
            && (forall o :: o in c.prev ==> c.prev[o] == LastPoint(log, lo, hi, o).value)
            && (forall id :: id in c.results <==> Seen(log, lo, hi, id))
  {
    if lo != hi {
      var c, r := Replay(metric, log, lo, hi - 1), log[hi-1];
      ReplayRemembers(metric, log, lo, hi - 1);
      assert Valid(r) ==> (FreshSince(log, lo, hi - 1) <==> !Seen(log, lo, hi - 1, r.data.eventID));
      forall id
        ensures Seen(log, lo, hi, id) <==> Seen(log, lo, hi - 1, id) || (Valid(r) && r.data.eventID == id)
      {
      }
    }
  }

  // ---------- Legs ----------

  /** From one point to the next. */
  type Leg = (Point, Point)

  /** The leg that a calculator started at `lo` bills for record `i`; none if it knows no previous point. */
  ghost function LegOf(log: seq<Record>, lo: nat, i: nat): multiset<Leg>
    requires i < |log| && Valid(log[i])
  {
    if lo > i then multiset{}
    else
      var last := LastPoint(log, lo, i, log[i].data.obu);
      if last.None? then multiset{} else multiset{(last.value, log[i].data.point)}
  }

  /** Record `i` is the first of its ID, and bills the OBUs with this key. */
  ghost predicate Counts(log: seq<Record>, key: int, i: nat)
    requires i < |log|
  {
    Fresh(log, i) && Narrow(log[i].data.obu) == key
  }

  /** What record `i` adds, by a calculator started at `lo`, to the bill kept under `key`. */
  ghost function NewLeg(log: seq<Record>, key: int, i: nat, lo: nat): multiset<Leg>
    requires i < |log|
  {
    if Counts(log, key, i) then LegOf(log, lo, i) else multiset{}
  }

  /** The legs billed under `key` for the records from `a` up to `n`, by a calculator started at `lo`. */
  ghost function Legs(log: seq<Record>, lo: nat, key: int, a: nat, n: nat): multiset<Leg>
    requires a <= n <= |log|
  {
    if a == n then multiset{}
    else Legs(log, lo, key, a, n - 1) + NewLeg(log, key, n - 1, lo)
  }

  lemma {:induction false} LegsSplit(log: seq<Record>, lo: nat, key: int, a: nat, m: nat, n: nat)
    requires a <= m <= n <= |log|
    ensures Legs(log, lo, key, a, n) == Legs(log, lo, key, a, m) + Legs(log, lo, key, m, n)
  {
    if m != n {
      LegsSplit(log, lo, key, a, m, n - 1);
    }
  }

  // ---------- Length ----------

  ghost function Length(metric: Metric, legs: multiset<Leg>): real {
    if legs == multiset{} then 0.0
    else
      var leg :| leg in legs;
      Length(metric, legs - multiset{leg}) + metric(leg.0, leg.1).Amount()
  }

  lemma {:induction false} LengthInsert(metric: Metric, legs: multiset<Leg>, leg: Leg)
    ensures Length(metric, legs + multiset{leg}) == Length(metric, legs) + metric(leg.0, leg.1).Amount()
    decreases |legs|
  {
    var all := legs + multiset{leg};
    var pick :| pick in all
                && Length(metric, all) == Length(metric, all - multiset{pick}) + metric(pick.0, pick.1).Amount();
    if pick == leg {
      assert all - multiset{leg} == legs;
    } else {
      var rest := legs - multiset{pick};
      assert all - multiset{pick} == rest + multiset{leg};
      assert legs == rest + multiset{pick};
      LengthInsert(metric, rest, leg);
      LengthInsert(metric, rest, pick);
    }
  }

  lemma {:induction false} LengthJoins(metric: Metric, a: multiset<Leg>, b: multiset<Leg>)
    ensures Length(metric, a + b) == Length(metric, a) + Length(metric, b)
    decreases |b|
  {
    if b == multiset{} {
      assert a + b == a;
    } else {
      var leg :| leg in b;
      var rest := b - multiset{leg};
      assert b == rest + multiset{leg} && a + b == (a + rest) + multiset{leg};
      LengthJoins(metric, a, rest);
      LengthInsert(metric, rest, leg);
      LengthInsert(metric, a + rest, leg);
    }
  }

  lemma {:induction false} LengthIsNonNegative(metric: Metric, legs: multiset<Leg>)
    requires NonNegative(metric)
    ensures Length(metric, legs) >= 0.0
    decreases |legs|
  {
    if legs != multiset{} {
      var leg :| leg in legs;
      assert legs == (legs - multiset{leg}) + multiset{leg};
      LengthIsNonNegative(metric, legs - multiset{leg});
      LengthInsert(metric, legs - multiset{leg}, leg);
    }
  }

  lemma LengthsInclude(metric: Metric, a: multiset<Leg>, b: multiset<Leg>, a': multiset<Leg>, b': multiset<Leg>)
    requires Length(metric, a) <= Length(metric, a') && Length(metric, b) <= Length(metric, b')
    ensures Length(metric, a + b) <= Length(metric, a' + b')
  {
    LengthJoins(metric, a, b);
    LengthJoins(metric, a', b');
  }

  lemma LengthGrows(metric: Metric, a: multiset<Leg>, b: multiset<Leg>)
    requires NonNegative(metric) && a <= b
    ensures Length(metric, a) <= Length(metric, b)
  {
    assert b == a + (b - a);
    LengthJoins(metric, a, b - a);
    LengthIsNonNegative(metric, b - a);
  }

  /** The metric in which one leg has length one and all others none. */
  function Only(leg: Leg): Metric {
    (p, q) => if (p, q) == leg then Finite(1.0) else Finite(0.0)
  }

  /** It counts how often that leg occurs. */
  lemma {:induction false} OnlyCounts(leg: Leg, legs: multiset<Leg>)
    ensures Length(Only(leg), legs) == legs[leg] as real
    decreases |legs|
  {
    if legs != multiset{} {
      var l :| l in legs;
      var rest := legs - multiset{l};
      assert legs == rest + multiset{l};
      OnlyCounts(leg, rest);
      LengthInsert(Only(leg), rest, l);
      assert Only(leg)(l.0, l.1).Amount() == if l == leg then 1.0 else 0.0;
    }
  }

  lemma SumsSwap<T>(a: multiset<T>, b: multiset<T>, c: multiset<T>)
    ensures (a + b) + c == (a + c) + b
  {
  }

  lemma SumsInclude<T>(a: multiset<T>, b: multiset<T>, a': multiset<T>, b': multiset<T>)
    requires a <= a' && b <= b'
    ensures a + b <= a' + b'
  {
  }

  // ---------- Distances and logs with which restarts are harmless ----------

  /** After a restart at `lo`, record `i` is at most as far from its OBU's last point as it truly is. */
  ghost predicate NotFarther(metric: Metric, log: seq<Record>, lo: nat, i: nat)
    requires i < |log| && Valid(log[i])
  {
    Length(metric, LegOf(log, lo, i)) <= Length(metric, LegOf(log, 0, i))
  }

  /**
    A restart anywhere leaves every first occurrence, as far as the consumer can get, at most as far
    from its OBU's last point as it truly is.
   */
  ghost predicate DistancesStayTrue(metric: Metric, log: seq<Record>) {
    forall lo: nat, i: nat :: lo <= i < |log| && Fresh(log, i) && Passable(log, i + 1) ==>
      NotFarther(metric, log, lo, i)
  }

  /**
    The legs billed under `key` from a restart at `lo` up to `n` are together no longer than the true
    ones. Record `lo` itself is left out: it may have been billed before the restart.
   */
  ghost predicate TrueLengthSince(metric: Metric, log: seq<Record>, key: int, lo: nat, n: nat)
    requires lo < n <= |log|
  {
    Length(metric, Legs(log, lo, key, lo + 1, n)) <= Length(metric, Legs(log, 0, key, lo + 1, n))
  }

  ghost predicate LengthsStayTrue(metric: Metric, log: seq<Record>) {
    forall key: int, lo: nat, n: nat ::
      lo < n <= |log| && Passable(log, n) ==> TrueLengthSince(metric, log, key, lo, n)
  }

  lemma LegsStep(metric: Metric, log: seq<Record>, lo: nat, key: int, a: nat, n: nat)
    requires a <= n < |log|
    ensures Length(metric, Legs(log, lo, key, a, n + 1))
            == Length(metric, Legs(log, lo, key, a, n))
               + if Counts(log, key, n) then Length(metric, LegOf(log, lo, n)) else 0.0
  {
    LengthJoins(metric, Legs(log, lo, key, a, n), NewLeg(log, key, n, lo));
  }

  lemma DistancesStep(metric: Metric, log: seq<Record>, key: int, lo: nat, n: nat)
    requires lo < n < |log| && TrueLengthSince(metric, log, key, lo, n)
    requires Counts(log, key, n) ==> NotFarther(metric, log, lo, n)
    ensures TrueLengthSince(metric, log, key, lo, n + 1)
  {
    LengthsInclude(metric, Legs(log, lo, key, lo + 1, n), NewLeg(log, key, n, lo),
                   Legs(log, 0, key, lo + 1, n), NewLeg(log, key, n, 0));
  }

  lemma {:induction false} DistancesAddUp(metric: Metric, log: seq<Record>, key: int, lo: nat, n: nat)
    requires lo < n <= |log|
    requires forall i :: lo < i < n && Counts(log, key, i) ==> NotFarther(metric, log, lo, i)
    ensures TrueLengthSince(metric, log, key, lo, n)
  {
    hide *;
    if lo + 1 < n {
      DistancesAddUp(metric, log, key, lo, n - 1);
      DistancesStep(metric, log, key, lo, n - 1);
    } else {
      NothingSince(metric, log, key, lo);
    }
  }

  lemma NothingSince(metric: Metric, log: seq<Record>, key: int, lo: nat)
    requires lo < |log|
    ensures TrueLengthSince(metric, log, key, lo, lo + 1)
  {
    assert Legs(log, lo, key, lo + 1, lo + 1) == Legs(log, 0, key, lo + 1, lo + 1);
  }

  lemma PassableBelow(log: seq<Record>, m: nat, n: nat)
    requires m <= n <= |log| && Passable(log, n)
    ensures Passable(log, m)
  {
  }

  /** If every distance stays true, so do the totals. */
  lemma DistancesKeepLengths(metric: Metric, log: seq<Record>)
    requires DistancesStayTrue(metric, log)
    ensures LengthsStayTrue(metric, log)
  {
    forall key: int, lo: nat, n: nat | lo < n <= |log| && Passable(log, n)
      ensures TrueLengthSince(metric, log, key, lo, n)
    {
      forall i | lo < i < n && Counts(log, key, i)
        ensures NotFarther(metric, log, lo, i)
      {
        PassableBelow(log, i + 1, n);
      }
      DistancesAddUp(metric, log, key, lo, n);
    }
  }

  // ---------- Logs on which they are harmless with any distances ----------

  /** A restart anywhere gives every first occurrence its true previous point, or none. */
  ghost predicate SegmentsStayTrue(log: seq<Record>) {
    forall lo: nat, i: nat :: lo <= i < |log| && Fresh(log, i) && Passable(log, i + 1) ==>
      LegOf(log, lo, i) <= LegOf(log, 0, i)
  }

  /** Up to `n` and after a restart at `lo`, no leg is billed more often than the true journey contains it. */
  ghost predicate TrueLegsSince(log: seq<Record>, key: int, lo: nat, n: nat)
    requires lo < n <= |log|
  {
    Legs(log, lo, key, lo + 1, n) <= Legs(log, 0, key, lo + 1, n)
  }

  ghost predicate LegsStayTrue(log: seq<Record>) {
    forall key: int, lo: nat, n: nat :: lo < n <= |log| && Passable(log, n) ==> TrueLegsSince(log, key, lo, n)
  }

  /** A record gets its true previous point, or none, if and only if no metric makes it farther than it is. */
  lemma SegmentsStayTrueIff(log: seq<Record>)
    ensures SegmentsStayTrue(log) <==> forall metric: Metric :: NonNegative(metric) ==> DistancesStayTrue(metric, log)
  {
    if SegmentsStayTrue(log) {
      forall metric: Metric | NonNegative(metric) ensures DistancesStayTrue(metric, log) {
        forall lo: nat, i: nat | lo <= i < |log| && Fresh(log, i) && Passable(log, i + 1)
          ensures NotFarther(metric, log, lo, i)
        {
          LengthGrows(metric, LegOf(log, lo, i), LegOf(log, 0, i));
        }
      }
    } else {
      var lo: nat, i: nat :| lo <= i < |log| && Fresh(log, i) && Passable(log, i + 1)
                             && !(LegOf(log, lo, i) <= LegOf(log, 0, i));
      var leg := OneTooMany(LegOf(log, lo, i), LegOf(log, 0, i));
      assert !NotFarther(Only(leg), log, lo, i);
    }
  }

  /** No leg is billed too often, if and only if no metric makes the legs too long together. */
  lemma LegsStayTrueIff(log: seq<Record>)
    ensures LegsStayTrue(log) <==> forall metric: Metric :: NonNegative(metric) ==> LengthsStayTrue(metric, log)
  {
    if LegsStayTrue(log) {
      forall metric: Metric | NonNegative(metric) ensures LengthsStayTrue(metric, log) {
        forall key: int, lo: nat, n: nat | lo < n <= |log| && Passable(log, n)
          ensures TrueLengthSince(metric, log, key, lo, n)
        {
          assert TrueLegsSince(log, key, lo, n);
          LengthGrows(metric, Legs(log, lo, key, lo + 1, n), Legs(log, 0, key, lo + 1, n));
        }
      }
    } else {
      var key: int, lo: nat, n: nat :| lo < n <= |log| && Passable(log, n) && !TrueLegsSince(log, key, lo, n);
      var leg := OneTooMany(Legs(log, lo, key, lo + 1, n), Legs(log, 0, key, lo + 1, n));
      assert !TrueLengthSince(Only(leg), log, key, lo, n);
    }
  }

  lemma OneTooMany(charged: multiset<Leg>, due: multiset<Leg>) returns (leg: Leg)
    requires !(charged <= due)
    ensures NonNegative(Only(leg)) && Length(Only(leg), charged) > Length(Only(leg), due)
  {
    leg :| charged[leg] > due[leg];
    OnlyCounts(leg, charged);
    OnlyCounts(leg, due);
  }

  ghost predicate DistinctIDs(log: seq<Record>) {
    forall i, j :: 0 <= i < j < |log| && Valid(log[i]) && Valid(log[j]) ==> log[i].data.eventID != log[j].data.eventID
  }

  lemma {:induction false} LaterStartForgets(log: seq<Record>, lo: nat, hi: nat, obu: int)
    requires DistinctIDs(log) && lo <= hi <= |log|
    ensures LastPoint(log, lo, hi, obu).Some? ==> LastPoint(log, lo, hi, obu) == LastPoint(log, 0, hi, obu)
  {
    if lo != hi {
      LaterStartForgets(log, lo, hi - 1, obu);
    }
  }

  /** Distinct event IDs are enough, though not necessary. */
  lemma DistinctIDsAreHarmless(log: seq<Record>)
    requires DistinctIDs(log)
    ensures SegmentsStayTrue(log)
  {
    forall lo: nat, i: nat | lo <= i < |log| && Fresh(log, i)
      ensures LegOf(log, lo, i) <= LegOf(log, 0, i)
    {
      LaterStartForgets(log, lo, i, log[i].data.obu);
    }
  }

  lemma {:induction false} SegmentsKeepLegs(log: seq<Record>, key: int, lo: nat, n: nat)
    requires lo < n <= |log|
    requires forall i :: lo < i < n && Counts(log, key, i) ==> LegOf(log, lo, i) <= LegOf(log, 0, i)
    ensures TrueLegsSince(log, key, lo, n)
  {
    if lo + 1 < n {
      SegmentsKeepLegs(log, key, lo, n - 1);
      var m := n - 1;
      SumsInclude(Legs(log, lo, key, lo + 1, m), NewLeg(log, key, m, lo),
                  Legs(log, 0, key, lo + 1, m), NewLeg(log, key, m, 0));
    }
  }

  lemma SegmentsImplyLegs(log: seq<Record>)
    requires SegmentsStayTrue(log)
    ensures LegsStayTrue(log)
  {
    forall key: int, lo: nat, n: nat | lo < n <= |log| && Passable(log, n)
      ensures TrueLegsSince(log, key, lo, n)
    {
      SegmentsKeepLegs(log, key, lo, n);
    }
  }
}
