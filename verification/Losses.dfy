/**
  What restarts cost: on logs where no restart gives a record a false previous point, an OBU loses
  whole segments, at most one per restart, and nothing else happens to its bill.
 */
module Losses {
  import opened Types
  import opened Pipeline
  import opened Delivery
  import opened Restarts
  import opened Crashes
  import opened Overcharge
  import R = Replays

  /** Record `i` was charged with something other than its true leg. */
  ghost predicate Lost(log: seq<Record>, paid: map<string, Call>, i: nat)
    requires i < |log|
  {
    Paid(log, paid, i) && LegOf(log, StartOf(log, paid, i), i) != LegOf(log, 0, i)
  }

  ghost function LostOf(log: seq<Record>, paid: map<string, Call>, obu: int): set<nat> {
    set i: nat | i < |log| && Lost(log, paid, i) && log[i].data.obu == obu
  }

  /** What record `i` has failed to add to the bill kept under `key`. */
  ghost function LostLeg(log: seq<Record>, paid: map<string, Call>, key: int, i: nat): multiset<Leg>
    requires i < |log|
  {
    if Counts(log, key, i) && Lost(log, paid, i) then LegOf(log, 0, i) else multiset{}
  }

  /** The true legs of the lost records, under `key`. */
  ghost function LostLegs(log: seq<Record>, paid: map<string, Call>, key: int, n: nat): multiset<Leg>
    requires n <= |log|
  {
    if n == 0 then multiset{} else LostLegs(log, paid, key, n - 1) + LostLeg(log, paid, key, n - 1)
  }

  /**
    On such a log a calculator restarted anywhere sends the true distance of a first occurrence, or
    zero because it knows no previous point.
   */
  lemma TrueOrZero(w: World, lo: nat, i: nat)
    requires SegmentsStayTrue(w.log) && lo <= i < |w.log| && Fresh(w.log, i) && Passable(w.log, i + 1)
    ensures || Value(w, lo, i) == Value(w, 0, i)
            || (&& Value(w, lo, i).Finite? && Value(w, lo, i).value == 0.0
                && LastPoint(w.log, lo, i, w.log[i].data.obu).None?)
  {
    ReplayRemembers(w.env.metric, w.log, lo, i);
    ReplayRemembers(w.env.metric, w.log, 0, i);
    var last := LastPoint(w.log, lo, i, w.log[i].data.obu);
    assert LegOf(w.log, lo, i) <= LegOf(w.log, 0, i);
    assert last.Some? ==> (last.value, w.log[i].data.point) in LegOf(w.log, lo, i);
  }

  /** A lost record was charged nothing. */
  lemma LostMeansNothing(log: seq<Record>, paid: map<string, Call>, n: nat, i: nat)
    requires SegmentsStayTrue(log) && n <= |log| && Passable(log, n) && i < n && Lost(log, paid, i)
    ensures StartOf(log, paid, i) > 0 && LegOf(log, StartOf(log, paid, i), i) == multiset{}
  {
    assert Passable(log, i + 1);
    if StartOf(log, paid, i) <= i {
      assert LegOf(log, StartOf(log, paid, i), i) <= LegOf(log, 0, i);
    }
  }

  /** Record `i` was charged, or lost. */
  ghost predicate ChargedOrLost(log: seq<Record>, paid: map<string, Call>, key: int, i: nat)
    requires i < |log|
  {
    Charge(log, paid, key, i) + LostLeg(log, paid, key, i) == DueLeg(log, paid.Keys, key, i)
  }

  lemma TrueOrNothing(log: seq<Record>, paid: map<string, Call>, key: int, n: nat, i: nat)
    requires SegmentsStayTrue(log) && i < n <= |log| && Passable(log, n)
    ensures ChargedOrLost(log, paid, key, i)
  {
    if Lost(log, paid, i) {
      LostMeansNothing(log, paid, n, i);
    }
  }

  lemma AddUp<T>(a: multiset<T>, b: multiset<T>, c: multiset<T>, a': multiset<T>, b': multiset<T>, c': multiset<T>)
    requires a + b == c && a' + b' == c'
    ensures (a + a') + (b + b') == c + c'
  {
  }

  /** Leg by leg, what was charged and what was lost is what is due. */
  lemma {:induction false} BillsAddUp(log: seq<Record>, paid: map<string, Call>, key: int, n: nat)
    requires n <= |log| && forall i :: 0 <= i < n ==> ChargedOrLost(log, paid, key, i)
    ensures Charged(log, paid, key, 0, n) + LostLegs(log, paid, key, n) == DueLegs(log, paid.Keys, key, n)
  {
    if n > 0 {
      var m := n - 1;
      BillsAddUp(log, paid, key, m);
      assert ChargedOrLost(log, paid, key, m);
      AddUp(Charged(log, paid, key, 0, m), LostLegs(log, paid, key, m), DueLegs(log, paid.Keys, key, m),
            Charge(log, paid, key, m), LostLeg(log, paid, key, m), DueLeg(log, paid.Keys, key, m));
    }
  }

  lemma {:induction false} NothingLostBeyond(log: seq<Record>, paid: map<string, Call>, key: int, n: nat, m: nat)
    requires n <= m <= |log| && forall i :: n <= i < m ==> !Paid(log, paid, i)
    ensures LostLegs(log, paid, key, m) == LostLegs(log, paid, key, n)
    decreases m
  {
    if n < m {
      NothingLostBeyond(log, paid, key, n, m - 1);
      var before := LostLegs(log, paid, key, m - 1);
      assert !Paid(log, paid, m - 1);
      assert LostLeg(log, paid, key, m - 1) == multiset{};
      assert before + multiset{} == before;
    }
  }

  // ---------- One segment per restart ----------

  /** Record `i` is the OBU's first since `lo`. */
  ghost predicate IsFirst(log: seq<Record>, lo: nat, obu: int, i: nat) {
    lo <= i < |log| && FreshSince(log, lo, i) && log[i].data.obu == obu && LastPoint(log, lo, i, obu).None?
  }

  lemma {:induction false} NoPointMeansNoRecord(log: seq<Record>, lo: nat, hi: nat, obu: int, j: nat)
    requires lo <= j < hi <= |log| && LastPoint(log, lo, hi, obu).None?
    ensures !(FreshSince(log, lo, j) && log[j].data.obu == obu)
  {
    if j != hi - 1 {
      NoPointMeansNoRecord(log, lo, hi - 1, obu, j);
    }
  }

  lemma FirstIsUnique(log: seq<Record>, lo: nat, obu: int, i: nat, j: nat)
    requires IsFirst(log, lo, obu, i) && IsFirst(log, lo, obu, j)
    ensures i == j
  {
    if i < j {
      NoPointMeansNoRecord(log, lo, j, obu, i);
    } else if j < i {
      NoPointMeansNoRecord(log, lo, i, obu, j);
    }
  }

  ghost function FirstSince(log: seq<Record>, lo: nat, obu: int): nat {
    if i: nat :| IsFirst(log, lo, obu, i) then i else 0
  }

  ghost function FirstsSince(log: seq<Record>, starts: seq<nat>, obu: int): set<nat> {
    if starts == [] then {}
    else FirstsSince(log, starts[..|starts|-1], obu) + {FirstSince(log, starts[|starts|-1], obu)}
  }

  lemma {:induction false} FirstsSinceFacts(log: seq<Record>, starts: seq<nat>, obu: int)
    ensures |FirstsSince(log, starts, obu)| <= |starts|
    ensures forall k :: 0 <= k < |starts| ==> FirstSince(log, starts[k], obu) in FirstsSince(log, starts, obu)
  {
    if starts != [] {
      FirstsSinceFacts(log, starts[..|starts|-1], obu);
    }
  }

  /** A lost record is the first of its OBU after a restart. */
  lemma LostIsFirst(w: World, s: State, n: nat, i: nat) returns (k: nat)
    requires Inv(w, s) && Sound(w, s) && SegmentsStayTrue(w.log)
    requires i < n <= |w.log| && Passable(w.log, n) && Lost(w.log, s.paid, i)
    ensures 1 <= k < |s.starts| && FirstSince(w.log, s.starts[k], w.log[i].data.obu) == i
  {
    var obu, lo := w.log[i].data.obu, StartOf(w.log, s.paid, i);
    LostMeansNothing(w.log, s.paid, n, i);
    EntryStemsFrom(w, s, i);
    k :| 0 <= k < |s.starts| && s.starts[k] == lo;
    assert IsFirst(w.log, lo, obu, i);
    FirstIsUnique(w.log, lo, obu, i, FirstSince(w.log, lo, obu));
  }

  lemma SubsetIsSmaller(a: set<nat>, b: set<nat>)
    requires a <= b
    ensures |a| <= |b|
  {
    assert b == a + (b - a);
  }

  /** An OBU loses at most one segment per restart. */
  lemma OneSegmentPerRestart(w: World, s: State, n: nat, obu: int)
    requires Inv(w, s) && Sound(w, s) && SegmentsStayTrue(w.log)
    requires n <= |w.log| && Passable(w.log, n) && AppliedTo(w.log, s.paid, n)
    ensures |LostOf(w.log, s.paid, obu)| <= |s.starts| - 1
  {
    var restarts := s.starts[1..];
    var firsts := FirstsSince(w.log, restarts, obu);
    FirstsSinceFacts(w.log, restarts, obu);
    forall i | i in LostOf(w.log, s.paid, obu) ensures i in firsts {
      var k := LostIsFirst(w, s, n, i);
      assert restarts[k-1] == s.starts[k];
    }
    SubsetIsSmaller(LostOf(w.log, s.paid, obu), firsts);
  }

  // ---------- True legs make up the journeys ----------

  lemma FreshAtEnd(log: seq<Record>, n: nat)
    requires n < |log|
    ensures Fresh(log[..n+1], n) == Fresh(log, n) && log[..n+1][..n] == log[..n]
  {
    assert forall j :: 0 <= j <= n ==> log[..n+1][j] == log[j];
  }

  lemma {:induction false} LastPointEndsPath(log: seq<Record>, obu: int, n: nat)
    requires n <= |log|
    ensures var last, points := LastPoint(log, 0, n, obu), R.Points(log[..n], obu);
            if points == [] then last.None? else last == Some(points[|points|-1])
  {
    if n != 0 {
      LastPointEndsPath(log, obu, n - 1);
      FreshAtEnd(log, n - 1);
    }
  }

  /** A first occurrence takes its OBU's path along its true leg. */
  lemma PathGrows(metric: Metric, log: seq<Record>, n: nat)
    requires n < |log| && Fresh(log, n)
    ensures var o := log[n].data.obu;
            R.PathLength(metric, R.Points(log[..n+1], o))
            == R.PathLength(metric, R.Points(log[..n], o)) + Length(metric, LegOf(log, 0, n))
  {
    var o := log[n].data.obu;
    var points := R.Points(log[..n], o);
    FreshAtEnd(log, n);
    LastPointEndsPath(log, o, n);
    var path := points + [log[n].data.point];
    assert R.Points(log[..n+1], o) == path && path[..|points|] == points;
    if points != [] {
      var leg := (points[|points|-1], log[n].data.point);
      LengthInsert(metric, multiset{}, leg);
      assert multiset{} + multiset{leg} == multiset{leg};
    }
  }

  lemma JourneysStep(metric: Metric, log: seq<Record>, obus: set<int>, n: nat)
    requires n < |log|
    ensures R.Journeys(metric, log[..n+1], obus)
            == R.Journeys(metric, log[..n], obus)
               + if Fresh(log, n) && log[n].data.obu in obus then Length(metric, LegOf(log, 0, n)) else 0.0
  {
    FreshAtEnd(log, n);
    if Fresh(log, n) {
      R.JourneysMove(metric, log[..n], log[..n+1], obus, log[n].data.obu);
      PathGrows(metric, log, n);
    } else {
      R.JourneysMove(metric, log[..n], log[..n+1], obus, 0);
      assert R.Points(log[..n+1], 0) == R.Points(log[..n], 0);
    }
  }

  /** The true legs billed under a key are the paths of all the OBUs billed under it. */
  lemma {:induction false} LegsAreJourneys(metric: Metric, log: seq<Record>, key: int, obus: set<int>, n: nat)
    requires n <= |log|
    requires (forall o :: o in obus ==> Narrow(o) == key) && R.Sharing(log[..n], key) <= obus
    ensures Length(metric, Legs(log, 0, key, 0, n)) == R.Journeys(metric, log[..n], obus)
  {
    if n == 0 {
      R.NoJourneys(metric, obus);
    } else {
      FreshAtEnd(log, n - 1);
      LegsAreJourneys(metric, log, key, obus, n - 1);
      LegsStep(metric, log, 0, key, 0, n - 1);
      JourneysStep(metric, log, obus, n - 1);
    }
  }

  // ---------- Crashes never overcharge ----------

  /** Of the state after a run: what is lost was charged nothing, and charged and lost make up what is due. */
  lemma CrashesOnlyLose(w: World, acts: seq<Action>, key: int)
    requires NonNegative(w.env.metric) && SegmentsStayTrue(w.log) && Execute(w, acts).Some?
    ensures var s := Execute(w, acts).value;
            && (forall i :: 0 <= i < |w.log| && Lost(w.log, s.paid, i) ==>
                  LegOf(w.log, StartOf(w.log, s.paid, i), i) == multiset{})
            && (forall obu :: |LostOf(w.log, s.paid, obu)| <= |s.starts| - 1)
            && Total(s.store.data, key) + Length(w.env.metric, LostLegs(w.log, s.paid, key, |w.log|))
               == Due(w, s.store.processed, key)
  {
    BooksBalance(w, acts);
    var s := Execute(w, acts).value;
    var n := AppliedPrefix(w, acts);
    forall i | 0 <= i < |w.log| && Lost(w.log, s.paid, i)
      ensures LegOf(w.log, StartOf(w.log, s.paid, i), i) == multiset{}
    {
      LostMeansNothing(w.log, s.paid, n, i);
    }
    forall obu ensures |LostOf(w.log, s.paid, obu)| <= |s.starts| - 1 {
      OneSegmentPerRestart(w, s, n, obu);
    }
    LossesAddUp(w, s, n, key);
  }

  lemma LossesAddUp(w: World, s: State, n: nat, key: int)
    requires Sound(w, s) && SegmentsStayTrue(w.log)
    requires n <= |w.log| && Passable(w.log, n) && AppliedTo(w.log, s.paid, n)
    ensures Total(s.store.data, key) + Length(w.env.metric, LostLegs(w.log, s.paid, key, |w.log|))
            == Due(w, s.store.processed, key)
  {
    DueIsPrefix(w.log, s.paid, key, n);
    DueBelow(w.log, s.paid, key, n);
    NothingLostBeyond(w.log, s.paid, key, n, |w.log|);
    forall i | 0 <= i < n ensures ChargedOrLost(w.log, s.paid, key, i) {
      TrueOrNothing(w.log, s.paid, key, n, i);
    }
    BillsAddUp(w.log, s.paid, key, n);
    LengthJoins(w.env.metric, Charged(w.log, s.paid, key, 0, n), LostLegs(w.log, s.paid, key, n));
  }

  /** What is due never exceeds the journeys, and is all of them once everything is committed. */
  lemma DueWithinJourneys(w: World, acts: seq<Action>, key: int, obus: set<int>)
    requires NonNegative(w.env.metric) && Execute(w, acts).Some?
    requires (forall o :: o in obus ==> Narrow(o) == key) && R.Sharing(w.log, key) <= obus
    ensures var s := Execute(w, acts).value;
            && Due(w, s.store.processed, key) <= R.Journeys(w.env.metric, w.log, obus)
            && (s.committed == |w.log| ==> Due(w, s.store.processed, key) == R.Journeys(w.env.metric, w.log, obus))
  {
    BooksBalance(w, acts);
    var s, m := Execute(w, acts).value, |w.log|;
    var n := AppliedPrefix(w, acts);
    DueIsPrefix(w.log, s.paid, key, n);
    LegsSplit(w.log, 0, key, 0, n, m);
    LengthGrows(w.env.metric, Legs(w.log, 0, key, 0, n), Legs(w.log, 0, key, 0, m));
    assert w.log[..m] == w.log;
    LegsAreJourneys(w.env.metric, w.log, key, obus, m);
  }

  /**
    With every log and distances that the condition allows, after any restarts and whatever else goes
    wrong, no total exceeds the path lengths of the OBUs billed under it.
   */
  lemma CrashesNeverOvercharge(w: World, acts: seq<Action>, key: int, obus: set<int>)
    requires NonNegative(w.env.metric) && LengthsStayTrue(w.env.metric, w.log) && Execute(w, acts).Some?
    requires (forall o :: o in obus ==> Narrow(o) == key) && R.Sharing(w.log, key) <= obus
    ensures Total(Execute(w, acts).value.store.data, key) <= R.Journeys(w.env.metric, w.log, obus)
  {
    LengthsStayTrueIsEnough(w, acts, key);
    DueWithinJourneys(w, acts, key, obus);
  }

  /** Once everything is committed, only the lost segments are missing from the bill. */
  lemma DrainedAfterCrashes(w: World, acts: seq<Action>, key: int, obus: set<int>)
    requires NonNegative(w.env.metric) && SegmentsStayTrue(w.log)
    requires Execute(w, acts).Some? && Execute(w, acts).value.committed == |w.log|
    requires (forall o :: o in obus ==> Narrow(o) == key) && R.Sharing(w.log, key) <= obus
    ensures var s := Execute(w, acts).value;
            Total(s.store.data, key) + Length(w.env.metric, LostLegs(w.log, s.paid, key, |w.log|))
            == R.Journeys(w.env.metric, w.log, obus)
  {
    CrashesOnlyLose(w, acts, key);
    DueWithinJourneys(w, acts, key, obus);
  }
}
