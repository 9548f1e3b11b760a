/**
  When a restart of the calculator can overcharge: exactly with which distances and logs no run ever
  bills more than the true distance, record by record and in total.
 */
module Overcharge {
  import opened Types
  import opened Pipeline
  import opened Delivery
  import opened Restarts
  import opened Crashes
  import D = Drain
  import S = Store

  /** What record `i` should have added to the bill kept under `key`. */
  ghost function DueLeg(log: seq<Record>, processed: set<string>, key: int, i: nat): multiset<Leg>
    requires i < |log|
  {
    if Counts(log, key, i) && log[i].data.eventID in processed then LegOf(log, 0, i) else multiset{}
  }

  /** The true legs, under `key`, of the applied first occurrences among the first `n` records. */
  ghost function DueLegs(log: seq<Record>, processed: set<string>, key: int, n: nat): multiset<Leg>
    requires n <= |log|
  {
    if n == 0 then multiset{} else DueLegs(log, processed, key, n - 1) + DueLeg(log, processed, key, n - 1)
  }

  /** The true distance, under `key`, of everything the aggregator has applied. */
  ghost function Due(w: World, processed: set<string>, key: int): real {
    Length(w.env.metric, DueLegs(w.log, processed, key, |w.log|))
  }

  ghost predicate WithinDue(w: World, acts: seq<Action>, key: int) {
    Execute(w, acts).Some? ==>
      var s := Execute(w, acts).value; Total(s.store.data, key) <= Due(w, s.store.processed, key)
  }

  /** No run, with these distances over this log, ever bills more than the true distance of what was applied. */
  ghost predicate NeverOvercharges(w: World) {
    forall acts: seq<Action>, key: int :: WithinDue(w, acts, key)
  }

  /** Record `i` was charged at most what a calculator that never crashed would have charged. */
  ghost predicate ChargedFairly(w: World, acts: seq<Action>, i: nat)
    requires i < |w.log|
  {
    Execute(w, acts).Some? && Paid(w.log, Execute(w, acts).value.paid, i) ==>
      Execute(w, acts).value.paid[w.log[i].data.eventID].request.value.Amount() <= Value(w, 0, i).Amount()
  }

  ghost predicate ChargesFairly(w: World) {
    forall acts: seq<Action>, i: nat :: i < |w.log| ==> ChargedFairly(w, acts, i)
  }

  // ---------- What a prefix of applied records adds up to ----------

  lemma {:induction false} DueBelow(log: seq<Record>, paid: map<string, Call>, key: int, m: nat)
    requires m <= |log| && forall i :: 0 <= i < m && Fresh(log, i) ==> Paid(log, paid, i)
    ensures DueLegs(log, paid.Keys, key, m) == Legs(log, 0, key, 0, m)
  {
    if m > 0 {
      DueBelow(log, paid, key, m - 1);
    }
  }

  lemma {:induction false} NothingBeyond(log: seq<Record>, paid: map<string, Call>, key: int, n: nat, m: nat)
    requires n <= m <= |log| && forall i :: n <= i < m ==> !Paid(log, paid, i)
    ensures DueLegs(log, paid.Keys, key, m) == DueLegs(log, paid.Keys, key, n)
    ensures Charged(log, paid, key, 0, m) == Charged(log, paid, key, 0, n)
    decreases m
  {
    if n < m {
      NothingBeyond(log, paid, key, n, m - 1);
      var due, charged := DueLegs(log, paid.Keys, key, m - 1), Charged(log, paid, key, 0, m - 1);
      assert !Paid(log, paid, m - 1);
      assert DueLegs(log, paid.Keys, key, m) == due + multiset{} == due;
      assert Charged(log, paid, key, 0, m) == charged + multiset{} == charged;
    }
  }

  lemma DueIsPrefix(log: seq<Record>, paid: map<string, Call>, key: int, n: nat)
    requires n <= |log| && AppliedTo(log, paid, n)
    ensures DueLegs(log, paid.Keys, key, |log|) == Legs(log, 0, key, 0, n)
    ensures Charged(log, paid, key, 0, |log|) == Charged(log, paid, key, 0, n)
  {
    DueBelow(log, paid, key, n);
    NothingBeyond(log, paid, key, n, |log|);
  }

  // ---------- The condition is sufficient ----------

  /**
    Peel off the records charged by the last calculator: its legs are short enough by the condition,
    and what came before was charged by earlier calculators.
   */
  lemma {:induction false} ChargedWithin(metric: Metric, log: seq<Record>, paid: map<string, Call>, key: int, n: nat)
    requires NonNegative(metric) && LengthsStayTrue(metric, log)
    requires n <= |log| && Passable(log, n) && ByTurns(log, paid, n)
    ensures ShortEnough(metric, log, paid, key, n)
  {
    hide ShortEnough;
    hide TrueLengthSince;
    hide LegOf;
    if n == 0 {
      NothingYet(metric, log, paid, key);
    } else {
      var i := n - 1;
      if Fresh(log, i) && StartOf(log, paid, i) < i {
        var lo := StartOf(log, paid, i);
        ChargedWithin(metric, log, paid, key, lo + 1);
        assert TrueLengthSince(metric, log, key, lo, n);
        LastTurn(metric, log, paid, key, lo, n);
      } else {
        ChargedWithin(metric, log, paid, key, i);
        StartChargesNothing(metric, log, paid, key, i);
      }
    }
  }

  lemma NothingYet(metric: Metric, log: seq<Record>, paid: map<string, Call>, key: int)
    ensures ShortEnough(metric, log, paid, key, 0)
  {
    assert Charged(log, paid, key, 0, 0) == Legs(log, 0, key, 0, 0);
  }

  /** The legs charged for the first `n` records are together no longer than the true ones. */
  ghost predicate ShortEnough(metric: Metric, log: seq<Record>, paid: map<string, Call>, key: int, n: nat)
    requires n <= |log|
  {
    Length(metric, Charged(log, paid, key, 0, n)) <= Length(metric, Legs(log, 0, key, 0, n))
  }

  lemma LastTurn(metric: Metric, log: seq<Record>, paid: map<string, Call>, key: int, lo: nat, n: nat)
    requires lo + 1 < n <= |log| && ByTurns(log, paid, n) && Fresh(log, n - 1) && StartOf(log, paid, n - 1) == lo
    requires TrueLengthSince(metric, log, key, lo, n) && ShortEnough(metric, log, paid, key, lo + 1)
    ensures ShortEnough(metric, log, paid, key, n)
  {
    hide LegOf;
    hide Length;
    ChargedIsLegs(log, paid, key, lo, lo + 1, n);
    ChargedSplits(log, paid, key, 0, lo + 1, n);
    LegsSplit(log, 0, key, 0, lo + 1, n);
    LengthsInclude(metric, Charged(log, paid, key, 0, lo + 1), Charged(log, paid, key, lo + 1, n),
                   Legs(log, 0, key, 0, lo + 1), Legs(log, 0, key, lo + 1, n));
  }

  /** A repetition is charged nothing, and neither is the record at which a calculator starts. */
  lemma StartChargesNothing(metric: Metric, log: seq<Record>, paid: map<string, Call>, key: int, i: nat)
    requires i < |log| && (Fresh(log, i) ==> Paid(log, paid, i) && StartOf(log, paid, i) >= i)
    requires NonNegative(metric) && ShortEnough(metric, log, paid, key, i)
    ensures ShortEnough(metric, log, paid, key, i + 1)
  {
    var legs := Charged(log, paid, key, 0, i);
    assert Charge(log, paid, key, i) == multiset{};
    assert legs + multiset{} == legs;
    LegsStep(metric, log, 0, key, 0, i);
    if Counts(log, key, i) {
      LengthIsNonNegative(metric, LegOf(log, 0, i));
    }
  }

  /** If the legs billed after a restart are never too long together, no run overcharges. */
  lemma LengthsStayTrueIsEnough(w: World, acts: seq<Action>, key: int)
    requires NonNegative(w.env.metric) && LengthsStayTrue(w.env.metric, w.log)
    ensures WithinDue(w, acts, key)
  {
    if Execute(w, acts).Some? {
      var s := Execute(w, acts).value;
      BooksBalance(w, acts);
      var n := AppliedPrefix(w, acts);
      ChargedByTurns(w, s, n);
      ChargedWithin(w.env.metric, w.log, s.paid, key, n);
      DueIsPrefix(w.log, s.paid, key, n);
    }
  }

  /** If a restart makes no first occurrence farther than it is, none is charged too much. */
  lemma DistancesStayTrueIsEnough(w: World, acts: seq<Action>, i: nat)
    requires NonNegative(w.env.metric) && DistancesStayTrue(w.env.metric, w.log) && i < |w.log|
    ensures ChargedFairly(w, acts, i)
  {
    if Execute(w, acts).Some? && Paid(w.log, Execute(w, acts).value.paid, i) {
      var s := Execute(w, acts).value;
      BooksBalance(w, acts);
      var n := AppliedPrefix(w, acts);
      EntryIsLeg(w, s, i);
      ValueIsLeg(w, 0, i);
      PassableBelow(w.log, i + 1, n);
      assert NotFarther(w.env.metric, w.log, StartOf(w.log, s.paid, i), i);
    }
  }

  lemma EntryIsLeg(w: World, s: State, i: nat)
    requires Inv(w, s) && Sound(w, s) && i < |w.log| && Paid(w.log, s.paid, i)
    ensures var call := s.paid[w.log[i].data.eventID];
            call.start <= i && call.request.value.Amount() == Length(w.env.metric, LegOf(w.log, call.start, i))
  {
    var id := w.log[i].data.eventID;
    EntryStemsFrom(w, s, i);
    assert ProperEntry(w, s.Cursor(), s.starts, id, s.paid[id]);
    ValueIsLeg(w, s.paid[id].start, i);
  }

  // ---------- The condition is necessary ----------

  /**
    A run with one restart: everything up to and including `lo` is billed by the first calculator,
    which dies before `lo` is committed; the second one goes on to `n`.
   */
  lemma CrashOnce(w: World, lo: nat, n: nat) returns (acts: seq<Action>, t: State)
    requires NonNegative(w.env.metric) && lo < n <= |w.log| && Passable(w.log, n)
    ensures Execute(w, acts) == Some(t) && t.starts == [0, lo] && t.committed == n
    ensures forall id :: id in t.paid ==> t.paid[id].at < n
    ensures Fresh(w.log, lo) ==> w.log[lo].data.eventID in t.paid && t.paid[w.log[lo].data.eventID].start == 0
  {
    var s: State;
    acts, s := BillUpTo(w, lo, n);
    acts, t := D.Extend(w, acts, s, Crash(false));
    forall i | lo <= i < n && Valid(w.log[i]) ensures S.Acceptable(Order(w, lo, i)) {
      D.TakenIffBillable(w, lo, i);
    }
    acts, t := D.DrainOn(w, acts, t, lo, n);
  }

  /** The first calculator has billed record `lo`, but not committed it. */
  lemma BillUpTo(w: World, lo: nat, n: nat) returns (acts: seq<Action>, s: State)
    requires NonNegative(w.env.metric) && lo < n <= |w.log| && Passable(w.log, n)
    ensures Execute(w, acts) == Some(s) && s.starts == [0] && s.committed == lo
    ensures forall id :: id in s.paid ==> s.paid[id].at < n
    ensures Fresh(w.log, lo) ==>
              var id := w.log[lo].data.eventID;
              id in s.paid && id in s.store.processed && s.paid[id].start == 0
  {
    forall i | 0 <= i < n && Valid(w.log[i]) ensures S.Acceptable(Order(w, 0, i)) {
      D.TakenIffBillable(w, 0, i);
    }
    acts, s := D.DrainOn(w, [], INIT, 0, lo);
    if Valid(w.log[lo]) {
      assert Order(w, 0, lo) == Request(w.log[lo].data, Value(w, 0, lo));
      acts, s := D.ServeNext(w, acts, s);
    }
    BooksBalance(w, acts);
    if Fresh(w.log, lo) {
      EntryStemsFrom(w, s, lo);
    }
  }

  /** Which calculator charged for what in that run. */
  lemma CrashOnceTurns(w: World, acts: seq<Action>, t: State, lo: nat, n: nat)
    requires Execute(w, acts) == Some(t) && t.starts == [0, lo] && t.committed == n && lo < n <= |w.log|
    requires forall id :: id in t.paid ==> t.paid[id].at < n
    requires Fresh(w.log, lo) ==> w.log[lo].data.eventID in t.paid && t.paid[w.log[lo].data.eventID].start == 0
    ensures Inv(w, t) && Sound(w, t) && AppliedTo(w.log, t.paid, n)
    ensures forall i :: 0 <= i < n && Fresh(w.log, i) ==> StartOf(w.log, t.paid, i) == if i <= lo then 0 else lo
  {
    BooksBalance(w, acts);
    forall i | 0 <= i < |w.log| && Fresh(w.log, i)
      ensures Paid(w.log, t.paid, i) <==> i < n
      ensures i < n ==> StartOf(w.log, t.paid, i) == if i <= lo then 0 else lo
    {
      TurnOf(w, t, lo, n, i);
    }
  }

  lemma TurnOf(w: World, t: State, lo: nat, n: nat, i: nat)
    requires Inv(w, t) && Sound(w, t) && t.starts == [0, lo] && t.committed == n && lo < n <= |w.log|
    requires forall id :: id in t.paid ==> t.paid[id].at < n
    requires Fresh(w.log, lo) ==> w.log[lo].data.eventID in t.paid && t.paid[w.log[lo].data.eventID].start == 0
    requires i < |w.log| && Fresh(w.log, i)
    ensures Paid(w.log, t.paid, i) <==> i < n
    ensures i < n ==> StartOf(w.log, t.paid, i) == if i <= lo then 0 else lo
  {
    if i < n {
      assert Settled(w, t.store.processed, i);
    }
    if Paid(w.log, t.paid, i) {
      EntryStemsFrom(w, t, i);
      assert lo in t.starts;
    }
  }

  lemma TwoTurns(log: seq<Record>, paid: map<string, Call>, key: int, lo: nat, n: nat)
    requires lo < n <= |log| && AppliedTo(log, paid, n)
    requires forall i :: 0 <= i < n && Fresh(log, i) ==> StartOf(log, paid, i) == if i <= lo then 0 else lo
    ensures var before := Legs(log, 0, key, 0, lo + 1);
            && Charged(log, paid, key, 0, |log|) == before + Legs(log, lo, key, lo + 1, n)
            && DueLegs(log, paid.Keys, key, |log|) == before + Legs(log, 0, key, lo + 1, n)
  {
    DueIsPrefix(log, paid, key, n);
    LegsSplit(log, 0, key, 0, lo + 1, n);
    ChargedIsLegs(log, paid, key, 0, 0, lo + 1);
    ChargedIsLegs(log, paid, key, lo, lo + 1, n);
    ChargedSplits(log, paid, key, 0, lo + 1, n);
  }

  /** What that run has billed, and what was due. */
  lemma CrashOnceBills(w: World, acts: seq<Action>, t: State, key: int, lo: nat, n: nat)
    requires Execute(w, acts) == Some(t) && t.starts == [0, lo] && t.committed == n && lo < n <= |w.log|
    requires forall id :: id in t.paid ==> t.paid[id].at < n
    requires Fresh(w.log, lo) ==> w.log[lo].data.eventID in t.paid && t.paid[w.log[lo].data.eventID].start == 0
    ensures var before := Legs(w.log, 0, key, 0, lo + 1);
            && Total(t.store.data, key) == Length(w.env.metric, before + Legs(w.log, lo, key, lo + 1, n))
            && Due(w, t.store.processed, key) == Length(w.env.metric, before + Legs(w.log, 0, key, lo + 1, n))
  {
    CrashOnceTurns(w, acts, t, lo, n);
    TwoTurns(w.log, t.paid, key, lo, n);
  }

  /** Legs that are too long together after a restart show in the total. */
  lemma TooLongOvercharges(w: World, key: int, lo: nat, n: nat) returns (acts: seq<Action>)
    requires NonNegative(w.env.metric) && lo < n <= |w.log| && Passable(w.log, n)
    requires !TrueLengthSince(w.env.metric, w.log, key, lo, n)
    ensures !WithinDue(w, acts, key)
  {
    var t: State;
    acts, t := CrashOnce(w, lo, n);
    CrashOnceBills(w, acts, t, key, lo, n);
    var before := Legs(w.log, 0, key, 0, lo + 1);
    LengthJoins(w.env.metric, before, Legs(w.log, lo, key, lo + 1, n));
    LengthJoins(w.env.metric, before, Legs(w.log, 0, key, lo + 1, n));
  }

  /** So does a single first occurrence that gets too far a previous point. */
  lemma TooFarOvercharges(w: World, lo: nat, i: nat) returns (acts: seq<Action>)
    requires NonNegative(w.env.metric) && lo <= i < |w.log| && Fresh(w.log, i) && Passable(w.log, i + 1)
    requires !NotFarther(w.env.metric, w.log, lo, i)
    ensures !ChargedFairly(w, acts, i)
  {
    LengthIsNonNegative(w.env.metric, LegOf(w.log, 0, i));
    assert LegOf(w.log, i, i) == multiset{} && lo < i;
    var t: State;
    acts, t := CrashOnce(w, lo, i + 1);
    CrashOnceTurns(w, acts, t, lo, i + 1);
    EntryIsLeg(w, t, i);
    ValueIsLeg(w, 0, i);
  }

  // ---------- The exact conditions ----------

  /**
    Totals, for given distances and a given log: no run ever overcharges, however often the calculator
    restarts, if and only if the legs billed after a restart are never longer together than the
    true ones.
   */
  lemma NeverOverchargesIff(w: World)
    requires NonNegative(w.env.metric)
    ensures NeverOvercharges(w) <==> LengthsStayTrue(w.env.metric, w.log)
  {
    if LengthsStayTrue(w.env.metric, w.log) {
      forall acts: seq<Action>, key: int ensures WithinDue(w, acts, key) {
        LengthsStayTrueIsEnough(w, acts, key);
      }
    } else {
      var key: int, lo: nat, n: nat :| lo < n <= |w.log| && Passable(w.log, n)
                                       && !TrueLengthSince(w.env.metric, w.log, key, lo, n);
      var acts := TooLongOvercharges(w, key, lo, n);
    }
  }

  /**
    Records, for given distances and a given log: no first occurrence is ever charged more than its
    true segment, if and only if a restart leaves none of them farther from the last point than it is.
   */
  lemma ChargesFairlyIff(w: World)
    requires NonNegative(w.env.metric)
    ensures ChargesFairly(w) <==> DistancesStayTrue(w.env.metric, w.log)
  {
    if DistancesStayTrue(w.env.metric, w.log) {
      forall acts: seq<Action>, i: nat | i < |w.log| ensures ChargedFairly(w, acts, i) {
        DistancesStayTrueIsEnough(w, acts, i);
      }
    } else {
      var lo: nat, i: nat :| lo <= i < |w.log| && Fresh(w.log, i) && Passable(w.log, i + 1)
                             && !NotFarther(w.env.metric, w.log, lo, i);
      var acts := TooFarOvercharges(w, lo, i);
      assert !ChargedFairly(w, acts, i);
    }
  }

  /** A log is safe in total with any distances, if and only if no leg is ever billed too often. */
  lemma AnyDistancesIff(log: seq<Record>)
    ensures (forall env: Env :: NonNegative(env.metric) ==> NeverOvercharges(World(log, env))) <==> LegsStayTrue(log)
  {
    LegsStayTrueIff(log);
    forall env: Env | NonNegative(env.metric)
      ensures NeverOvercharges(World(log, env)) <==> LengthsStayTrue(env.metric, log)
    {
      NeverOverchargesIff(World(log, env));
    }
    forall metric: Metric | NonNegative(metric) && !LengthsStayTrue(metric, log)
      ensures exists env: Env :: NonNegative(env.metric) && !NeverOvercharges(World(log, env))
    {
      NeverOverchargesIff(World(log, Env(metric, _ => 0)));
    }
  }

  /** It is safe record by record with any distances, if and only if no restart gives a false previous point. */
  lemma AnyDistancesFairIff(log: seq<Record>)
    ensures (forall env: Env :: NonNegative(env.metric) ==> ChargesFairly(World(log, env))) <==> SegmentsStayTrue(log)
  {
    SegmentsStayTrueIff(log);
    forall env: Env | NonNegative(env.metric)
      ensures ChargesFairly(World(log, env)) <==> DistancesStayTrue(env.metric, log)
    {
      ChargesFairlyIff(World(log, env));
    }
    forall metric: Metric | NonNegative(metric) && !DistancesStayTrue(metric, log)
      ensures exists env: Env :: NonNegative(env.metric) && !ChargesFairly(World(log, env))
    {
      ChargesFairlyIff(World(log, Env(metric, _ => 0)));
    }
  }
}
