/** Short journeys that show what a restart does to a log with repeated event IDs. */
module Trips {
  import opened Types
  import opened Pipeline
  import opened Delivery
  import opened Restarts
  import opened Crashes
  import opened Overcharge
  import R = Replays

  function Fix(obu: int, id: string, p: Point): Record {
    Event(OBUData(id, 1, obu, p))
  }

  // ---------- A restart that overcharges ----------

  /** OBU 1 travels from `a` to `b` to `c`, but its first record is delivered to Kafka twice. */
  function Trip(a: Point, b: Point, c: Point): seq<Record> {
    [Fix(1, "x", a), Fix(1, "y", b), Fix(1, "x", a), Fix(1, "z", c)]
  }

  /** Which records of the trip are first occurrences, from the beginning and since the repetition. */
  lemma TripIsFresh(a: Point, b: Point, c: Point)
    ensures var log := Trip(a, b, c);
            && Fresh(log, 0) && Fresh(log, 1) && !Fresh(log, 2) && Fresh(log, 3)
            && FreshSince(log, 2, 2) && Passable(log, 4)
  {
    var log := Trip(a, b, c);
    assert log[0].data.eventID == log[2].data.eventID;
  }

  /** A calculator started at the repeated record takes `a` for the previous point of `c`. */
  lemma TripLegs(a: Point, b: Point, c: Point)
    ensures Legs(Trip(a, b, c), 0, 1, 0, 3) == multiset{(a, b)}
    ensures Legs(Trip(a, b, c), 0, 1, 3, 4) == multiset{(b, c)}
    ensures Legs(Trip(a, b, c), 2, 1, 3, 4) == multiset{(a, c)}
  {
    var log := Trip(a, b, c);
    TripIsFresh(a, b, c);
    assert LastPoint(log, 0, 0, 1) == None && LastPoint(log, 0, 1, 1) == Some(a);
    assert LastPoint(log, 0, 2, 1) == Some(b) && LastPoint(log, 0, 3, 1) == Some(b);
    assert LastPoint(log, 2, 3, 1) == Some(a);
    assert Legs(log, 0, 1, 0, 1) == multiset{};
    assert Legs(log, 0, 1, 0, 2) == multiset{(a, b)};
  }

  /**
    For given distances the trip can be billed too much, if and only if its last point is farther
    from the repeated one than from the one before.
   */
  lemma TripOvercharges(env: Env, a: Point, b: Point, c: Point)
    requires NonNegative(env.metric)
    ensures !NeverOvercharges(World(Trip(a, b, c), env)) <==> env.metric(a, c).value > env.metric(b, c).value
  {
    var log := Trip(a, b, c);
    TripIsFresh(a, b, c);
    TripLegs(a, b, c);
    OneLeg(env.metric, a, c);
    OneLeg(env.metric, b, c);
    if env.metric(a, c).value <= env.metric(b, c).value {
      forall key: int, lo: nat, n: nat | lo < n <= |log| && Passable(log, n)
        ensures TrueLengthSince(env.metric, log, key, lo, n)
      {
        TripIsShortEnough(env.metric, a, b, c, key, lo, n);
      }
    } else {
      assert !TrueLengthSince(env.metric, log, 1, 2, 4);
    }
    NeverOverchargesIff(World(log, env));
  }

  lemma OneLeg(metric: Metric, p: Point, q: Point)
    ensures Length(metric, multiset{(p, q)}) == metric(p, q).Amount()
  {
    LengthInsert(metric, multiset{}, (p, q));
    assert multiset{} + multiset{(p, q)} == multiset{(p, q)};
  }

  /** The previous point of `c`, by where the calculator started. */
  lemma TripPoint(a: Point, b: Point, c: Point, lo: nat)
    requires lo <= 3
    ensures LegOf(Trip(a, b, c), lo, 3)
            == if lo == 0 then multiset{(b, c)} else if lo == 3 then multiset{} else multiset{(a, c)}
  {
    var log := Trip(a, b, c);
    TripIsFresh(a, b, c);
    if lo == 0 {
      assert LastPoint(log, 0, 2, 1) == Some(b) && LastPoint(log, 0, 3, 1) == Some(b);
    } else if lo < 3 {
      assert FreshSince(log, lo, 2) && LastPoint(log, lo, 3, 1) == Some(a);
    }
  }

  lemma TripIsNotFarther(metric: Metric, a: Point, b: Point, c: Point, lo: nat, i: nat)
    requires NonNegative(metric) && metric(a, c).value <= metric(b, c).value
    requires lo <= i < 4 && Fresh(Trip(a, b, c), i)
    ensures NotFarther(metric, Trip(a, b, c), lo, i)
  {
    var log := Trip(a, b, c);
    TripIsFresh(a, b, c);
    if i == 3 {
      TripPoint(a, b, c, lo);
      TripPoint(a, b, c, 0);
      OneLeg(metric, a, c);
      OneLeg(metric, b, c);
    } else if lo == i {
      LengthIsNonNegative(metric, LegOf(log, 0, i));
      assert LegOf(log, i, i) == multiset{};
    }
  }

  lemma TripIsShortEnough(metric: Metric, a: Point, b: Point, c: Point, key: int, lo: nat, n: nat)
    requires NonNegative(metric) && metric(a, c).value <= metric(b, c).value && lo < n <= 4
    ensures TrueLengthSince(metric, Trip(a, b, c), key, lo, n)
  {
    var log := Trip(a, b, c);
    TripIsFresh(a, b, c);
    forall i | lo < i < n && Counts(log, key, i) ensures NotFarther(metric, log, lo, i) {
      TripIsNotFarther(metric, a, b, c, lo, i);
    }
    DistancesAddUp(metric, log, key, lo, n);
  }

  lemma TripPath(metric: Metric, a: Point, b: Point, c: Point)
    requires NonNegative(metric)
    ensures R.PathLength(metric, R.Points(Trip(a, b, c), 1)) == metric(a, b).value + metric(b, c).value
  {
    TripPoints(a, b, c);
    assert [a, b, c][..2] == [a, b] && [a, b][..1] == [a];
    assert R.PathLength(metric, [a]) == 0.0;
    assert R.PathLength(metric, [a, b]) == R.PathLength(metric, [a]) + metric(a, b).Amount();
    assert R.PathLength(metric, [a, b, c]) == R.PathLength(metric, [a, b]) + metric(b, c).Amount();
  }

  lemma TripPoints(a: Point, b: Point, c: Point)
    ensures R.Points(Trip(a, b, c), 1) == [a, b, c]
  {
    var log := Trip(a, b, c);
    assert log[..3][..2] == log[..2] && log[..2][..1] == log[..1] && log[..1][..0] == [];
    assert Fresh(log[..1], 0) && Fresh(log[..2], 1) && Fresh(log, 3);
    assert !Fresh(log[..3], 2) by { assert log[..3][0] == log[..3][2]; }
    assert R.Points(log[..1], 1) == [a];
    assert R.Points(log[..2], 1) == [a, b];
    assert R.Points(log[..3], 1) == [a, b];
  }

  /**
    With any distances in which `c` is farther from `a` than from `b`: crashing between `b` and the
    repeated record makes the bill exceed the journey by the difference.
   */
  lemma RepeatedIDsOvercharge(env: Env, a: Point, b: Point, c: Point) returns (acts: seq<Action>)
    requires NonNegative(env.metric) && env.metric(b, c).value < env.metric(a, c).value
    ensures var w := World(Trip(a, b, c), env);
            && Execute(w, acts).Some?
            && Total(Execute(w, acts).value.store.data, 1) == env.metric(a, b).value + env.metric(a, c).value
            && Total(Execute(w, acts).value.store.data, 1) > R.PathLength(env.metric, R.Points(w.log, 1))
  {
    var w, t := World(Trip(a, b, c), env), INIT;
    TripIsFresh(a, b, c);
    acts, t := CrashOnce(w, 2, 4);
    CrashOnceBills(w, acts, t, 1, 2, 4);
    TripLegs(a, b, c);
    OneLeg(env.metric, a, b);
    LengthInsert(env.metric, multiset{(a, b)}, (a, c));
    TripPath(env.metric, a, b, c);
  }

  /** Along a straight line, the trip to 1 and then 2 is billed as 3 by a calculator that crashed once. */
  lemma StraightTripOvercharges(env: Env) returns (acts: seq<Action>)
    requires Euclidean(env.metric)
    ensures var w := World(Trip(Point(0.0, 0.0), Point(1.0, 0.0), Point(2.0, 0.0)), env);
            && Execute(w, acts).Some?
            && Total(Execute(w, acts).value.store.data, 1) == 3.0
            && R.PathLength(env.metric, R.Points(w.log, 1)) == 2.0
  {
    var a, b, c := Point(0.0, 0.0), Point(1.0, 0.0), Point(2.0, 0.0);
    EuclideanIsNonNegative(env.metric);
    OnALine(env.metric, a, b, 1.0);
    OnALine(env.metric, b, c, 1.0);
    OnALine(env.metric, a, c, 2.0);
    acts := RepeatedIDsOvercharge(env, a, b, c);
    TripPath(env.metric, a, b, c);
  }

  lemma OnALine(metric: Metric, p: Point, q: Point, d: real)
    requires Euclidean(metric) && p.lon == q.lon && q.lat - p.lat == d >= 0.0
    ensures metric(p, q) == Finite(d)
  {
    var v := metric(p, q).value;
    SameSquare(v, d);
  }

  lemma SameSquare(x: real, y: real)
    requires x >= 0.0 && y >= 0.0 && x * x == y * y
    ensures x == y
  {
    var gap, sum := x - y, x + y;
    assert gap > 0.0 ==> gap * sum > 0.0;
    assert gap < 0.0 ==> -gap * sum > 0.0;
    assert gap * sum == x * x - y * y == 0.0;
  }

  /** There and back again is never billed too much, although the restart measures a false leg. */
  lemma ReturnTripIsHarmless(env: Env, a: Point, b: Point)
    requires Euclidean(env.metric) && a != b
    ensures ChargesFairly(World(Trip(a, b, a), env)) && NeverOvercharges(World(Trip(a, b, a), env))
    ensures !SegmentsStayTrue(Trip(a, b, a)) && !LegsStayTrue(Trip(a, b, a))
  {
    var log := Trip(a, b, a);
    EuclideanIsNonNegative(env.metric);
    OnALine(env.metric, a, a, 0.0);
    TripOvercharges(env, a, b, a);
    TripIsFresh(a, b, a);
    TripLegs(a, b, a);
    assert (a, a) in Legs(log, 2, 1, 3, 4) && (a, a) !in Legs(log, 0, 1, 3, 4);
    assert !TrueLegsSince(log, 1, 2, 4);
    if SegmentsStayTrue(log) {
      SegmentsImplyLegs(log);
    }
    forall lo: nat, i: nat | lo <= i < |log| && Fresh(log, i) ensures NotFarther(env.metric, log, lo, i) {
      TripIsNotFarther(env.metric, a, b, a, lo, i);
    }
    ChargesFairlyIff(World(log, env));
  }

  // ---------- A false segment that a lost one makes up for ----------

  /** OBU 1 goes from `a` to `c` and stays there; OBU 2 has used one of its event IDs before. */
  function Detour(a: Point, b: Point, c: Point): seq<Record> {
    [Fix(1, "x", a), Fix(2, "u", b), Fix(1, "y", c), Fix(1, "x", a), Fix(1, "u", c), Fix(1, "z", c)]
  }

  lemma DetourIsFresh(a: Point, b: Point, c: Point)
    ensures var log := Detour(a, b, c);
            && Fresh(log, 0) && Fresh(log, 1) && Fresh(log, 2) && !Fresh(log, 3) && !Fresh(log, 4) && Fresh(log, 5)
            && Passable(log, 6)
  {
    var log := Detour(a, b, c);
    assert log[0].data.eventID == log[3].data.eventID && log[1].data.eventID == log[4].data.eventID;
  }

  lemma DetourPoints(a: Point, b: Point, c: Point)
    ensures var log := Detour(a, b, c);
            && LastPoint(log, 0, 2, 1) == Some(a) && LastPoint(log, 0, 5, 1) == Some(c)
            && LastPoint(log, 1, 2, 1) == None && LastPoint(log, 1, 5, 1) == Some(a)
  {
    var log := Detour(a, b, c);
    DetourIsFresh(a, b, c);
    assert LastPoint(log, 0, 1, 1) == Some(a);
    assert LastPoint(log, 0, 3, 1) == LastPoint(log, 0, 4, 1) == Some(c);
    assert !FreshSince(log, 1, 4) by { assert log[1].data.eventID == log[4].data.eventID; }
    assert FreshSince(log, 1, 3) && LastPoint(log, 1, 4, 1) == Some(a);
  }

  lemma DetourPointsLater(a: Point, b: Point, c: Point, lo: nat)
    requires 2 <= lo < 5
    ensures LastPoint(Detour(a, b, c), lo, 5, 1) == Some(c)
  {
    assert FreshSince(Detour(a, b, c), lo, 4);
  }

  /**
    A restart at the record of OBU 2 gives the last record of OBU 1 a false segment, from `a` to `c`, and
    charges it too much whenever that is farther than staying at `c`; yet, with any distances, no run ever
    bills too much in total, because the same restart loses the true segment from `a` to `c`.
   */
  lemma LostSegmentMakesUp(env: Env, a: Point, b: Point, c: Point)
    requires NonNegative(env.metric)
    ensures NeverOvercharges(World(Detour(a, b, c), env))
    ensures env.metric(a, c).value > env.metric(c, c).value ==> !ChargesFairly(World(Detour(a, b, c), env))
  {
    var log := Detour(a, b, c);
    DetourIsFresh(a, b, c);
    DetourPoints(a, b, c);
    OneLeg(env.metric, a, c);
    OneLeg(env.metric, c, c);
    assert LegOf(log, 1, 5) == multiset{(a, c)} && LegOf(log, 0, 5) == multiset{(c, c)};
    assert Passable(log, 5 + 1);
    assert NotFarther(env.metric, log, 1, 5) <==> env.metric(a, c).value <= env.metric(c, c).value;
    ChargesFairlyIff(World(log, env));
    forall key: int, lo: nat, n: nat | lo < n <= |log| && Passable(log, n)
      ensures TrueLegsSince(log, key, lo, n)
    {
      DetourLegs(a, b, c, key, lo, n);
    }
    AnyDistancesIff(log);
  }

  lemma DetourLegs(a: Point, b: Point, c: Point, key: int, lo: nat, n: nat)
    requires lo < n <= 6
    ensures TrueLegsSince(Detour(a, b, c), key, lo, n)
  {
    var log := Detour(a, b, c);
    DetourIsFresh(a, b, c);
    DetourPoints(a, b, c);
    if lo == 1 && key == 1 {
      DetourLegsSinceOne(a, b, c, n);
    } else {
      forall i | lo < i < n && Counts(log, key, i) ensures LegOf(log, lo, i) <= LegOf(log, 0, i) {
        if i == 5 && 2 <= lo {
          DetourPointsLater(a, b, c, lo);
        }
      }
      SegmentsKeepLegs(log, key, lo, n);
    }
  }

  lemma DetourLegsSinceOne(a: Point, b: Point, c: Point, n: nat)
    requires 1 < n <= 6
    ensures TrueLegsSince(Detour(a, b, c), 1, 1, n)
  {
    DetourPoints(a, b, c);
    DetourLegsFrom(a, b, c, 0, n);
    DetourLegsFrom(a, b, c, 1, n);
  }

  lemma DetourLegsFrom(a: Point, b: Point, c: Point, lo: nat, n: nat)
    requires lo <= 1 < n <= 6
    ensures var log := Detour(a, b, c);
            Legs(log, lo, 1, 2, n) == if n == 2 then multiset{} else if n < 6 then LegOf(log, lo, 2)
                                      else LegOf(log, lo, 2) + LegOf(log, lo, 5)
  {
    var log := Detour(a, b, c);
    DetourIsFresh(a, b, c);
    var none: multiset<Leg> := multiset{};
    assert Legs(log, lo, 1, 2, 3) == none + LegOf(log, lo, 2);
    assert Legs(log, lo, 1, 2, 4) == Legs(log, lo, 1, 2, 3) + none;
    assert Legs(log, lo, 1, 2, 5) == Legs(log, lo, 1, 2, 4) + none;
  }

  // ---------- A harmless repetition ----------

  /** Event IDs need not be distinct: a record that is repeated at once never harms. */
  lemma RepetitionCanBeHarmless(a: Point, b: Point)
    ensures var log := [Fix(1, "x", a), Fix(1, "x", a), Fix(1, "y", b)];
            !DistinctIDs(log) && SegmentsStayTrue(log)
  {
    var log := [Fix(1, "x", a), Fix(1, "x", a), Fix(1, "y", b)];
    assert log[0].data.eventID == log[1].data.eventID;
    assert LastPoint(log, 0, 1, 1) == LastPoint(log, 0, 2, 1) == LastPoint(log, 1, 2, 1) == Some(a);
    forall lo: nat, i: nat | lo <= i < |log| && Fresh(log, i) ensures LegOf(log, lo, i) <= LegOf(log, 0, i) {
      assert i == 0 || i == 2;
      assert i == 0 || lo == 0 || lo == 1 || lo == 2;
    }
  }
}
