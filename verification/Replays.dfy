/** What a pass over the log means: repetitions, interleavings and path lengths. */
module Replays {
  import opened Types
  import opened Pipeline
  import Calc = Calculator
  import S = Store
  import F = Fingerprints

  // ---------- Repeated event IDs do not change the meaning ----------

  lemma FirstOccurrence(log: seq<Record>, j: nat) returns (i: nat)
    requires j < |log| && Valid(log[j])
    ensures i <= j && Fresh(log, i) && log[i].data.eventID == log[j].data.eventID
  {
    if Fresh(log, j) {
      i := j;
    } else {
      var k :| 0 <= k < j && Valid(log[k]) && log[k].data.eventID == log[j].data.eventID;
      i := FirstOccurrence(log, k);
    }
  }

  lemma RepeatIsNoOp(env: Env, log: seq<Record>)
    requires NonNegative(env.metric)
    requires log != [] && RepeatsStayBillable(log)
    requires !Fresh(log, |log|-1)
    ensures Run(env, START, log) == Run(env, START, log[..|log|-1])
  {
    var n := |log| - 1;
    var front, r := log[..n], log[n];
    if Valid(r) {
      FreshMeansNew(log);
      MemoKeys(env, front, r.data.eventID);
      if Narrow(r.data.obu) > 0 {
        var i := FirstOccurrence(log, n);
        assert front[i] == log[i];
        ProcessedAreBillable(env, front);
      }
    }
  }

  lemma FreshInPrefix(log: seq<Record>, n: nat, i: nat)
    requires i < n <= |log|
    ensures Fresh(log[..n], i) == Fresh(log, i)
  {
  }

  lemma {:induction false} DroppingRepeats(env: Env, log: seq<Record>)
    requires NonNegative(env.metric) && RepeatsStayBillable(log)
    ensures Run(env, START, log) == Run(env, START, Firsts(log))
  {
    if log != [] {
      var n := |log| - 1;
      var front := log[..n];
      forall i | 0 <= i < n ensures Fresh(front, i) == Fresh(log, i) { FreshInPrefix(log, n, i); }
      DroppingRepeats(env, front);
      if Fresh(log, n) {
        assert Firsts(log)[..|Firsts(front)|] == Firsts(front);
      } else {
        RepeatIsNoOp(env, log);
        assert Firsts(log) == Firsts(front);
      }
    }
  }

  /** Every retained record is a first occurrence. */
  lemma {:induction false} FirstsAreFresh(log: seq<Record>, r: Record) returns (i: nat)
    requires r in Firsts(log)
    ensures i < |log| && log[i] == r && Fresh(log, i)
  {
    var n := |log| - 1;
    if Fresh(log, n) && log[n] == r {
      i := n;
    } else {
      i := FirstsAreFresh(log[..n], r);
      FreshInPrefix(log, n, i);
    }
  }

  /** It can matter: the repetition is billed for OBU 1, although the first event names no billable OBU. */
  lemma RepetitionCanMatter(env: Env, p: Point)
    requires NonNegative(env.metric)
    ensures var log := [Event(OBUData("x", 1, 0x8000_0000, p)), Event(OBUData("x", 1, 1, p))];
            Run(env, START, log) != Run(env, START, Firsts(log))
  {
    RepeatShowsThrough(env, [Event(OBUData("x", 1, 0x8000_0000, p)), Event(OBUData("x", 1, 1, p))], 0, 1);
  }

  /**
    The exact condition under which a log with repeated event IDs means the same as its first
    occurrences alone: no repetition may turn an unbillable OBU ID into a billable one.
   */
  lemma DeduplicationPreservesMeaning(env: Env, log: seq<Record>)
    requires NonNegative(env.metric)
    ensures Run(env, START, log) == Run(env, START, Firsts(log)) <==> RepeatsStayBillable(log)
  {
    if RepeatsStayBillable(log) {
      DroppingRepeats(env, log);
    } else {
      var i, j :| 0 <= i < j < |log| && Fresh(log, i) && Valid(log[j])
                  && log[i].data.eventID == log[j].data.eventID && Narrow(log[j].data.obu) > 0
                  && Narrow(log[i].data.obu) <= 0;
      RepeatShowsThrough(env, log, i, j);
    }
  }

  /** A repetition that turns billable is processed, although its first occurrence never was. */
  lemma RepeatShowsThrough(env: Env, log: seq<Record>, i: nat, j: nat)
    requires NonNegative(env.metric)
    requires i < j < |log| && Fresh(log, i) && Valid(log[j])
    requires log[i].data.eventID == log[j].data.eventID
    requires Narrow(log[i].data.obu) <= 0 < Narrow(log[j].data.obu)
    ensures Run(env, START, log) != Run(env, START, Firsts(log))
  {
    var id, fs := log[i].data.eventID, Firsts(log);
    assert Billable(log, id);
    assert id in Run(env, START, log).store.processed by {
      ProcessedAreBillable(env, log);
    }
    if Billable(fs, id) {
      var k :| 0 <= k < |fs| && Valid(fs[k]) && fs[k].data.eventID == id && Narrow(fs[k].data.obu) > 0;
      var m := FirstsAreFresh(log, fs[k]);
      assert false;
    }
    ProcessedAreBillable(env, fs);
  }

  // ---------- Interleavings that keep each OBU's order ----------

  predicate Mine(r: Record, obu: int) {
    Valid(r) && r.data.obu == obu
  }

  /** The valid records of one OBU, in log order. */
  function Of(log: seq<Record>, obu: int): seq<Record> {
    if log == [] then []
    else (if Mine(log[0], obu) then [log[0]] else []) + Of(log[1..], obu)
  }

  ghost predicate OneEventPerID(log: seq<Record>) {
    forall x, y :: x in log && y in log && Valid(x) && Valid(y) && x.data.eventID == y.data.eventID ==> x == y
  }

  lemma {:induction false} OfSplits(a: seq<Record>, b: seq<Record>, obu: int)
    ensures Of(a + b, obu) == Of(a, obu) + Of(b, obu)
  {
    if a == [] {
      assert a + b == b;
    } else {
      OfSplits(a[1..], b, obu);
      assert (a + b)[1..] == a[1..] + b;
      Regroup(if Mine(a[0], obu) then [a[0]] else [], Of(a[1..], obu), Of(b, obu));
    }
  }

  lemma Regroup<T>(a: seq<T>, b: seq<T>, c: seq<T>)
    ensures a + (b + c) == (a + b) + c
  {
  }

  lemma {:induction false} OfMembers(log: seq<Record>, obu: int, r: Record)
    ensures r in Of(log, obu) <==> r in log && Mine(r, obu)
  {
    if log != [] {
      OfMembers(log[1..], obu, r);
      assert r in log <==> r == log[0] || r in log[1..];
    }
  }

  /** Events of different OBUs, with different IDs, can be processed in either order. */
  lemma IndependentEventsCommute(env: Env, p: Pass, x: Record, y: Record)
    requires Valid(x) && Valid(y)
    requires x.data.obu != y.data.obu && x.data.eventID != y.data.eventID
    ensures Process(env, Process(env, p, x), y) == Process(env, Process(env, p, y), x)
  {
    var dx, dy := Calc.Calculate(env.metric, p.calculator, x.data).1, Calc.Calculate(env.metric, p.calculator, y.data).1;
    CalculationsCommute(env.metric, p.calculator, x.data, y.data);
    AggregationsCommute(env.fp, p.store, Request(x.data, dx), Request(y.data, dy));
  }

  lemma CalculationsCommute(metric: Metric, c: Calc.State, x: OBUData, y: OBUData)
    requires x.eventID != "" && y.eventID != ""
    requires x.obu != y.obu && x.eventID != y.eventID
    ensures var (cx, dx) := Calc.Calculate(metric, c, x);
            var (cy, dy) := Calc.Calculate(metric, c, y);
            && Calc.Calculate(metric, cx, y).1 == dy
            && Calc.Calculate(metric, cy, x).1 == dx
            && Calc.Calculate(metric, cx, y).0 == Calc.Calculate(metric, cy, x).0
  {
    var cx, cy := Calc.Calculate(metric, c, x).0, Calc.Calculate(metric, c, y).0;
    var xy, yx := Calc.Calculate(metric, cx, y).0, Calc.Calculate(metric, cy, x).0;
    assert xy.prev == yx.prev;
    assert xy.results == yx.results;
  }

  lemma CreditsCommute(data: map<int, Float>, x: Distance, y: Distance)
    ensures S.Credit(S.Credit(data, x.obu, x.value), y.obu, y.value)
            == S.Credit(S.Credit(data, y.obu, y.value), x.obu, x.value)
  {
  }

  lemma AggregationsCommute(fp: Fingerprint, s: S.State, x: Distance, y: Distance)
    requires x.eventID != y.eventID
    ensures S.Aggregate(fp, S.Aggregate(fp, s, x).0, y).0 == S.Aggregate(fp, S.Aggregate(fp, s, y).0, x).0
  {
    var sx, sy := S.Aggregate(fp, s, x).0, S.Aggregate(fp, s, y).0;
    var newX := S.Acceptable(x) && x.eventID !in s.processed;
    var newY := S.Acceptable(y) && y.eventID !in s.processed;
    if newX && newY {
      F.RecordCommutes(fp, s.reconcile, x.eventID, y.eventID);
      CreditsCommute(s.data, x, y);
      assert s.processed + {x.eventID} + {y.eventID} == s.processed + {y.eventID} + {x.eventID};
    } else if !newX {
      assert sx == s;
    } else {
      assert sy == s;
    }
  }

  lemma {:induction false} MoveToFront(env: Env, p: Pass, before: seq<Record>, e: Record)
    requires Valid(e)
    requires forall r :: r in before && Valid(r) ==> r.data.obu != e.data.obu && r.data.eventID != e.data.eventID
    ensures Run(env, p, before + [e]) == Run(env, Process(env, p, e), before)
  {
    assert (before + [e])[..|before|] == before;
    if before != [] {
      var n := |before| - 1;
      var front, x := before[..n], before[n];
      MoveToFront(env, p, front, e);
      assert (front + [e])[..n] == front;
      if Valid(x) {
        IndependentEventsCommute(env, Run(env, p, front), x, e);
      }
    }
  }

  lemma {:induction false} RunOfInvalid(env: Env, p: Pass, log: seq<Record>)
    requires forall r :: r in log ==> !Valid(r)
    ensures Run(env, p, log) == p
  {
    if log != [] {
      RunOfInvalid(env, p, log[..|log|-1]);
    }
  }

  lemma RunPeels(env: Env, p: Pass, log: seq<Record>)
    requires log != []
    ensures Run(env, p, log) == Run(env, Process(env, p, log[0]), log[1..])
  {
    RunSplits(env, p, [log[0]], log[1..]);
    assert [log[0]] + log[1..] == log;
    assert Run(env, p, [log[0]]) == Process(env, p, log[0]) by { assert [log[0]][..0] == []; }
  }

  /** The first record of an OBU, and what precedes it. */
  lemma {:induction false} SplitAtFirst(log: seq<Record>, obu: int) returns (before: seq<Record>, after: seq<Record>)
    requires Of(log, obu) != []
    ensures log == before + [Of(log, obu)[0]] + after
    ensures forall r :: r in before ==> !Mine(r, obu)
  {
    if Mine(log[0], obu) {
      before, after := [], log[1..];
    } else {
      var b;
      b, after := SplitAtFirst(log[1..], obu);
      before := [log[0]] + b;
    }
  }

  /**
    Any two interleavings of the log that keep each OBU's own records in order end with the same
    previous points, memo, totals, processed set and reconciliation record.
   */
  lemma {:induction false} InterleavingsAgree(env: Env, p: Pass, a: seq<Record>, b: seq<Record>)
    requires forall o :: Of(a, o) == Of(b, o)
    requires OneEventPerID(a)
    ensures Run(env, p, a) == Run(env, p, b)
    decreases |a|
  {
    if a == [] {
      NothingToRun(env, p, a, b);
    } else {
      RunPeels(env, p, a);
      assert OneEventPerID(a[1..]) by {
        assert forall x :: x in a[1..] ==> x in a;
      }
      if Valid(a[0]) {
        var rest := PullToFront(env, p, a, b);
        InterleavingsAgree(env, Process(env, p, a[0]), a[1..], rest);
      } else {
        forall o ensures Of(a[1..], o) == Of(b, o) {
          assert Of(a, o) == [] + Of(a[1..], o);
        }
        InterleavingsAgree(env, p, a[1..], b);
      }
    }
  }

  lemma NothingToRun(env: Env, p: Pass, a: seq<Record>, b: seq<Record>)
    requires a == [] && forall o :: Of(a, o) == Of(b, o)
    ensures Run(env, p, a) == Run(env, p, b)
  {
    forall r | r in b ensures !Valid(r) {
      if Valid(r) {
        assert r !in Of(a, r.data.obu);
        OfMembers(b, r.data.obu, r);
      }
    }
    RunOfInvalid(env, p, b);
  }

  /** The first event of `a` can be taken first in `b` as well. */
  lemma PullToFront(env: Env, p: Pass, a: seq<Record>, b: seq<Record>) returns (rest: seq<Record>)
    requires a != [] && Valid(a[0])
    requires forall o :: Of(a, o) == Of(b, o)
    requires OneEventPerID(a)
    ensures Run(env, p, b) == Run(env, Process(env, p, a[0]), rest)
    ensures forall o :: Of(a[1..], o) == Of(rest, o)
  {
    var e := a[0];
    assert Of(a, e.data.obu)[0] == e;
    var before, after := SplitAtFirst(b, e.data.obu);
    rest := before + after;
    assert Run(env, p, b) == Run(env, Process(env, p, e), rest) by {
      ForeignRecordsDiffer(a, b, before, e);
      MoveToFront(env, p, before, e);
      RunSplits(env, p, before + [e], after);
      RunSplits(env, Process(env, p, e), before, after);
    }
    forall o ensures Of(a[1..], o) == Of(rest, o) {
      assert b == before + [e] + after;
      RemoveFirst(a, before, after, o);
    }
  }

  lemma ForeignRecordsDiffer(a: seq<Record>, b: seq<Record>, before: seq<Record>, e: Record)
    requires forall o :: Of(a, o) == Of(b, o)
    requires OneEventPerID(a) && e in a && Valid(e)
    requires forall r :: r in before ==> r in b && !Mine(r, e.data.obu)
    ensures forall r :: r in before && Valid(r) ==> r.data.obu != e.data.obu && r.data.eventID != e.data.eventID
  {
    forall r | r in before && Valid(r) ensures r in a {
      OfMembers(b, r.data.obu, r);
      OfMembers(a, r.data.obu, r);
    }
  }

  lemma RemoveFirst(a: seq<Record>, before: seq<Record>, after: seq<Record>, o: int)
    requires a != [] && Valid(a[0])
    requires forall r :: r in before ==> !Mine(r, a[0].data.obu)
    requires Of(a, o) == Of(before + [a[0]] + after, o)
    ensures Of(a[1..], o) == Of(before + after, o)
  {
    var head := if Mine(a[0], o) then [a[0]] else [];
    OfSplits(before + [a[0]], after, o);
    OfSplits(before, [a[0]], o);
    OfSplits(before, after, o);
    assert Of([a[0]], o) == head + [];
    if Mine(a[0], o) {
      NoneOf(before, o);
    }
    DropHead(head, Of(before, o), Of(after, o), Of(a[1..], o));
  }

  lemma NoneOf(log: seq<Record>, o: int)
    requires forall r :: r in log ==> !Mine(r, o)
    ensures Of(log, o) == []
  {
    if Of(log, o) != [] {
      OfMembers(log, o, Of(log, o)[0]);
    }
  }

  lemma DropHead<T>(head: seq<T>, x: seq<T>, y: seq<T>, z: seq<T>)
    requires head + z == x + head + y && (head == [] || x == [])
    ensures z == x + y
  {
    assert (head + z)[|head|..] == z;
    assert (x + head + y)[|head|..] == x + y;
  }

  // ---------- Totals are path lengths ----------

  /** The points of an OBU, repeated event IDs removed. */
  ghost function Points(log: seq<Record>, obu: int): seq<Point> {
    if log == [] then []
    else
      var i := |log| - 1;
      Points(log[..i], obu) + if Fresh(log, i) && log[i].data.obu == obu then [log[i].data.point] else []
  }

  ghost function PathLength(metric: Metric, points: seq<Point>): real {
    if |points| < 2 then 0.0
    else
      var n := |points| - 1;
      PathLength(metric, points[..n]) + metric(points[n-1], points[n]).Amount()
  }

  /** The calculator's previous point of an OBU is the last of its path. */
  lemma {:induction false} PreviousEndsPath(env: Env, log: seq<Record>, obu: int)
    ensures var prev, points := Run(env, START, log).calculator.prev, Points(log, obu);
            && (obu in prev <==> points != [])
            && (points != [] ==> prev[obu] == points[|points|-1])
  {
    if log != [] {
      PreviousEndsPath(env, log[..|log|-1], obu);
      if Valid(log[|log|-1]) {
        FreshMeansNew(log);
        MemoKeys(env, log[..|log|-1], log[|log|-1].data.eventID);
      }
    }
  }

  ghost function AnyOf<T(!new)>(s: set<T>): (x: T)
    requires s != {}
    ensures x in s
  {
    var x :| x in s;
    x
  }

  /** The path lengths of several OBUs together. */
  ghost function Journeys(metric: Metric, log: seq<Record>, obus: set<int>): real {
    if obus == {} then 0.0
    else
      var o := AnyOf(obus);
      Journeys(metric, log, obus - {o}) + PathLength(metric, Points(log, o))
  }

  lemma {:induction false} JourneysInsert(metric: Metric, log: seq<Record>, obus: set<int>, obu: int)
    requires obu !in obus
    ensures Journeys(metric, log, obus + {obu}) == Journeys(metric, log, obus) + PathLength(metric, Points(log, obu))
    decreases |obus|
  {
    var all := obus + {obu};
    var o := AnyOf(all);
    if o == obu {
      assert all - {obu} == obus;
    } else {
      var rest := obus - {o};
      assert all - {o} == rest + {obu} && obus == rest + {o};
      JourneysInsert(metric, log, rest, obu);
      JourneysInsert(metric, log, rest, o);
    }
  }

  /** If only one OBU moved, the journeys differ by its move. */
  lemma {:induction false} JourneysMove(metric: Metric, log: seq<Record>, log': seq<Record>, obus: set<int>, obu: int)
    requires forall o :: o in obus && o != obu ==> Points(log', o) == Points(log, o)
    ensures Journeys(metric, log', obus) == Journeys(metric, log, obus)
              + if obu in obus
                then PathLength(metric, Points(log', obu)) - PathLength(metric, Points(log, obu)) else 0.0
    decreases |obus|
  {
    if obus != {} {
      var o := AnyOf(obus);
      var rest := obus - {o};
      assert obus == rest + {o};
      JourneysMove(metric, log, log', rest, obu);
      JourneysInsert(metric, log, rest, o);
      JourneysInsert(metric, log', rest, o);
    }
  }

  /** The OBUs of the log that are billed under this key. */
  ghost function Sharing(log: seq<Record>, key: int): set<int> {
    if log == [] then {}
    else
      var i := |log| - 1;
      Sharing(log[..i], key) + if Fresh(log, i) && Narrow(log[i].data.obu) == key then {log[i].data.obu} else {}
  }

  lemma {:induction false} SharersNarrow(log: seq<Record>, key: int)
    ensures forall o :: o in Sharing(log, key) ==> Narrow(o) == key
  {
    if log != [] {
      SharersNarrow(log[..|log|-1], key);
    }
  }

  lemma {:induction false} SharingGrows(log: seq<Record>, n: nat, key: int)
    requires n <= |log|
    ensures Sharing(log[..n], key) <= Sharing(log, key)
    decreases |log|
  {
    if n == |log| {
      assert log[..n] == log;
    } else {
      assert log[..|log|-1][..n] == log[..n];
      SharingGrows(log[..|log|-1], n, key);
    }
  }

  /** What has been billed under the key: the journeys of these OBUs, if any of them set out. */
  ghost predicate Bills(metric: Metric, data: map<int, Float>, log: seq<Record>, key: int, obus: set<int>) {
    && (key in data <==> Sharing(log, key) != {})
    && (key in data ==> data[key] == Finite(Journeys(metric, log, obus)))
    && (key !in data ==> Journeys(metric, log, obus) == 0.0)
  }

  /** How far a first occurrence takes its OBU. */
  lemma SegmentExtendsPath(env: Env, log: seq<Record>, obus: set<int>)
    requires log != [] && Fresh(log, |log|-1)
    ensures var n, c := |log| - 1, Run(env, START, log[..|log|-1]).calculator;
            var dist := Calc.Calculate(env.metric, c, log[n].data).1;
            Journeys(env.metric, log, obus) == Journeys(env.metric, log[..n], obus)
              + if log[n].data.obu in obus then dist.Amount() else 0.0
  {
    var n := |log| - 1;
    var front, d := log[..n], log[n].data;
    PreviousEndsPath(env, front, d.obu);
    FreshEventIsNew(env, log);
    JourneysMove(env.metric, front, log, obus, d.obu);
    assert Points(log, d.obu)[..|Points(front, d.obu)|] == Points(front, d.obu);
  }

  /** A first occurrence is billed under the key of its OBU. */
  lemma NewSegmentIsBilled(env: Env, log: seq<Record>)
    requires NonNegative(env.metric) && log != [] && Fresh(log, |log|-1) && Narrow(log[|log|-1].data.obu) > 0
    ensures var p, d := Run(env, START, log[..|log|-1]), log[|log|-1].data;
            var dist := Calc.Calculate(env.metric, p.calculator, d).1;
            && dist.Finite?
            && Run(env, START, log).store.data == S.Credit(p.store.data, Narrow(d.obu), dist)
  {
    FreshEventIsNew(env, log);
  }

  /** Crediting the step takes the bill from one journey to the next. */
  lemma CreditKeepsBills(metric: Metric, data: map<int, Float>, log: seq<Record>, key: int, obus: set<int>, dist: Float)
    requires log != [] && Fresh(log, |log|-1) && dist.Finite?
    requires (forall o :: o in obus ==> Narrow(o) == key) && Sharing(log, key) <= obus
    requires Bills(metric, data, log[..|log|-1], key, obus)
    requires Journeys(metric, log, obus) == Journeys(metric, log[..|log|-1], obus)
               + if log[|log|-1].data.obu in obus then dist.Amount() else 0.0
    ensures Bills(metric, S.Credit(data, Narrow(log[|log|-1].data.obu), dist), log, key, obus)
  {
  }

  /**
    The bill is the journey: after a pass over the log, the total kept under a key is the length of
    the paths of all the OBUs billed under it, and there is a total exactly when one of them has a point.
   */
  lemma {:induction false} BillIsJourneys(env: Env, log: seq<Record>, key: int, obus: set<int>)
    requires NonNegative(env.metric) && Passable(log, |log|)
    requires (forall o :: o in obus ==> Narrow(o) == key) && Sharing(log, key) <= obus
    ensures Bills(env.metric, Run(env, START, log).store.data, log, key, obus)
  {
    if log == [] {
      NoJourneys(env.metric, obus);
    } else {
      var n := |log| - 1;
      var front := log[..n];
      forall i | 0 <= i < n && Valid(front[i]) ensures Narrow(front[i].data.obu) > 0 {
        assert front[i] == log[i];
      }
      BillIsJourneys(env, front, key, obus);
      if Fresh(log, n) {
        SegmentExtendsPath(env, log, obus);
        NewSegmentIsBilled(env, log);
        var p := Run(env, START, front);
        CreditKeepsBills(env.metric, p.store.data, log, key, obus, Calc.Calculate(env.metric, p.calculator, log[n].data).1);
      } else {
        RepeatIsNoOp(env, log);
        JourneysMove(env.metric, front, log, obus, 0);
        assert Points(log, 0) == Points(front, 0);
      }
    }
  }

  lemma {:induction false} NoJourneys(metric: Metric, obus: set<int>)
    ensures Journeys(metric, [], obus) == 0.0
    decreases |obus|
  {
    if obus != {} {
      var o := AnyOf(obus);
      assert obus == (obus - {o}) + {o};
      NoJourneys(metric, obus - {o});
      JourneysInsert(metric, [], obus - {o}, o);
    }
  }

  /** An OBU that shares its key with no other one is billed for its own path. */
  lemma BillIsPathLength(env: Env, log: seq<Record>, obu: int)
    requires NonNegative(env.metric) && Passable(log, |log|)
    requires 1 <= obu <= MAX_INT32 && Sharing(log, obu) <= {obu}
    ensures var data, points := Run(env, START, log).store.data, Points(log, obu);
            && (obu in data <==> points != [])
            && (obu in data ==> data[obu] == Finite(PathLength(env.metric, points)))
  {
    BillIsJourneys(env, log, obu, {obu});
    JourneysInsert(env.metric, log, {}, obu);
    assert {} + {obu} == {obu};
    SharersHavePoints(log, obu);
  }

  lemma {:induction false} SharersHavePoints(log: seq<Record>, obu: int)
    ensures obu in Sharing(log, Narrow(obu)) <==> Points(log, obu) != []
  {
    if log != [] {
      SharersHavePoints(log[..|log|-1], obu);
    }
  }

  /** A fresh event is in neither the memo nor the processed set. */
  lemma FreshEventIsNew(env: Env, log: seq<Record>)
    requires log != [] && Fresh(log, |log|-1)
    ensures var p, id := Run(env, START, log[..|log|-1]), log[|log|-1].data.eventID;
            id !in p.calculator.results && id !in p.store.processed
  {
    var front, id := log[..|log|-1], log[|log|-1].data.eventID;
    FreshMeansNew(log);
    MemoKeys(env, front, id);
    if id in Run(env, START, front).store.processed {
      ProcessedWereSeen(env, front, id);
    }
  }
}
