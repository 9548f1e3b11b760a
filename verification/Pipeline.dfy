/**
  What the pipeline is for: one pass over the Kafka log, calculating and aggregating each record
  once and in order. The delivery protocol is later proved to have this effect.
 */
module Pipeline {
  import opened Types
  import Calc = Calculator
  import S = Store

  /** A Kafka record: unreadable JSON, or an event. */
  datatype Record = Garbled | Event(data: OBUData)

  /** The calculator's distance function and the aggregator's fingerprint. */
  datatype Env = Env(metric: Metric, fp: Fingerprint)

  datatype Pass = Pass(calculator: Calc.State, store: S.State)

  const START := Pass(Calc.EMPTY, S.EMPTY)

  /** Records that fail this test are discarded and committed. */
  predicate Valid(r: Record) {
    r.Event? && r.data.eventID != "" && r.data.producedAt > 0 && r.data.obu > 0
  }

  /** The request sent for an event: the OBU ID passes through `int32`. */
  function Request(d: OBUData, dist: Float): Distance {
    Distance(d.eventID, d.producedAt, dist, Narrow(d.obu))
  }

  function Advance(metric: Metric, c: Calc.State, r: Record): Calc.State {
    if Valid(r) then Calc.Calculate(metric, c, r.data).0 else c
  }

  function Process(env: Env, p: Pass, r: Record): Pass {
    if !Valid(r) then p else
      var (c, dist) := Calc.Calculate(env.metric, p.calculator, r.data);
      Pass(c, S.Aggregate(env.fp, p.store, Request(r.data, dist)).0)
  }

  /** A calculator that started cold at offset `lo` and has read up to `hi`. */
  function Replay(metric: Metric, log: seq<Record>, lo: nat, hi: nat): Calc.State
    requires lo <= hi <= |log|
  {
    if lo == hi then Calc.EMPTY else Advance(metric, Replay(metric, log, lo, hi - 1), log[hi-1])
  }

  /** One pass over `log` from the state `p`. */
  function Run(env: Env, p: Pass, log: seq<Record>): Pass {
    if log == [] then p else Process(env, Run(env, p, log[..|log|-1]), log[|log|-1])
  }

  lemma RunExtends(env: Env, p: Pass, log: seq<Record>, n: nat)
    requires n < |log|
    ensures Run(env, p, log[..n+1]) == Process(env, Run(env, p, log[..n]), log[n])
  {
    assert log[..n+1][..n] == log[..n];
  }

  lemma {:induction false} RunSplits(env: Env, p: Pass, a: seq<Record>, b: seq<Record>)
    ensures Run(env, p, a + b) == Run(env, Run(env, p, a), b)
    decreases |b|
  {
    if b == [] {
      assert a + b == a;
    } else {
      RunSplits(env, p, a, b[..|b|-1]);
      assert (a + b)[..|a + b|-1] == a + b[..|b|-1];
    }
  }

  /** Every valid record below `n` names a billable OBU; the consumer cannot get past one that does not. */
  ghost predicate Passable(log: seq<Record>, n: nat)
    requires n <= |log|
  {
    forall i :: 0 <= i < n && Valid(log[i]) ==> Narrow(log[i].data.obu) > 0
  }

  // ---------- Repeated event IDs ----------

  /** Record `i` is the first valid one since `lo` that carries its event ID. */
  ghost predicate FreshSince(log: seq<Record>, lo: nat, i: nat)
    requires i < |log|
  {
    && lo <= i && Valid(log[i])
    && forall j :: lo <= j < i && Valid(log[j]) ==> log[j].data.eventID != log[i].data.eventID
  }

  /** Record `i` is the first valid one that carries its event ID. */
  ghost predicate Fresh(log: seq<Record>, i: nat)
    requires i < |log|
  {
    FreshSince(log, 0, i)
  }

  /** The log without invalid records and without repetitions. */
  ghost function Firsts(log: seq<Record>): seq<Record> {
    if log == [] then []
    else
      var i := |log| - 1;
      Firsts(log[..i]) + if Fresh(log, i) then [log[i]] else []
  }

  ghost predicate HasID(log: seq<Record>, id: string) {
    exists i :: 0 <= i < |log| && Valid(log[i]) && log[i].data.eventID == id
  }

  lemma HasIDExtends(log: seq<Record>, id: string)
    requires log != []
    ensures var i := |log| - 1;
            HasID(log, id) <==> HasID(log[..i], id) || (Valid(log[i]) && log[i].data.eventID == id)
  {
  }

  lemma FreshMeansNew(log: seq<Record>)
    requires log != []
    ensures var i := |log| - 1;
            Valid(log[i]) ==> (Fresh(log, i) <==> !HasID(log[..i], log[i].data.eventID))
  {
  }

  /** The memo remembers exactly the event IDs seen. */
  lemma {:induction false} MemoKeys(env: Env, log: seq<Record>, id: string)
    ensures id in Run(env, START, log).calculator.results <==> HasID(log, id)
  {
    if log != [] {
      MemoKeys(env, log[..|log|-1], id);
      HasIDExtends(log, id);
    }
  }

  /** An event ID is processed only after a valid event carried it. */
  lemma {:induction false} ProcessedWereSeen(env: Env, log: seq<Record>, id: string)
    requires id in Run(env, START, log).store.processed
    ensures HasID(log, id)
  {
    if log != [] {
      var front := log[..|log|-1];
      HasIDExtends(log, id);
      if id in Run(env, START, front).store.processed {
        ProcessedWereSeen(env, front, id);
      }
    }
  }

  /** No repetition names a billable OBU when the first event of that ID does not. */
  ghost predicate RepeatsStayBillable(log: seq<Record>) {
    forall i, j :: 0 <= i < j < |log| && Fresh(log, i) && Valid(log[j])
                   && log[i].data.eventID == log[j].data.eventID && Narrow(log[j].data.obu) > 0
                   ==> Narrow(log[i].data.obu) > 0
  }

  /** Some valid event with a billable OBU carried this ID. */
  ghost predicate Billable(log: seq<Record>, id: string) {
    exists i :: 0 <= i < |log| && Valid(log[i]) && log[i].data.eventID == id && Narrow(log[i].data.obu) > 0
  }

  lemma BillableExtends(log: seq<Record>, id: string)
    requires log != []
    ensures var i := |log| - 1;
            Billable(log, id) <==>
            Billable(log[..i], id) || (Valid(log[i]) && log[i].data.eventID == id && Narrow(log[i].data.obu) > 0)
  {
  }

  ghost predicate MemoIsBillable(c: Calc.State) {
    forall id :: id in c.results ==> c.results[id].Finite? && c.results[id].value >= 0.0
  }

  /** With a distance function that never fails, exactly the billable IDs are processed. */
  lemma {:induction false} ProcessedAreBillable(env: Env, log: seq<Record>)
    requires NonNegative(env.metric)
    ensures MemoIsBillable(Run(env, START, log).calculator)
    ensures forall id :: id in Run(env, START, log).store.processed <==> Billable(log, id)
  {
    if log != [] {
      ProcessedAreBillable(env, log[..|log|-1]);
      forall id
        ensures id in Run(env, START, log).store.processed <==> Billable(log, id)
      {
        BillableExtends(log, id);
      }
    }
  }
}
