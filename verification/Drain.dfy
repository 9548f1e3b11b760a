/** Progress of the consumer loop: offsets, iterations, and exactly which logs can be drained. */
module Drain {
  import opened Types
  import opened Pipeline
  import opened Delivery
  import opened ExactlyOnce
  import Calc = Calculator
  import R = Replays
  import S = Store

  /** Whatever happens, the committed offset never moves back. */
  lemma CommittedNeverDecreases(w: World, acts: seq<Action>, a: Action)
    requires Execute(w, acts).Some? && Execute(w, acts + [a]).Some?
    ensures Execute(w, acts).value.committed <= Execute(w, acts + [a]).value.committed
  {
    InvHolds(w, acts);
    ExecuteExtends(w, acts, a);
  }

  /** Records read, against records passed and attempts failed. */
  predicate Tallied(s: State) {
    match s.phase
    case Idle => s.consumed == s.position + s.failures
    case Failed(at) => s.consumed == at + s.failures
    case Stopped(at) => s.consumed == at + s.failures
    case _ => s.consumed == s.phase.at + 1 + s.failures
  }

  lemma StepKeepsTally(w: World, s: State, a: Action)
    requires Offsets(w, s) && Tallied(s) && Enabled(w, s, a) && !a.Crash?
    ensures Tallied(Next(w, s, a))
  {
  }

  lemma {:induction false} TallyHolds(w: World, acts: seq<Action>)
    requires Execute(w, acts).Some? && NoCrash(Execute(w, acts).value)
    ensures Tallied(Execute(w, acts).value)
  {
    if acts != [] {
      var front := acts[..|acts|-1];
      StartsGrow(w, acts);
      TallyHolds(w, front);
      InvHolds(w, front);
      StepKeepsTally(w, Execute(w, front).value, acts[|acts|-1]);
    }
  }

  /**
    Without a crash or a failed rewind, draining the log takes exactly one iteration of the loop
    per record plus one per failed attempt; and at rest the position is the committed offset or
    one behind it.
   */
  lemma IterationsToDrain(w: World, acts: seq<Action>)
    requires Execute(w, acts).Some? && NoCrash(Execute(w, acts).value)
    ensures var s := Execute(w, acts).value;
            && (s.phase.Idle? ==> s.committed == s.position || s.committed == s.position + 1)
            && (Drained(w, s) ==> s.committed == |w.log| && s.consumed == |w.log| + s.failures)
  {
    TallyHolds(w, acts);
    InvHolds(w, acts);
  }

  /** A record that the aggregator will not take is never passed while the calculator lives. */
  lemma UnacceptableRecordBlocks(w: World, acts: seq<Action>, i: nat)
    requires Execute(w, acts).Some? && NoCrash(Execute(w, acts).value)
    requires i < |w.log| && !Takes(w, i)
    ensures Execute(w, acts).value.Cursor() <= i
  {
    SyncHolds(w, acts);
  }

  // ---------- A run without failures ----------

  lemma Extend(w: World, acts: seq<Action>, s: State, a: Action) returns (acts': seq<Action>, t: State)
    requires Execute(w, acts) == Some(s) && Enabled(w, s, a)
    ensures acts' == acts + [a] && t == Next(w, s, a) && Execute(w, acts') == Some(t)
  {
    acts', t := acts + [a], Next(w, s, a);
    ExecuteExtends(w, acts, a);
  }

  /** The aggregator takes what the calculator sends for the next record, if it sends anything. */
  predicate Ready(w: World, s: State) {
    && s.phase.Idle? && s.position < |w.log|
    && (Valid(w.log[s.position]) ==>
          var d := w.log[s.position].data;
          S.Acceptable(Request(d, Calc.Calculate(w.env.metric, s.calculator, d).1)))
  }

  /** One iteration later the next record is behind, with the effect of one clean step. */
  ghost predicate Moved(w: World, s: State, t: State)
    requires s.position < |w.log|
  {
    && t.phase.Idle? && t.position == s.position + 1 && t.committed == s.position + 1
    && t.starts == s.starts && t.failures == s.failures && t.consumed == s.consumed + 1
    && Pass(t.calculator, t.store) == Process(w.env, Pass(s.calculator, s.store), w.log[s.position])
    && Keeps(s, t)
    && (forall id :: id in t.paid ==> (id in s.paid && t.paid[id] == s.paid[id]) || t.paid[id].at == s.position)
  }

  /** What has been charged stays charged, by the same call. */
  ghost predicate Keeps(s: State, t: State) {
    && s.store.processed <= t.store.processed
    && forall id :: id in s.paid && id in s.store.processed ==> id in t.paid && t.paid[id] == s.paid[id]
  }

  /** The request for the next record is sent and served, but the reply is not yet read. */
  lemma ServeNext(w: World, acts: seq<Action>, s: State) returns (acts': seq<Action>, t: State)
    requires Execute(w, acts) == Some(s) && Ready(w, s) && Valid(w.log[s.position])
    ensures Execute(w, acts') == Some(t) && t.phase == Awaiting(s.position, |s.sent|, Some(true))
    ensures t.position == s.position + 1 && t.committed == s.committed && t.starts == s.starts
    ensures t.failures == s.failures && t.consumed == s.consumed + 1
    ensures Pass(t.calculator, t.store) == Process(w.env, Pass(s.calculator, s.store), w.log[s.position])
    ensures var d := w.log[s.position].data;
            t.paid == if d.eventID in s.store.processed then s.paid
                      else s.paid[d.eventID := Call(s.position, s.Start(),
                                                    Request(d, Calc.Calculate(w.env.metric, s.calculator, d).1))]
  {
    var d := w.log[s.position].data;
    acts', t := Extend(w, acts, s, Read);
    acts', t := Extend(w, acts', t, Calculate);
    acts', t := Extend(w, acts', t, Send);
    S.AggregateFacts(w.env.fp, s.store, t.sent[|s.sent|].request);
    acts', t := Extend(w, acts', t, Deliver(|s.sent|));
  }

  /** From rest, a record the aggregator takes can be processed in one iteration. */
  lemma SucceedOnce(w: World, acts: seq<Action>, s: State) returns (acts': seq<Action>, t: State)
    requires Execute(w, acts) == Some(s) && Ready(w, s)
    ensures Execute(w, acts') == Some(t) && Moved(w, s, t)
  {
    if Valid(w.log[s.position]) {
      acts', t := ServeNext(w, acts, s);
      acts', t := Extend(w, acts', t, Answer);
    } else {
      acts', t := Extend(w, acts, s, Read);
      acts', t := Extend(w, acts', t, Discard);
    }
    acts', t := Extend(w, acts', t, Commit);
  }

  /** From rest, a calculator started at `lo` can go on to `n`, if the aggregator takes what it sends. */
  lemma {:induction false} DrainOn(w: World, acts: seq<Action>, s: State, lo: nat, n: nat)
    returns (acts': seq<Action>, t: State)
    requires Execute(w, acts) == Some(s) && s.phase.Idle? && lo <= s.position <= n <= |w.log|
    requires s.committed == s.position && forall id :: id in s.paid ==> s.paid[id].at < n
    requires s.calculator == Replay(w.env.metric, w.log, lo, s.position)
    requires forall i :: lo <= i < n && Valid(w.log[i]) ==> S.Acceptable(Order(w, lo, i))
    ensures Execute(w, acts') == Some(t)
    ensures t.phase.Idle? && t.position == n && t.committed == n && t.starts == s.starts
    ensures t.calculator == Replay(w.env.metric, w.log, lo, n) && Keeps(s, t)
    ensures forall id :: id in t.paid ==> t.paid[id].at < n
    decreases n - s.position
  {
    acts', t := acts, s;
    if s.position < n {
      acts', t := SucceedOnce(w, acts, s);
      StepAdvances(w, s, t, lo);
      acts', t := DrainOn(w, acts', t, lo, n);
    }
  }

  lemma StepAdvances(w: World, s: State, t: State, lo: nat)
    requires lo <= s.position < |w.log| && Moved(w, s, t)
    requires s.calculator == Replay(w.env.metric, w.log, lo, s.position)
    ensures t.calculator == Replay(w.env.metric, w.log, lo, t.position)
  {
  }

  /** The log can be drained without a crash if and only if the aggregator takes every record. */
  lemma DrainableIffAccepted(w: World)
    ensures (exists acts :: Execute(w, acts).Some? && NoCrash(Execute(w, acts).value) && Drained(w, Execute(w, acts).value))
            <==> TakesBelow(w, |w.log|)
  {
    if TakesBelow(w, |w.log|) {
      forall i | 0 <= i < |w.log| && Valid(w.log[i]) ensures S.Acceptable(Order(w, 0, i)) {
        assert Takes(w, i);
      }
      var acts, t := DrainOn(w, [], INIT, 0, |w.log|);
    }
    if acts :| Execute(w, acts).Some? && NoCrash(Execute(w, acts).value) && Drained(w, Execute(w, acts).value) {
      SyncHolds(w, acts);
    }
  }

  /**
    With a distance function that never fails, the aggregator takes exactly the records whose OBU
    ID is still positive after the narrowing to `int32`, wherever the calculator started.
   */
  lemma TakenIffBillable(w: World, lo: nat, i: nat)
    requires NonNegative(w.env.metric) && lo <= i < |w.log| && Valid(w.log[i])
    ensures S.Acceptable(Order(w, lo, i)) <==> Narrow(w.log[i].data.obu) > 0
  {
    MemoStaysBillable(w, lo, i);
  }

  lemma {:induction false} MemoStaysBillable(w: World, lo: nat, n: nat)
    requires NonNegative(w.env.metric) && lo <= n <= |w.log|
    ensures MemoIsBillable(Replay(w.env.metric, w.log, lo, n))
  {
    if n != lo {
      MemoStaysBillable(w, lo, n - 1);
    }
  }

  /** With a restart before every record, each distance sent is zero, whatever the distance function. */
  lemma {:induction false} DrainByRestarts(w: World, n: nat) returns (acts: seq<Action>)
    requires n <= |w.log| && Passable(w.log, n)
    ensures Execute(w, acts).Some?
    ensures var s := Execute(w, acts).value; s.phase.Idle? && s.position == n && s.committed == n
  {
    if n == 0 {
      acts := [];
    } else {
      acts := DrainByRestarts(w, n - 1);
      var s := Execute(w, acts).value;
      acts, s := Extend(w, acts, s, Crash(false));
      acts, s := SucceedOnce(w, acts, s);
    }
  }

  /**
    Some run drains the log, restarts allowed, if and only if every valid record is billable. Restarts
    are no way around a record that is not; but they are one around a distance that is refused.
   */
  lemma DrainableIffPassable(w: World)
    ensures (exists acts :: Execute(w, acts).Some? && Drained(w, Execute(w, acts).value)) <==> Passable(w.log, |w.log|)
  {
    if Passable(w.log, |w.log|) {
      var acts := DrainByRestarts(w, |w.log|);
    }
    if acts :| Execute(w, acts).Some? && Drained(w, Execute(w, acts).value) {
      forall i | 0 <= i < |w.log| && Valid(w.log[i]) ensures Narrow(w.log[i].data.obu) > 0 {
        if Narrow(w.log[i].data.obu) <= 0 {
          UnbillableRecordBlocks(w, acts, i);
        }
      }
    }
  }

  /** A log that no run drains: its only record narrows to a negative OBU ID. */
  lemma BlockedLog(env: Env, p: Point, acts: seq<Action>)
    ensures var w := World([Event(OBUData("x", 1, 0x8000_0000, p))], env);
            Execute(w, acts).Some? ==>
              !Drained(w, Execute(w, acts).value) && Execute(w, acts).value.committed == 0
  {
    var w := World([Event(OBUData("x", 1, 0x8000_0000, p))], env);
    if Execute(w, acts).Some? {
      UnbillableRecordBlocks(w, acts, 0);
    }
  }

  /** So a drained log always means what its first occurrences mean. */
  lemma DrainedMeansFirsts(w: World, acts: seq<Action>)
    requires NonNegative(w.env.metric) && Execute(w, acts).Some?
    requires NoCrash(Execute(w, acts).value) && Drained(w, Execute(w, acts).value)
    ensures var s := Execute(w, acts).value;
            Pass(s.calculator, s.store) == Run(w.env, START, Firsts(w.log))
  {
    DrainableIffPassable(w);
    DrainedIsWholePass(w, acts);
    R.DeduplicationPreservesMeaning(w.env, w.log);
  }
}
