/** What the failure count means, how max mode goes round, and that the load generator can always be stopped. */
module LoadStops {
  import opened Types
  import opened Words
  import opened Routing
  import opened LoadGenerator
  import opened LoadRuns
  import I = EventIdentity

  /** An event ID names the seed, the run and the sequence number, in this order. */
  lemma IDReadsBack(cfg: Config, e: Event)
    ensures I.Decode(cfg.ID(e)) == Some((cfg.seed, cfg.runID, e.sequence as int))
  {
    I.DecodeReadsBack(cfg.seed, cfg.runID, e.sequence);
  }

  // ---------- What is counted as failed ----------

  /** The action is a worker's failed write, or an offer to a full queue. */
  ghost predicate IsFailure(cfg: Config, s: State, a: Action) {
    || (a.Do? && a.op == AddFailed)
    || (a == Offer && s.scheduler.Offering? && cfg.conns >= 1 && s.scheduler.e.obu >= 1
        && var c := (s.scheduler.e.obu - 1) % cfg.conns; c < |s.conns| && |s.conns[c].queue| >= 1024)
  }

  ghost function Failures(cfg: Config, s: State, acts: seq<Action>): nat {
    if acts == [] then 0
    else
      var before := Execute(cfg, s, acts[..|acts|-1]);
      Failures(cfg, s, acts[..|acts|-1])
      + if before.Some? && IsFailure(cfg, before.value, acts[|acts|-1]) then 1 else 0
  }

  lemma StepFails(cfg: Config, s: State, a: Action)
    requires Enabled(cfg, s, a)
    ensures Next(cfg, s, a).failed == s.failed + if IsFailure(cfg, s, a) then 1 else 0
  {
  }

  /** In every run, the failures counted are the failed writes and the events offered to a full queue. */
  lemma {:induction false} FailedMeans(cfg: Config, s: State, acts: seq<Action>)
    requires Execute(cfg, s, acts).Some?
    ensures Execute(cfg, s, acts).value.failed == s.failed + Failures(cfg, s, acts)
  {
    hide Next;
    hide Enabled;
    hide IsFailure;
    if acts != [] {
      FailedMeans(cfg, s, acts[..|acts|-1]);
      StepFails(cfg, Execute(cfg, s, acts[..|acts|-1]).value, acts[|acts|-1]);
    }
  }

  // ---------- Max mode goes round ----------

  /** The position of the `j`th element, counted round a circle of `n`. */
  function Turn(j: nat, n: nat): (turn: nat)
    requires n > 0
    ensures turn < n
  {
    j % n
  }

  lemma TurnAdvances(j: nat, n: nat)
    requires n > 0
    ensures (Turn(j, n) + 1) % n == Turn(j + 1, n)
  {
    NextQuotient(j, n);
  }

  ghost predicate InRounds(obus: seq<nat>, events: seq<Event>) {
    obus != [] ==> forall j :: 0 <= j < |events| ==> events[j].obu == obus[Turn(j, |obus|)]
  }

  predicate OnTurn(obus: seq<nat>, n: nat, turn: nat) {
    obus != [] ==> turn == Turn(n, |obus|)
  }

  /** The events of a connection go round its OBUs, and the next one is for the OBU whose turn it is. */
  ghost predicate GoesRound(conn: Conn) {
    InRounds(conn.obus, Trail(conn)) && (!conn.worker.Exited? ==> OnTurn(conn.obus, |Trail(conn)|, conn.turn))
  }

  lemma NextInRound(obus: seq<nat>, events: seq<Event>, turn: nat, e: Event)
    requires obus != [] && InRounds(obus, events) && OnTurn(obus, |events|, turn) && e.obu == obus[turn]
    ensures InRounds(obus, events + [e]) && OnTurn(obus, |events| + 1, (turn + 1) % |obus|)
  {
    hide Turn;
    TurnAdvances(|events|, |obus|);
    forall j | 0 <= j < |events| + 1 ensures (events + [e])[j].obu == obus[Turn(j, |obus|)] {
      if j < |events| {
        assert events[j].obu == obus[Turn(j, |obus|)];
      }
    }
  }

  lemma FirstInRound(obus: seq<nat>, events: seq<Event>, e: Event)
    requires InRounds(obus, events + [e])
    ensures InRounds(obus, events)
  {
    hide Turn;
    forall j | obus != [] && 0 <= j < |events| ensures events[j].obu == obus[Turn(j, |obus|)] {
      assert (events + [e])[j] == events[j];
    }
  }

  lemma MintGoesRound(cfg: Config, s: State, conn: Conn)
    requires cfg.mode == Max && Ripe(cfg, s, Mint, conn) && GoesRound(conn) && conn.queue == []
    ensures GoesRound(After(cfg, s, Mint, conn))
  {
    var next := After(cfg, s, Mint, conn);
    NextInRound(conn.obus, Trail(conn), conn.turn, next.worker.e);
    assert Trail(next) == Trail(conn) + [next.worker.e];
  }

  lemma FailureGoesRound(cfg: Config, s: State, conn: Conn)
    requires Ripe(cfg, s, AddFailed, conn) && GoesRound(conn) && conn.queue == []
    ensures GoesRound(After(cfg, s, AddFailed, conn))
  {
    var next := After(cfg, s, AddFailed, conn);
    assert Trail(conn) == Trail(next) + [conn.worker.e];
    FirstInRound(conn.obus, Trail(next), conn.worker.e);
  }

  lemma WorkGoesRound(cfg: Config, s: State, op: Op, conn: Conn)
    requires cfg.mode == Max && Ripe(cfg, s, op, conn) && GoesRound(conn) && conn.queue == []
    ensures GoesRound(After(cfg, s, op, conn)) && After(cfg, s, op, conn).obus == conn.obus
  {
    if op.Mint? {
      MintGoesRound(cfg, s, conn);
    } else if op.AddFailed? {
      FailureGoesRound(cfg, s, conn);
    } else {
      TrailAfter(cfg, s, op, conn);
    }
  }

  ghost predicate AllGoRound(s: State) {
    forall c :: 0 <= c < |s.conns| ==> GoesRound(s.conns[c])
  }

  lemma StepGoesRound(cfg: Config, s: State, a: Action)
    requires Inv(cfg, s) && cfg.mode == Max && Enabled(cfg, s, a) && AllGoRound(s)
    ensures var t := Next(cfg, s, a);
            && AllGoRound(t) && |t.conns| == |s.conns|
            && forall c :: 0 <= c < |s.conns| ==> t.conns[c].obus == s.conns[c].obus
  {
    if a.Do? {
      assert ConnFacts(cfg, s, a.c);
      WorkGoesRound(cfg, s, a.op, s.conns[a.c]);
    }
  }

  lemma StartGoesRound(cfg: Config, s: State)
    requires Init(cfg, s)
    ensures AllGoRound(s)
  {
    forall c | 0 <= c < |s.conns| ensures GoesRound(s.conns[c]) {
      assert Started(cfg, c, s.conns[c]);
    }
  }

  lemma {:induction false} RoundsHold(cfg: Config, s: State, acts: seq<Action>)
    requires Init(cfg, s) && cfg.mode == Max && Execute(cfg, s, acts).Some?
    ensures var t := Execute(cfg, s, acts).value;
            && AllGoRound(t) && |t.conns| == |s.conns|
            && forall c :: 0 <= c < |s.conns| ==> t.conns[c].obus == s.conns[c].obus
  {
    hide Next;
    hide Enabled;
    hide Inv;
    hide Counts;
    hide Hashes;
    hide AllGoRound;
    if acts == [] {
      StartGoesRound(cfg, s);
    } else {
      var front := acts[..|acts|-1];
      RoundsHold(cfg, s, front);
      InvHolds(cfg, s, front);
      StepGoesRound(cfg, Execute(cfg, s, front).value, acts[|acts|-1]);
    }
  }

  /** In every max-mode run the k-th event recorded by a connection is for the k-th of its OBUs, counted round. */
  lemma MaxModeGoesRound(cfg: Config, s: State, acts: seq<Action>, c: nat, k: nat)
    requires Init(cfg, s) && cfg.mode == Max && Execute(cfg, s, acts).Some?
    requires c < |s.conns| && s.conns[c].obus != []
    ensures var t := Execute(cfg, s, acts).value;
            c < |t.conns| && (k < |t.conns[c].done| ==>
                               t.conns[c].done[k].obu == s.conns[c].obus[k % |s.conns[c].obus|])
  {
    RoundsHold(cfg, s, acts);
    var t := Execute(cfg, s, acts).value;
    assert GoesRound(t.conns[c]);
    if k < |t.conns[c].done| {
      assert Trail(t.conns[c])[k] == t.conns[c].done[k];
    }
  }

  // ---------- Stopping ----------

  /** Once a max-mode run is cancelled, no further event is minted. */
  lemma NothingMintedAfterCancel(cfg: Config, s: State, acts: seq<Action>, a: Action)
    requires Init(cfg, s) && cfg.mode == Max && Execute(cfg, s, acts + [a]).Some?
    requires Execute(cfg, s, acts).Some? && Execute(cfg, s, acts).value.cancelled
    ensures var t, u := Execute(cfg, s, acts).value, Execute(cfg, s, acts + [a]).value;
            u.cancelled && u.sequence == t.sequence
  {
    InvHolds(cfg, s, acts);
    assert (acts + [a])[..|acts|] == acts;
  }

  lemma Extend(cfg: Config, s: State, acts: seq<Action>, t: State, a: Action) returns (acts': seq<Action>, u: State)
    requires Execute(cfg, s, acts) == Some(t) && Enabled(cfg, t, a)
    ensures acts' == acts + [a] && u == Next(cfg, t, a) && Execute(cfg, s, acts') == Some(u)
  {
    acts', u := acts + [a], Next(cfg, t, a);
    assert acts'[..|acts|] == acts;
  }

  /** Steps that a worker still needs if it runs alone: a stale value costs one lost compare-and-swap. */
  function Rank(s: State, w: Worker): nat {
    match w
    case Exited => 0
    case Ready => 1
    case Failing(_) => 1
    case Loaded(_, held, _) => if held == s.xor then 2 else 4
    case Summed(_) => 3
    case Counted(_) => 4
    case Written(_) => 5
    case Writing(_) => 6
    case Minted(_) => 7
  }

  /** What the worker does next. */
  function NextOp(w: Worker): Op {
    match w
    case Minted(_) => CountOwn
    case Writing(_) => WriteOk
    case Failing(_) => AddFailed
    case Written(_) => AddWritten
    case Counted(_) => AddSum
    case Summed(_) => Load
    case Loaded(_, _, _) => Swap
    case _ => Leave
  }

  lemma StepLowersRank(cfg: Config, s: State, c: nat)
    requires c < |s.conns| && s.cancelled && !s.conns[c].worker.Exited?
    ensures Enabled(cfg, s, Do(c, NextOp(s.conns[c].worker)))
    ensures var t := Next(cfg, s, Do(c, NextOp(s.conns[c].worker)));
            && Rank(t, t.conns[c].worker) < Rank(s, s.conns[c].worker)
            && t.cancelled && t.scheduler == s.scheduler && |t.conns| == |s.conns|
            && forall d :: 0 <= d < |s.conns| && d != c ==> t.conns[d] == s.conns[d]
  {
  }

  /** A worker that runs alone comes to its end, whatever the others have left in the shared words. */
  lemma {:induction false} FinishWorker(cfg: Config, s: State, acts: seq<Action>, t: State, c: nat)
    returns (acts': seq<Action>, u: State)
    requires Execute(cfg, s, acts) == Some(t) && c < |t.conns| && t.cancelled
    ensures Execute(cfg, s, acts') == Some(u) && u.cancelled && u.scheduler == t.scheduler
    ensures |u.conns| == |t.conns| && u.conns[c].worker.Exited?
    ensures forall d :: 0 <= d < |t.conns| && d != c ==> u.conns[d] == t.conns[d]
    decreases Rank(t, t.conns[c].worker)
  {
    acts', u := acts, t;
    if !t.conns[c].worker.Exited? {
      StepLowersRank(cfg, t, c);
      acts', u := Extend(cfg, s, acts, t, Do(c, NextOp(t.conns[c].worker)));
      acts', u := FinishWorker(cfg, s, acts', u, c);
    }
  }

  lemma {:induction false} FinishWorkers(cfg: Config, s: State, acts: seq<Action>, t: State, n: nat)
    returns (acts': seq<Action>, u: State)
    requires Execute(cfg, s, acts) == Some(t) && n <= |t.conns| && t.cancelled
    ensures Execute(cfg, s, acts') == Some(u) && u.scheduler == t.scheduler && u.cancelled && |u.conns| == |t.conns|
    ensures forall c :: 0 <= c < n ==> u.conns[c].worker.Exited?
  {
    acts', u := acts, t;
    if n > 0 {
      acts', u := FinishWorkers(cfg, s, acts, t, n - 1);
      acts', u := FinishWorker(cfg, s, acts', u, n - 1);
    }
  }

  lemma CloseScheduler(cfg: Config, s: State, acts: seq<Action>, t: State)
    returns (acts': seq<Action>, u: State)
    requires Execute(cfg, s, acts) == Some(t) && t.cancelled && SchedulerFacts(cfg, t)
    ensures Execute(cfg, s, acts') == Some(u) && u.cancelled && u.scheduler.Closed? && |u.conns| == |t.conns|
  {
    acts', u := acts, t;
    if u.scheduler.Holding? {
      acts', u := Extend(cfg, s, acts', u, Count);
    }
    if u.scheduler.Offering? {
      acts', u := Extend(cfg, s, acts', u, Offer);
    }
    if u.scheduler.Ticking? {
      acts', u := Extend(cfg, s, acts', u, Close);
    }
  }

  /** After any run the generator can be stopped: cancelling lets the scheduler and all workers come to their end. */
  lemma CanBeStopped(cfg: Config, s: State, acts: seq<Action>) returns (acts': seq<Action>)
    requires Init(cfg, s) && Execute(cfg, s, acts).Some?
    ensures Execute(cfg, s, acts').Some? && AllExited(Execute(cfg, s, acts').value)
  {
    InvHolds(cfg, s, acts);
    var t := Execute(cfg, s, acts).value;
    acts', t := Extend(cfg, s, acts, t, Cancel);
    acts', t := CloseScheduler(cfg, s, acts', t);
    acts', t := FinishWorkers(cfg, s, acts', t, |t.conns|);
  }
}
