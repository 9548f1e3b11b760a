/** What every interleaving of the load generator keeps, and where it ends. */
module LoadRuns {
  import opened Types
  import opened Words
  import opened Routing
  import opened LoadGenerator
  import F = Fingerprints
  import I = EventIdentity
  import S = Store

  // ---------- Order on each connection ----------

  function Held(worker: Worker): seq<Event> {
    if worker.Ready? || worker.Exited? then [] else [worker.e]
  }

  /** The events of a connection from the first recorded to the last queued. */
  function Trail(conn: Conn): seq<Event> {
    conn.done + Held(conn.worker) + conn.queue
  }

  /** The event belongs on connection `c`, and its sequence number is registered to it. */
  predicate Belongs(cfg: Config, c: nat, e: Event, bound: nat, owners: seq<nat>) {
    && 1 <= e.sequence <= bound && e.sequence <= |owners| && owners[e.sequence-1] == c && Routed(cfg, e.obu, c)
    && (cfg.mode == Fixed ==> InRotation(cfg, e))
  }

  /** Sequence numbers and OBUs go round together: 1 is for OBU 1, `obus` for the last one, `obus` + 1 for OBU 1 again. */
  predicate InRotation(cfg: Config, e: Event) {
    1 <= e.obu <= cfg.obus && (e.sequence - e.obu) % cfg.obus == 0
  }

  ghost predicate Orderly(cfg: Config, c: nat, trail: seq<Event>, bound: nat, owners: seq<nat>) {
    && (forall i, j :: 0 <= i < j < |trail| ==> trail[i].sequence < trail[j].sequence)
    && (forall i :: 0 <= i < |trail| ==> Belongs(cfg, c, trail[i], bound, owners))
  }

  lemma OrderlyGrows(cfg: Config, c: nat, trail: seq<Event>, bound: nat, owners: seq<nat>, bound': nat, owners': seq<nat>)
    requires Orderly(cfg, c, trail, bound, owners) && bound <= bound' && owners <= owners'
    ensures Orderly(cfg, c, trail, bound', owners')
  {
  }

  lemma OrderlyAppends(cfg: Config, c: nat, trail: seq<Event>, bound: nat, owners: seq<nat>, e: Event)
    requires Orderly(cfg, c, trail, bound, owners) && bound < e.sequence && Belongs(cfg, c, e, e.sequence, owners)
    ensures Orderly(cfg, c, trail + [e], e.sequence, owners)
  {
  }

  lemma OrderlyDrops(cfg: Config, c: nat, a: seq<Event>, e: Event, b: seq<Event>, bound: nat, owners: seq<nat>)
    requires Orderly(cfg, c, a + [e] + b, bound, owners)
    ensures Orderly(cfg, c, a + b, bound, owners)
  {
    var all, rest := a + [e] + b, a + b;
    assert forall i :: 0 <= i < |rest| ==> rest[i] == all[if i < |a| then i else i + 1];
  }

  // ---------- The invariant ----------

  /** Sequence numbers up to here are in the connections' trails or lost. */
  function Bound(s: State): nat {
    if (s.scheduler.Holding? || s.scheduler.Offering?) && s.sequence >= 1 then s.sequence - 1 else s.sequence
  }

  predicate SchedulerFacts(cfg: Config, s: State) {
    && cfg.obus >= 1 && cfg.conns >= 1 && |s.conns| == cfg.conns
    && |s.owners| == s.sequence
    && (cfg.mode == Max ==> s.scheduler.Closed?)
    && (s.scheduler.Holding? || s.scheduler.Offering? ==>
          var e := s.scheduler.e;
          && s.sequence >= 1 && e.sequence == s.sequence && e.obu >= 1
          && Belongs(cfg, Connection(e.obu, cfg.conns), e, s.sequence, s.owners))
  }

  /** A lost compare-and-swap is paid for by a successful one of another worker. */
  predicate SwapFacts(conn: Conn, stamps: nat, xor: set<nat>) {
    && |conn.done| <= stamps
    && conn.misses <= Others(stamps, conn)
    && (conn.worker.Loaded? ==>
          && conn.misses <= conn.worker.seen <= Others(stamps, conn)
          && (conn.worker.seen == Others(stamps, conn) ==> conn.worker.held == xor))
  }

  /** The queue is bounded, and a worker has left only for a reason. */
  predicate ExitFacts(cfg: Config, conn: Conn, closed: bool, cancelled: bool) {
    && |conn.queue| <= QUEUE_CAPACITY
    && (cfg.mode == Max ==> conn.queue == [])
    && (conn.worker.Failing? ==> conn.broke)
    && (conn.worker.Exited? ==>
          || cancelled || conn.broke
          || (if cfg.mode == Fixed then closed && conn.queue == [] else conn.obus == []))
  }

  ghost predicate Assigned(cfg: Config, c: nat, obus: seq<nat>) {
    forall o :: o in obus ==> Routed(cfg, o, c)
  }

  ghost predicate ConnFacts(cfg: Config, s: State, c: nat)
    requires c < |s.conns|
  {
    var conn := s.conns[c];
    && Orderly(cfg, c, Trail(conn), Bound(s), s.owners)
    && SwapFacts(conn, s.stamps, s.xor)
    && ExitFacts(cfg, conn, s.scheduler.Closed?, s.cancelled)
    && Assigned(cfg, c, conn.obus)
  }

  ghost predicate Inv(cfg: Config, s: State) {
    && SchedulerFacts(cfg, s)
    && forall c :: 0 <= c < |s.conns| ==> ConnFacts(cfg, s, c)
  }

  lemma TrailAfter(cfg: Config, s: State, op: Op, conn: Conn)
    requires Ripe(cfg, s, op, conn) && !op.Mint? && !op.AddFailed?
    ensures Trail(After(cfg, s, op, conn)) == Trail(conn)
  {
  }

  lemma SwapAfter(cfg: Config, s: State, op: Op, conn: Conn)
    requires Ripe(cfg, s, op, conn) && SwapFacts(conn, s.stamps, s.xor)
    ensures var won := Wins(s, op, conn);
            SwapFacts(After(cfg, s, op, conn),
                      if won then s.stamps + 1 else s.stamps,
                      if won then Xor(conn.worker.held, Bits(cfg.Hash(conn.worker.e))) else s.xor)
  {
  }

  lemma ExitAfter(cfg: Config, s: State, op: Op, conn: Conn)
    requires Ripe(cfg, s, op, conn) && ExitFacts(cfg, conn, s.scheduler.Closed?, s.cancelled)
    ensures ExitFacts(cfg, After(cfg, s, op, conn), s.scheduler.Closed?, s.cancelled)
  {
  }

  lemma OrderAfter(cfg: Config, s: State, c: nat, op: Op)
    requires SchedulerFacts(cfg, s) && c < |s.conns| && ConnFacts(cfg, s, c) && Ripe(cfg, s, op, s.conns[c])
    ensures var t := Next(cfg, s, Do(c, op)); Orderly(cfg, c, Trail(t.conns[c]), Bound(t), t.owners)
  {
    var t, conn := Next(cfg, s, Do(c, op)), s.conns[c];
    var conn' := After(cfg, s, op, conn);
    if op.Mint? {
      var e := conn'.worker.e;
      OrderlyGrows(cfg, c, Trail(conn), Bound(s), s.owners, Bound(s), t.owners);
      assert Trail(conn') == Trail(conn) + [e];
      OrderlyAppends(cfg, c, Trail(conn), Bound(s), t.owners, e);
    } else if op.AddFailed? {
      OrderlyDrops(cfg, c, conn.done, conn.worker.e, conn.queue, Bound(s), s.owners);
      assert Trail(conn') == conn.done + conn.queue;
    } else {
      TrailAfter(cfg, s, op, conn);
    }
  }

  /** A connection that took no part in the step. */
  lemma Bystander(cfg: Config, s: State, t: State, c: nat)
    requires c < |s.conns| == |t.conns| && t.conns[c] == s.conns[c] && ConnFacts(cfg, s, c)
    requires Bound(s) <= Bound(t) && s.owners <= t.owners
    requires s.stamps < t.stamps || (s.stamps == t.stamps && s.xor == t.xor)
    requires (s.scheduler.Closed? ==> t.scheduler.Closed?) && (s.cancelled ==> t.cancelled)
    ensures ConnFacts(cfg, t, c)
  {
  }

  lemma WorkKeepsInv(cfg: Config, s: State, c: nat, op: Op)
    requires Inv(cfg, s) && Enabled(cfg, s, Do(c, op))
    ensures Inv(cfg, Next(cfg, s, Do(c, op)))
  {
    var t := Next(cfg, s, Do(c, op));
    assert ConnFacts(cfg, s, c);
    OrderAfter(cfg, s, c, op);
    SwapAfter(cfg, s, op, s.conns[c]);
    ExitAfter(cfg, s, op, s.conns[c]);
    forall d | 0 <= d < |t.conns| ensures ConnFacts(cfg, t, d) {
      if d != c {
        Bystander(cfg, s, t, d);
      }
    }
  }

  lemma OfferKeepsInv(cfg: Config, s: State)
    requires Inv(cfg, s) && Enabled(cfg, s, Offer)
    ensures Inv(cfg, Next(cfg, s, Offer))
  {
    var t, e := Next(cfg, s, Offer), s.scheduler.e;
    var c := Connection(e.obu, cfg.conns);
    forall d | 0 <= d < |t.conns| ensures ConnFacts(cfg, t, d) {
      assert ConnFacts(cfg, s, d);
      if d != c || t.conns == s.conns {
        Bystander(cfg, s, t, d);
      } else {
        OrderlyAppends(cfg, c, Trail(s.conns[c]), Bound(s), s.owners, e);
        assert Trail(t.conns[c]) == Trail(s.conns[c]) + [e];
      }
    }
  }

  lemma TickKeepsInv(cfg: Config, s: State)
    requires Inv(cfg, s) && Enabled(cfg, s, Tick)
    ensures Inv(cfg, Next(cfg, s, Tick))
  {
    var t := Next(cfg, s, Tick);
    RoundRobinRotates(s.sequence + 1, cfg.obus);
    forall d | 0 <= d < |t.conns| ensures ConnFacts(cfg, t, d) {
      assert ConnFacts(cfg, s, d);
      Bystander(cfg, s, t, d);
    }
  }

  lemma StepKeepsInv(cfg: Config, s: State, a: Action)
    requires Inv(cfg, s) && Enabled(cfg, s, a)
    ensures Inv(cfg, Next(cfg, s, a))
  {
    var t := Next(cfg, s, a);
    match a
    case Do(c, op) => WorkKeepsInv(cfg, s, c, op);
    case Offer => OfferKeepsInv(cfg, s);
    case Tick => TickKeepsInv(cfg, s);
    case _ =>
      forall d | 0 <= d < |t.conns| ensures ConnFacts(cfg, t, d) {
        assert ConnFacts(cfg, s, d);
        Bystander(cfg, s, t, d);
      }
  }

  lemma {:induction false} InvHolds(cfg: Config, s: State, acts: seq<Action>)
    requires Init(cfg, s) && Execute(cfg, s, acts).Some?
    ensures var t := Execute(cfg, s, acts).value; Inv(cfg, t) && Counts(t) && Hashes(cfg, t)
  {
    if acts == [] {
      NothingYet(cfg, s);
      forall c | 0 <= c < |s.conns| ensures ConnFacts(cfg, s, c) {
        assert Started(cfg, c, s.conns[c]);
      }
    } else {
      var front, a := acts[..|acts|-1], acts[|acts|-1];
      InvHolds(cfg, s, front);
      var t := Execute(cfg, s, front).value;
      StepKeepsInv(cfg, t, a);
      StepKeepsCounts(cfg, t, a);
      StepKeepsHashes(cfg, t, a);
    }
  }

  // ---------- Conservation ----------

  ghost predicate AllExited(s: State) {
    s.scheduler.Closed? && forall c :: 0 <= c < |s.conns| ==> s.conns[c].worker.Exited?
  }

  function Queued(conns: seq<Conn>): seq<int> {
    seq(|conns|, i requires 0 <= i < |conns| => |conns[i].queue|)
  }

  /**
    After the writers have stopped, every attempted event was written, failed, or is still in a
    queue, of which each holds at most 1024; and none is left behind if no write failed and the
    context was not cancelled. In max mode nothing is ever left behind.
   */
  lemma Conservation(cfg: Config, s: State, acts: seq<Action>)
    requires Init(cfg, s) && Execute(cfg, s, acts).Some? && AllExited(Execute(cfg, s, acts).value)
    ensures var t := Execute(cfg, s, acts).value;
            && t.attempted == t.written + t.failed + Total(Queued(t.conns))
            && (forall c :: 0 <= c < |t.conns| ==> |t.conns[c].queue| <= QUEUE_CAPACITY)
            && (cfg.mode == Max || (!t.cancelled && forall c :: 0 <= c < |t.conns| ==> !t.conns[c].broke)
                ==> t.attempted == t.written + t.failed)
  {
    InvHolds(cfg, s, acts);
    QueuesAtTheEnd(cfg, Execute(cfg, s, acts).value);
  }

  lemma QueuesAtTheEnd(cfg: Config, t: State)
    requires Inv(cfg, t) && Counts(t) && AllExited(t)
    ensures t.attempted == t.written + t.failed + Total(Queued(t.conns))
    ensures forall c :: 0 <= c < |t.conns| ==> |t.conns[c].queue| <= QUEUE_CAPACITY
    ensures cfg.mode == Max || (!t.cancelled && forall c :: 0 <= c < |t.conns| ==> !t.conns[c].broke)
            ==> Total(Queued(t.conns)) == 0
  {
    assert PendingAll(t.conns) == Queued(t.conns);
    forall c | 0 <= c < |t.conns|
      ensures |t.conns[c].queue| <= QUEUE_CAPACITY
      ensures cfg.mode == Max || (!t.cancelled && !t.conns[c].broke) ==> t.conns[c].queue == []
    {
      assert ConnFacts(cfg, t, c);
    }
    if cfg.mode == Max || (!t.cancelled && forall c :: 0 <= c < |t.conns| ==> !t.conns[c].broke) {
      TotalOfZeros(Queued(t.conns));
    }
  }

  // ---------- The compare-and-swap loop ----------

  function Misses(conns: seq<Conn>): seq<int> {
    seq(|conns|, i requires 0 <= i < |conns| => conns[i].misses)
  }

  lemma {:induction false} MissesAddUp(misses: seq<int>, won: seq<int>, stamps: nat)
    requires |misses| == |won| && forall c :: 0 <= c < |misses| ==> misses[c] + won[c] <= stamps
    ensures Total(misses) + Total(won) <= |misses| * stamps
  {
    if misses != [] {
      var n := |misses| - 1;
      MissesAddUp(misses[..n], won[..n], stamps);
      Distributes(n, 1, stamps);
    }
  }

  /**
    Lock-freedom, for every interleaving: a worker loses its compare-and-swap at most once for each
    success of another worker, so all workers together lose at most (workers - 1) per success.
   */
  lemma SwapsAreLockFree(cfg: Config, s: State, acts: seq<Action>)
    requires Init(cfg, s) && Execute(cfg, s, acts).Some?
    ensures var t := Execute(cfg, s, acts).value;
            && (forall c :: 0 <= c < |t.conns| ==> t.conns[c].misses + |t.conns[c].done| <= t.stamps)
            && Total(Misses(t.conns)) <= (|t.conns| - 1) * t.stamps
  {
    InvHolds(cfg, s, acts);
    var t := Execute(cfg, s, acts).value;
    forall c | 0 <= c < |t.conns| ensures t.conns[c].misses + |t.conns[c].done| <= t.stamps {
      assert ConnFacts(cfg, t, c);
    }
    MissesAddUp(Misses(t.conns), StampedAll(t.conns), t.stamps);
    Distributes(|t.conns|, -1, t.stamps);
  }

  // ---------- The final record ----------

  /** No write is being recorded. */
  ghost predicate Quiescent(s: State) {
    forall c :: 0 <= c < |s.conns| ==>
      !s.conns[c].worker.Counted? && !s.conns[c].worker.Summed? && !s.conns[c].worker.Loaded?
  }

  /** All recorded events, connection by connection. */
  function Recordings(conns: seq<Conn>): seq<Event> {
    if conns == [] then [] else Recordings(conns[..|conns|-1]) + conns[|conns|-1].done
  }

  lemma {:induction false} RecordedJoins(cfg: Config, a: seq<Event>, b: seq<Event>)
    ensures Recorded(cfg, a + b).sum == Sum(Recorded(cfg, a).sum, Recorded(cfg, b).sum)
    ensures Recorded(cfg, a + b).xor == Xor(Recorded(cfg, a).xor, Recorded(cfg, b).xor)
    decreases |b|
  {
    if b == [] {
      assert a + b == a;
      assert IDs(cfg, b) == [];
    } else {
      var n := |b| - 1;
      var front, e := b[..n], b[n];
      assert a + b == (a + front) + [e] && b == front + [e];
      RecordedJoins(cfg, a, front);
      RecordedExtends(cfg, a + front, e);
      RecordedExtends(cfg, front, e);
      SumAssociates(Recorded(cfg, a).sum, Recorded(cfg, front).sum, cfg.Hash(e));
      XorAssociates(Recorded(cfg, a).xor, Recorded(cfg, front).xor, Bits(cfg.Hash(e)));
    }
  }

  lemma {:induction false} SharesAreRecordings(cfg: Config, conns: seq<Conn>)
    requires forall c :: 0 <= c < |conns| ==> !conns[c].worker.Counted? && !conns[c].worker.Summed? && !conns[c].worker.Loaded?
    ensures SumTotal(SumShares(cfg, conns)) == Recorded(cfg, Recordings(conns)).sum
    ensures XorTotal(XorShares(cfg, conns)) == Recorded(cfg, Recordings(conns)).xor
    ensures Total(SuccessesAll(conns)) == |Recordings(conns)|
  {
    if conns == [] {
      assert IDs(cfg, Recordings(conns)) == [];
    } else {
      var n := |conns| - 1;
      var front := conns[..n];
      SharesAreRecordings(cfg, front);
      assert SumShares(cfg, conns)[..n] == SumShares(cfg, front);
      assert XorShares(cfg, conns)[..n] == XorShares(cfg, front);
      assert SuccessesAll(conns)[..n] == SuccessesAll(front);
      RecordedJoins(cfg, Recordings(front), conns[n].done);
    }
  }

  lemma {:induction false} RecordingsComeFrom(conns: seq<Conn>, i: nat) returns (c: nat, k: nat)
    requires i < |Recordings(conns)|
    ensures c < |conns| && k < |conns[c].done| && Recordings(conns)[i] == conns[c].done[k]
    ensures i == |Recordings(conns[..c])| + k
  {
    var n := |conns| - 1;
    var front := conns[..n];
    if i < |Recordings(front)| {
      c, k := RecordingsComeFrom(front, i);
      assert front[..c] == conns[..c];
    } else {
      c, k := n, i - |Recordings(front)|;
    }
  }

  /** Sequence numbers never repeat among the recorded events. */
  lemma RecordingsAreDistinct(cfg: Config, s: State, i: nat, j: nat)
    requires Inv(cfg, s) && i < j < |Recordings(s.conns)|
    ensures Recordings(s.conns)[i].sequence != Recordings(s.conns)[j].sequence
  {
    var c, k := RecordingsComeFrom(s.conns, i);
    var d, m := RecordingsComeFrom(s.conns, j);
    assert ConnFacts(cfg, s, c) && ConnFacts(cfg, s, d);
    assert Trail(s.conns[c])[k] == s.conns[c].done[k] && Trail(s.conns[d])[m] == s.conns[d].done[m];
    assert Belongs(cfg, c, Trail(s.conns[c])[k], Bound(s), s.owners);
    assert Belongs(cfg, d, Trail(s.conns[d])[m], Bound(s), s.owners);
  }

  /**
    The summary is exact: whenever no recording is under way, the written count, the XOR and the
    sum are the digest of the set of IDs written, all of them different.
   */
  lemma SummaryIsDigest(cfg: Config, s: State, acts: seq<Action>)
    requires Init(cfg, s) && Execute(cfg, s, acts).Some? && Quiescent(Execute(cfg, s, acts).value)
    ensures var t := Execute(cfg, s, acts).value;
            var ids := IDs(cfg, Recordings(t.conns));
            && F.Distinct(ids) && t.written == |ids|
            && Reconciliation(Counter(t.written), t.xor, t.sum) == F.Digest(cfg.fp, F.Elements(ids))
  {
    InvHolds(cfg, s, acts);
    var t := Execute(cfg, s, acts).value;
    var events := Recordings(t.conns);
    var ids := IDs(cfg, events);
    SharesAreRecordings(cfg, t.conns);
    forall i, j | 0 <= i < j < |ids| ensures ids[i] != ids[j] {
      RecordingsAreDistinct(cfg, t, i, j);
      I.EventIDsAreInjective(cfg.seed, cfg.runID, events[i].sequence, cfg.seed, cfg.runID, events[j].sequence);
    }
    F.FoldIsDigest(cfg.fp, ids);
    F.DigestCount(cfg.fp, F.Elements(ids));
  }

  /**
    What the summary says: the sum and the XOR of the fingerprints of the recorded events, the sum modulo
    2^64 and the XOR bit by bit.
   */
  lemma SummaryMeaning(cfg: Config, s: State, acts: seq<Action>)
    requires Init(cfg, s) && Execute(cfg, s, acts).Some? && Quiescent(Execute(cfg, s, acts).value)
    ensures var t := Execute(cfg, s, acts).value;
            var ids := IDs(cfg, Recordings(t.conns));
            && t.sum == F.PlainSum(cfg.fp, ids) % 0x1_0000_0000_0000_0000
            && forall k :: k in t.xor <==> F.Carrying(cfg.fp, ids, k) % 2 == 1
  {
    SummaryIsDigest(cfg, s, acts);
    var t := Execute(cfg, s, acts).value;
    var ids := IDs(cfg, Recordings(t.conns));
    F.FoldIsDigest(cfg.fp, ids);
    F.FoldMeaning(cfg.fp, ids);
    assert forall k :: F.HasBit(F.Fold(cfg.fp, ids), k) <==> k in t.xor;
  }

  /** The generator's summary equals the aggregator's record if the same events were applied. */
  lemma SummaryMatchesAggregator(cfg: Config, s: State, acts: seq<Action>, calls: seq<Distance>)
    requires Init(cfg, s) && Execute(cfg, s, acts).Some? && Quiescent(Execute(cfg, s, acts).value)
    requires S.EventIDs(calls) == F.Elements(IDs(cfg, Recordings(Execute(cfg, s, acts).value.conns)))
    ensures var t := Execute(cfg, s, acts).value;
            S.Serve(cfg.fp, calls).reconcile == Reconciliation(Counter(t.written), t.xor, t.sum)
  {
    SummaryIsDigest(cfg, s, acts);
    S.StoreInvariant(cfg.fp, calls);
  }

  /** Each OBU stays on one connection, and its recorded events carry increasing sequence numbers. */
  lemma OrderPerOBU(cfg: Config, s: State, acts: seq<Action>, c: nat, k: nat, d: nat, m: nat)
    requires Init(cfg, s) && Execute(cfg, s, acts).Some?
    requires var t := Execute(cfg, s, acts).value;
             && c < |t.conns| && k < |t.conns[c].done| && d < |t.conns| && m < |t.conns[d].done|
             && t.conns[c].done[k].obu == t.conns[d].done[m].obu
    ensures var t := Execute(cfg, s, acts).value;
            c == d && (k < m <==> t.conns[c].done[k].sequence < t.conns[d].done[m].sequence)
  {
    InvHolds(cfg, s, acts);
    OrderOnConnections(cfg, Execute(cfg, s, acts).value, c, k, d, m);
  }

  lemma OrderOnConnections(cfg: Config, t: State, c: nat, k: nat, d: nat, m: nat)
    requires Inv(cfg, t) && c < |t.conns| && k < |t.conns[c].done| && d < |t.conns| && m < |t.conns[d].done|
    requires t.conns[c].done[k].obu == t.conns[d].done[m].obu
    ensures c == d && (k < m <==> t.conns[c].done[k].sequence < t.conns[d].done[m].sequence)
  {
    assert ConnFacts(cfg, t, c) && ConnFacts(cfg, t, d);
    var x, y := Trail(t.conns[c]), Trail(t.conns[d]);
    assert x[k] == t.conns[c].done[k] && y[m] == t.conns[d].done[m];
    assert Belongs(cfg, c, x[k], Bound(t), t.owners);
    assert Belongs(cfg, d, y[m], Bound(t), t.owners);
  }

  // ---------- Which OBU an event is for ----------

  /** The scheduler's event, those in the queues, those being worked on and those recorded. */
  ghost predicate Present(s: State, e: Event) {
    || ((s.scheduler.Holding? || s.scheduler.Offering?) && s.scheduler.e == e)
    || exists c :: 0 <= c < |s.conns| && (e in s.conns[c].queue || e in Held(s.conns[c].worker) || e in s.conns[c].done)
  }

  /** In every fixed-mode run, every event is for the OBU whose turn it is. */
  lemma EventsRotate(cfg: Config, s: State, acts: seq<Action>, e: Event)
    requires Init(cfg, s) && cfg.mode == Fixed && Execute(cfg, s, acts).Some?
    requires Present(Execute(cfg, s, acts).value, e)
    ensures 1 <= e.obu <= cfg.obus && (e.sequence - e.obu) % cfg.obus == 0
  {
    hide *;
    InvHolds(cfg, s, acts);
    PresentInRotation(cfg, Execute(cfg, s, acts).value, e);
  }

  lemma PresentInRotation(cfg: Config, t: State, e: Event)
    requires Inv(cfg, t) && cfg.mode == Fixed && Present(t, e)
    ensures 1 <= e.obu <= cfg.obus && (e.sequence - e.obu) % cfg.obus == 0
  {
    if c :| 0 <= c < |t.conns| && (e in t.conns[c].queue || e in Held(t.conns[c].worker) || e in t.conns[c].done) {
      assert ConnFacts(cfg, t, c);
      OrderlyMember(cfg, c, Trail(t.conns[c]), Bound(t), t.owners, e);
    }
  }

  lemma OrderlyMember(cfg: Config, c: nat, trail: seq<Event>, bound: nat, owners: seq<nat>, e: Event)
    requires Orderly(cfg, c, trail, bound, owners) && e in trail
    ensures Belongs(cfg, c, e, bound, owners)
  {
  }

  /** How many ticks of the scheduler produced an event for this OBU. */
  ghost function TicksFor(cfg: Config, s: State, acts: seq<Action>, obu: nat): nat {
    if acts == [] then 0
    else
      var t := Execute(cfg, s, acts);
      TicksFor(cfg, s, acts[..|acts|-1], obu)
      + if acts[|acts|-1] == Tick && t.Some? && t.value.scheduler.Holding? && t.value.scheduler.e.obu == obu then 1 else 0
  }

  /** After `n` ticks: an equal share for every OBU, and one more for the first ones. */
  function Share(n: nat, obus: nat, obu: nat): nat
    requires obus >= 1
  {
    n / obus + if obu <= n % obus then 1 else 0
  }

  /** Each tick takes the next sequence number, and nothing else does. */
  lemma TickStep(cfg: Config, s: State, a: Action, obu: nat)
    requires Inv(cfg, s) && cfg.mode == Fixed && Enabled(cfg, s, a) && 1 <= obu <= cfg.obus
    ensures var t := Next(cfg, s, a);
            Share(t.sequence, cfg.obus, obu)
            == Share(s.sequence, cfg.obus, obu)
               + if a == Tick && t.scheduler.Holding? && t.scheduler.e.obu == obu then 1 else 0
  {
    var t := Next(cfg, s, a);
    if a == Tick {
      var e := t.scheduler.e;
      StepKeepsInv(cfg, s, a);
      assert Belongs(cfg, Connection(e.obu, cfg.conns), e, t.sequence, t.owners);
      NextTurn(s.sequence, cfg.obus, e.obu, obu);
    }
  }

  /**
    In every fixed-mode run the scheduler is fair: after `n` ticks each OBU has had n / obus of them, and the
    first n % obus OBUs one more. So any two counts differ by at most one.
   */
  lemma {:induction false} TicksAreFair(cfg: Config, s: State, acts: seq<Action>, obu: nat)
    requires Init(cfg, s) && cfg.mode == Fixed && Execute(cfg, s, acts).Some? && 1 <= obu <= cfg.obus
    ensures var n := Execute(cfg, s, acts).value.sequence;
            TicksFor(cfg, s, acts, obu) == n / cfg.obus + if obu <= n % cfg.obus then 1 else 0
  {
    hide Inv;
    hide Counts;
    hide Hashes;
    hide Next;
    hide Enabled;
    if acts == [] {
      DivisionIsUnique(0, 0, 0, cfg.obus);
    } else {
      var front, a := acts[..|acts|-1], acts[|acts|-1];
      TicksAreFair(cfg, s, front, obu);
      InvHolds(cfg, s, front);
      TickStep(cfg, Execute(cfg, s, front).value, a, obu);
    }
  }

  /** The OBU of the next event is the one after the last that got one more. */
  lemma NextTurn(n: nat, obus: nat, obu: nat, o: nat)
    requires 1 <= obu <= obus && (n + 1 - obu) % obus == 0 && 1 <= o <= obus
    ensures Share(n + 1, obus, o) == Share(n, obus, o) + if o == obu then 1 else 0
  {
    NextQuotient(n, obus);
    var q := (n + 1 - obu) / obus;
    assert n == q * obus + (obu - 1);
    DivisionIsUniqueForInts(n, q, obu - 1, obus);
  }
}
