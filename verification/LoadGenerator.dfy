/**
  The load generator (`obu/main.go`) as interleaved atomic steps: one scheduler with a bounded
  queue per connection in fixed mode, or free-running workers in max mode, all sharing atomic
  counters and a compare-and-swap loop for the XOR fingerprint.
 */
module LoadGenerator {
  import opened Types
  import opened Words
  import opened Routing
  import F = Fingerprints
  import I = EventIdentity

  const QUEUE_CAPACITY := 1024

  datatype Mode = Fixed | Max

  datatype Config = Config(mode: Mode, obus: nat, conns: nat, seed: int, runID: int, fp: Fingerprint)
  {
    function ID(e: Event): string {
      I.EventID(seed, runID, e.sequence)
    }

    function Hash(e: Event): Word {
      fp(ID(e))
    }
  }

  datatype Event = Event(sequence: nat, obu: nat)

  /** What the goroutine of a connection is about to do. */
  datatype Worker =
    | Ready
    | Minted(e: Event)                             // max mode: count the attempt
    | Writing(e: Event)                            // write to the socket
    | Failing(e: Event)                            // failed.Add, then return
    | Written(e: Event)                            // recordSuccess: written.Add
    | Counted(e: Event)                            // hashSum.Add
    | Summed(e: Event)                             // hashXOR.Load
    | Loaded(e: Event, held: set<nat>, seen: nat)   // hashXOR.CompareAndSwap
    | Exited

  datatype Scheduler = Ticking | Holding(e: Event) | Offering(e: Event) | Closed

  datatype Conn = Conn(
    obus: seq<nat>,        // max mode: the OBUs assigned to this connection
    turn: nat,
    queue: seq<Event>,
    worker: Worker,
    // history: events recorded, lost compare-and-swaps, whether a write failed
    done: seq<Event>,
    misses: nat,
    broke: bool)

  datatype State = State(
    attempted: nat, written: nat, failed: nat, sequence: nat,
    xor: set<nat>, sum: Word,
    scheduler: Scheduler,
    conns: seq<Conn>,
    cancelled: bool,
    // history: the connection of each sequence number, and successful compare-and-swaps
    owners: seq<nat>,
    stamps: nat)

  datatype Action = Tick | Count | Offer | Close | Cancel | Do(c: nat, op: Op)

  datatype Op =
    | Receive | Mint | CountOwn
    | WriteOk | WriteError | AddFailed
    | AddWritten | AddSum | Load | Swap
    | Leave

  predicate Routed(cfg: Config, obu: nat, c: nat) {
    1 <= obu <= cfg.obus && cfg.conns >= 1 && Connection(obu, cfg.conns) == c
  }

  ghost predicate Init(cfg: Config, s: State) {
    && cfg.obus >= 1 && cfg.conns >= 1
    && |s.conns| == cfg.conns
    && s == State(0, 0, 0, 0, {}, 0, if cfg.mode == Fixed then Ticking else Closed, s.conns, s.cancelled, [], 0)
    && forall c :: 0 <= c < |s.conns| ==> Started(cfg, c, s.conns[c])
  }

  ghost predicate Started(cfg: Config, c: nat, conn: Conn) {
    && conn == Conn(conn.obus, 0, [], if cfg.mode == Max && conn.obus == [] then Exited else Ready, [], 0, false)
    && forall o :: o in conn.obus ==> Routed(cfg, o, c)
  }

  predicate Enabled(cfg: Config, s: State, a: Action) {
    match a
    case Tick => s.scheduler.Ticking? && cfg.obus >= 1 && cfg.conns >= 1
    case Count => s.scheduler.Holding?
    case Offer => s.scheduler.Offering? && s.scheduler.e.obu >= 1 && cfg.conns >= 1
                  && Connection(s.scheduler.e.obu, cfg.conns) < |s.conns|
    case Close => s.scheduler.Ticking?
    case Cancel => true
    case Do(c, op) => c < |s.conns| && Ripe(cfg, s, op, s.conns[c])
  }

  predicate Ripe(cfg: Config, s: State, op: Op, conn: Conn) {
    match op
    case Receive => conn.worker.Ready? && conn.queue != []
    case Mint => cfg.mode == Max && conn.worker.Ready? && !s.cancelled && conn.turn < |conn.obus|
    case CountOwn => conn.worker.Minted?
    case WriteOk => conn.worker.Writing?
    case WriteError => conn.worker.Writing?
    case AddFailed => conn.worker.Failing?
    case AddWritten => conn.worker.Written?
    case AddSum => conn.worker.Counted?
    case Load => conn.worker.Summed?
    case Swap => conn.worker.Loaded?
    case Leave => conn.worker.Ready? && (s.cancelled || (cfg.mode == Fixed && s.scheduler.Closed? && conn.queue == []))
  }

  function Next(cfg: Config, s: State, a: Action): State
    requires Enabled(cfg, s, a)
  {
    match a
    case Tick =>
      var e := Event(s.sequence + 1, RoundRobin(s.sequence + 1, cfg.obus));
      s.(sequence := s.sequence + 1, scheduler := Holding(e), owners := s.owners + [Connection(e.obu, cfg.conns)])
    case Count => s.(attempted := s.attempted + 1, scheduler := Offering(s.scheduler.e))
    case Offer =>
      var e := s.scheduler.e;
      var c := Connection(e.obu, cfg.conns);
      var t := s.(scheduler := Ticking);
      if |s.conns[c].queue| < QUEUE_CAPACITY
      then t.(conns := s.conns[c := s.conns[c].(queue := s.conns[c].queue + [e])])
      else t.(failed := s.failed + 1)
    case Close => s.(scheduler := Closed)
    case Cancel => s.(cancelled := true)
    case Do(c, op) => Work(cfg, s, c, op, s.conns[c])
  }

  /** The compare-and-swap that is about to happen will succeed. */
  predicate Wins(s: State, op: Op, conn: Conn) {
    op.Swap? && conn.worker.Loaded? && conn.worker.held == s.xor
  }

  /** A step of one worker: its own connection changes, and at most one of the shared words. */
  function Work(cfg: Config, s: State, c: nat, op: Op, conn: Conn): State
    requires c < |s.conns| && Ripe(cfg, s, op, conn)
  {
    s.(conns := s.conns[c := After(cfg, s, op, conn)],
       sequence := if op.Mint? then s.sequence + 1 else s.sequence,
       owners := if op.Mint? then s.owners + [c] else s.owners,
       attempted := if op.CountOwn? then s.attempted + 1 else s.attempted,
       failed := if op.AddFailed? then s.failed + 1 else s.failed,
       written := if op.AddWritten? then s.written + 1 else s.written,
       sum := if op.AddSum? then Sum(s.sum, cfg.Hash(conn.worker.e)) else s.sum,
       xor := if Wins(s, op, conn) then Xor(conn.worker.held, Bits(cfg.Hash(conn.worker.e))) else s.xor,
       stamps := if Wins(s, op, conn) then s.stamps + 1 else s.stamps)
  }

  function After(cfg: Config, s: State, op: Op, conn: Conn): Conn
    requires Ripe(cfg, s, op, conn)
  {
    match op
    case Receive => conn.(queue := conn.queue[1..], worker := Writing(conn.queue[0]))
    case Mint => conn.(worker := Minted(Event(s.sequence + 1, conn.obus[conn.turn])),
                       turn := (conn.turn + 1) % |conn.obus|)
    case CountOwn => conn.(worker := Writing(conn.worker.e))
    case WriteOk => conn.(worker := Written(conn.worker.e))
    case WriteError => conn.(worker := Failing(conn.worker.e), broke := true)
    case AddFailed => conn.(worker := Exited)
    case AddWritten => conn.(worker := Counted(conn.worker.e))
    case AddSum => conn.(worker := Summed(conn.worker.e))
    case Load => conn.(worker := Loaded(conn.worker.e, s.xor, Others(s.stamps, conn)))
    case Swap =>
      if conn.worker.held == s.xor
      then conn.(worker := Ready, done := conn.done + [conn.worker.e])
      else conn.(worker := Summed(conn.worker.e), misses := conn.misses + 1)
    case Leave => conn.(worker := Exited)
  }

  /** Successful compare-and-swaps of the other workers. */
  function Others(stamps: nat, conn: Conn): nat {
    if stamps >= |conn.done| then stamps - |conn.done| else 0
  }

  function Execute(cfg: Config, s: State, acts: seq<Action>): Option<State> {
    if acts == [] then Some(s)
    else
      var before := Execute(cfg, s, acts[..|acts|-1]);
      if before.Some? && Enabled(cfg, before.value, acts[|acts|-1])
      then Some(Next(cfg, before.value, acts[|acts|-1])) else None
  }

  // ---------- Accounting ----------

  function IDs(cfg: Config, events: seq<Event>): seq<string> {
    seq(|events|, i requires 0 <= i < |events| => cfg.ID(events[i]))
  }

  function Recorded(cfg: Config, events: seq<Event>): Reconciliation {
    F.Fold(cfg.fp, IDs(cfg, events))
  }

  lemma RecordedExtends(cfg: Config, events: seq<Event>, e: Event)
    ensures Recorded(cfg, events + [e]) == F.Record(cfg.fp, Recorded(cfg, events), cfg.ID(e))
  {
    assert IDs(cfg, events + [e]) == IDs(cfg, events) + [cfg.ID(e)];
    assert IDs(cfg, events + [e])[..|events|] == IDs(cfg, events);
  }

  // What a connection contributes to each shared counter.

  /** Queued or being written: attempted, but neither written nor failed yet. */
  function Pending(conn: Conn): int {
    |conn.queue| + if conn.worker.Writing? || conn.worker.Written? || conn.worker.Failing? then 1 else 0
  }

  function Successes(conn: Conn): int {
    |conn.done| + if conn.worker.Counted? || conn.worker.Summed? || conn.worker.Loaded? then 1 else 0
  }

  function Stamped(conn: Conn): int {
    |conn.done|
  }

  function SumShare(cfg: Config, conn: Conn): Word {
    var sum := Recorded(cfg, conn.done).sum;
    if conn.worker.Summed? || conn.worker.Loaded? then Sum(sum, cfg.Hash(conn.worker.e)) else sum
  }

  function XorShare(cfg: Config, conn: Conn): set<nat> {
    Recorded(cfg, conn.done).xor
  }

  function PendingAll(conns: seq<Conn>): seq<int> {
    seq(|conns|, i requires 0 <= i < |conns| => Pending(conns[i]))
  }

  function SuccessesAll(conns: seq<Conn>): seq<int> {
    seq(|conns|, i requires 0 <= i < |conns| => Successes(conns[i]))
  }

  function StampedAll(conns: seq<Conn>): seq<int> {
    seq(|conns|, i requires 0 <= i < |conns| => Stamped(conns[i]))
  }

  function SumShares(cfg: Config, conns: seq<Conn>): seq<Word> {
    seq(|conns|, i requires 0 <= i < |conns| => SumShare(cfg, conns[i]))
  }

  function XorShares(cfg: Config, conns: seq<Conn>): seq<set<nat>> {
    seq(|conns|, i requires 0 <= i < |conns| => XorShare(cfg, conns[i]))
  }

  /** The attempt counters agree with the connections: nothing attempted is unaccounted for. */
  predicate Counts(s: State) {
    && s.attempted == s.written + s.failed + (if s.scheduler.Offering? then 1 else 0) + Total(PendingAll(s.conns))
    && s.written == Total(SuccessesAll(s.conns))
    && s.stamps == Total(StampedAll(s.conns))
  }

  /** The hash counters agree with the connections: each success is in once, and entirely. */
  predicate Hashes(cfg: Config, s: State) {
    s.sum == SumTotal(SumShares(cfg, s.conns)) && s.xor == XorTotal(XorShares(cfg, s.conns))
  }

  lemma CountsMove(s: State, t: State, c: nat, conn: Conn)
    requires Counts(s) && c < |s.conns| && t.conns == s.conns[c := conn]
    requires t.attempted - t.written - t.failed - (if t.scheduler.Offering? then 1 else 0) - Pending(conn)
             == s.attempted - s.written - s.failed - (if s.scheduler.Offering? then 1 else 0) - Pending(s.conns[c])
    requires t.written - Successes(conn) == s.written - Successes(s.conns[c])
    requires t.stamps - Stamped(conn) == s.stamps - Stamped(s.conns[c])
    ensures Counts(t)
  {
    assert PendingAll(t.conns) == PendingAll(s.conns)[c := Pending(conn)];
    assert SuccessesAll(t.conns) == SuccessesAll(s.conns)[c := Successes(conn)];
    assert StampedAll(t.conns) == StampedAll(s.conns)[c := Stamped(conn)];
    TotalMoves(PendingAll(s.conns), c, Pending(conn));
    TotalMoves(SuccessesAll(s.conns), c, Successes(conn));
    TotalMoves(StampedAll(s.conns), c, Stamped(conn));
  }

  lemma StepKeepsCounts(cfg: Config, s: State, a: Action)
    requires Counts(s) && Enabled(cfg, s, a)
    ensures Counts(Next(cfg, s, a))
  {
    var t := Next(cfg, s, a);
    match a
    case Do(c, op) => WorkKeepsCounts(cfg, s, c, op);
    case Offer => OfferKeepsCounts(cfg, s);
    case _ =>
  }

  lemma WorkKeepsCounts(cfg: Config, s: State, c: nat, op: Op)
    requires Counts(s) && Enabled(cfg, s, Do(c, op))
    ensures Counts(Next(cfg, s, Do(c, op)))
  {
    CountsMove(s, Next(cfg, s, Do(c, op)), c, After(cfg, s, op, s.conns[c]));
  }

  lemma OfferKeepsCounts(cfg: Config, s: State)
    requires Counts(s) && Enabled(cfg, s, Offer)
    ensures Counts(Next(cfg, s, Offer))
  {
    var t, c := Next(cfg, s, Offer), Connection(s.scheduler.e.obu, cfg.conns);
    CountsMove(s, t, c, t.conns[c]);
  }

  lemma HashesStay(cfg: Config, s: State, t: State, c: nat, conn: Conn)
    requires Hashes(cfg, s) && c < |s.conns| && t.conns == s.conns[c := conn] && t.sum == s.sum && t.xor == s.xor
    requires SumShare(cfg, conn) == SumShare(cfg, s.conns[c]) && XorShare(cfg, conn) == XorShare(cfg, s.conns[c])
    ensures Hashes(cfg, t)
  {
    assert SumShares(cfg, t.conns) == SumShares(cfg, s.conns);
    assert XorShares(cfg, t.conns) == XorShares(cfg, s.conns);
  }

  lemma AddSumKeepsHashes(cfg: Config, s: State, c: nat)
    requires Hashes(cfg, s) && Enabled(cfg, s, Do(c, AddSum))
    ensures Hashes(cfg, Next(cfg, s, Do(c, AddSum)))
  {
    var t, conn := Next(cfg, s, Do(c, AddSum)), After(cfg, s, AddSum, s.conns[c]);
    assert SumShares(cfg, t.conns) == SumShares(cfg, s.conns)[c := SumShare(cfg, conn)];
    assert XorShares(cfg, t.conns) == XorShares(cfg, s.conns);
    SumMoves(SumShares(cfg, s.conns), c, cfg.Hash(s.conns[c].worker.e));
  }

  /** A successful compare-and-swap applies exactly its own fingerprint, ABA or not. */
  lemma SwapKeepsHashes(cfg: Config, s: State, c: nat)
    requires Hashes(cfg, s) && Enabled(cfg, s, Do(c, Swap)) && Wins(s, Swap, s.conns[c])
    ensures Hashes(cfg, Next(cfg, s, Do(c, Swap)))
  {
    var t, conn := Next(cfg, s, Do(c, Swap)), After(cfg, s, Swap, s.conns[c]);
    RecordedExtends(cfg, s.conns[c].done, s.conns[c].worker.e);
    assert SumShares(cfg, t.conns) == SumShares(cfg, s.conns);
    assert XorShares(cfg, t.conns) == XorShares(cfg, s.conns)[c := XorShare(cfg, conn)];
    XorMoves(XorShares(cfg, s.conns), c, Bits(cfg.Hash(s.conns[c].worker.e)));
  }

  lemma StepKeepsHashes(cfg: Config, s: State, a: Action)
    requires Hashes(cfg, s) && Enabled(cfg, s, a)
    ensures Hashes(cfg, Next(cfg, s, a))
  {
    var t := Next(cfg, s, a);
    match a
    case Do(c, op) =>
      if op.AddSum? {
        AddSumKeepsHashes(cfg, s, c);
      } else if Wins(s, op, s.conns[c]) {
        SwapKeepsHashes(cfg, s, c);
      } else {
        OtherWorkKeepsHashes(cfg, s, c, op);
      }
    case Offer => OfferKeepsHashes(cfg, s);
    case _ =>
  }

  lemma OtherWorkKeepsHashes(cfg: Config, s: State, c: nat, op: Op)
    requires Hashes(cfg, s) && Enabled(cfg, s, Do(c, op)) && !op.AddSum? && !Wins(s, op, s.conns[c])
    ensures Hashes(cfg, Next(cfg, s, Do(c, op)))
  {
    HashesStay(cfg, s, Next(cfg, s, Do(c, op)), c, After(cfg, s, op, s.conns[c]));
  }

  lemma OfferKeepsHashes(cfg: Config, s: State)
    requires Hashes(cfg, s) && Enabled(cfg, s, Offer)
    ensures Hashes(cfg, Next(cfg, s, Offer))
  {
    var t, c := Next(cfg, s, Offer), Connection(s.scheduler.e.obu, cfg.conns);
    HashesStay(cfg, s, t, c, t.conns[c]);
  }

  /** A fresh generator has counted nothing. */
  lemma NothingYet(cfg: Config, s: State)
    requires Init(cfg, s)
    ensures Counts(s) && Hashes(cfg, s)
  {
    var n := |s.conns|;
    forall c | 0 <= c < n
      ensures Pending(s.conns[c]) == 0 && Successes(s.conns[c]) == 0 && Stamped(s.conns[c]) == 0
      ensures SumShare(cfg, s.conns[c]) == 0 && XorShare(cfg, s.conns[c]) == {}
    {
      assert Started(cfg, c, s.conns[c]);
      assert IDs(cfg, s.conns[c].done) == [];
    }
    TotalOfZeros(PendingAll(s.conns));
    TotalOfZeros(SuccessesAll(s.conns));
    TotalOfZeros(StampedAll(s.conns));
    SumOfZeros(SumShares(cfg, s.conns));
    XorOfEmpties(XorShares(cfg, s.conns));
  }
}
