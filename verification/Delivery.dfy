/**
  The delivery protocol as a step system: the consumer loop (`dist-calc/consumer.go`), the
  network between calculator and aggregator, and the two services' states.

  The log is fixed: a log that grows while it is read allows no behaviour that the final log does
  not, because a read may come arbitrarily late.
 */
module Delivery {
  import opened Types
  import opened Pipeline
  import Calc = Calculator
  import S = Store

  datatype World = World(log: seq<Record>, env: Env)

  /** A request on the network, with the record and the calculator start it stems from. */
  datatype Call = Call(at: nat, start: nat, request: Distance)

  /** Where the consumer loop is, and with which record. */
  datatype Phase =
    | Idle
    | Received(at: nat)
    | Calculated(at: nat, dist: Float)
    | Awaiting(at: nat, call: nat, reply: Option<bool>)
    | Committing(at: nat)
    | Failed(at: nat)
    | Stopped(at: nat)

  datatype State = State(
    phase: Phase,
    position: nat,
    committed: nat,
    calculator: Calc.State,
    sent: seq<Call>,
    store: S.State,
    // history: the call that was applied for each event ID, the offsets at which the
    // calculator started, records read, attempts failed
    paid: map<string, Call>,
    starts: seq<nat>,
    consumed: nat,
    failures: nat)
  {
    /** The record being worked on, or the next one. */
    function Cursor(): nat {
      if phase.Idle? then position else phase.at
    }

    function Start(): nat {
      if starts == [] then 0 else starts[|starts|-1]
    }
  }

  const INIT := State(Idle, 0, 0, Calc.EMPTY, [], S.EMPTY, map[], [0], 0, 0)

  datatype Action =
    | Read
    | Discard
    | Calculate
    | Send
    | Deliver(call: nat)          // in time, late, or again
    | Answer                      // the reply reaches the client
    | GiveUp                      // timeout, lost request or lost reply
    | Commit
    | CommitError(landed: bool)
    | Seek
    | SeekError
    | Stop
    | Crash(landed: bool)         // restart; a commit under way may have landed

  predicate Enabled(w: World, s: State, a: Action) {
    match a
    case Read => s.phase.Idle? && s.position < |w.log|
    case Discard => s.phase.Received? && s.phase.at < |w.log| && !Valid(w.log[s.phase.at])
    case Calculate => s.phase.Received? && s.phase.at < |w.log| && Valid(w.log[s.phase.at])
    case Send => s.phase.Calculated? && s.phase.at < |w.log| && Valid(w.log[s.phase.at])
    case Deliver(c) => c < |s.sent|
    case Answer => s.phase.Awaiting? && s.phase.reply.Some?
    case GiveUp => s.phase.Awaiting?
    case Commit => s.phase.Committing?
    case CommitError(_) => s.phase.Committing?
    case Seek => s.phase.Failed?
    case SeekError => s.phase.Failed?
    case Stop => s.phase.Idle?
    case Crash(_) => true
  }

  function Next(w: World, s: State, a: Action): State
    requires Enabled(w, s, a)
  {
    match a
    case Read => s.(phase := Received(s.position), position := s.position + 1, consumed := s.consumed + 1)
    case Discard => s.(phase := Committing(s.phase.at))
    case Calculate =>
      var (c, dist) := Calc.Calculate(w.env.metric, s.calculator, w.log[s.phase.at].data);
      s.(calculator := c, phase := Calculated(s.phase.at, dist))
    case Send =>
      var call := Call(s.phase.at, s.Start(), Request(w.log[s.phase.at].data, s.phase.dist));
      s.(sent := s.sent + [call], phase := Awaiting(s.phase.at, |s.sent|, None))
    case Deliver(c) => Delivered(w, s, c)
    case Answer =>
      if s.phase.reply.value then s.(phase := Committing(s.phase.at)) else Fail(s)
    case GiveUp => Fail(s)
    case Commit => s.(committed := s.phase.at + 1, phase := Idle)
    case CommitError(landed) => Fail(if landed then s.(committed := s.phase.at + 1) else s)
    case Seek => s.(position := s.phase.at, phase := Idle)
    case SeekError => s.(phase := Stopped(s.phase.at))
    case Stop => s.(phase := Stopped(s.position))
    case Crash(landed) =>
      var committed := if landed && s.phase.Committing? then s.phase.at + 1 else s.committed;
      s.(phase := Idle, position := committed, committed := committed,
         calculator := Calc.EMPTY, starts := s.starts + [committed])
  }

  function Fail(s: State): State
    requires s.phase.Awaiting? || s.phase.Committing?
  {
    s.(phase := Failed(s.phase.at), failures := s.failures + 1)
  }

  /** The aggregator serves a call; only the client still waiting for that call can hear the reply. */
  function Delivered(w: World, s: State, c: nat): State
    requires c < |s.sent|
  {
    var d := s.sent[c].request;
    var (store, outcome) := S.Aggregate(w.env.fp, s.store, d);
    s.(store := store,
       paid := if outcome == S.Applied then s.paid[d.eventID := s.sent[c]] else s.paid,
       phase := if s.phase.Awaiting? && s.phase.call == c
                then s.phase.(reply := Some(outcome != S.Rejected)) else s.phase)
  }

  /** The state after a sequence of actions, if each was enabled in its turn. */
  function Execute(w: World, acts: seq<Action>): Option<State> {
    if acts == [] then Some(INIT)
    else
      var before := Execute(w, acts[..|acts|-1]);
      if before.Some? && Enabled(w, before.value, acts[|acts|-1])
      then Some(Next(w, before.value, acts[|acts|-1])) else None
  }

  lemma ExecuteExtends(w: World, acts: seq<Action>, a: Action)
    ensures Execute(w, acts + [a]) ==
            var before := Execute(w, acts);
            if before.Some? && Enabled(w, before.value, a) then Some(Next(w, before.value, a)) else None
  {
  }

  // ---------- The invariant of every run ----------

  /** The distance that a calculator started at `lo` gives record `i`. */
  function Value(w: World, lo: nat, i: nat): Float
    requires lo <= i < |w.log| && Valid(w.log[i])
  {
    Calc.Calculate(w.env.metric, Replay(w.env.metric, w.log, lo, i), w.log[i].data).1
  }

  function Order(w: World, lo: nat, i: nat): Distance
    requires lo <= i < |w.log| && Valid(w.log[i])
  {
    Request(w.log[i].data, Value(w, lo, i))
  }

  /** At rest the position is the committed offset or one behind it. */
  predicate Offsets(w: World, s: State) {
    && s.starts != [] && s.starts[0] == 0
    && s.Start() <= s.Cursor() <= |w.log|
    && (s.committed == s.Cursor() || s.committed == s.Cursor() + 1)
    && s.committed <= |w.log|
    && (!s.phase.Idle? && !s.phase.Stopped? ==> s.phase.at < |w.log| && s.position == s.phase.at + 1)
  }

  /** The calculator holds a replay from its start up to the cursor, the cursor included or not. */
  ghost predicate Remembers(w: World, s: State)
    requires Offsets(w, s)
  {
    s.calculator == Replay(w.env.metric, w.log, s.Start(), s.Cursor()) || Ahead(w, s)
  }

  ghost predicate Ahead(w: World, s: State)
    requires Offsets(w, s)
  {
    s.Cursor() < |w.log| && s.calculator == Replay(w.env.metric, w.log, s.Start(), s.Cursor() + 1)
  }

  predicate ProperCall(w: World, cursor: nat, starts: seq<nat>, call: Call) {
    && call.at < |w.log|
    && Valid(w.log[call.at])
    && call.start <= call.at <= cursor
    && call.start in starts
    && call.request == Order(w, call.start, call.at)
  }

  ghost predicate ProperCalls(w: World, cursor: nat, starts: seq<nat>, sent: seq<Call>) {
    forall c :: 0 <= c < |sent| ==> ProperCall(w, cursor, starts, sent[c])
  }

  /** The record was discarded as invalid, or its event ID has reached the aggregator. */
  predicate Settled(w: World, processed: set<string>, i: nat)
    requires i < |w.log|
  {
    Valid(w.log[i]) ==> w.log[i].data.eventID in processed
  }

  ghost predicate PhaseFacts(w: World, s: State)
    requires Offsets(w, s)
  {
    match s.phase
    case Calculated(at, dist) =>
      Ahead(w, s) && Valid(w.log[at]) && dist == Value(w, s.Start(), at)
    case Awaiting(at, call, reply) =>
      && Ahead(w, s) && Valid(w.log[at])
      && call < |s.sent|
      && s.sent[call] == Call(at, s.Start(), Order(w, s.Start(), at))
      && (reply == Some(true) ==> Settled(w, s.store.processed, at) && S.Acceptable(s.sent[call].request))
    case Committing(at) =>
      Settled(w, s.store.processed, at) && (Valid(w.log[at]) ==> Ahead(w, s))
    case _ => true
  }

  /** Nothing below the committed offset has been lost. */
  ghost predicate NoLoss(w: World, committed: nat, processed: set<string>)
    requires committed <= |w.log|
  {
    forall i :: 0 <= i < committed ==> Settled(w, processed, i)
  }

  ghost predicate Inv(w: World, s: State) {
    && Offsets(w, s)
    && Remembers(w, s)
    && ProperCalls(w, s.Cursor(), s.starts, s.sent)
    && PhaseFacts(w, s)
    && NoLoss(w, s.committed, s.store.processed)
  }

  lemma CalculateAdvances(w: World, s: State)
    requires Inv(w, s) && Enabled(w, s, Calculate)
    ensures Inv(w, Next(w, s, Calculate))
  {
  }

  lemma SendIsProper(w: World, s: State)
    requires Inv(w, s) && Enabled(w, s, Send)
    ensures Inv(w, Next(w, s, Send))
  {
    var t := Next(w, s, Send);
    assert ProperCall(w, t.Cursor(), t.starts, t.sent[|s.sent|]);
    assert t.Cursor() == s.Cursor() && t.Start() == s.Start();
  }

  lemma NoLossGrows(w: World, committed: nat, processed: set<string>, processed': set<string>)
    requires committed <= |w.log| && processed <= processed' && NoLoss(w, committed, processed)
    ensures NoLoss(w, committed, processed')
  {
    forall i | 0 <= i < committed ensures Settled(w, processed', i) {
      assert Settled(w, processed, i);
    }
  }

  lemma DeliverySettles(w: World, s: State, c: nat)
    requires Inv(w, s) && Enabled(w, s, Deliver(c))
    ensures Inv(w, Next(w, s, Deliver(c)))
  {
    var t := Next(w, s, Deliver(c));
    S.AggregateFacts(w.env.fp, s.store, s.sent[c].request);
    NoLossGrows(w, s.committed, s.store.processed, t.store.processed);
    assert t.Cursor() == s.Cursor() && t.Start() == s.Start() && Offsets(w, t);
    assert Remembers(w, t) && (Ahead(w, s) ==> Ahead(w, t));
    assert PhaseFacts(w, t);
  }

  lemma CommitAdvances(w: World, s: State, a: Action)
    requires Inv(w, s) && Enabled(w, s, a) && (a == Commit || a == CommitError(true))
    ensures Inv(w, Next(w, s, a))
  {
  }

  lemma RestartIsClean(w: World, s: State, landed: bool)
    requires Inv(w, s)
    ensures Inv(w, Next(w, s, Crash(landed)))
  {
  }

  /** A step that moves only the loop's own program counter. */
  lemma QuietStepKeepsInv(w: World, s: State, t: State)
    requires Inv(w, s) && Offsets(w, t) && t.Cursor() == s.Cursor()
    requires t == s.(phase := t.phase, position := t.position, consumed := t.consumed, failures := t.failures)
    requires t.phase.Idle? || t.phase.Received? || t.phase.Failed? || t.phase.Stopped?
             || (t.phase.Committing? && Settled(w, s.store.processed, t.phase.at)
                 && (Valid(w.log[t.phase.at]) ==> Ahead(w, s)))
    ensures Inv(w, t)
  {
  }

  lemma StepKeepsInv(w: World, s: State, a: Action)
    requires Inv(w, s) && Enabled(w, s, a)
    ensures Inv(w, Next(w, s, a))
  {
    match a
    case Calculate => CalculateAdvances(w, s);
    case Send => SendIsProper(w, s);
    case Deliver(c) => DeliverySettles(w, s, c);
    case Commit => CommitAdvances(w, s, a);
    case CommitError(landed) => if landed { CommitAdvances(w, s, a); } else { FailureKeepsInv(w, s, a); }
    case Crash(landed) => RestartIsClean(w, s, landed);
    case Answer => FailureKeepsInv(w, s, a);
    case GiveUp => FailureKeepsInv(w, s, a);
    case _ => QuietStepKeepsInv(w, s, Next(w, s, a));
  }

  lemma FailureKeepsInv(w: World, s: State, a: Action)
    requires Inv(w, s) && Enabled(w, s, a) && (a == Answer || a == GiveUp || a == CommitError(false))
    ensures Inv(w, Next(w, s, a))
  {
    QuietStepKeepsInv(w, s, Next(w, s, a));
  }

  /** Every reachable state, after any mix of failures, late deliveries and crashes, satisfies the invariant. */
  lemma {:induction false} InvHolds(w: World, acts: seq<Action>)
    ensures Execute(w, acts).Some? ==> Inv(w, Execute(w, acts).value)
  {
    if acts != [] {
      var front := acts[..|acts|-1];
      InvHolds(w, front);
      if Execute(w, acts).Some? {
        StepKeepsInv(w, Execute(w, front).value, acts[|acts|-1]);
      }
    }
  }

  /**
    No loss: at any moment of any run, every offset below the committed one holds a record that is
    unreadable or lacks an event ID, a timestamp or an OBU ID, or its event ID is in the aggregator's
    processed set.
   */
  lemma NothingCommittedIsLost(w: World, acts: seq<Action>, i: nat)
    requires Execute(w, acts).Some? && i < Execute(w, acts).value.committed
    ensures i < |w.log|
    ensures w.log[i].Event? && w.log[i].data.eventID != "" && w.log[i].data.producedAt > 0 && w.log[i].data.obu > 0 ==>
              w.log[i].data.eventID in Execute(w, acts).value.store.processed
  {
    InvHolds(w, acts);
    assert Settled(w, Execute(w, acts).value.store.processed, i);
  }

  /**
    Every request of every run, however often it is delivered, carries the event ID and the timestamp of
    its record unchanged, and its OBU ID reduced modulo 2^32 to the range of `int32`; and no record
    is sent that lacks one of them.
   */
  lemma RequestsCarryTheirRecords(w: World, acts: seq<Action>, c: nat)
    requires Execute(w, acts).Some? && c < |Execute(w, acts).value.sent|
    ensures var call := Execute(w, acts).value.sent[c];
            && call.at < |w.log| && w.log[call.at].Event?
            && var d, request := w.log[call.at].data, call.request;
               && request.eventID == d.eventID != ""
               && request.producedAt == d.producedAt > 0
               && d.obu > 0 && (d.obu - request.obu) % 0x1_0000_0000 == 0
               && -0x8000_0000 <= request.obu <= 0x7fff_ffff
  {
    InvHolds(w, acts);
    var s := Execute(w, acts).value;
    assert ProperCall(w, s.Cursor(), s.starts, s.sent[c]);
  }

  /** What can go wrong in a state. */
  predicate IsFault(s: State, a: Action) {
    match a
    case Deliver(c) => c < |s.sent|
    case GiveUp => s.phase.Awaiting?
    case CommitError(_) => s.phase.Committing?
    case SeekError => s.phase.Failed?
    case Crash(_) => true
    case _ => false
  }

  /**
    The runs are not restricted to friendly ones. At any moment any request may arrive, again or late, and
    the calculator may crash; while a reply is awaited the client may give up; a commit may fail,
    whether it has landed or not, and so may a rewind.
   */
  lemma AnythingMayGoWrong(w: World, acts: seq<Action>, a: Action)
    requires Execute(w, acts).Some? && IsFault(Execute(w, acts).value, a)
    ensures Execute(w, acts + [a]).Some?
  {
    ExecuteExtends(w, acts, a);
  }

  /** The consumer has neither passed record `i` nor is about to. */
  predicate Before(s: State, i: nat) {
    s.committed <= i && s.phase != Committing(i)
  }

  lemma StepStaysBefore(w: World, s: State, a: Action, i: nat)
    requires Inv(w, s) && Enabled(w, s, a) && Before(s, i)
    requires i < |w.log| && Valid(w.log[i]) && Narrow(w.log[i].data.obu) <= 0
    ensures Before(Next(w, s, a), i)
  {
    if a.Answer? && s.phase.reply == Some(true) {
      assert S.Acceptable(s.sent[s.phase.call].request);
    }
  }

  /**
    A valid record whose OBU ID is not positive after the narrowing is never passed, not even with
    the help of restarts: the aggregator refuses every request for it.
   */
  lemma {:induction false} UnbillableRecordBlocks(w: World, acts: seq<Action>, i: nat)
    requires Execute(w, acts).Some? && i < |w.log| && Valid(w.log[i]) && Narrow(w.log[i].data.obu) <= 0
    ensures Before(Execute(w, acts).value, i) && Execute(w, acts).value.Cursor() <= i
  {
    InvHolds(w, acts);
    if acts != [] {
      var front := acts[..|acts|-1];
      UnbillableRecordBlocks(w, front, i);
      InvHolds(w, front);
      StepStaysBefore(w, Execute(w, front).value, acts[|acts|-1], i);
    }
  }
}
