/**
  The consumer loop of `dist-calc/consumer.go` as code, run against an environment script.
  Whatever the script, the object's state is reached by a run of the step system in `Delivery`,
  so everything proved of those runs holds of the loop.
 */
module Consumer {
  import opened Types
  import opened Pipeline
  import P = Pipeline
  import opened Delivery
  import E = ExactlyOnce
  import Calc = Calculator
  import A = Aggregator
  import S = Store

  datatype CommitResult = Acknowledged | Refused | AckLost

  /** What the surroundings do during one turn of the loop. */
  datatype Turn = Turn(
    readable: bool,         // ReadMessage returned a record rather than a timeout or an error
    stray: seq<nat>,        // earlier requests that reach the aggregator during the call, late or again
    served: bool,           // this turn's own request reaches the aggregator
    answered: bool,         // and its reply comes back before the deadline
    commit: CommitResult,
    rewound: bool)          // Seek succeeded

  /** In how many turns a record can be read. */
  function Readable(turns: seq<Turn>): nat {
    if turns == [] then 0 else Readable(turns[..|turns|-1]) + if turns[|turns|-1].readable then 1 else 0
  }

  /** The earlier requests among these arrive, in this order. */
  function Deliveries(stray: seq<nat>, n: nat): seq<Action> {
    if stray == [] then []
    else
      var c := stray[|stray|-1];
      Deliveries(stray[..|stray|-1], n) + if c < n then [Deliver(c)] else []
  }

  lemma DeliveriesStep(stray: seq<nat>, i: nat, n: nat, before: seq<Action>)
    requires i < |stray|
    ensures var next := if stray[i] < n then [Deliver(stray[i])] else [];
            before + Deliveries(stray[..i+1], n) == before + Deliveries(stray[..i], n) + next
  {
    assert stray[..i+1][..i] == stray[..i];
  }

  lemma OneByOne<T>(s: seq<T>, x: T, y: T)
    ensures s + [x] + [y] == s + [x, y]
  {
  }

  class KafkaConsumer {
    const world: World
    const calculator: Calc.CalcService
    const server: A.InvoiceAggregator
    var position: nat
    var committed: nat
    /** Requests handed to the network so far; any of them may still arrive. */
    var requests: seq<Distance>
    ghost var trace: seq<Action>
    ghost var model: State

    ghost predicate Valid()
      reads this, calculator, server.store
    {
      && Execute(world, trace) == Some(model)
      && calculator.metric == world.env.metric
      && server.store.fingerprint == world.env.fp
      && model.position == position
      && model.committed == committed
      && model.calculator == calculator.Contents()
      && model.store == server.store.Contents()
      && |model.sent| == |requests|
      && forall c :: 0 <= c < |requests| ==> model.sent[c].request == requests[c]
    }

    /** A first start: nothing read, nothing committed, an empty aggregator. */
    constructor (world: World, server: A.InvoiceAggregator)
      requires server.store.Contents() == S.EMPTY && server.store.fingerprint == world.env.fp
      ensures Valid() && fresh(calculator)
      ensures this.world == world && this.server == server && trace == []
    {
      this.world, this.server := world, server;
      calculator := new Calc.CalcService(world.env.metric);
      position, committed, requests := 0, 0, [];
      trace, model := [], INIT;
    }

    /**
      A new process after a crash, wherever the dead one stopped: empty maps, the committed offset, the
      same aggregator and network. A commit under way may have landed.
     */
    constructor Restart(dead: KafkaConsumer, landed: bool)
      requires dead.Valid() && (landed ==> dead.model.phase.Committing?)
      ensures Valid() && fresh(calculator)
      ensures world == dead.world && server == dead.server && trace == dead.trace + [Crash(landed)]
      ensures position == committed == if landed then dead.position else dead.committed
      ensures calculator.prevPoints == map[] && calculator.results == map[] && requests == dead.requests
    {
      world, server := dead.world, dead.server;
      calculator := new Calc.CalcService(dead.world.env.metric);
      requests := dead.requests;
      position := if landed then dead.position else dead.committed;
      committed := if landed then dead.position else dead.committed;
      trace, model := dead.trace + [Crash(landed)], Next(dead.world, dead.model, Crash(landed));
      new;
      InvHolds(world, dead.trace);
      ExecuteExtends(world, dead.trace, Crash(landed));
    }

    /** Records that the step `a` has been taken. */
    ghost method Note(a: Action)
      requires Execute(world, trace) == Some(model) && Enabled(world, model, a)
      modifies this`trace, this`model
      ensures Execute(world, trace) == Some(model)
      ensures trace == old(trace) + [a] && model == Next(world, old(model), a)
    {
      ExecuteExtends(world, trace, a);
      trace, model := trace + [a], Next(world, model, a);
    }

    /** The loop is still at the same record, in the same attempt. */
    predicate Unmoved(s: State, t: State) {
      && t.starts == s.starts && t.consumed == s.consumed && t.position == s.position && t.committed == s.committed
      && (s.phase.Awaiting? ==> t.phase.Awaiting? && t.phase.at == s.phase.at && t.phase.call == s.phase.call)
    }

    /** The aggregator serves request `c`. */
    method Serve(c: nat) returns (ok: bool)
      requires Valid() && c < |requests|
      modifies this`trace, this`model, server.store
      ensures Valid() && trace == old(trace) + [Deliver(c)] && model == Next(world, old(model), Deliver(c))
      ensures ok <==> S.Acceptable(requests[c])
      ensures Unmoved(old(model), model)
      ensures old(model).phase.Awaiting? && old(model).phase.call == c ==> model.phase.reply == Some(ok)
      ensures !(old(model).phase.Awaiting? && old(model).phase.call == c) ==> model.phase == old(model).phase
    {
      var outcome := server.AggregateDistance(requests[c]);
      Note(Deliver(c));
      S.AggregateFacts(world.env.fp, old(model).store, requests[c]);
      return outcome != S.Rejected;
    }

    /** Stray requests arrive; none of them is the one being waited for. */
    method ServeStray(stray: seq<nat>)
      requires Valid() && model.phase.Awaiting? && model.phase.call == |requests| - 1
      modifies this`trace, this`model, server.store
      ensures Valid() && model.phase == old(model).phase && Unmoved(old(model), model)
      ensures trace == old(trace) + Deliveries(stray, |requests| - 1)
    {
      hide Next;
      hide Execute;
      for i := 0 to |stray|
        invariant Valid() && model.phase == old(model).phase && Unmoved(old(model), model)
        invariant trace == old(trace) + Deliveries(stray[..i], |requests| - 1)
      {
        DeliveriesStep(stray, i, |requests| - 1, old(trace));
        if stray[i] < |requests| - 1 {
          var _ := Serve(stray[i]);
        }
      }
      assert stray[..|stray|] == stray;
    }

    /** The client call: an error says nothing about whether the request was served. */
    method Aggregate(request: Distance, turn: Turn) returns (ok: bool)
      requires Valid() && model.phase.Calculated? && Enabled(world, model, Send)
      requires request == Request(world.log[model.phase.at].data, model.phase.dist)
      modifies this`requests, this`trace, this`model, server.store
      ensures Valid() && model.starts == old(model).starts
      ensures model.phase == if ok then Committing(old(model).phase.at) else Failed(old(model).phase.at)
      ensures ok <==> turn.served && turn.answered && S.Acceptable(request)
      ensures requests == old(requests) + [request]
      ensures trace == old(trace) + [Send] + Deliveries(turn.stray, |old(requests)|) + Outcome(turn, |old(requests)|)
      ensures model.consumed == old(model).consumed && model.position == old(model).position
    {
      SendOut(request);
      hide Next;
      hide Execute;
      ServeStray(turn.stray);
      ok := Await(turn);
    }

    /** The request goes out to the network. */
    method SendOut(request: Distance)
      requires Valid() && model.phase.Calculated? && Enabled(world, model, Send)
      requires request == Request(world.log[model.phase.at].data, model.phase.dist)
      modifies this`requests, this`trace, this`model
      ensures Valid() && Unmoved(old(model), model) && requests == old(requests) + [request]
      ensures model.phase == Awaiting(old(model).phase.at, |old(requests)|, None)
      ensures trace == old(trace) + [Send]
    {
      requests := requests + [request];
      Note(Send);
    }

    /** How the call with request `c` goes on. */
    function Outcome(turn: Turn, c: nat): seq<Action> {
      if turn.served then [Deliver(c), if turn.answered then Answer else GiveUp] else [GiveUp]
    }

    /** Waits for the reply to the last request, or for the deadline. */
    method Await(turn: Turn) returns (ok: bool)
      requires Valid() && model.phase.Awaiting? && model.phase.call == |requests| - 1
      modifies this`trace, this`model, server.store
      ensures Valid() && model.starts == old(model).starts
      ensures model.phase == if ok then Committing(old(model).phase.at) else Failed(old(model).phase.at)
      ensures ok <==> turn.served && turn.answered && S.Acceptable(requests[|requests|-1])
      ensures trace == old(trace) + Outcome(turn, |requests| - 1)
      ensures model.consumed == old(model).consumed && model.position == old(model).position
      ensures model.committed == old(model).committed
    {
      ok := false;
      if turn.served {
        OneByOne(trace, Deliver(|requests| - 1), if turn.answered then Answer else GiveUp);
        var accepted := Serve(|requests| - 1);
        if turn.answered {
          Note(Answer);
          return accepted;
        }
      }
      Note(GiveUp);
    }

    /** What the calculator in state `c` sends for record `at`. */
    function RequestFor(c: Calc.State, at: nat): Distance
      requires at < |world.log| && P.Valid(world.log[at])
    {
      Request(world.log[at].data, Calc.Calculate(world.env.metric, c, world.log[at].data).1)
    }

    /** Record `at` will be passed in this turn, by a calculator in state `c`. */
    predicate Succeeds(turn: Turn, c: Calc.State, at: nat)
      requires at < |world.log|
    {
      && turn.commit == Acknowledged
      && (P.Valid(world.log[at]) ==> turn.served && turn.answered && S.Acceptable(RequestFor(c, at)))
    }

    /** The request has the fields of record `at`, and its OBU ID as an `int32`. */
    predicate Carries(request: Distance, at: nat)
      requires at < |world.log| && world.log[at].Event?
    {
      var d := world.log[at].data;
      && request.eventID == d.eventID && request.producedAt == d.producedAt
      && (d.obu - request.obu) % 0x1_0000_0000 == 0 && -0x8000_0000 <= request.obu <= 0x7fff_ffff
    }

    method ProcessEvent(at: nat, turn: Turn) returns (ok: bool)
      requires Valid() && model.phase == Received(at) && Enabled(world, model, Calculate)
      modifies this`requests, this`trace, this`model, calculator, server.store
      ensures Valid() && model.starts == old(model).starts
      ensures model.phase == if ok then Committing(at) else Failed(at)
      ensures ok <==> turn.served && turn.answered && S.Acceptable(RequestFor(old(calculator.Contents()), at))
      ensures |requests| == |old(requests)| + 1 && Carries(requests[|requests|-1], at)
      ensures var id := world.log[at].data.eventID;
              id in calculator.results && requests[|requests|-1].value == calculator.results[id]
      ensures model.consumed == old(model).consumed && model.position == old(model).position
    {
      var data := world.log[at].data;
      var dist := calculator.CalculateDist(data);
      Note(Calculate);
      ok := Aggregate(Request(data, dist), turn);
    }

    method CommitMessage(at: nat, result: CommitResult) returns (ok: bool)
      requires Valid() && model.phase == Committing(at)
      modifies this`committed, this`trace, this`model
      ensures Valid() && model.starts == old(model).starts
      ensures ok <==> result == Acknowledged
      ensures committed == if result == Refused then old(committed) else at + 1
      ensures model.phase == if ok then Idle else Failed(at)
      ensures model.consumed == old(model).consumed && model.position == old(model).position
    {
      if result != Refused {
        committed := at + 1;
      }
      ok := result == Acknowledged;
      Note(if ok then Commit else CommitError(result == AckLost));
    }

    method ProcessMessage(at: nat, turn: Turn) returns (ok: bool)
      requires Valid() && model.phase == Received(at) && at < |world.log|
      modifies this`requests, this`committed, this`trace, this`model, calculator, server.store
      ensures Valid() && model.starts == old(model).starts
      ensures model.phase == if ok then Idle else Failed(at)
      ensures ok <==> Succeeds(turn, old(calculator.Contents()), at)
      ensures var r := world.log[at];
              if r.Garbled? || r.data.eventID == "" || r.data.producedAt <= 0 || r.data.obu <= 0
              then requests == old(requests) && calculator.Contents() == old(calculator.Contents())
              else |requests| == |old(requests)| + 1 && Carries(requests[|requests|-1], at)
      ensures model.consumed == old(model).consumed && model.position == old(model).position
    {
      var r := world.log[at];
      if r.Garbled? || r.data.eventID == "" || r.data.producedAt <= 0 || r.data.obu <= 0 {
        Note(Discard);
        ok := CommitMessage(at, turn.commit);
        return;
      }
      ok := ProcessEvent(at, turn);
      if ok {
        ok := CommitMessage(at, turn.commit);
      }
    }

    /** One turn of the loop; `lost` if the rewind after a failure failed too. */
    method TakeTurn(turn: Turn) returns (lost: bool)
      requires Valid() && model.phase.Idle?
      modifies this`position, this`requests, this`committed, this`trace, this`model, calculator, server.store
      ensures Valid() && model.starts == old(model).starts
      ensures if lost then model.phase.Stopped? && turn.readable && !turn.rewound else model.phase.Idle?
      ensures var read := turn.readable && old(position) < |world.log|;
              && model.consumed == old(model).consumed + (if read then 1 else 0)
              && (!read ==> position == old(position))
              && (read && !lost ==>
                    position == old(position) + if Succeeds(turn, old(calculator.Contents()), old(position)) then 1 else 0)
    {
      lost := false;
      if turn.readable && position < |world.log| {
        var at := position;
        position := position + 1;
        Note(Read);
        var ok := ProcessMessage(at, turn);
        if !ok {
          lost := !turn.rewound;
          if lost {
            Note(SeekError);
          } else {
            position := at;
            Note(Seek);
          }
        }
      }
    }

    /**
      The loop, until the script ends (the context is cancelled) or a rewind fails. It reads in
      every turn in which a record can be read, unless the log is exhausted. If there has been no
      restart, the aggregator then holds exactly one pass over a prefix of the log.
     */
    method Start(turns: seq<Turn>) returns (err: bool)
      requires Valid() && model.phase.Idle?
      modifies this, calculator, server.store
      ensures Valid() && model.phase.Stopped? && model.starts == old(model).starts
      ensures err ==> exists i :: 0 <= i < |turns| && turns[i].readable && !turns[i].rewound
      ensures err || position >= |world.log| || model.consumed == old(model).consumed + Readable(turns)
      ensures E.NoCrash(model) ==>
                exists n :: model.phase.at <= n <= model.phase.at + 1 && n <= |world.log|
                            && server.store.Contents() == E.Ideal(world, n)
    {
      var i := 0;
      while i < |turns|
        invariant i <= |turns|
        invariant Valid() && model.phase.Idle? && model.starts == old(model).starts
        invariant position >= |world.log| || model.consumed == old(model).consumed + Readable(turns[..i])
      {
        assert turns[..i+1][..i] == turns[..i];
        var turn := turns[i];
        i := i + 1;
        var lost := TakeTurn(turn);
        if lost {
          PassSoFar();
          return true;
        }
      }
      assert turns[..i] == turns;
      Note(Stop);
      PassSoFar();
      return false;
    }

    lemma PassSoFar()
      requires Valid() && model.phase.Stopped?
      ensures E.NoCrash(model) ==>
                exists n :: model.phase.at <= n <= model.phase.at + 1 && n <= |world.log|
                            && server.store.Contents() == E.Ideal(world, n)
    {
      if E.NoCrash(model) {
        var n := E.ExactlyOnceEffect(world, trace);
      }
    }
  }
}
