/** Runs in which the calculator stays alive: the aggregator sees exactly one pass over the log. */
module ExactlyOnce {
  import opened Types
  import opened Pipeline
  import opened Delivery
  import R = Replays
  import S = Store

  /** The calculator has never been restarted. */
  predicate NoCrash(s: State) {
    s.starts == [0]
  }

  /** One clean pass over the first `n` records. */
  function PassTo(w: World, n: nat): Pass
    requires n <= |w.log|
  {
    Run(w.env, START, w.log[..n])
  }

  function Ideal(w: World, n: nat): S.State
    requires n <= |w.log|
  {
    PassTo(w, n).store
  }

  lemma PassExtends(w: World, n: nat)
    requires n < |w.log|
    ensures PassTo(w, n + 1) == Process(w.env, PassTo(w, n), w.log[n])
  {
    RunExtends(w.env, START, w.log, n);
  }

  lemma {:induction false} PassCalculates(w: World, n: nat)
    requires n <= |w.log|
    ensures PassTo(w, n).calculator == Replay(w.env.metric, w.log, 0, n)
  {
    if n != 0 {
      PassCalculates(w, n - 1);
      PassExtends(w, n - 1);
    }
  }

  /** The aggregator will take the request for record `i`, which a crash-free calculator sends. */
  predicate Takes(w: World, i: nat)
    requires i < |w.log|
  {
    Valid(w.log[i]) ==> S.Acceptable(Order(w, 0, i))
  }

  ghost predicate TakesBelow(w: World, n: nat)
    requires n <= |w.log|
  {
    forall i :: 0 <= i < n ==> Takes(w, i)
  }

  /**
    The store is the result of one pass over the log, up to the cursor or just beyond it; and if
    the record at the cursor is confirmed, it has had its effect and the aggregator took it.
   */
  ghost predicate SyncedAt(w: World, store: S.State, cursor: nat, confirmed: bool) {
    && cursor <= |w.log|
    && (store == Ideal(w, cursor) || (cursor < |w.log| && store == Ideal(w, cursor + 1)))
    && TakesBelow(w, cursor)
    && (confirmed ==> cursor < |w.log| && store == Ideal(w, cursor + 1) && Takes(w, cursor))
  }

  predicate Confirmed(phase: Phase) {
    phase.Committing? || (phase.Awaiting? && phase.reply == Some(true))
  }

  ghost predicate Synced(w: World, s: State) {
    SyncedAt(w, s.store, s.Cursor(), Confirmed(s.phase))
  }

  /** The request for record `n` takes the ideal store one record further, and then has no effect. */
  lemma OrderAdvancesIdeal(w: World, n: nat)
    requires n < |w.log| && Valid(w.log[n])
    ensures S.Aggregate(w.env.fp, Ideal(w, n), Order(w, 0, n)).0 == Ideal(w, n + 1)
    ensures S.Aggregate(w.env.fp, Ideal(w, n + 1), Order(w, 0, n)).0 == Ideal(w, n + 1)
  {
    PassCalculates(w, n);
    PassExtends(w, n);
    S.AggregateFacts(w.env.fp, Ideal(w, n), Order(w, 0, n));
    S.AggregateFacts(w.env.fp, Ideal(w, n + 1), Order(w, 0, n));
  }

  lemma InvalidLeavesIdeal(w: World, n: nat)
    requires n < |w.log| && !Valid(w.log[n])
    ensures Ideal(w, n + 1) == Ideal(w, n)
  {
    PassExtends(w, n);
  }

  lemma DeliveryKeepsSync(w: World, s: State, c: nat)
    requires Inv(w, s) && NoCrash(s) && Synced(w, s) && Enabled(w, s, Deliver(c))
    ensures Synced(w, Next(w, s, Deliver(c)))
  {
    var t, call, n := Next(w, s, Deliver(c)), s.sent[c], s.Cursor();
    assert ProperCall(w, n, s.starts, call) && call.start == 0;
    S.AggregateFacts(w.env.fp, s.store, call.request);
    assert t.Cursor() == n;
    if call.at < n {
      assert Settled(w, s.store.processed, call.at);
      assert t.store == s.store;
      assert Confirmed(t.phase) ==> Confirmed(s.phase);
    } else {
      OrderAdvancesIdeal(w, n);
      assert t.store == Ideal(w, n + 1);
      assert Confirmed(t.phase) ==> Takes(w, n);
    }
  }

  /** Steps of the loop alone; only a commit moves the cursor, past a confirmed record. */
  lemma LoopStepKeepsSync(w: World, s: State, a: Action)
    requires Offsets(w, s) && Synced(w, s) && Enabled(w, s, a) && !a.Crash? && !a.Deliver?
    ensures Synced(w, Next(w, s, a))
  {
    var t := Next(w, s, a);
    match a
    case Discard =>
      InvalidLeavesIdeal(w, s.phase.at);
      assert t.Cursor() == s.Cursor();
    case Commit => assert t.Cursor() == s.Cursor() + 1;
    case Read => assert t.Cursor() == s.Cursor();
    case Calculate => assert t.Cursor() == s.Cursor();
    case Send => assert t.Cursor() == s.Cursor();
    case Answer => assert t.Cursor() == s.Cursor();
    case GiveUp => assert t.Cursor() == s.Cursor();
    case CommitError(_) => assert t.Cursor() == s.Cursor();
    case Seek => assert t.Cursor() == s.Cursor();
    case SeekError => assert t.Cursor() == s.Cursor();
    case Stop => assert t.Cursor() == s.Cursor();
  }

  lemma StepKeepsSync(w: World, s: State, a: Action)
    requires Inv(w, s) && NoCrash(s) && Synced(w, s) && Enabled(w, s, a) && !a.Crash?
    ensures NoCrash(Next(w, s, a)) && Synced(w, Next(w, s, a))
  {
    if a.Deliver? {
      DeliveryKeepsSync(w, s, a.call);
    } else {
      LoopStepKeepsSync(w, s, a);
    }
  }

  lemma StartsGrow(w: World, acts: seq<Action>)
    requires acts != [] && Execute(w, acts).Some? && NoCrash(Execute(w, acts).value)
    ensures !acts[|acts|-1].Crash? && NoCrash(Execute(w, acts[..|acts|-1]).value)
  {
    InvHolds(w, acts[..|acts|-1]);
  }

  lemma {:induction false} SyncHolds(w: World, acts: seq<Action>)
    requires Execute(w, acts).Some? && NoCrash(Execute(w, acts).value)
    ensures Inv(w, Execute(w, acts).value) && Synced(w, Execute(w, acts).value)
  {
    InvHolds(w, acts);
    if acts != [] {
      StartsGrow(w, acts);
      var front := acts[..|acts|-1];
      InvHolds(w, front);
      SyncHolds(w, front);
      StepKeepsSync(w, Execute(w, front).value, acts[|acts|-1]);
    }
  }

  /**
    Exactly-once effect. In every run without a crash, whatever replies were lost, requests
    delivered late or repeatedly, commits failed and records re-read, the aggregator's whole state
    is that of a single in-order pass over a prefix of the log: the settled records, and perhaps
    the one being worked on.
   */
  lemma ExactlyOnceEffect(w: World, acts: seq<Action>) returns (n: nat)
    requires Execute(w, acts).Some? && NoCrash(Execute(w, acts).value)
    ensures var s := Execute(w, acts).value;
            && s.Cursor() <= n <= s.Cursor() + 1 && n <= |w.log|
            && s.store == Ideal(w, n) && Passable(w.log[..n], n)
  {
    SyncHolds(w, acts);
    var s := Execute(w, acts).value;
    n := PrefixApplied(w, s.store, s.Cursor(), Confirmed(s.phase));
  }

  lemma PrefixApplied(w: World, store: S.State, cursor: nat, confirmed: bool) returns (n: nat)
    requires SyncedAt(w, store, cursor, confirmed)
    ensures cursor <= n <= cursor + 1 && n <= |w.log|
    ensures store == Ideal(w, n) && Passable(w.log[..n], n)
  {
    n := cursor;
    if store != Ideal(w, cursor) {
      EffectMeansTaken(w, cursor);
      n := cursor + 1;
    }
    TakenMeansPassable(w, n);
  }

  lemma TakenMeansPassable(w: World, n: nat)
    requires n <= |w.log| && TakesBelow(w, n)
    ensures Passable(w.log[..n], n)
  {
    forall i | 0 <= i < n && Valid(w.log[i]) ensures Narrow(w.log[i].data.obu) > 0 {
      assert Takes(w, i);
    }
  }

  /** A record that changes the ideal store was taken. */
  lemma EffectMeansTaken(w: World, n: nat)
    requires n < |w.log| && Ideal(w, n + 1) != Ideal(w, n)
    ensures Takes(w, n)
  {
    PassExtends(w, n);
    PassCalculates(w, n);
  }

  predicate Drained(w: World, s: State) {
    s.phase.Idle? && s.position == |w.log|
  }

  /** Once the log is drained, calculator and aggregator are exactly where one clean pass ends. */
  lemma DrainedIsWholePass(w: World, acts: seq<Action>)
    requires Execute(w, acts).Some?
    requires NoCrash(Execute(w, acts).value) && Drained(w, Execute(w, acts).value)
    ensures var s := Execute(w, acts).value;
            Pass(s.calculator, s.store) == Run(w.env, START, w.log)
  {
    SyncHolds(w, acts);
    PassCalculates(w, |w.log|);
    assert w.log[..|w.log|] == w.log;
  }

  /**
    The bill at any moment of a crash-free run, under any key, is the length of the paths travelled
    so far by the OBUs billed under that key.
   */
  lemma BillIsJourney(w: World, acts: seq<Action>, key: int) returns (n: nat)
    requires Execute(w, acts).Some? && NoCrash(Execute(w, acts).value) && NonNegative(w.env.metric)
    ensures var s := Execute(w, acts).value;
            && s.Cursor() <= n <= s.Cursor() + 1 && n <= |w.log|
            && (Drained(w, s) ==> n == |w.log|)
            && R.Bills(w.env.metric, s.store.data, w.log[..n], key, R.Sharing(w.log[..n], key))
  {
    n := ExactlyOnceEffect(w, acts);
    InvHolds(w, acts);
    R.SharersNarrow(w.log[..n], key);
    R.BillIsJourneys(w.env, w.log[..n], key, R.Sharing(w.log[..n], key));
  }

  /** An OBU in the range of `int32` that shares its key with no other one is billed for its own path. */
  lemma BillIsOwnPath(w: World, acts: seq<Action>, obu: int) returns (n: nat)
    requires Execute(w, acts).Some? && NoCrash(Execute(w, acts).value) && NonNegative(w.env.metric)
    requires 1 <= obu <= MAX_INT32 && R.Sharing(w.log, obu) <= {obu}
    ensures var s := Execute(w, acts).value;
            && s.Cursor() <= n <= s.Cursor() + 1 && n <= |w.log|
            && (Drained(w, s) ==> n == |w.log|)
            && var points := R.Points(w.log[..n], obu);
               && (obu in s.store.data <==> points != [])
               && (points != [] ==> s.store.data[obu] == Finite(R.PathLength(w.env.metric, points)))
  {
    n := ExactlyOnceEffect(w, acts);
    InvHolds(w, acts);
    R.SharingGrows(w.log, n, obu);
    R.BillIsPathLength(w.env, w.log[..n], obu);
  }

  /**
    Two deployments that consume different interleavings of the same per-OBU streams, each with its
    own failures, end with the same invoices, reconciliation record and calculator memory.
   */
  lemma DrainedRunsAgree(v: World, w: World, acts: seq<Action>, acts': seq<Action>)
    requires v.env == w.env && (forall o :: R.Of(v.log, o) == R.Of(w.log, o)) && R.OneEventPerID(v.log)
    requires Execute(v, acts).Some? && NoCrash(Execute(v, acts).value) && Drained(v, Execute(v, acts).value)
    requires Execute(w, acts').Some? && NoCrash(Execute(w, acts').value) && Drained(w, Execute(w, acts').value)
    ensures Execute(v, acts).value.store == Execute(w, acts').value.store
    ensures Execute(v, acts).value.calculator == Execute(w, acts').value.calculator
  {
    DrainedIsWholePass(v, acts);
    DrainedIsWholePass(w, acts');
    R.InterleavingsAgree(v.env, START, v.log, w.log);
  }
}
