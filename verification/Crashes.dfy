/**
  Runs in which the calculator crashes and restarts with empty maps, while the aggregator lives on:
  every bill is the length of the legs measured by the calculators that were alive.
 */
module Crashes {
  import opened Types
  import opened Pipeline
  import opened Delivery
  import opened Restarts
  import S = Store

  // ---------- The ledger ----------

  /** A start later than the one a call stems from lies at or past the record of that call. */
  ghost predicate InTurn(starts: seq<nat>, call: Call) {
    forall t :: t in starts ==> t <= call.start || call.at <= t
  }

  ghost predicate Staggered(starts: seq<nat>, start: nat, sent: seq<Call>) {
    && (forall t :: t in starts ==> t <= start)
    && (forall c :: 0 <= c < |sent| ==> InTurn(starts, sent[c]))
  }

  /** The call applied for an event ID stems from the first record with that ID. */
  ghost predicate ProperEntry(w: World, cursor: nat, starts: seq<nat>, id: string, call: Call) {
    && ProperCall(w, cursor, starts, call) && InTurn(starts, call)
    && call.request.eventID == id && S.Acceptable(call.request) && Fresh(w.log, call.at)
  }

  ghost predicate Ledger(w: World, cursor: nat, starts: seq<nat>, paid: map<string, Call>, processed: set<string>) {
    && paid.Keys == processed
    && forall id :: id in paid ==> ProperEntry(w, cursor, starts, id, paid[id])
  }

  /** The first occurrence `i` has been applied. */
  ghost predicate Paid(log: seq<Record>, paid: map<string, Call>, i: nat)
    requires i < |log|
  {
    Fresh(log, i) && log[i].data.eventID in paid
  }

  /** Where the calculator had started that charged for record `i`. */
  ghost function StartOf(log: seq<Record>, paid: map<string, Call>, i: nat): nat
    requires i < |log| && Paid(log, paid, i)
  {
    paid[log[i].data.eventID].start
  }

  /** What record `i` has added to the bill kept under `key`. */
  ghost function Charge(log: seq<Record>, paid: map<string, Call>, key: int, i: nat): multiset<Leg>
    requires i < |log|
  {
    if Counts(log, key, i) && Paid(log, paid, i) then LegOf(log, StartOf(log, paid, i), i) else multiset{}
  }

  /** The legs charged under `key` for the records from `a` up to `n`. */
  ghost function Charged(log: seq<Record>, paid: map<string, Call>, key: int, a: nat, n: nat): multiset<Leg>
    requires a <= n <= |log|
  {
    if a == n then multiset{} else Charged(log, paid, key, a, n - 1) + Charge(log, paid, key, n - 1)
  }

  function Total(data: map<int, Float>, key: int): real {
    if key in data then data[key].Amount() else 0.0
  }

  ghost predicate Balanced(w: World, data: map<int, Float>, paid: map<string, Call>) {
    && (forall k :: k in data ==> data[k].Finite?)
    && (forall k :: Total(data, k) == Length(w.env.metric, Charged(w.log, paid, k, 0, |w.log|)))
  }

  lemma EntryChangesOneCharge(log: seq<Record>, paid: map<string, Call>, call: Call, i: nat, key: int, j: nat)
    requires i < |log| && j < |log| && Fresh(log, i) && log[i].data.eventID !in paid
    ensures Charge(log, paid[log[i].data.eventID := call], key, j)
            == if j == i then NewLeg(log, key, i, call.start) else Charge(log, paid, key, j)
    ensures Charge(log, paid, key, i) == multiset{}
  {
    if Fresh(log, j) && j != i {
      assert log[j].data.eventID != log[i].data.eventID;
    }
  }

  lemma {:induction false} LaterEntryAddsNothing(log: seq<Record>, paid: map<string, Call>, call: Call, i: nat, key: int, n: nat)
    requires n <= i < |log| && Fresh(log, i) && log[i].data.eventID !in paid
    ensures Charged(log, paid[log[i].data.eventID := call], key, 0, n) == Charged(log, paid, key, 0, n)
  {
    if n != 0 {
      LaterEntryAddsNothing(log, paid, call, i, key, n - 1);
      EntryChangesOneCharge(log, paid, call, i, key, n - 1);
    }
  }

  /** A new entry for a first occurrence adds its leg to one bill and changes nothing else. */
  lemma {:induction false} EntryAddsOnce(log: seq<Record>, paid: map<string, Call>, call: Call, i: nat, key: int, n: nat)
    requires i < n <= |log| && Fresh(log, i) && log[i].data.eventID !in paid
    ensures Charged(log, paid[log[i].data.eventID := call], key, 0, n)
            == Charged(log, paid, key, 0, n) + NewLeg(log, key, i, call.start)
  {
    var m := n - 1;
    EntryChangesOneCharge(log, paid, call, i, key, m);
    if i == m {
      LaterEntryAddsNothing(log, paid, call, i, key, m);
      assert Charged(log, paid, key, 0, m) + multiset{} == Charged(log, paid, key, 0, m);
    } else {
      EntryAddsOnce(log, paid, call, i, key, m);
      SumsSwap(Charged(log, paid, key, 0, m), NewLeg(log, key, i, call.start), Charge(log, paid, key, m));
    }
  }

  lemma CreditAdds(data: map<int, Float>, obu: int, value: Float, key: int)
    requires (obu in data ==> data[obu].Finite?) && value.Finite?
    ensures Total(S.Credit(data, obu, value), key) == Total(data, key) + if key == obu then value.Amount() else 0.0
  {
  }

  /** What a calculator started at `lo` sends for a first occurrence is the length of the leg it knows. */
  lemma ValueIsLeg(w: World, lo: nat, i: nat)
    requires lo <= i < |w.log| && FreshSince(w.log, lo, i)
    ensures Value(w, lo, i).Amount() == Length(w.env.metric, LegOf(w.log, lo, i))
  {
    ReplayRemembers(w.env.metric, w.log, lo, i);
    var leg := LegOf(w.log, lo, i);
    if last: Point :| leg == multiset{(last, w.log[i].data.point)} {
      LengthInsert(w.env.metric, multiset{}, (last, w.log[i].data.point));
      assert multiset{} + leg == leg;
    }
  }

  ghost predicate Sound(w: World, s: State) {
    && Staggered(s.starts, s.Start(), s.sent)
    && Ledger(w, s.Cursor(), s.starts, s.paid, s.store.processed)
    && Balanced(w, s.store.data, s.paid)
  }

  /** A call that can still be applied stems from the first record with its ID: the others come later. */
  lemma NewCallIsFresh(w: World, s: State, c: nat)
    requires Inv(w, s) && c < |s.sent| && s.sent[c].request.eventID !in s.store.processed
    ensures Fresh(w.log, s.sent[c].at)
  {
    var at := s.sent[c].at;
    assert ProperCall(w, s.Cursor(), s.starts, s.sent[c]);
    forall j | 0 <= j < at && Valid(w.log[j]) ensures w.log[j].data.eventID != w.log[at].data.eventID {
      assert Settled(w, s.store.processed, j);
    }
  }

  lemma LengthCharged(metric: Metric, log: seq<Record>, paid: map<string, Call>, call: Call, key: int)
    requires call.at < |log| && Fresh(log, call.at) && log[call.at].data.eventID !in paid
    ensures Length(metric, Charged(log, paid[log[call.at].data.eventID := call], key, 0, |log|))
            == Length(metric, Charged(log, paid, key, 0, |log|))
               + if Counts(log, key, call.at) then Length(metric, LegOf(log, call.start, call.at)) else 0.0
  {
    var before := Charged(log, paid, key, 0, |log|);
    EntryAddsOnce(log, paid, call, call.at, key, |log|);
    LengthJoins(metric, before, NewLeg(log, key, call.at, call.start));
  }

  lemma ApplyBalances(w: World, data: map<int, Float>, paid: map<string, Call>, call: Call)
    requires Balanced(w, data, paid) && call.start <= call.at < |w.log| && Fresh(w.log, call.at)
    requires call.request == Order(w, call.start, call.at) && S.Acceptable(call.request)
    requires call.request.eventID !in paid
    ensures Balanced(w, S.Credit(data, call.request.obu, call.request.value), paid[call.request.eventID := call])
  {
    var d := call.request;
    ValueIsLeg(w, call.start, call.at);
    forall k
      ensures Total(S.Credit(data, d.obu, d.value), k)
              == Length(w.env.metric, Charged(w.log, paid[d.eventID := call], k, 0, |w.log|))
    {
      CreditAdds(data, d.obu, d.value, k);
      LengthCharged(w.env.metric, w.log, paid, call, k);
    }
  }

  lemma ApplyKeepsBooks(w: World, s: State, c: nat)
    requires Inv(w, s) && Sound(w, s) && c < |s.sent|
    requires S.Acceptable(s.sent[c].request) && s.sent[c].request.eventID !in s.store.processed
    ensures Sound(w, Delivered(w, s, c))
  {
    var t, call := Delivered(w, s, c), s.sent[c];
    NewCallIsFresh(w, s, c);
    assert ProperCall(w, s.Cursor(), s.starts, call) && InTurn(s.starts, call);
    assert t.Cursor() == s.Cursor() && t.paid == s.paid[call.request.eventID := call];
    ApplyBalances(w, s.store.data, s.paid, call);
  }

  lemma LedgerPersists(w: World, s: State, t: State)
    requires Ledger(w, s.Cursor(), s.starts, s.paid, s.store.processed) && s.Cursor() <= t.Cursor()
    requires t.starts == s.starts || (t.starts == s.starts + [t.Start()] && s.Cursor() <= t.Start())
    requires t.paid == s.paid && t.store == s.store
    ensures Ledger(w, t.Cursor(), t.starts, t.paid, t.store.processed)
  {
    forall id | id in s.paid ensures ProperEntry(w, t.Cursor(), t.starts, id, s.paid[id]) {
      assert ProperEntry(w, s.Cursor(), s.starts, id, s.paid[id]);
    }
  }

  lemma StepKeepsBooks(w: World, s: State, a: Action)
    requires Inv(w, s) && Sound(w, s) && Enabled(w, s, a)
    ensures Sound(w, Next(w, s, a))
  {
    var t := Next(w, s, a);
    match a
    case Deliver(c) =>
      var d := s.sent[c].request;
      if S.Acceptable(d) && d.eventID !in s.store.processed {
        ApplyKeepsBooks(w, s, c);
      } else {
        S.AggregateFacts(w.env.fp, s.store, d);
        LedgerPersists(w, s, t);
      }
    case _ =>
      LoopStepIsQuiet(w, s, a);
      LedgerPersists(w, s, t);
  }

  /** Steps other than deliveries change no bill, and keep the starts in turn. */
  lemma LoopStepIsQuiet(w: World, s: State, a: Action)
    requires Inv(w, s) && Staggered(s.starts, s.Start(), s.sent) && Enabled(w, s, a) && !a.Deliver?
    ensures var t := Next(w, s, a);
            && s.Cursor() <= t.Cursor() && t.paid == s.paid && t.store == s.store
            && (t.starts == s.starts || (t.starts == s.starts + [t.Start()] && s.Cursor() <= t.Start()))
            && Staggered(t.starts, t.Start(), t.sent)
  {
    var t := Next(w, s, a);
    if a.Crash? {
      forall c | 0 <= c < |s.sent| ensures InTurn(t.starts, s.sent[c]) {
        assert ProperCall(w, s.Cursor(), s.starts, s.sent[c]) && InTurn(s.starts, s.sent[c]);
      }
    }
  }

  /** In every run each bill is the length of the legs charged for the applied first occurrences. */
  lemma {:induction false} BooksBalance(w: World, acts: seq<Action>)
    requires Execute(w, acts).Some?
    ensures Inv(w, Execute(w, acts).value) && Sound(w, Execute(w, acts).value)
  {
    InvHolds(w, acts);
    if acts == [] {
      forall k ensures Charged(w.log, map[], k, 0, |w.log|) == multiset{} {
        NothingCharged(w.log, k, |w.log|);
      }
    } else {
      var front := acts[..|acts|-1];
      BooksBalance(w, front);
      StepKeepsBooks(w, Execute(w, front).value, acts[|acts|-1]);
    }
  }

  lemma {:induction false} NothingCharged(log: seq<Record>, key: int, n: nat)
    requires n <= |log|
    ensures Charged(log, map[], key, 0, n) == multiset{}
  {
    if n != 0 {
      NothingCharged(log, key, n - 1);
    }
  }

  // ---------- Which records have been charged, and by which calculator ----------

  /** The first occurrences below `n`, and no others, have been applied. */
  ghost predicate AppliedTo(log: seq<Record>, paid: map<string, Call>, n: nat) {
    forall i :: 0 <= i < |log| && Fresh(log, i) ==> (Paid(log, paid, i) <==> i < n)
  }

  /** The records applied are the first occurrences of a prefix of the log, up to the cursor or one beyond. */
  lemma AppliedPrefix(w: World, acts: seq<Action>) returns (n: nat)
    requires Execute(w, acts).Some?
    ensures Execute(w, acts).value.committed <= n <= |w.log| && Passable(w.log, n)
    ensures AppliedTo(w.log, Execute(w, acts).value.paid, n)
  {
    BooksBalance(w, acts);
    var s := Execute(w, acts).value;
    forall i | 0 <= i < s.committed && Valid(w.log[i]) ensures Narrow(w.log[i].data.obu) > 0 {
      if Narrow(w.log[i].data.obu) <= 0 {
        UnbillableRecordBlocks(w, acts, i);
      }
    }
    n := PrefixOf(w, s);
  }

  lemma PrefixOf(w: World, s: State) returns (n: nat)
    requires Inv(w, s) && Sound(w, s) && Passable(w.log, s.committed)
    ensures s.committed <= n <= |w.log| && Passable(w.log, n) && AppliedTo(w.log, s.paid, n)
  {
    var at := s.Cursor();
    n := s.committed;
    if at < |w.log| && Paid(w.log, s.paid, at) {
      EntryStemsFrom(w, s, at);
      n := at + 1;
    }
    forall i | 0 <= i < |w.log| && Fresh(w.log, i) ensures Paid(w.log, s.paid, i) <==> i < n {
      if i < s.committed {
        assert Settled(w, s.store.processed, i);
      } else if Paid(w.log, s.paid, i) {
        EntryStemsFrom(w, s, i);
      }
    }
  }

  /** The entry of a first occurrence stems from that very record. */
  lemma EntryStemsFrom(w: World, s: State, i: nat)
    requires Inv(w, s) && Sound(w, s) && i < |w.log| && Paid(w.log, s.paid, i)
    ensures var call := s.paid[w.log[i].data.eventID];
            && call.at == i && call.start <= i <= s.Cursor() && call.start in s.starts
            && InTurn(s.starts, call) && Narrow(w.log[i].data.obu) > 0
  {
    var id := w.log[i].data.eventID;
    var call := s.paid[id];
    assert ProperEntry(w, s.Cursor(), s.starts, id, call);
    assert call.at == i by {
      assert w.log[call.at].data.eventID == id && Fresh(w.log, call.at) && Fresh(w.log, i);
    }
  }

  /** Below `n`, all first occurrences have been charged, and each calculator charged for a stretch of them. */
  ghost predicate ByTurns(log: seq<Record>, paid: map<string, Call>, n: nat)
    requires n <= |log|
  {
    && (forall i :: 0 <= i < n && Fresh(log, i) ==> Paid(log, paid, i))
    && (forall i, j :: 0 <= j <= i < n && Fresh(log, i) && Fresh(log, j) && StartOf(log, paid, i) < j ==>
          StartOf(log, paid, j) == StartOf(log, paid, i))
  }

  lemma ChargedByTurns(w: World, s: State, n: nat)
    requires Inv(w, s) && Sound(w, s) && n <= |w.log|
    requires forall i :: 0 <= i < n && Fresh(w.log, i) ==> Paid(w.log, s.paid, i)
    ensures ByTurns(w.log, s.paid, n)
  {
    forall i, j | 0 <= j <= i < n && Fresh(w.log, i) && Fresh(w.log, j) && StartOf(w.log, s.paid, i) < j
      ensures StartOf(w.log, s.paid, j) == StartOf(w.log, s.paid, i)
    {
      OneTurn(w, s, i, j);
    }
  }

  lemma OneTurn(w: World, s: State, i: nat, j: nat)
    requires Inv(w, s) && Sound(w, s) && j <= i < |w.log| && Paid(w.log, s.paid, i) && Paid(w.log, s.paid, j)
    requires StartOf(w.log, s.paid, i) < j
    ensures StartOf(w.log, s.paid, j) == StartOf(w.log, s.paid, i)
  {
    EntryStemsFrom(w, s, i);
    EntryStemsFrom(w, s, j);
  }

  lemma {:induction false} ChargedIsLegs(log: seq<Record>, paid: map<string, Call>, key: int, lo: nat, a: nat, n: nat)
    requires a <= n <= |log|
    requires forall i :: a <= i < n && Fresh(log, i) ==> Paid(log, paid, i) && StartOf(log, paid, i) == lo
    ensures Charged(log, paid, key, a, n) == Legs(log, lo, key, a, n)
  {
    if a != n {
      ChargedIsLegs(log, paid, key, lo, a, n - 1);
    }
  }

  lemma {:induction false} ChargedSplits(log: seq<Record>, paid: map<string, Call>, key: int, a: nat, m: nat, n: nat)
    requires a <= m <= n <= |log|
    ensures Charged(log, paid, key, a, n) == Charged(log, paid, key, a, m) + Charged(log, paid, key, m, n)
  {
    if m != n {
      ChargedSplits(log, paid, key, a, m, n - 1);
    }
  }
}
