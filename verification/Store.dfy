/**
  The invoice store (`aggregator/store.go`) and the service in front of it
  (`aggregator/service.go`, `aggregator/middleware.go`), as functions on store values.
 */
module Store {
  import opened Types
  import opened Fingerprints

  datatype State = State(data: map<int, Float>, processed: set<string>, reconcile: Reconciliation)

  const EMPTY := State(map[], {}, ZERO)

  /** What one call to the service did. */
  datatype Outcome = Applied | Duplicate | Rejected

  /** `m.data[id] += value`, where an absent total reads as zero. */
  function Credit(data: map<int, Float>, obu: int, value: Float): map<int, Float> {
    data[obu := if obu in data then data[obu].Plus(value) else value]
  }

  function Insert(fp: Fingerprint, s: State, d: Distance): (State, bool) {
    if d.eventID == "" then
      (s.(data := Credit(s.data, d.obu, d.value)), true)
    else if d.eventID in s.processed then
      (s, false)
    else
      (State(Credit(s.data, d.obu, d.value),
             s.processed + {d.eventID},
             Record(fp, s.reconcile, d.eventID)), true)
  }

  predicate Acceptable(d: Distance) {
    && d.eventID != ""
    && d.producedAt > 0
    && d.obu > 0
    && d.value.Finite?
    && d.value.value >= 0.0
  }

  /** `InvoiceAggregator.AggregateDistance`. */
  function Aggregate(fp: Fingerprint, s: State, d: Distance): (State, Outcome) {
    if !Acceptable(d) then (s, Rejected)
    else
      var (s', applied) := Insert(fp, s, d);
      (s', if applied then Applied else Duplicate)
  }

  lemma AggregateFacts(fp: Fingerprint, s: State, d: Distance)
    ensures var (s', outcome) := Aggregate(fp, s, d);
            && s.processed <= s'.processed
            && (outcome == Rejected <==> !Acceptable(d))
            && (Acceptable(d) ==> d.eventID in s'.processed)
            && (d.eventID in s.processed || !Acceptable(d) ==> s' == s)
  {
  }

  /** The store after a sequence of calls to the service. */
  function Serve(fp: Fingerprint, calls: seq<Distance>): State {
    if calls == [] then EMPTY
    else Aggregate(fp, Serve(fp, calls[..|calls|-1]), calls[|calls|-1]).0
  }

  // What the calls should add up to, without reference to the store.

  /** Call `i` is the first acceptable one that carries its event ID. */
  ghost predicate First(calls: seq<Distance>, i: nat) {
    && i < |calls|
    && Acceptable(calls[i])
    && forall j :: 0 <= j < i && Acceptable(calls[j]) ==> calls[j].eventID != calls[i].eventID
  }

  ghost function EventIDs(calls: seq<Distance>): set<string> {
    set i | 0 <= i < |calls| && Acceptable(calls[i]) :: calls[i].eventID
  }

  ghost function Vehicles(calls: seq<Distance>): set<int> {
    set i | 0 <= i < |calls| && Acceptable(calls[i]) && First(calls, i) :: calls[i].obu
  }

  /** The distance owed by `obu`: each event ID is billed once, at its first acceptable call. */
  ghost function Owed(calls: seq<Distance>, obu: int): real {
    if calls == [] then 0.0
    else
      var i := |calls| - 1;
      Owed(calls[..i], obu)
      + if First(calls, i) && calls[i].obu == obu then calls[i].value.Amount() else 0.0
  }

  lemma FirstInPrefix(calls: seq<Distance>, n: nat, i: nat)
    requires i < n <= |calls|
    ensures First(calls[..n], i) == First(calls, i)
  {
  }

  lemma PrefixSets(calls: seq<Distance>)
    requires calls != []
    ensures var i := |calls| - 1;
            && EventIDs(calls) == EventIDs(calls[..i]) + (if Acceptable(calls[i]) then {calls[i].eventID} else {})
            && Vehicles(calls) == Vehicles(calls[..i]) + (if First(calls, i) then {calls[i].obu} else {})
            && (Acceptable(calls[i]) ==> (First(calls, i) <==> calls[i].eventID !in EventIDs(calls[..i])))
  {
    var n := |calls| - 1;
    var p := calls[..n];
    assert forall j :: 0 <= j < n ==> p[j] == calls[j];
    forall i | 0 <= i < n
      ensures First(p, i) == First(calls, i)
    {
      FirstInPrefix(calls, n, i);
    }
    forall id
      ensures id in EventIDs(calls) <==> id in EventIDs(p) || (Acceptable(calls[n]) && id == calls[n].eventID)
    {
      if id in EventIDs(calls) {
        var i :| 0 <= i < |calls| && Acceptable(calls[i]) && calls[i].eventID == id;
        if i < n { assert p[i].eventID == id; }
      }
      if id in EventIDs(p) {
        var i :| 0 <= i < n && Acceptable(p[i]) && p[i].eventID == id;
        assert calls[i].eventID == id;
      }
    }
    forall o
      ensures o in Vehicles(calls) <==> o in Vehicles(p) || (First(calls, n) && o == calls[n].obu)
    {
      if o in Vehicles(calls) {
        var i :| 0 <= i < |calls| && First(calls, i) && calls[i].obu == o;
        if i < n { assert First(p, i) && p[i].obu == o; }
      }
      if o in Vehicles(p) {
        var i :| 0 <= i < n && First(p, i) && p[i].obu == o;
        assert First(calls, i) && calls[i].obu == o;
      }
    }
    if Acceptable(calls[n]) && calls[n].eventID in EventIDs(p) {
      var j :| 0 <= j < n && Acceptable(p[j]) && p[j].eventID == calls[n].eventID;
      assert Acceptable(calls[j]) && !First(calls, n);
    }
  }

  /** The store holds what the calls should add up to. */
  ghost predicate Accounts(fp: Fingerprint, s: State, calls: seq<Distance>) {
    && s.processed == EventIDs(calls)
    && s.reconcile == Digest(fp, s.processed)
    && s.data.Keys == Vehicles(calls)
    && (forall o :: o in s.data ==> s.data[o] == Finite(Owed(calls, o)))
    && (forall o :: o !in s.data ==> Owed(calls, o) == 0.0)
  }

  /**
    After any sequence of calls, however often each is repeated: the processed set is
    exactly the acceptable event IDs, the reconciliation record is its digest, an OBU has a
    total exactly when some event was applied for it, and that total bills each ID once.
   */
  lemma {:induction false} StoreInvariant(fp: Fingerprint, calls: seq<Distance>)
    ensures Accounts(fp, Serve(fp, calls), calls)
  {
    if calls != [] {
      var i := |calls| - 1;
      var front, d := calls[..i], calls[i];
      StoreInvariant(fp, front);
      PrefixSets(calls);
      if First(calls, i) {
        FirstCallIsBilled(fp, Serve(fp, front), calls);
      } else {
        forall o ensures Owed(calls, o) == Owed(front, o) {
        }
        assert Serve(fp, calls) == Serve(fp, front);
      }
    }
  }

  lemma FirstCallIsBilled(fp: Fingerprint, s: State, calls: seq<Distance>)
    requires calls != [] && First(calls, |calls|-1) && Accounts(fp, s, calls[..|calls|-1])
    ensures Accounts(fp, Aggregate(fp, s, calls[|calls|-1]).0, calls)
  {
    var i := |calls| - 1;
    var front, d := calls[..i], calls[i];
    PrefixSets(calls);
    DigestInsert(fp, s.processed, d.eventID);
    forall o ensures Owed(calls, o) == Owed(front, o) + if o == d.obu then d.value.value else 0.0 {
    }
  }

  /** The event IDs of the calls that are billed, in the order in which they came. */
  ghost function FirstIDs(calls: seq<Distance>): seq<string> {
    if calls == [] then []
    else
      var i := |calls| - 1;
      FirstIDs(calls[..i]) + if First(calls, i) then [calls[i].eventID] else []
  }

  lemma {:induction false} RecordIsFold(fp: Fingerprint, calls: seq<Distance>)
    ensures Serve(fp, calls).reconcile == Fold(fp, FirstIDs(calls))
  {
    if calls != [] {
      var i := |calls| - 1;
      var ids := FirstIDs(calls[..i]);
      RecordIsFold(fp, calls[..i]);
      StoreInvariant(fp, calls[..i]);
      RecordStep(fp, Serve(fp, calls[..i]), calls);
      if First(calls, i) {
        FoldExtends(fp, ids, calls[i].eventID);
      } else {
        assert ids + [] == ids;
      }
    }
  }

  lemma RecordStep(fp: Fingerprint, s: State, calls: seq<Distance>)
    requires calls != [] && s.processed == EventIDs(calls[..|calls|-1])
    ensures var i := |calls| - 1;
            Aggregate(fp, s, calls[i]).0.reconcile
            == if First(calls, i) then Record(fp, s.reconcile, calls[i].eventID) else s.reconcile
  {
    PrefixSets(calls);
  }

  /** The reconciliation record counts, adds up and XORs the fingerprints of the billed event IDs, each once. */
  lemma RecordMeaning(fp: Fingerprint, calls: seq<Distance>)
    ensures var r, ids := Serve(fp, calls).reconcile, FirstIDs(calls);
            && r.count == |ids| % 0x1_0000_0000_0000_0000
            && r.sum == PlainSum(fp, ids) % 0x1_0000_0000_0000_0000
            && forall k :: HasBit(r, k) <==> Carrying(fp, ids, k) % 2 == 1
  {
    RecordIsFold(fp, calls);
    FoldMeaning(fp, FirstIDs(calls));
  }

  /** The outcome reported for each call says exactly what happened to it. */
  lemma OutcomeMeaning(fp: Fingerprint, calls: seq<Distance>, i: nat)
    requires i < |calls|
    ensures var out := Aggregate(fp, Serve(fp, calls[..i]), calls[i]).1;
            && (out == Applied <==> First(calls, i))
            && (out == Duplicate <==> Acceptable(calls[i]) && !First(calls, i))
            && (out == Rejected <==> !Acceptable(calls[i]))
  {
    var p := calls[..i+1];
    assert p[..i] == calls[..i] && p[i] == calls[i];
    StoreInvariant(fp, calls[..i]);
    PrefixSets(p);
    FirstInPrefix(calls, i + 1, i);
  }

  /** More calls never lower a total, and never make it disappear. */
  lemma {:induction false} TotalsNeverDecrease(fp: Fingerprint, calls: seq<Distance>, n: nat, obu: int)
    requires n <= |calls| && obu in Serve(fp, calls[..n]).data
    ensures obu in Serve(fp, calls).data
    ensures Serve(fp, calls[..n]).data[obu].Amount() <= Serve(fp, calls).data[obu].Amount()
    decreases |calls|
  {
    if n == |calls| {
      assert calls[..n] == calls;
    } else {
      var front := calls[..|calls|-1];
      assert front[..n] == calls[..n];
      TotalsNeverDecrease(fp, front, n, obu);
      StoreInvariant(fp, front);
    }
  }
}
