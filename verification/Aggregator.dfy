/**
  The aggregator's objects: `MemoryStore`, `InvoiceAggregator` and `MetricsMiddleWare`.
  Each method is proved against the functions of `Store`.
 */
module Aggregator {
  import opened Types
  import opened Words
  import opened Fingerprints
  import S = Store

  const BASE_PRICE := 3.15

  class MemoryStore {
    const fingerprint: Fingerprint
    var data: map<int, Float>
    var processed: set<string>
    var reconcile: Reconciliation

    constructor (fingerprint: Fingerprint)
      ensures Contents() == S.EMPTY && this.fingerprint == fingerprint
    {
      this.fingerprint := fingerprint;
      data, processed, reconcile := map[], {}, ZERO;
    }

    function Contents(): S.State
      reads this
    {
      S.State(data, processed, reconcile)
    }

    method Insert(d: Distance) returns (applied: bool)
      modifies this
      ensures (Contents(), applied) == S.Insert(fingerprint, old(Contents()), d)
      ensures applied <==> d.eventID == "" || d.eventID !in old(processed)
      ensures processed == old(processed) + if d.eventID == "" then {} else {d.eventID}
      ensures !applied ==> data == old(data) && reconcile == old(reconcile)
      ensures applied ==> data.Keys == old(data).Keys + {d.obu}
      ensures forall o :: o in old(data) && o != d.obu ==> data[o] == old(data)[o]
      ensures applied && d.obu !in old(data) ==> data[d.obu] == d.value
      ensures applied && d.obu in old(data) ==>
                var total := old(data)[d.obu];
                data[d.obu] == if total.Finite? && d.value.Finite? then Finite(total.value + d.value.value) else NonFinite
      ensures applied && d.eventID == "" ==> reconcile == old(reconcile)
      ensures applied && d.eventID != "" ==>
                && reconcile.count == (old(reconcile).count + 1) % 0x1_0000_0000_0000_0000
                && reconcile.sum == (old(reconcile).sum + fingerprint(d.eventID)) % 0x1_0000_0000_0000_0000
                && forall k :: k in reconcile.xor <==>
                               ((k in old(reconcile).xor) != (k < 64 && Bit(fingerprint(d.eventID), k)))
    {
      if d.eventID != "" {
        if d.eventID in processed {
          return false;
        }
        processed := processed + {d.eventID};
        SumIsModular(reconcile.count, 1);
        SumIsModular(reconcile.sum, fingerprint(d.eventID));
        reconcile := Record(fingerprint, reconcile, d.eventID);
      }
      data := S.Credit(data, d.obu, d.value);
      return true;
    }

    method Get(id: int) returns (r: Option<Float>)
      ensures r.None? <==> id !in data
      ensures r.Some? ==> r.value == data[id]
    {
      if id !in data {
        return None;
      }
      return Some(data[id]);
    }
  }

  class InvoiceAggregator {
    const store: MemoryStore

    constructor (store: MemoryStore)
      ensures this.store == store
    {
      this.store := store;
    }

    method AggregateDistance(d: Distance) returns (outcome: S.Outcome)
      modifies store
      ensures (store.Contents(), outcome) == S.Aggregate(store.fingerprint, old(store.Contents()), d)
      ensures outcome == S.Rejected <==>
                d.eventID == "" || d.producedAt <= 0 || d.obu <= 0 || d.value.NonFinite? || d.value.value < 0.0
      ensures outcome == S.Rejected ==> store.Contents() == old(store.Contents())
      ensures outcome == S.Duplicate ==> d.eventID in old(store.processed)
    {
      if d.eventID == "" || d.producedAt <= 0 || d.obu <= 0 || d.value.NonFinite? || d.value.value < 0.0 {
        return S.Rejected;
      }
      var applied := store.Insert(d);
      return if applied then S.Applied else S.Duplicate;
    }

    /**
      The invoice of the stored total, or none if there is no total. Of a store that is the result
      of any sequence of calls: there is an invoice exactly when one of them was applied for this
      OBU, and it charges the distance owed, each event ID counted once.
     */
    method CalculateInvoice(id: int, ghost calls: seq<Distance>) returns (invoice: Option<Invoice>)
      ensures invoice.Some? <==> id in store.data
      ensures invoice.Some? ==>
                && invoice.value.obu == id && invoice.value.totalDist == store.data[id]
                && invoice.value.amount ==
                   if store.data[id].Finite? then Finite(store.data[id].value * 3.15) else NonFinite
      ensures store.Contents() == S.Serve(store.fingerprint, calls) ==>
                && (invoice.Some? <==> id in S.Vehicles(calls))
                && (invoice.Some? ==>
                      && invoice.value.totalDist == Finite(S.Owed(calls, id))
                      && invoice.value.amount == Finite(S.Owed(calls, id) * 3.15))
    {
      S.StoreInvariant(store.fingerprint, calls);
      var dist := store.Get(id);
      if dist.None? {
        return None;
      }
      return Some(Invoice(id, dist.value, dist.value.Times(BASE_PRICE)));
    }
  }

  /** `MetricsMiddleWare`, with its Prometheus counters and pipeline histogram as plain fields. */
  class MetricsMiddleware {
    const next: InvoiceAggregator
    var applied: nat
    var duplicates: nat
    var latencies: seq<real>
    var durations: seq<real>
    /** Every call made so far; nothing reads it at run time. */
    ghost var calls: seq<Distance>

    constructor (next: InvoiceAggregator)
      requires next.store.Contents() == S.EMPTY
      ensures this.next == next && calls == [] && Valid()
    {
      this.next := next;
      applied, duplicates, latencies, durations, calls := 0, 0, [], [], [];
    }

    ghost predicate Valid()
      reads this, next.store
    {
      && next.store.Contents() == S.Serve(next.store.fingerprint, calls)
      && applied == Count(calls, S.Applied, next.store.fingerprint)
      && duplicates == Count(calls, S.Duplicate, next.store.fingerprint)
      && |latencies| <= applied && |durations| == |calls|
    }

    /**
      Every call leaves a duration. Only applied events count as applied and leave a latency sample,
      and only when the clock did not step back; rejected calls move neither counter.
     */
    method AggregateDistance(d: Distance, elapsed: real, took: real) returns (outcome: S.Outcome)
      requires Valid()
      modifies this, next.store
      ensures Valid() && calls == old(calls) + [d]
      ensures outcome == OutcomeOf(next.store.fingerprint, calls, |calls| - 1)
      ensures latencies == old(latencies) + if outcome == S.Applied && elapsed >= 0.0 then [elapsed] else []
      ensures durations == old(durations) + [took]
    {
      outcome := next.AggregateDistance(d);
      durations := durations + [took];
      if outcome == S.Applied {
        applied := applied + 1;
        if d.producedAt > 0 && elapsed >= 0.0 {
          latencies := latencies + [elapsed];
        }
      } else if outcome == S.Duplicate {
        duplicates := duplicates + 1;
      }
      calls := calls + [d];
      assert calls[..|calls|-1] == old(calls);
    }
  }

  /** How many of the calls ended with the given outcome. */
  ghost function Count(calls: seq<Distance>, outcome: S.Outcome, fp: Fingerprint): nat {
    if calls == [] then 0
    else
      var i := |calls| - 1;
      Count(calls[..i], outcome, fp) + if OutcomeOf(fp, calls, i) == outcome then 1 else 0
  }

  ghost function OutcomeOf(fp: Fingerprint, calls: seq<Distance>, i: nat): S.Outcome
    requires i < |calls|
  {
    S.Aggregate(fp, S.Serve(fp, calls[..i]), calls[i]).1
  }

  /**
    Conservation: every call is applied, a duplicate or rejected, and there are as many applied
    calls as distinct acceptable event IDs.
   */
  lemma {:induction false} OutcomesAddUp(fp: Fingerprint, calls: seq<Distance>)
    ensures Count(calls, S.Applied, fp) + Count(calls, S.Duplicate, fp) + Count(calls, S.Rejected, fp) == |calls|
    ensures Count(calls, S.Applied, fp) == |S.EventIDs(calls)|
  {
    if calls != [] {
      var i := |calls| - 1;
      OutcomesAddUp(fp, calls[..i]);
      AppliedAddsOneID(fp, calls);
      var out := OutcomeOf(fp, calls, i);
      assert out == S.Applied || out == S.Duplicate || out == S.Rejected;
    }
  }

  lemma AppliedAddsOneID(fp: Fingerprint, calls: seq<Distance>)
    requires calls != []
    ensures var i := |calls| - 1;
            |S.EventIDs(calls)| == |S.EventIDs(calls[..i])| + if OutcomeOf(fp, calls, i) == S.Applied then 1 else 0
  {
    var i := |calls| - 1;
    var before, after, id := S.EventIDs(calls[..i]), S.EventIDs(calls), calls[i].eventID;
    var applied := OutcomeOf(fp, calls, i) == S.Applied;
    assert applied <==> S.First(calls, i) by {
      S.OutcomeMeaning(fp, calls, i);
    }
    assert after == (if applied then before + {id} else before) && (applied ==> id !in before) by {
      S.PrefixSets(calls);
    }
  }
}
