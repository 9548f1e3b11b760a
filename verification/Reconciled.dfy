/** From the load generator's summary to the aggregator's record, through every run of the pipeline. */
module Reconciled {
  import opened Types
  import opened Words
  import opened Pipeline
  import D = Delivery
  import C = Crashes
  import F = Fingerprints
  import G = LoadGenerator
  import L = LoadRuns
  import S = Store

  lemma AggregateKeepsDigest(fp: Fingerprint, s: S.State, d: Distance)
    requires s.reconcile == F.Digest(fp, s.processed)
    ensures var t := S.Aggregate(fp, s, d).0; t.reconcile == F.Digest(fp, t.processed)
  {
    if S.Acceptable(d) && d.eventID !in s.processed {
      F.DigestInsert(fp, s.processed, d.eventID);
    }
  }

  /** In every run, restarts included, the reconciliation record is the digest of the processed set. */
  lemma {:induction false} RecordIsDigest(w: D.World, acts: seq<D.Action>)
    requires D.Execute(w, acts).Some?
    ensures var store := D.Execute(w, acts).value.store; store.reconcile == F.Digest(w.env.fp, store.processed)
  {
    if acts != [] {
      var front, a := acts[..|acts|-1], acts[|acts|-1];
      RecordIsDigest(w, front);
      StepKeepsDigest(w, D.Execute(w, front).value, a);
    }
  }

  lemma StepKeepsDigest(w: D.World, s: D.State, a: D.Action)
    requires D.Enabled(w, s, a) && s.store.reconcile == F.Digest(w.env.fp, s.store.processed)
    ensures var t := D.Next(w, s, a).store; t.reconcile == F.Digest(w.env.fp, t.processed)
  {
    if a.Deliver? {
      AggregateKeepsDigest(w.env.fp, s.store, s.sent[a.call].request);
    } else {
      assert D.Next(w, s, a).store == s.store;
    }
  }

  /** The event IDs that the log carries. */
  ghost function LogIDs(log: seq<Record>): set<string> {
    set i | 0 <= i < |log| && Valid(log[i]) :: log[i].data.eventID
  }

  /** Only IDs of the log are ever processed, and all of them once everything is committed. */
  lemma ProcessedAreFromLog(w: D.World, acts: seq<D.Action>)
    requires D.Execute(w, acts).Some?
    ensures var s := D.Execute(w, acts).value;
            && s.store.processed <= LogIDs(w.log)
            && (s.committed == |w.log| ==> s.store.processed == LogIDs(w.log))
  {
    C.BooksBalance(w, acts);
    var s := D.Execute(w, acts).value;
    forall id | id in s.store.processed ensures id in LogIDs(w.log) {
      assert C.ProperEntry(w, s.Cursor(), s.starts, id, s.paid[id]);
      assert w.log[s.paid[id].at].data.eventID == id;
    }
    if s.committed == |w.log| {
      forall id | id in LogIDs(w.log) ensures id in s.store.processed {
        var i :| 0 <= i < |w.log| && Valid(w.log[i]) && w.log[i].data.eventID == id;
        D.NothingCommittedIsLost(w, acts, i);
      }
    }
  }

  /**
    End to end: if the log carries exactly the events that the generator wrote, in any order and
    however often, then once it is committed, after any failures and restarts, the aggregator's record is
    the generator's summary.
   */
  lemma SummaryReconciles(cfg: G.Config, s: G.State, acts: seq<G.Action>, w: D.World, acts': seq<D.Action>)
    requires G.Init(cfg, s) && G.Execute(cfg, s, acts).Some? && L.Quiescent(G.Execute(cfg, s, acts).value)
    requires LogIDs(w.log) == F.Elements(G.IDs(cfg, L.Recordings(G.Execute(cfg, s, acts).value.conns)))
    requires w.env.fp == cfg.fp && D.Execute(w, acts').Some? && D.Execute(w, acts').value.committed == |w.log|
    ensures var t := G.Execute(cfg, s, acts).value;
            D.Execute(w, acts').value.store.reconcile == Reconciliation(Counter(t.written), t.xor, t.sum)
  {
    L.SummaryIsDigest(cfg, s, acts);
    RecordIsDigest(w, acts');
    ProcessedAreFromLog(w, acts');
  }
}
