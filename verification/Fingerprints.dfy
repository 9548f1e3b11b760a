/**
  The order-independent reconciliation record (`aggregator/store.go`, `obu/main.go`):
  a count, an XOR and a wrapping sum of event-ID fingerprints.
 */
module Fingerprints {
  import opened Types
  import opened Words

  const ZERO := Reconciliation(0, {}, 0)

  /** Records one more event ID. All three components are 64-bit and wrap. */
  function Record(fp: Fingerprint, r: Reconciliation, id: string): Reconciliation {
    Reconciliation(Sum(r.count, 1), Xor(r.xor, Bits(fp(id))), Sum(r.sum, fp(id)))
  }

  /** Records the IDs of a sequence, first to last. */
  function Fold(fp: Fingerprint, ids: seq<string>): Reconciliation {
    if ids == [] then ZERO else Record(fp, Fold(fp, ids[..|ids|-1]), ids[|ids|-1])
  }

  /** The record of a set of IDs, taken in some order. */
  ghost function Digest(fp: Fingerprint, ids: set<string>): Reconciliation
    decreases |ids|
  {
    if ids == {} then ZERO else
      var id :| id in ids;
      Record(fp, Digest(fp, ids - {id}), id)
  }

  ghost predicate Distinct(ids: seq<string>) {
    forall i, j :: 0 <= i < j < |ids| ==> ids[i] != ids[j]
  }

  ghost function Elements(ids: seq<string>): set<string> {
    set id | id in ids
  }

  lemma RecordCommutes(fp: Fingerprint, r: Reconciliation, a: string, b: string)
    ensures Record(fp, Record(fp, r, a), b) == Record(fp, Record(fp, r, b), a)
  {
  }

  /** The order in which `Digest` visits a set does not matter. */
  lemma {:induction false} DigestInsert(fp: Fingerprint, ids: set<string>, id: string)
    requires id !in ids
    ensures Digest(fp, ids + {id}) == Record(fp, Digest(fp, ids), id)
    decreases |ids|
  {
    var all := ids + {id};
    var pick :| pick in all && Digest(fp, all) == Record(fp, Digest(fp, all - {pick}), pick);
    if pick == id {
      assert all - {id} == ids;
    } else {
      var rest := ids - {pick};
      assert all - {pick} == rest + {id};
      assert ids == rest + {pick};
      DigestInsert(fp, rest, id);
      DigestInsert(fp, rest, pick);
      RecordCommutes(fp, Digest(fp, rest), id, pick);
    }
  }

  lemma ElementsExtend(ids: seq<string>)
    requires ids != [] && Distinct(ids)
    ensures var front, last := ids[..|ids|-1], ids[|ids|-1];
            last !in Elements(front) && Elements(ids) == Elements(front) + {last}
  {
    var front, last := ids[..|ids|-1], ids[|ids|-1];
    assert ids == front + [last];
  }

  /** Recording distinct IDs one at a time, in any order, gives the digest of their set. */
  lemma {:induction false} FoldIsDigest(fp: Fingerprint, ids: seq<string>)
    requires Distinct(ids)
    ensures Fold(fp, ids) == Digest(fp, Elements(ids))
    ensures |Elements(ids)| == |ids|
  {
    if ids != [] {
      var front, last := ids[..|ids|-1], ids[|ids|-1];
      FoldIsDigest(fp, front);
      ElementsExtend(ids);
      DigestInsert(fp, Elements(front), last);
    } else {
      assert Elements(ids) == {};
    }
  }

  lemma {:induction false} DigestCount(fp: Fingerprint, ids: set<string>)
    ensures Digest(fp, ids).count == Counter(|ids|)
    decreases |ids|
  {
    if ids != {} {
      var pick :| pick in ids && Digest(fp, ids) == Record(fp, Digest(fp, ids - {pick}), pick);
      var rest := ids - {pick};
      DigestCount(fp, rest);
      assert |ids| == |rest| + 1;
      CounterSteps(|rest|);
      var before := Digest(fp, rest);
      assert Digest(fp, ids) == Record(fp, before, pick);
      assert Digest(fp, ids).count == Sum(before.count, 1);
    }
  }

  lemma FoldExtends(fp: Fingerprint, ids: seq<string>, id: string)
    ensures Fold(fp, ids + [id]) == Record(fp, Fold(fp, ids), id)
  {
    assert (ids + [id])[..|ids|] == ids;
  }

  // ---------- What the record means ----------

  /** The fingerprints added up without wrapping. */
  function PlainSum(fp: Fingerprint, ids: seq<string>): nat {
    if ids == [] then 0 else PlainSum(fp, ids[..|ids|-1]) + fp(ids[|ids|-1])
  }

  /** How many of the fingerprints have bit `k` set. */
  function Carrying(fp: Fingerprint, ids: seq<string>, k: nat): nat {
    if ids == [] then 0
    else Carrying(fp, ids[..|ids|-1], k) + if k < 64 && Bit(fp(ids[|ids|-1]), k) then 1 else 0
  }

  /** Bit `k` is set in a record's XOR. */
  predicate HasBit(r: Reconciliation, k: nat) {
    k in r.xor
  }

  lemma SumStep(total: nat, a: Word)
    ensures Sum(total % 0x1_0000_0000_0000_0000, a) == (total + a) % 0x1_0000_0000_0000_0000
  {
  }

  /**
    The count is the number of IDs and the sum that of their fingerprints, both modulo 2^64; a bit of
    the XOR is set if an odd number of fingerprints have it.
   */
  lemma {:induction false} FoldMeaning(fp: Fingerprint, ids: seq<string>)
    ensures Fold(fp, ids).count == |ids| % 0x1_0000_0000_0000_0000
    ensures Fold(fp, ids).sum == PlainSum(fp, ids) % 0x1_0000_0000_0000_0000
    ensures forall k :: HasBit(Fold(fp, ids), k) <==> Carrying(fp, ids, k) % 2 == 1
  {
    if ids != [] {
      var front, last := ids[..|ids|-1], ids[|ids|-1];
      FoldMeaning(fp, front);
      SumStep(|front|, 1);
      SumStep(PlainSum(fp, front), fp(last));
      forall k ensures HasBit(Fold(fp, ids), k) <==> Carrying(fp, ids, k) % 2 == 1 {
        assert HasBit(Fold(fp, front), k) <==> Carrying(fp, front, k) % 2 == 1;
        assert k in Bits(fp(last)) <==> k < 64 && Bit(fp(last), k);
      }
    }
  }

  /**
    The two sides of the pipeline agree: the generator's fold over the IDs it wrote
    equals the aggregator's digest whenever the same set was applied.
   */
  lemma ReconciliationAgrees(fp: Fingerprint, written: seq<string>, applied: set<string>)
    requires Distinct(written)
    requires Elements(written) == applied
    ensures Fold(fp, written) == Digest(fp, applied)
  {
    FoldIsDigest(fp, written);
  }

  /** If nothing foreign was applied, equal counts below 2^64 leave no event missing. */
  lemma EqualCountsForceEqualSets(fp: Fingerprint, written: set<string>, applied: set<string>)
    requires applied <= written && |written| < UINT64
    ensures Digest(fp, applied).count == Digest(fp, written).count <==> applied == written
  {
    var missing := written - applied;
    assert |written| == |applied| + |missing| by {
      assert written == applied + missing;
    }
    var a, w := Digest(fp, applied).count, Digest(fp, written).count;
    assert a == |applied| && w == |written| by {
      DigestCount(fp, applied);
      DigestCount(fp, written);
      CounterSteps(|applied|);
      CounterSteps(|written|);
    }
  }

  /**
    The exact blind spot of the reconciliation: replacing one event by another goes
    unnoticed, in any of the components, if and only if their fingerprints collide.
   */
  lemma SwapIsSeenUnlessCollision(fp: Fingerprint, common: set<string>, a: string, b: string)
    requires a !in common && b !in common
    ensures Digest(fp, common + {a}).count == Digest(fp, common + {b}).count
    ensures Digest(fp, common + {a}).sum == Digest(fp, common + {b}).sum <==> fp(a) == fp(b)
    ensures Digest(fp, common + {a}).xor == Digest(fp, common + {b}).xor <==> fp(a) == fp(b)
  {
    DigestInsert(fp, common, a);
    DigestInsert(fp, common, b);
    XorCancels(Digest(fp, common).xor, Bits(fp(a)), Bits(fp(b)));
    BitsAreInjective(fp(a), fp(b));
    SumCancels(Digest(fp, common).sum, fp(a), fp(b));
  }
}
