/** Which OBU an event is for, and which connection carries it (`obu/main.go`). */
module Routing {

  /** Fixed mode: `connectionIndex := (data.OBUID - 1) % len(jobs)`. */
  function Connection(obu: nat, conns: nat): nat
    requires obu >= 1 && conns >= 1
  {
    (obu - 1) % conns
  }

  /** Fixed mode: the OBU of the event with this sequence number. */
  function RoundRobin(sequence: nat, obus: nat): nat
    requires sequence >= 1 && obus >= 1
  {
    (sequence - 1) % obus + 1
  }

  lemma Distributes(a: int, b: int, d: int)
    ensures (a + b) * d == a * d + b * d
  {
  }

  lemma MultiplesGrow(a: int, b: int, d: nat)
    requires a <= b
    ensures a * d <= b * d
  {
  }

  lemma SameQuotient(q: int, r: nat, q': int, r': nat, d: nat)
    requires r < d && r' < d && q * d + r == q' * d + r'
    ensures q == q' && r == r'
  {
    Distributes(q, q' - q, d);
    if q < q' {
      MultiplesGrow(1, q' - q, d);
    } else if q > q' {
      MultiplesGrow(q' - q, -1, d);
    }
  }

  lemma DivisionIsUnique(n: nat, q: nat, r: nat, d: nat)
    requires r < d && n == q * d + r
    ensures n % d == r && n / d == q
  {
    SameQuotient(n / d, n % d, q, r, d);
  }

  lemma DivisionIsUniqueForInts(n: nat, q: int, r: nat, d: nat)
    requires r < d && n == q * d + r
    ensures n % d == r
  {
    if q < 0 {
      MultiplesGrow(q, -1, d);
    }
    DivisionIsUnique(n, if q < 0 then 0 else q, r, d);
  }

  /** How quotient and remainder move when the dividend is incremented. */
  lemma NextQuotient(n: nat, d: nat)
    requires d >= 1
    ensures n % d + 1 < d ==> (n + 1) / d == n / d && (n + 1) % d == n % d + 1
    ensures n % d + 1 == d ==> (n + 1) / d == n / d + 1 && (n + 1) % d == 0
  {
    var q, r := n / d, n % d;
    if r + 1 < d {
      DivisionIsUnique(n + 1, q, r + 1, d);
    } else {
      Distributes(q, 1, d);
      DivisionIsUnique(n + 1, q + 1, 0, d);
    }
  }

  /**
    Max mode: the OBUs assigned to one connection, collected by striding. They are exactly those
    that fixed mode would route to it, in increasing order and without repetition, and they fit
    the reserved capacity.
   */
  method AssignedOBUs(conn: nat, obus: nat, conns: nat) returns (ids: seq<nat>)
    requires conn < conns
    ensures forall k :: 0 <= k < |ids| ==> ids[k] == conn + 1 + k * conns
    ensures forall o: nat :: o in ids <==> 1 <= o <= obus && Connection(o, conns) == conn
    ensures |ids| <= (obus + conns - 1) / conns
  {
    ids := [];
    var obu := conn + 1;
    while obu <= obus
      invariant obu == conn + 1 + |ids| * conns
      invariant forall k :: 0 <= k < |ids| ==> ids[k] == conn + 1 + k * conns && ids[k] <= obus
      invariant |ids| * conns <= obus + conns - 1
      decreases obus + 1 - obu
    {
      Distributes(|ids|, 1, conns);
      ids := ids + [obu];
      obu := obu + conns;
    }
    StrideIsRoute(conn, obus, conns, ids);
    QuotientBound(obus + conns - 1, |ids|, conns);
  }

  lemma StrideIsRoute(conn: nat, obus: nat, conns: nat, ids: seq<nat>)
    requires conn < conns
    requires forall k :: 0 <= k < |ids| ==> ids[k] == conn + 1 + k * conns && ids[k] <= obus
    requires conn + 1 + |ids| * conns > obus
    ensures forall o: nat :: o in ids <==> 1 <= o <= obus && Connection(o, conns) == conn
  {
    forall o: nat | o in ids ensures 1 <= o <= obus && Connection(o, conns) == conn {
      var k :| 0 <= k < |ids| && ids[k] == o;
      MultiplesGrow(0, k, conns);
      DivisionIsUnique(o - 1, k, conn, conns);
    }
    forall o: nat | 1 <= o <= obus && Connection(o, conns) == conn ensures o in ids {
      var k := (o - 1) / conns;
      assert o == conn + 1 + k * conns;
      if k >= |ids| {
        MultiplesGrow(|ids|, k, conns);
        assert false;
      }
      assert ids[k] == o;
    }
  }

  lemma QuotientBound(total: nat, n: nat, d: nat)
    requires d >= 1 && n * d <= total
    ensures n <= total / d
  {
    var q := total / d;
    Distributes(q, 1, d);
    if q < n {
      MultiplesGrow(q + 1, n, d);
    }
  }

  lemma RoundRobinRotates(n: nat, obus: nat)
    requires n >= 1 && obus >= 1
    ensures 1 <= RoundRobin(n, obus) <= obus && (n - RoundRobin(n, obus)) % obus == 0
  {
    var q := (n - 1) / obus;
    assert n - RoundRobin(n, obus) == q * obus + 0;
    MultiplesGrow(0, q, obus);
    DivisionIsUnique(n - RoundRobin(n, obus), q, 0, obus);
  }

  /** How many of the first `n` events round-robin offers to this OBU. */
  ghost function Offered(n: nat, obus: nat, obu: nat): nat
    requires obus >= 1
  {
    if n == 0 then 0 else Offered(n - 1, obus, obu) + if RoundRobin(n, obus) == obu then 1 else 0
  }

  /** Round-robin is fair: the offered counts of any two OBUs differ by at most one. */
  lemma {:induction false} RoundRobinIsFair(n: nat, obus: nat, obu: nat)
    requires 1 <= obu <= obus
    ensures Offered(n, obus, obu) == n / obus + if obu <= n % obus then 1 else 0
  {
    if n != 0 {
      RoundRobinIsFair(n - 1, obus, obu);
      NextQuotient(n - 1, obus);
    } else {
      DivisionIsUnique(0, 0, 0, obus);
    }
  }
}
