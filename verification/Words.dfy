/** Arithmetic on 64-bit words: the wrapping sum of numbers, and XOR on their one-bits. */
module Words {
  import opened Types

  /** Go's `uint64` addition, which wraps around at 2^64. */
  function Sum(a: Word, b: Word): Word {
    if a + b < UINT64 then a + b else a + b - UINT64
  }

  /** Bit `k` of a number, the least significant being bit 0. */
  predicate Bit(n: nat, k: nat) {
    if k == 0 then n % 2 == 1 else Bit(n / 2, k - 1)
  }

  /** A 64-bit word as the set of its one-bits. */
  function Bits(n: Word): set<nat> {
    set k: nat | k < 64 && Bit(n, k)
  }

  /** Go's `a ^ b`: the bits in which two words differ. */
  function Xor(a: set<nat>, b: set<nat>): set<nat> {
    (a - b) + (b - a)
  }

  /** A counter that has been incremented `n` times from zero. */
  function Counter(n: nat): Word {
    n % 0x1_0000_0000_0000_0000
  }

  lemma SumCommutes(a: Word, b: Word, c: Word)
    ensures Sum(Sum(a, b), c) == Sum(Sum(a, c), b)
  {
  }

  lemma SumAssociates(a: Word, b: Word, c: Word)
    ensures Sum(Sum(a, b), c) == Sum(a, Sum(b, c))
  {
  }

  lemma SumCancels(a: Word, b: Word, c: Word)
    ensures Sum(a, b) == Sum(a, c) <==> b == c
  {
  }

  lemma CounterSteps(n: nat)
    ensures Counter(n + 1) == Sum(Counter(n), 1)
    ensures n < UINT64 ==> Counter(n) == n
  {
  }

  lemma XorCommutes(a: set<nat>, b: set<nat>, c: set<nat>)
    ensures Xor(Xor(a, b), c) == Xor(Xor(a, c), b)
  {
  }

  lemma XorAssociates(a: set<nat>, b: set<nat>, c: set<nat>)
    ensures Xor(Xor(a, b), c) == Xor(a, Xor(b, c))
  {
  }

  lemma XorCancels(a: set<nat>, b: set<nat>, c: set<nat>)
    ensures Xor(a, b) == Xor(a, c) <==> b == c
  {
  }

  function Pow2(k: nat): nat {
    if k == 0 then 1 else 2 * Pow2(k - 1)
  }

  /** The number with these one-bits: the sum of their powers of two, bit positions below `width`. */
  function Value(bits: set<nat>, width: nat): nat {
    if width == 0 then 0
    else Value(bits, width - 1) + if width - 1 in bits then Pow2(width - 1) else 0
  }

  ghost function Halve(bits: set<nat>): set<nat> {
    set k | k in bits && k > 0 :: k - 1
  }

  lemma {:induction false} ValueHalves(bits: set<nat>, width: nat)
    requires width > 0
    ensures Value(bits, width) == 2 * Value(Halve(bits), width - 1) + if 0 in bits then 1 else 0
  {
    if width > 1 {
      ValueHalves(bits, width - 1);
      assert width - 2 in Halve(bits) <==> width - 1 in bits;
    } else {
      assert Value(bits, 0) == 0 && Pow2(0) == 1;
    }
  }

  lemma {:induction false} BitsBelowDenote(n: nat, bits: set<nat>, bound: nat, width: nat)
    requires n < bound && Fits(bound, width)
    requires forall k: nat :: k < width ==> (k in bits <==> Bit(n, k))
    ensures Value(bits, width) == n
    decreases width
  {
    if width != 0 {
      forall k: nat | k < width - 1 ensures k in Halve(bits) <==> Bit(n / 2, k) {
        assert k in Halve(bits) <==> k + 1 in bits;
        assert Bit(n, k + 1) == Bit(n / 2, k);
      }
      BitsBelowDenote(n / 2, Halve(bits), (bound + 1) / 2, width - 1);
      ValueHalves(bits, width);
      assert 0 in bits <==> Bit(n, 0);
    }
  }

  /** `bound` is at most 2^width. */
  predicate Fits(bound: nat, width: nat) {
    if width == 0 then bound <= 1 else Fits((bound + 1) / 2, width - 1)
  }

  lemma FitsTimes16(bound: nat, width: nat)
    requires Fits(bound, width)
    ensures Fits(16 * bound, width + 4)
  {
    assert Fits(2 * bound, width + 1);
    assert Fits(4 * bound, width + 2);
    assert Fits(8 * bound, width + 3);
  }

  lemma FitsTimes65536(bound: nat, width: nat)
    requires Fits(bound, width)
    ensures Fits(0x1_0000 * bound, width + 16)
  {
    FitsTimes16(bound, width);
    FitsTimes16(16 * bound, width + 4);
    FitsTimes16(256 * bound, width + 8);
    FitsTimes16(4096 * bound, width + 12);
  }

  lemma WordsFit()
    ensures Fits(UINT64, 64)
  {
    FitsTimes65536(1, 0);
    FitsTimes65536(0x1_0000, 16);
    FitsTimes65536(0x1_0000_0000, 32);
    FitsTimes65536(0x1_0000_0000_0000, 48);
  }

  /** The one-bits of a word, at positions below 64, denote the word. */
  lemma BitsDenote(n: Word)
    ensures Value(Bits(n), 64) == n
    ensures forall k :: k in Bits(n) ==> k < 64
  {
    WordsFit();
    BitsBelowDenote(n, Bits(n), UINT64, 64);
  }

  /** The one-bits determine the word. */
  lemma BitsAreInjective(n: Word, m: Word)
    ensures Bits(n) == Bits(m) <==> n == m
  {
    BitsDenote(n);
    BitsDenote(m);
  }

  /** A bit of `a ^ b` is set if it differs in `a` and `b`. */
  lemma XorIsBitwise(a: set<nat>, b: set<nat>, k: nat)
    ensures k in Xor(a, b) <==> ((k in a) != (k in b))
    ensures Xor(a, a) == {}
  {
  }

  lemma SumIsModular(a: Word, b: Word)
    ensures Sum(a, b) == (a + b) % 0x1_0000_0000_0000_0000
  {
  }

  // ---------- Totals over several contributors ----------

  function Total(xs: seq<int>): int {
    if xs == [] then 0 else Total(xs[..|xs|-1]) + xs[|xs|-1]
  }

  function SumTotal(ws: seq<Word>): Word {
    if ws == [] then 0 else Sum(SumTotal(ws[..|ws|-1]), ws[|ws|-1])
  }

  function XorTotal(bs: seq<set<nat>>): set<nat> {
    if bs == [] then {} else Xor(XorTotal(bs[..|bs|-1]), bs[|bs|-1])
  }

  lemma PrefixOfUpdate<T>(xs: seq<T>, c: nat, x: T)
    requires c < |xs|
    ensures xs[c := x][..|xs|-1] == if c == |xs| - 1 then xs[..|xs|-1] else xs[..|xs|-1][c := x]
  {
  }

  lemma {:induction false} TotalMoves(xs: seq<int>, c: nat, x: int)
    requires c < |xs|
    ensures Total(xs[c := x]) == Total(xs) - xs[c] + x
  {
    PrefixOfUpdate(xs, c, x);
    if c != |xs| - 1 {
      TotalMoves(xs[..|xs|-1], c, x);
    }
  }

  lemma {:induction false} SumMoves(ws: seq<Word>, c: nat, h: Word)
    requires c < |ws|
    ensures SumTotal(ws[c := Sum(ws[c], h)]) == Sum(SumTotal(ws), h)
  {
    var n := |ws| - 1;
    PrefixOfUpdate(ws, c, Sum(ws[c], h));
    if c != n {
      SumMoves(ws[..n], c, h);
      SumCommutes(SumTotal(ws[..n]), h, ws[n]);
    }
  }

  lemma {:induction false} XorMoves(bs: seq<set<nat>>, c: nat, h: set<nat>)
    requires c < |bs|
    ensures XorTotal(bs[c := Xor(bs[c], h)]) == Xor(XorTotal(bs), h)
  {
    var n := |bs| - 1;
    PrefixOfUpdate(bs, c, Xor(bs[c], h));
    if c == n {
      XorAssociates(XorTotal(bs[..n]), bs[n], h);
    } else {
      XorMoves(bs[..n], c, h);
      XorCommutes(XorTotal(bs[..n]), h, bs[n]);
    }
  }

  lemma {:induction false} TotalOfZeros(xs: seq<int>)
    requires forall i :: 0 <= i < |xs| ==> xs[i] == 0
    ensures Total(xs) == 0
  {
    if xs != [] {
      TotalOfZeros(xs[..|xs|-1]);
    }
  }

  lemma {:induction false} SumOfZeros(ws: seq<Word>)
    requires forall i :: 0 <= i < |ws| ==> ws[i] == 0
    ensures SumTotal(ws) == 0
  {
    if ws != [] {
      SumOfZeros(ws[..|ws|-1]);
    }
  }

  lemma {:induction false} XorOfEmpties(bs: seq<set<nat>>)
    requires forall i :: 0 <= i < |bs| ==> bs[i] == {}
    ensures XorTotal(bs) == {}
  {
    if bs != [] {
      XorOfEmpties(bs[..|bs|-1]);
    }
  }
}
