/** Event IDs of the load generator (`obu/main.go`): printed numbers that can be read back. */
module EventIdentity {
  import opened Types

  predicate IsDigit(c: char) {
    '0' <= c <= '9'
  }

  function Digit(d: nat): char
    requires d < 10
  {
    '0' + d as char
  }

  function PrintNat(n: nat): string {
    if n < 10 then [Digit(n)] else PrintNat(n / 10) + [Digit(n % 10)]
  }

  /** Go's `%d`. */
  function Print(n: int): string {
    if n < 0 then "-" + PrintNat(-n) else PrintNat(n)
  }

  function EventID(seed: int, runID: int, sequence: nat): string {
    Print(seed) + "-" + Print(runID) + "-" + Print(sequence)
  }

  /** Reads digits while there are any, on top of a value already read. */
  function ScanDigits(s: string, acc: nat): (nat, string) {
    if s == [] || !IsDigit(s[0]) then (acc, s)
    else ScanDigits(s[1..], 10 * acc + (s[0] - '0') as nat)
  }

  /** Reads one number, with its sign. */
  function Scan(s: string): (int, string) {
    if s != [] && s[0] == '-' then
      (-(ScanDigits(s[1..], 0).0 as int), ScanDigits(s[1..], 0).1)
    else
      (ScanDigits(s, 0).0 as int, ScanDigits(s, 0).1)
  }

  /** Reads a number and the dash after it. */
  function Field(s: string): Option<(int, string)> {
    var (n, rest) := Scan(s);
    if rest == [] || rest[0] != '-' then None else Some((n, rest[1..]))
  }

  function Decode(s: string): Option<(int, int, int)> {
    var seed := Field(s);
    if seed.None? then None else
    var runID := Field(seed.value.1);
    if runID.None? then None else
    var (sequence, rest) := Scan(runID.value.1);
    if rest != [] then None else Some((seed.value.0, runID.value.0, sequence))
  }

  predicate NoDigitFirst(s: string) {
    s == [] || !IsDigit(s[0])
  }

  function Shift(acc: nat, n: nat): nat {
    if n < 10 then 10 * acc + n else 10 * Shift(acc, n / 10) + n % 10
  }

  lemma {:induction false} ShiftZero(n: nat)
    ensures Shift(0, n) == n
  {
    if n >= 10 {
      ShiftZero(n / 10);
    }
  }

  lemma {:induction false} ScanStops(s: string, acc: nat)
    requires NoDigitFirst(s)
    ensures ScanDigits(s, acc) == (acc, s)
  {
  }

  lemma {:induction false} ScanPrinted(n: nat, rest: string, acc: nat)
    ensures ScanDigits(PrintNat(n) + rest, acc) == ScanDigits(rest, Shift(acc, n))
    decreases n
  {
    var d := n % 10;
    var tail := [Digit(d)] + rest;
    assert tail[1..] == rest;
    if n < 10 {
      assert PrintNat(n) + rest == tail;
    } else {
      assert PrintNat(n) + rest == PrintNat(n / 10) + tail;
      ScanPrinted(n / 10, tail, acc);
    }
  }

  lemma PrintStartsWithDigit(n: nat)
    ensures PrintNat(n) != [] && IsDigit(PrintNat(n)[0])
  {
  }

  lemma ScanReadsBack(n: int, rest: string)
    requires NoDigitFirst(rest)
    ensures Scan(Print(n) + rest) == (n, rest)
  {
    var m: nat := if n < 0 then -n else n;
    ScanPrinted(m, rest, 0);
    ShiftZero(m);
    ScanStops(rest, m);
    PrintStartsWithDigit(m);
    if n < 0 {
      assert (Print(n) + rest)[1..] == PrintNat(m) + rest;
    }
  }

  lemma FieldReadsBack(n: int, rest: string)
    ensures Field(Print(n) + ("-" + rest)) == Some((n, rest))
  {
    ScanReadsBack(n, "-" + rest);
    assert ("-" + rest)[1..] == rest;
  }

  lemma LastReadsBack(n: int)
    ensures Scan(Print(n)) == (n, [])
  {
    ScanReadsBack(n, []);
    assert Print(n) + [] == Print(n);
  }

  lemma Nest(a: string, dash: string, b: string, c: string)
    ensures a + dash + b + dash + c == a + (dash + (b + (dash + c)))
  {
  }

  /** Round trip: seed, run and sequence can be read back from the ID, whatever their signs. */
  lemma DecodeReadsBack(seed: int, runID: int, sequence: nat)
    ensures Decode(EventID(seed, runID, sequence)) == Some((seed, runID, sequence as int))
  {
    var last := Print(sequence);
    var middle := Print(runID) + ("-" + last);
    Nest(Print(seed), "-", Print(runID), last);
    FieldReadsBack(seed, middle);
    FieldReadsBack(runID, last);
    LastReadsBack(sequence);
  }

  /** Hence no two events of a generator share an ID, and neither do two runs or two seeds. */
  lemma EventIDsAreInjective(seed: int, runID: int, sequence: nat, seed': int, runID': int, sequence': nat)
    ensures EventID(seed, runID, sequence) == EventID(seed', runID', sequence')
            <==> seed == seed' && runID == runID' && sequence == sequence'
  {
    DecodeReadsBack(seed, runID, sequence);
    DecodeReadsBack(seed', runID', sequence');
  }
}
