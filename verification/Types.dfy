/**
  The records that travel through the pipeline (`types/types.go`) and the
  conversions applied to them on the way.
 */
module Types {

  datatype Option<+T> = None | Some(value: T)

  /** A float64: a finite number, taken as a mathematical real, or one of NaN, +Inf, -Inf. */
  datatype Float = Finite(value: real) | NonFinite {

    /** Addition; it overflows nowhere, and a non-finite operand is absorbing. */
    function Plus(that: Float): Float {
      if Finite? && that.Finite? then Finite(value + that.value) else NonFinite
    }

    function Times(factor: real): Float {
      if Finite? then Finite(value * factor) else NonFinite
    }

    /** The magnitude billed for this value; non-finite values are never billed. */
    function Amount(): real {
      if Finite? then value else 0.0
    }
  }

  datatype Point = Point(lat: real, lon: real)

  datatype OBUData = OBUData(eventID: string, producedAt: int, obu: int, point: Point)

  datatype Distance = Distance(eventID: string, producedAt: int, value: Float, obu: int)

  datatype Invoice = Invoice(obu: int, totalDist: Float, amount: Float)

  /** The XOR is kept as the set of its one-bits. */
  datatype Reconciliation = Reconciliation(count: Word, xor: set<nat>, sum: Word)

  /** `EventIDFingerprint`: any function from event IDs to 64-bit words. */
  type Fingerprint = string -> Word

  /** `calcDist`: any function of the two points. */
  type Metric = (Point, Point) -> Float

  /** The distances `calcDist` promises: finite, non-negative and Euclidean. */
  ghost predicate Euclidean(metric: Metric) {
    forall p, q ::
      && metric(p, q).Finite?
      && metric(p, q).value >= 0.0
      && metric(p, q).value * metric(p, q).value
         == (q.lat - p.lat) * (q.lat - p.lat) + (q.lon - p.lon) * (q.lon - p.lon)
  }

  ghost predicate NonNegative(metric: Metric) {
    forall p, q :: metric(p, q).Finite? && metric(p, q).value >= 0.0
  }

  lemma EuclideanIsNonNegative(metric: Metric)
    requires Euclidean(metric)
    ensures NonNegative(metric)
  {
  }

  type Word = n: nat | n < UINT64

  const UINT64: nat := 0x1_0000_0000_0000_0000
  const MAX_INT32: nat := 0x7fff_ffff

  /** Go's `int32(x)`: keep the low 32 bits, read them as two's complement. */
  function Narrow(x: int): (r: int)
    ensures -0x8000_0000 <= r <= 0x7fff_ffff
    ensures (x - r) % 0x1_0000_0000 == 0
    ensures -0x8000_0000 <= x <= 0x7fff_ffff <==> r == x
  {
    var low := x % 0x1_0000_0000;
    if low <= 0x7fff_ffff then low else low - 0x1_0000_0000
  }

  /** Two OBU IDs share a bill exactly when they differ by a multiple of 2^32. */
  lemma NarrowCollision(x: int, y: int)
    ensures Narrow(x) == Narrow(y) <==> (x - y) % 0x1_0000_0000 == 0
  {
  }
}
