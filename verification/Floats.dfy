/**
 Floating-point values as the modelled code sees them: exact reals plus the three IEEE specials,
 with the comparisons and the addition the source relies on. Rounding is not modelled.
 */
module Floats {

  datatype Float = NaN | NegInf | Fin(v: real) | PosInf

  /** IEEE `<`: false whenever either side is NaN. */
  predicate Lt(a: Float, b: Float) {
    match (a, b)
    case (Fin(x), Fin(y)) => x < y
    case (NegInf, Fin(_)) => true
    case (NegInf, PosInf) => true
    case (Fin(_), PosInf) => true
    case _ => false
  }

  /** IEEE `<=`. */
  predicate Le(a: Float, b: Float) {
    Lt(a, b) || (a == b && a != NaN)
  }

  /** IEEE `+`: opposite infinities and NaN give NaN. */
  function Add(a: Float, b: Float): Float {
    match (a, b)
    case (NaN, _) => NaN
    case (_, NaN) => NaN
    case (Fin(x), Fin(y)) => Fin(x + y)
    case (PosInf, NegInf) => NaN
    case (NegInf, PosInf) => NaN
    case (PosInf, _) => PosInf
    case (_, PosInf) => PosInf
    case _ => NegInf
  }

  /** IEEE `-`. */
  function Sub(a: Float, b: Float): Float {
    Add(a, match b case Fin(x) => Fin(-x) case PosInf => NegInf case NegInf => PosInf case NaN => NaN)
  }

  /** Rust's `f64::min`: a NaN yields to the other side. */
  function FMin(a: Float, b: Float): Float { if a.NaN? || Lt(b, a) then b else a }

  /** Rust's `f64::max`: a NaN yields to the other side. */
  function FMax(a: Float, b: Float): Float { if a.NaN? || Lt(a, b) then b else a }

  function Pow2(k: nat): (p: nat)
    ensures p > 0
  {
    if k == 0 then 1 else 2 * Pow2(k - 1)
  }

  function Min(a: real, b: real): real { if a <= b then a else b }

  function Max(a: real, b: real): real { if a >= b then a else b }

  function Abs(a: real): real { if a < 0.0 then -a else a }

  /** Rust's `clamp`, whose caller must order the bounds. */
  function Clamp(a: real, lo: real, hi: real): (r: real)
    requires lo <= hi
    ensures lo <= r <= hi
  {
    if a < lo then lo else if a > hi then hi else a
  }

  /** `round_ties_even`: the nearest integer, the even one of two. */
  function RoundTiesEven(x: real): (r: int)
    ensures Abs(x - r as real) <= 0.5 && (Abs(x - r as real) == 0.5 ==> r % 2 == 0)
  {
    var f := x.Floor;
    var d := x - f as real;
    if d < 0.5 then f else if d > 0.5 then f + 1 else if f % 2 == 0 then f else f + 1
  }

  /** Rust's `round`: half away from zero. */
  function RoundHalfAway(x: real): (r: int)
    ensures Abs(x - r as real) <= 0.5 && (Abs(x - r as real) == 0.5 ==> Abs(r as real) >= Abs(x))
  {
    if x >= 0.0 then (x + 0.5).Floor else -((0.5 - x).Floor)
  }
}
