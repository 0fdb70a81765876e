/**
 * JavaScript numbers as the core uses them: a finite value, NaN or one of the
 * two infinities. Finite values are exact reals, so IEEE-754 rounding and the
 * sign of zero are not modelled; everything else follows the Number operations
 * of ECMA-262 (section 6.1.6.1).
 */
module JsNumber {
  import opened Wrappers

  datatype Num = Fin(v: real) | NaN | PosInf | NegInf

  /** `isFinite(x)`. */
  predicate IsFinite(x: Num) { x.Fin? }

  /** A value read from an optional field: `undefined` behaves as NaN in arithmetic. */
  function FromOptional(o: Option<real>): Num {
    match o
    case Some(a) => Fin(a)
    case None => NaN
  }

  /** All-finite data is exactly the image of a sequence of reals. */
  function Nums(rs: seq<real>): (r: seq<Num>)
    ensures |r| == |rs|
    ensures forall i :: 0 <= i < |rs| ==> r[i] == Fin(rs[i])
  {
    if rs == [] then [] else Nums(rs[..|rs| - 1]) + [Fin(rs[|rs| - 1])]
  }

  /** -1, 0 or 1: the sign of a non-NaN value. */
  function Sign(x: Num): int {
    match x
    case Fin(a) => if a < 0.0 then -1 else if a == 0.0 then 0 else 1
    case PosInf => 1
    case NegInf => -1
    case NaN => 0
  }

  /** The infinity whose sign is `s` (for a non-zero `s`). */
  function Inf(s: int): Num {
    if s < 0 then NegInf else PosInf
  }

  function Neg(x: Num): Num {
    match x
    case Fin(a) => Fin(-a)
    case NaN => NaN
    case PosInf => NegInf
    case NegInf => PosInf
  }

  /** `x + y`. */
  function Add(x: Num, y: Num): Num {
    match (x, y)
    case (NaN, _) => NaN
    case (_, NaN) => NaN
    case (PosInf, NegInf) => NaN
    case (NegInf, PosInf) => NaN
    case (PosInf, _) => PosInf
    case (NegInf, _) => NegInf
    case (_, PosInf) => PosInf
    case (_, NegInf) => NegInf
    case (Fin(a), Fin(b)) => Fin(a + b)
  }

  /** `x - y`. */
  function Sub(x: Num, y: Num): Num {
    Add(x, Neg(y))
  }

  /** `x * y`. */
  function Mul(x: Num, y: Num): Num {
    if x.NaN? || y.NaN? then NaN
    else if x.Fin? && y.Fin? then Fin(x.v * y.v)
    else if Sign(x) == 0 || Sign(y) == 0 then NaN
    else Inf(Sign(x) * Sign(y))
  }

  /** `x / y`; a zero divisor counts as +0. */
  function Div(x: Num, y: Num): Num {
    if x.NaN? || y.NaN? then NaN
    else if x.Fin? && y.Fin? then
      if y.v != 0.0 then Fin(x.v / y.v)
      else if x.v == 0.0 then NaN
      else Inf(Sign(x))
    else if !x.Fin? && !y.Fin? then NaN
    else if x.Fin? then Fin(0.0)
    else Inf(Sign(x) * (if Sign(y) < 0 then -1 else 1))
  }

  /** `Math.floor(x)`. */
  function Floor(x: Num): Num {
    match x
    case Fin(a) => Fin(a.Floor as real)
    case _ => x
  }

  /** `x < y`: false whenever either side is NaN. */
  predicate Less(x: Num, y: Num) {
    match (x, y)
    case (NaN, _) => false
    case (_, NaN) => false
    case (Fin(a), Fin(b)) => a < b
    case (NegInf, NegInf) => false
    case (NegInf, _) => true
    case (_, PosInf) => !x.PosInf?
    case (_, _) => false
  }

  /** `x >= y`: false whenever either side is NaN. */
  predicate AtLeast(x: Num, y: Num) {
    !x.NaN? && !y.NaN? && !Less(x, y)
  }

  /** `Math.min(x, y)`. */
  function Min2(x: Num, y: Num): Num {
    if x.NaN? || y.NaN? then NaN else if Less(y, x) then y else x
  }

  /** `Math.max(x, y)`. */
  function Max2(x: Num, y: Num): Num {
    if x.NaN? || y.NaN? then NaN else if Less(x, y) then y else x
  }

  /** `Math.min(...xs)`: +Infinity for no arguments, NaN if any argument is NaN. */
  function MinOf(xs: seq<Num>): Num {
    if xs == [] then PosInf else Min2(MinOf(xs[..|xs| - 1]), xs[|xs| - 1])
  }

  /** `Math.max(...xs)`: -Infinity for no arguments, NaN if any argument is NaN. */
  function MaxOf(xs: seq<Num>): Num {
    if xs == [] then NegInf else Max2(MaxOf(xs[..|xs| - 1]), xs[|xs| - 1])
  }

  /** A NaN anywhere in the arguments makes `Math.min` and `Math.max` NaN. */
  lemma {:induction false} NaNAbsorbs(xs: seq<Num>, i: nat)
    requires i < |xs| && xs[i].NaN?
    ensures MinOf(xs).NaN? && MaxOf(xs).NaN?
  {
    if i < |xs| - 1 {
      NaNAbsorbs(xs[..|xs| - 1], i);
    }
  }
}
