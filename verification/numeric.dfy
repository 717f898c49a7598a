/** JavaScript arithmetic on finite prices, as far as the engine depends on
    it. Prices are exact reals; the only non-finite values the engine can
    produce come from dividing by a zero price, and they are kept apart so
    that the tests applied to them later (truthiness, `>= 0`) can be
    modelled exactly. */
module Numeric {

  /** The value of `a / b` for finite `a` and `b`. */
  datatype Quotient = Finite(value: real) | PosInfinity | NegInfinity | NaN

  /** JavaScript `a / b`. A zero divisor is taken to be positive zero, so
      the sign of an infinite quotient is the sign of `a`. */
  function Divide(a: real, b: real): (q: Quotient)
    ensures q.Finite? <==> b != 0.0
    ensures q.Finite? ==> q.value * b == a
    ensures q == NaN <==> a == 0.0 && b == 0.0
    ensures q == PosInfinity ==> a > 0.0
    ensures q == NegInfinity ==> a < 0.0
  {
    if b != 0.0 then Finite(a / b)
    else if a > 0.0 then PosInfinity
    else if a < 0.0 then NegInfinity
    else NaN
  }

  /** JavaScript `q * k` for a positive finite factor `k`. */
  function ScaleBy(q: Quotient, k: real): (r: Quotient)
    requires k > 0.0
    ensures r.Finite? <==> q.Finite?
    ensures r.Finite? ==> r.value == q.value * k
    ensures !q.Finite? ==> r == q
  {
    match q
    case Finite(v) => Finite(v * k)
    case _ => q
  }

  /** JavaScript truthiness of a number: zero and NaN are falsy. */
  predicate Truthy(q: Quotient)
  {
    match q
    case Finite(v) => v != 0.0
    case PosInfinity => true
    case NegInfinity => true
    case NaN => false
  }

  /** JavaScript `q >= 0`: false for NaN and for negative infinity. */
  predicate AtLeastZero(q: Quotient)
  {
    match q
    case Finite(v) => v >= 0.0
    case PosInfinity => true
    case NegInfinity => false
    case NaN => false
  }
}
