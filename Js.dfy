/**
 * The few JavaScript value rules the grid layout depends on: optional
 * numbers, truthiness of numbers, and the IEEE-754 results of division and
 * `Math.floor` when a divisor is zero or infinite. Finite values are exact
 * reals (no rounding).
 */
module Js {

  datatype Option<T> = None | Some(value: T)

  /** A number as the layout code can see it after a division. */
  datatype Number = Finite(value: real) | PosInfinity | NegInfinity | NaN

  /** `x` is truthy: present and not zero (`undefined`, `null` and `0` are falsy). */
  predicate Truthy(x: Option<real>) {
    x.Some? && x.value != 0.0
  }

  /** `a || b` on optional numbers: the first operand when it is truthy, else the second. */
  function Or(a: Option<real>, b: real): (r: real)
    ensures Truthy(a) ==> r == a.value
    ensures !Truthy(a) ==> r == b
  {
    match a
    case Some(v) => if v != 0.0 then v else b
    case None => b
  }

  /** `a / b` on two finite numbers. */
  function Divide(a: real, b: real): (r: Number)
    ensures r.Finite? <==> b != 0.0
    ensures r.Finite? ==> r.value * b == a
    ensures r == NaN <==> a == 0.0 && b == 0.0
  {
    if b != 0.0 then Finite(a / b)
    else if a > 0.0 then PosInfinity
    else if a < 0.0 then NegInfinity
    else NaN
  }

  /** `a / d` for a finite `a`: a finite over an infinite divisor is zero. */
  function DivideBy(a: real, d: Number): (r: Number)
    ensures d.Finite? ==> r == Divide(a, d.value)
    ensures d.PosInfinity? || d.NegInfinity? ==> r == Finite(0.0)
    ensures d.NaN? ==> r.NaN?
  {
    match d
    case Finite(v) => Divide(a, v)
    case PosInfinity => Finite(0.0)
    case NegInfinity => Finite(0.0)
    case NaN => NaN
  }

  /** `Math.floor(x)`: rounds a finite value down, leaves infinities and NaN alone. */
  function MathFloor(x: Number): (r: Number)
    ensures r.Finite? <==> x.Finite?
    ensures x.Finite? ==> r.value <= x.value < r.value + 1.0 && r.value == r.value.Floor as real
    ensures !x.Finite? ==> r == x
  {
    match x
    case Finite(v) => Finite(v.Floor as real)
    case _ => x
  }

  /** The number is a whole number, as `Math.floor` returns for finite inputs. */
  predicate IsInteger(x: Number) {
    x.Finite? && x.value == x.value.Floor as real
  }
}
