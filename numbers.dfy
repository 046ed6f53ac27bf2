/**
 * The result of a JavaScript division in a model that keeps money as exact reals.
 * Dividing by zero does not fail in JavaScript: it yields NaN (0/0) or an infinity,
 * and every ordered comparison with NaN is false.
 */
module Numbers {

  datatype Num = Finite(value: real) | PosInf | NegInf | NaN

  /** `a / b` as JavaScript evaluates it. */
  function Div(a: real, b: real): (r: Num)
    ensures b != 0.0 ==> r == Finite(a / b)
    ensures b == 0.0 ==> (r == NaN <==> a == 0.0)
    ensures b == 0.0 ==> (r == PosInf <==> a > 0.0) && (r == NegInf <==> a < 0.0)
  {
    if b != 0.0 then Finite(a / b)
    else if a == 0.0 then NaN
    else if a > 0.0 then PosInf
    else NegInf
  }

  /** `(a / b) * 100`, the share of `a` in `b` as a percentage. */
  function Percent(a: real, b: real): (r: Num)
    ensures b != 0.0 ==> r == Finite(a / b * 100.0)
    ensures b == 0.0 ==> !r.Finite?
    ensures r == NaN <==> a == 0.0 && b == 0.0
  {
    match Div(a, b)
    case Finite(q) => Finite(q * 100.0)
    case other => other
  }

  /** `x > bound` in JavaScript; false for NaN, true for +Infinity. */
  predicate Above(x: Num, bound: real) {
    match x
    case Finite(v) => v > bound
    case PosInf => true
    case NegInf => false
    case NaN => false
  }

  function Min(a: real, b: real): real { if a <= b then a else b }

  function Max(a: real, b: real): real { if a >= b then a else b }

  lemma MulNonNegative(x: real, y: real)
    requires x >= 0.0 && y >= 0.0
    ensures x * y >= 0.0
  {
  }

  /** A part of a positive whole is a fraction between 0 and 1 of it. */
  lemma QuotientUnit(a: real, b: real)
    requires b > 0.0 && 0.0 <= a <= b
    ensures 0.0 <= a / b <= 1.0
  {
    var q := a / b;
    assert q * b == a;
    if q > 1.0 {
      ProductMonotone(b, 1.0, q);
    }
  }

  /** Multiplying by a non-negative factor keeps the order. */
  lemma ProductMonotone(a: real, y1: real, y2: real)
    requires a >= 0.0 && y1 <= y2
    ensures a * y1 <= a * y2
  {
    MulNonNegative(a, y2 - y1);
    assert a * y2 - a * y1 == a * (y2 - y1);
  }
}
