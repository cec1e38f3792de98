/** The slice of JavaScript number semantics the components rely on: a
    quotient of two integers may be infinite or NaN, and comparisons against
    NaN are false. Finite values are exact rationals (rounding of IEEE doubles
    is not modelled). */
module JsNumber {

  datatype Num = Finite(v: real) | PosInf | NegInf | NaN

  /** `a / b` on JavaScript numbers. */
  function Div(a: int, b: int): (n: Num)
    ensures b != 0 ==> n == Finite(a as real / b as real)
    ensures b == 0 ==> (n == PosInf <==> a > 0) && (n == NegInf <==> a < 0) && (n == NaN <==> a == 0)
  {
    if b != 0 then Finite(a as real / b as real)
    else if a > 0 then PosInf
    else if a < 0 then NegInf
    else NaN
  }

  /** Multiplication by a positive constant, which keeps infinities and NaN. */
  function Scale(n: Num, c: real): (m: Num)
    requires c > 0.0
    ensures n.Finite? <==> m.Finite?
    ensures n.Finite? ==> m.v == n.v * c
    ensures !n.Finite? ==> m == n
  {
    if n.Finite? then Finite(n.v * c) else n
  }

  /** `n >= c`: false for NaN and for negative infinity. */
  predicate AtLeast(n: Num, c: real)
  {
    match n
    case Finite(v) => v >= c
    case PosInf => true
    case NegInf => false
    case NaN => false
  }

  /** `n < c`: false for NaN and for positive infinity. */
  predicate Below(n: Num, c: real)
  {
    match n
    case Finite(v) => v < c
    case PosInf => false
    case NegInf => true
    case NaN => false
  }

  /** NaN is the one value for which `n >= c` and `n < c` are both false. */
  lemma AtLeastOrBelow(n: Num, c: real)
    ensures AtLeast(n, c) || Below(n, c) || n == NaN
    ensures !(AtLeast(n, c) && Below(n, c))
  {
  }

  /** `(a / b) * 100` as a JavaScript number. */
  function PercentOf(a: int, b: int): (n: Num)
    ensures b != 0 ==> n == Finite(a as real * 100.0 / b as real)
    ensures b == 0 ==> n == Div(a, 0)
  {
    Scale(Div(a, b), 100.0)
  }

  /** `Math.round(100 * part / whole)` for a positive whole: the integer
      nearest to the exact percentage, halves rounded up. */
  function RoundedPercent(part: nat, whole: nat): (r: int)
    requires whole > 0
    ensures 2 * r * whole - whole <= 200 * part < 2 * r * whole + whole
    ensures part <= whole ==> 0 <= r <= 100
  {
    var r := (200 * part + whole) / (2 * whole);
    RoundedPercentBounds(part, whole, r);
    r
  }

  lemma RoundedPercentBounds(part: nat, whole: nat, r: int)
    requires whole > 0 && r == (200 * part + whole) / (2 * whole)
    ensures 2 * r * whole - whole <= 200 * part < 2 * r * whole + whole
    ensures part <= whole ==> 0 <= r <= 100
  {
    Bracket(200 * part + whole, 2 * whole, r);
    assert r * (2 * whole) == 2 * r * whole;
    if part <= whole {
      assert 200 * part + whole < 2 * whole * 101;
      UpperBound(200 * part + whole, 2 * whole, r, 101);
    }
  }

  lemma Bracket(a: int, b: int, q: int)
    requires b > 0 && a >= 0 && q == a / b
    ensures q * b <= a < q * b + b
  {
  }

  lemma UpperBound(a: int, b: int, q: int, k: int)
    requires b > 0 && a >= 0 && q == a / b && a < b * k
    ensures q < k
  {
    Bracket(a, b, q);
    if q >= k {
      assert q * b >= k * b by { MulLe(k, q, b); }
      assert false;
    }
  }

  lemma MulLe(x: int, y: int, b: int)
    requires x <= y && b > 0
    ensures x * b <= y * b
  {
    assert y * b - x * b == (y - x) * b;
  }
}
