/** Python floating-point values as the prediction core uses them: finite values are
    exact rationals, and NaN (pandas' mean of nothing) propagates through arithmetic. */
module Floats {

  datatype Float = Finite(v: real) | NaN

  function Add(a: Float, b: Float): (r: Float)
    ensures r.Finite? <==> a.Finite? && b.Finite?
    ensures r.Finite? ==> r.v == a.v + b.v
  {
    if a.Finite? && b.Finite? then Finite(a.v + b.v) else NaN
  }

  function Scale(a: Float, k: real): (r: Float)
    ensures r.Finite? <==> a.Finite?
    ensures r.Finite? ==> r.v == a.v * k
  {
    if a.Finite? then Finite(a.v * k) else NaN
  }

  /** Python's `round(x)` on an exactly known value: the nearest integer, and the
      even one of the two nearest on a tie. */
  function RoundHalfEven(x: real): (r: int)
    ensures -0.5 <= x - r as real <= 0.5
    ensures x - r as real == 0.5 || r as real - x == 0.5 ==> r % 2 == 0
  {
    var f := x.Floor;
    var frac := x - f as real;
    if frac < 0.5 then f
    else if frac > 0.5 then f + 1
    else if f % 2 == 0 then f
    else f + 1
  }

  /** `x` is a whole number of hundredths. */
  predicate IsCents(x: real) {
    (x * 100.0).Floor as real == x * 100.0
  }

  /** Python's `round(x, 2)`: the nearest multiple of 0.01, half to even. */
  function Round2(x: real): (r: real)
    ensures IsCents(r)
    ensures -0.005 <= x - r <= 0.005
  {
    var n := RoundHalfEven(x * 100.0);
    var r := n as real / 100.0;
    assert r * 100.0 == n as real;
    assert (n as real).Floor == n;
    r
  }

  /** Rounding to the nearest integer never reverses the order of two values. */
  lemma RoundHalfEvenMonotone(x: real, y: real)
    requires x <= y
    ensures RoundHalfEven(x) <= RoundHalfEven(y)
  {
  }
}
