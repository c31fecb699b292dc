/** The scalar conversions the sprite code relies on, on exact reals:
    the C# `(int)` cast of a float (truncation toward zero), `Math.Round`
    (round half to even) and the C# floating-point remainder `%`
    (the result takes the sign of the dividend). */
module Numeric {

  function Abs(r: real): real { if r < 0.0 then -r else r }

  /** The smaller and the larger of two values; the first wins a tie. */
  function Least(a: real, b: real): real { if a <= b then a else b }
  function Greatest(a: real, b: real): real { if a >= b then a else b }

  /** C# `(int)f`: drops the fractional part, rounding toward zero. */
  function Truncate(r: real): (n: int)
    ensures Abs(n as real) <= Abs(r) < Abs(n as real) + 1.0
    ensures 0.0 <= r ==> 0 <= n
    ensures r <= 0.0 ==> n <= 0
  {
    if r >= 0.0 then r.Floor else -((-r).Floor)
  }

  /** `Math.Round(double)`: the nearest integer, a tie going to the even one. */
  function RoundHalfEven(r: real): (n: int)
    ensures Abs(n as real - r) <= 0.5
    ensures Abs(n as real - r) == 0.5 ==> n % 2 == 0
  {
    var f := r.Floor;
    var d := r - f as real;
    if d < 0.5 then f
    else if d > 0.5 then f + 1
    else if f % 2 == 0 then f else f + 1
  }

  lemma RoundOfInteger(k: int)
    ensures RoundHalfEven(k as real) == k
  {
  }

  lemma TruncateOfInteger(k: int)
    ensures Truncate(k as real) == k
  {
  }

  /** The value of `MathHelper.Pi * 2` (a single-precision float in the source). */
  const TwoPi: real := 6.2831855

  /** C# `x % m` on floating-point values, for a positive modulus:
      `x` less `m` times the quotient truncated toward zero. */
  function FloatRem(x: real, m: real): (r: real)
    requires m > 0.0
    ensures Abs(r) < m
    ensures 0.0 <= x ==> 0.0 <= r
    ensures x <= 0.0 ==> r <= 0.0
    ensures ((x - r) / m).Floor as real == (x - r) / m
  {
    var q := Truncate(x / m);
    TruncatedQuotientBounds(x, m);
    MultipleOf(x, q, m);
    x - (q as real) * m
  }

  lemma MulMono(a: real, b: real, m: real)
    requires a <= b && m > 0.0
    ensures a * m <= b * m
    ensures a < b ==> a * m < b * m
  {
    assert (b - a) * m >= 0.0;
    assert a < b ==> (b - a) * m > 0.0;
  }

  lemma MultipleOf(x: real, q: int, m: real)
    requires m > 0.0
    ensures var d := x - (x - (q as real) * m); (d / m).Floor == q && (d / m) == q as real
  {
    var d := x - (x - (q as real) * m);
    assert d == (q as real) * m;
    assert d / m == q as real;
  }

  /** A fraction of a positive modulus stays below it. */
  lemma ScaledFraction(f: real, m: real)
    requires 0.0 <= f < 1.0 && m > 0.0
    ensures 0.0 <= f * m < m
  {
    MulMono(f, 1.0, m);
  }

  lemma TruncatedQuotientBounds(x: real, m: real)
    requires m > 0.0
    ensures var q := Truncate(x / m) as real;
      (0.0 <= x ==> 0.0 <= x - q * m < m) && (x <= 0.0 ==> -m < x - q * m <= 0.0)
  {
    var t := x / m;
    var q := Truncate(t) as real;
    var f := if 0.0 <= x then t - q else q - t;
    assert 0.0 <= f < 1.0;
    ScaledFraction(f, m);
    var p := f * m;
    assert x - q * m == if 0.0 <= x then p else -p;
    assert p < m;
    assert 0.0 <= x ==> x - q * m < m;
  }

  /** A value already strictly inside one period is left as it is. */
  lemma FloatRemKeepsReduced(x: real, m: real)
    requires m > 0.0 && Abs(x) < m
    ensures FloatRem(x, m) == x
  {
    var t := x / m;
    assert x == t * m;
    if t >= 1.0 {
      MulMono(1.0, t, m);
    } else if t <= -1.0 {
      MulMono(t, -1.0, m);
    }
    assert Truncate(t) == 0;
  }
}
