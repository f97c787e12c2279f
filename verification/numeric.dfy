/** The numeric vocabulary shared by the pipeline: non-negative reals for
    squared distances, Python's `int()` on a float, the integer part of a
    square root, and IEEE-style score values with their infinities and NaN. */
module Numeric {

  type NonNegReal = r: real | r >= 0.0

  /** A score as the program stores it: a finite float, one of the two
      infinities (`float('inf')` is the "no support" sentinel) or NaN. */
  datatype Score = Finite(v: real) | PosInf | NegInf | NaN

  /** Python's `sum` of a list of floats, in exact arithmetic. */
  function SumReal(xs: seq<real>): (total: real) {
    if |xs| == 0 then 0.0 else xs[0] + SumReal(xs[1..])
  }

  lemma {:induction false} SumRealAppend(xs: seq<real>, ys: seq<real>)
    ensures SumReal(xs + ys) == SumReal(xs) + SumReal(ys)
  {
    if |xs| > 0 {
      assert (xs + ys)[1..] == xs[1..] + ys;
      SumRealAppend(xs[1..], ys);
    } else {
      assert xs + ys == ys;
    }
  }

  /** Python's `int(d)` on a float: truncation toward zero. */
  function IntOf(d: real): (r: int)
    ensures d >= 0.0 ==> r >= 0 && r as real <= d < r as real + 1.0
    ensures d < 0.0 ==> r <= 0 && r as real - 1.0 < d <= r as real
  {
    if d >= 0.0 then d.Floor else -((-d).Floor)
  }

  /** `int(sqrt(sq))`: the largest natural number whose square is at most `sq`. */
  function IntSqrt(sq: NonNegReal): (r: nat)
    ensures (r * r) as real <= sq < ((r + 1) * (r + 1)) as real
  {
    IntSqrtFrom(sq, 0)
  }

  function IntSqrtFrom(sq: NonNegReal, k: nat): (r: nat)
    requires (k * k) as real <= sq
    ensures k <= r
    ensures (r * r) as real <= sq < ((r + 1) * (r + 1)) as real
    decreases sq.Floor - k * k
  {
    assert k * k <= sq.Floor;
    if ((k + 1) * (k + 1)) as real > sq then k
    else
      assert (k + 1) * (k + 1) == k * k + 2 * k + 1;
      IntSqrtFrom(sq, k + 1)
  }

  lemma SquareMonotone(a: nat, b: nat)
    requires a <= b
    ensures a * a <= b * b
  {
    assert a * a <= a * b <= b * b;
  }

  /** Only one natural number brackets `sq` between consecutive squares. */
  lemma IntSqrtUnique(sq: NonNegReal, k: nat)
    requires (k * k) as real <= sq < ((k + 1) * (k + 1)) as real
    ensures IntSqrt(sq) == k
  {
    var r := IntSqrt(sq);
    if r < k {
      SquareMonotone(r + 1, k);
    } else if k < r {
      SquareMonotone(k + 1, r);
    }
  }

  lemma SquareLe(a: real, b: real)
    requires 0.0 <= a <= b
    ensures a * a <= b * b
  {
  }

  lemma SquareLt(a: real, b: real)
    requires 0.0 <= a < b
    ensures a * a < b * b
  {
    var e := b - a;
    assert b * b == a * a + 2.0 * a * e + e * e;
    assert e * e > 0.0;
    assert a * e >= 0.0;
  }

  /** Keeping a distance squared loses nothing the program uses: the bin
      `int(d)` of a non-negative distance `d` is `IntSqrt(d * d)`. */
  lemma IntSqrtOfSquare(d: real)
    requires d >= 0.0
    ensures IntSqrt(d * d) == IntOf(d)
  {
    var k := IntOf(d);
    SquareLe(k as real, d);
    SquareLt(d, (k + 1) as real);
    assert (k * k) as real == (k as real) * (k as real);
    assert ((k + 1) * (k + 1)) as real == ((k + 1) as real) * ((k + 1) as real);
    IntSqrtUnique(d * d, k);
  }

  /** The cut-off test on a distance and the same test on its square agree. */
  lemma CutoffOnSquare(d: real, limit: real)
    requires d >= 0.0 && limit >= 0.0
    ensures d <= limit <==> d * d <= limit * limit
  {
    if d <= limit {
      SquareLe(d, limit);
    } else {
      SquareLt(limit, d);
    }
  }
}
