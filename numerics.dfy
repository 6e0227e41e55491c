/** The scalar helpers of JavaScript's Math object that the core uses, on reals. */
module Numerics {

  /** Math.sign: the sign of r as -1, 0 or 1. */
  function Sign(r: real): (s: int)
    ensures s == 0 <==> r == 0.0
    ensures s == 1 <==> r > 0.0
    ensures s == -1 <==> r < 0.0
  {
    if r > 0.0 then 1 else if r < 0.0 then -1 else 0
  }

  /** Scaling by a positive factor keeps the sign. */
  lemma SignOfPositiveMultiple(k: real, r: real)
    requires k > 0.0
    ensures Sign(k * r) == Sign(r)
  {
    if r > 0.0 {
      assert k * r > 0.0;
    } else if r < 0.0 {
      assert k * r < 0.0;
    }
  }

  /** Negation flips the sign. */
  lemma SignOfNegation(r: real)
    ensures Sign(-r) == -Sign(r)
  {
  }

  /** Math.min(a, b). */
  function Min(a: real, b: real): (r: real)
    ensures r <= a && r <= b && (r == a || r == b)
  {
    if a <= b then a else b
  }

  /** Math.max(a, b). */
  function Max(a: real, b: real): (r: real)
    ensures r >= a && r >= b && (r == a || r == b)
  {
    if a >= b then a else b
  }

  /** Math.min(a, b, c): the least of three values, and one of them. */
  function Min3(a: real, b: real, c: real): (r: real)
    ensures r <= a && r <= b && r <= c
    ensures r == a || r == b || r == c
  {
    Min(Min(a, b), c)
  }

  /** Math.max(0, Math.min(1, t)): t clamped into the unit interval. */
  function Clamp01(t: real): (r: real)
    ensures 0.0 <= r <= 1.0
    ensures 0.0 <= t <= 1.0 ==> r == t
    ensures t < 0.0 ==> r == 0.0
    ensures t > 1.0 ==> r == 1.0
  {
    Max(0.0, Min(1.0, t))
  }
}
