/** Two-dimensional vectors over the reals: the `vector_t` record and the
    `vec_*` helpers that every core file uses. Floating point is replaced by
    exact real arithmetic. */
module Vectors {

  datatype Vec = Vec(x: real, y: real)

  const Zero: Vec := Vec(0.0, 0.0)

  function Add(a: Vec, b: Vec): Vec { Vec(a.x + b.x, a.y + b.y) }

  function Sub(a: Vec, b: Vec): Vec { Vec(a.x - b.x, a.y - b.y) }

  function Neg(a: Vec): Vec { Vec(-a.x, -a.y) }

  function Scale(k: real, a: Vec): Vec { Vec(k * a.x, k * a.y) }

  function Dot(a: Vec, b: Vec): real { a.x * b.x + a.y * b.y }

  /** The square root of the C library is not part of this model: operations
      that call it take it as a parameter that satisfies this predicate. */
  ghost predicate IsSqrt(sqrt: real -> real)
  {
    forall x :: 0.0 <= x ==> 0.0 <= sqrt(x) && sqrt(x) * sqrt(x) == x
  }
}
