/** Planar vectors over the reals and the Euclidean norm.
 *
 * Positions, velocities and forces are two-component NumPy arrays in the
 * simulation. The norm (np.linalg.norm) needs a square root, which Dafny's
 * reals do not have, so every operation that measures a length receives the
 * norm as a function value together with the hypothesis IsEuclidean: the
 * value is never negative and its square is the sum of the squared
 * components. That pins it down to the exact square root; nothing else
 * about it is assumed.
 */
module Geometry {

  datatype Vec = Vec(x: real, y: real)

  const Zero := Vec(0.0, 0.0)

  function Add(u: Vec, v: Vec): Vec { Vec(u.x + v.x, u.y + v.y) }

  function Sub(u: Vec, v: Vec): Vec { Vec(u.x - v.x, u.y - v.y) }

  /** Multiplication by a scalar (`v * c` in NumPy). */
  function Scale(v: Vec, c: real): Vec { Vec(v.x * c, v.y * c) }

  /** Division by a scalar (`v / c` in NumPy). */
  function Div(v: Vec, c: real): Vec
    requires c != 0.0
  {
    Vec(v.x / c, v.y / c)
  }

  lemma ScaleZero(c: real)
    ensures Scale(Zero, c) == Zero
  {
  }

  function SquaredLength(v: Vec): real { v.x * v.x + v.y * v.y }

  /** The law np.linalg.norm obeys on two-component vectors. */
  ghost predicate IsEuclidean(norm: Vec -> real)
  {
    forall v :: norm(v) >= 0.0 && norm(v) * norm(v) == SquaredLength(v)
  }

  /** Squaring is strictly increasing on the non-negative reals. */
  lemma SquareStrictlyMonotone(a: real, b: real)
    requires 0.0 <= a < b
    ensures a * a < b * b
  {
    var d := b - a;
    assert b * b == a * a + 2.0 * a * d + d * d;
    assert a * d >= 0.0 && d * d > 0.0;
  }

  /** Two non-negative reals with the same square are equal. */
  lemma SameSquare(a: real, b: real)
    requires a >= 0.0 && b >= 0.0 && a * a == b * b
    ensures a == b
  {
    if a < b {
      SquareStrictlyMonotone(a, b);
    } else if b < a {
      SquareStrictlyMonotone(b, a);
    }
  }

  /** For non-negative reals, comparing squares is comparing the values. */
  lemma LessIffSquareLess(a: real, b: real)
    requires a >= 0.0 && b >= 0.0
    ensures a < b <==> a * a < b * b
  {
    if a < b {
      SquareStrictlyMonotone(a, b);
    } else if b < a {
      SquareStrictlyMonotone(b, a);
    }
  }

  /** The norm of a vector is determined by its squared length alone. */
  lemma NormFromSquare(norm: Vec -> real, v: Vec, d: real)
    requires IsEuclidean(norm)
    requires d >= 0.0 && d * d == SquaredLength(v)
    ensures norm(v) == d
  {
    SameSquare(norm(v), d);
  }

  /** The distance between two points does not depend on the direction it is measured in. */
  lemma {:induction false} DistanceSymmetric(norm: Vec -> real, p: Vec, q: Vec)
    requires IsEuclidean(norm)
    ensures norm(Sub(p, q)) == norm(Sub(q, p))
  {
    assert SquaredLength(Sub(p, q)) == SquaredLength(Sub(q, p));
    NormFromSquare(norm, Sub(q, p), norm(Sub(p, q)));
  }

  /** Comparing a norm with a non-negative bound is comparing squared lengths. */
  lemma NormBelowIffSquared(norm: Vec -> real, v: Vec, bound: real)
    requires IsEuclidean(norm) && bound >= 0.0
    ensures norm(v) < bound <==> SquaredLength(v) < bound * bound
  {
    LessIffSquareLess(norm(v), bound);
  }
}
