/** Option, as used for "hit or no hit" results. */
module Wrappers {
  datatype Option<+T> = None | Some(value: T)
}

/**
 * The small part of glm the ray tracer uses: three-component vectors over
 * real numbers, the column-major 4x4 matrix that holds an object's
 * placement, and the library routines whose numerics are not modelled
 * (sqrt, pow), which are passed in as a `Numerics` value.
 */
module Vectors {

  datatype Vec3 = Vec3(x: real, y: real, z: real)

  /** A column of a glm::mat4. */
  datatype Vec4 = Vec4(x: real, y: real, z: real, w: real)

  /** glm::mat4 is column-major: `m[3]` is the fourth column `c3`. */
  datatype Mat4 = Mat4(c0: Vec4, c1: Vec4, c2: Vec4, c3: Vec4)

  const Zero := Vec3(0.0, 0.0, 0.0)

  function Add(u: Vec3, v: Vec3): Vec3 { Vec3(u.x + v.x, u.y + v.y, u.z + v.z) }

  function Sub(u: Vec3, v: Vec3): Vec3 { Vec3(u.x - v.x, u.y - v.y, u.z - v.z) }

  function Neg(v: Vec3): Vec3 { Vec3(-v.x, -v.y, -v.z) }

  /** Scalar times vector. */
  function Scale(k: real, v: Vec3): Vec3 { Vec3(k * v.x, k * v.y, k * v.z) }

  /** Component-wise product (glm's vec3 * vec3). */
  function Mul(u: Vec3, v: Vec3): Vec3 { Vec3(u.x * v.x, u.y * v.y, u.z * v.z) }

  function Dot(u: Vec3, v: Vec3): real { u.x * v.x + u.y * v.y + u.z * v.z }

  function Cross(u: Vec3, v: Vec3): Vec3 {
    Vec3(u.y * v.z - u.z * v.y, u.z * v.x - u.x * v.z, u.x * v.y - u.y * v.x)
  }

  /** pow(x, 2) and powf(x, 2.0): an exact square over the reals. */
  function Square(x: real): real { x * x }

  /** Every component lies in [0, 1]: a displayable colour. */
  predicate InUnitCube(c: Vec3) {
    0.0 <= c.x <= 1.0 && 0.0 <= c.y <= 1.0 && 0.0 <= c.z <= 1.0
  }

  /** Every component is at least zero. */
  predicate NonNegative(c: Vec3) {
    0.0 <= c.x && 0.0 <= c.y && 0.0 <= c.z
  }

  /**
   * Library numerics that the model does not compute: `sqrt` (sqrt, sqrtf)
   * and `pow` (used only for the Phong exponent).
   */
  datatype Numerics = Numerics(sqrt: real -> real, pow: (real, real) -> real)

  /** The only law assumed of sqrt: a non-negative square root of a non-negative argument. */
  ghost predicate SqrtLaw(num: Numerics) {
    forall x :: 0.0 <= x ==> 0.0 <= num.sqrt(x) && Square(num.sqrt(x)) == x
  }

  /** glm::length. */
  function Length(num: Numerics, v: Vec3): real { num.sqrt(Dot(v, v)) }

  /**
   * glm::normalize: v divided by its length. A zero-length vector, for which
   * glm divides by zero, is returned unchanged.
   */
  function Normalize(num: Numerics, v: Vec3): Vec3 {
    var l := Length(num, v);
    if l == 0.0 then v else Scale(1.0 / l, v)
  }


  // ---------------------------------------------------------------------
  // Algebra used by the proofs. Squares are kept behind `Square` so that
  // the facts below are linear in the atoms `Square(..)` and `Dot(..)`.

  lemma DotScaleRight(u: Vec3, k: real, v: Vec3)
    ensures Dot(u, Scale(k, v)) == k * Dot(u, v)
  {
  }

  lemma DotScaleLeft(k: real, u: Vec3, v: Vec3)
    ensures Dot(Scale(k, u), v) == k * Dot(u, v)
  {
  }

  lemma CrossAddRight(e: Vec3, x: Vec3, y: Vec3)
    ensures Cross(e, Add(x, y)) == Add(Cross(e, x), Cross(e, y))
  {
  }

  lemma CrossScaleRight(e: Vec3, a: real, x: Vec3)
    ensures Cross(e, Scale(a, x)) == Scale(a, Cross(e, x))
  {
    var lhs, rhs := Cross(e, Scale(a, x)), Scale(a, Cross(e, x));
    assert lhs.x == rhs.x by { ScaledDifference(a, e.y, x.z, e.z, x.y); }
    assert lhs.y == rhs.y by { ScaledDifference(a, e.z, x.x, e.x, x.z); }
    assert lhs.z == rhs.z by { ScaledDifference(a, e.x, x.y, e.y, x.x); }
  }

  lemma ScaledDifference(a: real, p: real, q: real, r: real, s: real)
    ensures p * (a * q) - r * (a * s) == a * (p * q - r * s)
  {
  }

  lemma CrossOfCombination(e: Vec3, a: real, x: Vec3, b: real, y: Vec3)
    ensures Cross(e, Add(Scale(a, x), Scale(b, y))) == Add(Scale(a, Cross(e, x)), Scale(b, Cross(e, y)))
  {
    CrossAddRight(e, Scale(a, x), Scale(b, y));
    CrossScaleRight(e, a, x);
    CrossScaleRight(e, b, y);
  }

  lemma CrossSelf(e: Vec3)
    ensures Cross(e, e) == Zero
  {
  }

  /** a (-n) + b (-n) == (-a - b) n. */
  lemma ScaleNegSum(a: real, b: real, n: Vec3)
    ensures Add(Scale(a, Neg(n)), Scale(b, Neg(n))) == Scale(-a - b, n)
  {
    NegatedWeights(a, b, n.x);
    NegatedWeights(a, b, n.y);
    NegatedWeights(a, b, n.z);
  }

  lemma NegatedWeights(a: real, b: real, x: real)
    ensures a * -x + b * -x == (-a - b) * x
  {
  }

  lemma ScaleZero(k: real)
    ensures Scale(k, Zero) == Zero
  {
  }

  lemma DotSelfScale(k: real, v: Vec3)
    ensures Dot(Scale(k, v), Scale(k, v)) == Square(k) * Dot(v, v)
  {
  }

  lemma DotSelfSquares(v: Vec3)
    ensures Dot(v, v) == Square(v.x) + Square(v.y) + Square(v.z)
  {
  }

  lemma MulPositive(p: real, q: real)
    requires 0.0 < p && 0.0 < q
    ensures 0.0 < p * q
  {
  }

  lemma MulNonNegative(p: real, q: real)
    requires 0.0 <= p && 0.0 <= q
    ensures 0.0 <= p * q
  {
    if 0.0 < p && 0.0 < q {
      MulPositive(p, q);
    }
  }

  lemma DifferenceOfSquares(a: real, b: real)
    ensures (b - a) * (b + a) == b * b - a * a
  {
  }

  lemma ProductsStrictlyBelow(a: real, b: real)
    requires 0.0 <= a < b
    ensures a * a < b * b
  {
    MulPositive(b - a, b + a);
    DifferenceOfSquares(a, b);
  }

  lemma SquareNonNegative(x: real)
    ensures 0.0 <= Square(x)
  {
  }

  lemma SquareOfNegation(x: real)
    ensures Square(-x) == Square(x)
  {
  }

  lemma SquareOfProduct(a: real, b: real)
    ensures Square(a * b) == Square(a) * Square(b)
  {
  }

  /** Squaring is strictly increasing on the non-negative reals. */
  lemma SquareStrictlyBelow(a: real, b: real)
    requires 0.0 <= a < b
    ensures Square(a) < Square(b)
  {
    ProductsStrictlyBelow(a, b);
  }

  lemma SquarePositive(x: real)
    requires x != 0.0
    ensures 0.0 < Square(x)
  {
    if 0.0 < x {
      SquareStrictlyBelow(0.0, x);
    } else {
      SquareOfNegation(x);
      SquareStrictlyBelow(0.0, -x);
    }
  }

  /** Two non-negative reals with equal squares are equal. */
  lemma SquareInjective(a: real, b: real)
    requires 0.0 <= a && 0.0 <= b && Square(a) == Square(b)
    ensures a == b
  {
    if a < b {
      SquareStrictlyBelow(a, b);
    } else if b < a {
      SquareStrictlyBelow(b, a);
    }
  }

  lemma DotSelfNonNegative(v: Vec3)
    ensures 0.0 <= Dot(v, v)
  {
    DotSelfSquares(v);
    SquareNonNegative(v.x);
    SquareNonNegative(v.y);
    SquareNonNegative(v.z);
  }

  /** Only the zero vector has zero squared length. */
  lemma DotSelfPositive(v: Vec3)
    requires v != Zero
    ensures 0.0 < Dot(v, v)
  {
    DotSelfSquares(v);
    SquareNonNegative(v.x);
    SquareNonNegative(v.y);
    SquareNonNegative(v.z);
    if v.x != 0.0 {
      SquarePositive(v.x);
    } else if v.y != 0.0 {
      SquarePositive(v.y);
    } else {
      SquarePositive(v.z);
    }
  }

  /** Under the sqrt law, sqrt undoes squaring of a non-negative number. */
  lemma SqrtOfSquare(num: Numerics, t: real)
    requires SqrtLaw(num) && 0.0 <= t
    ensures num.sqrt(Square(t)) == t
  {
    SquareNonNegative(t);
    SquareInjective(num.sqrt(Square(t)), t);
  }

  /** Under the sqrt law, lengths scale with the absolute value of the factor. */
  lemma {:induction false} LengthScale(num: Numerics, k: real, v: Vec3)
    requires SqrtLaw(num)
    ensures Length(num, Scale(k, v)) == (if k < 0.0 then -k else k) * Length(num, v)
  {
    var a := if k < 0.0 then -k else k;
    SquareOfNegation(k);
    assert Square(a) == Square(k);
    var d := Dot(v, v);
    DotSelfNonNegative(v);
    var l := num.sqrt(d);
    assert 0.0 <= l && Square(l) == d;
    DotSelfScale(k, v);
    var e := Dot(Scale(k, v), Scale(k, v));
    assert e == Square(a) * d;
    SquareNonNegative(a);
    MulNonNegative(Square(a), d);
    var r := num.sqrt(e);
    assert 0.0 <= r && Square(r) == e;
    SquareOfProduct(a, l);
    MulNonNegative(a, l);
    SquareInjective(r, a * l);
  }

  /** The length of a non-zero vector is positive. */
  lemma LengthPositive(num: Numerics, v: Vec3)
    requires SqrtLaw(num) && v != Zero
    ensures 0.0 < Length(num, v)
  {
    DotSelfPositive(v);
    var l := Length(num, v);
    assert 0.0 <= l && Square(l) == Dot(v, v);
  }

  /**
   * glm::normalize only rescales by a positive factor (its argument's
   * direction is kept).
   */
  lemma NormalizeIsPositiveScale(num: Numerics, v: Vec3) returns (k: real)
    requires SqrtLaw(num)
    ensures 0.0 < k && Normalize(num, v) == Scale(k, v)
  {
    if v == Zero {
      k := 1.0;
    } else {
      LengthPositive(num, v);
      k := 1.0 / Length(num, v);
    }
  }

  /** A normalised vector has squared length 1, or is the zero vector left unchanged. */
  lemma NormalizeAtMostUnit(num: Numerics, v: Vec3)
    requires SqrtLaw(num)
    ensures Dot(Normalize(num, v), Normalize(num, v)) <= 1.0
    ensures v != Zero ==> Dot(Normalize(num, v), Normalize(num, v)) == 1.0
  {
    if v != Zero {
      LengthPositive(num, v);
      var l := Length(num, v);
      DotSelfNonNegative(v);
      assert Square(l) == Dot(v, v);
      var k := 1.0 / l;
      assert k * l == 1.0;
      DotSelfScale(k, v);
      SquareOfProduct(k, l);
      assert Dot(Scale(k, v), Scale(k, v)) == Square(k * l);
    }
  }

  /** Cauchy-Schwarz in three dimensions, from Lagrange's identity. */
  lemma CauchySchwarz(u: Vec3, v: Vec3)
    ensures Square(Dot(u, v)) <= Dot(u, u) * Dot(v, v)
  {
    var c := Cross(u, v);
    assert Dot(u, u) * Dot(v, v) - Square(Dot(u, v)) == Dot(c, c);
    DotSelfNonNegative(c);
  }
}
