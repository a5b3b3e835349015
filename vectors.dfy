/** Three-component vectors and quaternions over the reals.  They stand for the
    single-precision `glm::vec3` and `glm::quat` of the engine; the model uses exact
    real arithmetic, so rounding is not modelled.

    The components of the quaternion product and of the quaternion-vector product
    are named scalar functions (`QW`, `QV`, `RotX`), so that the identities of
    module Algebra can be proved over plain reals and instantiated on `Quat`/`Vec3`. */
module Vectors {

  datatype Vec3 = Vec3(x: real, y: real, z: real)

  /** A quaternion `w + xi + yj + zk`, stored in glm's (w, x, y, z) order. */
  datatype Quat = Quat(w: real, x: real, y: real, z: real)

  const Zero: Vec3 := Vec3(0.0, 0.0, 0.0)
  const Identity: Quat := Quat(1.0, 0.0, 0.0, 0.0)

  function Add(a: Vec3, b: Vec3): Vec3 { Vec3(a.x + b.x, a.y + b.y, a.z + b.z) }
  function Sub(a: Vec3, b: Vec3): Vec3 { Vec3(a.x - b.x, a.y - b.y, a.z - b.z) }
  function Neg(a: Vec3): Vec3 { Vec3(-a.x, -a.y, -a.z) }
  function Scale(a: Vec3, k: real): Vec3 { Vec3(a.x * k, a.y * k, a.z * k) }
  /** Division of every component by `k`. */
  function Div(a: Vec3, k: real): Vec3 requires k != 0.0 { Vec3(a.x / k, a.y / k, a.z / k) }
  /** Component-wise product (`vec3 * vec3` in glm). */
  function Mul(a: Vec3, b: Vec3): Vec3 { Vec3(a.x * b.x, a.y * b.y, a.z * b.z) }
  function Dot(a: Vec3, b: Vec3): real { a.x * b.x + a.y * b.y + a.z * b.z }
  function Cross(a: Vec3, b: Vec3): Vec3 {
    Vec3(a.y * b.z - a.z * b.y, a.z * b.x - a.x * b.z, a.x * b.y - a.y * b.x)
  }
  /** `glm::length2`, the squared Euclidean length. */
  function Length2(a: Vec3): real { a.x * a.x + a.y * a.y + a.z * a.z }

  function QAdd(a: Quat, b: Quat): Quat { Quat(a.w + b.w, a.x + b.x, a.y + b.y, a.z + b.z) }
  function QScale(a: Quat, k: real): Quat { Quat(a.w * k, a.x * k, a.y * k, a.z * k) }
  function Conj(q: Quat): Quat { Quat(q.w, -q.x, -q.y, -q.z) }
  /** Squared norm of a quaternion; a unit quaternion has `Norm2(q) == 1.0`. */
  function Norm2(q: Quat): real { q.w * q.w + q.x * q.x + q.y * q.y + q.z * q.z }
  /** The quaternion `(0, v)`. */
  function Pure(v: Vec3): Quat { Quat(0.0, v.x, v.y, v.z) }

  /** Real part of the Hamilton product `a b`. */
  function QW(aw: real, ax: real, ay: real, az: real, bw: real, bx: real, by': real, bz: real): real {
    aw * bw - ax * bx - ay * by' - az * bz
  }
  /** i-part of the Hamilton product `a b`; the j- and k-parts are the same polynomial
      with the three axes permuted cyclically. */
  function QV(aw: real, ax: real, ay: real, az: real, bw: real, bx: real, by': real, bz: real): real {
    aw * bx + ax * bw + ay * bz - az * by'
  }

  /** Hamilton product (`quat * quat` in glm). */
  function QMul(a: Quat, b: Quat): Quat {
    Quat(QW(a.w, a.x, a.y, a.z, b.w, b.x, b.y, b.z),
         QV(a.w, a.x, a.y, a.z, b.w, b.x, b.y, b.z),
         QV(a.w, a.y, a.z, a.x, b.w, b.y, b.z, b.x),
         QV(a.w, a.z, a.x, a.y, b.w, b.z, b.x, b.y))
  }

  /** x-component of `q * v` as glm computes it, `v + 2 (w (u × v) + u × (u × v))`
      with `u = (x, y, z)`; the y- and z-components permute the axes cyclically. */
  function RotX(w: real, x: real, y: real, z: real, vx: real, vy: real, vz: real): real {
    vx + 2.0 * (w * (y * vz - z * vy) + (y * (x * vy - y * vx) - z * (z * vx - x * vz)))
  }

  /** `q * v` for a quaternion and a vector.  For a unit quaternion this is the
      rotation of `v` by `q`. */
  function Rotate(q: Quat, v: Vec3): Vec3 {
    Vec3(RotX(q.w, q.x, q.y, q.z, v.x, v.y, v.z),
         RotX(q.w, q.y, q.z, q.x, v.y, v.z, v.x),
         RotX(q.w, q.z, q.x, q.y, v.z, v.x, v.y))
  }

  /** x-component of `u × (u × v)`, the error term of `Rotate` when `q` is not of
      unit length. */
  function TwiceX(x: real, y: real, z: real, vx: real, vy: real, vz: real): real {
    y * (x * vy - y * vx) - z * (z * vx - x * vz)
  }

  // ---------------------------------------------------------------------------
  // Square roots.  glm::length and glm::normalize are the only operations of the
  // core that need one; the model receives it as a function value and asks only
  // that it be a square root.

  ghost predicate IsSqrt(sqrt: real -> real) {
    forall t: real :: 0.0 <= t ==> 0.0 <= sqrt(t) && sqrt(t) * sqrt(t) == t
  }

  /** `glm::length(v)`. */
  function Length(sqrt: real -> real, v: Vec3): (r: real)
    requires IsSqrt(sqrt)
    ensures 0.0 <= r && r * r == Length2(v)
  {
    SquaresNonNegative(v);
    sqrt(Length2(v))
  }

  /** `glm::normalize(v)`.  glm divides by the length, which gives NaN for the zero
      vector; the model returns the zero vector there. */
  function Normalize(sqrt: real -> real, v: Vec3): Vec3
    requires IsSqrt(sqrt)
  {
    var l := Length(sqrt, v);
    if l == 0.0 then Zero else Scale(v, 1.0 / l)
  }

  /** `glm::normalize(q)` for a quaternion.  Unlike the vector case, glm's
      quaternion version does not divide by a zero length: it returns the
      identity rotation there (glm tests `length <= 0`, which for a non-negative
      square root is the test `length == 0`). */
  function QNormalize(sqrt: real -> real, q: Quat): Quat
    requires IsSqrt(sqrt)
  {
    QNormNonNegative(q);
    var l := sqrt(Norm2(q));
    if l == 0.0 then Identity else QScale(q, 1.0 / l)
  }

  /** The identity on reals.  `a * Id(a)` is the square of `a` written with two
      different factors; the verifier's non-linear arithmetic decides the sign of
      such a product but not of `a * a`. */
  function Id(a: real): real { a }

  /** A square is never negative, and it is zero only for zero. */
  lemma SquareSign(a: real)
    ensures 0.0 <= a * Id(a)
    ensures a * Id(a) == 0.0 <==> a == 0.0
  {
    if a < 0.0 {
      assert 0.0 < a * Id(a);
    } else if 0.0 < a {
      assert 0.0 < a * Id(a);
    }
  }

  lemma SquaresNonNegative(v: Vec3)
    ensures 0.0 <= Length2(v)
    ensures Length2(v) == 0.0 <==> v == Zero
  {
    SquareSign(v.x);
    SquareSign(v.y);
    SquareSign(v.z);
  }

  lemma QNormNonNegative(q: Quat)
    ensures 0.0 <= Norm2(q)
    ensures Norm2(q) == 0.0 <==> q == Quat(0.0, 0.0, 0.0, 0.0)
  {
    SquareSign(q.w);
    SquareSign(q.x);
    SquareSign(q.y);
    SquareSign(q.z);
  }

  /** The length is zero exactly for the zero vector. */
  lemma LengthZero(sqrt: real -> real, v: Vec3)
    requires IsSqrt(sqrt)
    ensures Length(sqrt, v) == 0.0 <==> v == Zero
  {
    var l := Length(sqrt, v);
    SquaresNonNegative(v);
    SquareSign(l);
    assert l * Id(l) == Length2(v);
  }

  lemma ScaleScale(v: Vec3, a: real, b: real)
    ensures Scale(Scale(v, a), b) == Scale(v, a * b)
  {
    assert (v.x * a) * b == v.x * (a * b);
    assert (v.y * a) * b == v.y * (a * b);
    assert (v.z * a) * b == v.z * (a * b);
  }

  lemma ScaleLength2(v: Vec3, k: real)
    ensures Length2(Scale(v, k)) == Length2(v) * (k * k)
  {
    var s := Scale(v, k);
    assert s.x * s.x == (v.x * v.x) * (k * k);
    assert s.y * s.y == (v.y * v.y) * (k * k);
    assert s.z * s.z == (v.z * v.z) * (k * k);
  }

  lemma QScaleNorm2(q: Quat, k: real)
    ensures Norm2(QScale(q, k)) == Norm2(q) * (k * k)
  {
    var s := QScale(q, k);
    assert s.w * s.w == (q.w * q.w) * (k * k);
    assert s.x * s.x == (q.x * q.x) * (k * k);
    assert s.y * s.y == (q.y * q.y) * (k * k);
    assert s.z * s.z == (q.z * q.z) * (k * k);
  }

  /** `normalize(v) * length(v) == v`, and the normalized vector has unit length
      unless `v` is zero. */
  lemma NormalizeTimesLength(sqrt: real -> real, v: Vec3)
    requires IsSqrt(sqrt)
    ensures Scale(Normalize(sqrt, v), Length(sqrt, v)) == v
    ensures v != Zero ==> Length2(Normalize(sqrt, v)) == 1.0
  {
    var l := Length(sqrt, v);
    LengthZero(sqrt, v);
    if l != 0.0 {
      var k := 1.0 / l;
      assert l * k == 1.0;
      ScaleScale(v, k, l);
      ScaleLength2(v, k);
      assert Length2(v) * (k * k) == (l * k) * (l * k);
    }
  }

  /** Dividing a quaternion by its (positive) length gives a unit quaternion. */
  lemma QScaleUnit(q: Quat, l: real)
    requires 0.0 < l && l * l == Norm2(q)
    ensures Norm2(QScale(q, 1.0 / l)) == 1.0
  {
    var k := 1.0 / l;
    assert l * k == 1.0;
    QScaleNorm2(q, k);
    assert Norm2(q) * (k * k) == (l * k) * (l * k);
  }

  /** Normalizing any quaternion yields a unit quaternion: a non-zero one is
      divided by its length, and the zero one becomes the identity. */
  lemma QNormalizeUnit(sqrt: real -> real, q: Quat)
    requires IsSqrt(sqrt)
    ensures Norm2(QNormalize(sqrt, q)) == 1.0
  {
    QNormNonNegative(q);
    var l := sqrt(Norm2(q));
    if 0.0 < l {
      QScaleUnit(q, l);
    } else {
      IdentityUnit();
    }
  }

  lemma IdentityUnit()
    ensures Norm2(Identity) == 1.0
  {
  }

  /** The zero quaternion normalizes to the identity. */
  lemma QNormalizeZero(sqrt: real -> real)
    requires IsSqrt(sqrt)
    ensures QNormalize(sqrt, Quat(0.0, 0.0, 0.0, 0.0)) == Identity
  {
    assert Norm2(Quat(0.0, 0.0, 0.0, 0.0)) == 0.0;
    SqrtZero(sqrt);
  }

  lemma SqrtZero(sqrt: real -> real)
    requires IsSqrt(sqrt)
    ensures sqrt(0.0) == 0.0
  {
    var l := sqrt(0.0);
    assert 0.0 <= l && l * l == 0.0;
    SquareSign(l);
    assert l * Id(l) == l * l;
  }

  /** The dot product is linear in its second argument. */
  lemma DotLinear(a: Vec3, b: Vec3, c: Vec3, k: real)
    ensures Dot(a, Add(b, c)) == Dot(a, b) + Dot(a, c)
    ensures Dot(a, Sub(b, c)) == Dot(a, b) - Dot(a, c)
    ensures Dot(a, Scale(b, k)) == k * Dot(a, b)
  {
    assert a.x * (b.x * k) + a.y * (b.y * k) + a.z * (b.z * k) == k * (a.x * b.x + a.y * b.y + a.z * b.z);
  }
}
