/** Algebraic identities of the quaternion product and of `Rotate`.

    Most identities are proved in three steps.  A lemma over plain reals states it for
    the multiplied-out polynomials (`...Poly`); a second lemma replaces the named
    atoms of the statement by those polynomials (`...Congr`); a third restates it in
    terms of `QW`, `QV` and `RotX` (`...Real`), and the lemma on `Quat`/`Vec3`
    instantiates that one. */
module Algebra {
  import opened Vectors

  // ---------------------------------------------------------------------------
  // |ab|² = |a|² |b|²

  lemma NormMulPoly(aw: real, ax: real, ay: real, az: real, bw: real, bx: real, by': real, bz: real)
    ensures var pw := aw * bw - ax * bx - ay * by' - az * bz;
            var px := aw * bx + ax * bw + ay * bz - az * by';
            var py := aw * by' + ay * bw + az * bx - ax * bz;
            var pz := aw * bz + az * bw + ax * by' - ay * bx;
            pw * pw + px * px + py * py + pz * pz
              == (aw * aw + ax * ax + ay * ay + az * az) * (bw * bw + bx * bx + by' * by' + bz * bz)
  {
  }

  lemma NormMulCongr(aw: real, ax: real, ay: real, az: real, bw: real, bx: real, by': real, bz: real,
                     pw: real, px: real, py: real, pz: real)
    requires pw == aw * bw - ax * bx - ay * by' - az * bz
    requires px == aw * bx + ax * bw + ay * bz - az * by'
    requires py == aw * by' + ay * bw + az * bx - ax * bz
    requires pz == aw * bz + az * bw + ax * by' - ay * bx
    ensures pw * pw + px * px + py * py + pz * pz
         == (aw * bw - ax * bx - ay * by' - az * bz) * (aw * bw - ax * bx - ay * by' - az * bz)
          + (aw * bx + ax * bw + ay * bz - az * by') * (aw * bx + ax * bw + ay * bz - az * by')
          + (aw * by' + ay * bw + az * bx - ax * bz) * (aw * by' + ay * bw + az * bx - ax * bz)
          + (aw * bz + az * bw + ax * by' - ay * bx) * (aw * bz + az * bw + ax * by' - ay * bx)
  {
  }

  lemma NormMulReal(aw: real, ax: real, ay: real, az: real, bw: real, bx: real, by': real, bz: real)
    ensures var pw := QW(aw, ax, ay, az, bw, bx, by', bz);
            var px := QV(aw, ax, ay, az, bw, bx, by', bz);
            var py := QV(aw, ay, az, ax, bw, by', bz, bx);
            var pz := QV(aw, az, ax, ay, bw, bz, bx, by');
            pw * pw + px * px + py * py + pz * pz
              == (aw * aw + ax * ax + ay * ay + az * az) * (bw * bw + bx * bx + by' * by' + bz * bz)
  {
    NormMulPoly(aw, ax, ay, az, bw, bx, by', bz);
    NormMulCongr(aw, ax, ay, az, bw, bx, by', bz,
                 QW(aw, ax, ay, az, bw, bx, by', bz), QV(aw, ax, ay, az, bw, bx, by', bz),
                 QV(aw, ay, az, ax, bw, by', bz, bx), QV(aw, az, ax, ay, bw, bz, bx, by'));
  }

  /** The norm of a product is the product of the norms. */
  lemma NormMul(a: Quat, b: Quat)
    ensures Norm2(QMul(a, b)) == Norm2(a) * Norm2(b)
  {
    NormMulReal(a.w, a.x, a.y, a.z, b.w, b.x, b.y, b.z);
  }

  // ---------------------------------------------------------------------------
  // (ab)c = a(bc)

  lemma AssocPoly(aw: real, ax: real, ay: real, az: real, bw: real, bx: real, by': real, bz: real,
                  cw: real, cx: real, cy: real, cz: real)
    ensures var abw := aw * bw - ax * bx - ay * by' - az * bz;
            var abx := aw * bx + ax * bw + ay * bz - az * by';
            var aby := aw * by' + ay * bw + az * bx - ax * bz;
            var abz := aw * bz + az * bw + ax * by' - ay * bx;
            var bcw := bw * cw - bx * cx - by' * cy - bz * cz;
            var bcx := bw * cx + bx * cw + by' * cz - bz * cy;
            var bcy := bw * cy + by' * cw + bz * cx - bx * cz;
            var bcz := bw * cz + bz * cw + bx * cy - by' * cx;
            && QW(abw, abx, aby, abz, cw, cx, cy, cz) == QW(aw, ax, ay, az, bcw, bcx, bcy, bcz)
            && QV(abw, abx, aby, abz, cw, cx, cy, cz) == QV(aw, ax, ay, az, bcw, bcx, bcy, bcz)
            && QV(abw, aby, abz, abx, cw, cy, cz, cx) == QV(aw, ay, az, ax, bcw, bcy, bcz, bcx)
            && QV(abw, abz, abx, aby, cw, cz, cx, cy) == QV(aw, az, ax, ay, bcw, bcz, bcx, bcy)
  {
  }

  lemma AssocCongr(aw: real, ax: real, ay: real, az: real, bw: real, bx: real, by': real, bz: real,
                   cw: real, cx: real, cy: real, cz: real,
                   abw: real, abx: real, aby: real, abz: real, bcw: real, bcx: real, bcy: real, bcz: real)
    requires abw == aw * bw - ax * bx - ay * by' - az * bz
    requires abx == aw * bx + ax * bw + ay * bz - az * by'
    requires aby == aw * by' + ay * bw + az * bx - ax * bz
    requires abz == aw * bz + az * bw + ax * by' - ay * bx
    requires bcw == bw * cw - bx * cx - by' * cy - bz * cz
    requires bcx == bw * cx + bx * cw + by' * cz - bz * cy
    requires bcy == bw * cy + by' * cw + bz * cx - bx * cz
    requires bcz == bw * cz + bz * cw + bx * cy - by' * cx
    ensures QW(abw, abx, aby, abz, cw, cx, cy, cz)
         == QW(aw * bw - ax * bx - ay * by' - az * bz, aw * bx + ax * bw + ay * bz - az * by',
               aw * by' + ay * bw + az * bx - ax * bz, aw * bz + az * bw + ax * by' - ay * bx, cw, cx, cy, cz)
    ensures QV(abw, abx, aby, abz, cw, cx, cy, cz)
         == QV(aw * bw - ax * bx - ay * by' - az * bz, aw * bx + ax * bw + ay * bz - az * by',
               aw * by' + ay * bw + az * bx - ax * bz, aw * bz + az * bw + ax * by' - ay * bx, cw, cx, cy, cz)
    ensures QV(abw, aby, abz, abx, cw, cy, cz, cx)
         == QV(aw * bw - ax * bx - ay * by' - az * bz, aw * by' + ay * bw + az * bx - ax * bz,
               aw * bz + az * bw + ax * by' - ay * bx, aw * bx + ax * bw + ay * bz - az * by', cw, cy, cz, cx)
    ensures QV(abw, abz, abx, aby, cw, cz, cx, cy)
         == QV(aw * bw - ax * bx - ay * by' - az * bz, aw * bz + az * bw + ax * by' - ay * bx,
               aw * bx + ax * bw + ay * bz - az * by', aw * by' + ay * bw + az * bx - ax * bz, cw, cz, cx, cy)
    ensures QW(aw, ax, ay, az, bcw, bcx, bcy, bcz)
         == QW(aw, ax, ay, az, bw * cw - bx * cx - by' * cy - bz * cz, bw * cx + bx * cw + by' * cz - bz * cy,
               bw * cy + by' * cw + bz * cx - bx * cz, bw * cz + bz * cw + bx * cy - by' * cx)
    ensures QV(aw, ax, ay, az, bcw, bcx, bcy, bcz)
         == QV(aw, ax, ay, az, bw * cw - bx * cx - by' * cy - bz * cz, bw * cx + bx * cw + by' * cz - bz * cy,
               bw * cy + by' * cw + bz * cx - bx * cz, bw * cz + bz * cw + bx * cy - by' * cx)
    ensures QV(aw, ay, az, ax, bcw, bcy, bcz, bcx)
         == QV(aw, ay, az, ax, bw * cw - bx * cx - by' * cy - bz * cz, bw * cy + by' * cw + bz * cx - bx * cz,
               bw * cz + bz * cw + bx * cy - by' * cx, bw * cx + bx * cw + by' * cz - bz * cy)
    ensures QV(aw, az, ax, ay, bcw, bcz, bcx, bcy)
         == QV(aw, az, ax, ay, bw * cw - bx * cx - by' * cy - bz * cz, bw * cz + bz * cw + bx * cy - by' * cx,
               bw * cx + bx * cw + by' * cz - bz * cy, bw * cy + by' * cw + bz * cx - bx * cz)
  {
  }

  lemma AssocReal(aw: real, ax: real, ay: real, az: real, bw: real, bx: real, by': real, bz: real,
                  cw: real, cx: real, cy: real, cz: real)
    ensures var abw := QW(aw, ax, ay, az, bw, bx, by', bz);
            var abx := QV(aw, ax, ay, az, bw, bx, by', bz);
            var aby := QV(aw, ay, az, ax, bw, by', bz, bx);
            var abz := QV(aw, az, ax, ay, bw, bz, bx, by');
            var bcw := QW(bw, bx, by', bz, cw, cx, cy, cz);
            var bcx := QV(bw, bx, by', bz, cw, cx, cy, cz);
            var bcy := QV(bw, by', bz, bx, cw, cy, cz, cx);
            var bcz := QV(bw, bz, bx, by', cw, cz, cx, cy);
            && QW(abw, abx, aby, abz, cw, cx, cy, cz) == QW(aw, ax, ay, az, bcw, bcx, bcy, bcz)
            && QV(abw, abx, aby, abz, cw, cx, cy, cz) == QV(aw, ax, ay, az, bcw, bcx, bcy, bcz)
            && QV(abw, aby, abz, abx, cw, cy, cz, cx) == QV(aw, ay, az, ax, bcw, bcy, bcz, bcx)
            && QV(abw, abz, abx, aby, cw, cz, cx, cy) == QV(aw, az, ax, ay, bcw, bcz, bcx, bcy)
  {
    AssocPoly(aw, ax, ay, az, bw, bx, by', bz, cw, cx, cy, cz);
    AssocCongr(aw, ax, ay, az, bw, bx, by', bz, cw, cx, cy, cz,
               QW(aw, ax, ay, az, bw, bx, by', bz), QV(aw, ax, ay, az, bw, bx, by', bz),
               QV(aw, ay, az, ax, bw, by', bz, bx), QV(aw, az, ax, ay, bw, bz, bx, by'),
               QW(bw, bx, by', bz, cw, cx, cy, cz), QV(bw, bx, by', bz, cw, cx, cy, cz),
               QV(bw, by', bz, bx, cw, cy, cz, cx), QV(bw, bz, bx, by', cw, cz, cx, cy));
  }

  /** The Hamilton product is associative. */
  lemma QMulAssoc(a: Quat, b: Quat, c: Quat)
    ensures QMul(QMul(a, b), c) == QMul(a, QMul(b, c))
  {
    AssocReal(a.w, a.x, a.y, a.z, b.w, b.x, b.y, b.z, c.w, c.x, c.y, c.z);
  }

  /** Conjugation reverses a product. */
  lemma ConjMul(a: Quat, b: Quat)
    ensures Conj(QMul(a, b)) == QMul(Conj(b), Conj(a))
  {
  }

  lemma ConjConj(q: Quat)
    ensures Conj(Conj(q)) == q
    ensures Norm2(Conj(q)) == Norm2(q)
  {
  }

  // ---------------------------------------------------------------------------
  // conj(q) * (q * v) = v + 4 (1 - |q|²) u × (u × v)

  lemma RotateInversePoly(w: real, x: real, y: real, z: real, vx: real, vy: real, vz: real)
    ensures var rx := vx + 2.0 * (w * (y * vz - z * vy) + (y * (x * vy - y * vx) - z * (z * vx - x * vz)));
            var ry := vy + 2.0 * (w * (z * vx - x * vz) + (z * (y * vz - z * vy) - x * (x * vy - y * vx)));
            var rz := vz + 2.0 * (w * (x * vy - y * vx) + (x * (z * vx - x * vz) - y * (y * vz - z * vy)));
            RotX(w, -x, -y, -z, rx, ry, rz)
              == vx + 4.0 * (1.0 - (w * w + x * x + y * y + z * z)) * TwiceX(x, y, z, vx, vy, vz)
  {
  }

  lemma RotXCongr(w: real, x: real, y: real, z: real, vx: real, vy: real, vz: real,
                  rx: real, ry: real, rz: real)
    requires rx == vx + 2.0 * (w * (y * vz - z * vy) + (y * (x * vy - y * vx) - z * (z * vx - x * vz)))
    requires ry == vy + 2.0 * (w * (z * vx - x * vz) + (z * (y * vz - z * vy) - x * (x * vy - y * vx)))
    requires rz == vz + 2.0 * (w * (x * vy - y * vx) + (x * (z * vx - x * vz) - y * (y * vz - z * vy)))
    ensures RotX(w, -x, -y, -z, rx, ry, rz)
         == RotX(w, -x, -y, -z,
                 vx + 2.0 * (w * (y * vz - z * vy) + (y * (x * vy - y * vx) - z * (z * vx - x * vz))),
                 vy + 2.0 * (w * (z * vx - x * vz) + (z * (y * vz - z * vy) - x * (x * vy - y * vx))),
                 vz + 2.0 * (w * (x * vy - y * vx) + (x * (z * vx - x * vz) - y * (y * vz - z * vy))))
  {
  }

  lemma RotateInverseReal(w: real, x: real, y: real, z: real, vx: real, vy: real, vz: real)
    ensures RotX(w, -x, -y, -z, RotX(w, x, y, z, vx, vy, vz), RotX(w, y, z, x, vy, vz, vx), RotX(w, z, x, y, vz, vx, vy))
         == vx + 4.0 * (1.0 - (w * w + x * x + y * y + z * z)) * TwiceX(x, y, z, vx, vy, vz)
  {
    RotateInversePoly(w, x, y, z, vx, vy, vz);
    RotXCongr(w, x, y, z, vx, vy, vz,
              RotX(w, x, y, z, vx, vy, vz), RotX(w, y, z, x, vy, vz, vx), RotX(w, z, x, y, vz, vx, vy));
  }

  lemma RotateInverseX(q: Quat, v: Vec3)
    requires Norm2(q) == 1.0
    ensures Rotate(Conj(q), Rotate(q, v)).x == v.x
  {
    RotateInverseReal(q.w, q.x, q.y, q.z, v.x, v.y, v.z);
  }

  lemma RotateInverseY(q: Quat, v: Vec3)
    requires Norm2(q) == 1.0
    ensures Rotate(Conj(q), Rotate(q, v)).y == v.y
  {
    RotateInverseReal(q.w, q.y, q.z, q.x, v.y, v.z, v.x);
  }

  lemma RotateInverseZ(q: Quat, v: Vec3)
    requires Norm2(q) == 1.0
    ensures Rotate(Conj(q), Rotate(q, v)).z == v.z
  {
    RotateInverseReal(q.w, q.z, q.x, q.y, v.z, v.x, v.y);
  }

  /** Rotating by a unit quaternion and then by its conjugate gives back the vector. */
  lemma RotateInverse(q: Quat, v: Vec3)
    requires Norm2(q) == 1.0
    ensures Rotate(Conj(q), Rotate(q, v)) == v
  {
    RotateInverseX(q, v);
    RotateInverseY(q, v);
    RotateInverseZ(q, v);
  }

  /** ... and in the other order. */
  lemma RotateInverseConj(q: Quat, v: Vec3)
    requires Norm2(q) == 1.0
    ensures Rotate(q, Rotate(Conj(q), v)) == v
  {
    ConjConj(q);
    RotateInverse(Conj(q), v);
  }

  /** `Rotate(q, ·)` is linear. */
  lemma RotAddReal(w: real, x: real, y: real, z: real, ax: real, ay: real, az: real, bx: real, by': real, bz: real)
    ensures RotX(w, x, y, z, ax + bx, ay + by', az + bz) == RotX(w, x, y, z, ax, ay, az) + RotX(w, x, y, z, bx, by', bz)
  {
  }

  lemma RotateAdd(q: Quat, a: Vec3, b: Vec3)
    ensures Rotate(q, Add(a, b)) == Add(Rotate(q, a), Rotate(q, b))
  {
    RotAddReal(q.w, q.x, q.y, q.z, a.x, a.y, a.z, b.x, b.y, b.z);
    RotAddReal(q.w, q.y, q.z, q.x, a.y, a.z, a.x, b.y, b.z, b.x);
    RotAddReal(q.w, q.z, q.x, q.y, a.z, a.x, a.y, b.z, b.x, b.y);
  }

  lemma RotSubReal(w: real, x: real, y: real, z: real, ax: real, ay: real, az: real, bx: real, by': real, bz: real)
    ensures RotX(w, x, y, z, ax - bx, ay - by', az - bz) == RotX(w, x, y, z, ax, ay, az) - RotX(w, x, y, z, bx, by', bz)
  {
  }

  lemma RotateSub(q: Quat, a: Vec3, b: Vec3)
    ensures Rotate(q, Sub(a, b)) == Sub(Rotate(q, a), Rotate(q, b))
  {
    RotSubReal(q.w, q.x, q.y, q.z, a.x, a.y, a.z, b.x, b.y, b.z);
    RotSubReal(q.w, q.y, q.z, q.x, a.y, a.z, a.x, b.y, b.z, b.x);
    RotSubReal(q.w, q.z, q.x, q.y, a.z, a.x, a.y, b.z, b.x, b.y);
  }

  // ---------------------------------------------------------------------------
  // q (0, v) conj(q) = (0, q * v) for a unit quaternion

  lemma SandwichPoly(w: real, x: real, y: real, z: real, vx: real, vy: real, vz: real)
    ensures var mw := 0.0 - x * vx - y * vy - z * vz;
            var mx := w * vx + y * vz - z * vy;
            var my := w * vy + z * vx - x * vz;
            var mz := w * vz + x * vy - y * vx;
            var n := w * w + x * x + y * y + z * z;
            && mw * w - mx * (-x) - my * (-y) - mz * (-z) == 0.0
            && mw * (-x) + mx * w + my * (-z) - mz * (-y)
               == vx + 2.0 * (w * (y * vz - z * vy) + (y * (x * vy - y * vx) - z * (z * vx - x * vz))) + vx * (n - 1.0)
            && mw * (-y) + my * w + mz * (-x) - mx * (-z)
               == vy + 2.0 * (w * (z * vx - x * vz) + (z * (y * vz - z * vy) - x * (x * vy - y * vx))) + vy * (n - 1.0)
            && mw * (-z) + mz * w + mx * (-y) - my * (-x)
               == vz + 2.0 * (w * (x * vy - y * vx) + (x * (z * vx - x * vz) - y * (y * vz - z * vy))) + vz * (n - 1.0)
  {
  }

  lemma SandwichCongr(w: real, x: real, y: real, z: real, vx: real, vy: real, vz: real,
                      mw: real, mx: real, my: real, mz: real)
    requires mw == 0.0 - x * vx - y * vy - z * vz
    requires mx == w * vx + y * vz - z * vy
    requires my == w * vy + z * vx - x * vz
    requires mz == w * vz + x * vy - y * vx
    ensures QW(mw, mx, my, mz, w, -x, -y, -z)
         == QW(0.0 - x * vx - y * vy - z * vz, w * vx + y * vz - z * vy,
               w * vy + z * vx - x * vz, w * vz + x * vy - y * vx, w, -x, -y, -z)
    ensures QV(mw, mx, my, mz, w, -x, -y, -z)
         == QV(0.0 - x * vx - y * vy - z * vz, w * vx + y * vz - z * vy,
               w * vy + z * vx - x * vz, w * vz + x * vy - y * vx, w, -x, -y, -z)
    ensures QV(mw, my, mz, mx, w, -y, -z, -x)
         == QV(0.0 - x * vx - y * vy - z * vz, w * vy + z * vx - x * vz,
               w * vz + x * vy - y * vx, w * vx + y * vz - z * vy, w, -y, -z, -x)
    ensures QV(mw, mz, mx, my, w, -z, -x, -y)
         == QV(0.0 - x * vx - y * vy - z * vz, w * vz + x * vy - y * vx,
               w * vx + y * vz - z * vy, w * vy + z * vx - x * vz, w, -z, -x, -y)
  {
  }

  lemma SandwichReal(w: real, x: real, y: real, z: real, vx: real, vy: real, vz: real, n: real)
    requires n == w * w + x * x + y * y + z * z
    ensures var mw := QW(w, x, y, z, 0.0, vx, vy, vz);
            var mx := QV(w, x, y, z, 0.0, vx, vy, vz);
            var my := QV(w, y, z, x, 0.0, vy, vz, vx);
            var mz := QV(w, z, x, y, 0.0, vz, vx, vy);
            && QW(mw, mx, my, mz, w, -x, -y, -z) == 0.0
            && QV(mw, mx, my, mz, w, -x, -y, -z) == RotX(w, x, y, z, vx, vy, vz) + vx * (n - 1.0)
            && QV(mw, my, mz, mx, w, -y, -z, -x) == RotX(w, y, z, x, vy, vz, vx) + vy * (n - 1.0)
            && QV(mw, mz, mx, my, w, -z, -x, -y) == RotX(w, z, x, y, vz, vx, vy) + vz * (n - 1.0)
  {
    SandwichPoly(w, x, y, z, vx, vy, vz);
    SandwichCongr(w, x, y, z, vx, vy, vz,
                  QW(w, x, y, z, 0.0, vx, vy, vz), QV(w, x, y, z, 0.0, vx, vy, vz),
                  QV(w, y, z, x, 0.0, vy, vz, vx), QV(w, z, x, y, 0.0, vz, vx, vy));
  }

  /** For a unit quaternion, `q * v` is the sandwich product `q (0, v) conj(q)`. */
  lemma Sandwich(q: Quat, v: Vec3)
    requires Norm2(q) == 1.0
    ensures QMul(QMul(q, Pure(v)), Conj(q)) == Pure(Rotate(q, v))
  {
    var m := QMul(q, Pure(v));
    var c := Conj(q);
    assert c == Quat(q.w, -q.x, -q.y, -q.z);
    assert m.w == QW(q.w, q.x, q.y, q.z, 0.0, v.x, v.y, v.z);
    assert m.x == QV(q.w, q.x, q.y, q.z, 0.0, v.x, v.y, v.z);
    assert m.y == QV(q.w, q.y, q.z, q.x, 0.0, v.y, v.z, v.x);
    assert m.z == QV(q.w, q.z, q.x, q.y, 0.0, v.z, v.x, v.y);
    SandwichReal(q.w, q.x, q.y, q.z, v.x, v.y, v.z, Norm2(q));
  }

  lemma PureLength(v: Vec3)
    ensures Norm2(Pure(v)) == Length2(v)
  {
  }

  /** A unit quaternion preserves lengths: |q * v|² = |q|² |v|² |conj q|². */
  lemma RotatePreservesLength(q: Quat, v: Vec3)
    requires Norm2(q) == 1.0
    ensures Length2(Rotate(q, v)) == Length2(v)
  {
    var r := Rotate(q, v);
    var m := QMul(q, Pure(v));
    PureLength(r);
    PureLength(v);
    Sandwich(q, v);
    NormMul(m, Conj(q));
    NormMul(q, Pure(v));
    ConjConj(q);
    assert Norm2(Pure(r)) == Norm2(m) * Norm2(Conj(q));
    assert Norm2(m) == Norm2(Pure(v));
  }

  /** Rotating by a product of unit quaternions is rotating by each in turn. */
  lemma RotateCompose(a: Quat, b: Quat, v: Vec3)
    requires Norm2(a) == 1.0 && Norm2(b) == 1.0
    ensures Norm2(QMul(a, b)) == 1.0
    ensures Rotate(QMul(a, b), v) == Rotate(a, Rotate(b, v))
  {
    NormMul(a, b);
    var ab := QMul(a, b);
    var pv := Pure(v);
    var t := Rotate(b, v);
    calc {
      Pure(Rotate(ab, v));
    == { Sandwich(ab, v); }
      QMul(QMul(ab, pv), Conj(ab));
    == { ConjMul(a, b); QMulAssoc(a, b, pv); }
      QMul(QMul(a, QMul(b, pv)), QMul(Conj(b), Conj(a)));
    == { QMulAssoc(a, QMul(b, pv), QMul(Conj(b), Conj(a))); }
      QMul(a, QMul(QMul(b, pv), QMul(Conj(b), Conj(a))));
    == { QMulAssoc(QMul(b, pv), Conj(b), Conj(a)); }
      QMul(a, QMul(QMul(QMul(b, pv), Conj(b)), Conj(a)));
    == { Sandwich(b, v); }
      QMul(a, QMul(Pure(t), Conj(a)));
    == { QMulAssoc(a, Pure(t), Conj(a)); }
      QMul(QMul(a, Pure(t)), Conj(a));
    == { Sandwich(a, t); }
      Pure(Rotate(a, t));
    }
  }

  // ---------------------------------------------------------------------------
  // The first-order orientation update of `applyRotation`

  lemma FirstOrderReal(qw: real, qx: real, qy: real, qz: real, ux: real, uy: real, uz: real)
    ensures qw + 0.5 * QW(0.0, ux, uy, uz, qw, qx, qy, qz) == QW(1.0, 0.5 * ux, 0.5 * uy, 0.5 * uz, qw, qx, qy, qz)
    ensures qx + 0.5 * QV(0.0, ux, uy, uz, qw, qx, qy, qz) == QV(1.0, 0.5 * ux, 0.5 * uy, 0.5 * uz, qw, qx, qy, qz)
  {
  }

  /** `q + ½ (0, u) q` is the product `(1, ½u) q`. */
  lemma FirstOrderProduct(q: Quat, u: Vec3)
    ensures var dq := QMul(Pure(u), q);
            Quat(q.w + 0.5 * dq.w, q.x + 0.5 * dq.x, q.y + 0.5 * dq.y, q.z + 0.5 * dq.z)
              == QMul(Quat(1.0, 0.5 * u.x, 0.5 * u.y, 0.5 * u.z), q)
  {
    FirstOrderReal(q.w, q.x, q.y, q.z, u.x, u.y, u.z);
    FirstOrderReal(q.w, q.y, q.z, q.x, u.y, u.z, u.x);
    FirstOrderReal(q.w, q.z, q.x, q.y, u.z, u.x, u.y);
  }

  /** ... so its norm is `(1 + ¼|u|²) |q|²`. */
  lemma FirstOrderStep(q: Quat, u: Vec3)
    ensures var dq := QMul(Pure(u), q);
            Norm2(Quat(q.w + 0.5 * dq.w, q.x + 0.5 * dq.x, q.y + 0.5 * dq.y, q.z + 0.5 * dq.z))
              == (1.0 + 0.25 * Length2(u)) * Norm2(q)
  {
    var p := Quat(1.0, 0.5 * u.x, 0.5 * u.y, 0.5 * u.z);
    var dq := QMul(Pure(u), q);
    var r := Quat(q.w + 0.5 * dq.w, q.x + 0.5 * dq.x, q.y + 0.5 * dq.y, q.z + 0.5 * dq.z);
    FirstOrderProduct(q, u);
    assert r == QMul(p, q);
    assert Norm2(p) == 1.0 + 0.25 * Length2(u);
    NormMul(p, q);
  }
}
