/** Rigid bodies.

    `Body` is the value of every field of a `RigidBody` that the physics core reads
    or writes; its member functions say what each operation of the engine's
    `RigidBody` does to that value.  The class `RigidBody` holds the same fields as
    mutable state, and each of its methods updates them in place as the engine does
    and is proved to agree with the function of the same name. */
module Bodies {
  import opened Vectors
  import opened Algebra
  import opened Poses
  import opened Colliders

  /** Squared speed below which a body may fall asleep, and above which it wakes. */
  const SleepThreshold: real := 0.01
  /** Squared speed below which `checkSleepState` damps a velocity. */
  const DampThreshold: real := 0.2
  /** Time a body must stay slow before it falls asleep. */
  const SleepHoldTime: real := 0.6666
  /** Largest rotation angle, in radians, that `applyRotation` applies at once. */
  const MaxPhi: real := 0.5
  /** `applyCorrection` treats a position closer than this to the world origin as
      "no position": the correction is then a pure rotation. */
  const CorrectionOriginEps: real := 0.00001
  /** `getInverseMass` uses the same test with a larger epsilon. */
  const InverseMassOriginEps: real := 0.0001

  datatype Body = Body(
    pose: Pose, prevPose: Pose,
    vel: Vec3, omega: Vec3, velPrev: Vec3, omegaPrev: Vec3,
    force: Vec3, torque: Vec3,
    invMass: real, invInertia: Vec3, gravity: real,
    isDynamic: bool, isSleeping: bool, sleepTimer: real, canSleep: bool, canCollide: bool,
    restitution: real, staticFriction: real, dynamicFriction: real,
    id: int, name: string, collider: Collider)
  {
    /** A body the solver moves: dynamic and awake. */
    predicate Active() { isDynamic && !isSleeping }

    /** The inverse mass and the diagonal inverse inertia are not negative. */
    predicate MassOk() { 0.0 <= invMass && 0.0 <= invInertia.x && 0.0 <= invInertia.y && 0.0 <= invInertia.z }

    /** Every velocity and every accumulator is zero. */
    predicate AtRest() {
      vel == Zero && omega == Zero && velPrev == Zero && omegaPrev == Zero && force == Zero && torque == Zero
    }

    /** `updateCollider()`: a static body first expands its bounding box, then the
        collider's world cache follows the pose.  Only the collider changes, and it
        keeps its kind and its validity. */
    function UpdateCollider(o: Oracles): (r: Body)
      ensures o.Sound() ==> r.collider.Kind() == collider.Kind()
      ensures o.Sound() && collider.Valid() ==> r.collider.Valid()
    {
      var c := if !isDynamic then o.expandAABB(collider) else collider;
      this.(collider := o.updateGlobalPose(c, pose))
    }

    /** `applyRotation(rot, scale)`: first-order integration of the orientation by
        the rotation vector `rot * scale`, clamped to `MaxPhi`, then normalized.
        Only the orientation changes, and it comes out of unit length; a zero
        orientation becomes the identity. */
    function ApplyRotation(rot: Vec3, scale: real, o: Oracles): (r: Body)
      requires o.Sound()
      ensures r == this.(pose := r.pose) && r.pose.p == pose.p
      ensures Norm2(r.pose.q) == 1.0
      ensures pose.q == Quat(0.0, 0.0, 0.0, 0.0) ==> r.pose.q == Identity
    {
      var s := EffectiveScale(Length(o.sqrt, rot), scale);
      FirstOrderUnit(o.sqrt, pose.q, Scale(rot, s));
      this.(pose := pose.(q := QNormalize(o.sqrt, FirstOrderTurn(pose.q, Scale(rot, s)))))
    }

    /** `integrate(h)`: a semi-implicit Euler step of a dynamic, awake body;
        `IntegrateEffect` states what it does. */
    function Integrate(h: real, o: Oracles): Body
      requires o.Sound()
    {
      if !isDynamic then this
      else if isSleeping then this
      else
        var v1 := Add(vel, Scale(Vec3(0.0, gravity, 0.0), h));
        var v2 := Add(v1, Scale(Scale(force, invMass), h));
        var w := Add(omega, Scale(Mul(torque, invInertia), h));
        var b := this.(prevPose := pose, vel := v2, pose := pose.(p := Add(pose.p, Scale(v2, h))), omega := w);
        b.ApplyRotation(w, h, o)
    }

    /** `update(h)`: the velocities recovered from the motion since `prevPose`;
        `UpdateEffect` states what it does. */
    function Update(h: real, o: Oracles): Body
      requires h != 0.0
    {
      if !isDynamic then this
      else if isSleeping then this
      else
        var dq := QMul(pose.q, Conj(prevPose.q));
        var w := Vec3(dq.x * 2.0 / h, dq.y * 2.0 / h, dq.z * 2.0 / h);
        var b := this.(velPrev := vel, omegaPrev := omega, vel := Div(Sub(pose.p, prevPose.p), h),
                       omega := if dq.w < 0.0 then Vec3(-w.x, -w.y, -w.z) else w);
        b.UpdateCollider(o)
    }

    /** `applyCorrection(corr, pos, velocityLevel)`: a positional (or, at velocity
        level, an impulsive) correction `corr` applied at the world point `pos`;
        `ApplyCorrectionEffect` states what it does. */
    function ApplyCorrection(corr: Vec3, pos: Vec3, velocityLevel: bool, o: Oracles): Body
      requires o.Sound()
    {
      if !isDynamic then this
      else
        var ba := if Length(o.sqrt, pos) < CorrectionOriginEps then this
                  else if velocityLevel then this.(vel := Add(vel, Scale(corr, invMass)))
                  else this.(pose := pose.(p := Add(pose.p, Scale(corr, invMass))));
        var dq := if Length(o.sqrt, pos) < CorrectionOriginEps then corr else Cross(Sub(pos, ba.pose.p), corr);
        var dw := ba.pose.Rotate(Mul(invInertia, ba.pose.InvRotate(dq)));
        if velocityLevel then ba.(omega := Add(ba.omega, dw)) else ba.ApplyRotation(dw, 1.0, o)
    }

    /** `getInverseMass(normal, pos)`: the generalized inverse mass along `normal`
        at the world point `pos`.  It is zero for a static body, never negative
        when the mass data are not, and includes `invMass` away from the origin. */
    function GetInverseMass(normal: Vec3, pos: Vec3, o: Oracles): (r: real)
      requires o.Sound()
      ensures !isDynamic ==> r == 0.0
      ensures MassOk() ==> 0.0 <= r
      ensures MassOk() && isDynamic && Length(o.sqrt, pos) > InverseMassOriginEps ==> invMass <= r
      ensures isDynamic && Length(o.sqrt, pos) < InverseMassOriginEps ==> r == AngularInverseMass(pose.InvRotate(normal), invInertia)
    {
      if !isDynamic then 0.0
      else
        var n0 := if Length(o.sqrt, pos) < InverseMassOriginEps then normal else Cross(Sub(pos, pose.p), normal);
        var n := pose.InvRotate(n0);
        var w := AngularInverseMass(n, invInertia);
        WeightedSquaresNonNegative(n, invInertia);
        if Length(o.sqrt, pos) > InverseMassOriginEps then w + invMass else w
    }

    /** `getVelocityAt(pos)`: zero for a static body, otherwise the rigid velocity
        field `vel + omega × (pos - p)`; `VelocityField` states what that means. */
    function GetVelocityAt(pos: Vec3): (r: Vec3)
      ensures !isDynamic ==> r == Zero
      ensures isDynamic ==> Sub(r, vel) == Cross(omega, Sub(pos, pose.p))
    {
      if !isDynamic then Zero else Add(vel, Cross(omega, Sub(pos, pose.p)))
    }

    /** `localToWorld(v)`. */
    function LocalToWorld(v: Vec3): Vec3 { Add(Vectors.Rotate(pose.q, v), pose.p) }

    /** `worldToLocal(v)`. */
    function WorldToLocal(v: Vec3): Vec3 { Vectors.Rotate(Conj(pose.q), Sub(v, pose.p)) }

    /** `sleep()`; `SleepEffect` states what it does. */
    function Sleep(): Body {
      if isSleeping then this
      else this.(prevPose := pose, force := Zero, torque := Zero, vel := Zero, omega := Zero,
                 velPrev := Zero, omegaPrev := Zero, isSleeping := true)
    }

    /** `wake()`; `WakeEffect` states what it does. */
    function Wake(): Body {
      if !isSleeping then this else this.(isSleeping := false, sleepTimer := 0.0)
    }

    /** `checkSleepState(dt)`; `SleepingBodyWakes`, `AwakeBodySettles` and `SleepStateSlows` state its cases. */
    function CheckSleepState(dt: real, o: Oracles): Body {
      if !canSleep then this
      else
        var velLen := Length2(vel);
        var omegaLen := Length2(omega);
        if isSleeping then
          if velLen > SleepThreshold || omegaLen > SleepThreshold then Wake() else this
        else
          var damping := o.damping(dt);
          var b1 := if velLen < DampThreshold then this.(vel := Scale(vel, damping)) else this;
          var b2 := if omegaLen < DampThreshold then b1.(omega := Scale(omega, damping)) else b1;
          if velLen < SleepThreshold && omegaLen < SleepThreshold then
            if sleepTimer > SleepHoldTime then b2.Sleep() else b2.(sleepTimer := sleepTimer + dt)
          else b2
    }

    /** `applyForce(force, position)`; `AccumulateEffect` states what it does. */
    function ApplyForce(f: Vec3, position: Vec3): Body {
      var b := Wake();
      b.(force := Add(b.force, f), torque := Add(b.torque, Cross(f, Sub(b.pose.p, position))))
    }

    /** `applyTorque(torque)`; `AccumulateEffect` states what it does. */
    function ApplyTorque(t: Vec3): Body {
      var b := Wake();
      b.(torque := Add(b.torque, t))
    }

    /** `makeStatic()`; `MakeStaticFrozen` states what follows from it. */
    function MakeStatic(o: Oracles): Body {
      this.(isDynamic := false, gravity := 0.0, invMass := 0.0, invInertia := Zero, prevPose := pose).UpdateCollider(o)
    }

    /** `disableCollision()`. */
    function DisableCollision(): Body { this.(canCollide := false) }

    /** `setBox(size, density)`: the mass properties of a uniform box;
        `SetBoxMassData` states what they are. */
    function SetBox(size: Vec3, density: real): Body
      requires BoxMass(size, density) != 0.0
    {
      var mass := BoxMass(size, density);
      BoxSumsNonZero(size, density);
      var m12 := mass / 12.0;
      this.(invMass := 1.0 / mass,
            invInertia := Vec3(1.0 / SquareSum(size.y, size.z) / m12,
                               1.0 / SquareSum(size.z, size.x) / m12,
                               1.0 / SquareSum(size.x, size.y) / m12))
    }

    /** `setPosition(position)`: `prevPose` follows the pose, so the move is not a
        velocity (`TeleportHasNoVelocity`). */
    function SetPosition(position: Vec3, o: Oracles): Body {
      var b := this.(pose := pose.(p := position));
      b.(prevPose := b.pose).UpdateCollider(o)
    }

    /** `setRotation(rotation)`, likewise for the orientation. */
    function SetRotation(rotation: Quat, o: Oracles): Body {
      var b := this.(pose := pose.(q := rotation));
      b.(prevPose := b.pose).UpdateCollider(o)
    }
  }

  /** The rotational part of `getInverseMass` for a direction `n` in body space. */
  function AngularInverseMass(n: Vec3, invInertia: Vec3): real {
    n.x * n.x * invInertia.x + n.y * n.y * invInertia.y + n.z * n.z * invInertia.z
  }

  /** The scale `applyRotation` uses: `scale`, unless the rotation angle
      `phi * scale` would exceed `MaxPhi`. */
  function EffectiveScale(phi: real, scale: real): (s: real)
    requires 0.0 <= phi
    ensures phi * s <= MaxPhi || s == scale
    ensures phi * scale <= MaxPhi ==> s == scale
    ensures phi * scale > MaxPhi ==> phi * s == MaxPhi && 0.0 < s < scale
  {
    if phi * scale > MaxPhi then MaxPhi / phi else scale
  }

  /** The mass of a uniform box. */
  function BoxMass(size: Vec3, density: real): real { size.x * size.y * size.z * density }

  /** `a² + b²`, the sum `setBox` divides by. */
  function SquareSum(a: real, b: real): real { a * a + b * b }

  /** For a box of non-zero mass every side is non-zero, so the sums of squares
      `setBox` divides by are not zero (they are positive). */
  lemma BoxSumsNonZero(size: Vec3, density: real)
    requires BoxMass(size, density) != 0.0
    ensures SquareSum(size.y, size.z) != 0.0
    ensures SquareSum(size.z, size.x) != 0.0
    ensures SquareSum(size.x, size.y) != 0.0
  {
    var m := size.x * size.y * size.z * density;
    assert m != 0.0;
    assert size.x != 0.0 && size.y != 0.0 && size.z != 0.0;
    SquareSign(size.x);
    SquareSign(size.y);
    SquareSign(size.z);
  }

  /** A weighted sum of squares with non-negative weights is not negative. */
  lemma WeightedSquaresNonNegative(n: Vec3, weights: Vec3)
    ensures 0.0 <= weights.x && 0.0 <= weights.y && 0.0 <= weights.z ==> 0.0 <= AngularInverseMass(n, weights)
  {
    SquareSign(n.x);
    SquareSign(n.y);
    SquareSign(n.z);
  }

  lemma DivMul(a: real, h: real)
    requires h != 0.0
    ensures (a / h) * h == a
  {
  }

  lemma DivTimes(v: Vec3, h: real)
    requires h != 0.0
    ensures Scale(Div(v, h), h) == v
  {
    DivMul(v.x, h);
    DivMul(v.y, h);
    DivMul(v.z, h);
  }

  lemma MulCancel(a: real, b: real, h: real)
    requires h != 0.0 && a * h == b * h
    ensures a == b
  {
  }

  lemma ScaleCancel(a: Vec3, b: Vec3, h: real)
    requires h != 0.0 && Scale(a, h) == Scale(b, h)
    ensures a == b
  {
    MulCancel(a.x, b.x, h);
    MulCancel(a.y, b.y, h);
    MulCancel(a.z, b.z, h);
  }

  /** The inverse moment `setBox` computes is the reciprocal of `m s / 12`. */
  lemma BoxInertia(s: real, m: real)
    requires s != 0.0 && m != 0.0
    ensures (1.0 / s / (m / 12.0)) * (m * s / 12.0) == 1.0
  {
    var a := 1.0 / s;
    var m12 := m / 12.0;
    var b := a / m12;
    assert a * s == 1.0;
    assert b * m12 == a;
    assert m * s / 12.0 == m12 * s;
    assert b * (m12 * s) == (b * m12) * s;
  }

  lemma PositiveProduct(a: real, b: real)
    requires 0.0 < a && 0.0 < b
    ensures 0.0 < a * b
  {
  }

  lemma MulMono(a: real, b: real, c: real)
    requires 0.0 <= a && b <= c
    ensures a * b <= a * c
  {
  }

  /** `q + ½ (0, u) q`, the first-order step of `applyRotation` by the rotation
      vector `u` before it is normalized. */
  function FirstOrderTurn(q: Quat, u: Vec3): Quat {
    var dq := QMul(Pure(u), q);
    Quat(q.w + 0.5 * dq.w, q.x + 0.5 * dq.x, q.y + 0.5 * dq.y, q.z + 0.5 * dq.z)
  }

  /** The normalized first-order step always gives a unit quaternion; from the
      zero orientation the step stays at zero, so its normalization is the
      identity. */
  lemma FirstOrderUnit(sqrt: real -> real, q: Quat, u: Vec3)
    requires IsSqrt(sqrt)
    ensures Norm2(QNormalize(sqrt, FirstOrderTurn(q, u))) == 1.0
    ensures q == Quat(0.0, 0.0, 0.0, 0.0) ==> QNormalize(sqrt, FirstOrderTurn(q, u)) == Identity
  {
    QNormalizeUnit(sqrt, FirstOrderTurn(q, u));
    if q == Quat(0.0, 0.0, 0.0, 0.0) {
      assert FirstOrderTurn(q, u) == q;
      QNormalizeZero(sqrt);
    }
  }

  // ---------------------------------------------------------------------------
  // Properties of the body operations that relate several calls.

  /** After `makeStatic` the body is frozen: integration, velocity update and
      corrections leave it as it is, and it adds nothing to a multiplier solve. */
  lemma MakeStaticFrozen(b: Body, o: Oracles, h: real, corr: Vec3, pos: Vec3, velocityLevel: bool, normal: Vec3)
    requires o.Sound() && h != 0.0
    ensures var s := b.MakeStatic(o);
            && !s.isDynamic && s.gravity == 0.0 && s.invMass == 0.0 && s.invInertia == Zero
            && s.prevPose == s.pose == b.pose
            && s.Integrate(h, o) == s
            && s.Update(h, o) == s
            && s.ApplyCorrection(corr, pos, velocityLevel, o) == s
            && s.GetInverseMass(normal, pos, o) == 0.0
            && s.GetVelocityAt(pos) == Zero
  {
  }

  /** What `integrate` does: a static or sleeping body is left as it is.  An
      active one keeps its old pose in `prevPose`, takes the velocity increment
      `(gravity + force * invMass) * h`, advances its position by the NEW velocity
      (semi-implicit Euler), adds `torque * invInertia * h` to `omega`, and turns
      with a unit orientation; nothing but the pose, `prevPose`, `vel` and `omega`
      changes. */
  lemma IntegrateEffect(b: Body, h: real, o: Oracles)
    requires o.Sound()
    ensures var r := b.Integrate(h, o);
            && (!b.Active() ==> r == b)
            && (b.Active() ==>
                  && r.prevPose == b.pose
                  && r.vel == Add(b.vel, Scale(Add(Vec3(0.0, b.gravity, 0.0), Scale(b.force, b.invMass)), h))
                  && r.pose.p == Add(b.pose.p, Scale(r.vel, h))
                  && r.omega == Add(b.omega, Scale(Mul(b.torque, b.invInertia), h))
                  && Norm2(r.pose.q) == 1.0)
            && r.(pose := b.pose, prevPose := b.prevPose, vel := b.vel, omega := b.omega) == b
  {
    if b.Active() {
      var g := Vec3(0.0, b.gravity, 0.0);
      var a := Scale(b.force, b.invMass);
      assert Add(Add(b.vel, Scale(g, h)), Scale(a, h)) == Add(b.vel, Scale(Add(g, a), h));
    }
  }

  /** What `update` does: a static or sleeping body is left as it is.  An active
      one keeps its old velocities in `velPrev`/`omegaPrev`; its new velocity
      carries `prevPose.p` to the current position in time `h` (`UpdateSpin`
      states the angular part).  Only the velocities and the collider change. */
  lemma UpdateEffect(b: Body, h: real, o: Oracles)
    requires h != 0.0
    ensures var r := b.Update(h, o);
            && (!b.Active() ==> r == b)
            && (b.Active() ==>
                  && r.velPrev == b.vel && r.omegaPrev == b.omega
                  && Add(b.prevPose.p, Scale(r.vel, h)) == b.pose.p)
            && r.(vel := b.vel, omega := b.omega, velPrev := b.velPrev, omegaPrev := b.omegaPrev, collider := b.collider) == b
  {
    if b.Active() {
      DivTimes(Sub(b.pose.p, b.prevPose.p), h);
    }
  }

  /** The angular velocity `update` recovers: `omega * h` is twice the vector
      part of the relative rotation `q * conj(prevPose.q)`, negated when its real
      part is negative so that the shorter arc is taken. */
  lemma UpdateSpin(b: Body, h: real, o: Oracles)
    requires h != 0.0 && b.Active()
    ensures var dq := QMul(b.pose.q, Conj(b.prevPose.q));
            Scale(b.Update(h, o).omega, h) == Scale(Vec3(dq.x, dq.y, dq.z), if dq.w < 0.0 then -2.0 else 2.0)
  {
    var dq := QMul(b.pose.q, Conj(b.prevPose.q));
    SpinRecovered(Vec3(dq.x, dq.y, dq.z), dq.w < 0.0, h);
  }

  lemma SpinRecovered(u: Vec3, flip: bool, h: real)
    requires h != 0.0
    ensures var w := Vec3(u.x * 2.0 / h, u.y * 2.0 / h, u.z * 2.0 / h);
            Scale(if flip then Vec3(-w.x, -w.y, -w.z) else w, h) == Scale(u, if flip then -2.0 else 2.0)
  {
    DivMul(u.x * 2.0, h);
    DivMul(u.y * 2.0, h);
    DivMul(u.z * 2.0, h);
  }

  /** `update` after `integrate` with the same step recovers the velocity the
      integration used, and keeps the same one in `velPrev`. */
  lemma IntegrateThenUpdate(b: Body, h: real, o: Oracles)
    requires o.Sound() && h != 0.0 && b.Active()
    ensures var i := b.Integrate(h, o);
            i.Update(h, o).vel == i.vel && i.Update(h, o).velPrev == i.vel
  {
    var i := b.Integrate(h, o);
    IntegrateEffect(b, h, o);
    UpdateEffect(i, h, o);
    var u := i.Update(h, o);
    assert Scale(u.vel, h) == Scale(i.vel, h);
    ScaleCancel(u.vel, i.vel, h);
  }

  /** What `applyCorrection` does: a static body is not changed; a sleeping one
      is.  Only the pose, `vel` and `omega` can change: at velocity level the
      pose never does, at position level the velocities never do.  Away from the
      world origin the linear part is `corr * invMass`; at the origin there is
      none.  A positional correction always leaves a unit orientation. */
  lemma ApplyCorrectionEffect(b: Body, corr: Vec3, pos: Vec3, velocityLevel: bool, o: Oracles)
    requires o.Sound()
    ensures var r := b.ApplyCorrection(corr, pos, velocityLevel, o);
            && (!b.isDynamic ==> r == b)
            && r.(pose := b.pose, vel := b.vel, omega := b.omega) == b
            && (velocityLevel ==> r.pose == b.pose)
            && (!velocityLevel ==> r.vel == b.vel && r.omega == b.omega)
            && (b.isDynamic && Length(o.sqrt, pos) < CorrectionOriginEps ==> r.vel == b.vel && r.pose.p == b.pose.p)
            && (b.isDynamic && Length(o.sqrt, pos) >= CorrectionOriginEps ==>
                  if velocityLevel then r.vel == Add(b.vel, Scale(corr, b.invMass))
                  else r.pose.p == Add(b.pose.p, Scale(corr, b.invMass)))
            && (b.isDynamic && !velocityLevel ==> Norm2(r.pose.q) == 1.0)
  {
  }

  /** What `sleep` does: an awake body comes to rest and keeps its pose in
      `prevPose`; nothing else changes (the sleep timer in particular), and a
      sleeping body is not changed at all. */
  lemma SleepEffect(b: Body)
    ensures var r := b.Sleep();
            && r.isSleeping
            && (b.isSleeping ==> r == b)
            && (!b.isSleeping ==> r.AtRest() && r.prevPose == b.pose && r.sleepTimer == b.sleepTimer)
            && (!b.isSleeping ==>
                  r.(vel := b.vel, omega := b.omega, velPrev := b.velPrev, omegaPrev := b.omegaPrev,
                     force := b.force, torque := b.torque, prevPose := b.prevPose, isSleeping := false) == b)
  {
  }

  /** What `wake` does: the body is awake afterwards; waking a sleeping body
      resets its sleep timer and changes nothing else, and an awake body is not
      changed. */
  lemma WakeEffect(b: Body)
    ensures var r := b.Wake();
            && !r.isSleeping
            && (!b.isSleeping ==> r == b)
            && (b.isSleeping ==> r.sleepTimer == 0.0 && r.(isSleeping := true, sleepTimer := b.sleepTimer) == b)
  {
  }

  /** `applyForce` and `applyTorque` wake the body first and then only add to the
      accumulators: the force, and its torque `f × (p - position)` about the
      centre of mass. */
  lemma AccumulateEffect(b: Body, f: Vec3, position: Vec3, t: Vec3)
    ensures var r := b.ApplyForce(f, position);
            && !r.isSleeping
            && r.force == Add(b.force, f) && r.torque == Add(b.torque, Cross(f, Sub(b.pose.p, position)))
            && r.(force := b.force, torque := b.torque) == b.Wake()
    ensures var r := b.ApplyTorque(t);
            !r.isSleeping && r.torque == Add(b.torque, t) && r.(torque := b.torque) == b.Wake()
  {
  }

  /** The mass data `setBox` sets: `invMass` is the reciprocal of the box's mass
      and each inverse moment of inertia the reciprocal of `m (b² + c²) / 12` over
      the two other sides; nothing else changes. */
  lemma SetBoxMassData(b: Body, size: Vec3, density: real)
    requires BoxMass(size, density) != 0.0
    ensures var r := b.SetBox(size, density);
            var m := BoxMass(size, density);
            && r.(invMass := b.invMass, invInertia := b.invInertia) == b
            && r.invMass * m == 1.0
            && r.invInertia.x * (m * SquareSum(size.y, size.z) / 12.0) == 1.0
            && r.invInertia.y * (m * SquareSum(size.z, size.x) / 12.0) == 1.0
            && r.invInertia.z * (m * SquareSum(size.x, size.y) / 12.0) == 1.0
  {
    var m := BoxMass(size, density);
    BoxSumsNonZero(size, density);
    BoxInertia(SquareSum(size.y, size.z), m);
    BoxInertia(SquareSum(size.z, size.x), m);
    BoxInertia(SquareSum(size.x, size.y), m);
  }

  /** A box of positive sides and density gets positive mass data, so it
      satisfies `MassOk`. */
  lemma SetBoxPositive(b: Body, size: Vec3, density: real)
    requires 0.0 < size.x && 0.0 < size.y && 0.0 < size.z && 0.0 < density
    ensures BoxMass(size, density) != 0.0
    ensures var r := b.SetBox(size, density);
            0.0 < r.invMass && 0.0 < r.invInertia.x && 0.0 < r.invInertia.y && 0.0 < r.invInertia.z && r.MassOk()
  {
    PositiveProduct(size.x, size.y);
    PositiveProduct(size.x * size.y, size.z);
    PositiveProduct(size.x * size.y * size.z, density);
    var m := BoxMass(size, density);
    var m12 := m / 12.0;
    BoxInversePositive(size.y, size.z, m12);
    BoxInversePositive(size.z, size.x, m12);
    BoxInversePositive(size.x, size.y, m12);
  }

  lemma BoxInversePositive(a: real, c: real, m12: real)
    requires 0.0 < a && 0.0 < c && 0.0 < m12
    ensures 0.0 < SquareSum(a, c) && 0.0 < 1.0 / SquareSum(a, c) / m12
  {
    SquareSign(a);
    SquareSign(c);
    var s := SquareSum(a, c);
    assert 0.0 < s;
    assert 0.0 < 1.0 / s;
  }

  /** `setPosition` and `setRotation` replace one half of the pose, make
      `prevPose` equal to the new pose and refresh the collider; nothing else
      changes. */
  lemma SetterEffect(b: Body, position: Vec3, rotation: Quat, o: Oracles)
    ensures var r := b.SetPosition(position, o);
            && r.pose == Pose(position, b.pose.q) && r.prevPose == r.pose
            && r.(pose := b.pose, prevPose := b.prevPose, collider := b.collider) == b
    ensures var r := b.SetRotation(rotation, o);
            && r.pose == Pose(b.pose.p, rotation) && r.prevPose == r.pose
            && r.(pose := b.pose, prevPose := b.prevPose, collider := b.collider) == b
  {
  }

  /** `q * conjugate(q)` has no vector part and a real part that is not negative. */
  lemma SelfRelative(q: Quat)
    ensures var dq := QMul(q, Conj(q));
            dq.x == 0.0 && dq.y == 0.0 && dq.z == 0.0 && 0.0 <= dq.w
  {
    QNormNonNegative(q);
    assert QMul(q, Conj(q)).w == Norm2(q);
  }

  /** A body placed with `setPosition` or `setRotation` has no velocity at the next
      `update`: the teleport is not mistaken for motion. */
  lemma TeleportHasNoVelocity(b: Body, position: Vec3, rotation: Quat, h: real, o: Oracles)
    requires h != 0.0
    ensures var u := b.SetPosition(position, o).Update(h, o);
            u.Active() ==> u.vel == Zero && u.omega == Zero
    ensures var u := b.SetRotation(rotation, o).Update(h, o);
            u.Active() ==> u.vel == Zero && u.omega == Zero
  {
    SelfRelative(b.pose.q);
    SelfRelative(rotation);
  }

  /** Velocities at two points of an active body differ by `omega × (a - c)`, the
      velocity field of a rigid motion. */
  lemma VelocityField(b: Body, a: Vec3, c: Vec3)
    requires b.isDynamic
    ensures Sub(b.GetVelocityAt(a), b.GetVelocityAt(c)) == Cross(b.omega, Sub(a, c))
  {
  }

  /** For a unit orientation, `worldToLocal` undoes `localToWorld` and the other way
      round; both are the body pose's `transform` and `invTransform`. */
  lemma LocalWorldRoundTrip(b: Body, v: Vec3)
    requires b.pose.Unit()
    ensures b.LocalToWorld(v) == b.pose.Transform(v)
    ensures b.WorldToLocal(v) == b.pose.InvTransform(v)
    ensures b.WorldToLocal(b.LocalToWorld(v)) == v
    ensures b.LocalToWorld(b.WorldToLocal(v)) == v
  {
    TransformRoundTrip(b.pose, v);
  }

  /** Damping by a factor in (0, 1] never increases a squared speed. */
  lemma DampingSlows(v: Vec3, k: real)
    requires 0.0 < k <= 1.0
    ensures Length2(Scale(v, k)) <= Length2(v)
  {
    ScaleLength2(v, k);
    SquaresNonNegative(v);
    MulMono(k, Id(k), 1.0);
    MulMono(Length2(v), k * Id(k), 1.0);
  }

  /** Keeping, damping or zeroing a velocity never increases its square. */
  lemma KeptDampedOrStopped(u: Vec3, k: real, u': Vec3)
    requires 0.0 < k <= 1.0
    requires u' == u || u' == Scale(u, k) || u' == Zero
    ensures Length2(u') <= Length2(u)
  {
    DampingSlows(u, k);
    SquaresNonNegative(u);
  }

  /** `checkSleepState` on a body that cannot sleep does nothing; on a sleeping body
      it wakes it exactly when one squared speed exceeds `SleepThreshold` (resetting
      the timer) and otherwise leaves it unchanged. */
  lemma SleepingBodyWakes(b: Body, dt: real, o: Oracles)
    ensures b.CheckSleepState(dt, o).pose == b.pose
    ensures !b.canSleep ==> b.CheckSleepState(dt, o) == b
    ensures b.canSleep && b.isSleeping ==>
              var r := b.CheckSleepState(dt, o);
              && (r.isSleeping <==> !(Length2(b.vel) > SleepThreshold || Length2(b.omega) > SleepThreshold))
              && (r.isSleeping ==> r == b)
              && (!r.isSleeping ==> r == b.(isSleeping := false, sleepTimer := 0.0))
  {
  }

  /** On an awake body that can sleep, `checkSleepState` puts it to sleep exactly when
      both squared speeds are below `SleepThreshold` and the timer has passed
      `SleepHoldTime`, and it then comes to rest where it stands; otherwise it
      advances the timer by `dt` while both speeds are below the threshold and leaves
      the timer alone (it is not reset) when one is not. */
  lemma AwakeBodySettles(b: Body, dt: real, o: Oracles)
    requires b.canSleep && !b.isSleeping
    ensures var r := b.CheckSleepState(dt, o);
            var slow := Length2(b.vel) < SleepThreshold && Length2(b.omega) < SleepThreshold;
            && (r.isSleeping <==> slow && b.sleepTimer > SleepHoldTime)
            && (r.isSleeping ==> r.AtRest() && r.prevPose == b.pose)
            && (!r.isSleeping && slow ==> r.sleepTimer == b.sleepTimer + dt)
            && (!slow ==> r.sleepTimer == b.sleepTimer)
  {
  }

  /** `checkSleepState` keeps, damps or zeroes each velocity. */
  lemma SleepStateVelocities(b: Body, dt: real, o: Oracles)
    ensures var r := b.CheckSleepState(dt, o);
            var k := o.damping(dt);
            && (r.vel == b.vel || r.vel == Scale(b.vel, k) || r.vel == Zero)
            && (r.omega == b.omega || r.omega == Scale(b.omega, k) || r.omega == Zero)
  {
  }

  /** `checkSleepState` never increases a squared speed. */
  lemma SleepStateSlows(b: Body, dt: real, o: Oracles)
    requires o.Sound() && 0.0 <= dt
    ensures Length2(b.CheckSleepState(dt, o).vel) <= Length2(b.vel)
    ensures Length2(b.CheckSleepState(dt, o).omega) <= Length2(b.omega)
  {
    SleepStateVelocities(b, dt, o);
    KeptDampedOrStopped(b.vel, o.damping(dt), b.CheckSleepState(dt, o).vel);
    KeptDampedOrStopped(b.omega, o.damping(dt), b.CheckSleepState(dt, o).omega);
  }

  /** A force through the centre of mass adds no torque. */
  lemma CentralForce(b: Body, f: Vec3)
    ensures b.ApplyForce(f, b.pose.p).torque == b.torque
  {
    assert Sub(b.Wake().pose.p, b.pose.p) == Zero;
  }

  /** The velocities and the force and torque accumulators of a `RigidBody`. */
  datatype Motion = Motion(vel: Vec3, omega: Vec3, velPrev: Vec3, omegaPrev: Vec3, force: Vec3, torque: Vec3)

  /** The mass data of a `RigidBody`. */
  datatype MassData = MassData(invMass: real, invInertia: Vec3, gravity: real, isDynamic: bool)

  /** A rigid body updated in place.  Every method does to the fields what the
      function of the same name of `Body` does to a value; `State()` is that value.
      The six motion vectors are held in one `Motion` field and the four mass
      properties in one `MassData` field, and an assignment of the engine to one
      of them is an update of one component of that field.  The material
      coefficients, `canSleep` and `name` are written by no operation of the core
      and are constants. */
  class RigidBody {
    var pose: Pose
    var prevPose: Pose
    var motion: Motion
    var mass: MassData
    var isSleeping: bool
    var sleepTimer: real
    var canCollide: bool
    var id: int
    var collider: Collider
    const canSleep: bool
    const restitution: real
    const staticFriction: real
    const dynamicFriction: real
    const name: string

    /** The value of all fields. */
    function State(): Body
      reads this
    {
      Body(pose, prevPose, motion.vel, motion.omega, motion.velPrev, motion.omegaPrev, motion.force, motion.torque,
           mass.invMass, mass.invInertia, mass.gravity, mass.isDynamic, isSleeping, sleepTimer, canSleep, canCollide,
           restitution, staticFriction, dynamicFriction, id, name, collider)
    }

    /** Sets every field from `init` (the defaults of the class declaration are not
        part of this model) and refreshes the collider, as the constructor does. */
    constructor (init: Body, o: Oracles)
      ensures State() == init.UpdateCollider(o)
    {
      pose, prevPose := init.pose, init.prevPose;
      motion := Motion(init.vel, init.omega, init.velPrev, init.omegaPrev, init.force, init.torque);
      mass := MassData(init.invMass, init.invInertia, init.gravity, init.isDynamic);
      isSleeping, sleepTimer, canSleep, canCollide := init.isSleeping, init.sleepTimer, init.canSleep, init.canCollide;
      restitution, staticFriction, dynamicFriction := init.restitution, init.staticFriction, init.dynamicFriction;
      id, name := init.id, init.name;
      var c := if !init.isDynamic then o.expandAABB(init.collider) else init.collider;
      collider := o.updateGlobalPose(c, init.pose);
    }

    method UpdateCollider(o: Oracles)
      modifies this
      ensures State() == old(State()).UpdateCollider(o)
    {
      if !mass.isDynamic {
        collider := o.expandAABB(collider);
      }
      collider := o.updateGlobalPose(collider, pose);
    }

    method MakeStatic(o: Oracles)
      modifies this
      ensures State() == old(State()).MakeStatic(o)
    {
      mass := mass.(isDynamic := false);
      mass := mass.(gravity := 0.0);
      mass := mass.(invMass := 0.0);
      mass := mass.(invInertia := Zero);
      prevPose := prevPose.Copy(pose);
      UpdateCollider(o);
    }

    method DisableCollision()
      modifies this
      ensures State() == old(State()).DisableCollision()
    {
      canCollide := false;
    }

    method ApplyForce(f: Vec3, position: Vec3)
      modifies this
      ensures State() == old(State()).ApplyForce(f, position)
    {
      Wake();
      motion := motion.(force := Add(motion.force, f));
      motion := motion.(torque := Add(motion.torque, Cross(f, Sub(pose.p, position))));
    }

    method ApplyTorque(t: Vec3)
      modifies this
      ensures State() == old(State()).ApplyTorque(t)
    {
      Wake();
      motion := motion.(torque := Add(motion.torque, t));
    }

    method ApplyRotation(rot: Vec3, scale: real, o: Oracles)
      requires o.Sound()
      modifies this
      ensures State() == old(State()).ApplyRotation(rot, scale, o)
    {
      var phi := Length(o.sqrt, rot);
      var s := scale;
      if phi * s > MaxPhi {
        s := MaxPhi / phi;
      }
      assert s == EffectiveScale(phi, scale);
      var dq := QMul(Pure(Scale(rot, s)), pose.q);
      pose := pose.(q := Quat(pose.q.w + 0.5 * dq.w, pose.q.x + 0.5 * dq.x, pose.q.y + 0.5 * dq.y, pose.q.z + 0.5 * dq.z));
      assert pose.q == FirstOrderTurn(old(pose.q), Scale(rot, s));
      pose := pose.(q := QNormalize(o.sqrt, pose.q));
    }

    method Integrate(h: real, o: Oracles)
      requires o.Sound()
      modifies this
      ensures State() == old(State()).Integrate(h, o)
    {
      if !mass.isDynamic {
        return;
      }
      if isSleeping {
        return;
      }
      prevPose := prevPose.Copy(pose);
      motion := motion.(vel := Add(motion.vel, Scale(Vec3(0.0, mass.gravity, 0.0), h)));
      motion := motion.(vel := Add(motion.vel, Scale(Scale(motion.force, mass.invMass), h)));
      pose := pose.(p := Add(pose.p, Scale(motion.vel, h)));
      motion := motion.(omega := Add(motion.omega, Scale(Mul(motion.torque, mass.invInertia), h)));
      ApplyRotation(motion.omega, h, o);
    }

    method Update(h: real, o: Oracles)
      requires h != 0.0
      modifies this
      ensures State() == old(State()).Update(h, o)
    {
      if !mass.isDynamic {
        return;
      }
      if isSleeping {
        return;
      }
      motion := motion.(velPrev := motion.vel);
      motion := motion.(omegaPrev := motion.omega);
      motion := motion.(vel := Div(Sub(pose.p, prevPose.p), h));
      var dq := QMul(pose.q, Conj(prevPose.q));
      motion := motion.(omega := Vec3(dq.x * 2.0 / h, dq.y * 2.0 / h, dq.z * 2.0 / h));
      if dq.w < 0.0 {
        motion := motion.(omega := Vec3(-motion.omega.x, -motion.omega.y, -motion.omega.z));
      }
      UpdateCollider(o);
    }

    method ApplyCorrection(corr: Vec3, pos: Vec3, velocityLevel: bool, o: Oracles)
      requires o.Sound()
      modifies this
      ensures State() == old(State()).ApplyCorrection(corr, pos, velocityLevel, o)
    {
      if !mass.isDynamic {
        return;
      }
      var dq: Vec3;
      if Length(o.sqrt, pos) < CorrectionOriginEps {
        dq := corr;
      } else {
        if velocityLevel {
          motion := motion.(vel := Add(motion.vel, Scale(corr, mass.invMass)));
        } else {
          pose := pose.(p := Add(pose.p, Scale(corr, mass.invMass)));
        }
        dq := Cross(Sub(pos, pose.p), corr);
      }
      dq := pose.InvRotate(dq);
      dq := Mul(mass.invInertia, dq);
      dq := pose.Rotate(dq);
      if velocityLevel {
        motion := motion.(omega := Add(motion.omega, dq));
      } else {
        ApplyRotation(dq, 1.0, o);
      }
    }

    method SetBox(size: Vec3, density: real)
      requires BoxMass(size, density) != 0.0
      modifies this
      ensures State() == old(State()).SetBox(size, density)
    {
      var m := size.x * size.y * size.z * density;
      mass := mass.(invMass := 1.0 / m);
      BoxSumsNonZero(size, density);
      m := m / 12.0;
      assert m != 0.0;
      mass := mass.(invInertia := mass.invInertia.(x := 1.0 / SquareSum(size.y, size.z) / m));
      mass := mass.(invInertia := mass.invInertia.(y := 1.0 / SquareSum(size.z, size.x) / m));
      mass := mass.(invInertia := mass.invInertia.(z := 1.0 / SquareSum(size.x, size.y) / m));
    }

    method SetPosition(position: Vec3, o: Oracles)
      modifies this
      ensures State() == old(State()).SetPosition(position, o)
    {
      pose := pose.(p := position);
      prevPose := prevPose.Copy(pose);
      UpdateCollider(o);
    }

    method SetRotation(rotation: Quat, o: Oracles)
      modifies this
      ensures State() == old(State()).SetRotation(rotation, o)
    {
      pose := pose.(q := rotation);
      prevPose := prevPose.Copy(pose);
      UpdateCollider(o);
    }

    method Sleep()
      modifies this
      ensures State() == old(State()).Sleep()
    {
      if isSleeping {
        return;
      }
      prevPose := prevPose.Copy(pose);
      motion := motion.(force := Zero);
      motion := motion.(torque := Zero);
      motion := motion.(vel := Zero);
      motion := motion.(omega := Zero);
      motion := motion.(velPrev := Zero);
      motion := motion.(omegaPrev := Zero);
      isSleeping := true;
    }

    method Wake()
      modifies this
      ensures State() == old(State()).Wake()
    {
      if !isSleeping {
        return;
      }
      isSleeping := false;
      sleepTimer := 0.0;
    }

    method CheckSleepState(dt: real, o: Oracles)
      modifies this
      ensures State() == old(State()).CheckSleepState(dt, o)
    {
      if !canSleep {
        return;
      }
      var velLen := Length2(motion.vel);
      var omegaLen := Length2(motion.omega);
      if isSleeping {
        if velLen > SleepThreshold || omegaLen > SleepThreshold {
          Wake();
        }
      } else {
        var damping := o.damping(dt);
        if velLen < DampThreshold {
          motion := motion.(vel := Scale(motion.vel, damping));
        }
        if omegaLen < DampThreshold {
          motion := motion.(omega := Scale(motion.omega, damping));
        }
        if velLen < SleepThreshold && omegaLen < SleepThreshold {
          if sleepTimer > SleepHoldTime {
            Sleep();
          } else {
            sleepTimer := sleepTimer + dt;
          }
        }
      }
    }
  }
}
