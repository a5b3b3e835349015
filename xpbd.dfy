/** What one call of `XPBDSolver::update` does to the bodies, as values: the
    broad phase, the narrow phase, the per-contact position and velocity solves
    and the substep loop of Algorithm 2 of Müller et al., "Detailed Rigid Body
    Simulation with Extended Position Based Dynamics".  A world is the sequence of
    the bodies' values, and a `Link` names the two bodies of a pair or a contact
    by their positions in it.  Module XpbdSolver proves the solver's methods
    against these functions. */
module Xpbd {
  import opened Vectors
  import opened Poses
  import opened Colliders
  import opened Bodies
  import opened Contacts
  import opened Options

  /** `XPBDSolver::NUM_SUB_STEPS`. */
  const NumSubSteps: nat := 15

  /** `update` does nothing but the broad phase for a longer time step. */
  const MaxTimeStep: real := 2.0 / 60.0

  /** `findLagrangeMultiplier` ignores a correction shorter than this. */
  const MultiplierEps: real := 0.0001

  /** `solveVelocities` applies dynamic friction above this tangential speed. */
  const FrictionEps: real := 0.0001

  /** The gravitational acceleration in the restitution threshold `2 · 9.81 · h`. */
  const GravityAcc: real := 9.81

  function Min(a: real, b: real): real { if a < b then a else b }
  function Max(a: real, b: real): real { if a > b then a else b }
  function Abs(a: real): real { if a < 0.0 then -a else a }

  // ---------------------------------------------------------------------------
  // The Lagrange multiplier primitive.

  /** The result of `findLagrangeMultiplier`: the multiplier increment and the
      correction to apply. */
  datatype Multiplier = Multiplier(dlambda: real, corr: Vec3)

  /** `body ? body->getInverseMass(n, pos) : 0`; `None` stands for a null body. */
  function InverseMassOf(body: Option<Body>, n: Vec3, pos: Vec3, o: Oracles): (r: real)
    requires o.Sound()
    ensures body.None? ==> r == 0.0
    ensures body.Some? && body.value.MassOk() ==> 0.0 <= r
  {
    if body.None? then 0.0 else body.value.GetInverseMass(n, pos, o)
  }

  /** `w = w0 + w1` along the direction of `corr`. */
  function CombinedInverseMass(body0: Option<Body>, body1: Option<Body>, corr: Vec3, pos0: Vec3, pos1: Vec3,
                               o: Oracles): real
    requires o.Sound()
  {
    var n := Normalize(o.sqrt, corr);
    InverseMassOf(body0, n, pos0, o) + InverseMassOf(body1, n, pos1, o)
  }

  /** The multiplier divides by `w + compliance / h²` once both short circuits
      have passed; that divisor must not be zero. */
  predicate MultiplierDefined(body0: Option<Body>, body1: Option<Body>, corr: Vec3, compliance: real, h: real,
                              pos0: Vec3, pos1: Vec3, o: Oracles)
    requires o.Sound() && h != 0.0
  {
    var w := CombinedInverseMass(body0, body1, corr, pos0, pos1, o);
    Length(o.sqrt, corr) < MultiplierEps || w == 0.0 || Divisor(w, compliance, h) != 0.0
  }

  /** `w + compliance / h / h`. */
  function Divisor(w: real, compliance: real, h: real): real
    requires h != 0.0
  {
    w + compliance / h / h
  }

  /** `findLagrangeMultiplier(body0, body1, corr, compliance, h, pos0, pos1)`: a
      correction shorter than `MultiplierEps`, or one that no body can take, gives
      nothing.  Otherwise `dlambda` solves the XPBD constraint equation
      `dlambda · (w + compliance / h²) = -|corr|` of a single iteration from a
      zero multiplier. */
  function FindLagrangeMultiplier(body0: Option<Body>, body1: Option<Body>, corr: Vec3, compliance: real, h: real,
                                  pos0: Vec3, pos1: Vec3, o: Oracles): (r: Multiplier)
    requires o.Sound() && h != 0.0
    requires MultiplierDefined(body0, body1, corr, compliance, h, pos0, pos1, o)
    ensures Length(o.sqrt, corr) < MultiplierEps ==> r == Multiplier(0.0, Zero)
    ensures CombinedInverseMass(body0, body1, corr, pos0, pos1, o) == 0.0 ==> r == Multiplier(0.0, Zero)
    ensures var c := Length(o.sqrt, corr);
            var w := CombinedInverseMass(body0, body1, corr, pos0, pos1, o);
            c >= MultiplierEps && w != 0.0 ==> r.dlambda * Divisor(w, compliance, h) == -c
  {
    var c := Length(o.sqrt, corr);
    if c < MultiplierEps then Multiplier(0.0, Zero)
    else
      var n := Normalize(o.sqrt, corr);
      var w := CombinedInverseMass(body0, body1, corr, pos0, pos1, o);
      if w == 0.0 then Multiplier(0.0, Zero)
      else
        var dlambda := -c / Divisor(w, compliance, h);
        Multiplier(dlambda, Scale(n, -dlambda))
  }

  /** `compliance / h / h` is not negative for a compliance that is not. */
  lemma ComplianceTerm(compliance: real, h: real)
    requires h != 0.0 && 0.0 <= compliance
    ensures 0.0 <= compliance / h / h
  {
    if 0.0 < h {
      assert 0.0 <= compliance / h;
    } else {
      assert compliance / h <= 0.0;
    }
  }

  /** With bodies whose mass data are not negative and a compliance that is not
      negative, the divisor is positive whenever it is used, and the multiplier
      increment is never positive; it is negative whenever a correction is made. */
  lemma MultiplierSign(body0: Option<Body>, body1: Option<Body>, corr: Vec3, compliance: real, h: real,
                       pos0: Vec3, pos1: Vec3, o: Oracles)
    requires o.Sound() && h != 0.0 && 0.0 <= compliance
    requires body0.Some? ==> body0.value.MassOk()
    requires body1.Some? ==> body1.value.MassOk()
    ensures MultiplierDefined(body0, body1, corr, compliance, h, pos0, pos1, o)
    ensures var r := FindLagrangeMultiplier(body0, body1, corr, compliance, h, pos0, pos1, o);
            && r.dlambda <= 0.0
            && (r.corr != Zero ==> r.dlambda < 0.0)
  {
    var w := CombinedInverseMass(body0, body1, corr, pos0, pos1, o);
    assert 0.0 <= w by {
      var n := Normalize(o.sqrt, corr);
      assert 0.0 <= InverseMassOf(body0, n, pos0, o);
      assert 0.0 <= InverseMassOf(body1, n, pos1, o);
    }
    ComplianceTerm(compliance, h);
  }

  /** The correction points along `corr`, scaled by `-dlambda / |corr|`, so its
      length is `|dlambda|`. */
  lemma MultiplierDirection(body0: Option<Body>, body1: Option<Body>, corr: Vec3, compliance: real, h: real,
                            pos0: Vec3, pos1: Vec3, o: Oracles)
    requires o.Sound() && h != 0.0
    requires MultiplierDefined(body0, body1, corr, compliance, h, pos0, pos1, o)
    ensures var r := FindLagrangeMultiplier(body0, body1, corr, compliance, h, pos0, pos1, o);
            && Scale(r.corr, Length(o.sqrt, corr)) == Scale(corr, -r.dlambda)
            && Length2(r.corr) == -r.dlambda * -r.dlambda
  {
    var c := Length(o.sqrt, corr);
    var w := CombinedInverseMass(body0, body1, corr, pos0, pos1, o);
    var r := FindLagrangeMultiplier(body0, body1, corr, compliance, h, pos0, pos1, o);
    if c >= MultiplierEps && w != 0.0 {
      var n := Normalize(o.sqrt, corr);
      LengthZero(o.sqrt, corr);
      NormalizeTimesLength(o.sqrt, corr);
      ScaledUnit(n, c, -r.dlambda);
    } else {
      assert r == Multiplier(0.0, Zero);
      assert Scale(corr, -0.0) == Zero;
    }
  }

  /** A unit vector `n` scaled by `k`, then by `c`, is `n * c` scaled by `k`, and
      its squared length is `k²`. */
  lemma ScaledUnit(n: Vec3, c: real, k: real)
    requires Length2(n) == 1.0
    ensures Scale(Scale(n, k), c) == Scale(Scale(n, c), k)
    ensures Length2(Scale(n, k)) == k * k
  {
    ScaleScale(n, k, c);
    ScaleScale(n, c, k);
    assert k * c == c * k;
    ScaleLength2(n, k);
  }

  // ---------------------------------------------------------------------------
  // The solves of one contact.  A `Step` is a contact together with the values
  // of its two bodies.

  datatype Step = Step(c: Contact, a: Body, b: Body)

  /** `applyBodyPairCorrection(A, B, corr, p1, p2, velocityLevel)` on the two
      bodies of a step. */
  function ApplyPair(s: Step, corr: Vec3, velocityLevel: bool, o: Oracles): Step
    requires o.Sound()
  {
    s.(a := s.a.ApplyCorrection(corr, s.c.p1, velocityLevel, o), b := s.b.ApplyCorrection(Neg(corr), s.c.p2, velocityLevel, o))
  }

  /** The pair correction is equal and opposite: on two dynamic bodies away from
      the origin, the mass-weighted linear changes (of the positions, or of the
      velocities at velocity level) cancel, so the correction keeps the centre of
      mass, or the linear momentum, of the pair. */
  lemma PairCorrectionBalanced(a: Body, b: Body, corr: Vec3, pos0: Vec3, pos1: Vec3, velocityLevel: bool,
                               o: Oracles)
    requires o.Sound() && a.isDynamic && b.isDynamic && a.invMass != 0.0 && b.invMass != 0.0
    requires Length(o.sqrt, pos0) >= CorrectionOriginEps && Length(o.sqrt, pos1) >= CorrectionOriginEps
    ensures var a' := a.ApplyCorrection(corr, pos0, velocityLevel, o);
            var b' := b.ApplyCorrection(Neg(corr), pos1, velocityLevel, o);
            var da := if velocityLevel then Sub(a'.vel, a.vel) else Sub(a'.pose.p, a.pose.p);
            var db := if velocityLevel then Sub(b'.vel, b.vel) else Sub(b'.pose.p, b.pose.p);
            Add(Scale(da, 1.0 / a.invMass), Scale(db, 1.0 / b.invMass)) == Zero
  {
    ApplyCorrectionEffect(a, corr, pos0, velocityLevel, o);
    ApplyCorrectionEffect(b, Neg(corr), pos1, velocityLevel, o);
    UnitWeight(corr, a.invMass);
    UnitWeight(Neg(corr), b.invMass);
  }

  /** Adding `v * m` and weighting the change by `1 / m` gives back `v`. */
  lemma UnitWeight(v: Vec3, m: real)
    requires m != 0.0
    ensures forall x: Vec3 {:trigger Add(x, Scale(v, m))} :: Scale(Sub(Add(x, Scale(v, m)), x), 1.0 / m) == v
  {
    forall x: Vec3 ensures Scale(Sub(Add(x, Scale(v, m)), x), 1.0 / m) == v {
      assert Sub(Add(x, Scale(v, m)), x) == Scale(v, m);
      ScaleScale(v, m, 1.0 / m);
      assert m * (1.0 / m) == 1.0;
    }
  }

  /** `_solvePenetration`: the contact is updated; at a positive depth the
      penetration `d · n` is resolved with zero compliance and the multiplier is
      added to `lambdaN`. */
  function Penetration(s: Step, h: real, o: Oracles): Step
    requires o.Sound() && h != 0.0
  {
    var c := s.c.Update(s.a.pose, s.b.pose);
    if c.d <= 0.0 then s.(c := c)
    else
      var m := FindLagrangeMultiplier(Some(s.a), Some(s.b), Scale(c.n, c.d), 0.0, h, c.p1, c.p2, o);
      ApplyPair(Step(c.(lambdaN := c.lambdaN + m.dlambda), s.a, s.b), m.corr, false, o)
  }

  /** The tangential part `v - dot(v, n) n` of `v`. */
  function Tangential(v: Vec3, n: Vec3): Vec3 { Sub(v, Scale(n, Dot(v, n))) }

  /** The static-friction test `lambdaT + dlambdaT > staticFriction · lambdaN`. */
  predicate StaticGate(c: Contact, dlambdaT: real) { c.lambdaT + dlambdaT > c.staticFriction * c.lambdaN }

  /** The static-friction correction `-dp_t` of a contact between `a` and `b`:
      the negated tangential part of the relative motion of the two contact
      points since the bodies' previous poses. */
  function SlipCorrection(c: Contact, a: Body, b: Body): Vec3 {
    var p1prev := Add(a.prevPose.p, Vectors.Rotate(a.prevPose.q, c.r1));
    var p2prev := Add(b.prevPose.p, Vectors.Rotate(b.prevPose.q, c.r2));
    Neg(Tangential(Sub(Sub(c.p1, p1prev), Sub(c.p2, p2prev)), c.n))
  }

  /** `_solveFriction`: the contact is updated and the slip correction is
      applied, but only while the static-friction test passes.  No multiplier is
      written. */
  function Friction(s: Step, h: real, o: Oracles): Step
    requires o.Sound() && h != 0.0
  {
    var c := s.c.Update(s.a.pose, s.b.pose);
    var m := FindLagrangeMultiplier(Some(s.a), Some(s.b), SlipCorrection(c, s.a, s.b), 0.0, h, c.p1, c.p2, o);
    if StaticGate(c, m.dlambda) then ApplyPair(Step(c, s.a, s.b), m.corr, false, o)
    else s.(c := c)
  }

  /** `Friction` with its multiplier given. */
  lemma FrictionWith(s: Step, c: Contact, m: Multiplier, h: real, o: Oracles)
    requires o.Sound() && h != 0.0 && c == s.c.Update(s.a.pose, s.b.pose)
    requires m == FindLagrangeMultiplier(Some(s.a), Some(s.b), SlipCorrection(c, s.a, s.b), 0.0, h, c.p1, c.p2, o)
    ensures StaticGate(c, m.dlambda) ==> Friction(s, h, o) == ApplyPair(Step(c, s.a, s.b), m.corr, false, o)
    ensures !StaticGate(c, m.dlambda) ==> Friction(s, h, o) == s.(c := c)
  {
  }

  /** The normal force `Fn = -lambdaN / h²` of a contact. */
  function NormalForce(lambdaN: real, h: real): real
    requires h != 0.0
  {
    -lambdaN / (h * h)
  }

  /** The dynamic-friction speed `min(h · mu · Fn, |vt|)`. */
  function FrictionSpeed(h: real, mu: real, lambdaN: real, vtLen: real): real
    requires h != 0.0
  {
    Min(h * mu * NormalForce(lambdaN, h), vtLen)
  }

  /** The restitution coefficient used at normal speed `vn`: zero at or below the
      threshold `2 · 9.81 · h`, against jitter. */
  function Restitution(vn: real, h: real, e: real): real {
    if Abs(vn) <= 2.0 * GravityAcc * h then 0.0 else e
  }

  /** The dynamic-friction part of the velocity change for a contact with
      relative velocity `v`: against the tangential velocity `vt`, of length
      `FrictionSpeed`, and none at or below the tangential speed `FrictionEps`. */
  function FrictionChange(c: Contact, v: Vec3, h: real, o: Oracles): Vec3
    requires o.Sound() && h != 0.0
  {
    var vt := Sub(v, Scale(c.n, Dot(c.n, v)));
    var vtLen := Length(o.sqrt, vt);
    if vtLen > FrictionEps then Sub(Zero, Scale(Normalize(o.sqrt, vt), FrictionSpeed(h, c.dynamicFriction, c.lambdaN, vtLen)))
    else Zero
  }

  /** The velocity change `dv` that `solveVelocities` asks of a contact with
      relative velocity `v`: dynamic friction, and along the normal the change
      from `vn` to `max(-e · vn_tilde, 0)`, where `vn_tilde` is the normal speed
      sampled when the contact was made. */
  function VelocityChange(c: Contact, v: Vec3, h: real, o: Oracles): Vec3
    requires o.Sound() && h != 0.0
  {
    var vn := Dot(c.n, v);
    Add(FrictionChange(c, v, h, o), Scale(c.n, -vn + NormalTarget(c, vn, h)))
  }

  /** The relative normal speed the velocity solve aims at,
      `max(-e · vn_tilde, 0)`, with `e` from `Restitution` at normal speed `vn`. */
  function NormalTarget(c: Contact, vn: real, h: real): real {
    Max(-Restitution(vn, h, c.e) * c.vn, 0.0)
  }

  /** The velocity solve of one contact in `solveVelocities`. */
  function VelocityStep(s: Step, h: real, o: Oracles): Step
    requires o.Sound() && h != 0.0
  {
    var c := s.c.Update(s.a.pose, s.b.pose);
    var v := Sub(s.a.GetVelocityAt(c.p1), s.b.GetVelocityAt(c.p2));
    var dv := VelocityChange(c, v, h, o);
    var m := FindLagrangeMultiplier(Some(s.a), Some(s.b), dv, 0.0, h, c.p1, c.p2, o);
    ApplyPair(Step(c, s.a, s.b), m.corr, true, o)
  }

  // ---------------------------------------------------------------------------
  // What the solves of one contact promise.

  /** The fields of a body that no phase of the solver writes: its identity, its
      mass data, its material and its collision flags. */
  datatype Fixed = Fixed(id: int, name: string, isDynamic: bool, invMass: real, invInertia: Vec3, gravity: real,
                         canSleep: bool, canCollide: bool, restitution: real, staticFriction: real,
                         dynamicFriction: real)

  function FixedOf(b: Body): Fixed {
    Fixed(b.id, b.name, b.isDynamic, b.invMass, b.invInertia, b.gravity, b.canSleep, b.canCollide,
          b.restitution, b.staticFriction, b.dynamicFriction)
  }

  /** What no phase of the solver changes in a body: the `Fixed` fields, the
      kind and the validity of its collider, and the pose of a static body. */
  predicate Kept(b: Body, r: Body) {
    && FixedOf(r) == FixedOf(b)
    && r.collider.Kind() == b.collider.Kind() && (b.collider.Valid() ==> r.collider.Valid())
    && (!b.isDynamic ==> r.pose == b.pose)
  }

  lemma KeptTransitive(a: Body, b: Body, c: Body)
    requires Kept(a, b) && Kept(b, c)
    ensures Kept(a, c)
  {
  }

  /** A pair correction keeps both bodies. */
  lemma ApplyPairKept(s: Step, corr: Vec3, velocityLevel: bool, o: Oracles)
    requires o.Sound()
    ensures var r := ApplyPair(s, corr, velocityLevel, o);
            r.c == s.c && Kept(s.a, r.a) && Kept(s.b, r.b)
  {
    ApplyCorrectionEffect(s.a, corr, s.c.p1, velocityLevel, o);
    ApplyCorrectionEffect(s.b, Neg(corr), s.c.p2, velocityLevel, o);
  }

  /** `_solvePenetration` updates the contact and changes nothing else in it but
      `lambdaN`; a contact that does not penetrate moves neither body.  With mass
      data that are not negative, `lambdaN` never grows: it accumulates the
      (negative) normal multipliers. */
  lemma PenetrationEffect(s: Step, h: real, o: Oracles)
    requires o.Sound() && h != 0.0
    ensures var c := s.c.Update(s.a.pose, s.b.pose);
            var r := Penetration(s, h, o);
            && r.c.(lambdaN := c.lambdaN) == c
            && (c.d <= 0.0 ==> r == s.(c := c))
            && (s.a.MassOk() && s.b.MassOk() ==> r.c.lambdaN <= s.c.lambdaN)
            && Kept(s.a, r.a) && Kept(s.b, r.b)
  {
    var c := s.c.Update(s.a.pose, s.b.pose);
    if c.d > 0.0 {
      var m := FindLagrangeMultiplier(Some(s.a), Some(s.b), Scale(c.n, c.d), 0.0, h, c.p1, c.p2, o);
      ApplyPairKept(Step(c.(lambdaN := c.lambdaN + m.dlambda), s.a, s.b), m.corr, false, o);
      if s.a.MassOk() && s.b.MassOk() {
        MultiplierSign(Some(s.a), Some(s.b), Scale(c.n, c.d), 0.0, h, c.p1, c.p2, o);
      }
    }
  }

  /** `_solveFriction` writes no multiplier: the contact comes out as `update()`
      leaves it, and both bodies are kept. */
  lemma FrictionEffect(s: Step, h: real, o: Oracles)
    requires o.Sound() && h != 0.0
    ensures var r := Friction(s, h, o);
            && r.c == s.c.Update(s.a.pose, s.b.pose)
            && Kept(s.a, r.a) && Kept(s.b, r.b)
  {
    var c := s.c.Update(s.a.pose, s.b.pose);
    var m := FindLagrangeMultiplier(Some(s.a), Some(s.b), SlipCorrection(c, s.a, s.b), 0.0, h, c.p1, c.p2, o);
    ApplyPairKept(Step(c, s.a, s.b), m.corr, false, o);
  }

  /** The static-friction test is Coulomb's condition: once `lambdaT` is zero
      (it is never written) and `lambdaN` and the increment `dlambdaT` are not
      positive, the tangential correction is applied exactly when
      `|dlambdaT| < staticFriction · |lambdaN|`. */
  lemma CoulombCone(c: Contact, dlambdaT: real)
    requires c.lambdaT == 0.0 && c.lambdaN <= 0.0 && dlambdaT <= 0.0
    ensures StaticGate(c, dlambdaT) <==> Abs(dlambdaT) < c.staticFriction * Abs(c.lambdaN)
  {
    assert c.staticFriction * Abs(c.lambdaN) == -(c.staticFriction * c.lambdaN);
  }

  /** Against a unit normal, the tangential part has no normal component, and
      the two parts add up to the vector. */
  lemma TangentialOrthogonal(v: Vec3, n: Vec3)
    requires Length2(n) == 1.0
    ensures Dot(Tangential(v, n), n) == 0.0
    ensures Add(Tangential(v, n), Scale(n, Dot(v, n))) == v
  {
    var t := Dot(v, n);
    DotLinear(n, v, Scale(n, t), t);
    DotLinear(n, n, n, t);
    assert Dot(n, n) == Length2(n);
    assert Dot(Tangential(v, n), n) == Dot(n, Tangential(v, n));
  }

  /** The dynamic-friction speed never exceeds the tangential speed, and it is
      not negative for a positive step, a friction coefficient and a tangential
      speed that are not negative and a normal multiplier that is not positive. */
  lemma FrictionBounded(h: real, mu: real, lambdaN: real, vtLen: real)
    requires h != 0.0
    ensures FrictionSpeed(h, mu, lambdaN, vtLen) <= vtLen
    ensures 0.0 < h && 0.0 <= mu && lambdaN <= 0.0 && 0.0 <= vtLen ==> 0.0 <= FrictionSpeed(h, mu, lambdaN, vtLen)
  {
    if 0.0 < h && 0.0 <= mu && lambdaN <= 0.0 {
      assert 0.0 < h * Id(h);
      QuotientSign(-lambdaN, h * Id(h));
      MulMono(h, 0.0, mu);
      MulMono(h * mu, 0.0, NormalForce(lambdaN, h));
    }
  }

  lemma QuotientSign(a: real, b: real)
    requires 0.0 <= a && 0.0 < b
    ensures 0.0 <= a / b
  {
  }

  /** Below the threshold `2 · 9.81 · h` a contact does not bounce; above it the
      contact's coefficient of restitution is used. */
  lemma RestitutionThreshold(vn: real, h: real, e: real, vnTilde: real)
    ensures Abs(vn) <= 2.0 * GravityAcc * h ==> Restitution(vn, h, e) == 0.0 && Max(-Restitution(vn, h, e) * vnTilde, 0.0) == 0.0
    ensures Abs(vn) > 2.0 * GravityAcc * h ==> Restitution(vn, h, e) == e
  {
  }

  /** Against a unit normal, the friction part of the velocity change has no
      normal component. */
  lemma FrictionTangential(c: Contact, v: Vec3, h: real, o: Oracles)
    requires o.Sound() && h != 0.0 && Length2(c.n) == 1.0
    ensures Dot(c.n, FrictionChange(c, v, h, o)) == 0.0
  {
    var n := c.n;
    var vt := Sub(v, Scale(n, Dot(n, v)));
    var l := Length(o.sqrt, vt);
    if l > FrictionEps {
      assert vt == Tangential(v, n);
      TangentialOrthogonal(v, n);
      assert Dot(n, vt) == Dot(vt, n);
      var k := FrictionSpeed(h, c.dynamicFriction, c.lambdaN, l);
      var u := Normalize(o.sqrt, vt);
      assert u == Scale(vt, 1.0 / l);
      DotLinear(n, vt, vt, 1.0 / l);
      DotLinear(n, u, u, k);
      DotLinear(n, Zero, Scale(u, k), k);
    }
  }

  /** Hence the velocity change takes the relative normal velocity exactly to
      the target `max(-e · vn_tilde, 0)`. */
  lemma VelocityTarget(c: Contact, v: Vec3, h: real, o: Oracles)
    requires o.Sound() && h != 0.0 && Length2(c.n) == 1.0
    ensures Dot(c.n, Add(v, VelocityChange(c, v, h, o))) == NormalTarget(c, Dot(c.n, v), h)
  {
    var vn := Dot(c.n, v);
    FrictionTangential(c, v, h, o);
    ReachesNormalSpeed(c.n, v, FrictionChange(c, v, h, o), -vn + NormalTarget(c, vn, h));
  }

  /** Adding a change with no normal component and `t` along a unit normal `n`
      adds `t` to the normal speed. */
  lemma ReachesNormalSpeed(n: Vec3, v: Vec3, f: Vec3, t: real)
    requires Length2(n) == 1.0 && Dot(n, f) == 0.0
    ensures Dot(n, Add(v, Add(f, Scale(n, t)))) == Dot(n, v) + t
  {
    DotLinear(n, v, Add(f, Scale(n, t)), t);
    DotLinear(n, f, Scale(n, t), t);
    DotLinear(n, n, n, t);
    assert Dot(n, n) == Length2(n);
  }

  /** Dynamic friction opposes the sliding and never more than cancels it: with
      a positive step, a friction coefficient that is not negative and a normal
      multiplier that is not positive, the friction change has at most the
      squared length of the tangential velocity `vt`, and it does not point along
      `vt`. */
  lemma FrictionOpposes(c: Contact, v: Vec3, h: real, o: Oracles)
    requires o.Sound() && 0.0 < h && 0.0 <= c.dynamicFriction && c.lambdaN <= 0.0
    ensures var vt := Sub(v, Scale(c.n, Dot(c.n, v)));
            var f := FrictionChange(c, v, h, o);
            Length2(f) <= Length2(vt) && Dot(f, vt) <= 0.0
  {
    var vt := Sub(v, Scale(c.n, Dot(c.n, v)));
    var l := Length(o.sqrt, vt);
    if l > FrictionEps {
      FrictionBounded(h, c.dynamicFriction, c.lambdaN, l);
      Against(o.sqrt, vt, FrictionSpeed(h, c.dynamicFriction, c.lambdaN, l));
    } else {
      SquaresNonNegative(vt);
    }
  }

  /** `-normalize(vt) · k` for `0 <= k <= |vt|` is no longer than `vt` and does
      not point along it. */
  lemma Against(sqrt: real -> real, vt: Vec3, k: real)
    requires IsSqrt(sqrt) && 0.0 <= k <= Length(sqrt, vt) && vt != Zero
    ensures Length2(Sub(Zero, Scale(Normalize(sqrt, vt), k))) <= Length2(vt)
    ensures Dot(Sub(Zero, Scale(Normalize(sqrt, vt), k)), vt) <= 0.0
  {
    var u := Normalize(sqrt, vt);
    NormalizeTimesLength(sqrt, vt);
    assert Sub(Zero, Scale(u, k)) == Scale(u, -k);
    OpposingBounded(u, k, Length(sqrt, vt));
  }

  /** For a unit `u` and `0 <= f <= l`, `-f u` is no longer than `l u` and does
      not point along it. */
  lemma OpposingBounded(u: Vec3, f: real, l: real)
    requires Length2(u) == 1.0 && 0.0 <= f <= l
    ensures Length2(Scale(u, -f)) <= Length2(Scale(u, l))
    ensures Dot(Scale(u, -f), Scale(u, l)) <= 0.0
  {
    ScaleLength2(u, -f);
    ScaleLength2(u, l);
    SquareBound(f, l);
    ScaledDot(u, -f, l);
  }

  /** `(-f)² <= l²` and `-f · l <= 0` for `0 <= f <= l`. */
  lemma SquareBound(f: real, l: real)
    requires 0.0 <= f <= l
    ensures -f * -f <= l * l
    ensures -f * l <= 0.0
  {
    MulMono(f, f, l);
    MulMono(l, f, l);
    MulMono(l, 0.0, f);
  }

  /** `(a u) · (b u) = a b |u|²`. */
  lemma ScaledDot(u: Vec3, a: real, b: real)
    ensures Dot(Scale(u, a), Scale(u, b)) == (a * b) * Length2(u)
  {
    assert (u.x * a) * (u.x * b) == (a * b) * (u.x * u.x);
    assert (u.y * a) * (u.y * b) == (a * b) * (u.y * u.y);
    assert (u.z * a) * (u.z * b) == (a * b) * (u.z * u.z);
  }

  /** The velocity solve of a contact updates it, writes no multiplier, keeps
      both bodies and moves neither of them: it changes velocities only. */
  lemma VelocityStepEffect(s: Step, h: real, o: Oracles)
    requires o.Sound() && h != 0.0
    ensures var r := VelocityStep(s, h, o);
            && r.c == s.c.Update(s.a.pose, s.b.pose)
            && Kept(s.a, r.a) && Kept(s.b, r.b)
            && r.a.pose == s.a.pose && r.b.pose == s.b.pose
  {
    var c := s.c.Update(s.a.pose, s.b.pose);
    var v := Sub(s.a.GetVelocityAt(c.p1), s.b.GetVelocityAt(c.p2));
    var m := FindLagrangeMultiplier(Some(s.a), Some(s.b), VelocityChange(c, v, h, o), 0.0, h, c.p1, c.p2, o);
    ApplyPairKept(Step(c, s.a, s.b), m.corr, true, o);
    ApplyCorrectionEffect(s.a, m.corr, c.p1, true, o);
    ApplyCorrectionEffect(s.b, Neg(m.corr), c.p2, true, o);
  }

  // ---------------------------------------------------------------------------
  // Worlds.

  /** The values of the bodies, in the order of the solver's body list. */
  type World = seq<Body>

  /** The two bodies of a pair or a contact, by their positions in the world. */
  datatype Link = Link(a: nat, b: nat)

  /** `l` names two different bodies of a world with `n` bodies. */
  predicate Linked(l: Link, n: nat) { l.a < n && l.b < n && l.a != l.b }

  predicate AllLinked(ls: seq<Link>, n: nat) { forall k :: 0 <= k < |ls| ==> Linked(ls[k], n) }

  predicate CollidersValid(w: World) { forall k :: 0 <= k < |w| ==> w[k].collider.Valid() }

  /** Every body of `r` is kept from the body at the same position in `w`. */
  predicate KeptWorld(w: World, r: World) { |r| == |w| && forall k :: 0 <= k < |w| ==> Kept(w[k], r[k]) }

  lemma KeptWorldTransitive(a: World, b: World, c: World)
    requires KeptWorld(a, b) && KeptWorld(b, c)
    ensures KeptWorld(a, c)
  {
    forall k | 0 <= k < |a| ensures Kept(a[k], c[k]) {
      KeptTransitive(a[k], b[k], c[k]);
    }
  }

  lemma KeptValid(w: World, r: World)
    requires KeptWorld(w, r) && CollidersValid(w)
    ensures CollidersValid(r)
  {
  }

  /** `body->integrate(h)` for every body. */
  function IntegrateAll(w: World, h: real, o: Oracles): (r: World)
    requires o.Sound()
    ensures |r| == |w| && forall k :: 0 <= k < |w| ==> r[k] == w[k].Integrate(h, o)
  {
    seq(|w|, k requires 0 <= k < |w| => w[k].Integrate(h, o))
  }

  /** `body->update(h)` for every body. */
  function UpdateAll(w: World, h: real, o: Oracles): (r: World)
    requires h != 0.0
    ensures |r| == |w| && forall k :: 0 <= k < |w| ==> r[k] == w[k].Update(h, o)
  {
    seq(|w|, k requires 0 <= k < |w| => w[k].Update(h, o))
  }

  /** `body->checkSleepState(h)` for every body. */
  function CheckSleepAll(w: World, h: real, o: Oracles): (r: World)
    ensures |r| == |w| && forall k :: 0 <= k < |w| ==> r[k] == w[k].CheckSleepState(h, o)
  {
    seq(|w|, k requires 0 <= k < |w| => w[k].CheckSleepState(h, o))
  }

  /** The non-substepped part of `update` for one body: a dynamic, awake body
      expands its bounding box by `2 · dt · velocity` and its force and torque
      accumulators are cleared. */
  function FinishBody(b: Body, dt: real, o: Oracles): Body {
    if !b.isDynamic then b
    else if b.isSleeping then b
    else b.(collider := o.expandAABBBy(b.collider, Scale(b.vel, 2.0 * dt)), force := Zero, torque := Zero)
  }

  function FinishAll(w: World, dt: real, o: Oracles): (r: World)
    ensures |r| == |w| && forall k :: 0 <= k < |w| ==> r[k] == FinishBody(w[k], dt, o)
  {
    seq(|w|, k requires 0 <= k < |w| => FinishBody(w[k], dt, o))
  }

  lemma IntegrateKept(w: World, h: real, o: Oracles)
    requires o.Sound()
    ensures KeptWorld(w, IntegrateAll(w, h, o))
  {
    forall k | 0 <= k < |w| ensures Kept(w[k], w[k].Integrate(h, o)) {
      IntegrateEffect(w[k], h, o);
    }
  }

  lemma UpdateKept(w: World, h: real, o: Oracles)
    requires o.Sound() && h != 0.0
    ensures KeptWorld(w, UpdateAll(w, h, o))
  {
    forall k | 0 <= k < |w| ensures Kept(w[k], w[k].Update(h, o)) {
      var b := w[k];
      Bodies.UpdateEffect(b, h, o);
    }
  }

  lemma CheckSleepKept(w: World, h: real, o: Oracles)
    ensures KeptWorld(w, CheckSleepAll(w, h, o))
  {
    forall k | 0 <= k < |w| ensures Kept(w[k], w[k].CheckSleepState(h, o)) {
      SleepingBodyWakes(w[k], h, o);
    }
  }

  /** The final pass of `update` keeps every body; it clears the
      accumulators of exactly the dynamic, awake bodies, changes nothing else in
      them but the collider, and changes no other body at all. */
  lemma FinishEffect(w: World, dt: real, o: Oracles)
    requires o.Sound()
    ensures var r := FinishAll(w, dt, o);
            && KeptWorld(w, r)
            && forall k :: 0 <= k < |w| ==>
                 if w[k].Active() then r[k].force == Zero && r[k].torque == Zero
                                       && r[k].(collider := w[k].collider, force := w[k].force, torque := w[k].torque) == w[k]
                 else r[k] == w[k]
  {
  }

  /** The two solves `solvePositions` makes of one contact. */
  function PositionStep(s: Step, h: real, o: Oracles): Step
    requires o.Sound() && h != 0.0
  {
    Friction(Penetration(s, h, o), h, o)
  }

  /** The position solve of a contact updates it, writes only `lambdaN`, and
      keeps both bodies. */
  lemma PositionStepEffect(s: Step, h: real, o: Oracles)
    requires o.Sound() && h != 0.0
    ensures var r := PositionStep(s, h, o);
            && r.c.lambdaT == s.c.lambdaT
            && Kept(s.a, r.a) && Kept(s.b, r.b)
  {
    var p := Penetration(s, h, o);
    PenetrationEffect(s, h, o);
    FrictionEffect(p, h, o);
    KeptTransitive(s.a, p.a, PositionStep(s, h, o).a);
    KeptTransitive(s.b, p.b, PositionStep(s, h, o).b);
  }

  /** The world with the two bodies of a step written back. */
  function WriteBack(w: World, l: Link, s: Step): (r: World)
    requires Linked(l, |w|)
    ensures |r| == |w| && r[l.a] == s.a && r[l.b] == s.b
    ensures forall k :: 0 <= k < |w| && k != l.a && k != l.b ==> r[k] == w[k]
  {
    w[l.a := s.a][l.b := s.b]
  }

  /** `solvePositions(contacts, h)`: the penetration and then the friction solve
      of each contact in turn, each on the values its two bodies have at that
      moment.  Returns the bodies and the updated contacts. */
  function SolvePositions(w: World, cs: seq<Contact>, ls: seq<Link>, h: real, o: Oracles): (r: (World, seq<Contact>))
    requires o.Sound() && h != 0.0 && |cs| == |ls| && AllLinked(ls, |w|)
    ensures |r.0| == |w| && |r.1| == |cs|
    decreases |cs|
  {
    if cs == [] then (w, [])
    else
      var l := ls[0];
      var s := PositionStep(Step(cs[0], w[l.a], w[l.b]), h, o);
      var rest := SolvePositions(WriteBack(w, l, s), cs[1..], ls[1..], h, o);
      (rest.0, [s.c] + rest.1)
  }

  /** `solveVelocities(contacts, h)`, likewise with the velocity solve. */
  function SolveVelocities(w: World, cs: seq<Contact>, ls: seq<Link>, h: real, o: Oracles): (r: (World, seq<Contact>))
    requires o.Sound() && h != 0.0 && |cs| == |ls| && AllLinked(ls, |w|)
    ensures |r.0| == |w| && |r.1| == |cs|
    decreases |cs|
  {
    if cs == [] then (w, [])
    else
      var l := ls[0];
      var s := VelocityStep(Step(cs[0], w[l.a], w[l.b]), h, o);
      var rest := SolveVelocities(WriteBack(w, l, s), cs[1..], ls[1..], h, o);
      (rest.0, [s.c] + rest.1)
  }

  /** Writing back the two bodies of a step keeps the world. */
  lemma WriteBackKept(w: World, l: Link, s: Step)
    requires Linked(l, |w|) && Kept(w[l.a], s.a) && Kept(w[l.b], s.b)
    ensures KeptWorld(w, WriteBack(w, l, s))
  {
  }

  /** The position solve keeps every body. */
  lemma {:induction false} SolvePositionsKept(w: World, cs: seq<Contact>, ls: seq<Link>, h: real, o: Oracles)
    requires o.Sound() && h != 0.0 && |cs| == |ls| && AllLinked(ls, |w|)
    ensures KeptWorld(w, SolvePositions(w, cs, ls, h, o).0)
    decreases |cs|
  {
    if cs != [] {
      var l := ls[0];
      var s := PositionStep(Step(cs[0], w[l.a], w[l.b]), h, o);
      PositionStepEffect(Step(cs[0], w[l.a], w[l.b]), h, o);
      var w' := WriteBack(w, l, s);
      WriteBackKept(w, l, s);
      SolvePositionsKept(w', cs[1..], ls[1..], h, o);
      KeptWorldTransitive(w, w', SolvePositions(w', cs[1..], ls[1..], h, o).0);
    }
  }

  /** The position solve writes no tangential multiplier. */
  lemma {:induction false} SolvePositionsTangent(w: World, cs: seq<Contact>, ls: seq<Link>, h: real, o: Oracles)
    requires o.Sound() && h != 0.0 && |cs| == |ls| && AllLinked(ls, |w|)
    ensures var r := SolvePositions(w, cs, ls, h, o).1;
            forall k :: 0 <= k < |cs| ==> r[k].lambdaT == cs[k].lambdaT
    decreases |cs|
  {
    if cs != [] {
      var l := ls[0];
      var s := PositionStep(Step(cs[0], w[l.a], w[l.b]), h, o);
      PositionStepEffect(Step(cs[0], w[l.a], w[l.b]), h, o);
      var rest := SolvePositions(WriteBack(w, l, s), cs[1..], ls[1..], h, o).1;
      SolvePositionsTangent(WriteBack(w, l, s), cs[1..], ls[1..], h, o);
      var r := SolvePositions(w, cs, ls, h, o).1;
      assert r == [s.c] + rest;
      SameTangent(r, s.c, rest, cs);
    }
  }

  lemma SameTangent(r: seq<Contact>, c: Contact, rest: seq<Contact>, cs: seq<Contact>)
    requires r == [c] + rest && |cs| == |r| && c.lambdaT == cs[0].lambdaT
    requires forall k :: 0 <= k < |rest| ==> rest[k].lambdaT == cs[1..][k].lambdaT
    ensures forall k :: 0 <= k < |cs| ==> r[k].lambdaT == cs[k].lambdaT
  {
    forall k | 0 <= k < |cs| ensures r[k].lambdaT == cs[k].lambdaT {
      if k > 0 {
        assert r[k] == rest[k - 1] && cs[k] == cs[1..][k - 1];
      }
    }
  }

  lemma SameMultipliers(r: seq<Contact>, c: Contact, rest: seq<Contact>, cs: seq<Contact>)
    requires r == [c] + rest && |cs| == |r| && c.lambdaN == cs[0].lambdaN && c.lambdaT == cs[0].lambdaT
    requires forall k :: 0 <= k < |rest| ==> rest[k].lambdaN == cs[1..][k].lambdaN && rest[k].lambdaT == cs[1..][k].lambdaT
    ensures forall k :: 0 <= k < |cs| ==> r[k].lambdaN == cs[k].lambdaN && r[k].lambdaT == cs[k].lambdaT
  {
    forall k | 0 <= k < |cs| ensures r[k].lambdaN == cs[k].lambdaN && r[k].lambdaT == cs[k].lambdaT {
      if k > 0 {
        assert r[k] == rest[k - 1] && cs[k] == cs[1..][k - 1];
      }
    }
  }

  lemma WriteBackPoses(w: World, l: Link, s: Step)
    requires Linked(l, |w|) && s.a.pose == w[l.a].pose && s.b.pose == w[l.b].pose
    ensures forall k :: 0 <= k < |w| ==> WriteBack(w, l, s)[k].pose == w[k].pose
  {
  }

  lemma SamePoses(a: World, b: World, c: World)
    requires |a| == |b| == |c|
    requires forall k :: 0 <= k < |a| ==> b[k].pose == a[k].pose
    requires forall k :: 0 <= k < |a| ==> c[k].pose == b[k].pose
    ensures forall k :: 0 <= k < |a| ==> c[k].pose == a[k].pose
  {
  }

  /** The velocity solve keeps every body and moves none: every pose is
      unchanged. */
  lemma {:induction false} SolveVelocitiesKept(w: World, cs: seq<Contact>, ls: seq<Link>, h: real, o: Oracles)
    requires o.Sound() && h != 0.0 && |cs| == |ls| && AllLinked(ls, |w|)
    ensures var r := SolveVelocities(w, cs, ls, h, o).0;
            && KeptWorld(w, r)
            && forall k :: 0 <= k < |w| ==> r[k].pose == w[k].pose
    decreases |cs|
  {
    if cs != [] {
      var l := ls[0];
      var s := VelocityStep(Step(cs[0], w[l.a], w[l.b]), h, o);
      VelocityStepEffect(Step(cs[0], w[l.a], w[l.b]), h, o);
      var w' := WriteBack(w, l, s);
      WriteBackKept(w, l, s);
      SolveVelocitiesKept(w', cs[1..], ls[1..], h, o);
      KeptWorldTransitive(w, w', SolveVelocities(w', cs[1..], ls[1..], h, o).0);
      WriteBackPoses(w, l, s);
      SamePoses(w, w', SolveVelocities(w', cs[1..], ls[1..], h, o).0);
    }
  }

  /** The velocity solve writes no multiplier. */
  lemma {:induction false} SolveVelocitiesMultipliers(w: World, cs: seq<Contact>, ls: seq<Link>, h: real, o: Oracles)
    requires o.Sound() && h != 0.0 && |cs| == |ls| && AllLinked(ls, |w|)
    ensures var r := SolveVelocities(w, cs, ls, h, o).1;
            forall k :: 0 <= k < |cs| ==> r[k].lambdaN == cs[k].lambdaN && r[k].lambdaT == cs[k].lambdaT
    decreases |cs|
  {
    if cs != [] {
      var l := ls[0];
      var s := VelocityStep(Step(cs[0], w[l.a], w[l.b]), h, o);
      VelocityStepEffect(Step(cs[0], w[l.a], w[l.b]), h, o);
      var rest := SolveVelocities(WriteBack(w, l, s), cs[1..], ls[1..], h, o).1;
      SolveVelocitiesMultipliers(WriteBack(w, l, s), cs[1..], ls[1..], h, o);
      var r := SolveVelocities(w, cs, ls, h, o).1;
      assert r == [s.c] + rest;
      SameMultipliers(r, s.c, rest, cs);
    }
  }

  // ---------------------------------------------------------------------------
  // The narrow phase: `getContacts`.

  /** A convex mesh against a convex mesh: one contact from GJK and EPA when the
      simplex encloses the origin and EPA finds a positive depth, along the
      negated EPA normal. */
  function ConvexContacts(a: Body, b: Body, o: Oracles): seq<Contact> {
    var simplex := o.gjk(a.collider, b.collider);
    if !simplex.containsOrigin then []
    else
      var e := o.epa(simplex, a.collider, b.collider);
      if !e.found || e.d <= 0.0 then []
      else [NewContact(a, b, Neg(e.normal), e.d, e.p1, e.p2, a.WorldToLocal(e.p1), b.WorldToLocal(e.p2))]
  }

  /** A convex mesh against a plane, from the `k`-th unique vertex on: one
      contact for each vertex the plane contains and that lies below it, with the
      plane normal, the vertex and its projection as contact points, the local
      vertex as the anchor on `a`, and the depth `-dot(p1 - p2, N)`. */
  function PlaneContacts(a: Body, b: Body, mesh: MeshGeom, plane: PlaneGeom, k: nat, o: Oracles): seq<Contact>
    requires mesh.Valid() && k <= |mesh.uniqueIndices|
    decreases |mesh.uniqueIndices| - k
  {
    if k == |mesh.uniqueIndices| then []
    else
      var rest := PlaneContacts(a, b, mesh, plane, k + 1, o);
      var p1 := mesh.verticesWorld[mesh.uniqueIndices[k]];
      if !o.containsPoint(plane, p1) then rest
      else
        var p2 := o.projectPoint(plane, p1);
        var d := Depth(p1, p2, plane.normal);
        if d <= 0.0 then rest
        else [NewContact(a, b, plane.normal, d, p1, p2, mesh.vertices[mesh.uniqueIndices[k]], b.WorldToLocal(p2))] + rest
  }

  /** The contacts of one pair, by the kinds of the two colliders: only a convex
      mesh as the first body, against a convex mesh or a plane, makes any. */
  function PairContacts(a: Body, b: Body, o: Oracles): seq<Contact>
    requires a.collider.Valid()
  {
    match a.collider.shape
    case ConvexShape(mesh) =>
      (match b.collider.shape
       case ConvexShape(_) => ConvexContacts(a, b, o)
       case PlaneShape(plane) => PlaneContacts(a, b, mesh, plane, 0, o)
       case _ => [])
    case _ => []
  }

  /** `getContacts(collisions)`: the contacts of every pair in order, each with
      the link of its pair. */
  function GetContacts(w: World, ls: seq<Link>, o: Oracles): (r: (seq<Contact>, seq<Link>))
    requires AllLinked(ls, |w|) && CollidersValid(w)
    ensures |r.0| == |r.1| && AllLinked(r.1, |w|)
    ensures forall k :: 0 <= k < |r.1| ==> r.1[k] in ls
    decreases |ls|
  {
    if ls == [] then ([], [])
    else
      var first := PairContacts(w[ls[0].a], w[ls[0].b], o);
      var rest := GetContacts(w, ls[1..], o);
      (first + rest.0, Repeat(ls[0], |first|) + rest.1)
  }

  /** A convex pair makes at most one contact, against the negated EPA normal,
      at a positive depth, with multipliers at zero. */
  lemma ConvexContactsSound(a: Body, b: Body, o: Oracles)
    ensures var cs := ConvexContacts(a, b, o);
            var e := o.epa(o.gjk(a.collider, b.collider), a.collider, b.collider);
            && |cs| <= 1
            && (|cs| == 1 <==> o.gjk(a.collider, b.collider).containsOrigin && e.found && e.d > 0.0)
            && (|cs| == 1 ==> cs[0].n == Neg(e.normal) && cs[0].d == e.d && cs[0].p1 == e.p1 && cs[0].p2 == e.p2
                              && cs[0].lambdaN == 0.0 && cs[0].lambdaT == 0.0)
  {
  }

  /** The `m`-th unique vertex of the mesh and the contact it would make. */
  predicate PlaneHit(mesh: MeshGeom, plane: PlaneGeom, m: nat, o: Oracles)
    requires mesh.Valid() && m < |mesh.uniqueIndices|
  {
    var p1 := mesh.verticesWorld[mesh.uniqueIndices[m]];
    o.containsPoint(plane, p1) && Depth(p1, o.projectPoint(plane, p1), plane.normal) > 0.0
  }

  /** Every plane contact comes from a unique vertex at or after `k` that the plane
      contains and that penetrates it: its normal is the plane normal, its first
      point is that vertex and its second the vertex's projection, its depth is
      positive, and its multipliers are zero. */
  lemma {:induction false} PlaneContactsSound(a: Body, b: Body, mesh: MeshGeom, plane: PlaneGeom, k: nat, o: Oracles)
    requires mesh.Valid() && k <= |mesh.uniqueIndices|
    ensures var cs := PlaneContacts(a, b, mesh, plane, k, o);
            && |cs| <= |mesh.uniqueIndices| - k
            && forall c :: c in cs ==>
                 && c.n == plane.normal && c.d > 0.0 && c.lambdaN == 0.0 && c.lambdaT == 0.0
                 && c.p2 == o.projectPoint(plane, c.p1) && c.d == Depth(c.p1, c.p2, plane.normal)
                 && exists m :: k <= m < |mesh.uniqueIndices| && PlaneHit(mesh, plane, m, o)
                                && c.p1 == mesh.verticesWorld[mesh.uniqueIndices[m]]
    decreases |mesh.uniqueIndices| - k
  {
    if k < |mesh.uniqueIndices| {
      PlaneContactsSound(a, b, mesh, plane, k + 1, o);
    }
  }

  /** Every unique vertex at or after `k` that the plane contains and that
      penetrates it makes a contact. */
  lemma {:induction false} PlaneContactsComplete(a: Body, b: Body, mesh: MeshGeom, plane: PlaneGeom, k: nat, m: nat,
                                                 o: Oracles)
    requires mesh.Valid() && k <= m < |mesh.uniqueIndices| && PlaneHit(mesh, plane, m, o)
    ensures exists c :: c in PlaneContacts(a, b, mesh, plane, k, o) && c.p1 == mesh.verticesWorld[mesh.uniqueIndices[m]]
    decreases m - k
  {
    if k < m {
      PlaneContactsComplete(a, b, mesh, plane, k + 1, m, o);
      var c :| c in PlaneContacts(a, b, mesh, plane, k + 1, o) && c.p1 == mesh.verticesWorld[mesh.uniqueIndices[m]];
      var cs := PlaneContacts(a, b, mesh, plane, k, o);
      assert c in cs;
    } else {
      var cs := PlaneContacts(a, b, mesh, plane, k, o);
      assert cs[0].p1 == mesh.verticesWorld[mesh.uniqueIndices[m]];
    }
  }

  /** The positions in `uniqueIndices`, from `k` on, of the vertices that make a
      plane contact, in the order of the loop. */
  function PlaneOrigins(mesh: MeshGeom, plane: PlaneGeom, k: nat, o: Oracles): seq<nat>
    requires mesh.Valid() && k <= |mesh.uniqueIndices|
    decreases |mesh.uniqueIndices| - k
  {
    if k == |mesh.uniqueIndices| then []
    else if PlaneHit(mesh, plane, k, o) then [k] + PlaneOrigins(mesh, plane, k + 1, o)
    else PlaneOrigins(mesh, plane, k + 1, o)
  }

  /** At most one plane contact per vertex: the `i`-th contact comes from the
      unique vertex at position `PlaneOrigins(..)[i]`, and these positions are
      strictly increasing, so no position makes two contacts. */
  lemma {:induction false} PlaneContactsPerVertex(a: Body, b: Body, mesh: MeshGeom, plane: PlaneGeom, k: nat, o: Oracles)
    requires mesh.Valid() && k <= |mesh.uniqueIndices|
    ensures var cs := PlaneContacts(a, b, mesh, plane, k, o);
            var ms := PlaneOrigins(mesh, plane, k, o);
            && |ms| == |cs|
            && (forall i, j :: 0 <= i < j < |ms| ==> ms[i] < ms[j])
            && forall i :: 0 <= i < |ms| ==>
                 && k <= ms[i] < |mesh.uniqueIndices| && PlaneHit(mesh, plane, ms[i], o)
                 && cs[i].p1 == mesh.verticesWorld[mesh.uniqueIndices[ms[i]]]
    decreases |mesh.uniqueIndices| - k
  {
    if k < |mesh.uniqueIndices| {
      PlaneContactsPerVertex(a, b, mesh, plane, k + 1, o);
      PlaneContactsCons(a, b, mesh, plane, k, o);
      var cs' := PlaneContacts(a, b, mesh, plane, k + 1, o);
      var ms' := PlaneOrigins(mesh, plane, k + 1, o);
      if PlaneHit(mesh, plane, k, o) {
        var cs := PlaneContacts(a, b, mesh, plane, k, o);
        var ms := PlaneOrigins(mesh, plane, k, o);
        forall i | 1 <= i < |ms|
          ensures ms[i] == ms'[i - 1] && cs[i] == cs'[i - 1]
        {
        }
      }
    }
  }

  /** One step of the plane loop: the `k`-th unique vertex contributes one contact
      at that vertex when it hits the plane, and none otherwise. */
  lemma PlaneContactsCons(a: Body, b: Body, mesh: MeshGeom, plane: PlaneGeom, k: nat, o: Oracles)
    requires mesh.Valid() && k < |mesh.uniqueIndices|
    ensures var cs := PlaneContacts(a, b, mesh, plane, k, o);
            var cs' := PlaneContacts(a, b, mesh, plane, k + 1, o);
            var ms' := PlaneOrigins(mesh, plane, k + 1, o);
            if PlaneHit(mesh, plane, k, o) then
              && cs == [cs[0]] + cs' && cs[0].p1 == mesh.verticesWorld[mesh.uniqueIndices[k]]
              && PlaneOrigins(mesh, plane, k, o) == [k] + ms'
            else cs == cs' && PlaneOrigins(mesh, plane, k, o) == ms'
  {
  }

  /** The index, in `ls`, of the pair each contact of `GetContacts` comes from. */
  function ContactOrigins(w: World, ls: seq<Link>, o: Oracles): seq<nat>
    requires AllLinked(ls, |w|) && CollidersValid(w)
    decreases |ls|
  {
    if ls == [] then []
    else
      var rest := ContactOrigins(w, ls[1..], o);
      Shifted(|PairContacts(w[ls[0].a], w[ls[0].b], o)|, rest)
  }

  /** `getContacts` visits the pairs in order: the contacts come in the order of
      their pairs, each carries the link of its own pair and is one of that
      pair's contacts, and every contact of every pair is there. */
  lemma GetContactsOrigins(w: World, ls: seq<Link>, o: Oracles)
    requires AllLinked(ls, |w|) && CollidersValid(w)
    ensures var r := GetContacts(w, ls, o);
            var ms := ContactOrigins(w, ls, o);
            && |ms| == |r.0|
            && (forall i, j :: 0 <= i <= j < |ms| ==> ms[i] <= ms[j])
            && (forall k :: 0 <= k < |ms| ==>
                  && ms[k] < |ls| && r.1[k] == ls[ms[k]]
                  && r.0[k] in PairContacts(w[ls[ms[k]].a], w[ls[ms[k]].b], o))
            && (forall p, c :: 0 <= p < |ls| && c in PairContacts(w[ls[p].a], w[ls[p].b], o) ==>
                  exists k :: 0 <= k < |ms| && ms[k] == p && r.0[k] == c)
  {
    OriginsOrdered(w, ls, o);
    OriginsSound(w, ls, o);
    OriginsComplete(w, ls, o);
  }

  /** How `GetContacts` and `ContactOrigins` of a non-empty list split into the
      first pair's contacts and those of the rest. */
  lemma OriginsCons(w: World, ls: seq<Link>, o: Oracles)
    requires AllLinked(ls, |w|) && CollidersValid(w) && ls != []
    ensures var first := PairContacts(w[ls[0].a], w[ls[0].b], o);
            var r := GetContacts(w, ls[1..], o);
            && GetContacts(w, ls, o) == (first + r.0, Repeat(ls[0], |first|) + r.1)
            && ContactOrigins(w, ls, o) == Shifted(|first|, ContactOrigins(w, ls[1..], o))
  {
  }

  /** `n` zeros, then `ms` with every entry one higher. */
  function Shifted(n: nat, ms: seq<nat>): seq<nat> {
    Repeat(0, n) + seq(|ms|, i requires 0 <= i < |ms| => ms[i] + 1)
  }

  lemma ShiftedIndex(n: nat, ms: seq<nat>)
    ensures |Shifted(n, ms)| == n + |ms|
    ensures forall k :: 0 <= k < n ==> Shifted(n, ms)[k] == 0
    ensures forall k :: n <= k < n + |ms| ==> Shifted(n, ms)[k] == ms[k - n] + 1
  {
  }

  /** Indexing into the first pair's contacts followed by those of the rest. */
  lemma ConsIndices(first: seq<Contact>, l: Link, r0: seq<Contact>, r1: seq<Link>, ms: seq<nat>)
    requires |r0| == |r1| == |ms|
    ensures var n := |first|;
            var cs, links, m := first + r0, Repeat(l, n) + r1, Shifted(n, ms);
            && |cs| == |links| == |m| == n + |ms|
            && (forall k :: 0 <= k < n ==> m[k] == 0 && cs[k] == first[k] && links[k] == l)
            && (forall k :: n <= k < |m| ==> m[k] == ms[k - n] + 1 && cs[k] == r0[k - n] && links[k] == r1[k - n])
  {
    ShiftedIndex(|first|, ms);
  }

  lemma {:induction false} OriginsOrdered(w: World, ls: seq<Link>, o: Oracles)
    requires AllLinked(ls, |w|) && CollidersValid(w)
    ensures var r := GetContacts(w, ls, o);
            var ms := ContactOrigins(w, ls, o);
            && |ms| == |r.0| == |r.1|
            && (forall i, j :: 0 <= i <= j < |ms| ==> ms[i] <= ms[j])
            && (forall k :: 0 <= k < |ms| ==> ms[k] < |ls| && r.1[k] == ls[ms[k]])
    decreases |ls|
  {
    if ls != [] {
      var first := PairContacts(w[ls[0].a], w[ls[0].b], o);
      var r' := GetContacts(w, ls[1..], o);
      var ms' := ContactOrigins(w, ls[1..], o);
      OriginsOrdered(w, ls[1..], o);
      OriginsCons(w, ls, o);
      ConsIndices(first, ls[0], r'.0, r'.1, ms');
      var ms := ContactOrigins(w, ls, o);
      var r := GetContacts(w, ls, o);
      forall k | |first| <= k < |ms|
        ensures ls[ms[k]] == ls[1..][ms'[k - |first|]]
      {
      }
    }
  }

  lemma {:induction false} OriginsSound(w: World, ls: seq<Link>, o: Oracles)
    requires AllLinked(ls, |w|) && CollidersValid(w)
    ensures var r := GetContacts(w, ls, o);
            var ms := ContactOrigins(w, ls, o);
            && |ms| == |r.0|
            && forall k :: 0 <= k < |ms| ==>
                 ms[k] < |ls| && r.0[k] in PairContacts(w[ls[ms[k]].a], w[ls[ms[k]].b], o)
    decreases |ls|
  {
    if ls != [] {
      var first := PairContacts(w[ls[0].a], w[ls[0].b], o);
      var r' := GetContacts(w, ls[1..], o);
      var ms' := ContactOrigins(w, ls[1..], o);
      OriginsSound(w, ls[1..], o);
      OriginsOrdered(w, ls[1..], o);
      OriginsCons(w, ls, o);
      ConsIndices(first, ls[0], r'.0, r'.1, ms');
      var ms := ContactOrigins(w, ls, o);
      forall k | |first| <= k < |ms|
        ensures ls[ms[k]] == ls[1..][ms'[k - |first|]]
      {
      }
    }
  }

  /** A contact of the first pair, or one that the rest places at pair `p - 1`,
      is placed at pair `p` once the first pair's contacts are put in front. */
  lemma FoundAt(first: seq<Contact>, rest: seq<Contact>, ms: seq<nat>, p: nat, c: Contact)
    requires |rest| == |ms|
    requires p == 0 ==> c in first
    requires p > 0 ==> exists k :: 0 <= k < |ms| && ms[k] == p - 1 && rest[k] == c
    ensures exists k :: 0 <= k < |first| + |ms| && Shifted(|first|, ms)[k] == p && (first + rest)[k] == c
  {
    ShiftedIndex(|first|, ms);
    if p == 0 {
      var i :| 0 <= i < |first| && first[i] == c;
      assert Shifted(|first|, ms)[i] == p && (first + rest)[i] == c;
    } else {
      var k :| 0 <= k < |ms| && ms[k] == p - 1 && rest[k] == c;
      assert Shifted(|first|, ms)[k + |first|] == p && (first + rest)[k + |first|] == c;
    }
  }

  lemma {:induction false} OriginsComplete(w: World, ls: seq<Link>, o: Oracles)
    requires AllLinked(ls, |w|) && CollidersValid(w)
    ensures var r := GetContacts(w, ls, o);
            var ms := ContactOrigins(w, ls, o);
            && |ms| == |r.0|
            && forall p, c :: 0 <= p < |ls| && c in PairContacts(w[ls[p].a], w[ls[p].b], o) ==>
                 exists k :: 0 <= k < |ms| && ms[k] == p && r.0[k] == c
    decreases |ls|
  {
    if ls != [] {
      var first := PairContacts(w[ls[0].a], w[ls[0].b], o);
      var n := |first|;
      var r' := GetContacts(w, ls[1..], o);
      var ms' := ContactOrigins(w, ls[1..], o);
      OriginsComplete(w, ls[1..], o);
      OriginsCons(w, ls, o);
      var r := GetContacts(w, ls, o);
      var ms := ContactOrigins(w, ls, o);
      forall p, c | 0 <= p < |ls| && c in PairContacts(w[ls[p].a], w[ls[p].b], o)
        ensures exists k :: 0 <= k < |ms| && ms[k] == p && r.0[k] == c
      {
        if p > 0 {
          var l := ls[1..][p - 1];
          assert l == ls[p];
          assert c in PairContacts(w[l.a], w[l.b], o);
        }
        FoundAt(first, r'.0, ms', p, c);
      }
    }
  }

  /** A pair makes contacts only when its first body is a convex mesh, and each
      of them has a positive depth and starts with both multipliers at zero. */
  lemma PairContactsSound(a: Body, b: Body, o: Oracles)
    requires a.collider.Valid()
    ensures !a.collider.shape.ConvexShape? ==> PairContacts(a, b, o) == []
    ensures forall c :: c in PairContacts(a, b, o) ==> c.d > 0.0 && c.lambdaN == 0.0 && c.lambdaT == 0.0
  {
    match a.collider.shape
    case ConvexShape(mesh) =>
      match b.collider.shape {
        case ConvexShape(_) => ConvexContactsSound(a, b, o);
        case PlaneShape(plane) => PlaneContactsSound(a, b, mesh, plane, 0, o);
        case _ =>
      }
    case _ =>
  }

  /** Every contact of `getContacts` has a positive depth and zero multipliers,
      and comes from a pair whose first body is a convex mesh. */
  lemma GetContactsSound(w: World, ls: seq<Link>, o: Oracles)
    requires AllLinked(ls, |w|) && CollidersValid(w)
    ensures var r := GetContacts(w, ls, o);
            forall k :: 0 <= k < |r.0| ==>
              && r.0[k].d > 0.0 && r.0[k].lambdaN == 0.0 && r.0[k].lambdaT == 0.0
              && w[r.1[k].a].collider.shape.ConvexShape?
  {
    var r := GetContacts(w, ls, o);
    var ms := ContactOrigins(w, ls, o);
    GetContactsOrigins(w, ls, o);
    forall k | 0 <= k < |r.0|
      ensures && r.0[k].d > 0.0 && r.0[k].lambdaN == 0.0 && r.0[k].lambdaT == 0.0
              && w[r.1[k].a].collider.shape.ConvexShape?
    {
      var l := ls[ms[k]];
      assert Linked(l, |w|);
      PairContactsSound(w[l.a], w[l.b], o);
    }
  }

  // ---------------------------------------------------------------------------
  // The broad phase: `collectCollisionPairs`.

  /** The tests of a pair other than activity: both bodies can collide, the first
      is a convex mesh, and its expanded bounding box meets the second's (a
      convex mesh) or the second's plane (a plane). */
  predicate Touching(a: Body, b: Body, o: Oracles) {
    && a.canCollide && b.canCollide
    && a.collider.shape.ConvexShape?
    && match b.collider.shape
       case ConvexShape(_) => o.intersects(a.collider.expandedAabb, b.collider.expandedAabb)
       case PlaneShape(plane) => o.intersectsPlane(a.collider.expandedAabb, plane)
       case _ => false
  }

  /** A pair is made when the bodies touch and at least one is dynamic and awake. */
  predicate Candidate(a: Body, b: Body, o: Oracles) { Touching(a, b, o) && (a.Active() || b.Active()) }

  /** The inner loop for body `i`, from `j` on.  Each pair is tested on the values
      the bodies have at that moment: making a pair may wake both bodies, which
      the later tests see. */
  function CollectRow(w: World, i: nat, j: nat, o: Oracles): (r: (World, seq<Link>))
    requires i < j <= |w|
    ensures |r.0| == |w|
    decreases |w| - j
  {
    if j == |w| then (w, [])
    else if !Candidate(w[i], w[j], o) then CollectRow(w, i, j + 1, o)
    else
      var w' := w[i := Paired(w[i], w[j])][j := Paired(w[j], w[i])];
      var rest := CollectRow(w', i, j + 1, o);
      (rest.0, [Link(i, j)] + rest.1)
  }

  /** The outer loop, from body `i` on; a body that cannot collide has no row. */
  function CollectFrom(w: World, i: nat, o: Oracles): (r: (World, seq<Link>))
    requires i <= |w|
    ensures |r.0| == |w|
    decreases |w| - i
  {
    if i == |w| then (w, [])
    else
      var row := if w[i].canCollide then CollectRow(w, i, i + 1, o) else (w, []);
      var rest := CollectFrom(row.0, i + 1, o);
      (rest.0, row.1 + rest.1)
  }

  /** `collectCollisionPairs(bodies, dt)`: the bodies, some of them woken, and
      the pairs in the order they are made. */
  function CollectPairs(w: World, o: Oracles): (r: (World, seq<Link>))
    ensures |r.0| == |w|
  {
    CollectFrom(w, 0, o)
  }

  /** Each body of `r` is the body of `w` or that body woken. */
  predicate OnlyWoken(w: World, r: World) {
    |r| == |w| && forall k :: 0 <= k < |w| ==> r[k] == w[k] || r[k] == w[k].Wake()
  }

  lemma OnlyWokenTransitive(a: World, b: World, c: World)
    requires OnlyWoken(a, b) && OnlyWoken(b, c)
    ensures OnlyWoken(a, c)
  {
    forall k | 0 <= k < |a| ensures c[k] == a[k] || c[k] == a[k].Wake() {
      WakeEffect(a[k]);
      WakeEffect(a[k].Wake());
    }
  }

  /** Waking keeps the tests of `Touching` and can only make a body active. */
  lemma WokenTouching(w: World, r: World, o: Oracles)
    requires OnlyWoken(w, r)
    ensures forall a, b :: 0 <= a < |w| && 0 <= b < |w| ==> (Touching(r[a], r[b], o) <==> Touching(w[a], w[b], o))
    ensures forall k :: 0 <= k < |w| && w[k].Active() ==> r[k].Active()
  {
  }

  /** Making the pair `(i, j)` wakes at most its two bodies, and when the pair
      passed the test one of the two is active afterwards. */
  lemma PairWakes(w: World, i: nat, j: nat, o: Oracles)
    requires i < j < |w|
    ensures var w' := w[i := Paired(w[i], w[j])][j := Paired(w[j], w[i])];
            && OnlyWoken(w, w')
            && (Candidate(w[i], w[j], o) ==> w'[i].Active() || w'[j].Active())
  {
    PairedOnlyWakes(w[i], w[j]);
    PairedOnlyWakes(w[j], w[i]);
  }

  /** A row only wakes bodies. */
  lemma {:induction false} CollectRowWakes(w: World, i: nat, j: nat, o: Oracles)
    requires i < j <= |w|
    ensures OnlyWoken(w, CollectRow(w, i, j, o).0)
    decreases |w| - j
  {
    if j < |w| {
      if !Candidate(w[i], w[j], o) {
        CollectRowWakes(w, i, j + 1, o);
      } else {
        var w' := w[i := Paired(w[i], w[j])][j := Paired(w[j], w[i])];
        PairWakes(w, i, j, o);
        CollectRowWakes(w', i, j + 1, o);
        OnlyWokenTransitive(w, w', CollectRow(w', i, j + 1, o).0);
      }
    }
  }

  /** The pairs of a row for body `i` from `j` on: they link `i` to later
      bodies, and each passed the tests other than activity in `w`. */
  predicate RowLinks(ls: seq<Link>, w: World, i: nat, j: nat, o: Oracles) {
    forall k :: 0 <= k < |ls| ==> ls[k].a == i && j <= ls[k].b < |w| && i < |w| && Touching(w[i], w[ls[k].b], o)
  }

  /** The second bodies of a row's pairs increase. */
  predicate RowOrdered(ls: seq<Link>) {
    forall p, q :: 0 <= p < q < |ls| ==> ls[p].b < ls[q].b
  }

  /** Every pair links two bodies of `r`, and one of them is active in `r`. */
  predicate PairsActive(r: World, ls: seq<Link>) {
    forall k :: 0 <= k < |ls| ==> ls[k].a < |r| && ls[k].b < |r| && (r[ls[k].a].Active() || r[ls[k].b].Active())
  }

  lemma {:induction false} CollectRowLinks(w: World, i: nat, j: nat, o: Oracles)
    requires i < j <= |w|
    ensures RowLinks(CollectRow(w, i, j, o).1, w, i, j, o)
    decreases |w| - j
  {
    if j < |w| {
      if !Candidate(w[i], w[j], o) {
        CollectRowLinks(w, i, j + 1, o);
      } else {
        var w' := w[i := Paired(w[i], w[j])][j := Paired(w[j], w[i])];
        PairWakes(w, i, j, o);
        CollectRowLinks(w', i, j + 1, o);
        var rest := CollectRow(w', i, j + 1, o).1;
        RowLinksWoken(rest, w, w', i, j + 1, o);
        var ls := CollectRow(w, i, j, o).1;
        assert ls == [Link(i, j)] + rest;
        forall k | 0 <= k < |ls| ensures ls[k].a == i && j <= ls[k].b < |w| && i < |w| && Touching(w[i], w[ls[k].b], o) {
          if k > 0 {
            assert ls[k] == rest[k - 1];
          }
        }
      }
    }
  }

  /** The tests of `RowLinks` do not see waking. */
  lemma RowLinksWoken(ls: seq<Link>, w: World, w': World, i: nat, j: nat, o: Oracles)
    requires OnlyWoken(w, w') && RowLinks(ls, w', i, j, o)
    ensures RowLinks(ls, w, i, j, o)
  {
    forall k | 0 <= k < |ls| ensures i < |w| && ls[k].b < |w| && Touching(w[i], w[ls[k].b], o) {
      WakeEffect(w[i]);
      WakeEffect(w[ls[k].b]);
    }
  }

  lemma {:induction false} CollectRowOrdered(w: World, i: nat, j: nat, o: Oracles)
    requires i < j <= |w|
    ensures RowOrdered(CollectRow(w, i, j, o).1)
    decreases |w| - j
  {
    if j < |w| {
      if !Candidate(w[i], w[j], o) {
        CollectRowOrdered(w, i, j + 1, o);
      } else {
        var w' := w[i := Paired(w[i], w[j])][j := Paired(w[j], w[i])];
        CollectRowOrdered(w', i, j + 1, o);
        CollectRowLinks(w', i, j + 1, o);
        var rest := CollectRow(w', i, j + 1, o).1;
        var ls := CollectRow(w, i, j, o).1;
        assert ls == [Link(i, j)] + rest;
        forall p, q | 0 <= p < q < |ls| ensures ls[p].b < ls[q].b {
          assert ls[q] == rest[q - 1];
          if p > 0 {
            assert ls[p] == rest[p - 1];
          }
        }
      }
    }
  }

  /** Waking keeps every pair active. */
  lemma WokenActive(r: World, r': World, ls: seq<Link>)
    requires PairsActive(r, ls) && OnlyWoken(r, r')
    ensures PairsActive(r', ls)
  {
    forall k | 0 <= k < |ls| ensures r'[ls[k].a].Active() || r'[ls[k].b].Active() {
      WakeEffect(r[ls[k].a]);
      WakeEffect(r[ls[k].b]);
    }
  }

  /** Every pair of a row has an active body when the row is done. */
  lemma {:induction false} CollectRowActive(w: World, i: nat, j: nat, o: Oracles)
    requires i < j <= |w|
    ensures PairsActive(CollectRow(w, i, j, o).0, CollectRow(w, i, j, o).1)
    decreases |w| - j
  {
    if j < |w| {
      if !Candidate(w[i], w[j], o) {
        CollectRowActive(w, i, j + 1, o);
      } else {
        var w' := w[i := Paired(w[i], w[j])][j := Paired(w[j], w[i])];
        PairWakes(w, i, j, o);
        var r' := CollectRow(w', i, j + 1, o);
        CollectRowActive(w', i, j + 1, o);
        CollectRowWakes(w', i, j + 1, o);
        assert PairsActive(w', [Link(i, j)]);
        WokenActive(w', r'.0, [Link(i, j)]);
        PairsActiveConcat(r'.0, [Link(i, j)], r'.1);
      }
    }
  }

  lemma PairsActiveConcat(r: World, ls: seq<Link>, ms: seq<Link>)
    requires PairsActive(r, ls) && PairsActive(r, ms)
    ensures PairsActive(r, ls + ms)
  {
    forall k | 0 <= k < |ls + ms| ensures (ls + ms)[k].a < |r| && (ls + ms)[k].b < |r|
                                          && (r[(ls + ms)[k].a].Active() || r[(ls + ms)[k].b].Active()) {
      if k >= |ls| {
        assert (ls + ms)[k] == ms[k - |ls|];
      }
    }
  }

  /** A row makes every pair from `j` on that passes all the tests on the values
      the bodies have when the row starts. */
  lemma {:induction false} CollectRowComplete(w: World, i: nat, j: nat, b: nat, o: Oracles)
    requires i < j <= b < |w| && Candidate(w[i], w[b], o)
    ensures Link(i, b) in CollectRow(w, i, j, o).1
    decreases |w| - j
  {
    if !Candidate(w[i], w[j], o) {
      CollectRowComplete(w, i, j + 1, b, o);
    } else if j < b {
      var w' := w[i := Paired(w[i], w[j])][j := Paired(w[j], w[i])];
      PairWakes(w, i, j, o);
      WokenTouching(w, w', o);
      CollectRowComplete(w', i, j + 1, b, o);
    }
  }

  /** The pairs made from body `i` on: each links two bodies in increasing
      order, from `i` on, that passed the tests other than activity in `w`. */
  predicate FromLinks(ls: seq<Link>, w: World, i: nat, o: Oracles) {
    forall k :: 0 <= k < |ls| ==> i <= ls[k].a < ls[k].b < |w| && Touching(w[ls[k].a], w[ls[k].b], o)
  }

  /** `l` comes before `m` in the order of the two loops. */
  predicate LinkBefore(l: Link, m: Link) { l.a < m.a || (l.a == m.a && l.b < m.b) }

  /** The pairs are in the order of the two loops, so none is made twice. */
  predicate Ordered(ls: seq<Link>) { forall p, q :: 0 <= p < q < |ls| ==> LinkBefore(ls[p], ls[q]) }

  /** The outer loop only wakes bodies. */
  lemma {:induction false} CollectFromWakes(w: World, i: nat, o: Oracles)
    requires i <= |w|
    ensures OnlyWoken(w, CollectFrom(w, i, o).0)
    decreases |w| - i
  {
    if i < |w| {
      var row := if w[i].canCollide then CollectRow(w, i, i + 1, o) else (w, []);
      if w[i].canCollide {
        CollectRowWakes(w, i, i + 1, o);
      }
      CollectFromWakes(row.0, i + 1, o);
      OnlyWokenTransitive(w, row.0, CollectFrom(row.0, i + 1, o).0);
    }
  }

  /** The tests of `FromLinks` do not see waking. */
  lemma FromLinksWoken(ls: seq<Link>, w: World, w': World, i: nat, o: Oracles)
    requires OnlyWoken(w, w') && FromLinks(ls, w', i, o)
    ensures FromLinks(ls, w, i, o)
  {
    forall k | 0 <= k < |ls| ensures Touching(w[ls[k].a], w[ls[k].b], o) {
      WakeEffect(w[ls[k].a]);
      WakeEffect(w[ls[k].b]);
    }
  }

  lemma {:induction false} CollectFromLinks(w: World, i: nat, o: Oracles)
    requires i <= |w|
    ensures FromLinks(CollectFrom(w, i, o).1, w, i, o)
    decreases |w| - i
  {
    if i < |w| {
      var row := if w[i].canCollide then CollectRow(w, i, i + 1, o) else (w, []);
      if w[i].canCollide {
        CollectRowWakes(w, i, i + 1, o);
        CollectRowLinks(w, i, i + 1, o);
      }
      var rest := CollectFrom(row.0, i + 1, o).1;
      CollectFromLinks(row.0, i + 1, o);
      FromLinksWoken(rest, w, row.0, i + 1, o);
      var ls := CollectFrom(w, i, o).1;
      assert ls == row.1 + rest;
      forall k | 0 <= k < |ls| ensures i <= ls[k].a < ls[k].b < |w| && Touching(w[ls[k].a], w[ls[k].b], o) {
        if k >= |row.1| {
          assert ls[k] == rest[k - |row.1|];
        } else {
          assert ls[k] == row.1[k];
        }
      }
    }
  }

  lemma {:induction false} CollectFromOrdered(w: World, i: nat, o: Oracles)
    requires i <= |w|
    ensures Ordered(CollectFrom(w, i, o).1)
    decreases |w| - i
  {
    if i < |w| {
      var row := if w[i].canCollide then CollectRow(w, i, i + 1, o) else (w, []);
      if w[i].canCollide {
        CollectRowLinks(w, i, i + 1, o);
        CollectRowOrdered(w, i, i + 1, o);
      }
      var rest := CollectFrom(row.0, i + 1, o).1;
      CollectFromOrdered(row.0, i + 1, o);
      CollectFromLinks(row.0, i + 1, o);
      var ls := CollectFrom(w, i, o).1;
      assert ls == row.1 + rest;
      forall p, q | 0 <= p < q < |ls| ensures LinkBefore(ls[p], ls[q]) {
        if q < |row.1| {
          assert ls[p] == row.1[p] && ls[q] == row.1[q];
        } else if p < |row.1| {
          assert ls[p] == row.1[p] && ls[q] == rest[q - |row.1|];
        } else {
          assert ls[p] == rest[p - |row.1|] && ls[q] == rest[q - |row.1|];
        }
      }
    }
  }

  lemma {:induction false} CollectFromActive(w: World, i: nat, o: Oracles)
    requires i <= |w|
    ensures PairsActive(CollectFrom(w, i, o).0, CollectFrom(w, i, o).1)
    decreases |w| - i
  {
    if i < |w| {
      var row := if w[i].canCollide then CollectRow(w, i, i + 1, o) else (w, []);
      if w[i].canCollide {
        CollectRowActive(w, i, i + 1, o);
      }
      var r := CollectFrom(row.0, i + 1, o);
      CollectFromActive(row.0, i + 1, o);
      CollectFromWakes(row.0, i + 1, o);
      WokenActive(row.0, r.0, row.1);
      PairsActiveConcat(r.0, row.1, r.1);
    }
  }

  /** The outer loop makes every pair `(a, b)` with `i <= a < b` that passes all
      the tests on the values the bodies have when the loop starts. */
  lemma {:induction false} CollectFromComplete(w: World, i: nat, a: nat, b: nat, o: Oracles)
    requires i <= a < b < |w| && Candidate(w[a], w[b], o)
    ensures Link(a, b) in CollectFrom(w, i, o).1
    decreases |w| - i
  {
    var row := if w[i].canCollide then CollectRow(w, i, i + 1, o) else (w, []);
    if a == i {
      CollectRowComplete(w, i, i + 1, b, o);
    } else {
      if w[i].canCollide {
        CollectRowWakes(w, i, i + 1, o);
      }
      WokenTouching(w, row.0, o);
      CollectFromComplete(row.0, i + 1, a, b, o);
    }
  }

  /** What `collectCollisionPairs` promises.  It only wakes bodies.  A pair is
      made for every `a < b` that pass all the tests on the bodies as they were;
      conversely every pair made links some `a < b` that pass all the tests but
      activity on the bodies as they were, and one of which is active at the
      end.  The pairs come in the order of the two loops, so none is made twice. */
  lemma CollectPairsEffect(w: World, o: Oracles)
    ensures OnlyWoken(w, CollectPairs(w, o).0)
    ensures FromLinks(CollectPairs(w, o).1, w, 0, o)
    ensures PairsActive(CollectPairs(w, o).0, CollectPairs(w, o).1)
    ensures Ordered(CollectPairs(w, o).1)
    ensures forall a, b :: 0 <= a < b < |w| && Candidate(w[a], w[b], o) ==> Link(a, b) in CollectPairs(w, o).1
  {
    CollectFromWakes(w, 0, o);
    CollectFromLinks(w, 0, o);
    CollectFromActive(w, 0, o);
    CollectFromOrdered(w, 0, o);
    forall a, b | 0 <= a < b < |w| && Candidate(w[a], w[b], o) ensures Link(a, b) in CollectPairs(w, o).1 {
      CollectFromComplete(w, 0, a, b, o);
    }
  }

  lemma FromLinksLinked(ls: seq<Link>, w: World, o: Oracles)
    requires FromLinks(ls, w, 0, o)
    ensures AllLinked(ls, |w|)
  {
  }

  // ---------------------------------------------------------------------------
  // The time step.

  /** One substep: contacts from the pairs, integration, the position solve,
      the velocity update, the velocity solve and the sleep check.  Every body
      is kept. */
  function Substep(w: World, ls: seq<Link>, h: real, o: Oracles): (r: World)
    requires o.Sound() && h != 0.0 && AllLinked(ls, |w|) && CollidersValid(w)
    ensures KeptWorld(w, r)
  {
    var cs := GetContacts(w, ls, o);
    var w1 := IntegrateAll(w, h, o);
    IntegrateKept(w, h, o);
    var p := SolvePositions(w1, cs.0, cs.1, h, o);
    SolvePositionsKept(w1, cs.0, cs.1, h, o);
    KeptWorldTransitive(w, w1, p.0);
    var w3 := UpdateAll(p.0, h, o);
    UpdateKept(p.0, h, o);
    KeptWorldTransitive(w, p.0, w3);
    var v := SolveVelocities(w3, p.1, cs.1, h, o);
    SolveVelocitiesKept(w3, p.1, cs.1, h, o);
    KeptWorldTransitive(w, w3, v.0);
    CheckSleepKept(v.0, h, o);
    KeptWorldTransitive(w, v.0, CheckSleepAll(v.0, h, o));
    CheckSleepAll(v.0, h, o)
  }

  /** `n` substeps of length `h` over the same pairs; every body is kept. */
  function Substeps(w: World, ls: seq<Link>, h: real, n: nat, o: Oracles): (r: World)
    requires o.Sound() && h != 0.0 && AllLinked(ls, |w|) && CollidersValid(w)
    ensures KeptWorld(w, r)
    decreases n
  {
    if n == 0 then w
    else
      var s := Substeps(w, ls, h, n - 1, o);
      KeptValid(w, s);
      var r := Substep(s, ls, h, o);
      KeptWorldTransitive(w, s, r);
      r
  }

  /** Waking a body keeps it. */
  lemma WokenKept(w: World, r: World)
    requires OnlyWoken(w, r)
    ensures KeptWorld(w, r)
  {
    forall k | 0 <= k < |w| ensures Kept(w[k], r[k]) {
      WakeEffect(w[k]);
    }
  }

  /** `n` copies of `x`. */
  function Repeat<T>(x: T, n: nat): (r: seq<T>)
    ensures |r| == n && forall k :: 0 <= k < n ==> r[k] == x
  {
    if n == 0 then [] else [x] + Repeat(x, n - 1)
  }

  /** The broad phase keeps every body, and its pairs link bodies of the world. */
  lemma CollectPairsKept(w: World, o: Oracles)
    requires CollidersValid(w)
    ensures KeptWorld(w, CollectPairs(w, o).0)
    ensures CollidersValid(CollectPairs(w, o).0)
    ensures AllLinked(CollectPairs(w, o).1, |CollectPairs(w, o).0|)
  {
    var c := CollectPairs(w, o);
    CollectPairsEffect(w, o);
    WokenKept(w, c.0);
    FromLinksLinked(c.1, w, o);
    KeptValid(w, c.0);
  }

  /** The substeps and the final pass of `update` for a time step of `dt`
      over the pairs `ls`.  Every body is kept, and every dynamic, awake body
      ends with its force and torque accumulators cleared. */
  function Advance(w: World, ls: seq<Link>, dt: real, o: Oracles): (r: World)
    requires o.Sound() && dt != 0.0 && AllLinked(ls, |w|) && CollidersValid(w)
    ensures KeptWorld(w, r)
    ensures forall k :: 0 <= k < |r| && r[k].Active() ==> r[k].force == Zero && r[k].torque == Zero
  {
    var s := Substeps(w, ls, dt / NumSubSteps as real, NumSubSteps, o);
    FinishEffect(s, dt, o);
    KeptWorldTransitive(w, s, FinishAll(s, dt, o));
    FinishAll(s, dt, o)
  }

  /** `XPBDSolver::update(bodies, constraints, dt, onSubstep)` without
      constraints: the broad phase; nothing more for a time step longer than
      `MaxTimeStep`; otherwise `NumSubSteps` substeps of `dt / NumSubSteps`
      and the final pass.  Returns the bodies and the substep lengths passed to
      `onSubstep`, in order.  Every body is kept. */
  function Update(w: World, dt: real, o: Oracles): (r: (World, seq<real>))
    requires o.Sound() && dt != 0.0 && CollidersValid(w)
    ensures KeptWorld(w, r.0)
    ensures dt > MaxTimeStep ==> r == (CollectPairs(w, o).0, [])
    ensures dt <= MaxTimeStep ==> |r.1| == NumSubSteps && forall k :: 0 <= k < |r.1| ==> r.1[k] == dt / NumSubSteps as real
    ensures dt <= MaxTimeStep ==> forall k :: 0 <= k < |r.0| && r.0[k].Active() ==> r.0[k].force == Zero && r.0[k].torque == Zero
  {
    var c := CollectPairs(w, o);
    CollectPairsKept(w, o);
    if dt > MaxTimeStep then (c.0, [])
    else
      var s := Advance(c.0, c.1, dt, o);
      KeptWorldTransitive(w, c.0, s);
      (s, Repeat(dt / NumSubSteps as real, NumSubSteps))
  }
}
