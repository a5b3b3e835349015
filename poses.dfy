/** `Pose`, a position and an orientation.  In the engine a pose is held by value
    (a rigid body owns its `pose` and `prevPose`), and its operations overwrite a
    `vec3&` or `Pose&` argument in place; here each of them returns the value the
    argument holds afterwards. */
module Poses {
  import opened Vectors
  import opened Algebra

  datatype Pose = Pose(p: Vec3, q: Quat) {

    /** The orientation is a unit quaternion. */
    predicate Unit() { Norm2(q) == 1.0 }

    /** `pose.clone()`: a fresh pose with the same position and orientation. */
    function Clone(): Pose { Pose(p, q) }

    /** `this.copy(from)`: this pose afterwards. */
    function Copy(from: Pose): Pose { Pose(from.p, from.q) }

    /** `translate(v)`: `v += p`. */
    function Translate(v: Vec3): Vec3 { Add(v, p) }

    /** `invTranslate(v)`: `v -= p`. */
    function InvTranslate(v: Vec3): Vec3 { Sub(v, p) }

    /** `rotate(v)`: `v = q * v`. */
    function Rotate(v: Vec3): Vec3 { Vectors.Rotate(q, v) }

    /** `invRotate(v)`: `v = conjugate(q) * v`. */
    function InvRotate(v: Vec3): Vec3 { Vectors.Rotate(Conj(q), v) }

    /** `transform(v)`: rotate, then translate. */
    function Transform(v: Vec3): Vec3 { Translate(Rotate(v)) }

    /** `invTransform(v)`: translate back, then rotate back. */
    function InvTransform(v: Vec3): Vec3 { InvRotate(InvTranslate(v)) }

    /** `this.transformPose(pose)`: the argument pose afterwards, `pose` expressed
        in the frame of this pose. */
    function TransformPose(pose: Pose): Pose {
      Pose(Add(Vectors.Rotate(q, pose.p), p), QMul(q, pose.q))
    }
  }

  /** The default pose: at the origin, not rotated. */
  const Origin: Pose := Pose(Zero, Identity)

  /** `clone` returns an equal pose, and `copy` makes a pose equal to its argument. */
  lemma CloneCopy(a: Pose, b: Pose)
    ensures a.Clone() == a
    ensures a.Copy(b) == b
  {
  }

  /** `invTranslate` undoes `translate`, and the other way round. */
  lemma TranslateRoundTrip(pose: Pose, v: Vec3)
    ensures pose.InvTranslate(pose.Translate(v)) == v
    ensures pose.Translate(pose.InvTranslate(v)) == v
  {
  }

  /** For a unit orientation, `invRotate` undoes `rotate` and the other way round,
      and `rotate` keeps the length of the vector. */
  lemma RotateRoundTrip(pose: Pose, v: Vec3)
    requires pose.Unit()
    ensures pose.InvRotate(pose.Rotate(v)) == v
    ensures pose.Rotate(pose.InvRotate(v)) == v
    ensures Length2(pose.Rotate(v)) == Length2(v)
  {
    RotateInverse(pose.q, v);
    RotateInverseConj(pose.q, v);
    RotatePreservesLength(pose.q, v);
  }

  /** For a unit orientation, `invTransform` undoes `transform` and the other way round. */
  lemma TransformRoundTrip(pose: Pose, v: Vec3)
    requires pose.Unit()
    ensures pose.InvTransform(pose.Transform(v)) == v
    ensures pose.Transform(pose.InvTransform(v)) == v
  {
    RotateRoundTrip(pose, v);
    RotateRoundTrip(pose, pose.InvTranslate(v));
  }

  /** A pose with a unit orientation moves points rigidly: distances are kept. */
  lemma TransformIsRigid(pose: Pose, a: Vec3, b: Vec3)
    requires pose.Unit()
    ensures Length2(Sub(pose.Transform(a), pose.Transform(b))) == Length2(Sub(a, b))
  {
    var ra := pose.Rotate(a);
    var rb := pose.Rotate(b);
    assert Sub(pose.Transform(a), pose.Transform(b)) == Sub(ra, rb);
    RotateSub(pose.q, a, b);
    RotatePreservesLength(pose.q, Sub(a, b));
  }

  /** `transformPose` composes: transforming by the result is transforming by the
      old pose and then by this one. */
  lemma TransformPoseCompose(self: Pose, pose: Pose, v: Vec3)
    requires self.Unit() && pose.Unit()
    ensures self.TransformPose(pose).Transform(v) == self.Transform(pose.Transform(v))
  {
    RotateCompose(self.q, pose.q, v);
    RotateAdd(self.q, Vectors.Rotate(pose.q, v), pose.p);
  }

  /** The product orientation has the product of the norms, so two unit orientations
      give a unit orientation. */
  lemma TransformPoseUnit(self: Pose, pose: Pose)
    ensures Norm2(self.TransformPose(pose).q) == Norm2(self.q) * Norm2(pose.q)
    ensures self.Unit() && pose.Unit() ==> self.TransformPose(pose).Unit()
  {
    NormMul(self.q, pose.q);
  }

  /** The default pose is neutral for `transformPose` and `transform`. */
  lemma OriginNeutral(pose: Pose, v: Vec3)
    ensures Origin.TransformPose(pose) == pose
    ensures Origin.Transform(v) == v
    ensures Origin.Unit()
  {
  }
}
