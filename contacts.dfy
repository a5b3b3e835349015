/** The records the solver passes between its phases: `CollisionPair`, a pair of
    bodies that the broad phase found close enough to test, and `ContactSet`, one
    contact point between two bodies with its anchors, normal, penetration depth,
    material coefficients and accumulated Lagrange multipliers. */
module Contacts {
  import opened Vectors
  import opened Poses
  import opened Bodies

  /** A pair wakes its bodies when their squared relative speed exceeds this. */
  const WakeSpeed2: real := 0.01

  /** `length2(A.vel - B.vel) > 0.01`. */
  predicate Approaching(a: Body, b: Body) { Length2(Sub(a.vel, b.vel)) > WakeSpeed2 }

  /** The wake test does not depend on the order of the two bodies. */
  lemma ApproachingSymmetric(a: Body, b: Body)
    ensures Approaching(a, b) <==> Approaching(b, a)
  {
    var u := Sub(a.vel, b.vel);
    assert Sub(b.vel, a.vel) == Neg(u);
    assert Length2(Neg(u)) == Length2(u);
  }

  /** A body does not approach itself. */
  lemma NotSelf(a: Body)
    ensures !Approaching(a, a)
  {
    assert Sub(a.vel, a.vel) == Zero;
  }

  /** The body `a` after a pair of `a` with `b` has been made. */
  function Paired(a: Body, b: Body): Body {
    if Approaching(a, b) then a.Wake() else a
  }

  /** Making a pair can only wake a body: an awake body is not changed, a body
      comes out awake exactly when it was awake or the two approach each other,
      and nothing but the sleep flag and the sleep timer ever changes. */
  lemma PairedOnlyWakes(a: Body, b: Body)
    ensures var r := Paired(a, b);
            && (!a.isSleeping ==> r == a)
            && (r.isSleeping <==> a.isSleeping && !Approaching(a, b))
            && r.(isSleeping := a.isSleeping, sleepTimer := a.sleepTimer) == a
  {
  }

  /** `CollisionPair`: two bodies that may touch in this time step. */
  class CollisionPair {
    const A: RigidBody
    const B: RigidBody

    /** Stores the two bodies and wakes both when they approach each other fast
        enough; a non-null reference is part of the type here. */
    constructor (a: RigidBody, b: RigidBody)
      modifies a, b
      ensures A == a && B == b
      ensures a.State() == Paired(old(a.State()), old(b.State()))
      ensures b.State() == Paired(old(b.State()), old(a.State()))
    {
      A, B := a, b;
      ApproachingSymmetric(a.State(), b.State());
      NotSelf(a.State());
      if Approaching(a.State(), b.State()) {
        assert a != b;
        a.Wake();
        b.Wake();
      }
    }
  }

  /** The value of a `ContactSet`, without the two body references. */
  datatype Contact = Contact(p1: Vec3, p2: Vec3, r1: Vec3, r2: Vec3, n: Vec3, d: real,
                             vrel: Vec3, vn: real, e: real, staticFriction: real, dynamicFriction: real,
                             lambdaN: real, lambdaT: real)
  {
    /** `update()`, given the poses of A and B: the world contact points follow
        the bodies, and the depth is measured again along the unchanged normal. */
    function Update(a: Pose, b: Pose): Contact {
      var q1 := Add(a.p, Vectors.Rotate(a.q, r1));
      var q2 := Add(b.p, Vectors.Rotate(b.q, r2));
      this.(p1 := q1, p2 := q2, d := Depth(q1, q2, n))
    }
  }

  /** The penetration depth `-dot(p1 - p2, n)`: positive when `p1` lies behind
      `p2` along `n`. */
  function Depth(p1: Vec3, p2: Vec3, n: Vec3): real { -Dot(Sub(p1, p2), n) }

  /** How the surface coefficients of two bodies are combined: their product. */
  function Combine(a: real, b: real): real { a * b }

  /** A combined coefficient does not depend on the order of the bodies, and it
      lies in [0, 1] when both coefficients do. */
  lemma CombineSymmetric(a: real, b: real)
    ensures Combine(a, b) == Combine(b, a)
    ensures 0.0 <= a <= 1.0 && 0.0 <= b <= 1.0 ==> 0.0 <= Combine(a, b) <= 1.0
  {
    if 0.0 <= a <= 1.0 && 0.0 <= b <= 1.0 {
      MulMono(a, 0.0, b);
      MulMono(a, b, 1.0);
      assert 0.0 <= a * b <= a;
      assert Combine(a, b) == a * b;
    }
  }

  /** The value the constructor gives a contact between `a` and `b`. */
  function NewContact(a: Body, b: Body, normal: Vec3, d: real, p1: Vec3, p2: Vec3, r1: Vec3, r2: Vec3): Contact {
    var vrel := Sub(a.GetVelocityAt(p1), b.GetVelocityAt(p2));
    Contact(p1, p2, r1, r2, normal, d, vrel, Dot(normal, vrel),
            Combine(a.restitution, b.restitution), Combine(a.staticFriction, b.staticFriction),
            Combine(a.dynamicFriction, b.dynamicFriction), 0.0, 0.0)
  }

  /** A new contact keeps the given depth as it is, starts with both multipliers
      at zero, and samples the relative velocity of the two contact points, and
      its normal part, once. */
  lemma NewContactEffect(a: Body, b: Body, normal: Vec3, d: real, p1: Vec3, p2: Vec3, r1: Vec3, r2: Vec3)
    ensures var c := NewContact(a, b, normal, d, p1, p2, r1, r2);
            && c.d == d && c.n == normal && c.p1 == p1 && c.p2 == p2 && c.r1 == r1 && c.r2 == r2
            && c.lambdaN == 0.0 && c.lambdaT == 0.0
            && c.vrel == Sub(a.GetVelocityAt(p1), b.GetVelocityAt(p2))
            && c.vn == Dot(normal, c.vrel)
  {
  }

  /** Between two static bodies the sampled relative velocity is zero. */
  lemma NewContactStatic(a: Body, b: Body, normal: Vec3, d: real, p1: Vec3, p2: Vec3, r1: Vec3, r2: Vec3)
    requires !a.isDynamic && !b.isDynamic
    ensures var c := NewContact(a, b, normal, d, p1, p2, r1, r2);
            c.vrel == Zero && c.vn == 0.0
  {
  }

  /** Swapping the two bodies keeps the combined coefficients, and they lie in
      [0, 1] when the bodies' own coefficients do. */
  lemma NewContactCoefficients(a: Body, b: Body, normal: Vec3, d: real, p1: Vec3, p2: Vec3, r1: Vec3, r2: Vec3)
    ensures var c := NewContact(a, b, normal, d, p1, p2, r1, r2);
            var s := NewContact(b, a, normal, d, p1, p2, r1, r2);
            && c.e == s.e && c.staticFriction == s.staticFriction && c.dynamicFriction == s.dynamicFriction
            && (0.0 <= a.restitution <= 1.0 && 0.0 <= b.restitution <= 1.0 ==> 0.0 <= c.e <= 1.0)
            && (0.0 <= a.staticFriction <= 1.0 && 0.0 <= b.staticFriction <= 1.0 ==> 0.0 <= c.staticFriction <= 1.0)
            && (0.0 <= a.dynamicFriction <= 1.0 && 0.0 <= b.dynamicFriction <= 1.0 ==> 0.0 <= c.dynamicFriction <= 1.0)
  {
    CombineSymmetric(a.restitution, b.restitution);
    CombineSymmetric(a.staticFriction, b.staticFriction);
    CombineSymmetric(a.dynamicFriction, b.dynamicFriction);
  }

  /** `update()` changes the contact points and the depth and nothing else; the
      contact points are the body-local anchors mapped to the world, and a
      second update with the same poses changes nothing. */
  lemma UpdateEffect(c: Contact, a: Body, b: Body)
    ensures var r := c.Update(a.pose, b.pose);
            && r.(p1 := c.p1, p2 := c.p2, d := c.d) == c
            && r.p1 == a.LocalToWorld(c.r1) && r.p2 == b.LocalToWorld(c.r2)
            && r.d == Depth(r.p1, r.p2, c.n)
            && r.Update(a.pose, b.pose) == r
  {
  }

  /** A contact made from two world points and their body-local anchors is
      already up to date: updating it before the bodies move keeps its points and
      only measures the depth along the normal. */
  lemma FreshContactUpToDate(a: Body, b: Body, normal: Vec3, d: real, p1: Vec3, p2: Vec3)
    requires a.pose.Unit() && b.pose.Unit()
    ensures var c := NewContact(a, b, normal, d, p1, p2, a.WorldToLocal(p1), b.WorldToLocal(p2));
            c.Update(a.pose, b.pose) == c.(d := Depth(p1, p2, normal))
  {
    LocalWorldRoundTrip(a, p1);
    LocalWorldRoundTrip(b, p2);
    assert Add(a.pose.p, Vectors.Rotate(a.pose.q, a.WorldToLocal(p1))) == a.LocalToWorld(a.WorldToLocal(p1));
    assert Add(b.pose.p, Vectors.Rotate(b.pose.q, b.WorldToLocal(p2))) == b.LocalToWorld(b.WorldToLocal(p2));
  }

  /** `ContactSet`.  The fields that nothing writes after construction are
      constants. */
  class ContactSet {
    const A: RigidBody
    const B: RigidBody
    var p1: Vec3
    var p2: Vec3
    const r1: Vec3
    const r2: Vec3
    const n: Vec3
    var d: real
    const vrel: Vec3
    const vn: real
    const e: real
    const staticFriction: real
    const dynamicFriction: real
    var lambdaN: real
    var lambdaT: real

    function Value(): Contact
      reads this
    {
      Contact(p1, p2, r1, r2, n, d, vrel, vn, e, staticFriction, dynamicFriction, lambdaN, lambdaT)
    }

    /** The two bodies must differ; the relative velocity is sampled from them now. */
    constructor (a: RigidBody, b: RigidBody, normal: Vec3, d: real, p1: Vec3, p2: Vec3, r1: Vec3, r2: Vec3)
      requires a != b
      ensures A == a && B == b
      ensures Value() == NewContact(a.State(), b.State(), normal, d, p1, p2, r1, r2)
    {
      A, B := a, b;
      n, this.d, this.p1, this.p2, this.r1, this.r2 := normal, d, p1, p2, r1, r2;
      lambdaN, lambdaT := 0.0, 0.0;
      vrel := Sub(a.State().GetVelocityAt(p1), b.State().GetVelocityAt(p2));
      vn := Dot(normal, Sub(a.State().GetVelocityAt(p1), b.State().GetVelocityAt(p2)));
      e := a.restitution * b.restitution;
      staticFriction := a.staticFriction * b.staticFriction;
      dynamicFriction := a.dynamicFriction * b.dynamicFriction;
    }

    method Update()
      modifies this
      ensures Value() == old(Value()).Update(A.pose, B.pose)
    {
      p1 := Add(A.pose.p, Vectors.Rotate(A.pose.q, r1));
      p2 := Add(B.pose.p, Vectors.Rotate(B.pose.q, r2));
      d := -Dot(Sub(p1, p2), n);
    }
  }
}
