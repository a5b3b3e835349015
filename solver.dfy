/** The `XPBDSolver` namespace on the engine's objects: every operation works
    in place on `RigidBody`, `CollisionPair` and `ContactSet` objects, and each
    is proved to do to their values what the function of the same name in
    module Xpbd does to a `World` of body values.

    A vector of bodies is a `seq<RigidBody>` of distinct objects; the index
    pairs of module Xpbd that say which bodies a pair or a contact joins are
    ghost parameters here. */
module XpbdSolver {
  import opened Vectors
  import opened Colliders
  import opened Bodies
  import opened Contacts
  import opened Options
  import opened Xpbd

  /** No body occurs twice. */
  ghost predicate Distinct(bodies: seq<RigidBody>) {
    forall i, j :: 0 <= i < j < |bodies| ==> bodies[i] != bodies[j]
  }

  /** No contact occurs twice. */
  ghost predicate DistinctContacts(cs: seq<ContactSet>) {
    forall i, j :: 0 <= i < j < |cs| ==> cs[i] != cs[j]
  }

  /** The values of the bodies. */
  ghost function Values(bodies: seq<RigidBody>): (w: World)
    reads bodies
    ensures |w| == |bodies| && forall k :: 0 <= k < |bodies| ==> w[k] == bodies[k].State()
  {
    seq(|bodies|, k reads bodies requires 0 <= k < |bodies| => bodies[k].State())
  }

  /** The values of the contacts. */
  ghost function ContactValues(cs: seq<ContactSet>): (r: seq<Contact>)
    reads cs
    ensures |r| == |cs| && forall k :: 0 <= k < |cs| ==> r[k] == cs[k].Value()
  {
    seq(|cs|, k reads cs requires 0 <= k < |cs| => cs[k].Value())
  }

  /** Contact `k` joins the bodies `ls[k].a` and `ls[k].b`. */
  ghost predicate Attached(cs: seq<ContactSet>, bodies: seq<RigidBody>, ls: seq<Link>) {
    && |cs| == |ls| && AllLinked(ls, |bodies|)
    && forall k :: 0 <= k < |cs| ==> cs[k].A == bodies[ls[k].a] && cs[k].B == bodies[ls[k].b]
  }

  /** Pair `k` joins the bodies `ls[k].a` and `ls[k].b`. */
  ghost predicate PairsOf(pairs: seq<CollisionPair>, bodies: seq<RigidBody>, ls: seq<Link>) {
    && |pairs| == |ls| && AllLinked(ls, |bodies|)
    && forall k :: 0 <= k < |pairs| ==> pairs[k].A == bodies[ls[k].a] && pairs[k].B == bodies[ls[k].b]
  }

  /** The value of a contact and its two bodies. */
  ghost function StepOf(c: ContactSet): Step
    reads c, c.A, c.B
  {
    Step(c.Value(), c.A.State(), c.B.State())
  }

  /** `applyBodyPairCorrection(body0, body1, corr, pos0, pos1, velocityLevel)`:
      `corr` at `pos0` on the first body and `-corr` at `pos1` on the second,
      skipping a null body.  The same body passed twice takes both corrections,
      one after the other. */
  method ApplyBodyPairCorrection(body0: RigidBody?, body1: RigidBody?, corr: Vec3, pos0: Vec3, pos1: Vec3,
                                 velocityLevel: bool, o: Oracles)
    requires o.Sound()
    modifies body0, body1
    ensures body0 != null && body0 != body1 ==>
              body0.State() == old(body0.State()).ApplyCorrection(corr, pos0, velocityLevel, o)
    ensures body1 != null && body0 != body1 ==>
              body1.State() == old(body1.State()).ApplyCorrection(Neg(corr), pos1, velocityLevel, o)
    ensures body0 != null && body0 == body1 ==>
              body0.State() == old(body0.State()).ApplyCorrection(corr, pos0, velocityLevel, o)
                                                  .ApplyCorrection(Neg(corr), pos1, velocityLevel, o)
  {
    if body0 != null {
      body0.ApplyCorrection(corr, pos0, velocityLevel, o);
    }
    if body1 != null {
      body1.ApplyCorrection(Neg(corr), pos1, velocityLevel, o);
    }
  }

  /** `_solvePenetration(contact, h)`. */
  method SolvePenetration(contact: ContactSet, h: real, o: Oracles)
    requires o.Sound() && h != 0.0 && contact.A != contact.B
    modifies contact, contact.A, contact.B
    ensures StepOf(contact) == Penetration(old(StepOf(contact)), h, o)
  {
    contact.Update();
    var c := contact.Value();
    if c.d <= 0.0 {
      return;
    }
    var dx := Scale(c.n, c.d);
    var m := FindLagrangeMultiplier(Some(contact.A.State()), Some(contact.B.State()), dx, 0.0, h, c.p1, c.p2, o);
    ApplyBodyPairCorrection(contact.A, contact.B, m.corr, c.p1, c.p2, false, o);
    contact.lambdaN := contact.lambdaN + m.dlambda;
  }

  /** `_solveFriction(contact, h)`. */
  method SolveFriction(contact: ContactSet, h: real, o: Oracles)
    requires o.Sound() && h != 0.0 && contact.A != contact.B
    modifies contact, contact.A, contact.B
    ensures StepOf(contact) == Friction(old(StepOf(contact)), h, o)
  {
    ghost var s := StepOf(contact);
    contact.Update();
    var c := contact.Value();
    var a, b := contact.A.State(), contact.B.State();
    var m := FindLagrangeMultiplier(Some(a), Some(b), SlipCorrection(c, a, b), 0.0, h, c.p1, c.p2, o);
    FrictionWith(s, c, m, h, o);
    if StaticGate(c, m.dlambda) {
      ApplyBodyPairCorrection(contact.A, contact.B, m.corr, c.p1, c.p2, false, o);
    }
  }

  /** Body `i` holds `w[i]`. */
  ghost predicate Holds(bodies: seq<RigidBody>, w: World)
    reads bodies
  {
    |w| == |bodies| && forall i :: 0 <= i < |bodies| ==> bodies[i].State() == w[i]
  }

  /** Contact `j` holds `rs[j]`. */
  ghost predicate HoldsContacts(cs: seq<ContactSet>, rs: seq<Contact>)
    reads cs
  {
    |rs| == |cs| && forall j :: 0 <= j < |cs| ==> cs[j].Value() == rs[j]
  }

  lemma HoldsValues(bodies: seq<RigidBody>, w: World, cs: seq<ContactSet>, rs: seq<Contact>)
    requires Holds(bodies, w) && HoldsContacts(cs, rs)
    ensures Values(bodies) == w && ContactValues(cs) == rs
  {
  }

  /** Replacing element `k` keeps the elements after it and ends the prefix
      up to it with the new element. */
  lemma UpdateSplit<T>(s: seq<T>, k: nat, x: T)
    requires k < |s|
    ensures s[k := x][k + 1..] == s[k + 1..] && s[k := x][..k + 1] == s[..k] + [x]
  {
  }

  /** The suffix of a sequence of links is linked. */
  lemma SuffixLinked(ls: seq<Link>, k: nat, n: nat)
    requires AllLinked(ls, n) && k <= |ls|
    ensures AllLinked(ls[k..], n)
  {
    assert forall i :: 0 <= i < |ls[k..]| ==> ls[k..][i] == ls[k + i];
  }

  /** The contacts `done` are solved, and the position solve of the contacts
      `rest` from `w` on ends in `target`. */
  ghost predicate PositionsReach(w: World, done: seq<Contact>, rest: seq<Contact>, lrest: seq<Link>, h: real,
                                 o: Oracles, target: (World, seq<Contact>))
    requires o.Sound() && h != 0.0 && |rest| == |lrest| && AllLinked(lrest, |w|)
  {
    var r := Xpbd.SolvePositions(w, rest, lrest, h, o);
    r.0 == target.0 && done + r.1 == target.1
  }

  lemma PositionsAdvance(w: World, done: seq<Contact>, rest: seq<Contact>, lrest: seq<Link>, h: real, o: Oracles,
                         target: (World, seq<Contact>))
    requires o.Sound() && h != 0.0 && |rest| == |lrest| && AllLinked(lrest, |w|) && rest != []
    requires PositionsReach(w, done, rest, lrest, h, o, target)
    ensures AllLinked(lrest[1..], |w|)
    ensures var st := PositionStep(Step(rest[0], w[lrest[0].a], w[lrest[0].b]), h, o);
            PositionsReach(WriteBack(w, lrest[0], st), done + [st.c], rest[1..], lrest[1..], h, o, target)
  {
    SuffixLinked(lrest, 1, |w|);
  }

  lemma PositionsDone(w: World, done: seq<Contact>, h: real, o: Oracles, target: (World, seq<Contact>))
    requires o.Sound() && h != 0.0 && PositionsReach(w, done, [], [], h, o, target)
    ensures (w, done) == target
  {
    assert Xpbd.SolvePositions(w, [], [], h, o) == (w, []);
    assert done + [] == done;
  }

  /** The position solve of contact `k`, on the bodies it joins. */
  method SolveContactPositions(contacts: seq<ContactSet>, k: nat, h: real, o: Oracles, ghost bodies: seq<RigidBody>,
                               ghost ls: seq<Link>, ghost w: World, ghost rs: seq<Contact>)
    requires o.Sound() && h != 0.0 && Distinct(bodies) && DistinctContacts(contacts) && Attached(contacts, bodies, ls)
    requires k < |contacts| && Holds(bodies, w) && HoldsContacts(contacts, rs)
    modifies contacts[k], contacts[k].A, contacts[k].B
    ensures var st := PositionStep(Step(rs[k], w[ls[k].a], w[ls[k].b]), h, o);
            Holds(bodies, WriteBack(w, ls[k], st)) && HoldsContacts(contacts, rs[k := st.c])
  {
    var contact := contacts[k];
    ghost var l := ls[k];
    assert Linked(l, |bodies|) && contact.A == bodies[l.a] && contact.B == bodies[l.b];
    ghost var s0 := StepOf(contact);
    assert s0 == Step(rs[k], w[l.a], w[l.b]);
    SolvePenetration(contact, h, o);
    SolveFriction(contact, h, o);
    ghost var st := StepOf(contact);
    assert st == PositionStep(s0, h, o);
    assert forall i :: 0 <= i < |bodies| && i != l.a && i != l.b ==> bodies[i].State() == w[i];
  }

  /** `solvePositions(contacts, h)`: the penetration and then the friction solve
      of each contact in turn. */
  method SolvePositions(contacts: seq<ContactSet>, h: real, o: Oracles, ghost bodies: seq<RigidBody>,
                        ghost ls: seq<Link>)
    requires o.Sound() && h != 0.0 && Distinct(bodies) && DistinctContacts(contacts) && Attached(contacts, bodies, ls)
    modifies bodies, contacts
    ensures (Values(bodies), ContactValues(contacts))
            == Xpbd.SolvePositions(old(Values(bodies)), old(ContactValues(contacts)), ls, h, o)
  {
    ghost var w, rs := Values(bodies), ContactValues(contacts);
    ghost var target := Xpbd.SolvePositions(w, rs, ls, h, o);
    SolvePositionsFrom(contacts, h, o, bodies, ls, w, rs, target);
  }

  /** One turn of the loop of `solvePositions`: contact `k` is solved and the
      solve of the remaining contacts still ends in `target`. */
  method PositionsTurn(contacts: seq<ContactSet>, k: nat, h: real, o: Oracles, ghost bodies: seq<RigidBody>,
                       ghost ls: seq<Link>, ghost w: World, ghost rs: seq<Contact>, ghost target: (World, seq<Contact>))
    returns (ghost w': World, ghost rs': seq<Contact>)
    requires o.Sound() && h != 0.0 && Distinct(bodies) && DistinctContacts(contacts) && Attached(contacts, bodies, ls)
    requires k < |contacts| && Holds(bodies, w) && HoldsContacts(contacts, rs) && AllLinked(ls[k..], |w|)
    requires PositionsReach(w, rs[..k], rs[k..], ls[k..], h, o, target)
    modifies contacts[k], contacts[k].A, contacts[k].B
    ensures Holds(bodies, w') && HoldsContacts(contacts, rs') && AllLinked(ls[k + 1..], |w'|)
    ensures PositionsReach(w', rs'[..k + 1], rs'[k + 1..], ls[k + 1..], h, o, target)
  {
    ghost var st := PositionStep(Step(rs[k], w[ls[k].a], w[ls[k].b]), h, o);
    assert rs[k..][0] == rs[k] && ls[k..][0] == ls[k] && rs[k..][1..] == rs[k + 1..] && ls[k..][1..] == ls[k + 1..];
    PositionsAdvance(w, rs[..k], rs[k..], ls[k..], h, o, target);
    SolveContactPositions(contacts, k, h, o, bodies, ls, w, rs);
    UpdateSplit(rs, k, st.c);
    w', rs' := WriteBack(w, ls[k], st), rs[k := st.c];
  }

  /** The loop of `solvePositions`, from the bodies `w` and the contacts `rs`
      to `target`. */
  method SolvePositionsFrom(contacts: seq<ContactSet>, h: real, o: Oracles, ghost bodies: seq<RigidBody>,
                            ghost ls: seq<Link>, ghost w: World, ghost rs: seq<Contact>, ghost target: (World, seq<Contact>))
    requires o.Sound() && h != 0.0 && Distinct(bodies) && DistinctContacts(contacts) && Attached(contacts, bodies, ls)
    requires Holds(bodies, w) && HoldsContacts(contacts, rs) && PositionsReach(w, [], rs, ls, h, o, target)
    modifies bodies, contacts
    ensures (Values(bodies), ContactValues(contacts)) == target
  {
    ghost var w, rs := w, rs;
    assert rs[0..] == rs && ls[0..] == ls && rs[..0] == [];
    for k := 0 to |contacts|
      invariant Holds(bodies, w) && HoldsContacts(contacts, rs) && AllLinked(ls[k..], |w|)
      invariant PositionsReach(w, rs[..k], rs[k..], ls[k..], h, o, target)
    {
      assert contacts[k].A == bodies[ls[k].a] && contacts[k].B == bodies[ls[k].b];
      w, rs := PositionsTurn(contacts, k, h, o, bodies, ls, w, rs, target);
    }
    assert rs[|contacts|..] == [] && ls[|contacts|..] == [] && rs[..|contacts|] == rs;
    PositionsDone(w, rs, h, o, target);
    HoldsValues(bodies, w, contacts, rs);
  }

  /** The contacts `done` are solved, and the velocity solve of the contacts
      `rest` from `w` on ends in `target`. */
  ghost predicate VelocitiesReach(w: World, done: seq<Contact>, rest: seq<Contact>, lrest: seq<Link>, h: real,
                                  o: Oracles, target: (World, seq<Contact>))
    requires o.Sound() && h != 0.0 && |rest| == |lrest| && AllLinked(lrest, |w|)
  {
    var r := Xpbd.SolveVelocities(w, rest, lrest, h, o);
    r.0 == target.0 && done + r.1 == target.1
  }

  lemma VelocitiesAdvance(w: World, done: seq<Contact>, rest: seq<Contact>, lrest: seq<Link>, h: real, o: Oracles,
                          target: (World, seq<Contact>))
    requires o.Sound() && h != 0.0 && |rest| == |lrest| && AllLinked(lrest, |w|) && rest != []
    requires VelocitiesReach(w, done, rest, lrest, h, o, target)
    ensures AllLinked(lrest[1..], |w|)
    ensures var st := VelocityStep(Step(rest[0], w[lrest[0].a], w[lrest[0].b]), h, o);
            VelocitiesReach(WriteBack(w, lrest[0], st), done + [st.c], rest[1..], lrest[1..], h, o, target)
  {
    SuffixLinked(lrest, 1, |w|);
  }

  lemma VelocitiesDone(w: World, done: seq<Contact>, h: real, o: Oracles, target: (World, seq<Contact>))
    requires o.Sound() && h != 0.0 && VelocitiesReach(w, done, [], [], h, o, target)
    ensures (w, done) == target
  {
    assert Xpbd.SolveVelocities(w, [], [], h, o) == (w, []);
    assert done + [] == done;
  }

  /** The body of the loop of `solveVelocities(contacts, h)` for contact `k`:
      the contact is updated, the relative velocity of its points is measured
      again, and the velocity change for dynamic friction and restitution is
      applied at velocity level to the two bodies it joins. */
  method SolveContactVelocity(contacts: seq<ContactSet>, k: nat, h: real, o: Oracles, ghost bodies: seq<RigidBody>,
                              ghost ls: seq<Link>, ghost w: World, ghost rs: seq<Contact>)
    requires o.Sound() && h != 0.0 && Distinct(bodies) && DistinctContacts(contacts) && Attached(contacts, bodies, ls)
    requires k < |contacts| && Holds(bodies, w) && HoldsContacts(contacts, rs)
    modifies contacts[k], contacts[k].A, contacts[k].B
    ensures var st := VelocityStep(Step(rs[k], w[ls[k].a], w[ls[k].b]), h, o);
            Holds(bodies, WriteBack(w, ls[k], st)) && HoldsContacts(contacts, rs[k := st.c])
  {
    var contact := contacts[k];
    ghost var l := ls[k];
    assert Linked(l, |bodies|) && contact.A == bodies[l.a] && contact.B == bodies[l.b];
    ghost var s0 := StepOf(contact);
    assert s0 == Step(rs[k], w[l.a], w[l.b]);
    contact.Update();
    var c := contact.Value();
    var a, b := contact.A.State(), contact.B.State();
    var v := Sub(a.GetVelocityAt(c.p1), b.GetVelocityAt(c.p2));
    var dv := VelocityChange(c, v, h, o);
    var m := FindLagrangeMultiplier(Some(a), Some(b), dv, 0.0, h, c.p1, c.p2, o);
    ApplyBodyPairCorrection(contact.A, contact.B, m.corr, c.p1, c.p2, true, o);
    ghost var st := StepOf(contact);
    assert st == VelocityStep(s0, h, o);
    assert forall i :: 0 <= i < |bodies| && i != l.a && i != l.b ==> bodies[i].State() == w[i];
  }

  /** One turn of the loop of `solveVelocities`: contact `k` is solved and the
      solve of the remaining contacts still ends in `target`. */
  method VelocitiesTurn(contacts: seq<ContactSet>, k: nat, h: real, o: Oracles, ghost bodies: seq<RigidBody>,
                        ghost ls: seq<Link>, ghost w: World, ghost rs: seq<Contact>, ghost target: (World, seq<Contact>))
    returns (ghost w': World, ghost rs': seq<Contact>)
    requires o.Sound() && h != 0.0 && Distinct(bodies) && DistinctContacts(contacts) && Attached(contacts, bodies, ls)
    requires k < |contacts| && Holds(bodies, w) && HoldsContacts(contacts, rs) && AllLinked(ls[k..], |w|)
    requires VelocitiesReach(w, rs[..k], rs[k..], ls[k..], h, o, target)
    modifies contacts[k], contacts[k].A, contacts[k].B
    ensures Holds(bodies, w') && HoldsContacts(contacts, rs') && AllLinked(ls[k + 1..], |w'|)
    ensures VelocitiesReach(w', rs'[..k + 1], rs'[k + 1..], ls[k + 1..], h, o, target)
  {
    ghost var st := VelocityStep(Step(rs[k], w[ls[k].a], w[ls[k].b]), h, o);
    assert rs[k..][0] == rs[k] && ls[k..][0] == ls[k] && rs[k..][1..] == rs[k + 1..] && ls[k..][1..] == ls[k + 1..];
    VelocitiesAdvance(w, rs[..k], rs[k..], ls[k..], h, o, target);
    SolveContactVelocity(contacts, k, h, o, bodies, ls, w, rs);
    UpdateSplit(rs, k, st.c);
    w', rs' := WriteBack(w, ls[k], st), rs[k := st.c];
  }

  /** `solveVelocities(contacts, h)`: the velocity solve of each contact in
      turn. */
  method SolveVelocities(contacts: seq<ContactSet>, h: real, o: Oracles, ghost bodies: seq<RigidBody>,
                         ghost ls: seq<Link>)
    requires o.Sound() && h != 0.0 && Distinct(bodies) && DistinctContacts(contacts) && Attached(contacts, bodies, ls)
    modifies bodies, contacts
    ensures (Values(bodies), ContactValues(contacts))
            == Xpbd.SolveVelocities(old(Values(bodies)), old(ContactValues(contacts)), ls, h, o)
  {
    ghost var w, rs := Values(bodies), ContactValues(contacts);
    ghost var target := Xpbd.SolveVelocities(w, rs, ls, h, o);
    SolveVelocitiesFrom(contacts, h, o, bodies, ls, w, rs, target);
  }

  /** The loop of `solveVelocities`, from the bodies `w` and the contacts `rs`
      to `target`. */
  method SolveVelocitiesFrom(contacts: seq<ContactSet>, h: real, o: Oracles, ghost bodies: seq<RigidBody>,
                             ghost ls: seq<Link>, ghost w: World, ghost rs: seq<Contact>, ghost target: (World, seq<Contact>))
    requires o.Sound() && h != 0.0 && Distinct(bodies) && DistinctContacts(contacts) && Attached(contacts, bodies, ls)
    requires Holds(bodies, w) && HoldsContacts(contacts, rs) && VelocitiesReach(w, [], rs, ls, h, o, target)
    modifies bodies, contacts
    ensures (Values(bodies), ContactValues(contacts)) == target
  {
    ghost var w, rs := w, rs;
    assert rs[0..] == rs && ls[0..] == ls && rs[..0] == [];
    for k := 0 to |contacts|
      invariant Holds(bodies, w) && HoldsContacts(contacts, rs) && AllLinked(ls[k..], |w|)
      invariant VelocitiesReach(w, rs[..k], rs[k..], ls[k..], h, o, target)
    {
      assert contacts[k].A == bodies[ls[k].a] && contacts[k].B == bodies[ls[k].b];
      w, rs := VelocitiesTurn(contacts, k, h, o, bodies, ls, w, rs, target);
    }
    assert rs[|contacts|..] == [] && ls[|contacts|..] == [] && rs[..|contacts|] == rs;
    VelocitiesDone(w, rs, h, o, target);
    HoldsValues(bodies, w, contacts, rs);
  }

  // ---------------------------------------------------------------------------
  // `getContacts`.

  /** The contacts are new objects that join `a` and `b`. */
  ghost predicate NewBetween(cs: seq<ContactSet>, a: RigidBody, b: RigidBody) {
    forall j :: 0 <= j < |cs| ==> cs[j].A == a && cs[j].B == b
  }

  /** The contacts of one pair, as the body of the loop of
      `getContacts(collisions)` makes them: GJK and EPA for two convex meshes,
      a loop over the unique vertices for a convex mesh on a plane, nothing
      otherwise. */
  method PairContacts(pair: CollisionPair, o: Oracles) returns (cs: seq<ContactSet>)
    requires pair.A != pair.B && pair.A.collider.Valid()
    ensures ContactValues(cs) == Xpbd.PairContacts(pair.A.State(), pair.B.State(), o)
    ensures NewBetween(cs, pair.A, pair.B) && DistinctContacts(cs)
    ensures forall j :: 0 <= j < |cs| ==> fresh(cs[j])
  {
    var A, B := pair.A, pair.B;
    cs := [];
    match A.collider.shape {
      case ConvexShape(mesh) =>
        match B.collider.shape {
          case ConvexShape(_) =>
            cs := ConvexContacts(A, B, o);
          case PlaneShape(plane) =>
            cs := PlaneContacts(A, B, mesh, plane, o);
          case _ =>
        }
      case _ =>
    }
  }

  /** The convex-convex case of `getContacts`: GJK, then EPA when the simplex
      encloses the origin, and one contact when EPA finds a positive depth. */
  method ConvexContacts(A: RigidBody, B: RigidBody, o: Oracles) returns (cs: seq<ContactSet>)
    requires A != B
    ensures ContactValues(cs) == Xpbd.ConvexContacts(A.State(), B.State(), o)
    ensures NewBetween(cs, A, B) && DistinctContacts(cs)
    ensures forall j :: 0 <= j < |cs| ==> fresh(cs[j])
  {
    cs := [];
    var simplex := o.gjk(A.collider, B.collider);
    if !simplex.containsOrigin {
      return;
    }
    var e := o.epa(simplex, A.collider, B.collider);
    if !e.found || e.d <= 0.0 {
      return;
    }
    var c := new ContactSet(A, B, Neg(e.normal), e.d, e.p1, e.p2, A.State().WorldToLocal(e.p1),
                            B.State().WorldToLocal(e.p2));
    cs := [c];
  }

  /** The convex-plane case of `getContacts`: one contact for each unique
      vertex of `A` that the plane contains and that lies below it. */
  method PlaneContacts(A: RigidBody, B: RigidBody, mesh: MeshGeom, plane: PlaneGeom, o: Oracles)
    returns (cs: seq<ContactSet>)
    requires A != B && mesh.Valid()
    ensures ContactValues(cs) == Xpbd.PlaneContacts(A.State(), B.State(), mesh, plane, 0, o)
    ensures NewBetween(cs, A, B) && DistinctContacts(cs)
    ensures forall j :: 0 <= j < |cs| ==> fresh(cs[j])
  {
    cs := [];
    var n := plane.normal;
    ghost var a, b := A.State(), B.State();
    for i := 0 to |mesh.uniqueIndices|
      invariant ContactValues(cs) + Xpbd.PlaneContacts(a, b, mesh, plane, i, o)
                == Xpbd.PlaneContacts(a, b, mesh, plane, 0, o)
      invariant NewBetween(cs, A, B) && DistinctContacts(cs)
      invariant forall j :: 0 <= j < |cs| ==> fresh(cs[j])
    {
      ghost var rest := Xpbd.PlaneContacts(a, b, mesh, plane, i + 1, o);
      var r1 := mesh.vertices[mesh.uniqueIndices[i]];
      var p1 := mesh.verticesWorld[mesh.uniqueIndices[i]];
      if !o.containsPoint(plane, p1) {
        assert Xpbd.PlaneContacts(a, b, mesh, plane, i, o) == rest;
        continue;
      }
      var p2 := o.projectPoint(plane, p1);
      var r2 := B.State().WorldToLocal(p2);
      var d := -Dot(Sub(p1, p2), n);
      if d <= 0.0 {
        assert Xpbd.PlaneContacts(a, b, mesh, plane, i, o) == rest;
        continue;
      }
      var c := new ContactSet(A, B, n, d, p1, p2, r1, r2);
      assert forall i, j :: 0 <= i < |cs| && 0 <= j < |[c]| ==> cs[i] != [c][j];
      DistinctAppend(cs, [c]);
      assert Xpbd.PlaneContacts(a, b, mesh, plane, i, o) == [c.Value()] + rest;
      assert ContactValues(cs + [c]) == ContactValues(cs) + [c.Value()];
      assert ContactValues(cs) + ([c.Value()] + rest) == ContactValues(cs) + [c.Value()] + rest;
      cs := cs + [c];
    }
    assert Xpbd.PlaneContacts(a, b, mesh, plane, |mesh.uniqueIndices|, o) == [];
    assert ContactValues(cs) + [] == ContactValues(cs);
  }

  /** `getContacts(collisions)`, after `done` pairs: the contacts of the pairs
      `rest` complete the result. */
  ghost predicate ContactsReach(w: World, rest: seq<Link>, made: seq<Contact>, links: seq<Link>, o: Oracles,
                                target: (seq<Contact>, seq<Link>))
    requires AllLinked(rest, |w|) && CollidersValid(w)
  {
    var r := Xpbd.GetContacts(w, rest, o);
    made + r.0 == target.0 && links + r.1 == target.1
  }

  lemma ContactsAdvance(w: World, rest: seq<Link>, made: seq<Contact>, links: seq<Link>, o: Oracles,
                        target: (seq<Contact>, seq<Link>), first: seq<Contact>)
    requires AllLinked(rest, |w|) && CollidersValid(w) && rest != []
    requires ContactsReach(w, rest, made, links, o, target)
    requires first == Xpbd.PairContacts(w[rest[0].a], w[rest[0].b], o)
    ensures AllLinked(rest[1..], |w|)
    ensures ContactsReach(w, rest[1..], made + first, links + Repeat(rest[0], |first|), o, target)
  {
    SuffixLinked(rest, 1, |w|);
    var r := Xpbd.GetContacts(w, rest[1..], o);
    assert Xpbd.GetContacts(w, rest, o) == (first + r.0, Repeat(rest[0], |first|) + r.1);
    assert made + (first + r.0) == made + first + r.0;
    assert links + (Repeat(rest[0], |first|) + r.1) == links + Repeat(rest[0], |first|) + r.1;
  }

  /** Appending the contacts of one more pair keeps the contacts attached to
      their pairs' bodies and distinct. */
  lemma AttachedConcat(contacts: seq<ContactSet>, cs: seq<ContactSet>, bodies: seq<RigidBody>, cls: seq<Link>, l: Link)
    requires Attached(contacts, bodies, cls) && DistinctContacts(contacts) && Linked(l, |bodies|)
    requires NewBetween(cs, bodies[l.a], bodies[l.b]) && DistinctContacts(cs)
    requires forall i, j :: 0 <= i < |contacts| && 0 <= j < |cs| ==> contacts[i] != cs[j]
    ensures Attached(contacts + cs, bodies, cls + Repeat(l, |cs|)) && DistinctContacts(contacts + cs)
    ensures ContactValues(contacts + cs) == ContactValues(contacts) + ContactValues(cs)
  {
    AttachedAppend(contacts, cs, bodies, cls, l);
    DistinctAppend(contacts, cs);
    ValuesAppend(contacts, cs);
  }

  lemma AttachedAppend(contacts: seq<ContactSet>, cs: seq<ContactSet>, bodies: seq<RigidBody>, cls: seq<Link>, l: Link)
    requires Attached(contacts, bodies, cls) && Linked(l, |bodies|) && NewBetween(cs, bodies[l.a], bodies[l.b])
    ensures Attached(contacts + cs, bodies, cls + Repeat(l, |cs|))
  {
    var r, m := contacts + cs, cls + Repeat(l, |cs|);
    assert forall k :: 0 <= k < |contacts| ==> r[k] == contacts[k] && m[k] == cls[k];
    assert forall k :: |contacts| <= k < |r| ==> r[k] == cs[k - |contacts|] && m[k] == l;
  }

  lemma DistinctAppend(contacts: seq<ContactSet>, cs: seq<ContactSet>)
    requires DistinctContacts(contacts) && DistinctContacts(cs)
    requires forall i, j :: 0 <= i < |contacts| && 0 <= j < |cs| ==> contacts[i] != cs[j]
    ensures DistinctContacts(contacts + cs)
  {
    var r := contacts + cs;
    assert forall k :: 0 <= k < |contacts| ==> r[k] == contacts[k];
    assert forall k :: |contacts| <= k < |r| ==> r[k] == cs[k - |contacts|];
  }

  lemma ValuesAppend(contacts: seq<ContactSet>, cs: seq<ContactSet>)
    ensures ContactValues(contacts + cs) == ContactValues(contacts) + ContactValues(cs)
  {
    var r := contacts + cs;
    assert forall k :: 0 <= k < |contacts| ==> r[k] == contacts[k];
    assert forall k :: |contacts| <= k < |r| ==> r[k] == cs[k - |contacts|];
  }

  /** `getContacts(collisions)`: the contacts of every pair in order, each a
      new object joining the two bodies of its pair. */
  method GetContacts(pairs: seq<CollisionPair>, o: Oracles, ghost bodies: seq<RigidBody>, ghost ls: seq<Link>)
    returns (contacts: seq<ContactSet>, ghost cls: seq<Link>)
    requires Distinct(bodies) && PairsOf(pairs, bodies, ls) && CollidersValid(Values(bodies))
    ensures (ContactValues(contacts), cls) == Xpbd.GetContacts(Values(bodies), ls, o)
    ensures Attached(contacts, bodies, cls) && DistinctContacts(contacts)
    ensures forall j :: 0 <= j < |contacts| ==> fresh(contacts[j])
  {
    ghost var w := Values(bodies);
    ghost var target := Xpbd.GetContacts(w, ls, o);
    assert [] + target.0 == target.0 && [] + target.1 == target.1;
    contacts, cls := GetContactsFrom(pairs, o, bodies, ls, w, target);
  }

  /** One turn of the loop of `getContacts`: the contacts of the pair that
      joins the bodies `rest[0]` are appended. */
  method ContactsTurn(pair: CollisionPair, o: Oracles, ghost bodies: seq<RigidBody>, ghost w: World, ghost rest: seq<Link>,
                      ghost target: (seq<Contact>, seq<Link>), contacts: seq<ContactSet>, ghost cls: seq<Link>)
    returns (contacts': seq<ContactSet>, ghost cls': seq<Link>)
    requires Distinct(bodies) && Values(bodies) == w && CollidersValid(w) && rest != [] && AllLinked(rest, |w|)
    requires pair.A == bodies[rest[0].a] && pair.B == bodies[rest[0].b]
    requires ContactsReach(w, rest, ContactValues(contacts), cls, o, target)
    requires Attached(contacts, bodies, cls) && DistinctContacts(contacts)
    ensures AllLinked(rest[1..], |w|) && ContactsReach(w, rest[1..], ContactValues(contacts'), cls', o, target)
    ensures Attached(contacts', bodies, cls') && DistinctContacts(contacts')
    ensures forall j :: 0 <= j < |contacts'| ==> (j < |contacts| && contacts'[j] == contacts[j]) || fresh(contacts'[j])
  {
    ghost var l := rest[0];
    assert Linked(l, |bodies|);
    var cs := PairContacts(pair, o);
    ContactsAdvance(w, rest, ContactValues(contacts), cls, o, target, ContactValues(cs));
    assert forall i, j :: 0 <= i < |contacts| && 0 <= j < |cs| ==> contacts[i] != cs[j];
    AttachedConcat(contacts, cs, bodies, cls, l);
    contacts', cls' := contacts + cs, cls + Repeat(l, |cs|);
    assert forall j :: |contacts| <= j < |contacts'| ==> contacts'[j] == cs[j - |contacts|];
  }

  /** The loop of `getContacts`, on the bodies `w` and towards `target`. */
  method GetContactsFrom(pairs: seq<CollisionPair>, o: Oracles, ghost bodies: seq<RigidBody>, ghost ls: seq<Link>,
                         ghost w: World, ghost target: (seq<Contact>, seq<Link>))
    returns (contacts: seq<ContactSet>, ghost cls: seq<Link>)
    requires Distinct(bodies) && PairsOf(pairs, bodies, ls) && Values(bodies) == w && CollidersValid(w)
    requires ContactsReach(w, ls, [], [], o, target)
    ensures (ContactValues(contacts), cls) == target
    ensures Attached(contacts, bodies, cls) && DistinctContacts(contacts)
    ensures forall j :: 0 <= j < |contacts| ==> fresh(contacts[j])
  {
    ghost var rest := ls;
    contacts, cls := [], [];
    assert ls[0..] == ls;
    for k := 0 to |pairs|
      invariant rest == ls[k..] && AllLinked(rest, |w|) && Values(bodies) == w
      invariant ContactsReach(w, rest, ContactValues(contacts), cls, o, target)
      invariant Attached(contacts, bodies, cls) && DistinctContacts(contacts)
      invariant forall j :: 0 <= j < |contacts| ==> fresh(contacts[j])
    {
      assert rest[0] == ls[k] && rest[1..] == ls[k + 1..];
      contacts, cls := ContactsTurn(pairs[k], o, bodies, w, rest, target, contacts, cls);
      rest := rest[1..];
    }
    assert Xpbd.GetContacts(w, [], o) == ([], []);
    assert ContactValues(contacts) + [] == ContactValues(contacts) && cls + [] == cls;
  }

  // ---------------------------------------------------------------------------
  // `collectCollisionPairs`.

  /** The row of body `i` from `j` on, from `w`, ends in `target` after the
      pairs `row`. */
  ghost predicate RowReach(w: World, i: nat, j: nat, row: seq<Link>, o: Oracles, target: (World, seq<Link>))
    requires i < j <= |w|
  {
    var r := CollectRow(w, i, j, o);
    r.0 == target.0 && row + r.1 == target.1
  }

  lemma RowAdvance(w: World, i: nat, j: nat, row: seq<Link>, o: Oracles, target: (World, seq<Link>))
    requires i < j < |w| && RowReach(w, i, j, row, o, target)
    ensures !Candidate(w[i], w[j], o) ==> RowReach(w, i, j + 1, row, o, target)
    ensures Candidate(w[i], w[j], o) ==>
              RowReach(w[i := Paired(w[i], w[j])][j := Paired(w[j], w[i])], i, j + 1, row + [Link(i, j)], o, target)
  {
    if Candidate(w[i], w[j], o) {
      var w' := w[i := Paired(w[i], w[j])][j := Paired(w[j], w[i])];
      assert row + ([Link(i, j)] + CollectRow(w', i, j + 1, o).1) == row + [Link(i, j)] + CollectRow(w', i, j + 1, o).1;
    }
  }

  lemma RowDone(w: World, i: nat, row: seq<Link>, o: Oracles, target: (World, seq<Link>))
    requires i < |w| && RowReach(w, i, |w|, row, o, target)
    ensures (w, row) == target
  {
    assert row + [] == row;
  }

  /** The rows from body `i` on, from `w`, end in `target` after the pairs
      `links`. */
  ghost predicate FromReach(w: World, i: nat, links: seq<Link>, o: Oracles, target: (World, seq<Link>))
    requires i <= |w|
  {
    var r := CollectFrom(w, i, o);
    r.0 == target.0 && links + r.1 == target.1
  }

  lemma FromAdvance(w: World, i: nat, links: seq<Link>, o: Oracles, target: (World, seq<Link>), row: (World, seq<Link>))
    requires i < |w| && FromReach(w, i, links, o, target)
    requires row == if w[i].canCollide then CollectRow(w, i, i + 1, o) else (w, [])
    ensures |row.0| == |w| && FromReach(row.0, i + 1, links + row.1, o, target)
  {
    var rest := CollectFrom(row.0, i + 1, o);
    assert links + (row.1 + rest.1) == links + row.1 + rest.1;
  }

  lemma FromDone(w: World, links: seq<Link>, o: Oracles, target: (World, seq<Link>))
    requires FromReach(w, |w|, links, o, target)
    ensures (w, links) == target
  {
    assert links + [] == links;
  }

  /** Two runs of pairs, one after the other. */
  lemma PairsOfConcat(pairs: seq<CollisionPair>, bodies: seq<RigidBody>, ls: seq<Link>,
                      more: seq<CollisionPair>, ms: seq<Link>)
    requires PairsOf(pairs, bodies, ls) && PairsOf(more, bodies, ms)
    ensures PairsOf(pairs + more, bodies, ls + ms)
  {
    var ps, m := pairs + more, ls + ms;
    assert forall k :: 0 <= k < |pairs| ==> ps[k] == pairs[k] && m[k] == ls[k];
    assert forall k :: |pairs| <= k < |ps| ==> ps[k] == more[k - |pairs|] && m[k] == ms[k - |pairs|];
  }

  /** One more pair, between bodies `i` and `j`. */
  lemma PairsOfSnoc(pairs: seq<CollisionPair>, bodies: seq<RigidBody>, ls: seq<Link>, p: CollisionPair, i: nat, j: nat)
    requires PairsOf(pairs, bodies, ls) && i < |bodies| && j < |bodies| && i != j
    requires p.A == bodies[i] && p.B == bodies[j]
    ensures PairsOf(pairs + [p], bodies, ls + [Link(i, j)])
  {
    var ps, m := pairs + [p], ls + [Link(i, j)];
    assert forall k :: 0 <= k < |pairs| ==> ps[k] == pairs[k] && m[k] == ls[k];
  }

  /** `CollisionPair(A, B)` for bodies `i` and `j`: both may be woken. */
  method MakePair(bodies: seq<RigidBody>, i: nat, j: nat, ghost w: World) returns (pair: CollisionPair)
    requires Distinct(bodies) && i < j < |bodies| && Holds(bodies, w)
    modifies bodies[i], bodies[j]
    ensures pair.A == bodies[i] && pair.B == bodies[j]
    ensures Holds(bodies, w[i := Paired(w[i], w[j])][j := Paired(w[j], w[i])])
  {
    pair := new CollisionPair(bodies[i], bodies[j]);
    assert forall k :: 0 <= k < |bodies| && k != i && k != j ==> bodies[k].State() == w[k];
  }

  /** The test of the inner loop of `collectCollisionPairs` for `A`, which can
      collide, and `B`. */
  method Test(A: RigidBody, B: RigidBody, o: Oracles) returns (touch: bool)
    requires A.canCollide && A != B
    ensures touch == Candidate(A.State(), B.State(), o)
  {
    touch := false;
    if !B.canCollide {
    } else if A == B {
    } else if (!A.mass.isDynamic || A.isSleeping) && (!B.mass.isDynamic || B.isSleeping) {
    } else {
      match A.collider.shape {
        case ConvexShape(_) =>
          match B.collider.shape {
            case ConvexShape(_) => touch := o.intersects(A.collider.expandedAabb, B.collider.expandedAabb);
            case PlaneShape(plane) => touch := o.intersectsPlane(A.collider.expandedAabb, plane);
            case _ =>
          }
        case _ =>
      }
    }
  }

  /** The inner loop of `collectCollisionPairs` for body `i`, which can
      collide: the pairs of `i` with every later body. */
  method CollectRowPairs(bodies: seq<RigidBody>, i: nat, o: Oracles, ghost w: World)
    returns (pairs: seq<CollisionPair>, ghost row: seq<Link>)
    requires Distinct(bodies) && i < |bodies| && Holds(bodies, w) && w[i].canCollide
    modifies bodies
    ensures Holds(bodies, CollectRow(w, i, i + 1, o).0) && row == CollectRow(w, i, i + 1, o).1
    ensures PairsOf(pairs, bodies, row)
  {
    ghost var v := w;
    ghost var target := CollectRow(w, i, i + 1, o);
    pairs, row := [], [];
    assert row + target.1 == target.1;
    var A := bodies[i];
    for j := i + 1 to |bodies|
      invariant Holds(bodies, v) && v[i].canCollide && RowReach(v, i, j, row, o, target)
      invariant PairsOf(pairs, bodies, row)
    {
      var B := bodies[j];
      assert A.State() == v[i] && B.State() == v[j] && A != B;
      var touch := Test(A, B, o);
      RowAdvance(v, i, j, row, o, target);
      if touch {
        var pair := MakePair(bodies, i, j, v);
        PairsOfSnoc(pairs, bodies, row, pair, i, j);
        pairs, row := pairs + [pair], row + [Link(i, j)];
        PairedOnlyWakes(v[i], v[j]);
        v := v[i := Paired(v[i], v[j])][j := Paired(v[j], v[i])];
      }
    }
    RowDone(v, i, row, o, target);
  }

  /** `collectCollisionPairs(rigidBodies, dt)`: every pair `i < j` of bodies
      that can collide, of which one is dynamic and awake, whose first body is
      a convex mesh and whose expanded bounding boxes (or box and plane) meet;
      a pair wakes both its bodies when they approach each other fast enough,
      and later tests see the woken bodies.  `dt` is not used. */
  method CollectCollisionPairs(bodies: seq<RigidBody>, dt: real, o: Oracles) returns (pairs: seq<CollisionPair>,
                                                                                     ghost links: seq<Link>)
    requires Distinct(bodies)
    modifies bodies
    ensures (Values(bodies), links) == CollectPairs(old(Values(bodies)), o)
    ensures PairsOf(pairs, bodies, links)
  {
    ghost var w := Values(bodies);
    ghost var target := CollectPairs(w, o);
    pairs, links := [], [];
    assert links + target.1 == target.1;
    for i := 0 to |bodies|
      invariant Holds(bodies, w) && FromReach(w, i, links, o, target)
      invariant PairsOf(pairs, bodies, links)
    {
      var A := bodies[i];
      if !A.canCollide {
        FromAdvance(w, i, links, o, target, (w, []));
        assert links + [] == links;
        continue;
      }
      ghost var row := CollectRow(w, i, i + 1, o);
      var more;
      ghost var ms;
      more, ms := CollectRowPairs(bodies, i, o, w);
      FromAdvance(w, i, links, o, target, row);
      PairsOfConcat(pairs, bodies, links, more, ms);
      pairs, links, w := pairs + more, links + ms, row.0;
    }
    FromDone(w, links, o, target);
    HoldsValues(bodies, w, [], []);
  }

  // ---------------------------------------------------------------------------
  // The loops of `update` over every body.

  /** `body->integrate(h)` for every body. */
  method IntegrateBodies(bodies: seq<RigidBody>, h: real, o: Oracles)
    requires o.Sound() && Distinct(bodies)
    modifies bodies
    ensures Values(bodies) == IntegrateAll(old(Values(bodies)), h, o)
  {
    ghost var w0 := Values(bodies);
    ghost var w := w0;
    for i := 0 to |bodies|
      invariant Holds(bodies, w) && |w| == |w0|
      invariant forall k :: 0 <= k < i ==> w[k] == w0[k].Integrate(h, o)
      invariant forall k :: i <= k < |w| ==> w[k] == w0[k]
    {
      bodies[i].Integrate(h, o);
      w := w[i := w[i].Integrate(h, o)];
    }
    HoldsValues(bodies, w, [], []);
  }

  /** `body->update(h)` for every body. */
  method UpdateBodies(bodies: seq<RigidBody>, h: real, o: Oracles)
    requires h != 0.0 && Distinct(bodies)
    modifies bodies
    ensures Values(bodies) == UpdateAll(old(Values(bodies)), h, o)
  {
    ghost var w0 := Values(bodies);
    ghost var w := w0;
    for i := 0 to |bodies|
      invariant Holds(bodies, w) && |w| == |w0|
      invariant forall k :: 0 <= k < i ==> w[k] == w0[k].Update(h, o)
      invariant forall k :: i <= k < |w| ==> w[k] == w0[k]
    {
      bodies[i].Update(h, o);
      w := w[i := w[i].Update(h, o)];
    }
    HoldsValues(bodies, w, [], []);
  }

  /** `body->checkSleepState(h)` for every body. */
  method CheckSleepBodies(bodies: seq<RigidBody>, h: real, o: Oracles)
    requires Distinct(bodies)
    modifies bodies
    ensures Values(bodies) == CheckSleepAll(old(Values(bodies)), h, o)
  {
    ghost var w0 := Values(bodies);
    ghost var w := w0;
    for i := 0 to |bodies|
      invariant Holds(bodies, w) && |w| == |w0|
      invariant forall k :: 0 <= k < i ==> w[k] == w0[k].CheckSleepState(h, o)
      invariant forall k :: i <= k < |w| ==> w[k] == w0[k]
    {
      bodies[i].CheckSleepState(h, o);
      w := w[i := w[i].CheckSleepState(h, o)];
    }
    HoldsValues(bodies, w, [], []);
  }

  /** The slower, non-substepped pass at the end of `update`: a dynamic, awake
      body expands its bounding box by `2 · dt · velocity` and clears its force
      and torque. */
  method FinishBodies(bodies: seq<RigidBody>, dt: real, o: Oracles)
    requires Distinct(bodies)
    modifies bodies
    ensures Values(bodies) == FinishAll(old(Values(bodies)), dt, o)
  {
    ghost var w0 := Values(bodies);
    ghost var w := w0;
    for i := 0 to |bodies|
      invariant Holds(bodies, w) && |w| == |w0|
      invariant forall k :: 0 <= k < i ==> w[k] == FinishBody(w0[k], dt, o)
      invariant forall k :: i <= k < |w| ==> w[k] == w0[k]
    {
      var body := bodies[i];
      w := w[i := FinishBody(w[i], dt, o)];
      if !body.mass.isDynamic {
        continue;
      }
      if body.isSleeping {
        continue;
      }
      body.collider := o.expandAABBBy(body.collider, Scale(body.motion.vel, 2.0 * dt));
      body.motion := body.motion.(force := Zero, torque := Zero);
    }
    HoldsValues(bodies, w, [], []);
  }

  // ---------------------------------------------------------------------------
  // `update`.

  /** A run of substeps followed by one more. */
  lemma SubstepsSnoc(w: World, ls: seq<Link>, h: real, n: nat, o: Oracles)
    requires o.Sound() && h != 0.0 && AllLinked(ls, |w|) && CollidersValid(w)
    ensures var s := Substeps(w, ls, h, n, o);
            && CollidersValid(s) && |s| == |w|
            && Substeps(w, ls, h, n + 1, o) == Substep(s, ls, h, o)
  {
    KeptValid(w, Substeps(w, ls, h, n, o));
  }

  /** One substep of `update`: contacts from the pairs, integration, the
      position solve, the velocity update, the velocity solve and the sleep
      check. */
  method SubstepBodies(bodies: seq<RigidBody>, pairs: seq<CollisionPair>, h: real, o: Oracles, ghost ls: seq<Link>)
    requires o.Sound() && h != 0.0 && Distinct(bodies) && PairsOf(pairs, bodies, ls) && CollidersValid(Values(bodies))
    modifies bodies
    ensures Values(bodies) == Substep(old(Values(bodies)), ls, h, o)
  {
    ghost var w := Values(bodies);
    SubstepIs(w, ls, h, o);
    var contacts;
    ghost var cls;
    contacts, cls := GetContacts(pairs, o, bodies, ls);
    PositionPhase(bodies, contacts, h, o, cls);
    VelocityPhase(bodies, contacts, h, o, cls);
  }

  /** The first half of a substep: integration and the position solve. */
  method PositionPhase(bodies: seq<RigidBody>, contacts: seq<ContactSet>, h: real, o: Oracles, ghost cls: seq<Link>)
    requires o.Sound() && h != 0.0 && Distinct(bodies) && DistinctContacts(contacts) && Attached(contacts, bodies, cls)
    modifies bodies, contacts
    ensures (Values(bodies), ContactValues(contacts))
            == Xpbd.SolvePositions(IntegrateAll(old(Values(bodies)), h, o), old(ContactValues(contacts)), cls, h, o)
  {
    ghost var rs := ContactValues(contacts);
    IntegrateBodies(bodies, h, o);
    assert ContactValues(contacts) == rs;
    SolvePositions(contacts, h, o, bodies, cls);
  }

  /** The second half of a substep: the velocity update, the velocity solve and
      the sleep check. */
  method VelocityPhase(bodies: seq<RigidBody>, contacts: seq<ContactSet>, h: real, o: Oracles, ghost cls: seq<Link>)
    requires o.Sound() && h != 0.0 && Distinct(bodies) && DistinctContacts(contacts) && Attached(contacts, bodies, cls)
    modifies bodies, contacts
    ensures Values(bodies)
            == CheckSleepAll(Xpbd.SolveVelocities(UpdateAll(old(Values(bodies)), h, o), old(ContactValues(contacts)), cls, h, o).0, h, o)
  {
    ghost var rs := ContactValues(contacts);
    UpdateBodies(bodies, h, o);
    assert ContactValues(contacts) == rs;
    SolveVelocities(contacts, h, o, bodies, cls);
    CheckSleepBodies(bodies, h, o);
  }

  /** The six phases of a substep, one after the other. */
  lemma SubstepIs(w: World, ls: seq<Link>, h: real, o: Oracles)
    requires o.Sound() && h != 0.0 && AllLinked(ls, |w|) && CollidersValid(w)
    ensures var cs := Xpbd.GetContacts(w, ls, o);
            var p := Xpbd.SolvePositions(IntegrateAll(w, h, o), cs.0, cs.1, h, o);
            var v := Xpbd.SolveVelocities(UpdateAll(p.0, h, o), p.1, cs.1, h, o);
            Substep(w, ls, h, o) == CheckSleepAll(v.0, h, o)
  {
  }

  /** `XPBDSolver::update(bodies, constraints, dt, onSubstep)` without
      constraints.  Returns the lengths passed to `onSubstep`, in order. */
  method Update(bodies: seq<RigidBody>, dt: real, o: Oracles) returns (substeps: seq<real>)
    requires o.Sound() && dt != 0.0 && Distinct(bodies) && CollidersValid(Values(bodies))
    modifies bodies
    ensures (Values(bodies), substeps) == Xpbd.Update(old(Values(bodies)), dt, o)
  {
    ghost var w0 := Values(bodies);
    var pairs;
    ghost var ls;
    pairs, ls := CollectCollisionPairs(bodies, dt, o);
    CollectPairsKept(w0, o);
    substeps := [];
    if dt > MaxTimeStep {
      return;
    }
    var h := dt / NumSubSteps as real;
    ghost var start := Values(bodies);
    for i := 0 to NumSubSteps
      invariant CollidersValid(Values(bodies)) && |Values(bodies)| == |start|
      invariant Values(bodies) == Substeps(start, ls, h, i, o)
      invariant substeps == Repeat(h, i)
    {
      SubstepsSnoc(start, ls, h, i, o);
      SubstepBodies(bodies, pairs, h, o, ls);
      KeptValid(start, Values(bodies));
      RepeatSnoc(h, i);
      substeps := substeps + [h];
    }
    FinishBodies(bodies, dt, o);
  }

  lemma RepeatSnoc<T>(x: T, n: nat)
    ensures Repeat(x, n) + [x] == Repeat(x, n + 1)
  {
  }
}

