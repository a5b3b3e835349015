/** `PhysicsHandler`: the list of bodies the game registers, the time step
    that it hands to the solver, and the ray cast against the triangles of the
    mesh colliders.

    The closest-hit search of `raycast` is specified by `RaycastResult`, a fold
    over the bodies and their triangles that carries the loop's accumulators;
    `RaycastClosest` states what that fold computes: the first of the nearest
    hits in front of the origin over the triangles of every tested body, or no
    hit at all. */
module Handler {
  import opened Vectors
  import opened Colliders
  import opened Bodies
  import opened Xpbd
  import opened XpbdSolver

  /** `FLT_MAX`, the initial `minDistance`. */
  const FltMax: real := 340282346638528859811704183484516925440.0

  /** The name of the body that the ray cast ignores. */
  const SkippedName: string := "CarBody"

  /** `RaycastInfo`; `hit` is the field `exists`. */
  datatype RaycastInfo = RaycastInfo(hit: bool, point: Vec3, normal: Vec3, dist: real)

  /** A default-constructed `RaycastInfo`. */
  const NoHit: RaycastInfo := RaycastInfo(false, Zero, Zero, 0.0)

  /** The accumulators of the loop of `raycast`: `result`, `minDistance` and
      `tempTriangle`.  `tempTriangle` starts unset in the engine; it is read only
      once a hit has been stored, so its start value here is arbitrary. */
  datatype Scan = Scan(result: RaycastInfo, minDistance: real, closest: Triangle)

  const Start: Scan := Scan(NoHit, FltMax, Triangle(Zero, Zero, Zero, Zero))

  // ---------------------------------------------------------------------------
  // The ray cast as a fold.

  /** The triangle is hit in front of the origin. */
  predicate Ahead(t: Triangle, origin: Vec3, dir: Vec3, o: Oracles) {
    var h := o.intersectRayTriangle(origin, dir, t);
    h.hit && 0.0 < h.d
  }

  /** The distance `glm::intersectRayTriangle` reports for the triangle. */
  function Dist(t: Triangle, origin: Vec3, dir: Vec3, o: Oracles): real {
    o.intersectRayTriangle(origin, dir, t).d
  }

  /** The triangle would replace the closest hit found so far. */
  predicate Closer(t: Triangle, m: real, origin: Vec3, dir: Vec3, o: Oracles) {
    Ahead(t, origin, dir, o) && Dist(t, origin, dir, o) < m
  }

  /** The inner loop body for one triangle: a hit in front of the origin that is
      strictly closer than the closest so far becomes the result: its distance,
      the point `origin + d · dir`, and, for later, the triangle.  The normal is
      left as it is. */
  function ScanTriangle(s: Scan, t: Triangle, origin: Vec3, dir: Vec3, o: Oracles): Scan {
    var h := o.intersectRayTriangle(origin, dir, t);
    if h.hit && h.d > 0.0 && h.d < s.minDistance then
      Scan(s.result.(hit := true, dist := h.d, point := Add(origin, Scale(dir, h.d))), h.d, t)
    else s
  }

  /** The inner loop over the triangles `ts`. */
  function ScanTriangles(s: Scan, ts: seq<Triangle>, origin: Vec3, dir: Vec3, o: Oracles): Scan
    decreases |ts|
  {
    if ts == [] then s else ScanTriangles(ScanTriangle(s, ts[0], origin, dir, o), ts[1..], origin, dir, o)
  }

  /** `normalize(cross(t1 - t0, t2 - t0))`. */
  function FaceNormal(t: Triangle, o: Oracles): Vec3
    requires IsSqrt(o.sqrt)
  {
    Normalize(o.sqrt, Cross(Sub(t.t1, t.t0), Sub(t.t2, t.t0)))
  }

  /** The step after the triangles of a body: once a hit exists, the normal is
      computed from the triangle of the closest hit. */
  function WithNormal(s: Scan, o: Oracles): Scan
    requires IsSqrt(o.sqrt)
  {
    if s.result.hit then s.(result := s.result.(normal := FaceNormal(s.closest, o))) else s
  }

  /** The outer loop body for one body: a body named `SkippedName` is passed
      over entirely; the triangles of a convex or inefficient mesh collider are
      tested; then the normal is brought up to date. */
  function ScanBody(s: Scan, b: Body, origin: Vec3, dir: Vec3, o: Oracles): Scan
    requires IsSqrt(o.sqrt)
  {
    if b.name == SkippedName then s
    else
      var s1 := if b.collider.IsMesh() then ScanTriangles(s, b.collider.shape.mesh.triangles, origin, dir, o) else s;
      WithNormal(s1, o)
  }

  function ScanBodies(s: Scan, w: World, origin: Vec3, dir: Vec3, o: Oracles): Scan
    requires IsSqrt(o.sqrt)
    decreases |w|
  {
    if w == [] then s else ScanBodies(ScanBody(s, w[0], origin, dir, o), w[1..], origin, dir, o)
  }

  /** `raycast(origin, dir)` over the bodies `w`. */
  function RaycastResult(w: World, origin: Vec3, dir: Vec3, o: Oracles): RaycastInfo
    requires IsSqrt(o.sqrt)
  {
    ScanBodies(Start, w, origin, dir, o).result
  }

  // ---------------------------------------------------------------------------
  // The reference: the nearest hit over the tested triangles.

  /** The ray cast looks at a body unless it has the skipped name or its
      collider is not a mesh. */
  predicate Tested(b: Body) { b.name != SkippedName && b.collider.IsMesh() }

  function TrianglesOf(b: Body): seq<Triangle> {
    if Tested(b) then b.collider.shape.mesh.triangles else []
  }

  /** The tested triangles of all bodies, in the order of the loops. */
  function AllTriangles(w: World): seq<Triangle>
    decreases |w|
  {
    if w == [] then [] else TrianglesOf(w[0]) + AllTriangles(w[1..])
  }

  /** `ts[k]` is a nearest hit in front of the origin among `ts`, and no earlier
      triangle is as near. */
  ghost predicate FirstNearest(ts: seq<Triangle>, k: nat, origin: Vec3, dir: Vec3, o: Oracles)
    requires k < |ts|
  {
    && Ahead(ts[k], origin, dir, o)
    && (forall j :: 0 <= j < |ts| && Ahead(ts[j], origin, dir, o) ==>
          Dist(ts[k], origin, dir, o) <= Dist(ts[j], origin, dir, o))
    && (forall j :: 0 <= j < k && Ahead(ts[j], origin, dir, o) ==>
          Dist(ts[k], origin, dir, o) < Dist(ts[j], origin, dir, o))
  }

  /** `s` after its closest hit became `t`. */
  function Took(s: Scan, t: Triangle, origin: Vec3, dir: Vec3, o: Oracles): Scan {
    var d := Dist(t, origin, dir, o);
    Scan(s.result.(hit := true, dist := d, point := Add(origin, Scale(dir, d))), d, t)
  }

  /** The inner loop keeps its accumulators when no triangle is closer than
      `minDistance`. */
  lemma {:induction false} ScanTrianglesKeep(s: Scan, ts: seq<Triangle>, origin: Vec3, dir: Vec3, o: Oracles)
    requires forall k :: 0 <= k < |ts| ==> !Closer(ts[k], s.minDistance, origin, dir, o)
    ensures ScanTriangles(s, ts, origin, dir, o) == s
    decreases |ts|
  {
    if ts != [] {
      assert !Closer(ts[0], s.minDistance, origin, dir, o);
      assert forall k :: 0 <= k < |ts[1..]| ==> ts[1..][k] == ts[k + 1];
      ScanTrianglesKeep(s, ts[1..], origin, dir, o);
    }
  }

  /** A nearest hit of `ts[1..]` is the nearest of `ts` unless `ts[0]` is as near. */
  lemma NearestShift(ts: seq<Triangle>, k: nat, origin: Vec3, dir: Vec3, o: Oracles)
    requires 0 < |ts| && k < |ts| - 1 && FirstNearest(ts[1..], k, origin, dir, o)
    requires Ahead(ts[0], origin, dir, o) ==> Dist(ts[k + 1], origin, dir, o) < Dist(ts[0], origin, dir, o)
    ensures FirstNearest(ts, k + 1, origin, dir, o)
  {
    assert forall j :: 1 <= j < |ts| ==> ts[j] == ts[1..][j - 1];
  }

  /** When some triangle is closer than `minDistance`, the inner loop takes the
      first nearest of them. */
  lemma {:induction false} ScanTrianglesTake(s: Scan, ts: seq<Triangle>, k0: nat, origin: Vec3, dir: Vec3, o: Oracles)
    requires k0 < |ts| && Closer(ts[k0], s.minDistance, origin, dir, o)
    ensures exists k :: 0 <= k < |ts| && Closer(ts[k], s.minDistance, origin, dir, o) &&
              FirstNearest(ts, k, origin, dir, o) && ScanTriangles(s, ts, origin, dir, o) == Took(s, ts[k], origin, dir, o)
    decreases |ts|
  {
    var t, rest := ts[0], ts[1..];
    var s' := ScanTriangle(s, t, origin, dir, o);
    assert ScanTriangles(s, ts, origin, dir, o) == ScanTriangles(s', rest, origin, dir, o);
    assert forall j :: 1 <= j < |ts| ==> ts[j] == rest[j - 1];
    if Closer(t, s.minDistance, origin, dir, o) {
      assert s' == Took(s, t, origin, dir, o);
      var d := Dist(t, origin, dir, o);
      if j :| 0 <= j < |rest| && Closer(rest[j], d, origin, dir, o) {
        ScanTrianglesTake(s', rest, j, origin, dir, o);
        var k :| 0 <= k < |rest| && Closer(rest[k], d, origin, dir, o) &&
                 FirstNearest(rest, k, origin, dir, o) && ScanTriangles(s', rest, origin, dir, o) == Took(s', rest[k], origin, dir, o);
        NearestShift(ts, k, origin, dir, o);
        assert Took(s', rest[k], origin, dir, o) == Took(s, ts[k + 1], origin, dir, o);
      } else {
        ScanTrianglesKeep(s', rest, origin, dir, o);
        assert FirstNearest(ts, 0, origin, dir, o);
      }
    } else {
      assert s' == s && k0 > 0;
      ScanTrianglesTake(s', rest, k0 - 1, origin, dir, o);
      var k :| 0 <= k < |rest| && Closer(rest[k], s.minDistance, origin, dir, o) &&
               FirstNearest(rest, k, origin, dir, o) && ScanTriangles(s', rest, origin, dir, o) == Took(s', rest[k], origin, dir, o);
      NearestShift(ts, k, origin, dir, o);
    }
  }

  /** The inner loop over two runs of triangles is the loop over the second
      run started where the first one ended. */
  lemma {:induction false} ScanTrianglesConcat(s: Scan, a: seq<Triangle>, b: seq<Triangle>, origin: Vec3, dir: Vec3, o: Oracles)
    ensures ScanTriangles(s, a + b, origin, dir, o) == ScanTriangles(ScanTriangles(s, a, origin, dir, o), b, origin, dir, o)
    decreases |a|
  {
    if a == [] {
      assert a + b == b;
    } else {
      assert (a + b)[0] == a[0] && (a + b)[1..] == a[1..] + b;
      ScanTrianglesConcat(ScanTriangle(s, a[0], origin, dir, o), a[1..], b, origin, dir, o);
    }
  }

  function SetNormal(s: Scan, n: Vec3): Scan { s.(result := s.result.(normal := n)) }

  /** The inner loop never reads the normal and never clears a hit. */
  lemma {:induction false} ScanTrianglesNormal(s: Scan, ts: seq<Triangle>, n: Vec3, origin: Vec3, dir: Vec3, o: Oracles)
    ensures ScanTriangles(SetNormal(s, n), ts, origin, dir, o) == SetNormal(ScanTriangles(s, ts, origin, dir, o), n)
    ensures s.result.hit ==> ScanTriangles(s, ts, origin, dir, o).result.hit
    decreases |ts|
  {
    if ts != [] {
      var s' := ScanTriangle(s, ts[0], origin, dir, o);
      assert ScanTriangle(SetNormal(s, n), ts[0], origin, dir, o) == SetNormal(s', n);
      ScanTrianglesNormal(s', ts[1..], n, origin, dir, o);
    }
  }

  /** Once a hit exists, the normal belongs to the triangle of the closest hit. */
  predicate Consistent(s: Scan, o: Oracles)
    requires IsSqrt(o.sqrt)
  {
    s.result.hit ==> s.result.normal == FaceNormal(s.closest, o)
  }

  /** One body is the inner loop over its tested triangles and a normal update. */
  lemma ScanBodyFlat(s: Scan, b: Body, origin: Vec3, dir: Vec3, o: Oracles)
    requires IsSqrt(o.sqrt) && Consistent(s, o)
    ensures ScanBody(s, b, origin, dir, o) == WithNormal(ScanTriangles(s, TrianglesOf(b), origin, dir, o), o)
  {
  }

  /** The outer loop from consistent accumulators is the inner loop over all
      tested triangles, followed by a normal update. */
  lemma {:induction false} ScanBodiesFlat(s: Scan, w: World, origin: Vec3, dir: Vec3, o: Oracles)
    requires IsSqrt(o.sqrt) && Consistent(s, o)
    ensures ScanBodies(s, w, origin, dir, o) == WithNormal(ScanTriangles(s, AllTriangles(w), origin, dir, o), o)
    decreases |w|
  {
    if w != [] {
      var ts, rest := TrianglesOf(w[0]), AllTriangles(w[1..]);
      var x := ScanTriangles(s, ts, origin, dir, o);
      ScanBodyFlat(s, w[0], origin, dir, o);
      ScanBodiesFlat(WithNormal(x, o), w[1..], origin, dir, o);
      ScanTrianglesConcat(s, ts, rest, origin, dir, o);
      if x.result.hit {
        ScanTrianglesNormal(x, rest, FaceNormal(x.closest, o), origin, dir, o);
      }
    }
  }

  /** `raycast` returns the default result when no tested triangle is hit in
      front of the origin nearer than `FLT_MAX`; otherwise it returns the first
      of the nearest such hits: its distance, the point `origin + dist · dir`
      and the normal of its triangle. */
  lemma RaycastClosest(w: World, origin: Vec3, dir: Vec3, o: Oracles)
    requires IsSqrt(o.sqrt)
    ensures var ts, r := AllTriangles(w), RaycastResult(w, origin, dir, o);
            && (r.hit <==> exists k :: 0 <= k < |ts| && Closer(ts[k], FltMax, origin, dir, o))
            && (!r.hit ==> r == NoHit)
            && (r.hit ==>
                  exists k :: (&& 0 <= k < |ts| && Closer(ts[k], FltMax, origin, dir, o)
                               && FirstNearest(ts, k, origin, dir, o)
                               && r == RaycastInfo(true, Add(origin, Scale(dir, Dist(ts[k], origin, dir, o))),
                                                   FaceNormal(ts[k], o), Dist(ts[k], origin, dir, o))))
  {
    var ts := AllTriangles(w);
    ScanBodiesFlat(Start, w, origin, dir, o);
    if k :| 0 <= k < |ts| && Closer(ts[k], FltMax, origin, dir, o) {
      ScanTrianglesTake(Start, ts, k, origin, dir, o);
    } else {
      ScanTrianglesKeep(Start, ts, origin, dir, o);
    }
  }

  /** The tested triangles of two runs of bodies. */
  lemma {:induction false} AllTrianglesConcat(a: World, b: World)
    ensures AllTriangles(a + b) == AllTriangles(a) + AllTriangles(b)
    decreases |a|
  {
    if a == [] {
      assert a + b == b;
    } else {
      assert (a + b)[0] == a[0] && (a + b)[1..] == a[1..] + b;
      AllTrianglesConcat(a[1..], b);
    }
  }

  /** A body with the skipped name, or without a mesh collider, contributes no
      triangle wherever it stands. */
  lemma SkippedBody(a: World, b: Body, c: World)
    requires !Tested(b)
    ensures AllTriangles(a + [b] + c) == AllTriangles(a + c)
  {
    AllTrianglesConcat(a + [b], c);
    AllTrianglesConcat(a, [b]);
    AllTrianglesConcat(a, c);
    assert [b][0] == b && [b][1..] == [];
    assert AllTriangles([b]) == [];
  }

  // ---------------------------------------------------------------------------
  // The handler.

  /** Every body's id is its index. */
  ghost predicate IdsMatch(bodies: seq<RigidBody>)
    reads bodies
  {
    forall i :: 0 <= i < |bodies| ==> bodies[i].id == i
  }

  /** Bodies whose ids are their indices are distinct objects. */
  lemma IdsDistinct(bodies: seq<RigidBody>)
    requires IdsMatch(bodies)
    ensures Distinct(bodies)
  {
    forall i, j | 0 <= i < j < |bodies| ensures bodies[i] != bodies[j] {
      assert bodies[i].id == i && bodies[j].id == j;
    }
  }

  /** `PhysicsHandler` without constraints and debug meshes. */
  class PhysicsHandler {
    var bodies: seq<RigidBody>

    ghost predicate Valid()
      reads this, bodies
    {
      IdsMatch(bodies)
    }

    constructor ()
      ensures bodies == [] && Valid()
    {
      bodies := [];
    }

    /** `add(body)`: the body gets the number of bodies so far as its id and is
        appended.  Ids stay the indices when the body was not added before. */
    method Add(body: RigidBody)
      modifies this, body
      ensures bodies == old(bodies) + [body]
      ensures body.State() == old(body.State()).(id := |old(bodies)|)
      ensures old(Valid()) && body !in old(bodies) ==> Valid()
    {
      body.id := |bodies|;
      bodies := bodies + [body];
    }

    /** `update(dt, onSubstep)`: one call of the solver's `update` on the
        handler's bodies; the result is the lengths passed to `onSubstep`.
        The solver keeps every id, so the ids stay the indices. */
    method Update(dt: real, o: Oracles) returns (substeps: seq<real>)
      requires Valid() && o.Sound() && dt != 0.0 && CollidersValid(Values(bodies))
      modifies bodies
      ensures (Values(bodies), substeps) == Xpbd.Update(old(Values(bodies)), dt, o)
      ensures Valid()
    {
      IdsDistinct(bodies);
      ghost var w := Values(bodies);
      substeps := XpbdSolver.Update(bodies, dt, o);
      assert KeptWorld(w, Values(bodies));
      assert forall i :: 0 <= i < |bodies| ==> bodies[i].id == FixedOf(Values(bodies)[i]).id;
    }

    /** `raycast(origin, dir)`. */
    method Raycast(origin: Vec3, dir: Vec3, o: Oracles) returns (result: RaycastInfo)
      requires IsSqrt(o.sqrt)
      ensures result == RaycastResult(Values(bodies), origin, dir, o)
    {
      ghost var w := Values(bodies);
      result := NoHit;
      var minDistance := FltMax;
      var tempTriangle := Triangle(Zero, Zero, Zero, Zero);
      assert w[0..] == w;
      for i := 0 to |bodies|
        invariant ScanBodies(Scan(result, minDistance, tempTriangle), w[i..], origin, dir, o) == ScanBodies(Start, w, origin, dir, o)
      {
        ghost var s0 := Scan(result, minDistance, tempTriangle);
        assert w[i..][0] == w[i] && w[i..][1..] == w[i + 1..];
        var body := bodies[i];
        if body.name == SkippedName {
          continue;
        }
        var kind := body.collider.Kind();
        if kind == ConvexMesh || kind == InefficientMesh {
          var triangles := body.collider.shape.mesh.triangles;
          assert triangles[0..] == triangles;
          for k := 0 to |triangles|
            invariant ScanTriangles(Scan(result, minDistance, tempTriangle), triangles[k..], origin, dir, o)
                      == ScanTriangles(s0, triangles, origin, dir, o)
          {
            assert triangles[k..][0] == triangles[k] && triangles[k..][1..] == triangles[k + 1..];
            var triangle := triangles[k];
            var h := o.intersectRayTriangle(origin, dir, triangle);
            if h.hit {
              if h.d > 0.0 && h.d < minDistance {
                minDistance := h.d;
                result := result.(hit := true, dist := h.d, point := Vectors.Add(origin, Scale(dir, h.d)));
                tempTriangle := triangle;
              }
            }
          }
        }
        if result.hit {
          var edge1 := Sub(tempTriangle.t1, tempTriangle.t0);
          var edge2 := Sub(tempTriangle.t2, tempTriangle.t0);
          result := result.(normal := Normalize(o.sqrt, Cross(edge1, edge2)));
        }
      }
    }
  }
}
