/** Colliders and the geometric queries the core calls but does not define.

    The collider classes (`Collider`, `MeshCollider`, `PlaneCollider`, their AABB
    and plane types), GJK/EPA and `glm::intersectRayTriangle` are not part of this
    model.  A collider is a value tagged by its shape kind; every query on it is a
    field of an `Oracles` record that the operations receive as a parameter, with
    the few facts the core relies on collected in `Oracles.Sound()`. */
module Colliders {
  import opened Vectors
  import opened Poses

  /** `ColliderType`. */
  datatype ColliderType = Plane | ConvexMesh | InefficientMesh | Sphere

  datatype AABB = AABB(min: Vec3, max: Vec3)

  /** A bounded plane; `containsPoint` and `projectPoint` on it are oracles. */
  datatype PlaneGeom = PlaneGeom(normal: Vec3, origin: Vec3)

  /** `std::array<vec3, 4>`: three corners and a normal. */
  datatype Triangle = Triangle(t0: Vec3, t1: Vec3, t2: Vec3, normal: Vec3)

  /** The geometry of a mesh collider: local and world-space vertices, the indices
      of the distinct vertices of a convex hull, and world-space triangles. */
  datatype MeshGeom = MeshGeom(vertices: seq<Vec3>, verticesWorld: seq<Vec3>,
                               uniqueIndices: seq<int>, triangles: seq<Triangle>)
  {
    /** The world-space cache matches the local vertices and every unique index
        names a vertex. */
    predicate Valid() {
      && |verticesWorld| == |vertices|
      && forall k :: 0 <= k < |uniqueIndices| ==> 0 <= uniqueIndices[k] < |vertices|
    }
  }

  datatype Shape =
    | PlaneShape(plane: PlaneGeom)
    | ConvexShape(mesh: MeshGeom)
    | InefficientShape(mesh: MeshGeom)
    | SphereShape

  datatype Collider = Collider(shape: Shape, relativePos: Vec3, aabb: AABB, expandedAabb: AABB)
  {
    /** `m_type`. */
    function Kind(): ColliderType {
      match shape
      case PlaneShape(_) => Plane
      case ConvexShape(_) => ConvexMesh
      case InefficientShape(_) => InefficientMesh
      case SphereShape => Sphere
    }

    predicate IsMesh() { shape.ConvexShape? || shape.InefficientShape? }

    predicate Valid() { IsMesh() ==> shape.mesh.Valid() }
  }

  /** What `GjkEpa::GJK` returns: whether the simplex encloses the origin. */
  datatype Simplex = Simplex(containsOrigin: bool, points: seq<Vec3>)

  /** What `GjkEpa::EPA` returns. */
  datatype Epa = Epa(found: bool, normal: Vec3, d: real, p1: Vec3, p2: Vec3)

  /** What `glm::intersectRayTriangle` reports: a hit and its distance. */
  datatype RayHit = RayHit(hit: bool, d: real)

  datatype Oracles = Oracles(
    sqrt: real -> real,
    /** `pow(0.95f, dt)`. */
    damping: real -> real,
    /** `Collider::updateGlobalPose(pose)`: the collider with its world cache refreshed. */
    updateGlobalPose: (Collider, Pose) -> Collider,
    /** `Collider::expandAABB()`. */
    expandAABB: Collider -> Collider,
    /** `Collider::expandAABB(v)`. */
    expandAABBBy: (Collider, Vec3) -> Collider,
    /** `AABB::intersects`. */
    intersects: (AABB, AABB) -> bool,
    /** `AABB::intersectsPlane`. */
    intersectsPlane: (AABB, PlaneGeom) -> bool,
    /** `Plane::containsPoint`. */
    containsPoint: (PlaneGeom, Vec3) -> bool,
    /** `Plane::projectPoint`. */
    projectPoint: (PlaneGeom, Vec3) -> Vec3,
    gjk: (Collider, Collider) -> Simplex,
    epa: (Simplex, Collider, Collider) -> Epa,
    intersectRayTriangle: (Vec3, Vec3, Triangle) -> RayHit)
  {
    /** `sqrt` is a square root, the damping factor lies in (0, 1], and refreshing
        or expanding a collider keeps its shape kind and a valid mesh. */
    ghost predicate Sound() {
      && IsSqrt(sqrt)
      && (forall t :: 0.0 <= t ==> 0.0 < damping(t) <= 1.0)
      && (forall c: Collider, pose: Pose ::
            updateGlobalPose(c, pose).Kind() == c.Kind() && (c.Valid() ==> updateGlobalPose(c, pose).Valid()))
      && (forall c: Collider ::
            expandAABB(c).Kind() == c.Kind() && (c.Valid() ==> expandAABB(c).Valid()))
      && (forall c: Collider, v: Vec3 ::
            expandAABBBy(c, v).Kind() == c.Kind() && (c.Valid() ==> expandAABBBy(c, v).Valid()))
    }
  }
}
