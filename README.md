# XPBD rigid-body physics core of game2, in Dafny

This project models the physics core of the game engine in `engine/src/phys` and proves properties of it. The core is a rigid-body solver following Algorithm 2 and section 3.5 of Müller et al., "Detailed Rigid Body Simulation with Extended Position Based Dynamics". Every frame it works in this order:

- It collects candidate collision pairs once, in an O(n²) broad phase. Making a pair can wake its bodies.
- It skips the rest of the frame when the time step is too long.
- Otherwise it runs `NUM_SUB_STEPS` substeps of `dt / NUM_SUB_STEPS`. Each substep does six phases:
  1. generates contacts from the pairs;
  2. integrates every body;
  3. solves penetration and static friction per contact;
  4. recovers velocities from the motion;
  5. solves dynamic friction and restitution per contact;
  6. updates each body's sleep state.
- A final pass expands the bounding boxes of the active bodies and clears their accumulators.
- `PhysicsHandler` owns the bodies. It assigns their ids, delegates to the solver and casts rays against mesh triangles.

The model has the same layers as the engine:

| file | module | what it holds |
|---|---|---|
| `vectors.dfy` | `Vectors` | `vec3` and `quat` over the reals, glm's `q * v`, and length and normalize over a square-root parameter |
| `algebra.dfy` | `Algebra` | quaternion identities the poses rely on: associativity, norms of products, inverse rotation, length preservation, composition |
| `poses.dfy` | `Poses` | `Pose` and its transforms |
| `colliders.dfy` | `Colliders` | the collider kinds as a datatype, and the `Oracles` record of queries the core calls but does not define |
| `options.dfy` | `Options` | `Option`, standing for a nullable `RigidBody*` |
| `bodies.dfy` | `Bodies` | `Body`, the value of a rigid body, with one function per `RigidBody` operation, and the class `RigidBody` with one method per operation, each proved equal to its function |
| `contacts.dfy` | `Contacts` | the classes `CollisionPair` and `ContactSet`, and the value `Contact` |
| `xpbd.dfy` | `Xpbd` | what the solver does to a world of body values: the multiplier primitive, the per-contact solves, the broad and narrow phases, substeps and `update` |
| `solver.dfy` | `XpbdSolver` | the solver's methods on objects, each proved to do to the objects' values what the `Xpbd` function of the same name does |
| `handler.dfy` | `Handler` | the class `PhysicsHandler`, and the ray cast as a fold with a reference definition |

Scalars are `real`, so the model does exact arithmetic where the engine uses `float`.

Several things the core uses are parameters of the model: the square root, `pow(0.95, dt)`, the collider world-space cache, the AABB and plane predicates, GJK/EPA and `glm::intersectRayTriangle`. They are fields of an `Oracles` value. `Oracles.Sound()` states the only facts the proofs need:

- `sqrt` is a square root;
- the damping factor lies in (0, 1] for a non-negative time step;
- refreshing or expanding a collider keeps its kind and its validity.

`applyCorrection` (engine/src/phys/RigidBody.cpp:192-227) tests only `isDynamic` and never reads `isSleeping`. So the contact solves still move a sleeping body. The model keeps this, and `Bodies.ApplyCorrectionEffect` states the case.

`update` calls `collectCollisionPairs` before its `dt > 2/60` guard (engine/src/phys/XPBDSolver.cpp:45-50). So even a time step that is too long can wake bodies through the pairs it makes. `Xpbd.Update` states this.

## Model

| member | source | states |
|---|---|---|
| Poses.CloneCopy | engine/src/phys/Pose.cpp:6-14 | `clone` returns an equal pose; `copy` makes the pose equal to its argument |
| Poses.TranslateRoundTrip | engine/src/phys/Pose.cpp:16-22 | `invTranslate` undoes `translate`, in both orders |
| Poses.RotateRoundTrip | engine/src/phys/Pose.cpp:24-36 | for a unit orientation, `invRotate` undoes `rotate` in both orders, and `rotate` keeps squared length |
| Poses.TransformRoundTrip | engine/src/phys/Pose.cpp:38-50 | for a unit orientation, `invTransform` undoes `transform`, in both orders |
| Poses.TransformIsRigid | engine/src/phys/Pose.cpp:38-43 | `transform` with a unit orientation keeps the distance between two points |
| Poses.TransformPoseCompose | engine/src/phys/Pose.cpp:52-60 | for unit orientations of both poses, after `transformPose`, transforming by the result equals transforming by the old argument, then by this pose |
| Poses.TransformPoseUnit | engine/src/phys/Pose.cpp:57 | the composed orientation's squared norm is the product of the two norms, so two unit orientations give a unit one |
| Poses.OriginNeutral | engine/include/phys/Pose.h:8-11 | the default pose is a unit pose, neutral for `transformPose` and `transform` |
| Algebra.QMulAssoc | engine/src/phys/Pose.cpp:57 | the quaternion product used to compose orientations is associative |
| Algebra.NormMul | engine/src/phys/Pose.cpp:57 | the norm of a quaternion product is the product of the norms |
| Algebra.RotateInverse | engine/src/phys/Pose.cpp:29-36 | rotating by `conjugate(q)` after `q` gives back the vector, for unit `q` |
| Algebra.RotateInverseConj | engine/src/phys/Pose.cpp:24-27 | rotating by `q` after `conjugate(q)` gives back the vector, for unit `q` |
| Algebra.RotatePreservesLength | engine/src/phys/Pose.cpp:26 | `q * v` keeps the squared length for unit `q` |
| Algebra.RotateCompose | engine/src/phys/Pose.cpp:57-58 | rotating by a product of unit quaternions is rotating by each in turn, and the product is unit |
| Algebra.Sandwich | engine/src/phys/Pose.cpp:26 | glm's `q * v` equals the sandwich product `q (0, v) conj(q)` for unit `q` |
| Algebra.FirstOrderStep | engine/src/phys/RigidBody.cpp:103-116 | the first-order orientation step multiplies the squared norm by `1 + abs(u)²/4` |
| Vectors.NormalizeTimesLength | engine/src/phys/XPBDSolver.cpp:520-525 | `normalize(v) * length(v) == v`, and a non-zero vector normalizes to unit length |
| Vectors.LengthZero | engine/src/phys/XPBDSolver.cpp:520-522 | `length(v)` is zero exactly for the zero vector |
| Vectors.QNormalizeUnit | engine/src/phys/RigidBody.cpp:117 | normalizing any quaternion gives a unit quaternion |
| Vectors.QNormalizeZero | engine/src/phys/RigidBody.cpp:117 | glm's quaternion `normalize` maps the zero quaternion to the identity |
| Bodies.Body.UpdateCollider | engine/src/phys/RigidBody.cpp:339-349 | refreshing the collider keeps its kind and its validity |
| Bodies.Body.ApplyRotation | engine/src/phys/RigidBody.cpp:89-118 | only the orientation changes; it always comes out of unit length, and a zero orientation becomes the identity |
| Bodies.EffectiveScale | engine/src/phys/RigidBody.cpp:97-101 | the scale is kept when `phi·scale <= 0.5`; otherwise it is clamped so that `phi·s == 0.5`, with `0 < s < scale` |
| Bodies.FirstOrderUnit | engine/src/phys/RigidBody.cpp:103-117 | the normalized first-order step is a unit quaternion for every orientation, and the identity from the zero orientation |
| Bodies.Body.GetInverseMass | engine/src/phys/RigidBody.cpp:270-299 | zero for a static body; never negative when invMass and invInertia are not; at least `invMass` away from the origin; only the angular term near the origin |
| Bodies.Body.GetVelocityAt | engine/src/phys/RigidBody.cpp:301-309 | zero for a static body; otherwise differs from `vel` by `omega × (pos - p)` |
| Bodies.VelocityField | engine/src/phys/RigidBody.cpp:305-308 | the velocities at two points of a dynamic body differ by `omega × (a - c)` |
| Bodies.LocalWorldRoundTrip | engine/src/phys/RigidBody.cpp:311-317 | `localToWorld`/`worldToLocal` are the pose's `transform`/`invTransform`, and undo each other for a unit orientation |
| Bodies.MakeStaticFrozen | engine/src/phys/RigidBody.cpp:50-62 | after `makeStatic` the fields are static, `prevPose == pose`, `integrate`, `update` and `applyCorrection` change nothing, `getInverseMass` is 0 and `getVelocityAt` is zero |
| Bodies.IntegrateEffect | engine/src/phys/RigidBody.cpp:120-160 | a static or sleeping body is unchanged; otherwise the semi-implicit Euler step: prevPose, velocity, position (from the new velocity), omega, a unit orientation (for every old orientation); nothing else changes |
| Bodies.UpdateEffect | engine/src/phys/RigidBody.cpp:162-190 | a static or sleeping body is unchanged; otherwise the old velocities go to velPrev/omegaPrev, the new velocity carries prevPose.p to pose.p in time h, and only velocities and collider change |
| Bodies.UpdateSpin | engine/src/phys/RigidBody.cpp:177-187 | for a dynamic, awake body and `h != 0`, `omega·h` is twice the vector part of `q·conj(prevPose.q)`, negated when its real part is negative |
| Bodies.IntegrateThenUpdate | engine/src/phys/RigidBody.cpp:151-175 | for a dynamic, awake body and `h != 0`, `update` after `integrate` recovers the integrated velocity and stores it in velPrev |
| Bodies.ApplyCorrectionEffect | engine/src/phys/RigidBody.cpp:192-227 | a static body is unchanged (a sleeping one is not protected); only pose, vel, omega change; linear change `corr·invMass` away from the world origin, none at it; a positional correction always leaves a unit orientation |
| Bodies.SleepEffect | engine/src/phys/RigidBody.cpp:351-365 | an awake body comes to rest with `prevPose = pose` and keeps its timer, nothing else changes; a sleeping body is unchanged |
| Bodies.WakeEffect | engine/src/phys/RigidBody.cpp:367-373 | waking a sleeping body resets the timer and changes nothing else; an awake body is unchanged |
| Bodies.AccumulateEffect | engine/src/phys/RigidBody.cpp:70-87 | `applyForce`/`applyTorque` wake the body first, then only add the force and the torque `f × (p - position)` |
| Bodies.CentralForce | engine/src/phys/RigidBody.cpp:75 | a force through the centre of mass adds no torque |
| Bodies.SetBoxMassData | engine/src/phys/RigidBody.cpp:229-243 | `invMass·m == 1` and each inverse moment times `m(b²+c²)/12` is 1; nothing else changes |
| Bodies.SetBoxPositive | engine/src/phys/RigidBody.cpp:234-240 | a box with positive sides and density gets positive mass data |
| Bodies.BoxSumsNonZero | engine/src/phys/RigidBody.cpp:238-240 | for a non-zero mass, none of the sums `setBox` divides by is zero |
| Bodies.SetterEffect | engine/src/phys/RigidBody.cpp:245-261 | `setPosition`/`setRotation` replace half of the pose, set `prevPose` equal to the new pose and refresh the collider; nothing else changes |
| Bodies.TeleportHasNoVelocity | engine/src/phys/RigidBody.cpp:245-261 | after `setPosition` or `setRotation`, the next `update` recovers zero velocities |
| Bodies.SleepingBodyWakes | engine/src/phys/RigidBody.cpp:375-388 | `checkSleepState` does nothing if `canSleep` is false; a sleeping body wakes, with its timer reset, iff a squared speed exceeds 0.01, and is otherwise unchanged |
| Bodies.AwakeBodySettles | engine/src/phys/RigidBody.cpp:388-410 | an awake body sleeps iff both squared speeds are < 0.01 and the timer > 0.6666, and then rests; otherwise the timer advances by dt while slow, and stays when not slow |
| Bodies.SleepStateVelocities | engine/src/phys/RigidBody.cpp:393-401 | `checkSleepState` keeps, damps or zeroes each velocity |
| Bodies.SleepStateSlows | engine/src/phys/RigidBody.cpp:390-409 | for `dt >= 0`, `checkSleepState` never increases a squared speed |
| Bodies.RigidBody.constructor | engine/src/phys/RigidBody.cpp:10-16 | the fields are set and the collider is refreshed |
| Bodies.RigidBody.UpdateCollider | engine/src/phys/RigidBody.cpp:339-349 | the new state is `UpdateCollider` of the old |
| Bodies.RigidBody.MakeStatic | engine/src/phys/RigidBody.cpp:50-62 | the new state is `MakeStatic` of the old |
| Bodies.RigidBody.DisableCollision | engine/src/phys/RigidBody.cpp:64-68 | the new state is the old with `canCollide` false |
| Bodies.RigidBody.ApplyForce | engine/src/phys/RigidBody.cpp:70-78 | the new state is `ApplyForce` of the old |
| Bodies.RigidBody.ApplyTorque | engine/src/phys/RigidBody.cpp:80-87 | the new state is `ApplyTorque` of the old |
| Bodies.RigidBody.ApplyRotation | engine/src/phys/RigidBody.cpp:89-118 | the new state is `ApplyRotation` of the old |
| Bodies.RigidBody.Integrate | engine/src/phys/RigidBody.cpp:120-160 | the new state is `Integrate` of the old |
| Bodies.RigidBody.Update | engine/src/phys/RigidBody.cpp:162-190 | the new state is `Update` of the old |
| Bodies.RigidBody.ApplyCorrection | engine/src/phys/RigidBody.cpp:192-227 | the new state is `ApplyCorrection` of the old |
| Bodies.RigidBody.SetBox | engine/src/phys/RigidBody.cpp:229-243 | the new state is `SetBox` of the old |
| Bodies.RigidBody.SetPosition | engine/src/phys/RigidBody.cpp:245-252 | the new state is `SetPosition` of the old |
| Bodies.RigidBody.SetRotation | engine/src/phys/RigidBody.cpp:254-261 | the new state is `SetRotation` of the old |
| Bodies.RigidBody.Sleep | engine/src/phys/RigidBody.cpp:351-365 | the new state is `Sleep` of the old |
| Bodies.RigidBody.Wake | engine/src/phys/RigidBody.cpp:367-373 | the new state is `Wake` of the old |
| Bodies.RigidBody.CheckSleepState | engine/src/phys/RigidBody.cpp:375-411 | the new state is `CheckSleepState` of the old |
| Contacts.ApproachingSymmetric | engine/include/phys/CollisionPair.h:17-20 | the wake test `abs(A.vel - B.vel)² > 0.01` is symmetric in A and B |
| Contacts.NotSelf | engine/include/phys/CollisionPair.h:17-20 | a body never passes the wake test against itself |
| Contacts.PairedOnlyWakes | engine/include/phys/CollisionPair.h:17-23 | making a pair leaves an awake body unchanged; a body is asleep afterwards iff it was asleep and the test failed; only the sleep flag and timer can change |
| Contacts.CollisionPair.constructor | engine/include/phys/CollisionPair.h:9-24 | stores both bodies, and each body's new state is the old one, woken iff the two approach |
| Contacts.CombineSymmetric | engine/include/phys/ContactSet.h:62-64 | combined coefficients are symmetric and lie in [0, 1] when both inputs do |
| Contacts.NewContactEffect | engine/include/phys/ContactSet.h:38-79 | a new contact keeps the given depth, normal and points, starts with both multipliers at zero, and samples `vrel` and `vn` |
| Contacts.NewContactStatic | engine/include/phys/ContactSet.h:58-59 | between two static bodies the sampled relative velocity and normal speed are zero |
| Contacts.NewContactCoefficients | engine/include/phys/ContactSet.h:62-64 | swapping the bodies keeps e and both frictions, which lie in [0, 1] when the inputs do |
| Contacts.UpdateEffect | engine/include/phys/ContactSet.h:81-92 | `update()` changes only p1, p2 and d; the points are the anchors mapped to the world; d is the depth along n; a second update is idempotent |
| Contacts.FreshContactUpToDate | engine/src/phys/XPBDSolver.cpp:224-233 | for unit orientations of both bodies, a contact built with body-local anchors from world points keeps its points on an update before the bodies move |
| Contacts.ContactSet.constructor | engine/include/phys/ContactSet.h:38-79 | the contact's value is `NewContact` of the two bodies; requires `A != B` like the assertion |
| Contacts.ContactSet.Update | engine/include/phys/ContactSet.h:81-92 | the new value is `Update` of the old at the bodies' poses |
| Xpbd.InverseMassOf | engine/src/phys/XPBDSolver.cpp:527-528 | a null body contributes 0, and a body with non-negative mass data a non-negative amount |
| Xpbd.FindLagrangeMultiplier | engine/src/phys/XPBDSolver.cpp:509-560 | `(0, 0)` when abs(corr) < 1e-4 or when w == 0; otherwise `dlambda·(w + compliance/h²) == -abs(corr)` |
| Xpbd.MultiplierSign | engine/src/phys/XPBDSolver.cpp:530-539 | with non-negative mass data and compliance, the division is defined, dlambda <= 0, and dlambda < 0 whenever a correction is returned |
| Xpbd.MultiplierDirection | engine/src/phys/XPBDSolver.cpp:525-541 | the correction is `normalize(corr)·(-dlambda)`: parallel to corr, with length abs(dlambda) |
| Xpbd.PairCorrectionBalanced | engine/src/phys/XPBDSolver.cpp:562-572 | the pair correction is equal and opposite: for two dynamic bodies with non-zero `invMass`, both application points at least 1e-5 from the world origin, the mass-weighted linear changes cancel (nearer the origin `applyCorrection` makes no linear change) |
| Xpbd.ApplyPairKept | engine/src/phys/XPBDSolver.cpp:570-571 | a pair correction keeps both bodies' identity, mass data, material, collider kind and the pose of a static body |
| Xpbd.PenetrationEffect | engine/src/phys/XPBDSolver.cpp:344-380 | the contact is updated and only lambdaN changes; `d <= 0` moves no body; lambdaN never grows for sound mass data; both bodies kept |
| Xpbd.FrictionWith | engine/src/phys/XPBDSolver.cpp:407-435 | the correction is applied exactly when `lambda_t + dlambda_t > staticFriction·lambda_n` |
| Xpbd.FrictionEffect | engine/src/phys/XPBDSolver.cpp:382-436 | static friction writes no multiplier: the contact is as `update()` leaves it; both bodies kept |
| Xpbd.CoulombCone | engine/src/phys/XPBDSolver.cpp:417-426 | with lambda_t = 0 and non-positive multipliers, the gate is Coulomb's `abs(dlambda_t) < mu_s·abs(lambda_n)` |
| Xpbd.TangentialOrthogonal | engine/src/phys/XPBDSolver.cpp:397-398 | against a unit normal, the tangential part has no normal component and the parts add up to the vector |
| Xpbd.FrictionBounded | engine/src/phys/XPBDSolver.cpp:466-467 | the dynamic-friction speed never exceeds abs(vt), and is non-negative for sound inputs |
| Xpbd.RestitutionThreshold | engine/src/phys/XPBDSolver.cpp:479-482 | e = 0, and the target normal speed is 0, when `abs(vn) <= 2·9.81·h`; e is the contact's coefficient otherwise |
| Xpbd.FrictionTangential | engine/src/phys/XPBDSolver.cpp:461-469 | for a unit normal and `h != 0`, the friction part of dv has no normal component |
| Xpbd.VelocityTarget | engine/src/phys/XPBDSolver.cpp:456-482 | for a unit normal and `h != 0`, v + dv has normal speed exactly `max(-e·vn_tilde, 0)` |
| Xpbd.FrictionOpposes | engine/src/phys/XPBDSolver.cpp:465-469 | for `h > 0`, `dynamicFriction >= 0` and `lambdaN <= 0`, the friction change is no longer than vt and does not point along it |
| Xpbd.VelocityStepEffect | engine/src/phys/XPBDSolver.cpp:445-503 | the velocity solve of a contact updates it, writes no multiplier, keeps both bodies and moves neither |
| Xpbd.PositionStepEffect | engine/src/phys/XPBDSolver.cpp:338-341 | the position solve of a contact leaves lambdaT and keeps both bodies |
| Xpbd.SolvePositionsKept | engine/src/phys/XPBDSolver.cpp:332-342 | `solvePositions` keeps every body |
| Xpbd.SolvePositionsTangent | engine/src/phys/XPBDSolver.cpp:332-342 | `solvePositions` never writes lambda_t |
| Xpbd.SolveVelocitiesKept | engine/src/phys/XPBDSolver.cpp:438-504 | `solveVelocities` keeps every body and changes no pose |
| Xpbd.SolveVelocitiesMultipliers | engine/src/phys/XPBDSolver.cpp:438-504 | `solveVelocities` writes neither multiplier |
| Xpbd.ConvexContactsSound | engine/src/phys/XPBDSolver.cpp:211-239 | at most one convex contact, made exactly when GJK encloses the origin and EPA finds a positive depth, along `-epa.normal`, with zero multipliers |
| Xpbd.PlaneContactsSound | engine/src/phys/XPBDSolver.cpp:282-322 | each plane contact has the plane normal, d > 0 equal to `-dot(p1 - p2, N)`, p2 the projection of p1, zero multipliers, and comes from a contained, penetrating unique vertex; there are no more contacts than unique vertices |
| Xpbd.PlaneContactsPerVertex | engine/src/phys/XPBDSolver.cpp:289-319 | at most one contact per vertex: the i-th contact is at the unique vertex at position `PlaneOrigins(..)[i]`, each such position hits the plane, and the positions strictly increase in loop order |
| Xpbd.PlaneContactsComplete | engine/src/phys/XPBDSolver.cpp:289-319 | every contained, penetrating unique vertex makes a contact |
| Xpbd.GetContacts | engine/src/phys/XPBDSolver.cpp:189-330 | one link per contact, and every link is one of the pairs |
| Xpbd.GetContactsOrigins | engine/src/phys/XPBDSolver.cpp:195-327 | the contacts come in the order of their pairs; the k-th carries the link of pair `ContactOrigins(..)[k]` and is one of that pair's contacts; every contact of every pair is there |
| Xpbd.PairContactsSound | engine/src/phys/XPBDSolver.cpp:200-326 | only a convex mesh as the first body makes contacts, and every contact has d > 0 and zero multipliers |
| Xpbd.GetContactsSound | engine/src/phys/XPBDSolver.cpp:189-330 | every contact of `getContacts` has d > 0 and zero multipliers, and its pair's first body is a convex mesh |
| Xpbd.PairWakes | engine/src/phys/XPBDSolver.cpp:153-154 | making a pair wakes at most its two bodies, and a pair that passed the test has an active body afterwards |
| Xpbd.WokenTouching | engine/src/phys/XPBDSolver.cpp:128-181 | waking changes none of the tests other than activity, and never makes an active body inactive |
| Xpbd.CollectRowComplete | engine/src/phys/XPBDSolver.cpp:125-183 | the inner loop makes every later pair that passes all tests at the start of the row |
| Xpbd.CollectPairsEffect | engine/src/phys/XPBDSolver.cpp:109-187 | the broad phase only wakes bodies; every pair i < j passing all tests on the initial bodies is made; each pair made passes the filters (canCollide, first convex mesh, AABB or plane test) and has an active body at the end; the pairs are in loop order with no duplicates |
| Xpbd.FinishEffect | engine/src/phys/XPBDSolver.cpp:86-106 | the final pass clears force and torque of exactly the dynamic, awake bodies and changes nothing else but their collider |
| Xpbd.Substep | engine/src/phys/XPBDSolver.cpp:55-83 | one substep keeps every body |
| Xpbd.Substeps | engine/src/phys/XPBDSolver.cpp:55 | any number of substeps keeps every body |
| Xpbd.Advance | engine/src/phys/XPBDSolver.cpp:52-106 | the substeps and the final pass keep every body; every active body ends with zero force and torque |
| Xpbd.Update | engine/src/phys/XPBDSolver.cpp:31-107 | for `dt > 2/60`, only the broad phase, and no substep callback; otherwise exactly 15 callbacks of `dt/15` and cleared accumulators on active bodies; every body kept |
| XpbdSolver.ApplyBodyPairCorrection | engine/src/phys/XPBDSolver.cpp:562-572 | +corr on body0 and -corr on body1, skipping nulls; the same body twice takes both |
| XpbdSolver.SolvePenetration | engine/src/phys/XPBDSolver.cpp:344-380 | the contact and its bodies become `Penetration` of their old values |
| XpbdSolver.SolveFriction | engine/src/phys/XPBDSolver.cpp:382-436 | the contact and its bodies become `Friction` of their old values |
| XpbdSolver.SolveContactPositions | engine/src/phys/XPBDSolver.cpp:338-341 | solving contact k writes the position step back into its two bodies and contact k, and nothing else changes |
| XpbdSolver.SolvePositions | engine/src/phys/XPBDSolver.cpp:332-342 | the bodies and contacts end as `Xpbd.SolvePositions` of their old values |
| XpbdSolver.SolvePositionsFrom | engine/src/phys/XPBDSolver.cpp:338-341 | the loop reaches the target of the value-level solve |
| XpbdSolver.PositionsTurn | engine/src/phys/XPBDSolver.cpp:339-340 | one loop turn keeps the loop invariant towards the target |
| XpbdSolver.SolveContactVelocity | engine/src/phys/XPBDSolver.cpp:447-502 | solving contact k writes the velocity step back into its two bodies and contact k |
| XpbdSolver.SolveVelocities | engine/src/phys/XPBDSolver.cpp:438-504 | the bodies and contacts end as `Xpbd.SolveVelocities` of their old values |
| XpbdSolver.SolveVelocitiesFrom | engine/src/phys/XPBDSolver.cpp:445-503 | the loop reaches the target of the value-level solve |
| XpbdSolver.VelocitiesTurn | engine/src/phys/XPBDSolver.cpp:445-503 | one loop turn keeps the loop invariant towards the target |
| XpbdSolver.ConvexContacts | engine/src/phys/XPBDSolver.cpp:211-239 | new contacts between A and B whose values are `Xpbd.ConvexContacts` |
| XpbdSolver.PlaneContacts | engine/src/phys/XPBDSolver.cpp:282-322 | new, distinct contacts between A and B whose values are `Xpbd.PlaneContacts` |
| XpbdSolver.PairContacts | engine/src/phys/XPBDSolver.cpp:200-326 | the collider-kind dispatch: new contacts whose values are `Xpbd.PairContacts` |
| XpbdSolver.GetContacts | engine/src/phys/XPBDSolver.cpp:189-330 | new, distinct contacts attached to their pairs' bodies, with the values and links of `Xpbd.GetContacts` |
| XpbdSolver.GetContactsFrom | engine/src/phys/XPBDSolver.cpp:195-327 | the loop over the pairs reaches that result |
| XpbdSolver.Test | engine/src/phys/XPBDSolver.cpp:128-182 | the branch structure of the pair test decides `Candidate` on the bodies' current values |
| XpbdSolver.MakePair | engine/src/phys/XPBDSolver.cpp:154 | a new pair of bodies i and j, with both bodies' values as the pair constructor leaves them |
| XpbdSolver.CollectRowPairs | engine/src/phys/XPBDSolver.cpp:125-183 | the inner loop does what `Xpbd.CollectRow` does to the values, and its pairs join the linked bodies |
| XpbdSolver.CollectCollisionPairs | engine/src/phys/XPBDSolver.cpp:109-187 | the bodies and the pairs are `Xpbd.CollectPairs` of the old values |
| XpbdSolver.IntegrateBodies | engine/src/phys/XPBDSolver.cpp:63-64 | every body is integrated |
| XpbdSolver.UpdateBodies | engine/src/phys/XPBDSolver.cpp:71-72 | every body's velocity is updated |
| XpbdSolver.CheckSleepBodies | engine/src/phys/XPBDSolver.cpp:79-80 | every body's sleep state is checked |
| XpbdSolver.FinishBodies | engine/src/phys/XPBDSolver.cpp:87-106 | the bodies end as `FinishAll` of their old values |
| XpbdSolver.SubstepIs | engine/src/phys/XPBDSolver.cpp:61-80 | a substep is the six phases in the engine's order |
| XpbdSolver.SubstepBodies | engine/src/phys/XPBDSolver.cpp:55-83 | one substep on the objects is `Xpbd.Substep` of their values |
| XpbdSolver.PositionPhase | engine/src/phys/XPBDSolver.cpp:63-69 | integration, then the position solve |
| XpbdSolver.VelocityPhase | engine/src/phys/XPBDSolver.cpp:71-80 | velocity update, velocity solve, then sleep check |
| XpbdSolver.SubstepsSnoc | engine/src/phys/XPBDSolver.cpp:55 | one more substep extends a run of substeps |
| XpbdSolver.Update | engine/src/phys/XPBDSolver.cpp:31-107 | the bodies and the substep lengths are `Xpbd.Update` of the old values |
| Handler.ScanTrianglesKeep | engine/src/phys/PhysicsHandler.cpp:91-104 | the inner loop keeps its accumulators when no triangle is closer than `minDistance` |
| Handler.ScanTrianglesTake | engine/src/phys/PhysicsHandler.cpp:91-104 | when some triangle is closer, the inner loop takes the first of the nearest (strict `<` keeps the earlier on ties) |
| Handler.ScanTrianglesConcat | engine/src/phys/PhysicsHandler.cpp:82-105 | the loops over two runs of triangles compose |
| Handler.ScanTrianglesNormal | engine/src/phys/PhysicsHandler.cpp:93-102 | the inner loop never reads the normal and never clears a hit |
| Handler.ScanBodyFlat | engine/src/phys/PhysicsHandler.cpp:82-114 | one body is the loop over its tested triangles, then the normal update |
| Handler.ScanBodiesFlat | engine/src/phys/PhysicsHandler.cpp:82-114 | the nested loops are one loop over all tested triangles, then the normal update |
| Handler.AllTrianglesConcat | engine/src/phys/PhysicsHandler.cpp:82-105 | the tested triangles of two runs of bodies concatenate |
| Handler.SkippedBody | engine/src/phys/PhysicsHandler.cpp:84-88 | a body named "CarBody", or without a mesh collider, contributes no triangle |
| Handler.RaycastClosest | engine/src/phys/PhysicsHandler.cpp:75-118 | no hit (and the default result) iff no tested triangle is hit ahead nearer than FLT_MAX; otherwise the first nearest hit, its point `origin + dist·dir` and its triangle's normal |
| Handler.IdsDistinct | engine/src/phys/PhysicsHandler.cpp:21-26 | bodies whose ids are their indices are distinct objects |
| Handler.PhysicsHandler.constructor | engine/include/phys/PhysicsHandler.h:20-24 | no bodies, and the id invariant holds |
| Handler.PhysicsHandler.Add | engine/src/phys/PhysicsHandler.cpp:21-26 | the body gets the old size as its id and is appended; the ids stay the indices when the body is new |
| Handler.PhysicsHandler.Update | engine/src/phys/PhysicsHandler.cpp:30-37 | one solver update of the handler's bodies; the ids stay the indices |
| Handler.PhysicsHandler.Raycast | engine/src/phys/PhysicsHandler.cpp:75-118 | the nested loops compute `RaycastResult` of the bodies' values |

## Left out

- Constraints are left out. `Constraint::solvePos` and `solveVel`, and `PhysicsHandler::m_constraints`, are not part of this model. The solver runs as if the constraint list were empty.
- Xpbd.TangentialOrthogonal, Xpbd.FrictionTangential, Xpbd.VelocityTarget: these are proved only for a unit contact normal. The normals come from EPA or from the plane collider; both are not part of this model, and nothing here makes them unit.
- GJK/EPA, the AABB and plane queries, `Collider::updateGlobalPose`, `expandAABB` and `glm::intersectRayTriangle` are not part of this model. They are fields of `Oracles`, with only the facts of `Oracles.Sound()`.
- The square root and `pow(0.95f, dt)` are also `Oracles` fields.
- Floating point is left out. The NaN guard of `integrate`, rounding, and float32 overflow are not modelled.
- `glm::normalize` of a zero vector is NaN in the engine; the model returns the zero vector. (glm's quaternion `normalize` returns the identity for a zero quaternion, and the model does the same.)
- Bodies.Body.SetBox, Bodies.RigidBody.SetBox: the model requires a non-zero box mass. For zero volume or zero density the engine divides by zero and sets `invMass` and `invInertia` to infinity, which real arithmetic cannot represent.
- `updateGeometry`, `onCreate` and `setMesh`, which push poses into the scene graph, are left out. So are the debug helpers of the solver.
- `RigidBody.h` is not part of this model, so the class defaults are not modelled. The constructor takes every field's initial value. `velocity()` is taken to be `vel`, and the default rotation scale of `applyRotation` is taken to be 1.
- Poses: the engine's operations write into a `vec3&` or `Pose&` argument. Here a pose is a value and each operation returns the new value. A pose is held by value, so no aliasing is lost.
- XpbdSolver.Update, XpbdSolver.CollectCollisionPairs and Handler.PhysicsHandler.Update require distinct body objects. Each slot of the bodies vector is then its own body. The engine never adds a body twice, and the handler's id invariant implies this (`Handler.IdsDistinct`).
- XpbdSolver.Update requires `dt != 0`. The engine divides by `h` in `update()`, which gives a non-finite velocity for `dt == 0`.
- XpbdSolver.Update also requires colliders whose mesh indices are in range. The engine indexes the vertex arrays with them unchecked.
- XpbdSolver.Update returns the sequence of substep lengths instead of calling `onSubstep`. So the model fixes when the callback runs and with what value, but not what the host does in it.
- XpbdSolver.CollectCollisionPairs takes `dt` and does not use it, like the engine.
- Xpbd.FindLagrangeMultiplier requires that the divisor `w + compliance/h²` is non-zero once both short circuits have passed. For the zero compliance every caller in the core passes, this always holds. `Xpbd.MultiplierSign` proves it for any non-negative compliance.
- Handler.PhysicsHandler.Add keeps the invariant ids == indices only for a body not added before. Adding the same body twice breaks it in the engine too.
- Handler.PhysicsHandler.Raycast: `tempTriangle` starts uninitialized in the engine, and it is read only after a hit. The model starts it at an arbitrary triangle.
- Handler.PhysicsHandler.Raycast: the old normal is recomputed after every body once a hit exists. The model does the same.
- The loops of the solver are split into helper methods, one per loop turn. This keeps each proof small; the engine's order of effects is unchanged.
- Trajectory-level outcomes (momentum exchange, energy) and the inefficient-mesh contact path, which is commented out in the engine, are not modelled.
