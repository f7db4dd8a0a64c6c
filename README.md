# stalker physics core in Dafny

This project models the physics engine of the 2-D game "stalker": rigid
polygonal bodies (body.c), separating-axis collision detection (collision.c),
the force and collision-handler callbacks (forces.c), the scene that runs one
integration step over all of them (scene.c), and the growable pointer list
gen_list.c.

How the C program maps onto the model:

- **Bodies.** A `body_t` becomes the class `Bodies.Body`. Its fields are
  updated in place. `Rec()` reads the whole state as a `BodyRec` value, and
  every mutator is specified as `Rec() == F(old(Rec()))` for a pure `F`.
  Mass is `Finite(value)` or `Infinite`. The C code uses the floating-point
  `INFINITY` for an immovable body.
- **Shared state.** The callbacks act on the bodies and collision states they
  point to. A set of bodies `S` and a set of collision states `A` are read as
  a `World`: a map from each body to its record and a map from each collision
  state to its `already_collided` flag (`Bodies.Snap`, `Forces.Flags`,
  `Forces.WorldOf`).
- **Callbacks.** A `force_creator_t` with its `aux` record is the datatype
  `Forces.Generator`, and a `collision_handler_t` is `Forces.Handler`. There
  is one constructor per creator in forces.c. Each callback is a method that
  changes the heap. A pure step function on the `World` specifies it, and
  lemmas state the physics of that step: the inverse-square law, Hooke's law,
  linear drag, the coefficient of restitution and momentum conservation.
- **Scene lists.** The scene's `list_t`s are `seq` fields of the class
  `Scenes.Scene`. `scene_tick` is four loops:
  - the forces, specified by `RunForces`;
  - the body ticks, specified by `TickAll`;
  - the force prune and the body prune, specified by the order-preserving
    filter `Keep`.
- **gen_list.** `gen_list_t` is the class `GenLists.GenList`, a buffer
  `array` with `size` and `capacity` fields.
- **Arithmetic.**
  - Reals stand for `double`/`float`.
  - `size_t` is a `nat`. The cursors of the prune loops and the size in
    `gen_list_remove_front` are at most `SizeT.SIZE_MAX`, and their
    wrap-around is written out where the source relies on it: the
    `f--`/`b--` of the prune loops and the decrement in
    `gen_list_remove_front`. The other `size_t` counters are unbounded
    (see "Left out").
  - The square root is a parameter `sqrt` with the property `IsSqrt`.

## Model

| member | source | states |
|---|---|---|
| SizeT.WrapDec | scene.c:87 | the decrement of a `size_t` stays in range and is undone by an increment modulo 2^64, so 0 goes to the maximum |
| SizeT.WrapInc | scene.c:79 | the increment of a `size_t` is taken modulo 2^64 and stays in range |
| Bodies.Body.constructor | body.c:25-42 | a new body has the given shape, mass and centroid, no coins, zero velocity, angle, force and impulse, and is not removed |
| Bodies.Body.GetShape | body.c:72-82 | the copy has exactly the body's vertices, in order |
| Bodies.MoveTo | body.c:100-106 | every vertex moves by the same offset as the centroid, so all vertex-to-vertex vectors, and hence the polygon's shape, are preserved |
| Bodies.SetCentroidRec | body.c:100-106 | the new centroid is `x`, each vertex is translated by `x - centroid`, and nothing else changes |
| Bodies.SetCentroidRoundTrip | body.c:100-106 | moving a body to `x` and back to its old centroid restores it exactly |
| Bodies.Body.SetCentroid | body.c:100-106 | the body's new state is `SetCentroidRec` of its old state |
| Bodies.Body.SetCoins | body.c:115-118 | the coin count goes up by one and nothing else changes |
| Bodies.Body.SetVelocity | body.c:120 | only the velocity changes, to `v` |
| Bodies.Body.AddForce | body.c:127-130 | the accumulated force grows by `f` and nothing else changes |
| Bodies.Body.AddImpulse | body.c:132-135 | the accumulated impulse grows by `j` and nothing else changes |
| Bodies.TickRec | body.c:137-149 | the new velocity is the old one plus dt·F/m plus I/m, and the centroid moves by dt times the mean of the old and new velocity; the shape moves rigidly with it; force and impulse are cleared; with no force and impulse the body coasts; an infinite mass never changes velocity |
| Bodies.Body.Tick | body.c:137-149 | the body's new state is `TickRec` of its old state |
| Bodies.Body.Remove | body.c:151-155 | the body is marked removed and nothing else changes |
| Bodies.RemoveIdempotent | body.c:151-155 | removing an already removed body changes nothing |
| Collisions.ProjBounds | collision.c:57-86 | the projection minimum and maximum bound every vertex's projection and are attained by a vertex |
| Collisions.SeparatedMeansApart | collision.c:88-96 | the early-exit test succeeds on an axis exactly when every vertex of one polygon projects strictly below every vertex of the other |
| Collisions.ArgMin | collision.c:104-118 | the chosen axis index has the least overlap, and it is the first index with that overlap (the strict `<` keeps the earliest) |
| Collisions.Detect | collision.c:26-130 | the polygons collide exactly when no candidate edge normal separates them, and the reported axis is then the first candidate of least overlap |
| Collisions.EdgeNormalPerpendicular | collision.c:34-55 | the candidate axis of edge `i` is perpendicular to that edge (from vertex `i` to the next, wrapping at the end) and has the edge's length |
| Collisions.OverlapMeet | collision.c:100-118 | on an axis that does not separate the polygons the overlap is not negative; it is never less than the length of the intersection of the two projection intervals, and equals it unless one interval strictly contains the other |
| Collisions.Project | collision.c:57-86 | the projection loop returns the true minimum and maximum of the vertex projections |
| Collisions.TestAxis | collision.c:34-118 | one iteration computes the edge normal of candidate `i`, decides separation on it correctly, and otherwise yields that candidate's overlap |
| Collisions.FindCollision | collision.c:26-130 | the loop over all candidate axes returns exactly `Detect` |
| Collisions.CollisionChecker | collision.c:8-13 | the polygons are reported colliding exactly when no candidate axis separates them |
| Collisions.CollisionVec | collision.c:15-20 | the returned axis is the axis of least overlap that `Detect` chooses |
| Forces.CollisionAux.constructor | forces.c:37-46 | a new collision state has the handler and the two bodies and has not collided yet |
| Forces.Force.constructor | forces.c:76-85 | a registered force keeps its callback and the list of bodies it is bound to |
| Forces.CutoffOnSquares | forces.c:121-123 | the test `sqrt(d²) > 5` is the same as `d² > 25` |
| Forces.InverseSquareMagnitude | forces.c:113-133 | the gravitational force has magnitude G·m1·m2/d² |
| Forces.InverseSquareParallel | forces.c:113-133 | the gravitational force lies along the line through the two centroids |
| Forces.InverseSquareAttracts | forces.c:113-133 | for G > 0 the force on body 2 points towards body 1 |
| Forces.InverseSquare | forces.c:113-133 | only the forces of the two bodies change; when the bodies are within 5 units of each other, or either mass is infinite, nothing changes; otherwise they receive equal and opposite pulls |
| Forces.ApplyInverseSquare | forces.c:113-133 | the callback changes the bodies exactly as `InverseSquare` says; the vortex callback at forces.c:157-177 is the same code and uses the same step |
| Forces.SpringStep | forces.c:144-155 | body 1 receives k times the displacement to body 2 and body 2 receives the opposite force; nothing else changes |
| Forces.ApplySpringForce | forces.c:144-155 | the callback changes the bodies exactly as `SpringStep` says |
| Forces.DragStep | forces.c:211-218 | the body receives the force −γ·v and no other body changes |
| Forces.ApplyDragForce | forces.c:211-218 | the callback changes the body exactly as `DragStep` says |
| Forces.ReducedMass | forces.c:236-244 | the reduced mass is infinite exactly when both masses are |
| Forces.ReducedMassLaw | forces.c:236-244 | the reduced mass is m1·m2/(m1+m2) for finite masses and the finite mass when the other is infinite, and in every case its inverse is 1/m1 + 1/m2 |
| Forces.BounceImpulse | forces.c:236-249 | two infinite masses or a zero-length axis give no impulse |
| Forces.BounceImpulseAlongAxis | forces.c:245-249 | unless both masses are infinite or the axis has zero length, the impulse's component along the axis is k·(1+e) times the relative normal velocity (v2 − v1)·n, k the reduced mass |
| Forces.BounceImpulseDirection | forces.c:245-249 | the impulse is parallel to the collision axis, and it is zero when the bodies have no relative velocity along the axis |
| Forces.Exchange | forces.c:250-251 | body 1 gains impulse `j` and body 2 gains `−j`; when the two are the same body its impulse is unchanged |
| Forces.BounceRestitutionOnRecords | forces.c:233-252 | after the bounce impulse, the relative normal velocity is −e times what it was (coefficient of restitution) |
| Forces.BounceRestitution | forces.c:233-252 | the same restitution law, stated on the world after `apply_physics_collision` and one tick |
| Forces.BounceConservesMomentum | forces.c:233-252 | with finite masses the bounce leaves the total momentum m1·v1 + m2·v2 unchanged |
| Forces.Bounce | forces.c:250-251 | only the impulses of the two bodies change: body 1 gains the bounce impulse and body 2 its opposite; no other body and no other field changes |
| Forces.ImpulseBetween | forces.c:236-249 | the computed impulse is the bounce impulse of the two bodies' current states |
| Forces.ApplyPhysicsCollision | forces.c:233-252 | the handler changes the bodies exactly as the bounce step says |
| Forces.RemoveBoth | forces.c:220-223 | both bodies are marked removed and nothing else changes |
| Forces.ApplyDestructiveCollision | forces.c:220-223 | the handler changes the bodies exactly as `RemoveBoth` says |
| Forces.ApplyEndGame | forces.c:296-299 | the end-game handler removes both bodies, like the destructive one |
| Forces.DeleteBounceStep | forces.c:262-265 | the bounce exchange happens and then body 1 alone is marked removed |
| Forces.ApplyDeleteBounce | forces.c:262-265 | the handler changes the bodies exactly as `DeleteBounceStep` says, with the impulse computed before any change |
| Forces.CollectCoin | forces.c:275-278 | the player gains one coin and the coin is removed; nothing else changes |
| Forces.ApplyCoinCollecting | forces.c:275-278 | the handler changes the bodies exactly as `CollectCoin` says |
| Forces.SlowAndRemove | forces.c:285-288 | body 1's velocity drops to a quarter and body 2 is removed |
| Forces.ApplyCollisionVelocity | forces.c:285-288 | the handler changes the bodies exactly as `SlowAndRemove` says |
| Forces.HandlerStep | forces.c:220-299 | no handler touches a third body, and no handler moves, reshapes or reweighs a body |
| Forces.ApplyHandler | forces.c:327 | the call through the handler pointer changes the bodies exactly as `HandlerStep` says |
| Forces.CollisionStep | forces.c:320-332 | the handler fires only on the rising edge (not collided before, colliding now), with the axis of least overlap; afterwards the flag records whether the bodies collide |
| Forces.CollisionStepIdempotent | forces.c:320-332 | running the collision callback a second time, with nothing in between, changes nothing: a continuing contact fires its handler only once |
| Forces.CollidesNow | forces.c:325-326 | the collision test returns `Detect`'s verdict on the current shapes and changes no body and no flag |
| Forces.AxisNow | forces.c:322-323 | the axis is `Detect`'s axis on the current shapes and no body or flag changes |
| Forces.FireIfColliding | forces.c:325-328 | the handler runs exactly when the bodies collide; flags are untouched |
| Forces.FireOnRisingEdge | forces.c:324-329 | the bodies end as `CollisionStep` says |
| Forces.RecordCollision | forces.c:330-331 | only this collision state's flag changes, to the current collision verdict |
| Forces.ApplyCollision | forces.c:320-332 | the collision callback changes bodies and flags exactly as `CollisionStep` says |
| Forces.EntryStep | forces.c:113-218 | running any callback keeps the set of bodies and flags, and only a collision callback changes a flag |
| Forces.ApplyForceEntry | forces.c:113-218 | each force callback (gravity, spring, vortex, drag) changes the bodies exactly as `EntryStep` says |
| Forces.ApplyEntry | scene.c:71 | the call through the force pointer changes the world exactly as `EntryStep` says |
| Scenes.Keep | scene.c:79-100 | the prune never lengthens a list and no dropped element survives it |
| Scenes.KeepSnoc | scene.c:79-100 | filtering distributes over appending one element |
| Scenes.SweepStep | scene.c:79-100 | one step of a pruning loop either keeps the current element or deletes it, leaving the rest unvisited |
| Scenes.SweepAt | scene.c:84-88 | one iteration of a pruning loop, including the wrap-around `f--` then `f++` at index 0, extends the filtered prefix by one element |
| Scenes.KeepMembers | scene.c:79-100 | an element survives the prune exactly when it was in the list and was not dropped |
| Scenes.KeptIndices | scene.c:79-100 | the survivors are a subsequence of the list, in their original order, and every kept element is kept |
| Scenes.UnboundNeverDoomed | scene.c:60-64 | a force registered without bodies is never pruned |
| Scenes.DoomedOnSnap | scene.c:79-91 | a force is pruned exactly when one of its bodies is marked removed |
| Scenes.RunForces | scene.c:69-72 | running the callbacks keeps the set of bodies and collision states |
| Scenes.RunForcesSnoc | scene.c:69-72 | the callbacks run in registration order, the last after all the others |
| Scenes.RunForcesNext | scene.c:69-72 | iteration `d` of the force loop applies callback `d` to the world left by the first `d` |
| Scenes.RunForcesKeepsFlags | scene.c:69-72 | without collision callbacks no collision flag changes |
| Scenes.TickAll | scene.c:74-77 | ticking all bodies keeps the set of bodies |
| Scenes.TickAllNext | scene.c:74-77 | ticking the first i + 1 bodies is ticking the first i and then body i |
| Scenes.TickAllOnce | scene.c:74-77 | every listed body is ticked exactly once, and an unlisted body is untouched |
| Scenes.TickAllKeepsRemoved | scene.c:74-77 | ticking does not change any body's removed mark |
| Scenes.ReachesCovered | scene.c:69-72 | every registered callback only reaches bodies and collision states in the world |
| Scenes.HasRemovedBody | scene.c:82-90 | the inner loop finds a removed body exactly when one of the force's bodies is removed |
| Scenes.IsDoomed | scene.c:82-90 | the inner loop decides exactly whether the force is pruned |
| Scenes.PruneForceAt | scene.c:80-90 | one iteration of the force prune extends the filtered prefix by one element |
| Scenes.Scene.constructor | scene.c:21-27 | a new scene has no bodies and no forces |
| Scenes.Scene.BodyCount | scene.c:36 | the count is the number of bodies |
| Scenes.Scene.GetBody | scene.c:38-40 | returns the body at the index |
| Scenes.Scene.AddBody | scene.c:44-46 | appends the body and leaves the forces unchanged |
| Scenes.Scene.RemoveBody | scene.c:48-51 | marks the indexed body removed and changes nothing else about it |
| Scenes.Scene.AddBodiesForceCreator | scene.c:53-58 | appends a new force with the callback and bound bodies; the bodies are unchanged |
| Scenes.Scene.AddForceCreator | scene.c:60-64 | appends a new force bound to no bodies |
| Scenes.Scene.ApplyForceAt | scene.c:69-72 | one iteration of the force loop extends the run of callbacks by the next force |
| Scenes.ReachesLive | scene.c:79-100 | the prunes keep only forces and bodies the lists already held, so every body and collision state they reach is still one the scene was given |
| Scenes.LiveAreClean | scene.c:79-100 | after the prunes no listed body is marked removed and no listed force is bound to a removed body |
| Scenes.Scene.RunForceList | scene.c:69-72 | the force loop over a list of callbacks whose bodies and collision states are in the world leaves the world as `RunForces` says |
| Scenes.Scene.ApplyForces | scene.c:69-72 | the force loop leaves the world as `RunForces` says |
| Scenes.Scene.TickAt | scene.c:74-77 | one iteration of the tick loop extends the ticks by the next listed body |
| Scenes.Scene.TickBodies | scene.c:74-77 | the tick loop leaves the bodies as `TickAll` says |
| Scenes.Scene.PruneForces | scene.c:79-91 | the force list becomes exactly the forces none of whose bodies is removed, in their order |
| Scenes.Scene.PruneBodies | scene.c:92-100 | the body list becomes exactly the bodies not removed, in their order |
| Scenes.Scene.Integrate | scene.c:69-77 | after the first two phases, the world is `TickAll` of `RunForces` |
| Scenes.Scene.Sweep | scene.c:79-100 | the two prunes change no body or flag and filter both lists |
| Scenes.Scene.Tick | scene.c:66-101 | one scene tick runs every callback in order, ticks every body once, then drops the removed bodies and every force bound to a removed body, in order; afterwards the lists still reach only the given bodies and collision states, no listed body is removed and no listed force is bound to a removed body |
| ForceCreators.BoundList | forces.c:105-107 | the body list a creator registers holds exactly the bodies its callback touches |
| ForceCreators.BoundDoomed | forces.c:312-317 | such a force is pruned exactly when a body its callback touches is removed |
| ForceCreators.ReachesSnoc | scene.c:53-58 | registering such a force keeps every callback within the world |
| ForceCreators.ReachesGrow | forces.c:310-311 | adding a collision state keeps every callback within the world |
| ForceCreators.Register | scene.c:53-58 | appends the force with its bound bodies and keeps every callback within the world |
| ForceCreators.CreateNewtonianGravity | forces.c:102-111 | registers gravity bound to both bodies |
| ForceCreators.CreateSpring | forces.c:135-142 | registers a spring bound to both bodies |
| ForceCreators.CreateVortex | forces.c:179-188 | registers a vortex bound to both bodies |
| ForceCreators.CreateDrag | forces.c:203-209 | registers drag bound to its one body |
| ForceCreators.CreateCollision | forces.c:306-318 | registers a collision force with a fresh, not-yet-collided state for the two bodies and the handler |
| ForceCreators.CreateDestructiveCollision | forces.c:225-231 | registers a collision force whose handler removes both bodies |
| ForceCreators.CreatePhysicsCollision | forces.c:254-260 | registers a collision force whose handler bounces with the elasticity |
| ForceCreators.CreateDeleteBounce | forces.c:267-273 | registers a bounce that also removes the first body |
| ForceCreators.CreateCoinCollecting | forces.c:280-283 | registers coin collection for the player and the coin |
| ForceCreators.CreateCollisionVelocity | forces.c:290-294 | registers the slow-down handler |
| ForceCreators.CreateEndGame | forces.c:301-304 | registers the end-game handler |
| GenLists.AddBackAsWrittenInBounds | gen_list.c:21-53 | as written, adding writes inside the buffer exactly when the capacity is not 0 |
| GenLists.AddBackAfterEmptyInitOverflows | gen_list.c:13-53 | as written, an add to a list created with capacity 0 writes past its buffer |
| GenLists.Grown | gen_list.c:21-29 | the grown capacity is larger than the old one and double it when the old one is positive |
| GenLists.RemoveFrontAsWrittenSize | gen_list.c:74-85 | as written, removing the front decrements the size by one exactly when there were two or more elements; a single element leaves the maximum `size_t` |
| GenLists.GenList.constructor | gen_list.c:13-19 | a new list is empty with the requested capacity |
| GenLists.GenList.Resize | gen_list.c:21-29 | the buffer grows to `Grown(capacity)` and the elements are unchanged |
| GenLists.GenList.Size | gen_list.c:39 | the size is the number of elements |
| GenLists.GenList.Get | gen_list.c:41-44 | returns the element at the index |
| GenLists.GenList.AddBack | gen_list.c:46-53 | the value is appended; the buffer grows only when full |
| GenLists.GenList.ShiftUp | gen_list.c:60-62 | every element moves one slot up |
| GenLists.GenList.AddFront | gen_list.c:55-65 | the value is prepended; the buffer grows only when full |
| GenLists.GenList.RemoveBack | gen_list.c:67-72 | returns the last element and drops it |
| GenLists.GenList.ShiftDown | gen_list.c:80-82 | every element but the first moves one slot down |
| GenLists.GenList.RemoveFrontAsWritten | gen_list.c:74-85 | as written, returns the first slot and leaves the size given by `RemoveFrontSizeAsWritten`; with two or more elements the rest shift down one slot, exactly as `RemoveFront` does |
| GenLists.GenList.RemoveFront | gen_list.c:74-85 | returns the first element and the rest move to the front |

## Left out

- sdl_wrapper.c and stalker.c (rendering, input, the game loop) are not part of this model. Neither are list.c, vector.c and polygon.c: lists are `seq`, vectors are the `Vectors` datatype, and `polygon_centroid` is replaced by a given centroid in `Bodies.Body.constructor`.
- Floating point: reals stand for `double` and `float`, with no rounding, NaN or overflow. `INFINITY` appears only as the `Infinite` mass.
- The square root is a parameter `sqrt` that satisfies `IsSqrt`. The gravity cutoff is modelled on the squared distance, which `Forces.CutoffOnSquares` shows is the same test.
- Collisions.Detect: the source divides the reflecting axis by its length, but the model keeps the raw edge normal. The bounce impulse divides by the squared length of the axis instead, which gives the same impulse. A zero-length edge gives a zero axis and a zero impulse.
- Collisions.Detect / Collisions.CollisionVec: with no collision the source leaves the axis unset (collision.c:29, 89-96) and `collision_vec` returns whatever the memory held. The model returns the zero vector. `apply_collision` passes that axis to a handler only when the bodies collide, so the value is never used.
- Bodies.Shape has at least three vertices, the polygons a body is built from, so Collisions.FindCollision gets non-empty shapes. The source's outcome with one empty shape is "no collision". With both empty, its loop never runs and it reports `collided = true` with an uninitialised axis (collision.c:123-125).
- Forces.InverseSquare: with an infinite mass the model applies no pull. The source multiplies by `INFINITY` and adds infinite or NaN forces.
- Forces.ReducedMass: with both masses infinite the model gives a zero impulse. The source computes `INFINITY` times a dot product, which is NaN or infinite.
- Memory management is not modelled: `malloc`, the `*_free` functions, the `freer` callbacks, `gen_list_free`, and freeing pruned bodies and forces.
- `body_set_rotation` (needs `polygon_rotate`), the color, texture and info getters and setters, and `body_init_with_info` are not modelled. The angle field is carried but never changed.
- `force_init` (forces.c:66-74, a force with a NULL body list) is not modelled, because nothing in the scene calls it. `scene_add_force_creator` passes a fresh empty list to `scene_add_bodies_force_creator` (scene.c:60-63), and the model does the same.
- GenLists.GenList.AddBack: the assertion that the value is not NULL is not modelled, because elements are values of a type without a null.
- Bodies.Body.SetCoins: the `size_t` coin count is unbounded. Its wrap-around to 0 after `SIZE_MAX` coins is not modelled.
- GenLists.GenList.AddBack / GenLists.GenList.AddFront: `size += 1` is unbounded. The `size_t` overflow of the size is not modelled.
- GenLists.Grown: the `size_t` overflow of `capacity * 2` is not modelled.
- The `void *aux` of a collision handler is folded into the `Handler` datatype (the elasticity of a bounce). The `axis` field of `collision_aux_t` is never read in the source and is not modelled.

## Findings

| source | as written | input that shows it | evidently intended | confidence | as-written member | corrected member |
|---|---|---|---|---|---|---|
| gen_list.c:21-29 | `gen_list_resize` doubles the capacity, so a capacity of 0 stays 0 and `gen_list_add_back`/`gen_list_add_front` then write slot 0 of an empty buffer | `gen_list_init(0)` followed by one `gen_list_add_back` | growing gives at least one free slot | not executed | GenLists.AddBackAfterEmptyInitOverflows | GenLists.GenList.AddBack |
| gen_list.c:74-85 | for a list of one element `gen_list_remove_front` calls `gen_list_remove_back` (size becomes 0) and then decrements `size` again, wrapping it to the maximum `size_t` | a list holding one element, then `gen_list_remove_front` | the size drops by one, to 0 | not executed | GenLists.GenList.RemoveFrontAsWritten | GenLists.GenList.RemoveFront |
