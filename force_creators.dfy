/** The `create_*` functions of forces.c: each builds the payload of one
    force callback and registers it in the scene, bound to the bodies it
    acts on. A registration keeps the scene's invariant `Reaches` (every
    registered force points into the heap the scene owns), and the bound
    list of each created force is its generator's own bodies, so the force
    sweep prunes it exactly when one of those bodies is removed. */
module ForceCreators {
  import opened Bodies
  import opened Forces
  import opened Scenes

  /** The body list the creators bind: the bodies of the generator, in the
      order of the creator's arguments. */
  function BoundList(g: Generator): (bs: seq<Body>)
    ensures forall b :: b in bs ==> b in GeneratorBodies(g)
    ensures forall b :: b in GeneratorBodies(g) ==> b in bs
    ensures 1 <= |bs| <= 2
  {
    match g
    case NewtonianGravity(_, b1, b2) => [b1, b2]
    case Vortex(_, b1, b2) => [b1, b2]
    case Spring(_, b1, b2) => [b1, b2]
    case Drag(_, b) => [b]
    case CollisionForce(aux) => [aux.body1, aux.body2]
  }

  /** A force bound to its generator's bodies is pruned exactly when one of
      the bodies it acts on is marked removed. */
  lemma BoundDoomed(e: Force, m: map<Body, BodyRec>)
    requires e.bodies == BoundList(e.generator)
    requires GeneratorBodies(e.generator) <= m.Keys
    ensures Doomed(e, m) <==> exists b :: b in GeneratorBodies(e.generator) && m[b].removed
  {
    var bs := e.bodies;
    if Doomed(e, m) {
      var i :| 0 <= i < |bs| && bs[i] in m && m[bs[i]].removed;
      assert bs[i] in GeneratorBodies(e.generator);
    }
    if exists b :: b in GeneratorBodies(e.generator) && m[b].removed {
      var b :| b in GeneratorBodies(e.generator) && m[b].removed;
      assert b in bs;
      var i :| 0 <= i < |bs| && bs[i] == b;
      assert 0 <= i < |bs| && bs[i] in m && m[bs[i]].removed;
    }
  }

  /** Appending a force whose bodies and collision state are in `S` and `A`
      keeps `Reaches`. */
  lemma ReachesSnoc(fs: seq<Force>, bs: seq<Body>, S: set<Body>, A: set<CollisionAux>, e: Force)
    requires Reaches(fs, bs, S, A)
    requires GeneratorBodies(e.generator) <= S && (e.generator.CollisionForce? ==> e.generator.aux in A)
    requires e.bodies == BoundList(e.generator)
    ensures Reaches(fs + [e], bs, S, A)
  {
    assert BoundIn(e, S);
    assert forall i :: 0 <= i < |fs| ==> (fs + [e])[i] == fs[i];
  }

  /** `Reaches` survives adding a collision state to `A`. */
  lemma ReachesGrow(fs: seq<Force>, bs: seq<Body>, S: set<Body>, A: set<CollisionAux>, aux: CollisionAux)
    requires Reaches(fs, bs, S, A)
    ensures Reaches(fs, bs, S, A + {aux})
  {
  }

  /** Registers a force callback bound to its generator's bodies, as every
      creator below does through `scene_add_bodies_force_creator`. */
  method Register(scene: Scene, g: Generator, ghost S: set<Body>, ghost A: set<CollisionAux>) returns (force: Force)
    requires Reaches(scene.forces, scene.bodies, S, A)
    requires GeneratorBodies(g) <= S && (g.CollisionForce? ==> g.aux in A)
    modifies scene
    ensures fresh(force) && force.generator == g && force.bodies == BoundList(g)
    ensures scene.forces == old(scene.forces) + [force] && scene.bodies == old(scene.bodies)
    ensures Reaches(scene.forces, scene.bodies, S, A)
  {
    force := scene.AddBodiesForceCreator(g, BoundList(g));
    ReachesSnoc(old(scene.forces), scene.bodies, S, A, force);
  }

  /** `create_newtonian_gravity`. */
  method CreateNewtonianGravity(scene: Scene, g: real, body1: Body, body2: Body,
                                ghost S: set<Body>, ghost A: set<CollisionAux>) returns (force: Force)
    requires Reaches(scene.forces, scene.bodies, S, A) && body1 in S && body2 in S
    modifies scene
    ensures fresh(force) && force.generator == NewtonianGravity(g, body1, body2) && force.bodies == [body1, body2]
    ensures scene.forces == old(scene.forces) + [force] && scene.bodies == old(scene.bodies)
    ensures Reaches(scene.forces, scene.bodies, S, A)
  {
    force := Register(scene, NewtonianGravity(g, body1, body2), S, A);
  }

  /** `create_spring`. */
  method CreateSpring(scene: Scene, k: real, body1: Body, body2: Body,
                      ghost S: set<Body>, ghost A: set<CollisionAux>) returns (force: Force)
    requires Reaches(scene.forces, scene.bodies, S, A) && body1 in S && body2 in S
    modifies scene
    ensures fresh(force) && force.generator == Spring(k, body1, body2) && force.bodies == [body1, body2]
    ensures scene.forces == old(scene.forces) + [force] && scene.bodies == old(scene.bodies)
    ensures Reaches(scene.forces, scene.bodies, S, A)
  {
    force := Register(scene, Spring(k, body1, body2), S, A);
  }

  /** `create_vortex`. */
  method CreateVortex(scene: Scene, g: real, body1: Body, body2: Body,
                      ghost S: set<Body>, ghost A: set<CollisionAux>) returns (force: Force)
    requires Reaches(scene.forces, scene.bodies, S, A) && body1 in S && body2 in S
    modifies scene
    ensures fresh(force) && force.generator == Vortex(g, body1, body2) && force.bodies == [body1, body2]
    ensures scene.forces == old(scene.forces) + [force] && scene.bodies == old(scene.bodies)
    ensures Reaches(scene.forces, scene.bodies, S, A)
  {
    force := Register(scene, Vortex(g, body1, body2), S, A);
  }

  /** `create_drag`. */
  method CreateDrag(scene: Scene, gamma: real, body: Body,
                    ghost S: set<Body>, ghost A: set<CollisionAux>) returns (force: Force)
    requires Reaches(scene.forces, scene.bodies, S, A) && body in S
    modifies scene
    ensures fresh(force) && force.generator == Drag(gamma, body) && force.bodies == [body]
    ensures scene.forces == old(scene.forces) + [force] && scene.bodies == old(scene.bodies)
    ensures Reaches(scene.forces, scene.bodies, S, A)
  {
    force := Register(scene, Drag(gamma, body), S, A);
  }

  /** `create_collision`: a fresh collision state, not yet collided, bound
      to exactly `[body1, body2]`; `A` grows by the new state. */
  method CreateCollision(scene: Scene, body1: Body, body2: Body, handler: Handler,
                         ghost S: set<Body>, ghost A: set<CollisionAux>) returns (force: Force, aux: CollisionAux)
    requires Reaches(scene.forces, scene.bodies, S, A) && body1 in S && body2 in S
    modifies scene
    ensures fresh(aux) && !aux.alreadyCollided
    ensures aux.handler == handler && aux.body1 == body1 && aux.body2 == body2
    ensures fresh(force) && force.generator == CollisionForce(aux) && force.bodies == [body1, body2]
    ensures scene.forces == old(scene.forces) + [force] && scene.bodies == old(scene.bodies)
    ensures Reaches(scene.forces, scene.bodies, S, A + {aux})
  {
    aux := new CollisionAux(handler, body1, body2);
    aux.alreadyCollided := false;
    ReachesGrow(scene.forces, scene.bodies, S, A, aux);
    force := Register(scene, CollisionForce(aux), S, A + {aux});
  }

  /** `create_destructive_collision`. */
  method CreateDestructiveCollision(scene: Scene, body1: Body, body2: Body,
                                    ghost S: set<Body>, ghost A: set<CollisionAux>) returns (force: Force, aux: CollisionAux)
    requires Reaches(scene.forces, scene.bodies, S, A) && body1 in S && body2 in S
    modifies scene
    ensures fresh(aux) && !aux.alreadyCollided
    ensures aux.handler == Destructive && aux.body1 == body1 && aux.body2 == body2
    ensures fresh(force) && force.generator == CollisionForce(aux) && force.bodies == [body1, body2]
    ensures scene.forces == old(scene.forces) + [force] && scene.bodies == old(scene.bodies)
    ensures Reaches(scene.forces, scene.bodies, S, A + {aux})
  {
    force, aux := CreateCollision(scene, body1, body2, Destructive, S, A);
  }

  /** `create_physics_collision`. */
  method CreatePhysicsCollision(scene: Scene, elasticity: real, body1: Body, body2: Body,
                                ghost S: set<Body>, ghost A: set<CollisionAux>) returns (force: Force, aux: CollisionAux)
    requires Reaches(scene.forces, scene.bodies, S, A) && body1 in S && body2 in S
    modifies scene
    ensures fresh(aux) && !aux.alreadyCollided
    ensures aux.handler == PhysicsBounce(elasticity) && aux.body1 == body1 && aux.body2 == body2
    ensures fresh(force) && force.generator == CollisionForce(aux) && force.bodies == [body1, body2]
    ensures scene.forces == old(scene.forces) + [force] && scene.bodies == old(scene.bodies)
    ensures Reaches(scene.forces, scene.bodies, S, A + {aux})
  {
    force, aux := CreateCollision(scene, body1, body2, PhysicsBounce(elasticity), S, A);
  }

  /** `create_delete_bounce`: the body to delete is body1, the one that
      bounces is body2. */
  method CreateDeleteBounce(scene: Scene, elasticity: real, delete: Body, bounce: Body,
                            ghost S: set<Body>, ghost A: set<CollisionAux>) returns (force: Force, aux: CollisionAux)
    requires Reaches(scene.forces, scene.bodies, S, A) && delete in S && bounce in S
    modifies scene
    ensures fresh(aux) && !aux.alreadyCollided
    ensures aux.handler == DeleteBounce(elasticity) && aux.body1 == delete && aux.body2 == bounce
    ensures fresh(force) && force.generator == CollisionForce(aux) && force.bodies == [delete, bounce]
    ensures scene.forces == old(scene.forces) + [force] && scene.bodies == old(scene.bodies)
    ensures Reaches(scene.forces, scene.bodies, S, A + {aux})
  {
    force, aux := CreateCollision(scene, delete, bounce, DeleteBounce(elasticity), S, A);
  }

  /** `create_coin_collecting`: the player is body1, the coin body2. */
  method CreateCoinCollecting(scene: Scene, player: Body, coin: Body,
                              ghost S: set<Body>, ghost A: set<CollisionAux>) returns (force: Force, aux: CollisionAux)
    requires Reaches(scene.forces, scene.bodies, S, A) && player in S && coin in S
    modifies scene
    ensures fresh(aux) && !aux.alreadyCollided
    ensures aux.handler == CoinCollecting && aux.body1 == player && aux.body2 == coin
    ensures fresh(force) && force.generator == CollisionForce(aux) && force.bodies == [player, coin]
    ensures scene.forces == old(scene.forces) + [force] && scene.bodies == old(scene.bodies)
    ensures Reaches(scene.forces, scene.bodies, S, A + {aux})
  {
    force, aux := CreateCollision(scene, player, coin, CoinCollecting, S, A);
  }

  /** `create_collision_velocity`. */
  method CreateCollisionVelocity(scene: Scene, body1: Body, body2: Body,
                                 ghost S: set<Body>, ghost A: set<CollisionAux>) returns (force: Force, aux: CollisionAux)
    requires Reaches(scene.forces, scene.bodies, S, A) && body1 in S && body2 in S
    modifies scene
    ensures fresh(aux) && !aux.alreadyCollided
    ensures aux.handler == CollisionVelocity && aux.body1 == body1 && aux.body2 == body2
    ensures fresh(force) && force.generator == CollisionForce(aux) && force.bodies == [body1, body2]
    ensures scene.forces == old(scene.forces) + [force] && scene.bodies == old(scene.bodies)
    ensures Reaches(scene.forces, scene.bodies, S, A + {aux})
  {
    force, aux := CreateCollision(scene, body1, body2, CollisionVelocity, S, A);
  }

  /** `create_end_game`. */
  method CreateEndGame(scene: Scene, body1: Body, body2: Body,
                       ghost S: set<Body>, ghost A: set<CollisionAux>) returns (force: Force, aux: CollisionAux)
    requires Reaches(scene.forces, scene.bodies, S, A) && body1 in S && body2 in S
    modifies scene
    ensures fresh(aux) && !aux.alreadyCollided
    ensures aux.handler == EndGame && aux.body1 == body1 && aux.body2 == body2
    ensures fresh(force) && force.generator == CollisionForce(aux) && force.bodies == [body1, body2]
    ensures scene.forces == old(scene.forces) + [force] && scene.bodies == old(scene.bodies)
    ensures Reaches(scene.forces, scene.bodies, S, A + {aux})
  {
    force, aux := CreateCollision(scene, body1, body2, EndGame, S, A);
  }
}
