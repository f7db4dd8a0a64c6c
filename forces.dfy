/** The force library (forces.c): pairwise forces, the collision handlers and
    the edge-triggered collision state machine.

    The source registers each force as a `void *` payload with a function
    pointer. Here a `Generator` names the kind of force and carries its
    payload, a `Force` adds the bodies it is bound to, and the collision
    state (`collision_aux_t`) is the class `CollisionAux`, whose
    `alreadyCollided` field is updated in place.

    Every callback has a pure step on a `World`: the records of the bodies
    (`map<Body, BodyRec>`) and the collision flags. The methods that mutate
    the heap are proved to change it exactly as their step says. */
module Forces {
  import opened Vectors
  import opened Bodies
  import opened Collisions

  /** The collision handlers of the source, with their payloads. */
  datatype Handler =
    | Destructive
    | PhysicsBounce(elasticity: real)
    | DeleteBounce(elasticity: real)
    | CoinCollecting
    | CollisionVelocity
    | EndGame

  /** `collision_aux_t`: the handler, its two bodies, and whether the bodies
      were colliding at the previous application. */
  class CollisionAux {
    var alreadyCollided: bool
    const handler: Handler
    const body1: Body
    const body2: Body

    constructor (handler: Handler, body1: Body, body2: Body)
      ensures !alreadyCollided
      ensures this.handler == handler && this.body1 == body1 && this.body2 == body2
    {
      this.handler := handler;
      this.body1 := body1;
      this.body2 := body2;
      alreadyCollided := false;
    }
  }

  /** The force callbacks and their payloads. */
  datatype Generator =
    | NewtonianGravity(g: real, body1: Body, body2: Body)
    | Vortex(g: real, body1: Body, body2: Body)
    | Spring(k: real, body1: Body, body2: Body)
    | Drag(gamma: real, body: Body)
    | CollisionForce(aux: CollisionAux)

  /** `force_t`: a callback with its payload and the bodies it is bound to.
      The scene holds pointers to these records, so a force is an object. */
  class Force {
    const generator: Generator
    const bodies: seq<Body>

    /** `force_init_with_bodies`. */
    constructor (generator: Generator, bodies: seq<Body>)
      ensures this.generator == generator && this.bodies == bodies
    {
      this.generator := generator;
      this.bodies := bodies;
    }
  }

  /** The bodies a generator's callback reads and writes. */
  function GeneratorBodies(g: Generator): set<Body>
  {
    match g
    case NewtonianGravity(_, b1, b2) => {b1, b2}
    case Vortex(_, b1, b2) => {b1, b2}
    case Spring(_, b1, b2) => {b1, b2}
    case Drag(_, b) => {b}
    case CollisionForce(aux) => {aux.body1, aux.body2}
  }

  datatype World = World(bodies: map<Body, BodyRec>, flags: map<CollisionAux, bool>)

  ghost function Flags(A: set<CollisionAux>): (m: map<CollisionAux, bool>)
    reads A
    ensures m.Keys == A
  {
    map a | a in A :: a.alreadyCollided
  }

  /** A map that agrees with every flag of `A` is `Flags(A)`. */
  lemma FlagsAgree(A: set<CollisionAux>, flags: map<CollisionAux, bool>)
    requires flags.Keys == A
    requires forall a :: a in A ==> flags[a] == a.alreadyCollided
    ensures Flags(A) == flags
  {
  }

  ghost function WorldOf(S: set<Body>, A: set<CollisionAux>): World
    reads S, A
  {
    World(Snap(S), Flags(A))
  }

  /** The world holds everything the generator's callback touches. */
  predicate Covers(w: World, g: Generator)
  {
    GeneratorBodies(g) <= w.bodies.Keys && (g.CollisionForce? ==> g.aux in w.flags)
  }

  function AddForceAt(m: map<Body, BodyRec>, b: Body, f: Vec): map<Body, BodyRec>
    requires b in m
  {
    m[b := m[b].(force := Add(m[b].force, f))]
  }

  function AddImpulseAt(m: map<Body, BodyRec>, b: Body, j: Vec): map<Body, BodyRec>
    requires b in m
  {
    m[b := m[b].(impulse := Add(m[b].impulse, j))]
  }

  function RemoveAt(m: map<Body, BodyRec>, b: Body): map<Body, BodyRec>
    requires b in m
  {
    m[b := m[b].(removed := true)]
  }

  function AddCoinAt(m: map<Body, BodyRec>, b: Body): map<Body, BodyRec>
    requires b in m
  {
    m[b := m[b].(coins := m[b].coins + 1)]
  }

  function SetVelocityAt(m: map<Body, BodyRec>, b: Body, v: Vec): map<Body, BodyRec>
    requires b in m
  {
    m[b := m[b].(velocity := v)]
  }

  /** The force a step added to a body. */
  function ForceAdded(before: BodyRec, after: BodyRec): Vec
  {
    Sub(after.force, before.force)
  }

  /** The impulse a step added to a body. */
  function ImpulseAdded(before: BodyRec, after: BodyRec): Vec
  {
    Sub(after.impulse, before.impulse)
  }

  /** `body_add_force(b1, f1)` followed by `body_add_force(b2, f2)`. */
  function AddForces(m: map<Body, BodyRec>, b1: Body, f1: Vec, b2: Body, f2: Vec): (m': map<Body, BodyRec>)
    requires b1 in m && b2 in m
    ensures m'.Keys == m.Keys
    ensures forall b :: b in m ==> m'[b] == m[b].(force := m'[b].force)
    ensures forall b :: b in m && b != b1 && b != b2 ==> m'[b] == m[b]
    ensures b1 != b2 ==> ForceAdded(m[b1], m'[b1]) == f1 && ForceAdded(m[b2], m'[b2]) == f2
    ensures b1 == b2 ==> ForceAdded(m[b1], m'[b1]) == Add(f1, f2)
  {
    AddForceAt(AddForceAt(m, b1, f1), b2, f2)
  }

  /** `body_add_impulse(b1, j1)` followed by `body_add_impulse(b2, j2)`. */
  function AddImpulses(m: map<Body, BodyRec>, b1: Body, j1: Vec, b2: Body, j2: Vec): (m': map<Body, BodyRec>)
    requires b1 in m && b2 in m
    ensures m'.Keys == m.Keys
    ensures forall b :: b in m ==> m'[b] == m[b].(impulse := m'[b].impulse)
    ensures forall b :: b in m && b != b1 && b != b2 ==> m'[b] == m[b]
    ensures b1 != b2 ==> ImpulseAdded(m[b1], m'[b1]) == j1 && ImpulseAdded(m[b2], m'[b2]) == j2
    ensures b1 == b2 ==> ImpulseAdded(m[b1], m'[b1]) == Add(j1, j2)
  {
    AddImpulseAt(AddImpulseAt(m, b1, j1), b2, j2)
  }

  function DistanceSquared(r1: BodyRec, r2: BodyRec): real
  {
    Dot(Sub(r1.centroid, r2.centroid), Sub(r1.centroid, r2.centroid))
  }

  /** The source's cutoff `distance > 5` is the model's `distance^2 > 25`. */
  lemma CutoffOnSquares(sqrt: real -> real, d2: real)
    requires IsSqrt(sqrt) && 0.0 <= d2
    ensures sqrt(d2) > 5.0 <==> d2 > 25.0
  {
    var d := sqrt(d2);
    assert 0.0 <= d && d * d == d2;
    if d > 5.0 {
      assert d * d > 5.0 * d > 25.0;
    } else {
      assert d * d <= 5.0 * d <= 25.0;
    }
  }

  /** The two bodies are far enough apart and both have finite mass: the
      condition under which the inverse-square pull is applied. */
  predicate Pulls(r1: BodyRec, r2: BodyRec)
  {
    DistanceSquared(r1, r2) > 25.0 && r1.mass.Finite? && r2.mass.Finite?
  }

  /** `n / (d * d) / d`, the source's scalar factor of the pull. */
  function InverseCube(n: real, d: real): real
    requires d != 0.0
  {
    n / (d * d) / d
  }

  /** The force on body2: `G*m1*m2/d^3 * (c1 - c2)`, with `d = |c1 - c2|`. */
  function GravityPull(g: real, r1: BodyRec, r2: BodyRec, sqrt: real -> real): Vec
    requires IsSqrt(sqrt) && Pulls(r1, r2)
  {
    var diff := Sub(r1.centroid, r2.centroid);
    var distance := sqrt(Dot(diff, diff));
    var numerator := g * r1.mass.value * r2.mass.value;
    Scale(InverseCube(numerator, distance), diff)
  }

  lemma ScaleSelfDot(k: real, v: Vec)
    ensures Dot(Scale(k, v), Scale(k, v)) == k * k * Dot(v, v)
  {
  }

  lemma ScaleDot(k: real, v: Vec)
    ensures Dot(Scale(k, v), v) == k * Dot(v, v)
  {
  }

  lemma InverseCubeAlgebra(n: real, d: real, d2: real)
    requires d > 0.0 && d2 > 0.0 && d * d == d2
    ensures InverseCube(n, d) * InverseCube(n, d) * d2 == (n / d2) * (n / d2)
  {
    var x := n / d2;
    var q := x / d;
    assert InverseCube(n, d) == q;
    assert q * d == x;
    calc {
      q * q * d2;
      q * q * (d * d);
      (q * d) * (q * d);
      x * x;
    }
  }

  lemma InverseCubePositive(n: real, d: real)
    requires n > 0.0 && d > 0.0
    ensures InverseCube(n, d) > 0.0
  {
    assert d * d > 0.0;
    assert n / (d * d) > 0.0;
  }

  lemma PositiveProduct(a: real, b: real)
    requires a > 0.0 && b > 0.0
    ensures a * b > 0.0
  {
  }

  /** The pull unfolded: `grav * diff` with `grav = n / d^3`, `d * d == d2`. */
  lemma GravityPullIs(g: real, r1: BodyRec, r2: BodyRec, sqrt: real -> real)
    returns (diff: Vec, d2: real, d: real, n: real, grav: real)
    requires IsSqrt(sqrt) && Pulls(r1, r2)
    ensures diff == Sub(r1.centroid, r2.centroid) && d2 == DistanceSquared(r1, r2) && d2 == Dot(diff, diff)
    ensures d2 > 0.0 && d > 0.0 && d * d == d2
    ensures n == g * r1.mass.value * r2.mass.value && grav == InverseCube(n, d)
    ensures GravityPull(g, r1, r2, sqrt) == Scale(grav, diff)
  {
    diff := Sub(r1.centroid, r2.centroid);
    d2 := Dot(diff, diff);
    d := sqrt(d2);
    n := g * r1.mass.value * r2.mass.value;
    grav := InverseCube(n, d);
    assert 0.0 <= d && d * d == d2;
  }

  lemma ScaleParallel(k: real, v: Vec)
    ensures Scale(k, v).x * v.y == Scale(k, v).y * v.x
  {
  }

  /** With a positive numerator the pull has a positive component along
      `c1 - c2`. */
  lemma PullAttracts(n: real, d: real, d2: real, diff: Vec)
    requires n > 0.0 && d > 0.0 && d2 > 0.0 && d2 == Dot(diff, diff)
    ensures Dot(Scale(InverseCube(n, d), diff), diff) > 0.0
  {
    InverseCubePositive(n, d);
    ScaleDot(InverseCube(n, d), diff);
    PositiveProduct(InverseCube(n, d), d2);
  }

  /** Beyond the cutoff the magnitude of the pull on body2 is
      `|G*m1*m2| / d^2`. */
  lemma InverseSquareMagnitude(g: real, r1: BodyRec, r2: BodyRec, sqrt: real -> real)
    requires IsSqrt(sqrt) && Pulls(r1, r2)
    ensures var f := GravityPull(g, r1, r2, sqrt);
            var mag := g * r1.mass.value * r2.mass.value / DistanceSquared(r1, r2);
            Dot(f, f) == mag * mag
  {
    var diff, d2, d, n, grav := GravityPullIs(g, r1, r2, sqrt);
    ScaleSelfDot(grav, diff);
    InverseCubeAlgebra(n, d, d2);
  }

  /** The pull on body2 is parallel to `c1 - c2`. */
  lemma InverseSquareParallel(g: real, r1: BodyRec, r2: BodyRec, sqrt: real -> real)
    requires IsSqrt(sqrt) && Pulls(r1, r2)
    ensures var f := GravityPull(g, r1, r2, sqrt);
            var diff := Sub(r1.centroid, r2.centroid);
            f.x * diff.y == f.y * diff.x
  {
    var diff, d2, d, n, grav := GravityPullIs(g, r1, r2, sqrt);
    ScaleParallel(grav, diff);
  }

  /** With `G > 0` the pull on body2 points towards body1: it has a positive
      component along `c1 - c2`. */
  lemma InverseSquareAttracts(g: real, r1: BodyRec, r2: BodyRec, sqrt: real -> real)
    requires IsSqrt(sqrt) && Pulls(r1, r2) && g > 0.0
    ensures Dot(GravityPull(g, r1, r2, sqrt), Sub(r1.centroid, r2.centroid)) > 0.0
  {
    var diff, d2, d, n, grav := GravityPullIs(g, r1, r2, sqrt);
    PositiveProduct(g, r1.mass.value);
    PositiveProduct(g * r1.mass.value, r2.mass.value);
    PullAttracts(n, d, d2, diff);
  }

  /** The gravity and vortex callbacks (the source has two copies of one body):
      beyond distance 5 body2 gets the inverse-square pull and body1 its
      negation; otherwise nothing. The source's arithmetic on an infinite mass
      yields infinities; the model adds nothing then. */
  function InverseSquare(g: real, b1: Body, b2: Body, m: map<Body, BodyRec>, sqrt: real -> real): (m': map<Body, BodyRec>)
    requires b1 in m && b2 in m && IsSqrt(sqrt)
    ensures m'.Keys == m.Keys
    ensures forall b :: b in m ==> m'[b] == m[b].(force := m'[b].force)
    ensures forall b :: b in m && b != b1 && b != b2 ==> m'[b] == m[b]
    ensures !Pulls(m[b1], m[b2]) ==> m' == m
    ensures b1 != b2 && Pulls(m[b1], m[b2]) ==>
              ForceAdded(m[b2], m'[b2]) == GravityPull(g, m[b1], m[b2], sqrt) &&
              ForceAdded(m[b1], m'[b1]) == Neg(GravityPull(g, m[b1], m[b2], sqrt))
  {
    if Pulls(m[b1], m[b2]) then
      var force2 := GravityPull(g, m[b1], m[b2], sqrt);
      AddForces(m, b1, Neg(force2), b2, force2)
    else
      m
  }

  /** Hooke's law without damping: `k*(c2 - c1)` on body1, its negation on
      body2, so the two forces cancel. */
  function SpringStep(k: real, b1: Body, b2: Body, m: map<Body, BodyRec>): (m': map<Body, BodyRec>)
    requires b1 in m && b2 in m
    ensures m'.Keys == m.Keys
    ensures forall b :: b in m ==> m'[b] == m[b].(force := m'[b].force)
    ensures forall b :: b in m && b != b1 && b != b2 ==> m'[b] == m[b]
    ensures b1 != b2 ==> ForceAdded(m[b1], m'[b1]) == Scale(k, Sub(m[b2].centroid, m[b1].centroid))
    ensures b1 != b2 ==> Add(ForceAdded(m[b1], m'[b1]), ForceAdded(m[b2], m'[b2])) == Zero
  {
    var c1, c2 := m[b1].centroid, m[b2].centroid;
    var force1 := Scale(k, Sub(c2, c1));
    var force2 := Neg(force1);
    AddForces(m, b1, force1, b2, force2)
  }

  /** Linear drag: `-gamma * v` on the one bound body. */
  function DragStep(gamma: real, b: Body, m: map<Body, BodyRec>): (m': map<Body, BodyRec>)
    requires b in m
    ensures m'.Keys == m.Keys
    ensures forall o :: o in m && o != b ==> m'[o] == m[o]
    ensures m'[b] == m[b].(force := m'[b].force)
    ensures Add(ForceAdded(m[b], m'[b]), Scale(gamma, m[b].velocity)) == Zero
  {
    AddForceAt(m, b, Neg(Scale(gamma, m[b].velocity)))
  }

  /** `m1*m2/(m1+m2)` for two finite masses. */
  function ReducedFinite(a: real, b: real): (k: Mass)
    requires a > 0.0 && b > 0.0
    ensures k.Finite?
  {
    assert a * b > 0.0;
    assert a * b / (a + b) > 0.0;
    Finite(a * b / (a + b))
  }

  /** `imp_const`: `m1*m2/(m1+m2)`, replaced by `m2` when `m1` is infinite and
      then by `m1` when `m2` is infinite. */
  function ReducedMass(m1: Mass, m2: Mass): (k: Mass)
    ensures k.Infinite? <==> m1.Infinite? && m2.Infinite?
  {
    var product: Mass :=
      if m1.Finite? && m2.Finite? then ReducedFinite(m1.value, m2.value) else Infinite;
    var k1 := if m1.Infinite? then m2 else product;
    if m2.Infinite? then m1 else k1
  }

  /** The reduced mass of each case, and in every case its inverse is the sum
      of the inverse masses: `1/k == 1/m1 + 1/m2`, with `1/INFINITY == 0`. */
  lemma {:induction false} ReducedMassLaw(m1: Mass, m2: Mass)
    ensures m1.Finite? && m2.Finite? ==>
              ReducedMass(m1, m2) == Finite(m1.value * m2.value / (m1.value + m2.value))
    ensures m1.Infinite? && m2.Finite? ==> ReducedMass(m1, m2) == m2
    ensures m2.Infinite? ==> ReducedMass(m1, m2) == m1
    ensures InvMass(ReducedMass(m1, m2)) == InvMass(m1) + InvMass(m2)
  {
    if m1.Finite? && m2.Finite? {
      var a, b := m1.value, m2.value;
      var v := a * b / (a + b);
      assert a * b > 0.0;
      calc {
        1.0 / v;
        (a + b) / (a * b);
        b / (a * b) + a / (a * b);
        1.0 / a + 1.0 / b;
      }
    }
  }

  /** The relative velocity of body2 with respect to body1 along `axis`. */
  function NormalSpeed(r1: BodyRec, r2: BodyRec, axis: Vec): real
  {
    Dot(r2.velocity, axis) - Dot(r1.velocity, axis)
  }

  /** The bounce impulse on body1 (body2 gets its negation):
      `k*(1+e) * ((v2 - v1) . u) * u` for the unit axis `u`. The model's axis
      `n` is not normalised, so `((v2 - v1) . u) * u` is written
      `((v2 - v1) . n) / (n . n) * n`. A zero-length axis (where the source
      divides by zero) and two infinite masses (where it produces NaN
      velocities) give no impulse. */
  function BounceImpulse(elasticity: real, r1: BodyRec, r2: BodyRec, axis: Vec): (j: Vec)
    ensures ReducedMass(r1.mass, r2.mass).Infinite? || Dot(axis, axis) == 0.0 ==> j == Zero
  {
    var k := ReducedMass(r1.mass, r2.mass);
    var nn := Dot(axis, axis);
    if k.Infinite? || nn == 0.0 then Zero
    else
      var impulseMag := NormalSpeed(r1, r2, axis) / nn;
      var impulse := Scale(impulseMag, axis);
      Scale(k.value * (1.0 + elasticity), impulse)
  }

  /** Equal and opposite impulses: `j` on body1, `-j` on body2, in the
      source's order (body2 first). */
  function Exchange(j: Vec, b1: Body, b2: Body, m: map<Body, BodyRec>): (m': map<Body, BodyRec>)
    requires b1 in m && b2 in m
    ensures m'.Keys == m.Keys
    ensures forall b :: b in m ==> m'[b] == m[b].(impulse := m'[b].impulse)
    ensures forall b :: b in m && b != b1 && b != b2 ==> m'[b] == m[b]
    ensures b1 != b2 ==> ImpulseAdded(m[b1], m'[b1]) == j && ImpulseAdded(m[b2], m'[b2]) == Neg(j)
    ensures b1 == b2 ==> m' == m
  {
    AddImpulses(m, b2, Neg(j), b1, j)
  }

  /** `apply_physics_collision` on the world. */
  function Bounce(elasticity: real, b1: Body, b2: Body, axis: Vec, m: map<Body, BodyRec>): (m': map<Body, BodyRec>)
    requires b1 in m && b2 in m
    ensures m'.Keys == m.Keys
    ensures forall b :: b in m ==> m'[b] == m[b].(impulse := m'[b].impulse)
    ensures forall b :: b in m && b != b1 && b != b2 ==> m'[b] == m[b]
    ensures b1 != b2 ==>
              ImpulseAdded(m[b1], m'[b1]) == BounceImpulse(elasticity, m[b1], m[b2], axis) &&
              ImpulseAdded(m[b2], m'[b2]) == Neg(BounceImpulse(elasticity, m[b1], m[b2], axis))
  {
    Exchange(BounceImpulse(elasticity, m[b1], m[b2], axis), b1, b2, m)
  }

  /** With no force pending, an impulse `j` changes the velocity of the next
      step by `j / m`. */
  lemma VelocityAfterImpulse(r: BodyRec, j: Vec, dt: real)
    requires r.force == Zero
    ensures NewVelocity(r.(impulse := j), dt) == Add(r.velocity, Scale(InvMass(r.mass), j))
  {
  }

  /** The relative normal velocity of two bodies along `axis` goes from
      `(v2 - v1) . axis` before to `-e` times that after. */
  predicate Restitutes(v1: Vec, v2: Vec, after1: Vec, after2: Vec, axis: Vec, e: real)
  {
    Dot(Sub(after2, after1), axis) == -e * Dot(Sub(v2, v1), axis)
  }

  /** `k` is the reduced mass of two bodies with inverse masses `i1`, `i2`. */
  predicate InverseSum(i1: real, i2: real, k: real)
  {
    (i1 + i2) * k == 1.0
  }

  /** The normal component of the impulse `j` along `axis` is `c*s`. */
  predicate ImpulseAlong(j: Vec, axis: Vec, c: real, s: real)
  {
    Dot(j, axis) == c * s
  }

  lemma RelativeNormalAfter(v1: Vec, v2: Vec, i1: real, i2: real, j: Vec, a: Vec)
    ensures Dot(Sub(Add(v2, Scale(i2, Neg(j))), Add(v1, Scale(i1, j))), a) ==
            (Dot(v2, a) - Dot(v1, a)) - (i1 + i2) * Dot(j, a)
  {
  }

  /** `c * (s / |a|^2) * a` has normal component `c * s` along `a`. */
  lemma ScaledAxisDot(c: real, s: real, a: Vec)
    requires Dot(a, a) != 0.0
    ensures Dot(Scale(c, Scale(s / Dot(a, a), a)), a) == c * s
  {
    var t := s / Dot(a, a);
    assert Dot(Scale(c, Scale(t, a)), a) == c * (t * Dot(a, a));
    assert t * Dot(a, a) == s;
  }

  /** The impulse along the axis is `k*(1+e)` times the relative normal
      velocity `(v2 - v1) . n`. */
  lemma BounceImpulseAlongAxis(elasticity: real, r1: BodyRec, r2: BodyRec, axis: Vec)
    requires r1.mass.Finite? || r2.mass.Finite?
    requires Dot(axis, axis) != 0.0
    ensures ReducedMass(r1.mass, r2.mass).Finite?
    ensures ImpulseAlong(BounceImpulse(elasticity, r1, r2, axis), axis,
                         ReducedMass(r1.mass, r2.mass).value * (1.0 + elasticity), NormalSpeed(r1, r2, axis))
  {
    ScaledAxisDot(ReducedMass(r1.mass, r2.mass).value * (1.0 + elasticity), NormalSpeed(r1, r2, axis), axis);
  }

  /** The bounce impulse lies along the collision axis, and bodies with no
      relative velocity along the axis exchange no impulse. */
  lemma BounceImpulseDirection(elasticity: real, r1: BodyRec, r2: BodyRec, axis: Vec)
    ensures var j := BounceImpulse(elasticity, r1, r2, axis);
            j.x * axis.y == j.y * axis.x
    ensures NormalSpeed(r1, r2, axis) == 0.0 ==> BounceImpulse(elasticity, r1, r2, axis) == Zero
  {
    var k := ReducedMass(r1.mass, r2.mass);
    if k.Finite? && Dot(axis, axis) != 0.0 {
      ScaleParallel(k.value * (1.0 + elasticity), Scale(NormalSpeed(r1, r2, axis) / Dot(axis, axis), axis));
      ScaleParallel(NormalSpeed(r1, r2, axis) / Dot(axis, axis), axis);
    }
  }

  /** Unless both masses are infinite, the reduced mass times the sum of the
      inverse masses is 1. */
  lemma ReducedInverse(m1: Mass, m2: Mass)
    requires m1.Finite? || m2.Finite?
    ensures ReducedMass(m1, m2).Finite?
    ensures InverseSum(InvMass(m1), InvMass(m2), ReducedMass(m1, m2).value)
  {
    ReducedMassLaw(m1, m2);
    MassTimesInverse(ReducedMass(m1, m2));
  }

  lemma MassTimesInverse(k: Mass)
    requires k.Finite?
    ensures k.value * InvMass(k) == 1.0
  {
  }

  lemma CancelInverse(x: real, k: real, q: real)
    requires x * k == 1.0
    ensures x * (k * q) == q
  {
    assert x * (k * q) == (x * k) * q;
  }

  /** Velocities `v1 + i1*j` and `v2 - i2*j` after an impulse whose normal
      component is `k*(1+e)` times the relative normal velocity `s`, with
      `(i1 + i2)*k == 1`: the relative normal velocity becomes `-e*s`. */
  lemma RelativeSpeedAfter(v1: Vec, v2: Vec, i1: real, i2: real, j: Vec, a: Vec, k: real, e: real, s: real)
    requires InverseSum(i1, i2, k) && ImpulseAlong(j, a, k * (1.0 + e), s)
    requires s == Dot(v2, a) - Dot(v1, a)
    ensures Restitutes(v1, v2, Add(v1, Scale(i1, j)), Add(v2, Scale(i2, Neg(j))), a, e)
  {
    RelativeNormalAfter(v1, v2, i1, i2, j, a);
    assert Dot(j, a) == k * ((1.0 + e) * s);
    CancelInverse(i1 + i2, k, (1.0 + e) * s);
    assert Dot(Sub(v2, v1), a) == s;
  }

  /** The bounce impulse and its negation, applied to two records with no
      force or impulse pending, make the relative normal velocity `-e` times
      what it was. */
  lemma BounceRestitutionOnRecords(elasticity: real, r1: BodyRec, r2: BodyRec, axis: Vec, dt: real)
    requires r1.force == Zero && r2.force == Zero
    requires r1.mass.Finite? || r2.mass.Finite?
    requires Dot(axis, axis) != 0.0
    ensures var j := BounceImpulse(elasticity, r1, r2, axis);
            Restitutes(r1.velocity, r2.velocity, NewVelocity(r1.(impulse := j), dt),
                       NewVelocity(r2.(impulse := Neg(j)), dt), axis, elasticity)
  {
    var j := BounceImpulse(elasticity, r1, r2, axis);
    VelocityAfterImpulse(r1, j, dt);
    VelocityAfterImpulse(r2, Neg(j), dt);
    ReducedInverse(r1.mass, r2.mass);
    BounceImpulseAlongAxis(elasticity, r1, r2, axis);
    RelativeSpeedAfter(r1.velocity, r2.velocity, InvMass(r1.mass), InvMass(r2.mass), j, axis,
                       ReducedMass(r1.mass, r2.mass).value, elasticity, NormalSpeed(r1, r2, axis));
  }

  /** With no other force or impulse pending, the bounce turns the relative
      normal velocity `s` of two bodies into `-e*s` at their next integration
      step. */
  lemma BounceRestitution(elasticity: real, b1: Body, b2: Body, axis: Vec, m: map<Body, BodyRec>, dt: real)
    requires b1 in m && b2 in m && b1 != b2
    requires m[b1].force == Zero && m[b1].impulse == Zero
    requires m[b2].force == Zero && m[b2].impulse == Zero
    requires m[b1].mass.Finite? || m[b2].mass.Finite?
    requires Dot(axis, axis) != 0.0
    ensures var m' := Bounce(elasticity, b1, b2, axis, m);
            Restitutes(m[b1].velocity, m[b2].velocity, NewVelocity(m'[b1], dt), NewVelocity(m'[b2], dt), axis, elasticity)
  {
    var r1, r2 := m[b1], m[b2];
    var j := BounceImpulse(elasticity, r1, r2, axis);
    var m' := Bounce(elasticity, b1, b2, axis, m);
    assert m'[b1] == r1.(impulse := j) && m'[b2] == r2.(impulse := Neg(j));
    BounceRestitutionOnRecords(elasticity, r1, r2, axis, dt);
  }

  lemma MomentumAlgebra(a: real, v: Vec, j: Vec)
    requires a > 0.0
    ensures Scale(a, Add(v, Scale(1.0 / a, j))) == Add(Scale(a, v), j)
  {
    assert a * (1.0 / a) == 1.0;
    assert a * (v.x + (1.0 / a) * j.x) == a * v.x + (a * (1.0 / a)) * j.x;
    assert a * (v.y + (1.0 / a) * j.y) == a * v.y + (a * (1.0 / a)) * j.y;
  }

  /** For two finite masses the bounce conserves momentum: at the next step
      `m1*v1' + m2*v2' == m1*v1 + m2*v2`. */
  lemma {:induction false} BounceConservesMomentum(elasticity: real, b1: Body, b2: Body, axis: Vec, m: map<Body, BodyRec>, dt: real)
    requires b1 in m && b2 in m && b1 != b2
    requires m[b1].force == Zero && m[b1].impulse == Zero
    requires m[b2].force == Zero && m[b2].impulse == Zero
    requires m[b1].mass.Finite? && m[b2].mass.Finite?
    ensures var m' := Bounce(elasticity, b1, b2, axis, m);
            Add(Scale(m[b1].mass.value, NewVelocity(m'[b1], dt)), Scale(m[b2].mass.value, NewVelocity(m'[b2], dt))) ==
            Add(Scale(m[b1].mass.value, m[b1].velocity), Scale(m[b2].mass.value, m[b2].velocity))
  {
    var r1, r2 := m[b1], m[b2];
    var m' := Bounce(elasticity, b1, b2, axis, m);
    var j := BounceImpulse(elasticity, r1, r2, axis);
    assert m'[b1] == r1.(impulse := j) && m'[b2] == r2.(impulse := Neg(j));
    VelocityAfterImpulse(r1, j, dt);
    VelocityAfterImpulse(r2, Neg(j), dt);
    MomentumAlgebra(r1.mass.value, r1.velocity, j);
    MomentumAlgebra(r2.mass.value, r2.velocity, Neg(j));
  }

  /** `apply_destructive_collision` and `apply_end_game`: both bodies are
      marked removed and nothing else changes. */
  function RemoveBoth(b1: Body, b2: Body, m: map<Body, BodyRec>): (m': map<Body, BodyRec>)
    requires b1 in m && b2 in m
    ensures m'.Keys == m.Keys
    ensures m'[b1] == m[b1].(removed := true) && m'[b2] == m[b2].(removed := true)
    ensures forall b :: b in m && b != b1 && b != b2 ==> m'[b] == m[b]
  {
    RemoveAt(RemoveAt(m, b1), b2)
  }

  /** `apply_coin_collecting`: the collector gains one coin and the coin is
      removed. */
  function CollectCoin(b1: Body, b2: Body, m: map<Body, BodyRec>): (m': map<Body, BodyRec>)
    requires b1 in m && b2 in m
    ensures m'.Keys == m.Keys
    ensures m'[b2].removed && m'[b2].coins == m[b2].coins + (if b1 == b2 then 1 else 0)
    ensures b1 != b2 ==> m'[b1] == m[b1].(coins := m[b1].coins + 1) && m'[b2] == m[b2].(removed := true)
    ensures forall b :: b in m && b != b1 && b != b2 ==> m'[b] == m[b]
  {
    RemoveAt(AddCoinAt(m, b1), b2)
  }

  /** `apply_collision_velocity`: body1 keeps a quarter of its velocity and
      body2 is removed. */
  function SlowAndRemove(b1: Body, b2: Body, m: map<Body, BodyRec>): (m': map<Body, BodyRec>)
    requires b1 in m && b2 in m
    ensures m'.Keys == m.Keys
    ensures m'[b2].removed
    ensures m'[b1].velocity == Scale(0.25, m[b1].velocity)
    ensures b1 != b2 ==> m'[b1] == m[b1].(velocity := Scale(0.25, m[b1].velocity)) && m'[b2] == m[b2].(removed := true)
    ensures forall b :: b in m && b != b1 && b != b2 ==> m'[b] == m[b]
  {
    RemoveAt(SetVelocityAt(m, b1, Scale(0.25, m[b1].velocity)), b2)
  }

  /** `apply_delete_bounce`: the impulse exchange of a bounce, then body1 is
      removed. */
  function DeleteBounceStep(j: Vec, b1: Body, b2: Body, m: map<Body, BodyRec>): (m': map<Body, BodyRec>)
    requires b1 in m && b2 in m
    ensures m'.Keys == m.Keys
    ensures m'[b1] == Exchange(j, b1, b2, m)[b1].(removed := true)
    ensures forall b :: b in m && b != b1 ==> m'[b] == Exchange(j, b1, b2, m)[b]
  {
    RemoveAt(Exchange(j, b1, b2, m), b1)
  }

  /** What a handler does to the two bodies when the collision fires. No
      handler adds or drops a body, touches a third body, or moves a body,
      changes its shape or its mass. */
  function HandlerStep(h: Handler, b1: Body, b2: Body, axis: Vec, m: map<Body, BodyRec>): (m': map<Body, BodyRec>)
    requires b1 in m && b2 in m
    ensures m'.Keys == m.Keys
    ensures forall b :: b in m && b != b1 && b != b2 ==> m'[b] == m[b]
    ensures forall b :: b in m ==>
              m'[b].shape == m[b].shape && m'[b].centroid == m[b].centroid && m'[b].mass == m[b].mass
  {
    match h
    case Destructive => RemoveBoth(b1, b2, m)
    case PhysicsBounce(e) => Bounce(e, b1, b2, axis, m)
    case DeleteBounce(e) => DeleteBounceStep(BounceImpulse(e, m[b1], m[b2], axis), b1, b2, m)
    case CoinCollecting => CollectCoin(b1, b2, m)
    case CollisionVelocity => SlowAndRemove(b1, b2, m)
    case EndGame => RemoveBoth(b1, b2, m)
  }

  /** `apply_collision` on the world: the handler fires only on a transition
      from not colliding to colliding; afterwards the flag holds the current
      collision verdict, so continued overlap never fires again. */
  function CollisionStep(aux: CollisionAux, w: World): (w': World)
    requires aux in w.flags && aux.body1 in w.bodies && aux.body2 in w.bodies
    ensures w'.bodies.Keys == w.bodies.Keys && w'.flags.Keys == w.flags.Keys
    ensures w'.flags == w.flags[aux := Detect(w.bodies[aux.body1].shape, w.bodies[aux.body2].shape).collided]
    ensures var info := Detect(w.bodies[aux.body1].shape, w.bodies[aux.body2].shape);
            && (!w.flags[aux] && info.collided ==>
                  w'.bodies == HandlerStep(aux.handler, aux.body1, aux.body2, info.axis, w.bodies))
            && (w.flags[aux] || !info.collided ==> w'.bodies == w.bodies)
  {
    var info := Detect(w.bodies[aux.body1].shape, w.bodies[aux.body2].shape);
    var bodies :=
      if !w.flags[aux] && info.collided then
        HandlerStep(aux.handler, aux.body1, aux.body2, info.axis, w.bodies)
      else
        w.bodies;
    // The source tests the collision once more after the handler ran.
    var again := Detect(bodies[aux.body1].shape, bodies[aux.body2].shape);
    World(bodies, w.flags[aux := again.collided])
  }

  /** A contact fires its handler once: running the collision callback again
      on the world it left, with nothing else in between, changes nothing.
      No handler moves or reshapes a body, so the second verdict equals the
      recorded flag and no rising edge is seen. */
  lemma {:induction false} CollisionStepIdempotent(aux: CollisionAux, w: World)
    requires aux in w.flags && aux.body1 in w.bodies && aux.body2 in w.bodies
    ensures CollisionStep(aux, CollisionStep(aux, w)) == CollisionStep(aux, w)
  {
    var w1 := CollisionStep(aux, w);
    var c := Detect(w.bodies[aux.body1].shape, w.bodies[aux.body2].shape).collided;
    assert w1.flags[aux] == c;
    assert Detect(w1.bodies[aux.body1].shape, w1.bodies[aux.body2].shape).collided == c;
    UpdateSame(w1.flags, aux);
    var w2 := CollisionStep(aux, w1);
    assert w2.bodies == w1.bodies;
    assert w2.flags == w1.flags;
  }

  /** Writing back the value a map already holds leaves the map unchanged. */
  lemma UpdateSame<K, V>(m: map<K, V>, k: K)
    requires k in m
    ensures m[k := m[k]] == m
  { }

  /** A proof step for `ApplyCollision`: the step rewritten with the flag
      taken on the bodies it leaves, the form the method computes it in. */
  lemma CollisionStepFlag(aux: CollisionAux, w: World)
    requires aux in w.flags && aux.body1 in w.bodies && aux.body2 in w.bodies
    ensures var m := CollisionStep(aux, w).bodies;
            CollisionStep(aux, w) == World(m, w.flags[aux := Detect(m[aux.body1].shape, m[aux.body2].shape).collided])
  {
  }

  /** One force callback on the world. */
  function EntryStep(g: Generator, w: World, sqrt: real -> real): (w': World)
    requires Covers(w, g) && IsSqrt(sqrt)
    ensures w'.bodies.Keys == w.bodies.Keys && w'.flags.Keys == w.flags.Keys
    ensures !g.CollisionForce? ==> w'.flags == w.flags
  {
    match g
    case NewtonianGravity(G, b1, b2) => World(InverseSquare(G, b1, b2, w.bodies, sqrt), w.flags)
    case Vortex(G, b1, b2) => World(InverseSquare(G, b1, b2, w.bodies, sqrt), w.flags)
    case Spring(k, b1, b2) => World(SpringStep(k, b1, b2, w.bodies), w.flags)
    case Drag(gamma, b) => World(DragStep(gamma, b, w.bodies), w.flags)
    case CollisionForce(aux) => CollisionStep(aux, w)
  }

  /** `body_add_force` on one body of `S`, seen on the whole set. */
  method AddForceIn(b: Body, f: Vec, ghost S: set<Body>)
    requires b in S
    modifies b
    ensures Snap(S) == AddForceAt(old(Snap(S)), b, f)
  {
    ghost var m := Snap(S);
    b.AddForce(f);
    SnapAgree(S, AddForceAt(m, b, f));
  }

  /** `body_add_impulse` on one body of `S`, seen on the whole set. */
  method AddImpulseIn(b: Body, j: Vec, ghost S: set<Body>)
    requires b in S
    modifies b
    ensures Snap(S) == AddImpulseAt(old(Snap(S)), b, j)
  {
    ghost var m := Snap(S);
    b.AddImpulse(j);
    SnapAgree(S, AddImpulseAt(m, b, j));
  }

  /** `body_remove` on one body of `S`, seen on the whole set. */
  method RemoveIn(b: Body, ghost S: set<Body>)
    requires b in S
    modifies b
    ensures Snap(S) == RemoveAt(old(Snap(S)), b)
  {
    ghost var m := Snap(S);
    b.Remove();
    SnapAgree(S, RemoveAt(m, b));
  }

  /** `body_set_coins` on one body of `S`, seen on the whole set. */
  method AddCoinIn(b: Body, ghost S: set<Body>)
    requires b in S
    modifies b
    ensures Snap(S) == AddCoinAt(old(Snap(S)), b)
  {
    ghost var m := Snap(S);
    b.SetCoins();
    SnapAgree(S, AddCoinAt(m, b));
  }

  /** `body_set_velocity` on one body of `S`, seen on the whole set. */
  method SetVelocityIn(b: Body, v: Vec, ghost S: set<Body>)
    requires b in S
    modifies b
    ensures Snap(S) == SetVelocityAt(old(Snap(S)), b, v)
  {
    ghost var m := Snap(S);
    b.SetVelocity(v);
    SnapAgree(S, SetVelocityAt(m, b, v));
  }

  /** `apply_newtonian_gravity` and `apply_vortex`, whose bodies are identical. */
  method ApplyInverseSquare(g: real, body1: Body, body2: Body, sqrt: real -> real, ghost S: set<Body>)
    requires body1 in S && body2 in S && IsSqrt(sqrt)
    modifies body1, body2
    ensures Snap(S) == InverseSquare(g, body1, body2, old(Snap(S)), sqrt)
  {
    var c1, c2 := body1.centroid, body2.centroid;
    var diff := Sub(c1, c2);
    var distance := sqrt(Dot(diff, diff));
    CutoffOnSquares(sqrt, Dot(diff, diff));
    ghost var r1, r2 := body1.Rec(), body2.Rec();
    assert Pulls(r1, r2) <==> distance > 5.0 && body1.mass.Finite? && body2.mass.Finite?;
    if distance > 5.0 && body1.mass.Finite? && body2.mass.Finite? {
      var numerator := g * body1.mass.value * body2.mass.value;
      var grav := InverseCube(numerator, distance);
      var force2 := Scale(grav, diff);
      var force1 := Neg(force2);
      assert force2 == GravityPull(g, r1, r2, sqrt);
      AddForceIn(body1, force1, S);
      AddForceIn(body2, force2, S);
    }
  }

  /** `apply_spring_force`. */
  method ApplySpringForce(k: real, body1: Body, body2: Body, ghost S: set<Body>)
    requires body1 in S && body2 in S
    modifies body1, body2
    ensures Snap(S) == SpringStep(k, body1, body2, old(Snap(S)))
  {
    var c1, c2 := body1.centroid, body2.centroid;
    var force1 := Scale(k, Sub(c2, c1));
    var force2 := Neg(force1);
    AddForceIn(body1, force1, S);
    AddForceIn(body2, force2, S);
  }

  /** `apply_drag_force`. */
  method ApplyDragForce(gamma: real, body: Body, ghost S: set<Body>)
    requires body in S
    modifies body
    ensures Snap(S) == DragStep(gamma, body, old(Snap(S)))
  {
    var drag := Neg(Scale(gamma, body.velocity));
    AddForceIn(body, drag, S);
  }

  /** `apply_destructive_collision`. */
  method ApplyDestructiveCollision(body1: Body, body2: Body, axis: Vec, ghost S: set<Body>)
    requires body1 in S && body2 in S
    modifies body1, body2
    ensures Snap(S) == RemoveBoth(body1, body2, old(Snap(S)))
  {
    RemoveIn(body1, S);
    RemoveIn(body2, S);
  }

  /** The impulse `apply_physics_collision` computes, from the masses, the
      velocities and the axis. */
  method ImpulseBetween(elasticity: real, body1: Body, body2: Body, axis: Vec) returns (added: Vec)
    ensures added == BounceImpulse(elasticity, body1.Rec(), body2.Rec(), axis)
  {
    var mass1, mass2 := body1.mass, body2.mass;
    var impConst := ReducedMass(mass1, mass2);
    var nn := Dot(axis, axis);
    added := Zero;
    if impConst.Finite? && nn != 0.0 {
      var impulseMag := (Dot(body2.velocity, axis) - Dot(body1.velocity, axis)) / nn;
      var impulse := Scale(impulseMag, axis);
      var impulseNum := impConst.value * (1.0 + elasticity);
      added := Scale(impulseNum, impulse);
    }
  }

  /** `apply_physics_collision`. */
  method ApplyPhysicsCollision(elasticity: real, body1: Body, body2: Body, axis: Vec, ghost S: set<Body>)
    requires body1 in S && body2 in S
    modifies body1, body2
    ensures Snap(S) == Bounce(elasticity, body1, body2, axis, old(Snap(S)))
  {
    ghost var m := Snap(S);
    var added := ImpulseBetween(elasticity, body1, body2, axis);
    SnapAgree(S, m);
    AddImpulseIn(body2, Neg(added), S);
    AddImpulseIn(body1, added, S);
  }

  /** `apply_delete_bounce`: the bounce, then body1 is removed. */
  method ApplyDeleteBounce(elasticity: real, body1: Body, body2: Body, axis: Vec, ghost S: set<Body>)
    requires body1 in S && body2 in S
    modifies body1, body2
    ensures Snap(S) == DeleteBounceStep(BounceImpulse(elasticity, old(body1.Rec()), old(body2.Rec()), axis), body1, body2, old(Snap(S)))
  {
    ApplyPhysicsCollision(elasticity, body1, body2, axis, S);
    RemoveIn(body1, S);
  }

  /** `apply_coin_collecting`: body1 collects a coin, body2 is removed. */
  method ApplyCoinCollecting(body1: Body, body2: Body, axis: Vec, ghost S: set<Body>)
    requires body1 in S && body2 in S
    modifies body1, body2
    ensures Snap(S) == CollectCoin(body1, body2, old(Snap(S)))
  {
    AddCoinIn(body1, S);
    RemoveIn(body2, S);
  }

  /** `apply_collision_velocity`: body1 slows to a quarter, body2 is removed. */
  method ApplyCollisionVelocity(body1: Body, body2: Body, axis: Vec, ghost S: set<Body>)
    requires body1 in S && body2 in S
    modifies body1, body2
    ensures Snap(S) == SlowAndRemove(body1, body2, old(Snap(S)))
  {
    var v := Scale(0.25, body1.velocity);
    SetVelocityIn(body1, v, S);
    RemoveIn(body2, S);
  }

  /** `apply_end_game`. */
  method ApplyEndGame(body1: Body, body2: Body, axis: Vec, ghost S: set<Body>)
    requires body1 in S && body2 in S
    modifies body1, body2
    ensures Snap(S) == RemoveBoth(body1, body2, old(Snap(S)))
  {
    RemoveIn(body1, S);
    RemoveIn(body2, S);
  }

  /** The call through the handler pointer of a collision entry. */
  method ApplyHandler(h: Handler, body1: Body, body2: Body, axis: Vec, ghost S: set<Body>)
    requires body1 in S && body2 in S
    modifies body1, body2
    ensures Snap(S) == HandlerStep(h, body1, body2, axis, old(Snap(S)))
  {
    match h
    case Destructive => ApplyDestructiveCollision(body1, body2, axis, S);
    case PhysicsBounce(e) => ApplyPhysicsCollision(e, body1, body2, axis, S);
    case DeleteBounce(e) => ApplyDeleteBounce(e, body1, body2, axis, S);
    case CoinCollecting => ApplyCoinCollecting(body1, body2, axis, S);
    case CollisionVelocity => ApplyCollisionVelocity(body1, body2, axis, S);
    case EndGame => ApplyEndGame(body1, body2, axis, S);
  }

  /** `collision_checker` on the current shapes of the two bodies; reading
      the shapes changes no body and no flag. */
  method CollidesNow(aux: CollisionAux, ghost S: set<Body>, ghost A: set<CollisionAux>) returns (collided: bool)
    ensures collided == Detect(aux.body1.shape, aux.body2.shape).collided
    ensures Snap(S) == old(Snap(S)) && Flags(A) == old(Flags(A))
  {
    var shape1 := aux.body1.GetShape();
    var shape2 := aux.body2.GetShape();
    assert shape1 == aux.body1.shape && shape2 == aux.body2.shape;
    collided := CollisionChecker(shape1, shape2);
  }

  /** `collision_vec` on the current shapes of the two bodies. */
  method AxisNow(aux: CollisionAux, ghost S: set<Body>, ghost A: set<CollisionAux>) returns (axis: Vec)
    ensures axis == Detect(aux.body1.shape, aux.body2.shape).axis
    ensures Snap(S) == old(Snap(S)) && Flags(A) == old(Flags(A))
  {
    var shape1 := aux.body1.GetShape();
    var shape2 := aux.body2.GetShape();
    assert shape1 == aux.body1.shape && shape2 == aux.body2.shape;
    axis := CollisionVec(shape1, shape2);
  }

  /** The inner test of `apply_collision`: the handler runs when the bodies
      collide now. */
  method FireIfColliding(aux: CollisionAux, axis: Vec, ghost S: set<Body>, ghost A: set<CollisionAux>)
    requires aux.body1 in S && aux.body2 in S
    modifies aux.body1, aux.body2
    ensures var m := old(Snap(S));
            Snap(S) == if Detect(m[aux.body1].shape, m[aux.body2].shape).collided
                       then HandlerStep(aux.handler, aux.body1, aux.body2, axis, m) else m
    ensures Flags(A) == old(Flags(A))
  {
    ghost var flags := Flags(A);
    var collided := CollidesNow(aux, S, A);
    if collided == true {
      ApplyHandler(aux.handler, aux.body1, aux.body2, axis, S);
      FlagsAgree(A, flags);
    }
  }

  /** The first half of `apply_collision`: the handler runs on the given axis
      when the bodies were apart at the previous application and collide
      now. */
  method FireOnRisingEdge(aux: CollisionAux, axis: Vec, ghost S: set<Body>, ghost A: set<CollisionAux>)
    requires aux.body1 in S && aux.body2 in S && aux in A
    requires axis == Detect(aux.body1.shape, aux.body2.shape).axis
    modifies aux.body1, aux.body2
    ensures Snap(S) == CollisionStep(aux, old(WorldOf(S, A))).bodies
    ensures Flags(A) == old(Flags(A))
  {
    if aux.alreadyCollided == false {
      FireIfColliding(aux, axis, S, A);
    }
  }

  /** The second half of `apply_collision`: the flag records whether the
      bodies collide now. */
  method RecordCollision(aux: CollisionAux, ghost S: set<Body>, ghost A: set<CollisionAux>)
    requires aux in A && aux.body1 in S && aux.body2 in S
    modifies aux
    ensures Snap(S) == old(Snap(S))
    ensures var m := Snap(S);
            Flags(A) == old(Flags(A))[aux := Detect(m[aux.body1].shape, m[aux.body2].shape).collided]
  {
    var collided := CollidesNow(aux, S, A);
    ghost var flags := Flags(A);
    aux.alreadyCollided := collided;
    FlagsAgree(A, flags[aux := collided]);
  }

  /** `apply_collision`. */
  method ApplyCollision(aux: CollisionAux, ghost S: set<Body>, ghost A: set<CollisionAux>)
    requires aux in A && aux.body1 in S && aux.body2 in S
    modifies aux, aux.body1, aux.body2
    ensures WorldOf(S, A) == CollisionStep(aux, old(WorldOf(S, A)))
  {
    ghost var w0 := WorldOf(S, A);
    var axis := AxisNow(aux, S, A);
    FireOnRisingEdge(aux, axis, S, A);
    ghost var m1 := Snap(S);
    CollisionStepFlag(aux, w0);
    RecordCollision(aux, S, A);
  }

  /** Invokes the callback of a force entry that is not a collision: it
      changes the force on its bodies. */
  method ApplyForceEntry(g: Generator, sqrt: real -> real, ghost S: set<Body>, ghost flags: map<CollisionAux, bool>)
    requires !g.CollisionForce? && GeneratorBodies(g) <= S && IsSqrt(sqrt)
    modifies GeneratorBodies(g)
    ensures Covers(World(old(Snap(S)), flags), g)
    ensures Snap(S) == EntryStep(g, World(old(Snap(S)), flags), sqrt).bodies
  {
    match g {
      case NewtonianGravity(G, b1, b2) =>
        ApplyInverseSquare(G, b1, b2, sqrt, S);
      case Vortex(G, b1, b2) =>
        ApplyInverseSquare(G, b1, b2, sqrt, S);
      case Spring(k, b1, b2) =>
        ApplySpringForce(k, b1, b2, S);
      case Drag(gamma, b) =>
        ApplyDragForce(gamma, b, S);
    }
  }

  /** Invokes the callback of one force entry. */
  method ApplyEntry(g: Generator, sqrt: real -> real, ghost S: set<Body>, ghost A: set<CollisionAux>)
    requires GeneratorBodies(g) <= S && (g.CollisionForce? ==> g.aux in A) && IsSqrt(sqrt)
    modifies GeneratorBodies(g), if g.CollisionForce? then {g.aux} else {}
    ensures Covers(old(WorldOf(S, A)), g)
    ensures WorldOf(S, A) == EntryStep(g, old(WorldOf(S, A)), sqrt)
  {
    if g.CollisionForce? {
      ApplyCollision(g.aux, S, A);
    } else {
      ghost var w := WorldOf(S, A);
      ApplyForceEntry(g, sqrt, S, w.flags);
      FlagsAgree(A, w.flags);
    }
  }
}
