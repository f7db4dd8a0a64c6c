/** A rigid body: a polygon, a mass, a velocity, force and impulse
    accumulators, a coin counter and a one-way "removed" flag (body.c).

    The class `Body` holds the fields the source updates in place. `Rec()`
    bundles them into a `BodyRec` value, and every mutating method is specified
    by a pure function from the old `Rec()` to the new one; the properties the
    source promises are stated about those functions. */
module Bodies {
  import opened Vectors

  /** A mass is a positive real or the sentinel INFINITY of an immovable body. */
  datatype MassValue = Finite(value: real) | Infinite
  type Mass = m: MassValue | m.Infinite? || m.value > 0.0 witness Infinite

  /** `1 / mass`, where `1 / INFINITY` is 0. */
  function InvMass(m: Mass): real
  {
    if m.Infinite? then 0.0 else 1.0 / m.value
  }

  /** A body's polygon: an ordered sequence of at least three points. */
  type Shape = s: seq<Vec> | |s| >= 3 witness [Vec(0.0, 0.0), Vec(1.0, 0.0), Vec(0.0, 1.0)]

  /** The value of every field of a body that the core reads or writes. */
  datatype BodyRec = BodyRec(
    shape: Shape,
    mass: Mass,
    coins: nat,
    centroid: Vec,
    velocity: Vec,
    angle: real,
    force: Vec,
    impulse: Vec,
    removed: bool)

  /** The shape `s`, whose centroid is `c`, moved so that its centroid is `x`:
      each point `p` becomes `x + (p - c)`. */
  function MoveTo(s: Shape, c: Vec, x: Vec): (r: Shape)
    ensures |r| == |s|
    ensures forall i :: 0 <= i < |s| ==> Sub(r[i], s[i]) == Sub(x, c)
    ensures forall i, j :: 0 <= i < |s| && 0 <= j < |s| ==> Sub(r[i], r[j]) == Sub(s[i], s[j])
  {
    seq(|s|, i requires 0 <= i < |s| => Add(x, Sub(s[i], c)))
  }

  function SetCentroidRec(r: BodyRec, x: Vec): (r': BodyRec)
    ensures r'.centroid == x && |r'.shape| == |r.shape|
    ensures forall i :: 0 <= i < |r.shape| ==> r'.shape[i] == Add(r.shape[i], Sub(x, r.centroid))
    ensures r' == r.(shape := r'.shape, centroid := x)
  {
    r.(shape := MoveTo(r.shape, r.centroid, x), centroid := x)
  }

  /** Moving the centroid to `x` and back to where it was restores the body. */
  lemma {:induction false} SetCentroidRoundTrip(r: BodyRec, x: Vec)
    ensures SetCentroidRec(SetCentroidRec(r, x), r.centroid) == r
  {
    var back := SetCentroidRec(SetCentroidRec(r, x), r.centroid);
    assert |back.shape| == |r.shape|;
    forall i | 0 <= i < |r.shape|
      ensures back.shape[i] == r.shape[i]
    {
    }
    assert back.shape == r.shape;
  }

  /** The velocity after one step of `dt`: forces act for `dt`, impulses at once. */
  function NewVelocity(r: BodyRec, dt: real): Vec
  {
    var acceleration := Scale(InvMass(r.mass), r.force);
    var velocityForce := Scale(dt, acceleration);
    var velocityImpulse := Scale(InvMass(r.mass), r.impulse);
    Add(r.velocity, Add(velocityForce, velocityImpulse))
  }

  /** One integration step: trapezoidal position update, accumulators cleared. */
  function TickRec(r: BodyRec, dt: real): (r': BodyRec)
    ensures r'.velocity.x == r.velocity.x + dt * (InvMass(r.mass) * r.force.x) + InvMass(r.mass) * r.impulse.x
    ensures r'.velocity.y == r.velocity.y + dt * (InvMass(r.mass) * r.force.y) + InvMass(r.mass) * r.impulse.y
    ensures r'.centroid == Add(r.centroid, Scale(dt, Scale(0.5, Add(r.velocity, r'.velocity))))
    ensures r'.force == Zero && r'.impulse == Zero
    ensures r'.mass == r.mass && r'.coins == r.coins && r'.angle == r.angle && r'.removed == r.removed
    ensures |r'.shape| == |r.shape|
    ensures forall i :: 0 <= i < |r.shape| ==> Sub(r'.shape[i], r.shape[i]) == Sub(r'.centroid, r.centroid)
    ensures r.force == Zero && r.impulse == Zero ==>
              r'.velocity == r.velocity && r'.centroid == Add(r.centroid, Scale(dt, r.velocity))
    ensures r.mass.Infinite? ==> r'.velocity == r.velocity
  {
    var newVelocity := NewVelocity(r, dt);
    var average := Scale(0.5, Add(r.velocity, newVelocity));
    var moved := SetCentroidRec(r, Add(r.centroid, Scale(dt, average)));
    moved.(force := Zero, impulse := Zero, velocity := newVelocity)
  }

  /** Marking a body removed twice is the same as marking it once. */
  lemma RemoveIdempotent(r: BodyRec)
    ensures r.(removed := true).(removed := true) == r.(removed := true)
  {
  }

  class Body {
    var shape: Shape
    const mass: Mass
    var coins: nat
    var centroid: Vec
    var velocity: Vec
    var angle: real
    var force: Vec
    var impulse: Vec
    var removed: bool

    function Rec(): BodyRec
      reads this
    {
      BodyRec(shape, mass, coins, centroid, velocity, angle, force, impulse, removed)
    }

    /** `centroid` is what `polygon_centroid(shape)` returns; polygon.c is not
        part of this model. */
    constructor (shape: Shape, mass: Mass, centroid: Vec)
      ensures this.shape == shape && this.mass == mass && this.centroid == centroid
      ensures coins == 0 && velocity == Zero && angle == 0.0
      ensures force == Zero && impulse == Zero && !removed
    {
      this.shape := shape;
      this.mass := mass;
      coins := 0;
      velocity := Zero;
      angle := 0.0;
      this.centroid := centroid;
      force := Zero;
      impulse := Zero;
      removed := false;
    }

    /** An independent copy of the shape, point by point. */
    method GetShape() returns (out: seq<Vec>)
      ensures |out| == |shape|
      ensures forall i :: 0 <= i < |shape| ==> out[i] == shape[i]
    {
      out := [];
      var i := 0;
      while i < |shape|
        invariant i <= |shape|
        invariant out == shape[..i]
      {
        out := out + [shape[i]];
        i := i + 1;
      }
    }

    method SetCentroid(x: Vec)
      modifies this
      ensures Rec() == SetCentroidRec(old(Rec()), x)
    {
      var i := 0;
      while i < |shape|
        invariant i <= |shape| == |old(shape)|
        invariant forall j :: 0 <= j < i ==> shape[j] == Add(x, Sub(old(shape)[j], centroid))
        invariant forall j :: i <= j < |shape| ==> shape[j] == old(shape)[j]
        invariant Rec().(shape := old(shape)) == old(Rec())
      {
        shape := shape[i := Add(x, Sub(shape[i], centroid))];
        i := i + 1;
      }
      assert shape == MoveTo(old(shape), old(centroid), x);
      centroid := x;
    }

    /** Counts one more collected coin. */
    method SetCoins()
      modifies this
      ensures Rec() == old(Rec()).(coins := old(coins) + 1)
    {
      var newCoins := coins + 1;
      coins := newCoins;
    }

    method SetVelocity(v: Vec)
      modifies this
      ensures Rec() == old(Rec()).(velocity := v)
    {
      velocity := v;
    }

    method AddForce(f: Vec)
      modifies this
      ensures Rec() == old(Rec()).(force := Add(old(force), f))
    {
      var sum := Add(force, f);
      force := sum;
    }

    method AddImpulse(j: Vec)
      modifies this
      ensures Rec() == old(Rec()).(impulse := Add(old(impulse), j))
    {
      var sum := Add(impulse, j);
      impulse := sum;
    }

    method Tick(dt: real)
      modifies this
      ensures Rec() == TickRec(old(Rec()), dt)
    {
      var acceleration := Scale(InvMass(mass), force);
      var velocityForce := Scale(dt, acceleration);
      var velocityImpulse := Scale(InvMass(mass), impulse);
      var velocityAfter := Add(velocityForce, velocityImpulse);
      var newVelocity := Add(velocity, velocityAfter);
      var velocityDoubled := Add(velocity, newVelocity);
      var average := Scale(0.5, velocityDoubled);
      SetCentroid(Add(centroid, Scale(dt, average)));
      force := Zero;
      impulse := Zero;
      SetVelocity(newVelocity);
    }

    /** One-way: afterwards the body is removed, whatever it was before. */
    method Remove()
      modifies this
      ensures Rec() == old(Rec()).(removed := true)
    {
      if removed != true {
        removed := true;
      }
    }
  }

  /** The records of a set of bodies in the current heap. */
  ghost function Snap(S: set<Body>): (m: map<Body, BodyRec>)
    reads S
    ensures m.Keys == S
  {
    map b | b in S :: b.Rec()
  }

  /** A map that agrees with every record of `S` is `Snap(S)`. */
  lemma SnapAgree(S: set<Body>, m: map<Body, BodyRec>)
    requires m.Keys == S
    requires forall b :: b in S ==> m[b] == b.Rec()
    ensures Snap(S) == m
  { }
}
