/** The scene (scene.c): the list of bodies, the list of registered forces and
    the four phases of `scene_tick`.

    The two lists are fields of type `seq` that the methods reassign; the
    bodies and the collision states they point to live in the heap, in the
    sets `S` and `A` that a tick is given. A tick is specified by three pure
    functions: `RunForces` (every callback once, in registration order),
    `TickAll` (every body once, in list order) and `Keep` (the order-preserving
    filter that the two pruning loops compute). */
module Scenes {
  import opened Vectors
  import opened SizeT
  import opened Bodies
  import opened Forces

  /** The elements of `s` that are not in `dropped`, in their order in `s`. */
  ghost function Keep<T>(s: seq<T>, dropped: iset<T>): (r: seq<T>)
    ensures |r| <= |s|
    ensures forall i :: 0 <= i < |r| ==> r[i] !in dropped
    decreases |s|
  {
    if |s| == 0 then []
    else if s[|s| - 1] !in dropped then Keep(s[..|s| - 1], dropped) + [s[|s| - 1]]
    else Keep(s[..|s| - 1], dropped)
  }

  /** Keeping is done element by element, so it distributes over appending one
      more element. */
  lemma KeepSnoc<T>(s: seq<T>, x: T, dropped: iset<T>)
    ensures Keep(s + [x], dropped) == if x !in dropped then Keep(s, dropped) + [x] else Keep(s, dropped)
  {
    assert (s + [x])[..|s + [x]| - 1] == s;
  }

  /** One step of a sweep that deletes in place. The list is the kept part
      of the visited elements `done` followed by the unvisited ones `rest`;
      the cursor stands on the first of `rest`. Keeping it advances the
      cursor, deleting it leaves the cursor where it is. */
  lemma SweepStep<T>(done: seq<T>, rest: seq<T>, dropped: iset<T>, cur: seq<T>)
    requires |rest| > 0 && cur == Keep(done, dropped) + rest
    ensures |Keep(done, dropped)| < |cur| && cur[|Keep(done, dropped)|] == rest[0]
    ensures rest[0] !in dropped ==>
              cur == Keep(done + [rest[0]], dropped) + rest[1..] &&
              |Keep(done + [rest[0]], dropped)| == |Keep(done, dropped)| + 1
    ensures rest[0] in dropped ==>
              cur[..|Keep(done, dropped)|] + cur[|Keep(done, dropped)| + 1..] ==
                Keep(done + [rest[0]], dropped) + rest[1..] &&
              |Keep(done + [rest[0]], dropped)| == |Keep(done, dropped)|
  {
    KeepSnoc(done, rest[0], dropped);
    assert rest == [rest[0]] + rest[1..];
    var f := |Keep(done, dropped)|;
    assert cur[..f] == Keep(done, dropped);
    assert cur[f + 1..] == rest[1..];
  }

  /** One step of a sweep with a `size_t` cursor `f` at the first
      unvisited element: on `drop` the element is deleted and `f--` wraps
      at 0; then the loop's `f++` moves on. */
  method SweepAt<T>(list: seq<T>, f: nat, drop: bool, ghost done: seq<T>, ghost rest: seq<T>,
                    ghost dropped: iset<T>) returns (list': seq<T>, f': nat)
    requires |rest| > 0 && list == Keep(done, dropped) + rest && f == |Keep(done, dropped)|
    requires |list| <= SIZE_MAX && (drop <==> rest[0] in dropped)
    ensures list' == Keep(done + [rest[0]], dropped) + rest[1..]
    ensures f' == |Keep(done + [rest[0]], dropped)| && |list'| <= SIZE_MAX
  {
    SweepStep(done, rest, dropped, list);
    list', f' := list, f;
    if drop {
      list' := list[..f] + list[f + 1..];
      f' := WrapDec(f);
    }
    f' := WrapInc(f');
  }

  /** Nothing dropped survives, and everything else in `s` does. */
  lemma {:induction false} KeepMembers<T>(s: seq<T>, dropped: iset<T>)
    ensures forall x :: x in Keep(s, dropped) <==> x in s && x !in dropped
    decreases |s|
  {
    if |s| > 0 {
      var init := s[..|s| - 1];
      KeepMembers(init, dropped);
      assert s == init + [s[|s| - 1]];
    }
  }

  /** The positions in `s` of the elements that `Keep` retains: increasing,
      and exactly the positions of the elements not dropped. */
  ghost function KeptIndices<T>(s: seq<T>, dropped: iset<T>): (idx: seq<nat>)
    ensures |idx| == |Keep(s, dropped)|
    ensures forall i :: 0 <= i < |idx| ==> idx[i] < |s| && Keep(s, dropped)[i] == s[idx[i]]
    ensures forall i, j :: 0 <= i < j < |idx| ==> idx[i] < idx[j]
    ensures forall k :: 0 <= k < |s| ==> (k in idx <==> s[k] !in dropped)
    decreases |s|
  {
    if |s| == 0 then []
    else
      var init := s[..|s| - 1];
      var rest := KeptIndices(init, dropped);
      assert forall i :: 0 <= i < |init| ==> init[i] == s[i];
      if s[|s| - 1] !in dropped then rest + [|s| - 1] else rest
  }

  /** A registered force is pruned when some body of its bound list is
      marked removed. */
  predicate Doomed(e: Force, m: map<Body, BodyRec>)
  {
    exists i :: 0 <= i < |e.bodies| && e.bodies[i] in m && m[e.bodies[i]].removed
  }

  /** A force registered with an empty body list is never pruned. */
  lemma UnboundNeverDoomed(e: Force, m: map<Body, BodyRec>)
    requires e.bodies == []
    ensures !Doomed(e, m)
  {
  }

  /** Every body the entry is bound to is in `S`. */
  predicate BoundIn(e: Force, S: set<Body>)
  {
    forall j :: 0 <= j < |e.bodies| ==> e.bodies[j] in S
  }

  /** On the records of the current heap, an entry is doomed exactly when one
      of its bound bodies is marked removed. */
  lemma DoomedOnSnap(e: Force, S: set<Body>)
    requires BoundIn(e, S)
    ensures Doomed(e, Snap(S)) <==> exists i :: 0 <= i < |e.bodies| && e.bodies[i].removed
  {
    if exists i :: 0 <= i < |e.bodies| && e.bodies[i].removed {
      var i :| 0 <= i < |e.bodies| && e.bodies[i].removed;
      assert e.bodies[i] in Snap(S);
    }
  }

  /** The forces of `fs` that the force sweep deletes. */
  ghost function DoomedIn(fs: seq<Force>, m: map<Body, BodyRec>): iset<Force>
  {
    iset e | e in fs && Doomed(e, m)
  }

  /** The bodies that the body sweep deletes. */
  ghost function RemovedIn(m: map<Body, BodyRec>): iset<Body>
  {
    iset b | b in m && m[b].removed
  }

  /** The forces that survive the force sweep of a tick. */
  ghost function LiveForces(fs: seq<Force>, m: map<Body, BodyRec>): seq<Force>
  {
    Keep(fs, DoomedIn(fs, m))
  }

  /** The bodies that survive the body sweep of a tick. */
  ghost function LiveBodies(bs: seq<Body>, m: map<Body, BodyRec>): seq<Body>
  {
    Keep(bs, RemovedIn(m))
  }

  /** Every generator of `fs` touches only what the world holds. */
  predicate AllCovered(fs: seq<Force>, w: World)
  {
    forall i :: 0 <= i < |fs| ==> Covers(w, fs[i].generator)
  }

  /** Phase 1 of a tick: the callbacks of `fs`, in order. */
  function RunForces(fs: seq<Force>, w: World, sqrt: real -> real): (w': World)
    requires IsSqrt(sqrt) && AllCovered(fs, w)
    ensures w'.bodies.Keys == w.bodies.Keys && w'.flags.Keys == w.flags.Keys
    decreases |fs|
  {
    if |fs| == 0 then w
    else
      var before := RunForces(fs[..|fs| - 1], w, sqrt);
      EntryStep(fs[|fs| - 1].generator, before, sqrt)
  }

  /** Running one more force is one more callback. */
  lemma RunForcesSnoc(fs: seq<Force>, e: Force, w: World, sqrt: real -> real)
    requires IsSqrt(sqrt) && AllCovered(fs + [e], w)
    ensures AllCovered(fs, w) && Covers(RunForces(fs, w, sqrt), e.generator)
    ensures RunForces(fs + [e], w, sqrt) == EntryStep(e.generator, RunForces(fs, w, sqrt), sqrt)
  {
    assert (fs + [e])[..|fs + [e]| - 1] == fs;
    assert forall i :: 0 <= i < |fs| ==> fs[i] == (fs + [e])[i];
    assert (fs + [e])[|fs|] == e;
  }

  /** Running the first `d + 1` forces is running the first `d`, then
      force `d`. */
  lemma RunForcesNext(fs: seq<Force>, d: nat, w: World, sqrt: real -> real)
    requires IsSqrt(sqrt) && AllCovered(fs, w) && d < |fs|
    ensures AllCovered(fs[..d], w) && AllCovered(fs[..d + 1], w)
    ensures Covers(RunForces(fs[..d], w, sqrt), fs[d].generator)
    ensures RunForces(fs[..d + 1], w, sqrt) == EntryStep(fs[d].generator, RunForces(fs[..d], w, sqrt), sqrt)
  {
    assert fs[..d + 1] == fs[..d] + [fs[d]];
    RunForcesSnoc(fs[..d], fs[d], w, sqrt);
  }

  /** With no collision force registered, the forces of a tick never touch
      a collision flag. */
  lemma {:induction false} RunForcesKeepsFlags(fs: seq<Force>, w: World, sqrt: real -> real)
    requires IsSqrt(sqrt) && AllCovered(fs, w)
    requires forall i :: 0 <= i < |fs| ==> !fs[i].generator.CollisionForce?
    ensures RunForces(fs, w, sqrt).flags == w.flags
    decreases |fs|
  {
    if |fs| > 0 {
      RunForcesKeepsFlags(fs[..|fs| - 1], w, sqrt);
    }
  }

  /** Phase 2 of a tick: `body_tick` on each body of `bs`, in order. */
  function TickAll(bs: seq<Body>, m: map<Body, BodyRec>, dt: real): (m': map<Body, BodyRec>)
    requires forall i :: 0 <= i < |bs| ==> bs[i] in m
    ensures m'.Keys == m.Keys
    decreases |bs|
  {
    if |bs| == 0 then m
    else
      var before := TickAll(bs[..|bs| - 1], m, dt);
      var b := bs[|bs| - 1];
      before[b := TickRec(before[b], dt)]
  }

  /** Ticking the first `i + 1` bodies is ticking the first `i`, then
      body `i`. */
  lemma TickAllNext(bs: seq<Body>, i: nat, m: map<Body, BodyRec>, dt: real)
    requires i < |bs| && forall j :: 0 <= j < |bs| ==> bs[j] in m
    ensures var before := TickAll(bs[..i], m, dt);
            bs[i] in before && TickAll(bs[..i + 1], m, dt) == before[bs[i] := TickRec(before[bs[i]], dt)]
  {
    assert bs[..i + 1][..i] == bs[..i];
  }

  /** When no body is listed twice, each listed body is ticked exactly once
      and every other body is left as it was. */
  lemma {:induction false} TickAllOnce(bs: seq<Body>, m: map<Body, BodyRec>, dt: real, b: Body)
    requires forall i :: 0 <= i < |bs| ==> bs[i] in m
    requires forall i, j :: 0 <= i < j < |bs| ==> bs[i] != bs[j]
    requires b in m
    ensures TickAll(bs, m, dt)[b] == if b in bs then TickRec(m[b], dt) else m[b]
    decreases |bs|
  {
    if |bs| > 0 {
      var init := bs[..|bs| - 1];
      TickAllOnce(init, m, dt, b);
      assert bs == init + [bs[|bs| - 1]];
      if b == bs[|bs| - 1] {
        assert b !in init;
      }
    }
  }

  /** Ticking never changes whether a body is removed. */
  lemma {:induction false} TickAllKeepsRemoved(bs: seq<Body>, m: map<Body, BodyRec>, dt: real)
    requires forall i :: 0 <= i < |bs| ==> bs[i] in m
    ensures forall b :: b in m ==> TickAll(bs, m, dt)[b].removed == m[b].removed
    decreases |bs|
  {
    if |bs| > 0 {
      TickAllKeepsRemoved(bs[..|bs| - 1], m, dt);
    }
  }

  /** Everything the registered forces and the listed bodies reach is in
      `S` and `A`. */
  predicate Reaches(fs: seq<Force>, bs: seq<Body>, S: set<Body>, A: set<CollisionAux>)
  {
    && (forall i :: 0 <= i < |fs| ==>
          GeneratorBodies(fs[i].generator) <= S &&
          (fs[i].generator.CollisionForce? ==> fs[i].generator.aux in A) &&
          BoundIn(fs[i], S))
    && (forall i :: 0 <= i < |bs| ==> bs[i] in S)
  }

  /** A world holding exactly the bodies `S` and the flags `A` covers every
      force that `Reaches` them. */
  lemma ReachesCovered(fs: seq<Force>, bs: seq<Body>, S: set<Body>, A: set<CollisionAux>, w: World)
    requires Reaches(fs, bs, S, A) && w.bodies.Keys == S && w.flags.Keys == A
    ensures AllCovered(fs, w)
  { }

  /** The sweeps keep only forces and bodies the lists already held, so what
      they reach stays in `S` and `A`. */
  lemma ReachesLive(fs: seq<Force>, bs: seq<Body>, S: set<Body>, A: set<CollisionAux>, m: map<Body, BodyRec>)
    requires Reaches(fs, bs, S, A)
    ensures Reaches(LiveForces(fs, m), LiveBodies(bs, m), S, A)
  {
    var lf, lb := LiveForces(fs, m), LiveBodies(bs, m);
    var fi, bi := KeptIndices(fs, DoomedIn(fs, m)), KeptIndices(bs, RemovedIn(m));
    forall i | 0 <= i < |lf|
      ensures GeneratorBodies(lf[i].generator) <= S && BoundIn(lf[i], S)
      ensures lf[i].generator.CollisionForce? ==> lf[i].generator.aux in A
    {
      assert lf[i] == fs[fi[i]];
    }
    forall i | 0 <= i < |lb|
      ensures lb[i] in S
    {
      assert lb[i] == bs[bi[i]];
    }
  }

  /** After the sweeps no listed body is marked removed, and no listed force
      is bound to a removed body. */
  lemma LiveAreClean(fs: seq<Force>, bs: seq<Body>, S: set<Body>)
    requires forall i :: 0 <= i < |fs| ==> BoundIn(fs[i], S)
    requires forall i :: 0 <= i < |bs| ==> bs[i] in S
    ensures var live := LiveBodies(bs, Snap(S));
            forall i :: 0 <= i < |live| ==> !live[i].removed
    ensures var live := LiveForces(fs, Snap(S));
            forall i, j :: 0 <= i < |live| && 0 <= j < |live[i].bodies| ==> !live[i].bodies[j].removed
  {
    var m := Snap(S);
    var lf, lb := LiveForces(fs, m), LiveBodies(bs, m);
    var fi, bi := KeptIndices(fs, DoomedIn(fs, m)), KeptIndices(bs, RemovedIn(m));
    forall i | 0 <= i < |lb|
      ensures !lb[i].removed
    {
      assert lb[i] == bs[bi[i]];
      assert lb[i] in m;
    }
    forall i, j | 0 <= i < |lf| && 0 <= j < |lf[i].bodies|
      ensures !lf[i].bodies[j].removed
    {
      assert lf[i] == fs[fi[i]];
      assert lf[i].bodies[j] in m;
    }
  }

  /** The inner loop of the force sweep: whether some body of the bound list
      is marked removed. */
  method HasRemovedBody(bs: seq<Body>) returns (found: bool)
    ensures found <==> exists i :: 0 <= i < |bs| && bs[i].removed
  {
    var b := 0;
    while b < |bs|
      invariant b <= |bs|
      invariant forall i :: 0 <= i < b ==> !bs[i].removed
    {
      if bs[b].removed == true {
        return true;
      }
      b := b + 1;
    }
    return false;
  }

  /** The test of the force sweep, on an entry whose bodies are in `S`:
      whether the sweep deletes it. */
  method IsDoomed(e: Force, ghost all: seq<Force>, ghost S: set<Body>) returns (doomed: bool)
    requires e in all && BoundIn(e, S)
    ensures doomed <==> e in DoomedIn(all, Snap(S))
  {
    DoomedOnSnap(e, S);
    doomed := HasRemovedBody(e.bodies);
  }

  /** One iteration of the force sweep: the inner loop over the bound
      bodies, then the removal and the cursor update. */
  method PruneForceAt(list: seq<Force>, f: nat, ghost done: seq<Force>, ghost rest: seq<Force>,
                      ghost all: seq<Force>, ghost S: set<Body>) returns (list': seq<Force>, f': nat)
    requires |rest| > 0 && rest[0] in all && BoundIn(rest[0], S)
    requires list == Keep(done, DoomedIn(all, Snap(S))) + rest
    requires f == |Keep(done, DoomedIn(all, Snap(S)))| && |list| <= SIZE_MAX
    ensures list' == Keep(done + [rest[0]], DoomedIn(all, Snap(S))) + rest[1..]
    ensures f' == |Keep(done + [rest[0]], DoomedIn(all, Snap(S)))| && |list'| <= SIZE_MAX
  {
    SweepStep(done, rest, DoomedIn(all, Snap(S)), list);
    var curr := list[f];
    var doomed := IsDoomed(curr, all, S);
    list', f' := SweepAt(list, f, doomed, done, rest, DoomedIn(all, Snap(S)));
  }

  class Scene {
    var bodies: seq<Body>
    var forces: seq<Force>

    /** `scene_init`: no bodies, no forces. */
    constructor ()
      ensures bodies == [] && forces == []
    {
      bodies := [];
      forces := [];
    }

    /** `scene_bodies`. */
    method BodyCount() returns (n: nat)
      ensures n == |bodies|
    {
      n := |bodies|;
    }

    /** `scene_get_body`: the list asserts that the index is in range. */
    method GetBody(index: nat) returns (b: Body)
      requires index < |bodies|
      ensures b == bodies[index]
    {
      b := bodies[index];
    }

    /** `scene_add_body`: appends, so earlier indices keep their bodies. */
    method AddBody(b: Body)
      modifies this
      ensures bodies == old(bodies) + [b] && forces == old(forces)
    {
      bodies := bodies + [b];
    }

    /** `scene_remove_body`: marks the body removed; the list is pruned only
        at the end of the next tick. */
    method RemoveBody(index: nat)
      requires index < |bodies|
      modifies bodies[index]
      ensures bodies[index].Rec() == old(bodies[index].Rec()).(removed := true)
    {
      bodies[index].Remove();
    }

    /** `scene_add_bodies_force_creator`: registers a callback bound to a
        list of bodies. */
    method AddBodiesForceCreator(g: Generator, bound: seq<Body>) returns (force: Force)
      modifies this
      ensures fresh(force) && force.generator == g && force.bodies == bound
      ensures forces == old(forces) + [force] && bodies == old(bodies)
    {
      force := new Force(g, bound);
      forces := forces + [force];
    }

    /** `scene_add_force_creator`: a callback bound to no body, which no
        sweep ever prunes (`UnboundNeverDoomed`). */
    method AddForceCreator(g: Generator) returns (force: Force)
      modifies this
      ensures fresh(force) && force.generator == g && force.bodies == []
      ensures forces == old(forces) + [force] && bodies == old(bodies)
    {
      force := AddBodiesForceCreator(g, []);
    }

    /** Phase 1: every force callback once, in registration order. */
    method ApplyForces(sqrt: real -> real, ghost S: set<Body>, ghost A: set<CollisionAux>)
      requires IsSqrt(sqrt) && Reaches(forces, bodies, S, A)
      modifies S, A
      ensures AllCovered(forces, old(WorldOf(S, A)))
      ensures WorldOf(S, A) == RunForces(forces, old(WorldOf(S, A)), sqrt)
    {
      ReachesCovered(forces, bodies, S, A, WorldOf(S, A));
      RunForceList(forces, sqrt, S, A);
    }

    /** The force loop over a list of callbacks whose bodies and collision
        states are all in the world. */
    static method RunForceList(fs: seq<Force>, sqrt: real -> real, ghost S: set<Body>, ghost A: set<CollisionAux>)
      requires IsSqrt(sqrt) && AllCovered(fs, WorldOf(S, A))
      modifies S, A
      ensures WorldOf(S, A) == RunForces(fs, old(WorldOf(S, A)), sqrt)
    {
      ghost var w0 := WorldOf(S, A);
      var d := 0;
      while d < |fs|
        invariant d <= |fs| && AllCovered(fs[..d], w0)
        invariant WorldOf(S, A) == RunForces(fs[..d], w0, sqrt)
      {
        ApplyForceAt(fs, d, w0, sqrt, S, A);
        d := d + 1;
      }
      assert fs[..d] == fs;
    }

    /** Iteration `d` of the force loop. */
    static method ApplyForceAt(fs: seq<Force>, d: nat, ghost w0: World, sqrt: real -> real,
                               ghost S: set<Body>, ghost A: set<CollisionAux>)
      requires IsSqrt(sqrt) && d < |fs| && AllCovered(fs, w0)
      requires w0.bodies.Keys == S && w0.flags.Keys == A
      requires WorldOf(S, A) == RunForces(fs[..d], w0, sqrt)
      modifies S, A
      ensures AllCovered(fs[..d + 1], w0)
      ensures WorldOf(S, A) == RunForces(fs[..d + 1], w0, sqrt)
    {
      RunForcesNext(fs, d, w0, sqrt);
      ApplyEntry(fs[d].generator, sqrt, S, A);
    }

    /** Phase 2: `body_tick` on every listed body, in list order. */
    method TickBodies(dt: real, ghost S: set<Body>)
      requires forall i :: 0 <= i < |bodies| ==> bodies[i] in S
      modifies S
      ensures Snap(S) == TickAll(bodies, old(Snap(S)), dt)
    {
      ghost var m0 := Snap(S);
      var list := bodies;
      var i := 0;
      while i < |list|
        invariant i <= |list|
        invariant Snap(S) == TickAll(list[..i], m0, dt)
      {
        TickAt(list, i, m0, dt, S);
        i := i + 1;
      }
      assert list[..i] == list;
    }

    /** One iteration of the tick loop: body `i` is ticked in place. */
    static method TickAt(list: seq<Body>, i: nat, ghost m0: map<Body, BodyRec>, dt: real, ghost S: set<Body>)
      requires i < |list| && forall j :: 0 <= j < |list| ==> list[j] in S
      requires m0.Keys == S && Snap(S) == TickAll(list[..i], m0, dt)
      modifies S
      ensures Snap(S) == TickAll(list[..i + 1], m0, dt)
    {
      var b := list[i];
      ghost var before := Snap(S);
      b.Tick(dt);
      TickAllNext(list, i, m0, dt);
      SnapAgree(S, before[b := b.Rec()]);
    }

    /** Phase 3: removes every force bound to a removed body. The index is
        a `size_t`: after a removal at index 0 it wraps to `SIZE_MAX` and the
        loop increment brings it back to 0. */
    method PruneForces(ghost S: set<Body>)
      requires |forces| <= SIZE_MAX
      requires forall i :: 0 <= i < |forces| ==> BoundIn(forces[i], S)
      modifies this`forces
      ensures forces == LiveForces(old(forces), Snap(S))
    {
      var list := forces;
      ghost var m := Snap(S);
      ghost var p := DoomedIn(old(forces), m);
      ghost var done: seq<Force> := [];
      ghost var rest := list;
      var f := 0;
      while f < |list|
        invariant old(forces) == done + rest
        invariant list == Keep(done, p) + rest
        invariant f == |Keep(done, p)| && |list| <= SIZE_MAX
        decreases |rest|
      {
        SnapAgree(S, m);
        assert old(forces)[|done|] == rest[0];
        list, f := PruneForceAt(list, f, done, rest, old(forces), S);
        assert done + rest == (done + [rest[0]]) + rest[1..];
        done, rest := done + [rest[0]], rest[1..];
      }
      assert rest == [] && done == old(forces);
      forces := list;
      SnapAgree(S, m);
    }

    /** Phase 4: removes every body marked removed, with the same `size_t`
        index wrap as phase 3. */
    method PruneBodies(ghost S: set<Body>)
      requires |bodies| <= SIZE_MAX
      requires forall i :: 0 <= i < |bodies| ==> bodies[i] in S
      modifies this`bodies
      ensures bodies == LiveBodies(old(bodies), Snap(S))
    {
      var list := bodies;
      ghost var m := Snap(S);
      ghost var p := RemovedIn(m);
      ghost var done: seq<Body> := [];
      ghost var rest := list;
      var b := 0;
      while b < |list|
        invariant old(bodies) == done + rest
        invariant list == Keep(done, p) + rest
        invariant b == |Keep(done, p)| && |list| <= SIZE_MAX
        decreases |rest|
      {
        SnapAgree(S, m);
        assert list[b] == rest[0] && old(bodies)[|done|] == rest[0];
        var curr := list[b];
        assert curr.removed <==> curr in p;
        list, b := SweepAt(list, b, curr.removed, done, rest, p);
        assert done + rest == (done + [curr]) + rest[1..];
        done, rest := done + [curr], rest[1..];
      }
      assert rest == [] && done == old(bodies);
      bodies := list;
      SnapAgree(S, m);
    }

    /** Phases 1 and 2 of a tick: the forces, then the integration step. */
    method Integrate(dt: real, sqrt: real -> real, ghost S: set<Body>, ghost A: set<CollisionAux>)
      requires IsSqrt(sqrt) && Reaches(forces, bodies, S, A)
      modifies S, A
      ensures AllCovered(forces, old(WorldOf(S, A)))
      ensures var w1 := RunForces(forces, old(WorldOf(S, A)), sqrt);
              WorldOf(S, A) == World(TickAll(bodies, w1.bodies, dt), w1.flags)
    {
      ApplyForces(sqrt, S, A);
      ghost var flags := Flags(A);
      TickBodies(dt, S);
      FlagsAgree(A, flags);
    }

    /** Phases 3 and 4 of a tick: the two sweeps, which change no body. */
    method Sweep(ghost S: set<Body>, ghost A: set<CollisionAux>)
      requires Reaches(forces, bodies, S, A)
      requires |forces| <= SIZE_MAX && |bodies| <= SIZE_MAX
      modifies this`forces, this`bodies
      ensures WorldOf(S, A) == old(WorldOf(S, A))
      ensures forces == LiveForces(old(forces), Snap(S))
      ensures bodies == LiveBodies(old(bodies), Snap(S))
    {
      ghost var w := WorldOf(S, A);
      PruneForces(S);
      SnapAgree(S, w.bodies);
      PruneBodies(S);
      SnapAgree(S, w.bodies);
      FlagsAgree(A, w.flags);
    }

    /** `scene_tick`: all forces, then all bodies, then the two sweeps. */
    method Tick(dt: real, sqrt: real -> real, ghost S: set<Body>, ghost A: set<CollisionAux>)
      requires IsSqrt(sqrt) && Reaches(forces, bodies, S, A)
      requires |forces| <= SIZE_MAX && |bodies| <= SIZE_MAX
      modifies this, S, A
      ensures AllCovered(old(forces), old(WorldOf(S, A)))
      ensures var w1 := RunForces(old(forces), old(WorldOf(S, A)), sqrt);
              WorldOf(S, A) == World(TickAll(old(bodies), w1.bodies, dt), w1.flags)
      ensures forces == LiveForces(old(forces), Snap(S))
      ensures bodies == LiveBodies(old(bodies), Snap(S))
      ensures Reaches(forces, bodies, S, A)
      ensures forall i :: 0 <= i < |bodies| ==> !bodies[i].removed
      ensures forall i, j :: 0 <= i < |forces| && 0 <= j < |forces[i].bodies| ==> !forces[i].bodies[j].removed
    {
      ghost var fs, bs := forces, bodies;
      Integrate(dt, sqrt, S, A);
      Sweep(S, A);
      ReachesLive(fs, bs, S, A, Snap(S));
      LiveAreClean(fs, bs, S);
    }
  }
}
