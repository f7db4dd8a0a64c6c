/** Separating Axis Theorem test between two polygons (collision.c).

    The candidate axes are the unnormalised edge normals of both polygons, in
    order; the overlaps that pick the reflecting axis are measured along those
    unnormalised normals, as in the source. The source divides the chosen axis
    by its length before returning it; this model returns the raw normal (the
    square root is not modelled) and the one consumer of the axis, the bounce
    impulse, divides by its squared length instead. */
module Collisions {
  import opened Vectors

  /** `collision_info_t`: the verdict and, when collided, the axis. */
  datatype CollisionInfo = CollisionInfo(collided: bool, axis: Vec)

  /** The normal `(b.y - a.y, -(b.x - a.x))` of the edge from point `i` to
      point `(i + 1) mod n`. */
  function EdgeNormal(s: seq<Vec>, i: nat): Vec
    requires i < |s|
  {
    var a := s[i];
    var b := s[(i + 1) % |s|];
    Vec(b.y - a.y, -(b.x - a.x))
  }

  /** The edge normal is perpendicular to its edge and as long as it. */
  lemma EdgeNormalPerpendicular(s: seq<Vec>, i: nat)
    requires i < |s|
    ensures var edge := Sub(s[(i + 1) % |s|], s[i]);
            Dot(EdgeNormal(s, i), edge) == 0.0 && Dot(EdgeNormal(s, i), EdgeNormal(s, i)) == Dot(edge, edge)
  {
  }

  /** Axis `i` of the `|s1| + |s2|` candidates: the edges of `s1`, then those of `s2`. */
  function CandidateAxis(s1: seq<Vec>, s2: seq<Vec>, i: nat): Vec
    requires i < |s1| + |s2|
  {
    if i < |s1| then EdgeNormal(s1, i) else EdgeNormal(s2, i - |s1|)
  }

  /** The smallest projection of a point of `s` onto `n`. */
  function ProjMin(s: seq<Vec>, n: Vec): real
    requires |s| > 0
    decreases |s|
  {
    if |s| == 1 then Dot(s[0], n)
    else
      var lo := ProjMin(s[..|s| - 1], n);
      var p := Dot(s[|s| - 1], n);
      if p < lo then p else lo
  }

  /** The largest projection of a point of `s` onto `n`. */
  function ProjMax(s: seq<Vec>, n: Vec): real
    requires |s| > 0
    decreases |s|
  {
    if |s| == 1 then Dot(s[0], n)
    else
      var hi := ProjMax(s[..|s| - 1], n);
      var p := Dot(s[|s| - 1], n);
      if p > hi then p else hi
  }

  /** `ProjMin` and `ProjMax` are the minimum and the maximum of the
      projections: bounds attained by some point. */
  lemma {:induction false} ProjBounds(s: seq<Vec>, n: Vec)
    requires |s| > 0
    ensures forall j :: 0 <= j < |s| ==> ProjMin(s, n) <= Dot(s[j], n) <= ProjMax(s, n)
    ensures exists j :: 0 <= j < |s| && ProjMin(s, n) == Dot(s[j], n)
    ensures exists j :: 0 <= j < |s| && ProjMax(s, n) == Dot(s[j], n)
    decreases |s|
  {
    if |s| > 1 {
      var init := s[..|s| - 1];
      ProjBounds(init, n);
      assert forall j :: 0 <= j < |init| ==> init[j] == s[j];
      var last := |s| - 1;
      if Dot(s[last], n) < ProjMin(init, n) {
        assert ProjMin(s, n) == Dot(s[last], n);
      } else {
        var k :| 0 <= k < |init| && ProjMin(init, n) == Dot(init[k], n);
        assert ProjMin(s, n) == Dot(s[k], n);
      }
      if Dot(s[last], n) > ProjMax(init, n) {
        assert ProjMax(s, n) == Dot(s[last], n);
      } else {
        var k :| 0 <= k < |init| && ProjMax(init, n) == Dot(init[k], n);
        assert ProjMax(s, n) == Dot(s[k], n);
      }
    } else {
      assert ProjMin(s, n) == Dot(s[0], n) == ProjMax(s, n);
    }
  }

  /** The projection intervals of the two shapes onto `n` do not meet. */
  predicate SeparatedOn(s1: seq<Vec>, s2: seq<Vec>, n: Vec)
    requires |s1| > 0 && |s2| > 0
  {
    ProjMax(s1, n) < ProjMin(s2, n) || ProjMax(s2, n) < ProjMin(s1, n)
  }

  /** The overlap the source compares across axes: `max_2 - min_1` when
      `max_1 >= max_2`, `max_1 - min_2` otherwise. */
  function Overlap(s1: seq<Vec>, s2: seq<Vec>, n: Vec): real
    requires |s1| > 0 && |s2| > 0
  {
    if ProjMax(s1, n) >= ProjMax(s2, n) then ProjMax(s2, n) - ProjMin(s1, n)
    else ProjMax(s1, n) - ProjMin(s2, n)
  }

  /** On an axis that does not separate the shapes the overlap is not
      negative. It is never less than the length of the intersection of the
      two intervals, and equals it unless one interval strictly contains the
      other. */
  lemma OverlapMeet(s1: seq<Vec>, s2: seq<Vec>, n: Vec)
    requires |s1| > 0 && |s2| > 0
    ensures !SeparatedOn(s1, s2, n) ==> Overlap(s1, s2, n) >= 0.0
    ensures Overlap(s1, s2, n) >= Meet(s1, s2, n)
    ensures (ProjMax(s1, n) >= ProjMax(s2, n) <==> ProjMin(s1, n) >= ProjMin(s2, n)) ==>
              Overlap(s1, s2, n) == Meet(s1, s2, n)
  {
  }

  /** The length of the intersection of the two projection intervals onto
      `n` (negative when they are apart). */
  function Meet(s1: seq<Vec>, s2: seq<Vec>, n: Vec): real
    requires |s1| > 0 && |s2| > 0
  {
    var hi := if ProjMax(s1, n) <= ProjMax(s2, n) then ProjMax(s1, n) else ProjMax(s2, n);
    var lo := if ProjMin(s1, n) >= ProjMin(s2, n) then ProjMin(s1, n) else ProjMin(s2, n);
    hi - lo
  }

  predicate SeparatedAt(s1: seq<Vec>, s2: seq<Vec>, i: nat)
    requires |s1| > 0 && |s2| > 0 && i < |s1| + |s2|
  {
    SeparatedOn(s1, s2, CandidateAxis(s1, s2, i))
  }

  function OverlapAt(s1: seq<Vec>, s2: seq<Vec>, i: nat): real
    requires |s1| > 0 && |s2| > 0 && i < |s1| + |s2|
  {
    Overlap(s1, s2, CandidateAxis(s1, s2, i))
  }

  /** The overlaps of all `|s1| + |s2|` candidate axes, in order. */
  function Overlaps(s1: seq<Vec>, s2: seq<Vec>): (ov: seq<real>)
    requires |s1| > 0 && |s2| > 0
    ensures |ov| == |s1| + |s2|
  {
    seq(|s1| + |s2|, i requires 0 <= i < |s1| + |s2| => OverlapAt(s1, s2, i))
  }

  /** The first of the positions `0 .. m-1` of `xs` holding the smallest value. */
  function ArgMin(xs: seq<real>, m: nat): (k: nat)
    requires 1 <= m <= |xs|
    ensures k < m
    ensures forall j :: 0 <= j < m ==> xs[k] <= xs[j]
    ensures forall j :: 0 <= j < k ==> xs[k] < xs[j]
  {
    if m == 1 then 0
    else
      var k := ArgMin(xs, m - 1);
      if xs[m - 1] < xs[k] then m - 1 else k
  }

  /** The result of `find_collision`: collided exactly when no candidate axis
      separates the shapes, and then the axis is the first one of minimum
      overlap. */
  function Detect(s1: seq<Vec>, s2: seq<Vec>): (info: CollisionInfo)
    requires |s1| > 0 && |s2| > 0
    ensures info.collided <==> forall i :: 0 <= i < |s1| + |s2| ==> !SeparatedAt(s1, s2, i)
    ensures info.collided ==>
              exists k :: 0 <= k < |s1| + |s2| && info.axis == CandidateAxis(s1, s2, k) &&
                (forall j :: 0 <= j < |s1| + |s2| ==> Overlaps(s1, s2)[k] <= Overlaps(s1, s2)[j]) &&
                (forall j :: 0 <= j < k ==> Overlaps(s1, s2)[k] < Overlaps(s1, s2)[j])
    ensures !info.collided ==> info.axis == Zero
  {
    if forall i :: 0 <= i < |s1| + |s2| ==> !SeparatedAt(s1, s2, i) then
      CollisionInfo(true, CandidateAxis(s1, s2, ArgMin(Overlaps(s1, s2), |s1| + |s2|)))
    else
      CollisionInfo(false, Zero)
  }

  /** An axis separates the shapes exactly when every point of one projects
      strictly below every point of the other. */
  lemma {:induction false} SeparatedMeansApart(s1: seq<Vec>, s2: seq<Vec>, n: Vec)
    requires |s1| > 0 && |s2| > 0
    ensures SeparatedOn(s1, s2, n) <==>
              (forall i, j :: 0 <= i < |s1| && 0 <= j < |s2| ==> Dot(s1[i], n) < Dot(s2[j], n)) ||
              (forall i, j :: 0 <= i < |s1| && 0 <= j < |s2| ==> Dot(s2[j], n) < Dot(s1[i], n))
  {
    ProjBounds(s1, n);
    ProjBounds(s2, n);
    var max1 :| 0 <= max1 < |s1| && ProjMax(s1, n) == Dot(s1[max1], n);
    var min1 :| 0 <= min1 < |s1| && ProjMin(s1, n) == Dot(s1[min1], n);
    var max2 :| 0 <= max2 < |s2| && ProjMax(s2, n) == Dot(s2[max2], n);
    var min2 :| 0 <= min2 < |s2| && ProjMin(s2, n) == Dot(s2[min2], n);
    if (forall i, j :: 0 <= i < |s1| && 0 <= j < |s2| ==> Dot(s1[i], n) < Dot(s2[j], n)) {
      assert Dot(s1[max1], n) < Dot(s2[min2], n);
    }
    if (forall i, j :: 0 <= i < |s1| && 0 <= j < |s2| ==> Dot(s2[j], n) < Dot(s1[i], n)) {
      assert Dot(s2[max2], n) < Dot(s1[min1], n);
    }
  }

  /** The minimum and maximum projections of `s` onto `n`, as the two inner
      loops of `find_collision` compute them. */
  method Project(s: seq<Vec>, n: Vec) returns (lo: real, hi: real)
    requires |s| > 0
    ensures lo == ProjMin(s, n) && hi == ProjMax(s, n)
    ensures lo <= hi
  {
    // The source starts from INFINITY and -INFINITY; its first comparisons
    // always succeed, so starting from the first point gives the same values.
    lo, hi := Dot(s[0], n), Dot(s[0], n);
    var j := 1;
    while j < |s|
      invariant 1 <= j <= |s|
      invariant lo == ProjMin(s[..j], n) && hi == ProjMax(s[..j], n)
    {
      assert s[..j + 1][..j] == s[..j];
      var p := Dot(s[j], n);
      if p < lo {
        lo := p;
      }
      if p > hi {
        hi := p;
      }
      j := j + 1;
    }
    assert s[..j] == s;
    ProjBounds(s, n);
  }

  /** One pass of the outer loop of `find_collision`: the normal of edge `i`,
      whether it separates the shapes and, if not, the overlap along it. */
  method TestAxis(s1: seq<Vec>, s2: seq<Vec>, i: nat) returns (normal: Vec, separated: bool, overlap: real)
    requires |s1| > 0 && |s2| > 0 && i < |s1| + |s2|
    ensures normal == CandidateAxis(s1, s2, i)
    ensures separated <==> SeparatedAt(s1, s2, i)
    ensures !separated ==> overlap == Overlaps(s1, s2)[i]
  {
    var n1, n2 := |s1|, |s2|;
    if i < n1 {
      var a, b := s1[i], s1[(i + 1) % n1];
      normal := Vec(b.y - a.y, -(b.x - a.x));
    } else {
      var a, b := s2[i - n1], s2[(i - n1 + 1) % n2];
      normal := Vec(b.y - a.y, -(b.x - a.x));
    }
    var min1, max1 := Project(s1, normal);
    var min2, max2 := Project(s2, normal);
    separated := max1 < min2 || max2 < min1;
    overlap := if max1 >= max2 then max2 - min1 else max1 - min2;
  }

  method FindCollision(s1: seq<Vec>, s2: seq<Vec>) returns (info: CollisionInfo)
    requires |s1| > 0 && |s2| > 0
    ensures info == Detect(s1, s2)
  {
    // `minimumOverlap` stands for INFINITY until `haveOverlap` is set.
    var minimumOverlap: real := 0.0;
    var haveOverlap := false;
    var reflectingAxis := Zero;
    ghost var best: nat := 0;
    ghost var ov := Overlaps(s1, s2);
    var i := 0;
    while i < |s1| + |s2|
      invariant 0 <= i <= |s1| + |s2|
      invariant forall j :: 0 <= j < i ==> !SeparatedAt(s1, s2, j)
      invariant haveOverlap <==> i > 0
      invariant i > 0 ==> best == ArgMin(ov, i) && minimumOverlap == ov[best]
      invariant i > 0 ==> reflectingAxis == CandidateAxis(s1, s2, best)
    {
      var normal, separated, overlap := TestAxis(s1, s2, i);
      if separated {
        assert !(forall j :: 0 <= j < |s1| + |s2| ==> !SeparatedAt(s1, s2, j));
        return CollisionInfo(false, Zero);
      }
      assert overlap == ov[i];
      assert i > 0 ==> ArgMin(ov, i + 1) == if ov[i] < ov[best] then i else best;
      forall j | 0 <= j <= i
        ensures !SeparatedAt(s1, s2, j)
      {
        if j == i {
          assert !separated;
        }
      }
      if !haveOverlap || overlap < minimumOverlap {
        reflectingAxis := normal;
        minimumOverlap := overlap;
        best := i;
      }
      haveOverlap := true;
      i := i + 1;
    }
    assert best == ArgMin(Overlaps(s1, s2), |s1| + |s2|);
    info := CollisionInfo(true, reflectingAxis);
  }

  /** `collision_checker`: the verdict of one `find_collision`. */
  method CollisionChecker(s1: seq<Vec>, s2: seq<Vec>) returns (collided: bool)
    requires |s1| > 0 && |s2| > 0
    ensures collided == Detect(s1, s2).collided
    ensures collided <==> forall i :: 0 <= i < |s1| + |s2| ==> !SeparatedAt(s1, s2, i)
  {
    var info := FindCollision(s1, s2);
    collided := info.collided;
  }

  /** `collision_vec`: the axis of one `find_collision`. */
  method CollisionVec(s1: seq<Vec>, s2: seq<Vec>) returns (axis: Vec)
    requires |s1| > 0 && |s2| > 0
    ensures axis == Detect(s1, s2).axis
  {
    var info := FindCollision(s1, s2);
    axis := info.axis;
  }
}
