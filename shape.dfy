/** The closed polygon that gives an entity its look and its collision box:
    local vertices, the line indices that draw it, and the pose (position,
    rotation in degrees, scale) it is drawn and checked for collisions at. */
module Shapes {
  import opened Utils
  import opened Transform

  /** The line indices of a closed polygon with n vertices:
      [0, 1, 1, 2, ..., n - 1, n - 1, 0]. One vertex gives [0]. */
  function Indices(n: nat): seq<nat>
  {
    if n == 0 then []
    else if n == 1 then [0]
    else Edges(n, n)
  }

  /** The first m edges of a polygon with n vertices, as index pairs: edge
      k joins vertex k to vertex k + 1, the last wrapping round to 0. */
  function Edges(n: nat, m: nat): seq<nat>
    requires 1 <= n && m <= n
  {
    if m == 0 then [] else Edges(n, m - 1) + [m - 1, if m == n then 0 else m]
  }

  lemma {:induction false} EdgesPattern(n: nat, m: nat)
    requires 1 <= n && m <= n
    ensures |Edges(n, m)| == 2 * m
    ensures forall k :: 0 <= k < m ==> Edges(n, m)[2 * k] == k && Edges(n, m)[2 * k + 1] == (k + 1) % n
  {
    if m > 0 {
      EdgesPattern(n, m - 1);
    }
  }

  /** Each pair of indices is one edge: edge k joins vertex k to vertex
      k + 1, and the last edge joins vertex n - 1 back to vertex 0. Every
      index names a vertex. */
  lemma IndicesPattern(n: nat)
    ensures n >= 2 ==> |Indices(n)| == 2 * n
    ensures n < 2 ==> |Indices(n)| == n
    ensures n >= 2 ==> forall k :: 0 <= k < n ==>
              Indices(n)[2 * k] == k && Indices(n)[2 * k + 1] == (k + 1) % n
    ensures forall j :: 0 <= j < |Indices(n)| ==> Indices(n)[j] < n
  {
    if n >= 2 {
      EdgesPattern(n, n);
      forall j | 0 <= j < 2 * n ensures Indices(n)[j] < n {
        assert j == 2 * (j / 2) || j == 2 * (j / 2) + 1;
      }
    }
  }

  /** One more edge: from vertex m - 1 to the next, vertex 0 after the last. */
  lemma EdgesStep(n: nat, m: nat)
    requires 1 <= m <= n
    ensures Edges(n, m) == Edges(n, m - 1) + [m - 1] + [if m == n then 0 else m]
  {
    assert [m - 1, if m == n then 0 else m] == [m - 1] + [if m == n then 0 else m];
  }

  /** `__gen_indices`. */
  method GenIndices(n: nat) returns (indices: seq<nat>)
    ensures indices == Indices(n)
  {
    indices := [];
    var i := 0;
    while i < n
      invariant 0 <= i <= n
      invariant i == 0 ==> indices == []
      invariant 0 < i < n ==> indices == Edges(n, i - 1) + [i - 1]
      invariant i == n && n > 0 ==> indices == Indices(n)
    {
      if i == 0 {
        indices := indices + [0];
      } else if i == n - 1 {
        EdgesStep(n, i);
        EdgesStep(n, n);
        indices := indices + [i, i, 0];
      } else {
        EdgesStep(n, i);
        indices := indices + [i, i];
      }
      i := i + 1;
    }
  }

  /** The vertices a flat tuple (x0, y0, x1, y1, ...) describes; an odd
      trailing number is ignored. */
  function VectorsOf(verts: seq<real>): (vs: seq<Vector>)
    ensures |vs| == |verts| / 2
  {
    seq(|verts| / 2, k requires 0 <= k < |verts| / 2 => Vector(verts[2 * k], verts[2 * k + 1]))
  }

  /** `__get_vectors` (`__gen_vectors` in utils.py): it walks the index list
      two at a time and reads one vertex per step. */
  method GetVectors(verts: seq<real>, indices: seq<nat>) returns (vs: seq<Vector>)
    requires indices == Indices(|verts| / 2)
    ensures vs == VectorsOf(verts)
    ensures forall k :: 0 <= k < |vs| ==> vs[k] == Vector(verts[2 * k], verts[2 * k + 1])
  {
    var n := |verts| / 2;
    IndicesPattern(n);
    vs := [];
    var i := 0;
    while i < |indices|
      invariant i % 2 == 0 && i <= 2 * n
      invariant vs == VectorsOf(verts)[..i / 2]
      decreases |indices| - i
    {
      vs := vs + [Vector(verts[i], verts[i + 1])];
      i := i + 2;
    }
    assert i / 2 == n;
  }

  /** The world-space vertices of local vertices vs at a pose: each is moved
      by the model-view matrix built from pos, rot and scale. */
  function WorldVerts(m: MathLib, vs: seq<Vector>, pos: Vector, rot: real, scale: real): (ws: seq<Vector>)
    ensures |ws| == |vs|
  {
    var mv := ModelView(pos, m.cos(rot), m.sin(rot), scale);
    seq(|vs|, i requires 0 <= i < |vs| => Apply(mv, vs[i]))
  }

  /** World vertex i is pos plus the local vertex, scaled and then rotated;
      with no rotation and scale 1 it is the local vertex moved by pos, and
      it lies |scale| times the local distance from pos. */
  lemma WorldVertex(m: MathLib, vs: seq<Vector>, pos: Vector, rot: real, scale: real, i: nat)
    requires i < |vs|
    ensures WorldVerts(m, vs, pos, rot, scale)[i]
         == Add(pos, Rotate(Scale(vs[i], scale), m.cos(rot), m.sin(rot)))
    ensures m.TrigSound() && rot == 0.0 && scale == 1.0 ==>
              WorldVerts(m, vs, pos, rot, scale)[i] == Add(vs[i], pos)
    ensures m.Sound() && m.TrigSound() ==>
              Length(m, Sub(WorldVerts(m, vs, pos, rot, scale)[i], pos)) == Abs(scale) * Length(m, vs[i])
  {
    ModelViewApply(pos, m.cos(rot), m.sin(rot), scale, vs[i]);
    if m.TrigSound() && rot == 0.0 && scale == 1.0 {
      IdentityPose(pos, vs[i]);
    }
    if m.Sound() && m.TrigSound() {
      WorldDistance(m, pos, m.cos(rot), m.sin(rot), scale, vs[i]);
    }
  }

  /** The largest element of a non-empty sequence, Python's `max`. */
  function MaxOf(s: seq<real>): real
    requires |s| > 0
  {
    if |s| == 1 then s[0]
    else
      var rest := MaxOf(s[1..]);
      if s[0] >= rest then s[0] else rest
  }

  /** MaxOf bounds every element and is one of them. */
  lemma {:induction false} MaxOfIsMax(s: seq<real>)
    requires |s| > 0
    ensures forall i :: 0 <= i < |s| ==> s[i] <= MaxOf(s)
    ensures exists i :: 0 <= i < |s| && s[i] == MaxOf(s)
  {
    if |s| > 1 {
      MaxOfIsMax(s[1..]);
      assert forall i :: 1 <= i < |s| ==> s[i] == s[1..][i - 1];
      if s[0] < MaxOf(s[1..]) {
        var j :| 0 <= j < |s[1..]| && s[1..][j] == MaxOf(s[1..]);
        assert s[j + 1] == MaxOf(s);
      } else {
        assert s[0] == MaxOf(s);
      }
    }
  }

  /** The vertices scaled by k. */
  function ScaledVerts(vs: seq<Vector>, k: real): (ws: seq<Vector>)
    ensures |ws| == |vs|
  {
    seq(|vs|, i requires 0 <= i < |vs| => Scale(vs[i], k))
  }

  /** The distance of each vector from the origin, `[v.length() for v in ws]`. */
  function Lengths(m: MathLib, ws: seq<Vector>): (r: seq<real>)
    ensures |r| == |ws|
  {
    seq(|ws|, i requires 0 <= i < |ws| => Length(m, ws[i]))
  }

  /** The effective length of a shape with local vertices vs at scale k:
      20 plus the largest distance of a scaled vertex from the origin. */
  function EffectiveLength(m: MathLib, vs: seq<Vector>, k: real): real
    requires |vs| > 0
  {
    20.0 + MaxOf(Lengths(m, ScaledVerts(vs, k)))
  }

  /** `__get_effective_length`. */
  method GetEffectiveLength(m: MathLib, vs: seq<Vector>, scale: real) returns (len: real)
    requires |vs| > 0
    ensures len == EffectiveLength(m, vs, scale)
  {
    var mv := ScaleOnly(scale);
    var transVerts := [];
    var i := 0;
    while i < |vs|
      invariant 0 <= i <= |vs|
      invariant transVerts == ScaledVerts(vs, scale)[..i]
    {
      ScaleOnlyApply(scale, vs[i]);
      transVerts := transVerts + [Apply(mv, vs[i])];
      i := i + 1;
    }
    assert transVerts == ScaledVerts(vs, scale);
    len := 20.0 + MaxOf(Lengths(m, transVerts));
  }

  /** The effective length is at least 20 more than the distance of every
      scaled vertex from the origin, and exactly 20 more for one of them;
      so with a sound square root it is at least 20. */
  lemma EffectiveLengthBounds(m: MathLib, vs: seq<Vector>, k: real)
    requires |vs| > 0
    ensures forall i :: 0 <= i < |vs| ==> EffectiveLength(m, vs, k) >= 20.0 + Length(m, Scale(vs[i], k))
    ensures exists i :: 0 <= i < |vs| && EffectiveLength(m, vs, k) == 20.0 + Length(m, Scale(vs[i], k))
    ensures m.Sound() ==> EffectiveLength(m, vs, k) >= 20.0
  {
    var ls := Lengths(m, ScaledVerts(vs, k));
    assert forall i :: 0 <= i < |vs| ==> ls[i] == Length(m, Scale(vs[i], k));
    MaxOfIsMax(ls);
    var j :| 0 <= j < |ls| && ls[j] == MaxOf(ls);
    assert ls[j] == Length(m, Scale(vs[j], k));
    if m.Sound() {
      LengthZero(m, Scale(vs[0], k));
    }
  }

  class Shape {
    /** The flat vertex tuple. */
    const verts: seq<real>
    const numVerts: nat
    const indices: seq<nat>
    var pos: Vector
    var rot: real
    var scale: real
    /** Fixed when the shape is made, from the scale it is made with. */
    var effectiveLength: real

    ghost predicate Valid()
    {
      numVerts == |verts| / 2 && numVerts >= 1 && indices == Indices(numVerts)
    }

    /** The local vertices. */
    function Vectors(): seq<Vector> { VectorsOf(verts) }

    /** `Shape(verts, pos, rot, scale)` of shape.py. Python's `max` raises
        ValueError on a shape without vertices, so a shape needs one. */
    constructor (m: MathLib, verts: seq<real>, pos: Vector, rot: real, scale: real)
      requires |verts| >= 2
      ensures Valid()
      ensures this.verts == verts && this.pos == pos && this.rot == rot && this.scale == scale
      ensures effectiveLength == EffectiveLength(m, Vectors(), scale)
    {
      var n := |verts| / 2;
      this.verts := verts;
      numVerts := n;
      var idx := GenIndices(n);
      indices := idx;
      this.pos := pos;
      this.rot := rot;
      this.scale := scale;
      var vs := GetVectors(verts, idx);
      var len := GetEffectiveLength(m, vs, scale);
      effectiveLength := len;
    }

    /** `__get_transformed_verts`: one world vertex per local vertex, in
        order. */
    method TransformedVerts(m: MathLib) returns (ws: seq<Vector>)
      requires Valid()
      ensures ws == WorldVerts(m, Vectors(), pos, rot, scale)
      ensures |ws| == numVerts
    {
      var mv := ModelView(pos, m.cos(rot), m.sin(rot), scale);
      var vs := GetVectors(verts, indices);
      ws := [];
      var i := 0;
      while i < |vs|
        invariant 0 <= i <= |vs|
        invariant ws == WorldVerts(m, vs, pos, rot, scale)[..i]
      {
        ws := ws + [Apply(mv, vs[i])];
        i := i + 1;
      }
    }

    /** `update`: the new pose; the vertices and the effective length stay. */
    method Update(pos: Vector, rot: real, scale: real)
      modifies this
      ensures this.pos == pos && this.rot == rot && this.scale == scale
      ensures effectiveLength == old(effectiveLength)
    {
      this.pos := pos;
      this.rot := rot;
      this.scale := scale;
    }

    /** `collides`: the two polygons at their current poses collide exactly
        when no edge normal of either separates them. */
    method Collides(m: MathLib, other: Shape) returns (hit: bool)
      requires Valid() && other.Valid()
      ensures hit == NoSeparatingAxis(m, WorldVerts(m, Vectors(), pos, rot, scale),
                                      WorldVerts(m, other.Vectors(), other.pos, other.rot, other.scale))
    {
      var verts1 := TransformedVerts(m);
      var verts2 := other.TransformedVerts(m);
      var axes1 := GenerateAxes(m, verts1);
      var axes2 := GenerateAxes(m, verts2);
      hit := SeparatingAxisTest(verts1, verts2, axes1, axes2);
    }
  }
}
