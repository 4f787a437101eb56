/** The mathematical side of the game: clamping, 2D vectors, 1D projections,
    and the two loops of the Separating Axis Theorem test (projecting a polygon
    onto an axis and generating the candidate axes of a polygon). */
module Utils {

  /** The parts of Python's `math` module the game relies on. They cannot be
      computed exactly over the reals, so they are passed in: `sqrt` is the
      square root, `cos` and `sin` take an angle in DEGREES (they stand for
      cos(radians(a)) and sin(radians(a))). */
  datatype MathLib = MathLib(sqrt: real -> real, cos: real -> real, sin: real -> real)
  {
    /** What the model assumes of the square root: on the non-negative
        numbers it is the non-negative number whose square is its argument. */
    ghost predicate Sound()
    {
      && (forall x {:trigger Sq(sqrt(x))} :: x >= 0.0 ==> Sq(sqrt(x)) == x)
      && (forall x :: x >= 0.0 ==> sqrt(x) >= 0.0)
      && (forall x :: x > 0.0 ==> sqrt(x) > 0.0)
      && sqrt(0.0) == 0.0
    }

    /** What the model assumes of cosine and sine. */
    ghost predicate TrigSound()
    {
      && (forall a :: Sq(cos(a)) + Sq(sin(a)) == 1.0)
      && cos(0.0) == 1.0 && sin(0.0) == 0.0
    }
  }

  /** The window size of the game. Its value is set in a part of the game's
      utilities that is not part of this model, so it is left unconstrained. */
  const WindowWidth: int
  const WindowHeight: int

  /** `clamp(x, low, high)`. */
  function Clamp(x: real, low: real, high: real): (r: real)
    ensures x < low ==> r == low
    ensures low <= x <= high ==> r == x
    ensures low <= high ==> low <= r <= high
    ensures low <= high && x > high ==> r == high
  {
    if x < low then low
    else if x > high then high
    else x
  }

  function Abs(x: real): real { if x < 0.0 then -x else x }

  function Sq(x: real): real { x * x }

  /** A value that may be missing: a failed lookup is None. */
  datatype Option<T> = None | Some(value: T)

  /** A vector in 2D space. Python's Vector is immutable in use: every
      operation builds a new one. */
  datatype Vector = Vector(x: real, y: real)

  function Zero(): Vector { Vector(0.0, 0.0) }

  function Add(a: Vector, b: Vector): Vector { Vector(a.x + b.x, a.y + b.y) }

  function Sub(a: Vector, b: Vector): Vector { Vector(a.x - b.x, a.y - b.y) }

  /** `v * k` and `k * v` (`__mul__` and `__rmul__`). */
  function Scale(v: Vector, k: real): Vector { Vector(v.x * k, v.y * k) }

  function Dot(a: Vector, b: Vector): real { a.x * b.x + a.y * b.y }

  /** x * x + y * y. It is a function of the two coordinates so that a fact
      proved about the coordinates carries over to any vector that has them. */
  function SquaredNorm(x: real, y: real): real { Sq(x) + Sq(y) }

  /** The squared length, the argument `length` passes to the square root. */
  function SquaredLength(v: Vector): real { SquaredNorm(v.x, v.y) }

  function Length(m: MathLib, v: Vector): real
  {
    m.sqrt(SquaredLength(v))
  }

  /** `normalize`: the vector itself when its length is 0, otherwise the
      vector divided by its length. */
  function Normalize(m: MathLib, v: Vector): Vector
  {
    var len := Length(m, v);
    if len == 0.0 then v else Vector(v.x / len, v.y / len)
  }

  /** The algebra of vectors the collision test relies on. */
  lemma VectorAlgebra(a: Vector, b: Vector, k: real)
    ensures Add(a, b) == Add(b, a)
    ensures Sub(a, a) == Zero()
    ensures Add(Sub(a, b), b) == a
    ensures Add(a, Zero()) == a
    ensures Dot(a, b) == Dot(b, a)
    ensures Dot(Scale(a, k), b) == k * Dot(a, b)
  {
  }

  // Facts of real arithmetic, each proved as a chain of single steps. Squares
  // are written with Sq so that a fact about the square of one term carries
  // over to every term equal to it.

  lemma SquareSign(a: real)
    ensures Sq(a) >= 0.0
    ensures a != 0.0 ==> Sq(a) > 0.0
  {
    if a != 0.0 {
      calc { Sq(a); a * a; > 0.0; }
    }
  }

  lemma SquareMonotone(a: real, b: real)
    requires 0.0 <= a < b
    ensures Sq(a) < Sq(b)
  {
    calc { Sq(a); a * a; <= a * b; < b * b; Sq(b); }
  }

  lemma SquareInjective(a: real, b: real)
    requires a >= 0.0 && b >= 0.0 && Sq(a) == Sq(b)
    ensures a == b
  {
    if a < b {
      SquareMonotone(a, b);
      assert false;
    } else if b < a {
      SquareMonotone(b, a);
      assert false;
    }
  }

  lemma SquareProduct(a: real, b: real)
    ensures Sq(a * b) == Sq(a) * Sq(b)
  {
    calc { Sq(a * b); (a * b) * (a * b); (a * a) * (b * b); Sq(a) * Sq(b); }
  }

  lemma ProductNonNegative(a: real, b: real)
    requires a >= 0.0 && b >= 0.0
    ensures a * b >= 0.0
  {
  }

  /** A sound square root is determined by its defining property. */
  lemma SqrtUnique(m: MathLib, x: real, y: real)
    requires m.Sound()
    requires y >= 0.0 && Sq(y) == x
    ensures m.sqrt(x) == y
  {
    SquareInjective(m.sqrt(x), y);
  }

  /** The sign facts of a sound square root. */
  lemma SqrtSign(m: MathLib, x: real)
    requires m.Sound()
    ensures x >= 0.0 ==> m.sqrt(x) >= 0.0
    ensures x > 0.0 ==> m.sqrt(x) > 0.0
    ensures x == 0.0 ==> m.sqrt(x) == 0.0
  {
  }

  // The length facts are proved on the two coordinates first; the vector
  // lemmas only put the coordinates together.

  lemma NormZero(m: MathLib, x: real, y: real)
    requires m.Sound()
    ensures m.sqrt(SquaredNorm(x, y)) >= 0.0
    ensures m.sqrt(SquaredNorm(x, y)) == 0.0 <==> x == 0.0 && y == 0.0
  {
    SquareSign(x);
    SquareSign(y);
    SqrtSign(m, SquaredNorm(x, y));
  }

  lemma AbsSquare(k: real)
    ensures Abs(k) >= 0.0 && Sq(Abs(k)) == Sq(k)
  {
    if k < 0.0 {
      calc { Sq(Abs(k)); (-k) * (-k); k * k; Sq(k); }
    }
  }

  lemma ScaledSquares(x: real, y: real, k: real)
    ensures SquaredNorm(x * k, y * k) == Sq(k) * SquaredNorm(x, y)
  {
    SquareProduct(x, k);
    SquareProduct(y, k);
    calc {
      SquaredNorm(x * k, y * k);
      Sq(x * k) + Sq(y * k);
      Sq(x) * Sq(k) + Sq(y) * Sq(k);
      Sq(k) * (Sq(x) + Sq(y));
      Sq(k) * SquaredNorm(x, y);
    }
  }

  lemma NormSquare(m: MathLib, x: real, y: real)
    requires m.Sound()
    ensures m.sqrt(SquaredNorm(x, y)) >= 0.0
    ensures Sq(m.sqrt(SquaredNorm(x, y))) == SquaredNorm(x, y)
  {
    SquareSign(x);
    SquareSign(y);
  }

  lemma NormScale(m: MathLib, x: real, y: real, k: real)
    requires m.Sound()
    ensures m.sqrt(SquaredNorm(x * k, y * k)) == Abs(k) * m.sqrt(SquaredNorm(x, y))
  {
    var len := m.sqrt(SquaredNorm(x, y));
    NormSquare(m, x, y);
    ScaledSquares(x, y, k);
    AbsSquare(k);
    SquareProduct(Abs(k), len);
    ProductNonNegative(Abs(k), len);
    SqrtUnique(m, SquaredNorm(x * k, y * k), Abs(k) * len);
  }

  /** A length is never negative, and it is zero exactly for the zero vector. */
  lemma LengthZero(m: MathLib, v: Vector)
    requires m.Sound()
    ensures Length(m, v) >= 0.0
    ensures Length(m, v) == 0.0 <==> v == Zero()
  {
    NormZero(m, v.x, v.y);
  }

  /** Scaling a vector scales its length by |k|. */
  lemma LengthScale(m: MathLib, v: Vector, k: real)
    requires m.Sound()
    ensures Length(m, Scale(v, k)) == Abs(k) * Length(m, v)
  {
    LengthOfScale(m, v, k);
    NormScale(m, v.x, v.y, k);
    LengthOfCoordinates(m, v);
  }

  // LengthScale's proof joins three equalities between whole terms; unfolding
  // the definitions in the same proof as the scaling fact leaves too much
  // nonlinear arithmetic in one place, so the unfoldings are lemmas of their own.

  lemma LengthOfScale(m: MathLib, v: Vector, k: real)
    ensures Length(m, Scale(v, k)) == m.sqrt(SquaredNorm(v.x * k, v.y * k))
  {
    var w := Scale(v, k);
    assert w == Vector(v.x * k, v.y * k);
    assert SquaredLength(w) == SquaredNorm(v.x * k, v.y * k);
  }

  lemma LengthOfCoordinates(m: MathLib, v: Vector)
    ensures Length(m, v) == m.sqrt(SquaredNorm(v.x, v.y))
  {
  }

  lemma DivideAsScale(a: real, b: real)
    requires b != 0.0
    ensures a / b == a * (1.0 / b)
  {
  }

  /** `normalize` keeps the direction: its result is a positive multiple of
      the input. A non-zero vector comes out with length 1; the zero vector
      comes out unchanged. */
  lemma NormalizeProperties(m: MathLib, v: Vector)
    requires m.Sound()
    ensures v == Zero() ==> Normalize(m, v) == Zero()
    ensures v != Zero() ==> Length(m, Normalize(m, v)) == 1.0
    ensures v != Zero() ==> Length(m, v) > 0.0 && Normalize(m, v) == Scale(v, 1.0 / Length(m, v))
  {
    LengthZero(m, v);
    if v != Zero() {
      var len := Length(m, v);
      DivideAsScale(v.x, len);
      DivideAsScale(v.y, len);
      assert Normalize(m, v) == Scale(v, 1.0 / len);
      LengthScale(m, v, 1.0 / len);
      calc { Abs(1.0 / len) * len; (1.0 / len) * len; 1.0; }
    }
  }

  /** Normalizing a vector of length 1 changes nothing. */
  lemma NormalizeUnit(m: MathLib, v: Vector)
    requires m.Sound()
    requires SquaredLength(v) == 1.0
    ensures Normalize(m, v) == v
  {
    SqrtUnique(m, 1.0, 1.0);
  }

  /** A 1-dimensional projection onto an axis. */
  datatype Projection = Projection(minimum: real, maximum: real)
  {
    /** `overlaps`: inclusive at both ends. */
    predicate Overlaps(other: Projection)
    {
      minimum <= other.maximum && other.minimum <= maximum
    }

    ghost predicate Contains(t: real) { minimum <= t <= maximum }
  }

  /** Overlap is symmetric, counts intervals that only touch, and for proper
      intervals means exactly that they share a point. */
  lemma OverlapsMeaning(p: Projection, q: Projection)
    requires p.minimum <= p.maximum && q.minimum <= q.maximum
    ensures p.Overlaps(q) == q.Overlaps(p)
    ensures p.maximum == q.minimum ==> p.Overlaps(q)
    ensures p.Overlaps(q) <==> exists t :: p.Contains(t) && q.Contains(t)
  {
    if p.Overlaps(q) {
      var t := if p.minimum < q.minimum then q.minimum else p.minimum;
      assert p.Contains(t) && q.Contains(t);
    }
  }

  /** The projection `project(verts, axis)` computes: its loop starts with the
      first vertex and folds the others in, one at a time, in order. */
  function ProjectionOf(verts: seq<Vector>, axis: Vector): (p: Projection)
    requires |verts| > 0
    ensures p.minimum <= p.maximum
    ensures forall i :: 0 <= i < |verts| ==> p.Contains(Dot(axis, verts[i]))
    ensures exists i :: 0 <= i < |verts| && Dot(axis, verts[i]) == p.minimum
    ensures exists i :: 0 <= i < |verts| && Dot(axis, verts[i]) == p.maximum
  {
    var n := |verts|;
    if n == 1 then
      Projection(Dot(axis, verts[0]), Dot(axis, verts[0]))
    else
      var q := ProjectionOf(verts[..n - 1], axis);
      var d := Dot(axis, verts[n - 1]);
      assert forall i :: 0 <= i < n - 1 ==> verts[..n - 1][i] == verts[i];
      Widen(q, d)
  }

  /** One step of `project`'s loop: the value d lowers the minimum or,
      failing that, raises the maximum. */
  function Widen(q: Projection, d: real): Projection
  {
    if d < q.minimum then Projection(d, q.maximum)
    else if d > q.maximum then Projection(q.minimum, d)
    else q
  }

  /** The projection of the first i + 1 vertices widens that of the first i
      by vertex i. */
  lemma ProjectionStep(verts: seq<Vector>, axis: Vector, i: nat)
    requires 0 < i < |verts|
    ensures ProjectionOf(verts[..i + 1], axis) == Widen(ProjectionOf(verts[..i], axis), Dot(axis, verts[i]))
  {
    assert verts[..i + 1][..i] == verts[..i];
  }

  /** `project`: the minimum and maximum of axis . v over the vertices. */
  method Project(verts: seq<Vector>, axis: Vector) returns (p: Projection)
    requires |verts| > 0
    ensures p == ProjectionOf(verts, axis)
    ensures p.minimum <= p.maximum
    ensures forall i :: 0 <= i < |verts| ==> p.Contains(Dot(axis, verts[i]))
    ensures exists i :: 0 <= i < |verts| && Dot(axis, verts[i]) == p.minimum
    ensures exists i :: 0 <= i < |verts| && Dot(axis, verts[i]) == p.maximum
  {
    var vMin := Dot(axis, verts[0]);
    var vMax := vMin;
    var i := 1;
    while i < |verts|
      invariant 1 <= i <= |verts|
      invariant Projection(vMin, vMax) == ProjectionOf(verts[..i], axis)
    {
      var d := Dot(axis, verts[i]);
      ProjectionStep(verts, axis, i);
      if d < vMin {
        vMin := d;
      } else if d > vMax {
        vMax := d;
      }
      i := i + 1;
    }
    assert verts[..i] == verts;
    p := Projection(vMin, vMax);
  }

  /** The edge that starts at vertex i: verts[i] - verts[i + 1], where the
      last vertex closes the polygon with vertex 0. */
  function Edge(verts: seq<Vector>, i: nat): Vector
    requires i < |verts|
  {
    var p2 := if i + 1 == |verts| then verts[0] else verts[i + 1];
    Sub(verts[i], p2)
  }

  /** The perpendicular (e.y, -e.x) of an edge, before normalizing. */
  function Perpendicular(e: Vector): Vector { Vector(e.y, -e.x) }

  /** The candidate axes `generate_axes` produces: one normalized edge normal
      per edge, in edge order. */
  function AxesOf(m: MathLib, verts: seq<Vector>): (axes: seq<Vector>)
  {
    seq(|verts|, i requires 0 <= i < |verts| => Normalize(m, Perpendicular(Edge(verts, i))))
  }

  /** `generate_axes`. */
  method GenerateAxes(m: MathLib, verts: seq<Vector>) returns (axes: seq<Vector>)
    ensures axes == AxesOf(m, verts)
  {
    axes := [];
    var i := 0;
    while i < |verts|
      invariant 0 <= i <= |verts|
      invariant axes == AxesOf(m, verts)[..i]
    {
      var p1 := verts[i];
      var p2;
      if i + 1 == |verts| {
        p2 := verts[0];
      } else {
        p2 := verts[i + 1];
      }
      var edge := Sub(p1, p2);
      var normal := Vector(edge.y, -edge.x);
      normal := Normalize(m, normal);
      axes := axes + [normal];
      i := i + 1;
    }
  }

  /** Axis i is perpendicular to edge i, before and after normalizing, and
      has length 1 unless edge i has length 0. */
  lemma AxisProperties(m: MathLib, verts: seq<Vector>, i: nat)
    requires m.Sound()
    requires i < |verts|
    ensures Dot(Perpendicular(Edge(verts, i)), Edge(verts, i)) == 0.0
    ensures Dot(AxesOf(m, verts)[i], Edge(verts, i)) == 0.0
    ensures Edge(verts, i) != Zero() ==> Length(m, AxesOf(m, verts)[i]) == 1.0
  {
    var e := Edge(verts, i);
    var n := Perpendicular(e);
    assert AxesOf(m, verts)[i] == Normalize(m, n);
    NormalizeProperties(m, n);
    if n != Zero() {
      var len := Length(m, n);
      assert Dot(Scale(n, 1.0 / len), e) == (1.0 / len) * Dot(n, e);
    }
  }

  /** The axes: one per vertex, in edge order; the last edge runs from the
      last vertex back to vertex 0; each axis is a unit normal of its edge. */
  lemma AxesProperties(m: MathLib, verts: seq<Vector>)
    requires m.Sound()
    ensures |AxesOf(m, verts)| == |verts|
    ensures |verts| > 0 ==> Edge(verts, |verts| - 1) == Sub(verts[|verts| - 1], verts[0])
    ensures forall i :: 0 <= i < |verts| ==> Dot(AxesOf(m, verts)[i], Edge(verts, i)) == 0.0
    ensures forall i :: 0 <= i < |verts| && Edge(verts, i) != Zero() ==>
              Length(m, AxesOf(m, verts)[i]) == 1.0
  {
    forall i | 0 <= i < |verts|
      ensures Dot(AxesOf(m, verts)[i], Edge(verts, i)) == 0.0
      ensures Edge(verts, i) != Zero() ==> Length(m, AxesOf(m, verts)[i]) == 1.0
    {
      AxisProperties(m, verts, i);
    }
  }

  /** An axis separates two vertex sets when their projections onto it do
      not overlap. */
  predicate Separates(verts1: seq<Vector>, verts2: seq<Vector>, axis: Vector)
    requires |verts1| > 0 && |verts2| > 0
  {
    !ProjectionOf(verts1, axis).Overlaps(ProjectionOf(verts2, axis))
  }

  /** None of the given axes separates the two vertex sets. */
  predicate NoneSeparates(verts1: seq<Vector>, verts2: seq<Vector>, axes: seq<Vector>)
    requires |verts1| > 0 && |verts2| > 0
  {
    forall axis :: axis in axes ==> !Separates(verts1, verts2, axis)
  }

  /** The verdict of the Separating Axis Theorem test on world vertices: no
      axis of either polygon separates them. */
  predicate NoSeparatingAxis(m: MathLib, verts1: seq<Vector>, verts2: seq<Vector>)
    requires |verts1| > 0 && |verts2| > 0
  {
    NoneSeparates(verts1, verts2, AxesOf(m, verts1) + AxesOf(m, verts2))
  }

  /** The verdict does not depend on which polygon comes first. */
  lemma NoSeparatingAxisSymmetric(m: MathLib, verts1: seq<Vector>, verts2: seq<Vector>)
    requires |verts1| > 0 && |verts2| > 0
    ensures NoSeparatingAxis(m, verts1, verts2) == NoSeparatingAxis(m, verts2, verts1)
  {
    forall axis
      ensures Separates(verts1, verts2, axis) == Separates(verts2, verts1, axis)
    {
      OverlapsMeaning(ProjectionOf(verts1, axis), ProjectionOf(verts2, axis));
    }
    var a1, a2 := AxesOf(m, verts1), AxesOf(m, verts2);
    assert forall axis :: axis in a1 + a2 <==> axis in a2 + a1;
  }

  /** The loop of `collides` on world vertices: the first polygon's axes, then
      the second's, stopping at the first separating axis. */
  method SeparatingAxisTest(verts1: seq<Vector>, verts2: seq<Vector>,
                            axes1: seq<Vector>, axes2: seq<Vector>) returns (hit: bool)
    requires |verts1| > 0 && |verts2| > 0
    ensures hit == NoneSeparates(verts1, verts2, axes1 + axes2)
  {
    var i := 0;
    while i < |axes1|
      invariant 0 <= i <= |axes1|
      invariant forall k :: 0 <= k < i ==> !Separates(verts1, verts2, axes1[k])
    {
      var proj1 := Project(verts1, axes1[i]);
      var proj2 := Project(verts2, axes1[i]);
      if !proj1.Overlaps(proj2) {
        assert (axes1 + axes2)[i] == axes1[i];
        assert axes1[i] in axes1 + axes2;
        return false;
      }
      i := i + 1;
    }
    var j := 0;
    while j < |axes2|
      invariant 0 <= j <= |axes2|
      invariant forall k :: 0 <= k < j ==> !Separates(verts1, verts2, axes2[k])
    {
      var proj1 := Project(verts1, axes2[j]);
      var proj2 := Project(verts2, axes2[j]);
      if !proj1.Overlaps(proj2) {
        assert (axes1 + axes2)[|axes1| + j] == axes2[j];
        assert axes2[j] in axes1 + axes2;
        return false;
      }
      j := j + 1;
    }
    forall axis | axis in axes1 + axes2
      ensures !Separates(verts1, verts2, axis)
    {
      assert axis in axes1 || axis in axes2;
    }
    return true;
  }
}
