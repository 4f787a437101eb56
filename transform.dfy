/** The model-view transform of a shape as pure affine algebra. The game builds
    it on OpenGL's matrix stack (load identity, translate, rotate about the z
    axis, scale) and reads the matrix back; each of those calls multiplies the
    current matrix on the right by the matrix of section 2.11.2 of the OpenGL
    2.1 specification. Only the x/y part is modelled: the shapes' vertices
    have z = 0 and only x and y of the result are read. */
module Transform {
  import opened Utils

  /** The homogeneous matrix
        [ a  b  tx ]
        [ c  d  ty ]
        [ 0  0  1  ] */
  datatype Affine = Affine(a: real, b: real, c: real, d: real, tx: real, ty: real)

  /** `glLoadIdentity`. */
  function Identity(): Affine { Affine(1.0, 0.0, 0.0, 1.0, 0.0, 0.0) }

  /** The matrix product m * n. */
  function Compose(m: Affine, n: Affine): Affine
  {
    Affine(m.a * n.a + m.b * n.c, m.a * n.b + m.b * n.d,
           m.c * n.a + m.d * n.c, m.c * n.b + m.d * n.d,
           m.a * n.tx + m.b * n.ty + m.tx, m.c * n.tx + m.d * n.ty + m.ty)
  }

  /** `glTranslatef(x, y, 0)`. */
  function Translation(x: real, y: real): Affine { Affine(1.0, 0.0, 0.0, 1.0, x, y) }

  /** `glRotatef(angle, 0, 0, 1)`, given c = cos(angle) and s = sin(angle). */
  function Rotation(c: real, s: real): Affine { Affine(c, -s, s, c, 0.0, 0.0) }

  /** `glScalef(k, k, k)`. */
  function Scaling(k: real): Affine { Affine(k, 0.0, 0.0, k, 0.0, 0.0) }

  /** The matrix times the column vector (x, y, 0, 1), keeping x and y. */
  function Apply(m: Affine, v: Vector): Vector
  {
    Vector(Row(m.a, m.b, m.tx, v), Row(m.c, m.d, m.ty, v))
  }

  /** One row of the matrix, (p q t), times (x, y, 1). */
  function Row(p: real, q: real, t: real, v: Vector): real { p * v.x + q * v.y + t }

  /** The matrix a shape's model view holds after identity, translate by pos,
      rotate, scale by k, in that order. */
  function ModelView(pos: Vector, c: real, s: real, k: real): Affine
  {
    Compose(Compose(Compose(Identity(), Translation(pos.x, pos.y)), Rotation(c, s)), Scaling(k))
  }

  /** The matrix `__get_effective_length` uses: identity, then scale. */
  function ScaleOnly(k: real): Affine
  {
    Compose(Identity(), Scaling(k))
  }

  /** Rotation of a vector counterclockwise, given the cosine and sine. */
  function Rotate(v: Vector, c: real, s: real): Vector
  {
    Vector(c * v.x - s * v.y, s * v.x + c * v.y)
  }

  /** Multiplying matrices composes their actions; the last matrix
      multiplied in acts first. */
  lemma ApplyCompose(m: Affine, n: Affine, v: Vector)
    ensures Apply(Compose(m, n), v) == Apply(m, Apply(n, v))
  {
    RowCompose(m.a, m.b, m.tx, n, v);
    RowCompose(m.c, m.d, m.ty, n, v);
  }

  /** A row of m * n, applied to v, is the row of m applied to n's image of v. */
  lemma RowCompose(p: real, q: real, t: real, n: Affine, v: Vector)
    ensures Row(p * n.a + q * n.c, p * n.b + q * n.d, p * n.tx + q * n.ty + t, v) == Row(p, q, t, Apply(n, v))
  {
    var x, y := v.x, v.y;
    calc {
      Row(p * n.a + q * n.c, p * n.b + q * n.d, p * n.tx + q * n.ty + t, v);
      (p * n.a + q * n.c) * x + (p * n.b + q * n.d) * y + (p * n.tx + q * n.ty + t);
      p * (n.a * x + n.b * y + n.tx) + q * (n.c * x + n.d * y + n.ty) + t;
      p * Row(n.a, n.b, n.tx, v) + q * Row(n.c, n.d, n.ty, v) + t;
      Row(p, q, t, Apply(n, v));
    }
  }

  /** The world-space vertex: scale first, then rotate, then translate. */
  lemma ModelViewApply(pos: Vector, c: real, s: real, k: real, v: Vector)
    ensures Apply(ModelView(pos, c, s, k), v) == Add(pos, Rotate(Scale(v, k), c, s))
  {
    var t := Compose(Identity(), Translation(pos.x, pos.y));
    ApplyCompose(Compose(t, Rotation(c, s)), Scaling(k), v);
    ApplyCompose(t, Rotation(c, s), Apply(Scaling(k), v));
    ApplyCompose(Identity(), Translation(pos.x, pos.y), Apply(Rotation(c, s), Apply(Scaling(k), v)));
  }

  /** With no rotation (cos 0 = 1, sin 0 = 0) and scale 1 the world vertex is
      the local vertex moved by pos. */
  lemma IdentityPose(pos: Vector, v: Vector)
    ensures Apply(ModelView(pos, 1.0, 0.0, 1.0), v) == Add(v, pos)
  {
    ModelViewApply(pos, 1.0, 0.0, 1.0, v);
  }

  lemma RotationSquares(x: real, y: real, c: real, s: real)
    requires Sq(c) + Sq(s) == 1.0
    ensures SquaredNorm(c * x - s * y, s * x + c * y) == SquaredNorm(x, y)
  {
    calc {
      SquaredNorm(c * x - s * y, s * x + c * y);
      (c * x - s * y) * (c * x - s * y) + (s * x + c * y) * (s * x + c * y);
      (c * c + s * s) * (x * x) + (c * c + s * s) * (y * y);
      (Sq(c) + Sq(s)) * (x * x) + (Sq(c) + Sq(s)) * (y * y);
      x * x + y * y;
      SquaredNorm(x, y);
    }
  }

  lemma SquaredLengthOfRotate(v: Vector, c: real, s: real)
    ensures SquaredLength(Rotate(v, c, s)) == SquaredNorm(c * v.x - s * v.y, s * v.x + c * v.y)
  {
    assert Rotate(v, c, s) == Vector(c * v.x - s * v.y, s * v.x + c * v.y);
  }

  lemma LengthCongruent(m: MathLib, v: Vector, w: Vector)
    requires SquaredLength(v) == SquaredLength(w)
    ensures Length(m, v) == Length(m, w)
  {
  }

  /** A rotation keeps lengths. */
  lemma RotatePreservesLength(m: MathLib, v: Vector, c: real, s: real)
    requires Sq(c) + Sq(s) == 1.0
    ensures Length(m, Rotate(v, c, s)) == Length(m, v)
  {
    SquaredLengthOfRotate(v, c, s);
    RotationSquares(v.x, v.y, c, s);
    LengthCongruent(m, Rotate(v, c, s), v);
  }

  /** A world vertex lies |k| times as far from pos as the local vertex lies
      from the origin: the rotation does not change the distance. */
  lemma WorldDistance(m: MathLib, pos: Vector, c: real, s: real, k: real, v: Vector)
    requires m.Sound()
    requires Sq(c) + Sq(s) == 1.0
    ensures Length(m, Sub(Apply(ModelView(pos, c, s, k), v), pos)) == Abs(k) * Length(m, v)
  {
    ModelViewApply(pos, c, s, k, v);
    var r := Rotate(Scale(v, k), c, s);
    assert Sub(Add(pos, r), pos) == r;
    RotatePreservesLength(m, Scale(v, k), c, s);
    LengthScale(m, v, k);
  }

  /** The effective-length matrix only scales. */
  lemma ScaleOnlyApply(k: real, v: Vector)
    ensures Apply(ScaleOnly(k), v) == Scale(v, k)
  {
  }
}
