/** Three-component vectors (Vector3D.cpp). A value type: every operation
    returns a fresh vector. */
module Vector3D {
  import opened MathLib

  datatype Vec3 = Vec3(x: real, y: real, z: real)

  /** The default constructor: the zero vector. */
  function Zero(): Vec3 { Vec3(0.0, 0.0, 0.0) }

  function Neg(v: Vec3): Vec3 { Vec3(-v.x, -v.y, -v.z) }

  function Add(l: Vec3, r: Vec3): Vec3 { Vec3(l.x + r.x, l.y + r.y, l.z + r.z) }

  /** `l - r` is `l + (-r)`. */
  function Sub(l: Vec3, r: Vec3): Vec3 { Add(l, Neg(r)) }

  /** `s * v`. */
  function Scale(s: real, v: Vec3): Vec3 { Vec3(s * v.x, s * v.y, s * v.z) }

  /** `v * s`, defined as `s * v`. */
  function ScaleRight(v: Vec3, s: real): Vec3 { Scale(s, v) }

  /** `v / s`, defined as `(1 / s) * v`. */
  function Div(v: Vec3, s: real): Vec3
    requires s != 0.0
  {
    Scale(1.0 / s, v)
  }

  /** `operator==`: component-wise comparison. */
  predicate Equal(l: Vec3, r: Vec3) { l.x == r.x && l.y == r.y && l.z == r.z }

  predicate NotEqual(l: Vec3, r: Vec3) { !Equal(l, r) }

  function Dot(l: Vec3, r: Vec3): real { l.x * r.x + l.y * r.y + l.z * r.z }

  function Project(a: Vec3, b: Vec3): Vec3
    requires Dot(b, b) != 0.0
  {
    Scale(Dot(a, b) / Dot(b, b), b)
  }

  function Reject(a: Vec3, b: Vec3): Vec3
    requires Dot(b, b) != 0.0
  {
    Sub(a, Project(a, b))
  }

  /** The right-handed cross product. */
  function Cross(a: Vec3, b: Vec3): Vec3 {
    Vec3(a.y * b.z - a.z * b.y,
         a.z * b.x - a.x * b.z,
         a.x * b.y - a.y * b.x)
  }

  function MagSquared(v: Vec3): real { Dot(v, v) }

  function Magnitude(lib: MathLib, v: Vec3): real { lib.sqrt(Dot(v, v)) }

  function MagInverse(lib: MathLib, v: Vec3): real
    requires Magnitude(lib, v) != 0.0
  {
    1.0 / Magnitude(lib, v)
  }

  function Normalize(lib: MathLib, v: Vec3): Vec3
    requires Magnitude(lib, v) != 0.0
  {
    Div(v, Magnitude(lib, v))
  }

  /** The signed volume of the parallelepiped spanned by a, b and c. */
  function ScalarTriple(a: Vec3, b: Vec3, c: Vec3): real { Dot(Cross(a, b), c) }

  // ---------------------------------------------------------------------
  // Properties

  lemma EqualIsComponentwise(l: Vec3, r: Vec3)
    ensures Equal(l, r) <==> l == r
    ensures NotEqual(l, r) <==> l != r
  {}

  /** Negation is an involution, and subtraction undoes addition. */
  lemma NegSubLaws(l: Vec3, r: Vec3)
    ensures Neg(Neg(l)) == l
    ensures Sub(Add(l, r), r) == l
    ensures Sub(l, l) == Zero()
  {}

  /** Both scalar products agree, and division by s is undone by scaling by s. */
  lemma ScaleDivLaws(v: Vec3, s: real)
    ensures ScaleRight(v, s) == Scale(s, v)
    ensures s != 0.0 ==> Scale(s, Div(v, s)) == v
  {
    if s != 0.0 {
      CancelFactor(s, v.x);
      CancelFactor(s, v.y);
      CancelFactor(s, v.z);
    }
  }

  /** Scaling composes by multiplying the factors and distributes over sums. */
  lemma ScaleAlgebra(s: real, t: real, u: Vec3, v: Vec3)
    ensures Scale(s, Scale(t, u)) == Scale(s * t, u)
    ensures Scale(s, Add(u, v)) == Add(Scale(s, u), Scale(s, v))
    ensures Add(Scale(s, u), Scale(t, u)) == Scale(s + t, u)
  {
    ScaleTwice(s, t, u);
    ScaleOverAdd(s, u, v);
    ScaleFactorsAdd(s, t, u);
  }

  /** Scaling by s undoes scaling by 1 / s. */
  lemma ScaleCancel(s: real, u: Vec3)
    requires s != 0.0
    ensures Scale(s, Scale(1.0 / s, u)) == u
  {
    CancelFactor(s, u.x);
    CancelFactor(s, u.y);
    CancelFactor(s, u.z);
  }

  /** Scaling by zero gives the zero vector. */
  lemma ScaleByZero(u: Vec3)
    ensures Scale(0.0, u) == Zero()
  {}

  /** A factor equal to one changes nothing. */
  lemma ScaleByOne(t: real, u: Vec3)
    requires t == 1.0
    ensures Scale(t, u) == u
  {}

  /** Equal factors scale alike (stated so that an arithmetic equality between
      the factors carries over to the scaled vectors). */
  lemma ScaleEqual(s: real, t: real, u: Vec3)
    requires s == t
    ensures Scale(s, u) == Scale(t, u)
  {}

  lemma ScaleTwice(s: real, t: real, u: Vec3)
    ensures Scale(s, Scale(t, u)) == Scale(s * t, u)
  {}

  lemma ScaleOverAdd(s: real, u: Vec3, v: Vec3)
    ensures Scale(s, Add(u, v)) == Add(Scale(s, u), Scale(s, v))
  {}

  lemma ScaleFactorsAdd(s: real, t: real, u: Vec3)
    ensures Add(Scale(s, u), Scale(t, u)) == Scale(s + t, u)
  {}

  /** Negation distributes over sums and commutes with scaling. */
  lemma NegLinear(s: real, u: Vec3, v: Vec3)
    ensures Neg(Add(u, v)) == Add(Neg(u), Neg(v))
    ensures Scale(s, Neg(u)) == Neg(Scale(s, u))
  {}

  /** The dot product is symmetric and linear in its first argument. */
  lemma DotSymmetricBilinear(a: Vec3, b: Vec3, c: Vec3, s: real)
    ensures Dot(a, b) == Dot(b, a)
    ensures Dot(Add(a, b), c) == Dot(a, c) + Dot(b, c)
    ensures Dot(Scale(s, a), b) == s * Dot(a, b)
  {}

  /** The squared magnitude is never negative, and it is positive for every
      vector but the zero vector. */
  lemma MagSquaredPositive(v: Vec3)
    ensures 0.0 <= MagSquared(v)
    ensures v != Zero() ==> 0.0 < MagSquared(v)
  {
    SquareNonNegative(v.x);
    SquareNonNegative(v.y);
    SquareNonNegative(v.z);
    if v.x != 0.0 { SquarePositive(v.x); }
    if v.y != 0.0 { SquarePositive(v.y); }
    if v.z != 0.0 { SquarePositive(v.z); }
    assert MagSquared(v) == Square(v.x) + Square(v.y) + Square(v.z);
  }

  /** The squared magnitude is zero exactly for the zero vector. */
  lemma MagSquaredZero(v: Vec3)
    ensures MagSquared(v) == 0.0 <==> v == Zero()
  {
    if v != Zero() {
      MagSquaredPositive(v);
    }
  }

  /** Swapping the operands negates the cross product; a vector crossed with
      itself is zero. */
  lemma CrossAnticommutative(a: Vec3, b: Vec3)
    ensures Cross(a, b) == Neg(Cross(b, a))
    ensures Cross(a, a) == Zero()
  {}

  /** A scalar factor of the first operand comes out of the cross product;
      hence a vector crossed with a multiple of itself is zero. */
  lemma CrossScale(s: real, a: Vec3, b: Vec3)
    ensures Cross(Scale(s, a), b) == Scale(s, Cross(a, b))
    ensures Cross(Scale(s, a), a) == Zero()
  {
    CrossScaleFirst(s, a, b);
    CrossScaleFirst(s, a, a);
    CrossAnticommutative(a, a);
  }

  lemma CrossScaleFirst(s: real, a: Vec3, b: Vec3)
    ensures Cross(Scale(s, a), b) == Scale(s, Cross(a, b))
  {
    var p := Scale(s, a);
    var q := Cross(a, b);
    ScaledFirstDifference(s, a.y, b.z, a.z, b.y, p.y, p.z, q.x);
    ScaledFirstDifference(s, a.z, b.x, a.x, b.z, p.z, p.x, q.y);
    ScaledFirstDifference(s, a.x, b.y, a.y, b.x, p.x, p.y, q.z);
  }

  /** A scalar factor of the second operand comes out of the cross product. */
  lemma CrossScaleSecond(s: real, a: Vec3, b: Vec3)
    ensures Cross(a, Scale(s, b)) == Scale(s, Cross(a, b))
  {
    var p := Scale(s, b);
    var q := Cross(a, b);
    ScaledSecondDifference(s, a.y, b.z, a.z, b.y, p.z, p.y, q.x);
    ScaledSecondDifference(s, a.z, b.x, a.x, b.z, p.x, p.z, q.y);
    ScaledSecondDifference(s, a.x, b.y, a.y, b.x, p.y, p.x, q.z);
  }

  /** With f1 == s u1, f2 == s u2 and w == u1 v1 - u2 v2, the difference
      f1 v1 - f2 v2 is s w. */
  lemma ScaledFirstDifference(s: real, u1: real, v1: real, u2: real, v2: real, f1: real, f2: real, w: real)
    requires f1 == s * u1 && f2 == s * u2 && w == u1 * v1 - u2 * v2
    ensures f1 * v1 - f2 * v2 == s * w
  {}

  /** With g1 == s v1, g2 == s v2 and w == u1 v1 - u2 v2, the difference
      u1 g1 - u2 g2 is s w. */
  lemma ScaledSecondDifference(s: real, u1: real, v1: real, u2: real, v2: real, g1: real, g2: real, w: real)
    requires g1 == s * v1 && g2 == s * v2 && w == u1 * v1 - u2 * v2
    ensures u1 * g1 - u2 * g2 == s * w
  {}

  /** Two scalings commute. */
  lemma ScaleCommute(s: real, t: real, u: Vec3)
    ensures Scale(s, Scale(t, u)) == Scale(t, Scale(s, u))
  {}

  /** The cross product is orthogonal to both operands. */
  lemma CrossOrthogonal(a: Vec3, b: Vec3)
    ensures Dot(a, Cross(a, b)) == 0.0
    ensures Dot(b, Cross(a, b)) == 0.0
  {}

  /** The scalar triple product is invariant under cyclic permutation and
      changes sign when two arguments are swapped. */
  lemma ScalarTripleSymmetry(a: Vec3, b: Vec3, c: Vec3)
    ensures ScalarTriple(a, b, c) == ScalarTriple(b, c, a)
    ensures ScalarTriple(a, b, c) == ScalarTriple(c, a, b)
    ensures ScalarTriple(b, a, c) == -ScalarTriple(a, b, c)
    ensures ScalarTriple(a, c, b) == -ScalarTriple(a, b, c)
  {
    TripleCyclic(a, b, c);
    TripleCyclic(b, c, a);
    TripleSwap(a, b, c);
    TripleSwap(c, a, b);
    TripleCyclic(a, c, b);
  }

  lemma TripleCyclic(a: Vec3, b: Vec3, c: Vec3)
    ensures ScalarTriple(a, b, c) == ScalarTriple(b, c, a)
  {}

  lemma TripleSwap(a: Vec3, b: Vec3, c: Vec3)
    ensures ScalarTriple(b, a, c) == -ScalarTriple(a, b, c)
  {}

  /** The cross products of the pairs of a, b, c, in cyclic order, form the
      dual basis of a, b, c: if a, b, c are the columns of a matrix and the
      three cross products its rows' partners, row i of the first dotted with
      column j of the second is the scalar triple product when i == j and
      zero otherwise. */
  lemma CrossFrameX(a: Vec3, b: Vec3, c: Vec3)
    ensures Dot(Vec3(a.x, b.x, c.x), Vec3(Cross(b, c).x, Cross(c, a).x, Cross(a, b).x)) == ScalarTriple(a, b, c)
    ensures Dot(Vec3(a.x, b.x, c.x), Vec3(Cross(b, c).y, Cross(c, a).y, Cross(a, b).y)) == 0.0
    ensures Dot(Vec3(a.x, b.x, c.x), Vec3(Cross(b, c).z, Cross(c, a).z, Cross(a, b).z)) == 0.0
{
    FrameXX(a, b, c);
    FrameXY(a, b, c);
    FrameXZ(a, b, c);
  }

  lemma FrameXX(a: Vec3, b: Vec3, c: Vec3)
    ensures Dot(Vec3(a.x, b.x, c.x), Vec3(Cross(b, c).x, Cross(c, a).x, Cross(a, b).x)) == ScalarTriple(a, b, c)
  {
    FrameXXExpanded(a, b, c);
    TripleExpanded(a, b, c);
    DualXX(a, b, c);
  }

  lemma FrameXXExpanded(a: Vec3, b: Vec3, c: Vec3)
    ensures Dot(Vec3(a.x, b.x, c.x), Vec3(Cross(b, c).x, Cross(c, a).x, Cross(a, b).x))
         == a.x * (b.y * c.z - b.z * c.y) + b.x * (c.y * a.z - c.z * a.y) + c.x * (a.y * b.z - a.z * b.y)
  {
    assert Cross(b, c).x == b.y * c.z - b.z * c.y;
    assert Cross(c, a).x == c.y * a.z - c.z * a.y;
    assert Cross(a, b).x == a.y * b.z - a.z * b.y;
  }

  lemma DualXX(a: Vec3, b: Vec3, c: Vec3)
    ensures a.x * (b.y * c.z - b.z * c.y) + b.x * (c.y * a.z - c.z * a.y) + c.x * (a.y * b.z - a.z * b.y)
         == (a.y * b.z - a.z * b.y) * c.x + (a.z * b.x - a.x * b.z) * c.y + (a.x * b.y - a.y * b.x) * c.z
  {
    DualDiagonal(a.x, a.y, a.z, b.x, b.y, b.z, c.x, c.y, c.z);
  }

  lemma FrameXY(a: Vec3, b: Vec3, c: Vec3)
    ensures Dot(Vec3(a.x, b.x, c.x), Vec3(Cross(b, c).y, Cross(c, a).y, Cross(a, b).y)) == 0.0
  {
    FrameCancel(a.x, b.x, c.x, a.z, b.z, c.z);
  }

  lemma FrameXZ(a: Vec3, b: Vec3, c: Vec3)
    ensures Dot(Vec3(a.x, b.x, c.x), Vec3(Cross(b, c).z, Cross(c, a).z, Cross(a, b).z)) == 0.0
  {
    FrameCancel(a.x, b.x, c.x, a.y, b.y, c.y);
  }


  /** The diagonal terms of the dual basis identity over the components,
      for a row 1 followed by rows 2 and 3 in cyclic order. */
  lemma DualDiagonal(a1: real, a2: real, a3: real, b1: real, b2: real, b3: real, c1: real, c2: real, c3: real)
    ensures a1 * (b2 * c3 - b3 * c2) + b1 * (c2 * a3 - c3 * a2) + c1 * (a2 * b3 - a3 * b2)
         == (a2 * b3 - a3 * b2) * c1 + (a3 * b1 - a1 * b3) * c2 + (a1 * b2 - a2 * b1) * c3
  {}

  /** The scalar triple product written out in components. */
  lemma TripleExpanded(a: Vec3, b: Vec3, c: Vec3)
    ensures ScalarTriple(a, b, c) == (a.y * b.z - a.z * b.y) * c.x + (a.z * b.x - a.x * b.z) * c.y + (a.x * b.y - a.y * b.x) * c.z
  {}

  /** The off-diagonal terms of the dual basis identity all cancel: with
      p the row being dotted and q the other row the cross products read. */
  lemma FrameCancel(p1: real, p2: real, p3: real, q1: real, q2: real, q3: real)
    ensures p1 * (p2 * q3 - q2 * p3) + p2 * (p3 * q1 - q3 * p1) + p3 * (p1 * q2 - q1 * p2) == 0.0
  {}


  /** The y row of the dual basis identity. */
  lemma CrossFrameY(a: Vec3, b: Vec3, c: Vec3)
    ensures Dot(Vec3(a.y, b.y, c.y), Vec3(Cross(b, c).x, Cross(c, a).x, Cross(a, b).x)) == 0.0
    ensures Dot(Vec3(a.y, b.y, c.y), Vec3(Cross(b, c).y, Cross(c, a).y, Cross(a, b).y)) == ScalarTriple(a, b, c)
    ensures Dot(Vec3(a.y, b.y, c.y), Vec3(Cross(b, c).z, Cross(c, a).z, Cross(a, b).z)) == 0.0
{
    FrameYX(a, b, c);
    FrameYY(a, b, c);
    FrameYZ(a, b, c);
  }

  lemma FrameYX(a: Vec3, b: Vec3, c: Vec3)
    ensures Dot(Vec3(a.y, b.y, c.y), Vec3(Cross(b, c).x, Cross(c, a).x, Cross(a, b).x)) == 0.0
  {
    FrameCancel(a.y, b.y, c.y, a.z, b.z, c.z);
  }

  lemma FrameYY(a: Vec3, b: Vec3, c: Vec3)
    ensures Dot(Vec3(a.y, b.y, c.y), Vec3(Cross(b, c).y, Cross(c, a).y, Cross(a, b).y)) == ScalarTriple(a, b, c)
  {
    FrameYYExpanded(a, b, c);
    TripleExpanded(a, b, c);
    DualYY(a, b, c);
  }

  lemma FrameYYExpanded(a: Vec3, b: Vec3, c: Vec3)
    ensures Dot(Vec3(a.y, b.y, c.y), Vec3(Cross(b, c).y, Cross(c, a).y, Cross(a, b).y))
         == a.y * (b.z * c.x - b.x * c.z) + b.y * (c.z * a.x - c.x * a.z) + c.y * (a.z * b.x - a.x * b.z)
  {}

  lemma DualYY(a: Vec3, b: Vec3, c: Vec3)
    ensures a.y * (b.z * c.x - b.x * c.z) + b.y * (c.z * a.x - c.x * a.z) + c.y * (a.z * b.x - a.x * b.z)
         == (a.y * b.z - a.z * b.y) * c.x + (a.z * b.x - a.x * b.z) * c.y + (a.x * b.y - a.y * b.x) * c.z
  {
    DualDiagonal(a.y, a.z, a.x, b.y, b.z, b.x, c.y, c.z, c.x);
  }

  lemma FrameYZ(a: Vec3, b: Vec3, c: Vec3)
    ensures Dot(Vec3(a.y, b.y, c.y), Vec3(Cross(b, c).z, Cross(c, a).z, Cross(a, b).z)) == 0.0
  {
    FrameCancel(a.y, b.y, c.y, a.x, b.x, c.x);
  }


  /** The z row of the dual basis identity. */
  lemma CrossFrameZ(a: Vec3, b: Vec3, c: Vec3)
    ensures Dot(Vec3(a.z, b.z, c.z), Vec3(Cross(b, c).x, Cross(c, a).x, Cross(a, b).x)) == 0.0
    ensures Dot(Vec3(a.z, b.z, c.z), Vec3(Cross(b, c).y, Cross(c, a).y, Cross(a, b).y)) == 0.0
    ensures Dot(Vec3(a.z, b.z, c.z), Vec3(Cross(b, c).z, Cross(c, a).z, Cross(a, b).z)) == ScalarTriple(a, b, c)
{
    FrameZX(a, b, c);
    FrameZY(a, b, c);
    FrameZZ(a, b, c);
  }

  lemma FrameZX(a: Vec3, b: Vec3, c: Vec3)
    ensures Dot(Vec3(a.z, b.z, c.z), Vec3(Cross(b, c).x, Cross(c, a).x, Cross(a, b).x)) == 0.0
  {
    FrameCancel(a.z, b.z, c.z, a.y, b.y, c.y);
  }

  lemma FrameZY(a: Vec3, b: Vec3, c: Vec3)
    ensures Dot(Vec3(a.z, b.z, c.z), Vec3(Cross(b, c).y, Cross(c, a).y, Cross(a, b).y)) == 0.0
  {
    FrameCancel(a.z, b.z, c.z, a.x, b.x, c.x);
  }

  lemma FrameZZ(a: Vec3, b: Vec3, c: Vec3)
    ensures Dot(Vec3(a.z, b.z, c.z), Vec3(Cross(b, c).z, Cross(c, a).z, Cross(a, b).z)) == ScalarTriple(a, b, c)
  {
    FrameZZExpanded(a, b, c);
    TripleExpanded(a, b, c);
    DualZZ(a, b, c);
  }

  lemma FrameZZExpanded(a: Vec3, b: Vec3, c: Vec3)
    ensures Dot(Vec3(a.z, b.z, c.z), Vec3(Cross(b, c).z, Cross(c, a).z, Cross(a, b).z))
         == a.z * (b.x * c.y - b.y * c.x) + b.z * (c.x * a.y - c.y * a.x) + c.z * (a.x * b.y - a.y * b.x)
  {}

  lemma DualZZ(a: Vec3, b: Vec3, c: Vec3)
    ensures a.z * (b.x * c.y - b.y * c.x) + b.z * (c.x * a.y - c.y * a.x) + c.z * (a.x * b.y - a.y * b.x)
         == (a.y * b.z - a.z * b.y) * c.x + (a.z * b.x - a.x * b.z) * c.y + (a.x * b.y - a.y * b.x) * c.z
  {
    DualDiagonal(a.z, a.x, a.y, b.z, b.x, b.y, c.z, c.x, c.y);
  }


  /** The rejection is orthogonal to b, and projection plus rejection gives a back. */
  lemma ProjectRejectSplit(a: Vec3, b: Vec3)
    requires Dot(b, b) != 0.0
    ensures Dot(Reject(a, b), b) == 0.0
    ensures Add(Project(a, b), Reject(a, b)) == a
  {
    var k := Dot(a, b) / Dot(b, b);
    assert k * Dot(b, b) == Dot(a, b);
    assert Dot(Reject(a, b), b) == Dot(a, b) - k * Dot(b, b);
  }

  /** A non-zero vector has a non-zero magnitude and normalizes to unit length. */
  lemma NormalizeIsUnit(lib: MathLib, v: Vec3)
    requires Laws(lib)
    requires v != Zero()
    ensures Magnitude(lib, v) != 0.0
    ensures MagSquared(Normalize(lib, v)) == 1.0
  {
    var d := Dot(v, v);
    var r := lib.sqrt(d);
    MagSquaredPositive(v);
    assert r * r == d;
    var k := 1.0 / r;
    assert MagSquared(Normalize(lib, v)) == k * k * d;
    assert k * k * d == (k * r) * (k * r);
  }

  // Dot-product forms of the cross-product laws, used by the 4x4 inverse.

  /** The dot product is linear in its first argument. */
  lemma DotAddScaled(e: Vec3, f: Vec3, k: real, g: Vec3)
    ensures Dot(Add(e, ScaleRight(f, k)), g) == Dot(e, g) + k * Dot(f, g)
  {}

  lemma DotSubScaled(e: Vec3, f: Vec3, k: real, g: Vec3)
    ensures Dot(Sub(e, ScaleRight(f, k)), g) == Dot(e, g) - k * Dot(f, g)
  {}

  /** The dot product is linear in its second argument. */
  lemma DotCombination(e: Vec3, p: Vec3, k: real, q: Vec3, l: real)
    ensures Dot(e, Sub(ScaleRight(p, k), ScaleRight(q, l))) == k * Dot(e, p) - l * Dot(e, q)
  {}

  lemma DotSymmetric(p: Vec3, q: Vec3)
    ensures Dot(p, q) == Dot(q, p)
  {}

  /** (p x q) . r is invariant under a cyclic shift of p, q, r. */
  lemma CrossDotCyclic(p: Vec3, q: Vec3, r: Vec3)
    ensures Dot(Cross(p, q), r) == Dot(Cross(q, r), p)
  {}

  /** Swapping the factors of the cross product negates (p x q) . r. */
  lemma CrossDotSwap(p: Vec3, q: Vec3, r: Vec3)
    ensures Dot(Cross(q, p), r) == -Dot(Cross(p, q), r)
  {}

  /** p x q is orthogonal to both of its factors. */
  lemma CrossDotRepeated(p: Vec3, q: Vec3)
    ensures Dot(Cross(p, q), p) == 0.0
    ensures Dot(Cross(p, q), q) == 0.0
  {}

  // Laws used by the rotation proofs.

  /** The squared length of a sum. */
  lemma DotOfSum(a: Vec3, b: Vec3)
    ensures Dot(Add(a, b), Add(a, b)) == Dot(a, a) + 2.0 * Dot(a, b) + Dot(b, b)
  {}

  /** The squared length of a vector whose components are each zero or one
      is the number of ones. */
  lemma SquaredLength(a: real, b: real, c: real)
    requires a == 0.0 || a == 1.0
    requires b == 0.0 || b == 1.0
    requires c == 0.0 || c == 1.0
    ensures MagSquared(Vec3(a, b, c)) == a + b + c
  {
    assert a * a == a;
    assert b * b == b;
    assert c * c == c;
  }

  /** The dot product with the factors of each term swapped. */
  lemma DotReversed(b: Vec3, c: Vec3)
    ensures Dot(b, c) == c.x * b.x + c.y * b.y + c.z * b.z
  {}

  /** Scaling either factor scales the dot product. */
  lemma DotScaledBoth(k: real, p: Vec3, l: real, q: Vec3)
    ensures Dot(Scale(k, p), Scale(l, q)) == k * l * Dot(p, q)
  {
    assert Dot(Scale(k, p), Scale(l, q)) == (k * l) * (p.x * q.x) + (k * l) * (p.y * q.y) + (k * l) * (p.z * q.z);
  }

  /** Lagrange's identity: |a x b|^2 == |a|^2 |b|^2 - (a . b)^2. */
  lemma CrossLength(a: Vec3, b: Vec3)
    ensures Dot(Cross(a, b), Cross(a, b)) == Dot(a, a) * Dot(b, b) - Dot(a, b) * Dot(a, b)
  {
    CrossSelfDot(a, b);
    DotsProduct(a, b);
    DotSquared(a, b);
    CrossLengthExpanded(a, b);
  }

  // The three sides of Lagrange's identity written out in components.

  lemma CrossSelfDot(a: Vec3, b: Vec3)
    ensures Dot(Cross(a, b), Cross(a, b))
         == (a.y * b.z - a.z * b.y) * (a.y * b.z - a.z * b.y) + (a.z * b.x - a.x * b.z) * (a.z * b.x - a.x * b.z)
            + (a.x * b.y - a.y * b.x) * (a.x * b.y - a.y * b.x)
  {}

  lemma DotsProduct(a: Vec3, b: Vec3)
    ensures Dot(a, a) * Dot(b, b) == (a.x * a.x + a.y * a.y + a.z * a.z) * (b.x * b.x + b.y * b.y + b.z * b.z)
  {}

  lemma DotSquared(a: Vec3, b: Vec3)
    ensures Dot(a, b) * Dot(a, b) == (a.x * b.x + a.y * b.y + a.z * b.z) * (a.x * b.x + a.y * b.y + a.z * b.z)
  {}

  lemma CrossLengthExpanded(a: Vec3, b: Vec3)
    ensures (a.y * b.z - a.z * b.y) * (a.y * b.z - a.z * b.y) + (a.z * b.x - a.x * b.z) * (a.z * b.x - a.x * b.z)
            + (a.x * b.y - a.y * b.x) * (a.x * b.y - a.y * b.x)
         == (a.x * a.x + a.y * a.y + a.z * a.z) * (b.x * b.x + b.y * b.y + b.z * b.z)
            - (a.x * b.x + a.y * b.y + a.z * b.z) * (a.x * b.x + a.y * b.y + a.z * b.z)
  {
    CrossLengthReal(a.x, a.y, a.z, b.x, b.y, b.z);
  }

  lemma CrossLengthReal(a1: real, a2: real, a3: real, b1: real, b2: real, b3: real)
    ensures (a2 * b3 - a3 * b2) * (a2 * b3 - a3 * b2) + (a3 * b1 - a1 * b3) * (a3 * b1 - a1 * b3) + (a1 * b2 - a2 * b1) * (a1 * b2 - a2 * b1)
         == (a1 * a1 + a2 * a2 + a3 * a3) * (b1 * b1 + b2 * b2 + b3 * b3) - (a1 * b1 + a2 * b2 + a3 * b3) * (a1 * b1 + a2 * b2 + a3 * b3)
  {}

  /** A cross product is determined component by component. */
  lemma CrossComponents(a: Vec3, b: Vec3, e: Vec3)
    ensures Cross(a, b) == e
        <==> a.y * b.z - a.z * b.y == e.x && a.z * b.x - a.x * b.z == e.y && a.x * b.y - a.y * b.x == e.z
  {}
}
