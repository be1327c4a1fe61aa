/** Four-component vectors (Vector4D.cpp), used as homogeneous coordinates.
    A value type: every operation returns a fresh vector. */
module Vector4D {
  import opened MathLib
  import Vector3D

  datatype Vec4 = Vec4(x: real, y: real, z: real, w: real)

  /** The default constructor: the zero vector. */
  function Zero(): Vec4 { Vec4(0.0, 0.0, 0.0, 0.0) }

  /** The constructor that injects a 3D vector, with the given w. */
  function FromVec3(v: Vector3D.Vec3, w: real): (r: Vec4)
    ensures Vector3D.Vec3(r.x, r.y, r.z) == v && r.w == w
  {
    Vec4(v.x, v.y, v.z, w)
  }

  function Neg(v: Vec4): Vec4 { Vec4(-v.x, -v.y, -v.z, -v.w) }

  function Add(l: Vec4, r: Vec4): Vec4 { Vec4(l.x + r.x, l.y + r.y, l.z + r.z, l.w + r.w) }

  /** `l - r` is `l + (-r)`. */
  function Sub(l: Vec4, r: Vec4): Vec4 { Add(l, Neg(r)) }

  /** `s * v`. */
  function Scale(s: real, v: Vec4): Vec4 { Vec4(s * v.x, s * v.y, s * v.z, s * v.w) }

  /** `v * s`, defined as `s * v`. */
  function ScaleRight(v: Vec4, s: real): Vec4 { Scale(s, v) }

  /** `v / s`, defined as `(1 / s) * v`. */
  function Div(v: Vec4, s: real): Vec4
    requires s != 0.0
  {
    Scale(1.0 / s, v)
  }

  /** `operator==`: component-wise comparison. */
  predicate Equal(l: Vec4, r: Vec4) { l.x == r.x && l.y == r.y && l.z == r.z && l.w == r.w }

  predicate NotEqual(l: Vec4, r: Vec4) { !Equal(l, r) }

  function Dot(l: Vec4, r: Vec4): real { l.x * r.x + l.y * r.y + l.z * r.z + l.w * r.w }

  function Project(a: Vec4, b: Vec4): Vec4
    requires Dot(b, b) != 0.0
  {
    Scale(Dot(a, b) / Dot(b, b), b)
  }

  function Reject(a: Vec4, b: Vec4): Vec4
    requires Dot(b, b) != 0.0
  {
    Sub(a, Project(a, b))
  }

  /** Makes v a homogeneous point: a direction (w == 0) gets w = 1 added,
      anything else is divided by its w. */
  function Pointify(v: Vec4): Vec4 {
    if v.w == 0.0 then Add(v, Vec4(0.0, 0.0, 0.0, 1.0)) else Div(v, v.w)
  }

  function MagSquared(v: Vec4): real { Dot(v, v) }

  function Magnitude(lib: MathLib, v: Vec4): real { lib.sqrt(Dot(v, v)) }

  function MagInverse(lib: MathLib, v: Vec4): real
    requires Magnitude(lib, v) != 0.0
  {
    1.0 / Magnitude(lib, v)
  }

  function Normalize(lib: MathLib, v: Vec4): Vec4
    requires Magnitude(lib, v) != 0.0
  {
    Div(v, Magnitude(lib, v))
  }

  // ---------------------------------------------------------------------
  // Properties

  lemma EqualIsComponentwise(l: Vec4, r: Vec4)
    ensures Equal(l, r) <==> l == r
    ensures NotEqual(l, r) <==> l != r
  {}

  /** Negation is an involution, and subtraction undoes addition. */
  lemma NegSubLaws(l: Vec4, r: Vec4)
    ensures Neg(Neg(l)) == l
    ensures Sub(Add(l, r), r) == l
    ensures Sub(l, l) == Zero()
  {}

  /** Both scalar products agree, and division by s is undone by scaling by s. */
  lemma ScaleDivLaws(v: Vec4, s: real)
    ensures ScaleRight(v, s) == Scale(s, v)
    ensures s != 0.0 ==> Scale(s, Div(v, s)) == v
  {
    if s != 0.0 {
      ScaleCancel(s, v);
    }
  }

  /** Scaling by s undoes scaling by 1 / s. */
  lemma ScaleCancel(s: real, v: Vec4)
    requires s != 0.0
    ensures Scale(s, Scale(1.0 / s, v)) == v
  {
    CancelFactor(s, v.x);
    CancelFactor(s, v.y);
    CancelFactor(s, v.z);
    CancelFactor(s, v.w);
  }

  /** Scaling composes by multiplying the factors and distributes over sums. */
  lemma ScaleTwice(s: real, t: real, u: Vec4)
    ensures Scale(s, Scale(t, u)) == Scale(s * t, u)
  {}

  lemma ScaleOverAdd(s: real, u: Vec4, v: Vec4)
    ensures Scale(s, Add(u, v)) == Add(Scale(s, u), Scale(s, v))
  {}

  lemma ScaleFactorsAdd(s: real, t: real, u: Vec4)
    ensures Add(Scale(s, u), Scale(t, u)) == Scale(s + t, u)
  {}

  /** Negation distributes over sums and commutes with scaling. */
  lemma NegLinear(s: real, u: Vec4, v: Vec4)
    ensures Neg(Add(u, v)) == Add(Neg(u), Neg(v))
    ensures Scale(s, Neg(u)) == Neg(Scale(s, u))
  {}

  /** Equal factors scale alike (stated so that an arithmetic equality between
      the factors carries over to the scaled vectors). */
  lemma ScaleEqual(s: real, t: real, u: Vec4)
    requires s == t
    ensures Scale(s, u) == Scale(t, u)
  {}

  /** A factor equal to one changes nothing. */
  lemma ScaleByOne(t: real, u: Vec4)
    requires t == 1.0
    ensures Scale(t, u) == u
  {}

  /** The dot product is symmetric and linear in its first argument. */
  lemma DotSymmetricBilinear(a: Vec4, b: Vec4, c: Vec4, s: real)
    ensures Dot(a, b) == Dot(b, a)
    ensures Dot(Add(a, b), c) == Dot(a, c) + Dot(b, c)
    ensures Dot(Scale(s, a), b) == s * Dot(a, b)
  {}

  /** Scaling the first argument scales the dot product. */
  lemma DotScaleFactor(s: real, b: Vec4, c: Vec4)
    ensures Dot(Scale(s, b), c) == Dot(b, c) * s
  {}

  /** The vector whose i-th component is (a_i b) . c is a scaled by b . c. */
  lemma ScaleByDots(a: Vec4, b: Vec4, c: Vec4, r: Vec4)
    requires r == Vec4(Dot(Scale(a.x, b), c), Dot(Scale(a.y, b), c), Dot(Scale(a.z, b), c), Dot(Scale(a.w, b), c))
    ensures r == Scale(Dot(b, c), a)
  {
    DotScaleFactor(a.x, b, c);
    DotScaleFactor(a.y, b, c);
    DotScaleFactor(a.z, b, c);
    DotScaleFactor(a.w, b, c);
    ScaleComponents(Dot(b, c), a, r);
  }

  /** A vector whose components are those of a times d is a scaled by d. */
  lemma ScaleComponents(d: real, a: Vec4, r: Vec4)
    requires r.x == d * a.x && r.y == d * a.y && r.z == d * a.z && r.w == d * a.w
    ensures r == Scale(d, a)
  {}

  /** The squared magnitude is never negative, and it is positive for every
      vector but the zero vector. */
  lemma MagSquaredPositive(v: Vec4)
    ensures 0.0 <= MagSquared(v)
    ensures v != Zero() ==> 0.0 < MagSquared(v)
  {
    SquareNonNegative(v.x);
    SquareNonNegative(v.y);
    SquareNonNegative(v.z);
    SquareNonNegative(v.w);
    if v.x != 0.0 { SquarePositive(v.x); }
    if v.y != 0.0 { SquarePositive(v.y); }
    if v.z != 0.0 { SquarePositive(v.z); }
    if v.w != 0.0 { SquarePositive(v.w); }
    assert MagSquared(v) == Square(v.x) + Square(v.y) + Square(v.z) + Square(v.w);
  }

  /** The squared magnitude is zero exactly for the zero vector. */
  lemma MagSquaredZero(v: Vec4)
    ensures MagSquared(v) == 0.0 <==> v == Zero()
  {
    if v != Zero() {
      MagSquaredPositive(v);
    }
  }

  /** The rejection is orthogonal to b, and projection plus rejection gives a back. */
  lemma ProjectRejectSplit(a: Vec4, b: Vec4)
    requires Dot(b, b) != 0.0
    ensures Dot(Reject(a, b), b) == 0.0
    ensures Add(Project(a, b), Reject(a, b)) == a
  {
    var k := Dot(a, b) / Dot(b, b);
    assert k * Dot(b, b) == Dot(a, b);
    assert Dot(Reject(a, b), b) == Dot(a, b) - k * Dot(b, b);
  }

  /** Pointify always yields w == 1. A direction keeps its x, y and z; any
      other vector is the same homogeneous point, rescaled: scaling the
      result by the old w gives the vector back. */
  lemma PointifyHomogeneous(v: Vec4)
    ensures Pointify(v).w == 1.0
    ensures v.w == 0.0 ==> Pointify(v) == Vec4(v.x, v.y, v.z, 1.0)
    ensures v.w != 0.0 ==> Scale(v.w, Pointify(v)) == v
  {
    if v.w != 0.0 {
      assert v.w * (1.0 / v.w) == 1.0;
    }
  }

  /** A point that is already homogeneous is left alone, so Pointify is
      idempotent. */
  lemma PointifyIdempotent(v: Vec4)
    ensures Pointify(Pointify(v)) == Pointify(v)
  {
    PointifyHomogeneous(v);
    var p := Pointify(v);
    assert 1.0 / p.w == 1.0;
  }

  /** A non-zero vector has a non-zero magnitude and normalizes to unit length. */
  lemma NormalizeIsUnit(lib: MathLib, v: Vec4)
    requires Laws(lib)
    requires v != Zero()
    ensures Magnitude(lib, v) != 0.0
    ensures MagSquared(Normalize(lib, v)) == 1.0
  {
    var d := Dot(v, v);
    var r := lib.sqrt(d);
    MagSquaredPositive(v);
    assert r * r == d;
    var k := 1.0 / r;
    assert MagSquared(Normalize(lib, v)) == k * k * d;
    assert k * k * d == (k * r) * (k * r);
  }
}
