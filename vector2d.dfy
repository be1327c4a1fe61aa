/** Two-component vectors (Vector2D.cpp). A value type: every operation
    returns a fresh vector. */
module Vector2D {
  import opened MathLib

  datatype Vec2 = Vec2(x: real, y: real)

  /** The default constructor: the zero vector. */
  function Zero(): Vec2 { Vec2(0.0, 0.0) }

  function Neg(v: Vec2): Vec2 { Vec2(-v.x, -v.y) }

  function Add(l: Vec2, r: Vec2): Vec2 { Vec2(l.x + r.x, l.y + r.y) }

  /** `l - r` is `l + (-r)`. */
  function Sub(l: Vec2, r: Vec2): Vec2 { Add(l, Neg(r)) }

  /** `s * v`. */
  function Scale(s: real, v: Vec2): Vec2 { Vec2(s * v.x, s * v.y) }

  /** `v * s`, defined as `s * v`. */
  function ScaleRight(v: Vec2, s: real): Vec2 { Scale(s, v) }

  /** `v / s`, defined as `(1 / s) * v`. */
  function Div(v: Vec2, s: real): Vec2
    requires s != 0.0
  {
    Scale(1.0 / s, v)
  }

  /** `operator==`: component-wise comparison. */
  predicate Equal(l: Vec2, r: Vec2) { l.x == r.x && l.y == r.y }

  predicate NotEqual(l: Vec2, r: Vec2) { !Equal(l, r) }

  function Dot(l: Vec2, r: Vec2): real { l.x * r.x + l.y * r.y }

  function Project(a: Vec2, b: Vec2): Vec2
    requires Dot(b, b) != 0.0
  {
    Scale(Dot(a, b) / Dot(b, b), b)
  }

  function Reject(a: Vec2, b: Vec2): Vec2
    requires Dot(b, b) != 0.0
  {
    Sub(a, Project(a, b))
  }

  function MagSquared(v: Vec2): real { Dot(v, v) }

  function Magnitude(lib: MathLib, v: Vec2): real { lib.sqrt(Dot(v, v)) }

  function MagInverse(lib: MathLib, v: Vec2): real
    requires Magnitude(lib, v) != 0.0
  {
    1.0 / Magnitude(lib, v)
  }

  function Normalize(lib: MathLib, v: Vec2): Vec2
    requires Magnitude(lib, v) != 0.0
  {
    Div(v, Magnitude(lib, v))
  }

  // ---------------------------------------------------------------------
  // Properties

  lemma EqualIsComponentwise(l: Vec2, r: Vec2)
    ensures Equal(l, r) <==> l == r
    ensures NotEqual(l, r) <==> l != r
  {}

  /** Negation is an involution, and subtraction undoes addition. */
  lemma NegSubLaws(l: Vec2, r: Vec2)
    ensures Neg(Neg(l)) == l
    ensures Sub(Add(l, r), r) == l
    ensures Sub(l, l) == Zero()
  {}

  /** Both scalar products agree, and division by s is undone by scaling by s. */
  lemma ScaleDivLaws(v: Vec2, s: real)
    ensures ScaleRight(v, s) == Scale(s, v)
    ensures s != 0.0 ==> Scale(s, Div(v, s)) == v
  {
    if s != 0.0 {
      CancelFactor(s, v.x);
      CancelFactor(s, v.y);
    }
  }

  /** Scaling composes by multiplying the factors and distributes over sums. */
  lemma ScaleAlgebra(s: real, t: real, u: Vec2, v: Vec2)
    ensures Scale(s, Scale(t, u)) == Scale(s * t, u)
    ensures Scale(s, Add(u, v)) == Add(Scale(s, u), Scale(s, v))
    ensures Add(Scale(s, u), Scale(t, u)) == Scale(s + t, u)
  {}

  /** The dot product is symmetric and linear in its first argument. */
  lemma DotSymmetricBilinear(a: Vec2, b: Vec2, c: Vec2, s: real)
    ensures Dot(a, b) == Dot(b, a)
    ensures Dot(Add(a, b), c) == Dot(a, c) + Dot(b, c)
    ensures Dot(Scale(s, a), b) == s * Dot(a, b)
  {}

  /** The squared magnitude is never negative, and it is positive for every
      vector but the zero vector. */
  lemma MagSquaredPositive(v: Vec2)
    ensures 0.0 <= MagSquared(v)
    ensures v != Zero() ==> 0.0 < MagSquared(v)
  {
    SquareNonNegative(v.x);
    SquareNonNegative(v.y);
    if v.x != 0.0 { SquarePositive(v.x); }
    if v.y != 0.0 { SquarePositive(v.y); }
    assert MagSquared(v) == Square(v.x) + Square(v.y);
  }

  /** The squared magnitude is zero exactly for the zero vector. */
  lemma MagSquaredZero(v: Vec2)
    ensures MagSquared(v) == 0.0 <==> v == Zero()
  {
    if v != Zero() {
      MagSquaredPositive(v);
    }
  }

  /** The rejection is orthogonal to b, and projection plus rejection gives a back. */
  lemma ProjectRejectSplit(a: Vec2, b: Vec2)
    requires Dot(b, b) != 0.0
    ensures Dot(Reject(a, b), b) == 0.0
    ensures Add(Project(a, b), Reject(a, b)) == a
  {
    var k := Dot(a, b) / Dot(b, b);
    assert k * Dot(b, b) == Dot(a, b);
    assert Dot(Reject(a, b), b) == Dot(a, b) - k * Dot(b, b);
  }

  /** Projecting twice onto b is projecting once. */
  lemma ProjectIdempotent(a: Vec2, b: Vec2)
    requires Dot(b, b) != 0.0
    ensures Project(Project(a, b), b) == Project(a, b)
  {
    var k := Dot(a, b) / Dot(b, b);
    assert Dot(Project(a, b), b) == k * Dot(b, b);
    assert k * Dot(b, b) / Dot(b, b) == k;
  }

  /** A non-zero vector has a non-zero magnitude and normalizes to unit length. */
  lemma NormalizeIsUnit(lib: MathLib, v: Vec2)
    requires Laws(lib)
    requires v != Zero()
    ensures Magnitude(lib, v) != 0.0
    ensures MagSquared(Normalize(lib, v)) == 1.0
  {
    var d := Dot(v, v);
    var r := lib.sqrt(d);
    MagSquaredPositive(v);
    assert r * r == d;
    var k := 1.0 / r;
    assert MagSquared(Normalize(lib, v)) == k * k * d;
    assert k * k * d == (k * r) * (k * r);
  }
}
