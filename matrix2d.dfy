/** 2x2 matrices (Matrix2D.cpp). The source keeps the entries in a private
    grid `n[2][2]` in column-major order: `n[j]` is column j and entry (i, j)
    lives at `n[j][i]`. The model keeps the same layout: a matrix is its two
    columns. */
module Matrix2D {
  import opened MathLib
  import V = Vector2D

  datatype Mat2 = Mat2(c0: V.Vec2, c1: V.Vec2)

  /** The default constructor: the identity matrix. */
  function Identity(): Mat2 { Mat2(V.Vec2(1.0, 0.0), V.Vec2(0.0, 1.0)) }

  /** The constructor taking the entries row by row; entry nij is stored in
      column j. */
  function FromEntries(n00: real, n01: real, n10: real, n11: real): Mat2 {
    Mat2(V.Vec2(n00, n10), V.Vec2(n01, n11))
  }

  /** The constructor taking the two columns. */
  function FromColumns(a: V.Vec2, b: V.Vec2): Mat2 { Mat2(a, b) }

  /** `m[j]` and `m.col(j)`: column j. */
  function Col(m: Mat2, j: int): V.Vec2
    requires 0 <= j < 2
  {
    if j == 0 then m.c0 else m.c1
  }

  /** `m(i, j)`: component i of column j. */
  function At(m: Mat2, i: int, j: int): real
    requires 0 <= i < 2 && 0 <= j < 2
  {
    var c := Col(m, j);
    if i == 0 then c.x else c.y
  }

  /** `m.row(i)`: a copy of row i, gathered from both columns. */
  function Row(m: Mat2, i: int): V.Vec2
    requires 0 <= i < 2
  {
    if i == 0 then Row0(m) else Row1(m)
  }

  function Row0(m: Mat2): V.Vec2 { V.Vec2(m.c0.x, m.c1.x) }
  function Row1(m: Mat2): V.Vec2 { V.Vec2(m.c0.y, m.c1.y) }

  /** Writing `m[j] = c` through the reference that `operator[]` returns. */
  function SetCol(m: Mat2, j: int, c: V.Vec2): Mat2
    requires 0 <= j < 2
  {
    if j == 0 then m.(c0 := c) else m.(c1 := c)
  }

  /** Writing `m(i, j) = s` through the reference that `operator()` returns. */
  function SetEntry(m: Mat2, i: int, j: int, s: real): Mat2
    requires 0 <= i < 2 && 0 <= j < 2
  {
    var c := Col(m, j);
    SetCol(m, j, if i == 0 then c.(x := s) else c.(y := s))
  }

  function Neg(m: Mat2): Mat2 { Mat2(V.Neg(m.c0), V.Neg(m.c1)) }

  /** `s * m`. */
  function Scale(s: real, m: Mat2): Mat2 { Mat2(V.Scale(s, m.c0), V.Scale(s, m.c1)) }

  /** `m * s`, defined as `s * m`. */
  function ScaleRight(m: Mat2, s: real): Mat2 { Scale(s, m) }

  /** `m / s`, defined as `(1 / s) * m`. */
  function Div(m: Mat2, s: real): Mat2
    requires s != 0.0
  {
    Scale(1.0 / s, m)
  }

  function Add(l: Mat2, r: Mat2): Mat2 { Mat2(V.Add(l.c0, r.c0), V.Add(l.c1, r.c1)) }

  /** `l - r` is `l + (-r)`. */
  function Sub(l: Mat2, r: Mat2): Mat2 { Add(l, Neg(r)) }

  /** The matrix product, entry (i, j) being row i of l dotted with column j of r. */
  function Mul(l: Mat2, r: Mat2): Mat2 {
    FromEntries(V.Dot(Row0(l), r.c0), V.Dot(Row0(l), r.c1),
                V.Dot(Row1(l), r.c0), V.Dot(Row1(l), r.c1))
  }

  /** `m * v` for a column vector: a combination of the columns of m. */
  function Apply(m: Mat2, v: V.Vec2): V.Vec2 {
    V.Add(V.Scale(v.x, m.c0), V.Scale(v.y, m.c1))
  }

  /** `v * m` for a row vector: a combination of the rows of m. */
  function ApplyRow(v: V.Vec2, m: Mat2): V.Vec2 {
    V.Add(V.Scale(v.x, Row0(m)), V.Scale(v.y, Row1(m)))
  }

  /** `operator==`: both columns compare equal. */
  predicate Equal(l: Mat2, r: Mat2) { V.Equal(l.c0, r.c0) && V.Equal(l.c1, r.c1) }

  predicate NotEqual(l: Mat2, r: Mat2) { !Equal(l, r) }

  /** m(0,0) m(1,1) - m(0,1) m(1,0). */
  function Determinant(m: Mat2): real {
    m.c0.x * m.c1.y - m.c1.x * m.c0.y
  }

  /** The closed-form inverse: the swapped diagonal and negated off-diagonal,
      over the determinant. */
  function Inverse(m: Mat2): Mat2
    requires Determinant(m) != 0.0
  {
    var invDet := 1.0 / Determinant(m);
    FromEntries(m.c1.y * invDet, -m.c1.x * invDet,
                -m.c0.y * invDet, m.c0.x * invDet)
  }

  /** The inverse computed as the adjugate over the determinant. */
  function InverseAdj(m: Mat2): Mat2
    requires Determinant(m) != 0.0
  {
    Div(Adjugate(m), Determinant(m))
  }

  /** The 1x1 minor at (i, j): the entry in the other row and column. */
  function Minor(m: Mat2, i: int, j: int): real
    requires 0 <= i < 2 && 0 <= j < 2
  {
    At(m, (i + 1) % 2, (j + 1) % 2)
  }

  /** The minor with the sign of the checkerboard pattern. */
  function Cofactor(m: Mat2, i: int, j: int): real
    requires 0 <= i < 2 && 0 <= j < 2
  {
    (if (i + j) % 2 == 0 then 1.0 else -1.0) * Minor(m, i, j)
  }

  function CofactorMatrix(m: Mat2): Mat2 {
    FromEntries(Cofactor(m, 0, 0), Cofactor(m, 0, 1),
                Cofactor(m, 1, 0), Cofactor(m, 1, 1))
  }

  function Adjugate(m: Mat2): Mat2 { Transpose(CofactorMatrix(m)) }

  /** The rows of m become the columns of the result. */
  function Transpose(m: Mat2): Mat2 { FromColumns(Row0(m), Row1(m)) }

  /** The outer product: a as a column times b as a row. */
  function Outer(a: V.Vec2, b: V.Vec2): Mat2 {
    FromEntries(a.x * b.x, a.x * b.y,
                a.y * b.x, a.y * b.y)
  }

  /** The matrix projecting onto b. */
  function MakeProjection(b: V.Vec2): Mat2
    requires V.MagSquared(b) != 0.0
  {
    Scale(1.0 / V.MagSquared(b), Outer(b, b))
  }

  /** The matrix rejecting from b: the identity minus the projection. */
  function MakeRejection(b: V.Vec2): Mat2
    requires V.MagSquared(b) != 0.0
  {
    Sub(Identity(), MakeProjection(b))
  }

  /** The counter-clockwise rotation by theta radians. */
  function MakeRotation(lib: MathLib, theta: real): Mat2 {
    FromEntries(lib.cos(theta), -lib.sin(theta),
                lib.sin(theta), lib.cos(theta))
  }

  /** The reflected figure: the vertex matrix m times a reflection matrix. */
  function ReflectMatrix(m: Mat2, reflection: Mat2): Mat2 { Mul(m, reflection) }

  /** The common reflection matrices. */
  function ReflectAcrossX(): Mat2 { FromEntries(1.0, 0.0, 0.0, -1.0) }
  function ReflectAcrossY(): Mat2 { FromEntries(-1.0, 0.0, 0.0, 1.0) }
  function ReflectInOrigin(): Mat2 { FromEntries(-1.0, 0.0, 0.0, -1.0) }
  function ReflectAcrossDiagonal(): Mat2 { FromEntries(0.0, 1.0, 1.0, 0.0) }

  // ---------------------------------------------------------------------
  // Storage

  /** The row-by-row constructor puts nij at (i, j); the column constructor
      makes its arguments the columns. */
  lemma StorageMapping(n00: real, n01: real, n10: real, n11: real, a: V.Vec2, b: V.Vec2)
    ensures At(FromEntries(n00, n01, n10, n11), 0, 0) == n00
    ensures At(FromEntries(n00, n01, n10, n11), 0, 1) == n01
    ensures At(FromEntries(n00, n01, n10, n11), 1, 0) == n10
    ensures At(FromEntries(n00, n01, n10, n11), 1, 1) == n11
    ensures Col(FromColumns(a, b), 0) == a && Col(FromColumns(a, b), 1) == b
  {}

  /** Every matrix is the one its entries build; row i holds the entries
      (i, 0) and (i, 1); the determinant and the closed-form inverse are the
      entry formulas m(0,0) m(1,1) - m(0,1) m(1,0) and
      (m(1,1), -m(0,1); -m(1,0), m(0,0)) / det. */
  lemma EntryForms(m: Mat2)
    ensures FromEntries(At(m, 0, 0), At(m, 0, 1), At(m, 1, 0), At(m, 1, 1)) == m
    ensures forall i :: 0 <= i < 2 ==> Row(m, i) == V.Vec2(At(m, i, 0), At(m, i, 1))
    ensures Determinant(m) == At(m, 0, 0) * At(m, 1, 1) - At(m, 0, 1) * At(m, 1, 0)
    ensures Determinant(m) != 0.0 ==>
      (Inverse(m) == Div(FromEntries(At(m, 1, 1), -At(m, 0, 1), -At(m, 1, 0), At(m, 0, 0)), Determinant(m)))
  {}

  /** A write through `m(i, j)` changes that entry and no other. */
  lemma SetEntryFrame(m: Mat2, i: int, j: int, s: real)
    requires 0 <= i < 2 && 0 <= j < 2
    ensures forall k, l :: 0 <= k < 2 && 0 <= l < 2 ==>
      At(SetEntry(m, i, j, s), k, l) == if k == i && l == j then s else At(m, k, l)
  {}

  /** A write through `m[j]` replaces column j and no other. */
  lemma SetColFrame(m: Mat2, j: int, c: V.Vec2)
    requires 0 <= j < 2
    ensures forall l :: 0 <= l < 2 ==> Col(SetCol(m, j, c), l) == if l == j then c else Col(m, l)
  {}

  lemma EqualIsComponentwise(l: Mat2, r: Mat2)
    ensures Equal(l, r) <==> l == r
    ensures NotEqual(l, r) <==> l != r
  {}

  // ---------------------------------------------------------------------
  // Arithmetic and products

  /** Subtraction undoes addition, and division by s is undone by scaling by s. */
  lemma ArithmeticLaws(l: Mat2, r: Mat2, s: real)
    ensures Sub(Add(l, r), r) == l
    ensures Sub(l, l) == Scale(0.0, l)
    ensures ScaleRight(l, s) == Scale(s, l)
    ensures s != 0.0 ==> Scale(s, Div(l, s)) == l
  {
    if s != 0.0 {
      V.ScaleDivLaws(l.c0, s);
      V.ScaleDivLaws(l.c1, s);
    }
  }

  /** Entry (i, j) of a product is row i of l dotted with column j of r. */
  lemma MulEntries(l: Mat2, r: Mat2)
    ensures forall i, j :: 0 <= i < 2 && 0 <= j < 2 ==> At(Mul(l, r), i, j) == V.Dot(Row(l, i), Col(r, j))
  {}

  /** The identity is neutral for both products. */
  lemma IdentityNeutral(m: Mat2, v: V.Vec2)
    ensures Mul(Identity(), m) == m && Mul(m, Identity()) == m
    ensures Apply(Identity(), v) == v && ApplyRow(v, Identity()) == v
  {
    ApplyIdentity(v);
  }

  lemma ApplyIdentity(v: V.Vec2)
    ensures Apply(Identity(), v) == v
  {}

  /** Applying a matrix is linear. */
  lemma ApplyLinear(m: Mat2, u: V.Vec2, v: V.Vec2, s: real)
    ensures Apply(m, V.Add(u, v)) == V.Add(Apply(m, u), Apply(m, v))
    ensures Apply(m, V.Scale(s, u)) == V.Scale(s, Apply(m, u))
  {
    ApplyAdditive(m, u, v);
    ApplyHomogeneous(m, u, s);
  }

  lemma ApplyAdditive(m: Mat2, u: V.Vec2, v: V.Vec2)
    ensures Apply(m, V.Add(u, v)) == V.Add(Apply(m, u), Apply(m, v))
  {}

  lemma ApplyHomogeneous(m: Mat2, u: V.Vec2, s: real)
    ensures Apply(m, V.Scale(s, u)) == V.Scale(s, Apply(m, u))
  {
    var p := Apply(m, V.Scale(s, u));
    var q := V.Scale(s, Apply(m, u));
    assert p.x == q.x && p.y == q.y;
  }

  /** Column j of a product is l applied to column j of r. */
  lemma MulColumns(l: Mat2, r: Mat2)
    ensures Mul(l, r) == Mat2(Apply(l, r.c0), Apply(l, r.c1))
  {}

  /** Applying a product is applying its factors in turn. */
  lemma MulApply(l: Mat2, r: Mat2, v: V.Vec2)
    ensures Apply(Mul(l, r), v) == Apply(l, Apply(r, v))
  {
    MulColumns(l, r);
    ApplyLinear(l, V.Scale(v.x, r.c0), V.Scale(v.y, r.c1), 1.0);
    ApplyLinear(l, r.c0, r.c0, v.x);
    ApplyLinear(l, r.c1, r.c1, v.y);
  }

  /** The row-vector product is the column-vector product with the transpose. */
  lemma ApplyRowIsTransposeApply(v: V.Vec2, m: Mat2)
    ensures ApplyRow(v, m) == Apply(Transpose(m), v)
  {}

  /** Transpose swaps the indices, and transposing twice gives m back. */
  lemma TransposeInvolution(m: Mat2)
    ensures forall i, j :: 0 <= i < 2 && 0 <= j < 2 ==> At(Transpose(m), i, j) == At(m, j, i)
    ensures Transpose(Transpose(m)) == m
  {}

  // ---------------------------------------------------------------------
  // Determinant, minors and inverses

  /** The minor is the entry in the opposite corner, and the cofactor carries
      the checkerboard sign. */
  lemma MinorCofactorEntries(m: Mat2)
    ensures Minor(m, 0, 0) == At(m, 1, 1) && Minor(m, 0, 1) == At(m, 1, 0)
    ensures Minor(m, 1, 0) == At(m, 0, 1) && Minor(m, 1, 1) == At(m, 0, 0)
    ensures Cofactor(m, 0, 0) == At(m, 1, 1) && Cofactor(m, 0, 1) == -At(m, 1, 0)
    ensures Cofactor(m, 1, 0) == -At(m, 0, 1) && Cofactor(m, 1, 1) == At(m, 0, 0)
  {}

  /** The cofactors give the Laplace expansion of the determinant along both
      rows and both columns. */
  lemma Laplace(m: Mat2)
    ensures Determinant(m) == At(m, 0, 0) * Cofactor(m, 0, 0) + At(m, 0, 1) * Cofactor(m, 0, 1)
    ensures Determinant(m) == At(m, 1, 0) * Cofactor(m, 1, 0) + At(m, 1, 1) * Cofactor(m, 1, 1)
    ensures Determinant(m) == At(m, 0, 0) * Cofactor(m, 0, 0) + At(m, 1, 0) * Cofactor(m, 1, 0)
    ensures Determinant(m) == At(m, 0, 1) * Cofactor(m, 0, 1) + At(m, 1, 1) * Cofactor(m, 1, 1)
  {
    MinorCofactorEntries(m);
    EntryForms(m);
  }

  /** The adjugate times m is the determinant times the identity, on both sides. */
  lemma AdjugateProduct(m: Mat2)
    ensures Mul(Adjugate(m), m) == Scale(Determinant(m), Identity())
    ensures Mul(m, Adjugate(m)) == Scale(Determinant(m), Identity())
  {}

  /** Inverse is a two-sided inverse. */
  lemma InverseTwoSided(m: Mat2)
    requires Determinant(m) != 0.0
    ensures Mul(Inverse(m), m) == Identity()
    ensures Mul(m, Inverse(m)) == Identity()
  {
    var k := 1.0 / Determinant(m);
    assert Determinant(m) * k == 1.0;
  }

  /** The two inverse algorithms agree, and the adjugate is the determinant
      times the inverse. */
  lemma InversesAgree(m: Mat2)
    requires Determinant(m) != 0.0
    ensures Inverse(m) == InverseAdj(m)
    ensures Adjugate(m) == Scale(Determinant(m), Inverse(m))
  {
    var k := 1.0 / Determinant(m);
    assert Determinant(m) * k == 1.0;
  }

  /** The determinant is multiplicative. */
  lemma DeterminantMul(l: Mat2, r: Mat2)
    ensures Determinant(Mul(l, r)) == Determinant(l) * Determinant(r)
  {}

  // ---------------------------------------------------------------------
  // Builders

  /** The outer product applied to c is a scaled by b . c. */
  lemma OuterApply(a: V.Vec2, b: V.Vec2, c: V.Vec2)
    ensures Apply(Outer(a, b), c) == V.Scale(V.Dot(b, c), a)
  {
    var p := Apply(Outer(a, b), c);
    var q := V.Scale(V.Dot(b, c), a);
    assert p.x == q.x && p.y == q.y;
  }

  /** The columns of an outer product are scaled copies of a. */
  lemma OuterColumns(a: V.Vec2, b: V.Vec2)
    ensures Outer(a, b) == Mat2(V.Scale(b.x, a), V.Scale(b.y, a))
  {}

  /** Applying is additive in the matrix, and scalar factors of the matrix
      come out. */
  lemma ApplyMatrixLinear(s: real, l: Mat2, r: Mat2, v: V.Vec2)
    ensures Apply(Add(l, r), v) == V.Add(Apply(l, v), Apply(r, v))
    ensures Apply(Neg(l), v) == V.Neg(Apply(l, v))
    ensures Apply(Scale(s, l), v) == V.Scale(s, Apply(l, v))
  {
    ApplySumMatrix(l, r, v);
    ApplyNegMatrix(l, v);
    ApplyScaledMatrix(s, l, v);
  }

  lemma ApplySumMatrix(l: Mat2, r: Mat2, v: V.Vec2)
    ensures Apply(Add(l, r), v) == V.Add(Apply(l, v), Apply(r, v))
  {}

  lemma ApplyNegMatrix(l: Mat2, v: V.Vec2)
    ensures Apply(Neg(l), v) == V.Neg(Apply(l, v))
  {}

  lemma ApplyScaledMatrix(s: real, l: Mat2, v: V.Vec2)
    ensures Apply(Scale(s, l), v) == V.Scale(s, Apply(l, v))
  {
    var p := Apply(Scale(s, l), v);
    var q := V.Scale(s, Apply(l, v));
    assert p.x == q.x && p.y == q.y;
  }

  /** Scalar factors come out of products. */
  lemma MulScaled(s: real, t: real, l: Mat2, r: Mat2)
    ensures Mul(Scale(s, l), Scale(t, r)) == Scale(s * t, Mul(l, r))
  {
    MulColumns(Scale(s, l), Scale(t, r));
    MulColumns(l, r);
    ApplyMatrixLinear(s, l, l, V.Scale(t, r.c0));
    ApplyMatrixLinear(s, l, l, V.Scale(t, r.c1));
    ApplyLinear(l, r.c0, r.c0, t);
    ApplyLinear(l, r.c1, r.c1, t);
    V.ScaleAlgebra(s, t, Apply(l, r.c0), Apply(l, r.c0));
    V.ScaleAlgebra(s, t, Apply(l, r.c1), Apply(l, r.c1));
  }

  /** The projection matrix applied to a is the projection of a onto b, and
      the rejection matrix applied to a is the rejection of a from b. */
  lemma ProjectionMatrices(a: V.Vec2, b: V.Vec2)
    requires V.MagSquared(b) != 0.0
    ensures Apply(MakeProjection(b), a) == V.Project(a, b)
    ensures Apply(MakeRejection(b), a) == V.Reject(a, b)
  {
    var k := 1.0 / V.MagSquared(b);
    var o := Outer(b, b);
    var d := V.Dot(b, a);
    V.DotSymmetricBilinear(a, b, b, k);
    assert V.Dot(a, b) / V.Dot(b, b) == k * d;
    assert MakeProjection(b) == Scale(k, o);
    ApplyMatrixLinear(k, o, o, a);
    assert Apply(Scale(k, o), a) == V.Scale(k, Apply(o, a));
    OuterApply(b, b, a);
    assert V.Scale(k, Apply(o, a)) == V.Scale(k, V.Scale(d, b));
    V.ScaleAlgebra(k, d, b, b);
    assert Apply(MakeProjection(b), a) == V.Scale(k * d, b);
    var p := MakeProjection(b);
    assert MakeRejection(b) == Add(Identity(), Neg(p));
    ApplyMatrixLinear(1.0, Identity(), Neg(p), a);
    ApplyMatrixLinear(1.0, p, p, a);
    ApplyIdentity(a);
  }

  /** Projecting twice is projecting once. */
  lemma ProjectionIdempotent(b: V.Vec2)
    requires V.MagSquared(b) != 0.0
    ensures Mul(MakeProjection(b), MakeProjection(b)) == MakeProjection(b)
  {
    var n := V.MagSquared(b);
    var k := 1.0 / n;
    var o := Outer(b, b);
    var p := MakeProjection(b);
    assert p == Scale(k, o);
    OuterSquare(b);
    MulScaled(k, k, o, o);
    ScaleInverseSquare(n, o);
  }

  /** Scaling by n and then by (1 / n) squared scales by 1 / n. */
  lemma ScaleInverseSquare(n: real, m: Mat2)
    requires n != 0.0
    ensures Scale((1.0 / n) * (1.0 / n), Scale(n, m)) == Scale(1.0 / n, m)
  {
    InverseSquareTimes(n, m.c0.x);
    InverseSquareTimes(n, m.c0.y);
    InverseSquareTimes(n, m.c1.x);
    InverseSquareTimes(n, m.c1.y);
  }

  lemma InverseSquareTimes(n: real, x: real)
    requires n != 0.0
    ensures (1.0 / n) * (1.0 / n) * (n * x) == (1.0 / n) * x
  {
    assert (1.0 / n) * n == 1.0;
  }

  /** The outer product of b with itself squares to itself scaled by the
      squared magnitude of b. */
  lemma OuterSquare(b: V.Vec2)
    ensures Mul(Outer(b, b), Outer(b, b)) == Scale(V.MagSquared(b), Outer(b, b))
  {
    var o := Outer(b, b);
    OuterColumnApply(b, b.x);
    OuterColumnApply(b, b.y);
    OuterColumns(b, b);
    MulColumns(o, o);
  }

  /** The outer product of b with itself sends a multiple of b to that
      multiple scaled by the squared magnitude of b. */
  lemma OuterColumnApply(b: V.Vec2, s: real)
    ensures Apply(Outer(b, b), V.Scale(s, b)) == V.Scale(V.MagSquared(b), V.Scale(s, b))
  {
    var n := V.MagSquared(b);
    var sb := V.Scale(s, b);
    OuterApply(b, b, sb);
    assert Apply(Outer(b, b), sb) == V.Scale(V.Dot(b, sb), b);
    V.DotSymmetricBilinear(sb, b, b, s);
    V.DotSymmetricBilinear(b, b, b, s);
    var d := V.Dot(b, sb);
    assert d == s * n;
    assert V.Scale(d, b) == V.Scale(s * n, b);
    V.ScaleAlgebra(n, s, b, b);
    assert V.Scale(n, sb) == V.Scale(n * s, b);
  }

  /** Scaling a matrix twice multiplies the factors. */
  lemma ScaleComposes(s: real, t: real, m: Mat2)
    ensures Scale(s, Scale(t, m)) == Scale(s * t, m)
  {
    V.ScaleAlgebra(s, t, m.c0, m.c0);
    V.ScaleAlgebra(s, t, m.c1, m.c1);
  }

  /** The rotation sends the basis vectors to (cos, sin) and (-sin, cos); with
      the trigonometric identities it is orthogonal, has determinant 1, and
      rotating twice by theta is rotating once by 2 theta. */
  lemma RotationImages(lib: MathLib, theta: real)
    ensures Apply(MakeRotation(lib, theta), V.Vec2(1.0, 0.0)) == V.Vec2(lib.cos(theta), lib.sin(theta))
    ensures Apply(MakeRotation(lib, theta), V.Vec2(0.0, 1.0)) == V.Vec2(-lib.sin(theta), lib.cos(theta))
  {}

  lemma RotationOrthogonal(lib: MathLib, theta: real)
    requires Laws(lib)
    ensures Mul(Transpose(MakeRotation(lib, theta)), MakeRotation(lib, theta)) == Identity()
    ensures Determinant(MakeRotation(lib, theta)) == 1.0
    ensures Mul(MakeRotation(lib, theta), MakeRotation(lib, theta)) == MakeRotation(lib, theta + theta)
  {
    RotationTransposeInverse(lib, theta);
    RotationDeterminant(lib, theta);
    RotationDoubles(lib, theta);
  }

  lemma RotationTransposeInverse(lib: MathLib, theta: real)
    requires Laws(lib)
    ensures Mul(Transpose(MakeRotation(lib, theta)), MakeRotation(lib, theta)) == Identity()
  {
    assert lib.sin(theta) * lib.sin(theta) + lib.cos(theta) * lib.cos(theta) == 1.0;
  }

  lemma RotationDeterminant(lib: MathLib, theta: real)
    requires Laws(lib)
    ensures Determinant(MakeRotation(lib, theta)) == 1.0
  {
    assert lib.sin(theta) * lib.sin(theta) + lib.cos(theta) * lib.cos(theta) == 1.0;
  }

  lemma RotationDoubles(lib: MathLib, theta: real)
    requires Laws(lib)
    ensures Mul(MakeRotation(lib, theta), MakeRotation(lib, theta)) == MakeRotation(lib, theta + theta)
  {
    assert lib.sin(theta + theta) == 2.0 * lib.sin(theta) * lib.cos(theta);
    assert lib.cos(theta + theta) == lib.cos(theta) * lib.cos(theta) - lib.sin(theta) * lib.sin(theta);
  }

  /** Reflecting a figure reflects each of its vertices, the rows of m. */
  lemma ReflectRows(m: Mat2, r: Mat2)
    ensures forall i :: 0 <= i < 2 ==> Row(ReflectMatrix(m, r), i) == ApplyRow(Row(m, i), r)
  {}

  /** The four common reflections mirror a row vector as their names say. */
  lemma ReflectionsMirror(v: V.Vec2)
    ensures ApplyRow(v, ReflectAcrossX()) == V.Vec2(v.x, -v.y)
    ensures ApplyRow(v, ReflectAcrossY()) == V.Vec2(-v.x, v.y)
    ensures ApplyRow(v, ReflectInOrigin()) == V.Vec2(-v.x, -v.y)
    ensures ApplyRow(v, ReflectAcrossDiagonal()) == V.Vec2(v.y, v.x)
  {}

  /** A diagonal matrix with entries of square one is its own inverse. */
  lemma DiagonalInvolutive(a: real, b: real)
    requires a * a == 1.0 && b * b == 1.0
    ensures Mul(FromEntries(a, 0.0, 0.0, b), FromEntries(a, 0.0, 0.0, b)) == Identity()
  {}

  /** An anti-diagonal matrix whose entries multiply to one is its own inverse. */
  lemma SwapInvolutive(a: real, b: real)
    requires a * b == 1.0
    ensures Mul(FromEntries(0.0, a, b, 0.0), FromEntries(0.0, a, b, 0.0)) == Identity()
  {}

  /** Each common reflection is its own inverse. */
  lemma ReflectAcrossXInvolutive()
    ensures Mul(ReflectAcrossX(), ReflectAcrossX()) == Identity()
  {
    DiagonalInvolutive(1.0, -1.0);
  }

  lemma ReflectAcrossYInvolutive()
    ensures Mul(ReflectAcrossY(), ReflectAcrossY()) == Identity()
  {
    DiagonalInvolutive(-1.0, 1.0);
  }

  lemma ReflectInOriginInvolutive()
    ensures Mul(ReflectInOrigin(), ReflectInOrigin()) == Identity()
  {
    DiagonalInvolutive(-1.0, -1.0);
  }

  lemma ReflectAcrossDiagonalInvolutive()
    ensures Mul(ReflectAcrossDiagonal(), ReflectAcrossDiagonal()) == Identity()
  {
    SwapInvolutive(1.0, 1.0);
  }
}
