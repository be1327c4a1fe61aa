/** 3x3 matrices (Matrix3D.cpp). As in the 2x2 case the entries live in a
    private grid `n[3][3]` in column-major order: `n[j]` is column j and entry
    (i, j) lives at `n[j][i]`. The model keeps the same layout: a matrix is
    its three columns. */
module Matrix3D {
  import opened MathLib
  import V = Vector3D
  import M2 = Matrix2D

  datatype Mat3 = Mat3(c0: V.Vec3, c1: V.Vec3, c2: V.Vec3)

  /** The default constructor: the identity matrix. */
  function Identity(): Mat3 {
    Mat3(V.Vec3(1.0, 0.0, 0.0), V.Vec3(0.0, 1.0, 0.0), V.Vec3(0.0, 0.0, 1.0))
  }

  /** The constructor taking the entries row by row; entry nij is stored in
      column j. */
  function FromEntries(n00: real, n01: real, n02: real,
                       n10: real, n11: real, n12: real,
                       n20: real, n21: real, n22: real): Mat3 {
    Mat3(V.Vec3(n00, n10, n20), V.Vec3(n01, n11, n21), V.Vec3(n02, n12, n22))
  }

  /** The constructor taking the three columns. */
  function FromColumns(a: V.Vec3, b: V.Vec3, c: V.Vec3): Mat3 { Mat3(a, b, c) }

  /** `m[j]` and `m.col(j)`: column j. */
  function Col(m: Mat3, j: int): V.Vec3
    requires 0 <= j < 3
  {
    if j == 0 then m.c0 else if j == 1 then m.c1 else m.c2
  }

  /** Component i of a column. */
  function Component(v: V.Vec3, i: int): real
    requires 0 <= i < 3
  {
    if i == 0 then v.x else if i == 1 then v.y else v.z
  }

  /** `m(i, j)`: component i of column j. */
  function At(m: Mat3, i: int, j: int): real
    requires 0 <= i < 3 && 0 <= j < 3
  {
    Component(Col(m, j), i)
  }

  /** `m.row(i)`: a copy of row i, gathered from the three columns. */
  function Row(m: Mat3, i: int): V.Vec3
    requires 0 <= i < 3
  {
    if i == 0 then Row0(m) else if i == 1 then Row1(m) else Row2(m)
  }

  function Row0(m: Mat3): V.Vec3 { V.Vec3(m.c0.x, m.c1.x, m.c2.x) }
  function Row1(m: Mat3): V.Vec3 { V.Vec3(m.c0.y, m.c1.y, m.c2.y) }
  function Row2(m: Mat3): V.Vec3 { V.Vec3(m.c0.z, m.c1.z, m.c2.z) }

  /** Writing `m[j] = c` through the reference that `operator[]` returns. */
  function SetCol(m: Mat3, j: int, c: V.Vec3): Mat3
    requires 0 <= j < 3
  {
    if j == 0 then m.(c0 := c) else if j == 1 then m.(c1 := c) else m.(c2 := c)
  }

  /** Writing `m(i, j) = s` through the reference that `operator()` returns. */
  function SetEntry(m: Mat3, i: int, j: int, s: real): Mat3
    requires 0 <= i < 3 && 0 <= j < 3
  {
    var c := Col(m, j);
    SetCol(m, j, if i == 0 then c.(x := s) else if i == 1 then c.(y := s) else c.(z := s))
  }

  function Neg(m: Mat3): Mat3 { Mat3(V.Neg(m.c0), V.Neg(m.c1), V.Neg(m.c2)) }

  /** `s * m`. */
  function Scale(s: real, m: Mat3): Mat3 {
    Mat3(V.Scale(s, m.c0), V.Scale(s, m.c1), V.Scale(s, m.c2))
  }

  /** `m * s`, defined as `s * m`. */
  function ScaleRight(m: Mat3, s: real): Mat3 { Scale(s, m) }

  /** `m / s`, defined as `(1 / s) * m`. */
  function Div(m: Mat3, s: real): Mat3
    requires s != 0.0
  {
    Scale(1.0 / s, m)
  }

  function Add(l: Mat3, r: Mat3): Mat3 {
    Mat3(V.Add(l.c0, r.c0), V.Add(l.c1, r.c1), V.Add(l.c2, r.c2))
  }

  /** `l - r` is `l + (-r)`. */
  function Sub(l: Mat3, r: Mat3): Mat3 { Add(l, Neg(r)) }

  /** The matrix product, entry (i, j) being row i of l dotted with column j of r. */
  function Mul(l: Mat3, r: Mat3): Mat3 {
    FromEntries(V.Dot(Row0(l), r.c0), V.Dot(Row0(l), r.c1), V.Dot(Row0(l), r.c2),
                V.Dot(Row1(l), r.c0), V.Dot(Row1(l), r.c1), V.Dot(Row1(l), r.c2),
                V.Dot(Row2(l), r.c0), V.Dot(Row2(l), r.c1), V.Dot(Row2(l), r.c2))
  }

  /** `m * v` for a column vector: a combination of the columns of m. */
  function Apply(m: Mat3, v: V.Vec3): V.Vec3 {
    V.Add(V.Add(V.Scale(v.x, m.c0), V.Scale(v.y, m.c1)), V.Scale(v.z, m.c2))
  }

  /** `v * m` for a row vector: a combination of the rows of m. */
  function ApplyRow(v: V.Vec3, m: Mat3): V.Vec3 {
    V.Add(V.Add(V.Scale(v.x, Row0(m)), V.Scale(v.y, Row1(m))), V.Scale(v.z, Row2(m)))
  }

  /** `operator==`: the three columns compare equal. */
  predicate Equal(l: Mat3, r: Mat3) {
    V.Equal(l.c0, r.c0) && V.Equal(l.c1, r.c1) && V.Equal(l.c2, r.c2)
  }

  predicate NotEqual(l: Mat3, r: Mat3) { !Equal(l, r) }

  /** The rule of Sarrus: three products along the diagonals minus three
      along the anti-diagonals. */
  function Determinant(m: Mat3): real {
    m.c0.x * m.c1.y * m.c2.z + m.c1.x * m.c2.y * m.c0.z + m.c2.x * m.c0.y * m.c1.z
    - (m.c0.x * m.c2.y * m.c1.z + m.c1.x * m.c0.y * m.c2.z + m.c2.x * m.c1.y * m.c0.z)
  }

  /** The closed-form inverse: its rows are the cross products of pairs of
      columns, divided by the scalar triple product of the columns. */
  function Inverse(m: Mat3): Mat3
    requires V.Dot(V.Cross(m.c0, m.c1), m.c2) != 0.0
  {
    var r0 := V.Cross(m.c1, m.c2);
    var r1 := V.Cross(m.c2, m.c0);
    var r2 := V.Cross(m.c0, m.c1);
    var invDet := 1.0 / V.Dot(r2, m.c2);
    // Every entry r_i.x, r_i.y, r_i.z is multiplied by invDet, which is the
    // matrix of those entries scaled by invDet.
    ScaleRight(FromEntries(r0.x, r0.y, r0.z, r1.x, r1.y, r1.z, r2.x, r2.y, r2.z), invDet)
  }

  /** The inverse computed as the adjugate over the determinant. */
  function InverseAdj(m: Mat3): Mat3
    requires Determinant(m) != 0.0
  {
    Div(Adjugate(m), Determinant(m))
  }

  // ---------------------------------------------------------------------
  // Minors

  /** The index the minor loop reads at step k when index i is deleted: the
      steps before i read k, the steps from i on read k + 1. An index outside
      the matrix is never met, so nothing is skipped. */
  function Skip(i: int, k: int): int {
    if 0 <= i <= k then k + 1 else k
  }

  /** The value of the loop counter at the start of step k: it has been bumped
      once past i if step i is already behind. */
  function CounterAt(i: int, k: int): int {
    if 0 <= i < k then k + 1 else k
  }

  /** The 2x2 minor at (i, j): m with row i and column j deleted, the remaining
      rows and columns kept in order. */
  function MinorOf(m: Mat3, i: int, j: int): M2.Mat2 {
    M2.FromEntries(At(m, Skip(i, 0), Skip(j, 0)), At(m, Skip(i, 0), Skip(j, 1)),
                   At(m, Skip(i, 1), Skip(j, 0)), At(m, Skip(i, 1), Skip(j, 1)))
  }

  /** `Minor`: the nested loops fill a local 2x2 grid, reading m at a row
      counter and a column counter that are bumped past i and j when they
      reach them. */
  method Minor(m: Mat3, i: int, j: int) returns (r: M2.Mat2)
    ensures r == MinorOf(m, i, j)
  {
    var n := new real[2, 2];
    var k := 0;
    var cRow := 0;
    while k < 2
      invariant 0 <= k <= 2
      invariant cRow == CounterAt(i, k)
      invariant forall k', l' :: 0 <= k' < k && 0 <= l' < 2 ==>
        n[k', l'] == At(m, Skip(i, k'), Skip(j, l'))
    {
      var l := 0;
      var cCol := 0;
      while l < 2
        invariant 0 <= l <= 2
        invariant l == 0 ==> cRow == CounterAt(i, k)
        invariant 0 < l ==> cRow == Skip(i, k)
        invariant cCol == CounterAt(j, l)
        invariant forall k', l' :: 0 <= k' < k && 0 <= l' < 2 ==>
          n[k', l'] == At(m, Skip(i, k'), Skip(j, l'))
        invariant forall l' :: 0 <= l' < l ==> n[k, l'] == At(m, Skip(i, k), Skip(j, l'))
      {
        if cRow == i {
          cRow := cRow + 1;
        }
        if cCol == j {
          cCol := cCol + 1;
        }
        n[k, l] := At(m, cRow, cCol);
        l := l + 1;
        cCol := cCol + 1;
      }
      k := k + 1;
      cRow := cRow + 1;
    }
    r := M2.FromEntries(n[0, 0], n[0, 1], n[1, 0], n[1, 1]);
  }

  /** The sign of the checkerboard pattern, `(i + j) % 2 == 0 ? 1 : -1`. The
      test agrees for C++'s truncating remainder, as it only asks whether
      i + j is even. */
  function Sign(i: int, j: int): real {
    if (i + j) % 2 == 0 then 1.0 else -1.0
  }

  /** The determinant of the minor with the checkerboard sign. */
  function Cofactor(m: Mat3, i: int, j: int): real {
    Sign(i, j) * M2.Determinant(MinorOf(m, i, j))
  }

  function CofactorMatrix(m: Mat3): Mat3 {
    FromEntries(Cofactor(m, 0, 0), Cofactor(m, 0, 1), Cofactor(m, 0, 2),
                Cofactor(m, 1, 0), Cofactor(m, 1, 1), Cofactor(m, 1, 2),
                Cofactor(m, 2, 0), Cofactor(m, 2, 1), Cofactor(m, 2, 2))
  }

  function Adjugate(m: Mat3): Mat3 { Transpose(CofactorMatrix(m)) }

  /** The rows of m become the columns of the result. */
  function Transpose(m: Mat3): Mat3 { FromColumns(Row0(m), Row1(m), Row2(m)) }

  // ---------------------------------------------------------------------
  // Builders

  /** The outer product: a as a column times b as a row. */
  function Outer(a: V.Vec3, b: V.Vec3): Mat3 {
    FromEntries(a.x * b.x, a.x * b.y, a.x * b.z,
                a.y * b.x, a.y * b.y, a.y * b.z,
                a.z * b.x, a.z * b.y, a.z * b.z)
  }

  /** The matrix projecting onto b. */
  function MakeProjection(b: V.Vec3): Mat3
    requires V.MagSquared(b) != 0.0
  {
    Scale(1.0 / V.MagSquared(b), Outer(b, b))
  }

  /** The matrix rejecting from b: the identity minus the projection. */
  function MakeRejection(b: V.Vec3): Mat3
    requires V.MagSquared(b) != 0.0
  {
    Sub(Identity(), MakeProjection(b))
  }

  /** The rotation by theta about the x axis. */
  function MakeRotationX(lib: MathLib, theta: real): Mat3 {
    var c := lib.cos(theta);
    var s := lib.sin(theta);
    FromEntries(1.0, 0.0, 0.0,
                0.0, c, -s,
                0.0, s, c)
  }

  /** The rotation by theta about the y axis. */
  function MakeRotationY(lib: MathLib, theta: real): Mat3 {
    var c := lib.cos(theta);
    var s := lib.sin(theta);
    FromEntries(c, 0.0, s,
                0.0, 1.0, 0.0,
                -s, 0.0, c)
  }

  /** The rotation by theta about the z axis. */
  function MakeRotationZ(lib: MathLib, theta: real): Mat3 {
    var c := lib.cos(theta);
    var s := lib.sin(theta);
    FromEntries(c, -s, 0.0,
                s, c, 0.0,
                0.0, 0.0, 1.0)
  }

  /** The rotation by theta about the axis v (Rodrigues' formula): v is first
      normalized, then c I + (1 - c) v v^T + s [v]x. */
  function MakeRotation(lib: MathLib, theta: real, v: V.Vec3): Mat3
    requires V.Magnitude(lib, v) != 0.0
  {
    RodriguesMatrix(lib.cos(theta), lib.sin(theta), V.ScaleRight(v, V.MagInverse(lib, v)))
  }

  /** c I + (1 - c) u u^T + s [u]x, for the cosine c and sine s of the angle. */
  function RodriguesMatrix(c: real, s: real, u: V.Vec3): Mat3 {
    Add(Add(Scale(c, Identity()), Scale(1.0 - c, Outer(u, u))), Scale(s, CrossMat(u)))
  }

  /** The matrix of the linear map b -> a x b. */
  function CrossMat(a: V.Vec3): Mat3 {
    FromEntries(0.0, -a.z, a.y,
                a.z, 0.0, -a.x,
                -a.y, a.x, 0.0)
  }

  // ---------------------------------------------------------------------
  // Storage

  /** The row-by-row constructor puts nij at (i, j); the column constructor
      makes its arguments the columns; row i holds the entries (i, 0..2). */
  lemma StorageMapping(n00: real, n01: real, n02: real,
                       n10: real, n11: real, n12: real,
                       n20: real, n21: real, n22: real, a: V.Vec3, b: V.Vec3, c: V.Vec3)
    ensures var m := FromEntries(n00, n01, n02, n10, n11, n12, n20, n21, n22);
      At(m, 0, 0) == n00 && At(m, 0, 1) == n01 && At(m, 0, 2) == n02 &&
      At(m, 1, 0) == n10 && At(m, 1, 1) == n11 && At(m, 1, 2) == n12 &&
      At(m, 2, 0) == n20 && At(m, 2, 1) == n21 && At(m, 2, 2) == n22
    ensures Col(FromColumns(a, b, c), 0) == a && Col(FromColumns(a, b, c), 1) == b
      && Col(FromColumns(a, b, c), 2) == c
  {}

  /** Every matrix is the one its entries build, and row i of m holds the
      entries m(i, 0), m(i, 1), m(i, 2). */
  lemma EntryForms(m: Mat3)
    ensures FromEntries(At(m, 0, 0), At(m, 0, 1), At(m, 0, 2),
                        At(m, 1, 0), At(m, 1, 1), At(m, 1, 2),
                        At(m, 2, 0), At(m, 2, 1), At(m, 2, 2)) == m
    ensures forall i :: 0 <= i < 3 ==> Row(m, i) == V.Vec3(At(m, i, 0), At(m, i, 1), At(m, i, 2))
  {}

  /** A write through `m(i, j)` changes that entry and no other. */
  lemma SetEntryFrame(m: Mat3, i: int, j: int, s: real)
    requires 0 <= i < 3 && 0 <= j < 3
    ensures At(SetEntry(m, i, j, s), i, j) == s
    ensures forall k, l :: 0 <= k < 3 && 0 <= l < 3 && (k != i || l != j) ==>
      At(SetEntry(m, i, j, s), k, l) == At(m, k, l)
  {}

  /** A write through `m[j]` replaces column j and no other. */
  lemma SetColFrame(m: Mat3, j: int, c: V.Vec3)
    requires 0 <= j < 3
    ensures Col(SetCol(m, j, c), j) == c
    ensures forall l :: 0 <= l < 3 && l != j ==> Col(SetCol(m, j, c), l) == Col(m, l)
  {}

  lemma EqualIsComponentwise(l: Mat3, r: Mat3)
    ensures Equal(l, r) <==> l == r
    ensures NotEqual(l, r) <==> l != r
  {}

  /** Subtraction adds the negation, the two scalar products agree, and
      division by s is undone by scaling by s. */
  lemma ArithmeticLaws(l: Mat3, r: Mat3, s: real)
    ensures Sub(Add(l, r), r) == l
    ensures Sub(l, l) == Scale(0.0, l)
    ensures Neg(Neg(l)) == l
    ensures ScaleRight(l, s) == Scale(s, l)
    ensures s != 0.0 ==> Scale(s, Div(l, s)) == l
  {
    if s != 0.0 {
      ScaleCancel(s, l);
    }
  }

  // ---------------------------------------------------------------------
  // Products

  /** Entry (i, j) of a product is row i of l dotted with column j of r. */
  lemma MulEntries(l: Mat3, r: Mat3)
    ensures forall i, j :: 0 <= i < 3 && 0 <= j < 3 ==>
      At(Mul(l, r), i, j) == V.Dot(Row(l, i), Col(r, j))
  {}

  /** The identity is neutral for products and applications. */
  lemma IdentityNeutral(m: Mat3, v: V.Vec3)
    ensures Mul(Identity(), m) == m && Mul(m, Identity()) == m
    ensures Apply(Identity(), v) == v
  {
    ApplyIdentity(v);
  }

  lemma ApplyIdentity(v: V.Vec3)
    ensures Apply(Identity(), v) == v
  {}

  /** Applying a matrix dots each of its rows with the vector. */
  lemma ApplyIsRowDots(m: Mat3, v: V.Vec3)
    ensures Apply(m, v) == V.Vec3(V.Dot(Row0(m), v), V.Dot(Row1(m), v), V.Dot(Row2(m), v))
  {
    var p := Apply(m, v);
    assert p.x == V.Dot(Row0(m), v);
    assert p.y == V.Dot(Row1(m), v);
    assert p.z == V.Dot(Row2(m), v);
  }

  lemma ApplyScaledUnfold(m: Mat3, u: V.Vec3, s: real)
    ensures Apply(m, V.Scale(s, u)) ==
      V.Add(V.Add(V.Scale(s * u.x, m.c0), V.Scale(s * u.y, m.c1)), V.Scale(s * u.z, m.c2))
  {}

  /** Applying a matrix is linear in the vector. */
  lemma ApplyLinear(m: Mat3, u: V.Vec3, v: V.Vec3, s: real)
    ensures Apply(m, V.Add(u, v)) == V.Add(Apply(m, u), Apply(m, v))
    ensures Apply(m, V.Scale(s, u)) == V.Scale(s, Apply(m, u))
  {
    ApplyAdditive(m, u, v);
    ApplyHomogeneous(m, u, s);
  }

  lemma ApplyAdditive(m: Mat3, u: V.Vec3, v: V.Vec3)
    ensures Apply(m, V.Add(u, v)) == V.Add(Apply(m, u), Apply(m, v))
  {
    V.ScaleFactorsAdd(u.x, v.x, m.c0);
    V.ScaleFactorsAdd(u.y, v.y, m.c1);
    V.ScaleFactorsAdd(u.z, v.z, m.c2);
  }

  lemma ApplyHomogeneous(m: Mat3, u: V.Vec3, s: real)
    ensures Apply(m, V.Scale(s, u)) == V.Scale(s, Apply(m, u))
  {
    var a := V.Scale(u.x, m.c0);
    var b := V.Scale(u.y, m.c1);
    var c := V.Scale(u.z, m.c2);
    V.ScaleTwice(s, u.x, m.c0);
    V.ScaleTwice(s, u.y, m.c1);
    V.ScaleTwice(s, u.z, m.c2);
    V.ScaleOverAdd(s, V.Add(a, b), c);
    V.ScaleOverAdd(s, a, b);
    ApplyScaledUnfold(m, u, s);
    assert Apply(m, u) == V.Add(V.Add(a, b), c);
    assert V.Scale(s, Apply(m, u)) == V.Add(V.Add(V.Scale(s, a), V.Scale(s, b)), V.Scale(s, c));
  }

  /** Applying is additive in the matrix, and scalar factors of the matrix
      come out. */
  lemma ApplyMatrixLinear(s: real, l: Mat3, r: Mat3, v: V.Vec3)
    ensures Apply(Add(l, r), v) == V.Add(Apply(l, v), Apply(r, v))
    ensures Apply(Neg(l), v) == V.Neg(Apply(l, v))
    ensures Apply(Scale(s, l), v) == V.Scale(s, Apply(l, v))
  {
    ApplySumMatrix(l, r, v);
    ApplyNegMatrix(l, v);
    ApplyScaledMatrix(s, l, v);
  }

  lemma ApplySumMatrix(l: Mat3, r: Mat3, v: V.Vec3)
    ensures Apply(Add(l, r), v) == V.Add(Apply(l, v), Apply(r, v))
  {
    V.ScaleOverAdd(v.x, l.c0, r.c0);
    V.ScaleOverAdd(v.y, l.c1, r.c1);
    V.ScaleOverAdd(v.z, l.c2, r.c2);
  }

  lemma ApplyNegMatrix(l: Mat3, v: V.Vec3)
    ensures Apply(Neg(l), v) == V.Neg(Apply(l, v))
  {
    var a := V.Scale(v.x, l.c0);
    var b := V.Scale(v.y, l.c1);
    var c := V.Scale(v.z, l.c2);
    V.NegLinear(v.x, l.c0, l.c0);
    V.NegLinear(v.y, l.c1, l.c1);
    V.NegLinear(v.z, l.c2, l.c2);
    V.NegLinear(1.0, V.Add(a, b), c);
    V.NegLinear(1.0, a, b);
  }

  lemma ApplyScaledMatrix(s: real, l: Mat3, v: V.Vec3)
    ensures Apply(Scale(s, l), v) == V.Scale(s, Apply(l, v))
  {
    var a := V.Scale(v.x, l.c0);
    var b := V.Scale(v.y, l.c1);
    var c := V.Scale(v.z, l.c2);
    V.ScaleTwice(v.x, s, l.c0);
    V.ScaleTwice(v.y, s, l.c1);
    V.ScaleTwice(v.z, s, l.c2);
    V.ScaleTwice(s, v.x, l.c0);
    V.ScaleTwice(s, v.y, l.c1);
    V.ScaleTwice(s, v.z, l.c2);
    V.ScaleOverAdd(s, V.Add(a, b), c);
    V.ScaleOverAdd(s, a, b);
  }

  /** Column j of a product is l applied to column j of r. */
  lemma MulColumns(l: Mat3, r: Mat3)
    ensures Mul(l, r) == Mat3(Apply(l, r.c0), Apply(l, r.c1), Apply(l, r.c2))
  {
    ApplyIsRowDots(l, r.c0);
    ApplyIsRowDots(l, r.c1);
    ApplyIsRowDots(l, r.c2);
  }

  /** Applying a product is applying its factors in turn. */
  lemma MulApply(l: Mat3, r: Mat3, v: V.Vec3)
    ensures Apply(Mul(l, r), v) == Apply(l, Apply(r, v))
  {
    MulColumns(l, r);
    var a := V.Scale(v.x, r.c0);
    var b := V.Scale(v.y, r.c1);
    var c := V.Scale(v.z, r.c2);
    ApplyLinear(l, V.Add(a, b), c, 1.0);
    ApplyLinear(l, a, b, 1.0);
    ApplyLinear(l, r.c0, r.c0, v.x);
    ApplyLinear(l, r.c1, r.c1, v.y);
    ApplyLinear(l, r.c2, r.c2, v.z);
  }

  /** Scalar factors come out of products. */
  lemma MulScaled(s: real, t: real, l: Mat3, r: Mat3)
    ensures Mul(Scale(s, l), Scale(t, r)) == Scale(s * t, Mul(l, r))
  {
    MulColumns(Scale(s, l), Scale(t, r));
    MulColumns(l, r);
    ApplyMatrixLinear(s, l, l, V.Scale(t, r.c0));
    ApplyMatrixLinear(s, l, l, V.Scale(t, r.c1));
    ApplyMatrixLinear(s, l, l, V.Scale(t, r.c2));
    ApplyLinear(l, r.c0, r.c0, t);
    ApplyLinear(l, r.c1, r.c1, t);
    ApplyLinear(l, r.c2, r.c2, t);
    V.ScaleAlgebra(s, t, Apply(l, r.c0), Apply(l, r.c0));
    V.ScaleAlgebra(s, t, Apply(l, r.c1), Apply(l, r.c1));
    V.ScaleAlgebra(s, t, Apply(l, r.c2), Apply(l, r.c2));
  }

  /** Scaling a matrix twice multiplies the factors. */
  lemma ScaleComposes(s: real, t: real, m: Mat3)
    ensures Scale(s, Scale(t, m)) == Scale(s * t, m)
  {
    V.ScaleTwice(s, t, m.c0);
    V.ScaleTwice(s, t, m.c1);
    V.ScaleTwice(s, t, m.c2);
  }

  /** The row-vector product is the column-vector product with the transpose. */
  lemma ApplyRowIsTransposeApply(v: V.Vec3, m: Mat3)
    ensures ApplyRow(v, m) == Apply(Transpose(m), v)
  {}

  /** Transpose swaps the indices, and transposing twice gives m back. */
  lemma TransposeInvolution(m: Mat3)
    ensures forall i, j :: 0 <= i < 3 && 0 <= j < 3 ==> At(Transpose(m), i, j) == At(m, j, i)
    ensures Transpose(Transpose(m)) == m
  {}

  // ---------------------------------------------------------------------
  // Determinant, minors and inverses

  /** The rule of Sarrus computes the scalar triple product of the columns,
      which is the denominator the closed-form inverse divides by. */
  lemma DeterminantIsTriple(m: Mat3)
    ensures Determinant(m) == V.ScalarTriple(m.c0, m.c1, m.c2)
    ensures Determinant(m) == V.Dot(V.Cross(m.c0, m.c1), m.c2)
  {}

  /** The minors deleting row 0 keep rows 1 and 2, in order. */
  lemma MinorsRow0(m: Mat3)
    ensures MinorOf(m, 0, 0) == M2.FromEntries(m.c1.y, m.c2.y, m.c1.z, m.c2.z)
    ensures MinorOf(m, 0, 1) == M2.FromEntries(m.c0.y, m.c2.y, m.c0.z, m.c2.z)
    ensures MinorOf(m, 0, 2) == M2.FromEntries(m.c0.y, m.c1.y, m.c0.z, m.c1.z)
  {}

  /** The minors deleting row 1 keep rows 0 and 2, in order. */
  lemma MinorsRow1(m: Mat3)
    ensures MinorOf(m, 1, 0) == M2.FromEntries(m.c1.x, m.c2.x, m.c1.z, m.c2.z)
    ensures MinorOf(m, 1, 1) == M2.FromEntries(m.c0.x, m.c2.x, m.c0.z, m.c2.z)
    ensures MinorOf(m, 1, 2) == M2.FromEntries(m.c0.x, m.c1.x, m.c0.z, m.c1.z)
  {}

  /** The minors deleting row 2 keep rows 0 and 1, in order. */
  lemma MinorsRow2(m: Mat3)
    ensures MinorOf(m, 2, 0) == M2.FromEntries(m.c1.x, m.c2.x, m.c1.y, m.c2.y)
    ensures MinorOf(m, 2, 1) == M2.FromEntries(m.c0.x, m.c2.x, m.c0.y, m.c2.y)
    ensures MinorOf(m, 2, 2) == M2.FromEntries(m.c0.x, m.c1.x, m.c0.y, m.c1.y)
  {}

  /** The cofactors in row 0 are the x components of the cross products of
      the pairs of columns in cyclic order. */
  lemma CofactorsRow0(m: Mat3)
    ensures Cofactor(m, 0, 0) == V.Cross(m.c1, m.c2).x
    ensures Cofactor(m, 0, 1) == V.Cross(m.c2, m.c0).x
    ensures Cofactor(m, 0, 2) == V.Cross(m.c0, m.c1).x
  {
    MinorsRow0(m);
    assert Sign(0, 0) == 1.0 && Sign(0, 1) == -1.0 && Sign(0, 2) == 1.0;
  }

  /** The cofactors in row 1 are the y components. */
  lemma CofactorsRow1(m: Mat3)
    ensures Cofactor(m, 1, 0) == V.Cross(m.c1, m.c2).y
    ensures Cofactor(m, 1, 1) == V.Cross(m.c2, m.c0).y
    ensures Cofactor(m, 1, 2) == V.Cross(m.c0, m.c1).y
  {
    MinorsRow1(m);
    assert Sign(1, 0) == -1.0 && Sign(1, 1) == 1.0 && Sign(1, 2) == -1.0;
  }

  /** The cofactors in row 2 are the z components. */
  lemma CofactorsRow2(m: Mat3)
    ensures Cofactor(m, 2, 0) == V.Cross(m.c1, m.c2).z
    ensures Cofactor(m, 2, 1) == V.Cross(m.c2, m.c0).z
    ensures Cofactor(m, 2, 2) == V.Cross(m.c0, m.c1).z
  {
    MinorsRow2(m);
    assert Sign(2, 0) == 1.0 && Sign(2, 1) == -1.0 && Sign(2, 2) == 1.0;
  }

  /** The adjugate has the cross products of the pairs of columns, in cyclic
      order, as its rows. */
  lemma AdjugateRows(m: Mat3)
    ensures Row0(Adjugate(m)) == V.Cross(m.c1, m.c2)
    ensures Row1(Adjugate(m)) == V.Cross(m.c2, m.c0)
    ensures Row2(Adjugate(m)) == V.Cross(m.c0, m.c1)
  {
    CofactorsRow0(m);
    CofactorsRow1(m);
    CofactorsRow2(m);
  }

  /** The adjugate times m is the determinant times the identity. */
  lemma AdjugateLeftProduct(m: Mat3)
    ensures Mul(Adjugate(m), m) == Scale(Determinant(m), Identity())
  {
    var a, b, c := m.c0, m.c1, m.c2;
    AdjugateRows(m);
    DeterminantIsTriple(m);
    V.ScalarTripleSymmetry(a, b, c);
    V.CrossOrthogonal(b, c);
    V.CrossOrthogonal(c, a);
    V.CrossOrthogonal(a, b);
    V.DotSymmetricBilinear(V.Cross(b, c), b, b, 1.0);
    V.DotSymmetricBilinear(V.Cross(b, c), c, c, 1.0);
    V.DotSymmetricBilinear(V.Cross(c, a), c, c, 1.0);
    V.DotSymmetricBilinear(V.Cross(c, a), a, a, 1.0);
    V.DotSymmetricBilinear(V.Cross(a, b), a, a, 1.0);
    V.DotSymmetricBilinear(V.Cross(a, b), b, b, 1.0);
  }

  /** The adjugate built from its rows. */
  lemma AdjugateForm(m: Mat3)
    ensures var r0 := V.Cross(m.c1, m.c2);
      var r1 := V.Cross(m.c2, m.c0);
      var r2 := V.Cross(m.c0, m.c1);
      Adjugate(m) == FromEntries(r0.x, r0.y, r0.z, r1.x, r1.y, r1.z, r2.x, r2.y, r2.z)
  {
    AdjugateRows(m);
  }

  /** m times the adjugate is the determinant times the identity. */
  lemma AdjugateRightProduct(m: Mat3)
    ensures Mul(m, Adjugate(m)) == Scale(Determinant(m), Identity())
  {
    var a, b, c := m.c0, m.c1, m.c2;
    AdjugateForm(m);
    DeterminantIsTriple(m);
    V.CrossFrameX(a, b, c);
    V.CrossFrameY(a, b, c);
    V.CrossFrameZ(a, b, c);
  }

  /** The closed-form inverse is the adjugate scaled by one over the
      determinant. */
  lemma InverseIsScaledAdjugate(m: Mat3)
    requires Determinant(m) != 0.0
    ensures V.Dot(V.Cross(m.c0, m.c1), m.c2) != 0.0
    ensures Inverse(m) == Scale(1.0 / Determinant(m), Adjugate(m))
  {
    DeterminantIsTriple(m);
    AdjugateForm(m);
  }

  /** The two inverse algorithms agree, and the adjugate is the determinant
      times the inverse. */
  lemma InversesAgree(m: Mat3)
    requires Determinant(m) != 0.0
    ensures V.Dot(V.Cross(m.c0, m.c1), m.c2) != 0.0
    ensures Inverse(m) == InverseAdj(m)
    ensures Adjugate(m) == Scale(Determinant(m), Inverse(m))
  {
    InverseIsScaledAdjugate(m);
    ScaleCancel(Determinant(m), Adjugate(m));
  }

  /** The closed-form inverse is a two-sided inverse. */
  lemma InverseTwoSided(m: Mat3)
    requires Determinant(m) != 0.0
    ensures V.Dot(V.Cross(m.c0, m.c1), m.c2) != 0.0
    ensures Mul(Inverse(m), m) == Identity()
    ensures Mul(m, Inverse(m)) == Identity()
  {
    var d := Determinant(m);
    var k := 1.0 / d;
    InverseIsScaledAdjugate(m);
    AdjugateLeftProduct(m);
    AdjugateRightProduct(m);
    MulScaled(k, 1.0, Adjugate(m), m);
    MulScaled(1.0, k, m, Adjugate(m));
    ScaleOne(m);
    ScaleOne(Adjugate(m));
    ScaleComposes(k, d, Identity());
    ScaleComposes(1.0 * k, d, Identity());
    assert k * d == 1.0;
    ScaleOne(Identity());
  }

  /** Scaling by s is undone by scaling by 1 / s. */
  lemma ScaleCancel(s: real, m: Mat3)
    requires s != 0.0
    ensures Scale(s, Scale(1.0 / s, m)) == m
  {
    V.ScaleCancel(s, m.c0);
    V.ScaleCancel(s, m.c1);
    V.ScaleCancel(s, m.c2);
  }

  /** Scaling by one changes nothing. */
  lemma ScaleOne(m: Mat3)
    ensures Scale(1.0, m) == m
  {}

  // ---------------------------------------------------------------------
  // Minors and cofactors

  /** The inverse of Skip: the loop step at which index r is read. */
  function Unskip(i: int, r: int): int {
    if r < i then r else r - 1
  }

  /** With a deleted index i inside the matrix, the minor loop reads two
      indices in increasing order, never i, and every index other than i. */
  lemma SkipVisitsOthers(i: int)
    requires 0 <= i < 3
    ensures 0 <= Skip(i, 0) < Skip(i, 1) < 3
    ensures Skip(i, 0) != i && Skip(i, 1) != i
    ensures forall r :: 0 <= r < 3 && r != i ==> 0 <= Unskip(i, r) < 2 && Skip(i, Unskip(i, r)) == r
  {}

  /** Entry (k, l) of the minor is entry (Skip(i, k), Skip(j, l)) of m: row i
      and column j are deleted and the rest keeps its order. */
  lemma MinorDeletes(m: Mat3, i: int, j: int)
    ensures forall k, l :: 0 <= k < 2 && 0 <= l < 2 ==>
      M2.At(MinorOf(m, i, j), k, l) == At(m, Skip(i, k), Skip(j, l))
  {}

  /** Laplace expansion of the determinant along row 0 and along column 0. */
  lemma Laplace(m: Mat3)
    ensures Determinant(m) == At(m, 0, 0) * Cofactor(m, 0, 0) + At(m, 0, 1) * Cofactor(m, 0, 1)
                              + At(m, 0, 2) * Cofactor(m, 0, 2)
    ensures Determinant(m) == At(m, 0, 0) * Cofactor(m, 0, 0) + At(m, 1, 0) * Cofactor(m, 1, 0)
                              + At(m, 2, 0) * Cofactor(m, 2, 0)
  {
    LaplaceRow0(m);
    LaplaceColumn0(m);
  }

  lemma LaplaceRow0(m: Mat3)
    ensures Determinant(m) == At(m, 0, 0) * Cofactor(m, 0, 0) + At(m, 0, 1) * Cofactor(m, 0, 1)
                              + At(m, 0, 2) * Cofactor(m, 0, 2)
  {
    CofactorsRow0(m);
    DeterminantIsTriple(m);
    V.FrameXX(m.c0, m.c1, m.c2);
  }

  lemma LaplaceColumn0(m: Mat3)
    ensures Determinant(m) == At(m, 0, 0) * Cofactor(m, 0, 0) + At(m, 1, 0) * Cofactor(m, 1, 0)
                              + At(m, 2, 0) * Cofactor(m, 2, 0)
  {
    CofactorsRow0(m);
    CofactorsRow1(m);
    CofactorsRow2(m);
    DeterminantIsTriple(m);
    V.TripleCyclic(m.c0, m.c1, m.c2);
    V.DotSymmetricBilinear(m.c0, V.Cross(m.c1, m.c2), m.c0, 1.0);
  }

  // ---------------------------------------------------------------------
  // Projection and rejection

  /** An outer product sends c to a scaled by b . c. */
  lemma OuterApply(a: V.Vec3, b: V.Vec3, c: V.Vec3)
    ensures Apply(Outer(a, b), c) == V.Scale(V.Dot(b, c), a)
  {
    OuterColumns(a, b);
    var p := c.x * b.x;
    var q := c.y * b.y;
    var r := c.z * b.z;
    V.ScaleTwice(c.x, b.x, a);
    V.ScaleTwice(c.y, b.y, a);
    V.ScaleTwice(c.z, b.z, a);
    assert Apply(Outer(a, b), c) == V.Add(V.Add(V.Scale(p, a), V.Scale(q, a)), V.Scale(r, a));
    V.ScaleFactorsAdd(p, q, a);
    V.ScaleFactorsAdd(p + q, r, a);
    V.DotReversed(b, c);
    V.ScaleEqual(p + q + r, V.Dot(b, c), a);
  }

  /** The projection matrix sends a to its projection onto b. */
  lemma ProjectionApplies(a: V.Vec3, b: V.Vec3)
    requires V.MagSquared(b) != 0.0
    ensures Apply(MakeProjection(b), a) == V.Project(a, b)
  {
    var k := 1.0 / V.MagSquared(b);
    var o := Outer(b, b);
    var d := V.Dot(b, a);
    V.DotSymmetricBilinear(a, b, b, k);
    assert V.Dot(a, b) / V.Dot(b, b) == k * d;
    assert MakeProjection(b) == Scale(k, o);
    ApplyScaledMatrix(k, o, a);
    OuterApply(b, b, a);
    V.ScaleTwice(k, d, b);
  }

  /** The rejection matrix sends a to its rejection from b. */
  lemma RejectionApplies(a: V.Vec3, b: V.Vec3)
    requires V.MagSquared(b) != 0.0
    ensures Apply(MakeRejection(b), a) == V.Reject(a, b)
  {
    var p := MakeProjection(b);
    ProjectionApplies(a, b);
    assert MakeRejection(b) == Add(Identity(), Neg(p));
    ApplySumMatrix(Identity(), Neg(p), a);
    ApplyNegMatrix(p, a);
    ApplyIdentity(a);
  }

  /** The rejection from b sends b itself to zero. */
  lemma RejectionAnnihilatesAxis(b: V.Vec3)
    requires V.MagSquared(b) != 0.0
    ensures Apply(MakeRejection(b), b) == V.Zero()
  {
    RejectionApplies(b, b);
    V.ScaleByOne(V.Dot(b, b) / V.Dot(b, b), b);
    V.NegSubLaws(b, b);
  }

  /** Projecting twice is projecting once. */
  lemma ProjectionIdempotent(b: V.Vec3)
    requires V.MagSquared(b) != 0.0
    ensures Mul(MakeProjection(b), MakeProjection(b)) == MakeProjection(b)
  {
    OuterSquare(b);
    ScaledIdempotent(1.0 / V.MagSquared(b), V.MagSquared(b), Outer(b, b));
  }

  /** If o o is n o, then (k o)(k o) is k o whenever k n is one. */
  lemma ScaledIdempotent(k: real, n: real, o: Mat3)
    requires k * n == 1.0
    requires Mul(o, o) == Scale(n, o)
    ensures Mul(Scale(k, o), Scale(k, o)) == Scale(k, o)
  {
    MulScaled(k, k, o, o);
    ScaleComposes(k, k, Scale(n, o));
    ScaleComposes(k, n, o);
    ScaleOne(o);
  }

  /** The outer product of b with itself squares to itself scaled by the
      squared magnitude of b. */
  lemma OuterSquare(b: V.Vec3)
    ensures Mul(Outer(b, b), Outer(b, b)) == Scale(V.MagSquared(b), Outer(b, b))
  {
    var o := Outer(b, b);
    OuterColumnApply(b, b.x);
    OuterColumnApply(b, b.y);
    OuterColumnApply(b, b.z);
    OuterColumns(b, b);
    MulColumns(o, o);
  }

  /** The columns of an outer product are scaled copies of a. */
  lemma OuterColumns(a: V.Vec3, b: V.Vec3)
    ensures Outer(a, b) == Mat3(V.Scale(b.x, a), V.Scale(b.y, a), V.Scale(b.z, a))
  {}

  /** The outer product of b with itself sends a multiple of b to that
      multiple scaled by the squared magnitude of b. */
  lemma OuterColumnApply(b: V.Vec3, s: real)
    ensures Apply(Outer(b, b), V.Scale(s, b)) == V.Scale(V.MagSquared(b), V.Scale(s, b))
  {
    ScaleSelfDot(b, s);
    OuterApply(b, b, V.Scale(s, b));
    DotScaledSelf(b, s);
    V.ScaleEqual(V.Dot(b, V.Scale(s, b)), V.Dot(b, b) * s, b);
  }

  lemma ScaleSelfDot(b: V.Vec3, s: real)
    ensures V.Scale(V.Dot(b, b) * s, b) == V.Scale(V.MagSquared(b), V.Scale(s, b))
  {
    V.ScaleTwice(V.Dot(b, b), s, b);
  }

  lemma DotScaledSelf(b: V.Vec3, s: real)
    ensures V.Dot(b, V.Scale(s, b)) == V.Dot(b, b) * s
  {
    V.DotSymmetricBilinear(V.Scale(s, b), b, b, s);
    V.DotSymmetricBilinear(b, b, b, s);
  }


  // ---------------------------------------------------------------------
  // Rotations

  /** The cross-product matrix of a applies the map b -> a x b. */
  lemma CrossMatApply(a: V.Vec3, b: V.Vec3)
    ensures Apply(CrossMat(a), b) == V.Cross(a, b)
  {
    var p := Apply(CrossMat(a), b);
    var q := V.Cross(a, b);
    assert p.x == q.x;
    assert p.y == q.y;
    assert p.z == q.z;
  }

  /** Rodrigues' formula applied to a vector: c v + (1 - c)(u . v) u + s (u x v). */
  lemma RodriguesApply(c: real, s: real, u: V.Vec3, v: V.Vec3)
    ensures Apply(RodriguesMatrix(c, s, u), v)
      == V.Add(V.Add(V.Scale(c, v), V.Scale(1.0 - c, V.Scale(V.Dot(u, v), u))), V.Scale(s, V.Cross(u, v)))
  {
    var a := Scale(c, Identity());
    var b := Scale(1.0 - c, Outer(u, u));
    var x := Scale(s, CrossMat(u));
    ApplySumMatrix(Add(a, b), x, v);
    ApplySumMatrix(a, b, v);
    ApplyScaledMatrix(c, Identity(), v);
    ApplyScaledMatrix(1.0 - c, Outer(u, u), v);
    ApplyScaledMatrix(s, CrossMat(u), v);
    ApplyIdentity(v);
    OuterApply(u, u, v);
    CrossMatApply(u, v);
  }

  /** A non-zero vector has a non-zero magnitude. */
  lemma MagnitudeNonZero(lib: MathLib, v: V.Vec3)
    requires Laws(lib)
    requires v != V.Zero()
    ensures V.Magnitude(lib, v) != 0.0
  {
    V.MagSquaredPositive(v);
    var r := lib.sqrt(V.Dot(v, v));
    assert r * r == V.Dot(v, v);
  }

  /** The rotation about a non-zero axis v leaves v where it is. */
  lemma RotationFixesAxis(lib: MathLib, theta: real, v: V.Vec3)
    requires Laws(lib)
    requires v != V.Zero()
    ensures V.Magnitude(lib, v) != 0.0
    ensures Apply(MakeRotation(lib, theta, v), v) == v
  {
    MagnitudeNonZero(lib, v);
    var r := V.Magnitude(lib, v);
    V.MagSquaredPositive(v);
    assert r * r == V.Dot(v, v);
    UnitFactor(r, V.Dot(v, v));
    RodriguesFixesAxis(lib.cos(theta), lib.sin(theta), V.MagInverse(lib, v), v);
  }

  /** Rodrigues' formula about k v, where k v is a unit vector, fixes v. */
  lemma RodriguesFixesAxis(c: real, s: real, k: real, v: V.Vec3)
    requires k * V.Dot(v, v) * k == 1.0
    ensures Apply(RodriguesMatrix(c, s, V.ScaleRight(v, k)), v) == v
  {
    var u := V.Scale(k, v);
    RodriguesApply(c, s, u, v);
    // (u . v) u is v again because u is v over its magnitude.
    V.DotSymmetricBilinear(v, v, v, k);
    var t := V.Dot(u, v);
    ScaledFactor(t, k, V.Dot(v, v));
    V.ScaleTwice(t, k, v);
    V.ScaleByOne(t * k, v);
    // u x v vanishes because u is a multiple of v.
    V.CrossScale(k, v, v);
    assert V.Scale(s, V.Cross(u, v)) == V.Zero();
    V.ScaleFactorsAdd(c, 1.0 - c, v);
    V.ScaleByOne(c + (1.0 - c), v);
  }

  /** If d is k n and k n k is one, d k is one. */
  lemma ScaledFactor(d: real, k: real, n: real)
    requires d == k * n && k * n * k == 1.0
    ensures d * k == 1.0
  {}

  /** If r is the square root of n, (1 / r) n (1 / r) is one. */
  lemma UnitFactor(r: real, n: real)
    requires r != 0.0 && r * r == n
    ensures (1.0 / r) * n * (1.0 / r) == 1.0
  {
    assert (1.0 / r) * r == 1.0;
  }

  /** About a coordinate axis, the general rotation is the axis rotation. */
  lemma RotationAboutAxes(lib: MathLib, theta: real)
    requires Laws(lib)
    ensures V.Magnitude(lib, V.Vec3(1.0, 0.0, 0.0)) != 0.0
    ensures V.Magnitude(lib, V.Vec3(0.0, 1.0, 0.0)) != 0.0
    ensures V.Magnitude(lib, V.Vec3(0.0, 0.0, 1.0)) != 0.0
    ensures MakeRotation(lib, theta, V.Vec3(1.0, 0.0, 0.0)) == MakeRotationX(lib, theta)
    ensures MakeRotation(lib, theta, V.Vec3(0.0, 1.0, 0.0)) == MakeRotationY(lib, theta)
    ensures MakeRotation(lib, theta, V.Vec3(0.0, 0.0, 1.0)) == MakeRotationZ(lib, theta)
  {
    RotationAboutX(lib, theta);
    RotationAboutY(lib, theta);
    RotationAboutZ(lib, theta);
  }

  lemma RotationAboutX(lib: MathLib, theta: real)
    requires Laws(lib)
    ensures V.Magnitude(lib, V.Vec3(1.0, 0.0, 0.0)) != 0.0
    ensures MakeRotation(lib, theta, V.Vec3(1.0, 0.0, 0.0)) == MakeRotationX(lib, theta)
  {
    UnitAxis(lib, V.Vec3(1.0, 0.0, 0.0));
    UnitAxisX(lib, theta);
  }

  lemma RotationAboutY(lib: MathLib, theta: real)
    requires Laws(lib)
    ensures V.Magnitude(lib, V.Vec3(0.0, 1.0, 0.0)) != 0.0
    ensures MakeRotation(lib, theta, V.Vec3(0.0, 1.0, 0.0)) == MakeRotationY(lib, theta)
  {
    UnitAxis(lib, V.Vec3(0.0, 1.0, 0.0));
    UnitAxisY(lib, theta);
  }

  lemma RotationAboutZ(lib: MathLib, theta: real)
    requires Laws(lib)
    ensures V.Magnitude(lib, V.Vec3(0.0, 0.0, 1.0)) != 0.0
    ensures MakeRotation(lib, theta, V.Vec3(0.0, 0.0, 1.0)) == MakeRotationZ(lib, theta)
  {
    UnitAxis(lib, V.Vec3(0.0, 0.0, 1.0));
    UnitAxisZ(lib, theta);
  }

  /** A vector of squared length one has magnitude one and normalizes to itself. */
  lemma UnitAxis(lib: MathLib, e: V.Vec3)
    requires Laws(lib)
    requires V.Dot(e, e) == 1.0
    ensures V.Magnitude(lib, e) != 0.0
    ensures V.ScaleRight(e, V.MagInverse(lib, e)) == e
  {
    SqrtOne(lib);
    assert V.MagInverse(lib, e) == 1.0;
    V.ScaleByOne(1.0, e);
  }

  /** Rodrigues' formula unfolded for an axis that normalizes to itself. */
  lemma RotationAboutUnit(lib: MathLib, theta: real, e: V.Vec3)
    requires V.Magnitude(lib, e) != 0.0
    requires V.ScaleRight(e, V.MagInverse(lib, e)) == e
    ensures MakeRotation(lib, theta, e) == RodriguesMatrix(lib.cos(theta), lib.sin(theta), e)
  {}

  /** The general rotation about the x axis, once that axis is known to be a unit vector. */
  lemma UnitAxisX(lib: MathLib, theta: real)
    requires V.Magnitude(lib, V.Vec3(1.0, 0.0, 0.0)) != 0.0
    requires V.ScaleRight(V.Vec3(1.0, 0.0, 0.0), V.MagInverse(lib, V.Vec3(1.0, 0.0, 0.0))) == V.Vec3(1.0, 0.0, 0.0)
    ensures MakeRotation(lib, theta, V.Vec3(1.0, 0.0, 0.0)) == MakeRotationX(lib, theta)
  {
    RotationAboutUnit(lib, theta, V.Vec3(1.0, 0.0, 0.0));
    RodriguesX(lib.cos(theta), lib.sin(theta));
  }

  /** Rodrigues' formula about the x axis, for any c and s. */
  lemma RodriguesX(c: real, s: real)
    ensures var e := V.Vec3(1.0, 0.0, 0.0);
      RodriguesMatrix(c, s, e)
      == FromEntries(1.0, 0.0, 0.0, 0.0, c, -s, 0.0, s, c)
  {
    var e := V.Vec3(1.0, 0.0, 0.0);
    assert Scale(c, Identity()) == FromEntries(c, 0.0, 0.0, 0.0, c, 0.0, 0.0, 0.0, c);
    assert Outer(e, e) == FromEntries(1.0, 0.0, 0.0, 0.0, 0.0, 0.0, 0.0, 0.0, 0.0);
    assert Scale(1.0 - c, Outer(e, e)) == FromEntries(1.0 - c, 0.0, 0.0, 0.0, 0.0, 0.0, 0.0, 0.0, 0.0);
    assert CrossMat(e) == FromEntries(0.0, 0.0, 0.0, 0.0, 0.0, -1.0, 0.0, 1.0, 0.0);
    assert Scale(s, CrossMat(e)) == FromEntries(0.0, 0.0, 0.0, 0.0, 0.0, -s, 0.0, s, 0.0);
  }

  /** The general rotation about the y axis, once that axis is known to be a unit vector. */
  lemma UnitAxisY(lib: MathLib, theta: real)
    requires V.Magnitude(lib, V.Vec3(0.0, 1.0, 0.0)) != 0.0
    requires V.ScaleRight(V.Vec3(0.0, 1.0, 0.0), V.MagInverse(lib, V.Vec3(0.0, 1.0, 0.0))) == V.Vec3(0.0, 1.0, 0.0)
    ensures MakeRotation(lib, theta, V.Vec3(0.0, 1.0, 0.0)) == MakeRotationY(lib, theta)
  {
    RotationAboutUnit(lib, theta, V.Vec3(0.0, 1.0, 0.0));
    RodriguesY(lib.cos(theta), lib.sin(theta));
  }

  /** Rodrigues' formula about the y axis, for any c and s. */
  lemma RodriguesY(c: real, s: real)
    ensures var e := V.Vec3(0.0, 1.0, 0.0);
      RodriguesMatrix(c, s, e)
      == FromEntries(c, 0.0, s, 0.0, 1.0, 0.0, -s, 0.0, c)
  {
    var e := V.Vec3(0.0, 1.0, 0.0);
    assert Scale(c, Identity()) == FromEntries(c, 0.0, 0.0, 0.0, c, 0.0, 0.0, 0.0, c);
    assert Outer(e, e) == FromEntries(0.0, 0.0, 0.0, 0.0, 1.0, 0.0, 0.0, 0.0, 0.0);
    assert Scale(1.0 - c, Outer(e, e)) == FromEntries(0.0, 0.0, 0.0, 0.0, 1.0 - c, 0.0, 0.0, 0.0, 0.0);
    assert CrossMat(e) == FromEntries(0.0, 0.0, 1.0, 0.0, 0.0, 0.0, -1.0, 0.0, 0.0);
    assert Scale(s, CrossMat(e)) == FromEntries(0.0, 0.0, s, 0.0, 0.0, 0.0, -s, 0.0, 0.0);
  }

  /** The general rotation about the z axis, once that axis is known to be a unit vector. */
  lemma UnitAxisZ(lib: MathLib, theta: real)
    requires V.Magnitude(lib, V.Vec3(0.0, 0.0, 1.0)) != 0.0
    requires V.ScaleRight(V.Vec3(0.0, 0.0, 1.0), V.MagInverse(lib, V.Vec3(0.0, 0.0, 1.0))) == V.Vec3(0.0, 0.0, 1.0)
    ensures MakeRotation(lib, theta, V.Vec3(0.0, 0.0, 1.0)) == MakeRotationZ(lib, theta)
  {
    RotationAboutUnit(lib, theta, V.Vec3(0.0, 0.0, 1.0));
    RodriguesZ(lib.cos(theta), lib.sin(theta));
  }

  /** Rodrigues' formula about the z axis, for any c and s. */
  lemma RodriguesZ(c: real, s: real)
    ensures var e := V.Vec3(0.0, 0.0, 1.0);
      RodriguesMatrix(c, s, e)
      == FromEntries(c, -s, 0.0, s, c, 0.0, 0.0, 0.0, 1.0)
  {
    var e := V.Vec3(0.0, 0.0, 1.0);
    assert Scale(c, Identity()) == FromEntries(c, 0.0, 0.0, 0.0, c, 0.0, 0.0, 0.0, c);
    assert Outer(e, e) == FromEntries(0.0, 0.0, 0.0, 0.0, 0.0, 0.0, 0.0, 0.0, 1.0);
    assert Scale(1.0 - c, Outer(e, e)) == FromEntries(0.0, 0.0, 0.0, 0.0, 0.0, 0.0, 0.0, 0.0, 1.0 - c);
    assert CrossMat(e) == FromEntries(0.0, -1.0, 0.0, 1.0, 0.0, 0.0, 0.0, 0.0, 0.0);
    assert Scale(s, CrossMat(e)) == FromEntries(0.0, -s, 0.0, s, 0.0, 0.0, 0.0, 0.0, 0.0);
  }

  /** The axis rotations are orthogonal with determinant one. */
  lemma AxisRotationsOrthogonal(lib: MathLib, theta: real)
    requires Laws(lib)
    ensures Mul(Transpose(MakeRotationX(lib, theta)), MakeRotationX(lib, theta)) == Identity()
    ensures Mul(Transpose(MakeRotationY(lib, theta)), MakeRotationY(lib, theta)) == Identity()
    ensures Mul(Transpose(MakeRotationZ(lib, theta)), MakeRotationZ(lib, theta)) == Identity()
    ensures Determinant(MakeRotationX(lib, theta)) == 1.0
    ensures Determinant(MakeRotationY(lib, theta)) == 1.0
    ensures Determinant(MakeRotationZ(lib, theta)) == 1.0
  {
    RotationXOrthogonal(lib, theta);
    RotationYOrthogonal(lib, theta);
    RotationZOrthogonal(lib, theta);
    RotationXDeterminant(lib, theta);
    RotationYDeterminant(lib, theta);
    RotationZDeterminant(lib, theta);
  }

  lemma RotationXOrthogonal(lib: MathLib, theta: real)
    requires Laws(lib)
    ensures Mul(Transpose(MakeRotationX(lib, theta)), MakeRotationX(lib, theta)) == Identity()
  {
    AxisXOrthogonal(lib.cos(theta), lib.sin(theta));
  }

  lemma AxisXOrthogonal(c: real, s: real)
    requires s * s + c * c == 1.0
    ensures Mul(Transpose(FromEntries(1.0, 0.0, 0.0, 0.0, c, -s, 0.0, s, c)), FromEntries(1.0, 0.0, 0.0, 0.0, c, -s, 0.0, s, c)) == Identity()
  {
    GramEntries(FromEntries(1.0, 0.0, 0.0, 0.0, c, -s, 0.0, s, c));
  }

  lemma RotationXDeterminant(lib: MathLib, theta: real)
    requires Laws(lib)
    ensures Determinant(MakeRotationX(lib, theta)) == 1.0
  {
    AxisXDeterminant(lib.cos(theta), lib.sin(theta));
  }

  lemma AxisXDeterminant(c: real, s: real)
    requires s * s + c * c == 1.0
    ensures Determinant(FromEntries(1.0, 0.0, 0.0, 0.0, c, -s, 0.0, s, c)) == 1.0
  {}

  lemma RotationYOrthogonal(lib: MathLib, theta: real)
    requires Laws(lib)
    ensures Mul(Transpose(MakeRotationY(lib, theta)), MakeRotationY(lib, theta)) == Identity()
  {
    AxisYOrthogonal(lib.cos(theta), lib.sin(theta));
  }

  lemma AxisYOrthogonal(c: real, s: real)
    requires s * s + c * c == 1.0
    ensures Mul(Transpose(FromEntries(c, 0.0, s, 0.0, 1.0, 0.0, -s, 0.0, c)), FromEntries(c, 0.0, s, 0.0, 1.0, 0.0, -s, 0.0, c)) == Identity()
  {
    GramEntries(FromEntries(c, 0.0, s, 0.0, 1.0, 0.0, -s, 0.0, c));
  }

  lemma RotationYDeterminant(lib: MathLib, theta: real)
    requires Laws(lib)
    ensures Determinant(MakeRotationY(lib, theta)) == 1.0
  {
    AxisYDeterminant(lib.cos(theta), lib.sin(theta));
  }

  lemma AxisYDeterminant(c: real, s: real)
    requires s * s + c * c == 1.0
    ensures Determinant(FromEntries(c, 0.0, s, 0.0, 1.0, 0.0, -s, 0.0, c)) == 1.0
  {}

  lemma RotationZOrthogonal(lib: MathLib, theta: real)
    requires Laws(lib)
    ensures Mul(Transpose(MakeRotationZ(lib, theta)), MakeRotationZ(lib, theta)) == Identity()
  {
    AxisZOrthogonal(lib.cos(theta), lib.sin(theta));
  }

  lemma AxisZOrthogonal(c: real, s: real)
    requires s * s + c * c == 1.0
    ensures Mul(Transpose(FromEntries(c, -s, 0.0, s, c, 0.0, 0.0, 0.0, 1.0)), FromEntries(c, -s, 0.0, s, c, 0.0, 0.0, 0.0, 1.0)) == Identity()
  {
    GramEntries(FromEntries(c, -s, 0.0, s, c, 0.0, 0.0, 0.0, 1.0));
  }

  lemma RotationZDeterminant(lib: MathLib, theta: real)
    requires Laws(lib)
    ensures Determinant(MakeRotationZ(lib, theta)) == 1.0
  {
    AxisZDeterminant(lib.cos(theta), lib.sin(theta));
  }

  lemma AxisZDeterminant(c: real, s: real)
    requires s * s + c * c == 1.0
    ensures Determinant(FromEntries(c, -s, 0.0, s, c, 0.0, 0.0, 0.0, 1.0)) == 1.0
  {}

  /** The product of the transpose of m with m holds the dot products of the
      columns of m. */
  lemma GramEntries(m: Mat3)
    ensures Mul(Transpose(m), m) == FromEntries(
      V.Dot(m.c0, m.c0), V.Dot(m.c0, m.c1), V.Dot(m.c0, m.c2),
      V.Dot(m.c1, m.c0), V.Dot(m.c1, m.c1), V.Dot(m.c1, m.c2),
      V.Dot(m.c2, m.c0), V.Dot(m.c2, m.c1), V.Dot(m.c2, m.c2))
  {
    assert Row0(Transpose(m)) == m.c0;
    assert Row1(Transpose(m)) == m.c1;
    assert Row2(Transpose(m)) == m.c2;
  }

  /** A matrix that keeps every length is orthogonal: the squared lengths of
      the images of (1, 0, 0), (0, 1, 0), (1, 1, 0), (1, 0, 1), (0, 1, 1) and
      (1, 1, 1) pin down every dot product of two columns. */
  lemma IsometryIsOrthogonal(m: Mat3)
    requires forall v :: V.MagSquared(Apply(m, v)) == V.MagSquared(v)
    ensures Mul(Transpose(m), m) == Identity()
  {
    KeepsLengthX(m);
    KeepsLengthY(m);
    KeepsLengthXY(m);
    KeepsLengthXZ(m);
    KeepsLengthYZ(m);
    KeepsLengthXYZ(m);
    OrthonormalColumns(m);
  }

  lemma KeepsLengthX(m: Mat3)
    requires forall v :: V.MagSquared(Apply(m, v)) == V.MagSquared(v)
    ensures V.MagSquared(m.c0) == 1.0
  {
    ImageX(m);
    V.SquaredLength(1.0, 0.0, 0.0);
    assert V.MagSquared(Apply(m, V.Vec3(1.0, 0.0, 0.0))) == V.MagSquared(V.Vec3(1.0, 0.0, 0.0));
  }

  lemma KeepsLengthY(m: Mat3)
    requires forall v :: V.MagSquared(Apply(m, v)) == V.MagSquared(v)
    ensures V.MagSquared(m.c1) == 1.0
  {
    ImageY(m);
    V.SquaredLength(0.0, 1.0, 0.0);
    assert V.MagSquared(Apply(m, V.Vec3(0.0, 1.0, 0.0))) == V.MagSquared(V.Vec3(0.0, 1.0, 0.0));
  }

  lemma KeepsLengthXY(m: Mat3)
    requires forall v :: V.MagSquared(Apply(m, v)) == V.MagSquared(v)
    ensures V.MagSquared(V.Add(m.c0, m.c1)) == 2.0
  {
    ImageXY(m);
    V.SquaredLength(1.0, 1.0, 0.0);
    assert V.MagSquared(Apply(m, V.Vec3(1.0, 1.0, 0.0))) == V.MagSquared(V.Vec3(1.0, 1.0, 0.0));
  }

  lemma KeepsLengthXZ(m: Mat3)
    requires forall v :: V.MagSquared(Apply(m, v)) == V.MagSquared(v)
    ensures V.MagSquared(V.Add(m.c0, m.c2)) == 2.0
  {
    ImageXZ(m);
    V.SquaredLength(1.0, 0.0, 1.0);
    assert V.MagSquared(Apply(m, V.Vec3(1.0, 0.0, 1.0))) == V.MagSquared(V.Vec3(1.0, 0.0, 1.0));
  }

  lemma KeepsLengthYZ(m: Mat3)
    requires forall v :: V.MagSquared(Apply(m, v)) == V.MagSquared(v)
    ensures V.MagSquared(V.Add(m.c1, m.c2)) == 2.0
  {
    ImageYZ(m);
    V.SquaredLength(0.0, 1.0, 1.0);
    assert V.MagSquared(Apply(m, V.Vec3(0.0, 1.0, 1.0))) == V.MagSquared(V.Vec3(0.0, 1.0, 1.0));
  }

  lemma KeepsLengthXYZ(m: Mat3)
    requires forall v :: V.MagSquared(Apply(m, v)) == V.MagSquared(v)
    ensures V.MagSquared(V.Add(V.Add(m.c0, m.c1), m.c2)) == 3.0
  {
    ImageXYZ(m);
    V.SquaredLength(1.0, 1.0, 1.0);
    assert V.MagSquared(Apply(m, V.Vec3(1.0, 1.0, 1.0))) == V.MagSquared(V.Vec3(1.0, 1.0, 1.0));
  }

  /** Columns with these squared lengths of c0, c1, their pairwise sums and
      their total sum are orthonormal, so the matrix is orthogonal. */
  lemma OrthonormalColumns(m: Mat3)
    requires V.MagSquared(m.c0) == 1.0 && V.MagSquared(m.c1) == 1.0
    requires V.MagSquared(V.Add(m.c0, m.c1)) == 2.0
    requires V.MagSquared(V.Add(m.c0, m.c2)) == 2.0
    requires V.MagSquared(V.Add(m.c1, m.c2)) == 2.0
    requires V.MagSquared(V.Add(V.Add(m.c0, m.c1), m.c2)) == 3.0
    ensures Mul(Transpose(m), m) == Identity()
  {
    GramEntries(m);
    V.DotOfSum(m.c0, m.c1);
    V.DotOfSum(m.c0, m.c2);
    V.DotOfSum(m.c1, m.c2);
    V.DotOfSum(V.Add(m.c0, m.c1), m.c2);
    V.DotSymmetricBilinear(m.c0, m.c1, m.c2, 1.0);
    V.DotSymmetric(m.c0, m.c1);
    V.DotSymmetric(m.c0, m.c2);
    V.DotSymmetric(m.c1, m.c2);
  }

  /** The images of the coordinate axes are the columns, and the images of
      their pairwise sums are sums of columns. */
  lemma ImageX(m: Mat3)
    ensures Apply(m, V.Vec3(1.0, 0.0, 0.0)) == m.c0
  {
    V.ScaleByOne(1.0, m.c0);
    V.ScaleByZero(m.c1);
    V.ScaleByZero(m.c2);
  }

  lemma ImageY(m: Mat3)
    ensures Apply(m, V.Vec3(0.0, 1.0, 0.0)) == m.c1
  {
    V.ScaleByZero(m.c0);
    V.ScaleByOne(1.0, m.c1);
    V.ScaleByZero(m.c2);
  }

  lemma ImageXY(m: Mat3)
    ensures Apply(m, V.Vec3(1.0, 1.0, 0.0)) == V.Add(m.c0, m.c1)
  {
    V.ScaleByOne(1.0, m.c0);
    V.ScaleByOne(1.0, m.c1);
    V.ScaleByZero(m.c2);
  }

  lemma ImageXZ(m: Mat3)
    ensures Apply(m, V.Vec3(1.0, 0.0, 1.0)) == V.Add(m.c0, m.c2)
  {
    V.ScaleByOne(1.0, m.c0);
    V.ScaleByZero(m.c1);
    V.ScaleByOne(1.0, m.c2);
  }

  lemma ImageXYZ(m: Mat3)
    ensures Apply(m, V.Vec3(1.0, 1.0, 1.0)) == V.Add(V.Add(m.c0, m.c1), m.c2)
  {
    V.ScaleByOne(1.0, m.c0);
    V.ScaleByOne(1.0, m.c1);
    V.ScaleByOne(1.0, m.c2);
  }

  lemma ImageYZ(m: Mat3)
    ensures Apply(m, V.Vec3(0.0, 1.0, 1.0)) == V.Add(m.c1, m.c2)
  {
    V.ScaleByZero(m.c0);
    V.ScaleByOne(1.0, m.c1);
    V.ScaleByOne(1.0, m.c2);
  }

  /** Rodrigues' formula about a unit axis keeps lengths: with d = u . v,
      |c v + (1 - c) d u + s (u x v)|^2 = c^2 |v|^2 + (1 - c^2) d^2
      + s^2 (|v|^2 - d^2), which is |v|^2 when c^2 + s^2 = 1. */
  lemma RodriguesPreservesLength(c: real, s: real, u: V.Vec3, v: V.Vec3)
    requires c * c + s * s == 1.0
    requires V.Dot(u, u) == 1.0
    ensures V.MagSquared(Apply(RodriguesMatrix(c, s, u), v)) == V.MagSquared(v)
  {
    RodriguesApply(c, s, u, v);
    RodriguesScaledAxis(c, V.Dot(u, v), u);
    RodriguesTermsLength(c, s, (1.0 - c) * V.Dot(u, v), u, v);
  }

  /** The squared length of c v + e u + s (u x v) for a unit u, where e is
      (1 - c)(u . v). */
  lemma RodriguesTermsLength(c: real, s: real, e: real, u: V.Vec3, v: V.Vec3)
    requires c * c + s * s == 1.0
    requires V.Dot(u, u) == 1.0
    requires e == (1.0 - c) * V.Dot(u, v)
    ensures V.MagSquared(V.Add(V.Add(V.Scale(c, v), V.Scale(e, u)), V.Scale(s, V.Cross(u, v)))) == V.MagSquared(v)
  {
    SumOfThreeLength(V.Scale(c, v), V.Scale(e, u), V.Scale(s, V.Cross(u, v)));
    TermProducts(c, e, u, v);
    TermCrossProducts(c, s, e, u, v);
    V.CrossLength(u, v);
    RodriguesLengthReal(c, s, V.Dot(u, v), V.Dot(v, v), e, V.Dot(u, u), V.Dot(V.Cross(u, v), V.Cross(u, v)),
                        V.Dot(V.Scale(c, v), V.Scale(c, v)), V.Dot(V.Scale(c, v), V.Scale(e, u)),
                        V.Dot(V.Scale(e, u), V.Scale(e, u)), V.Dot(V.Scale(c, v), V.Scale(s, V.Cross(u, v))),
                        V.Dot(V.Scale(e, u), V.Scale(s, V.Cross(u, v))),
                        V.Dot(V.Scale(s, V.Cross(u, v)), V.Scale(s, V.Cross(u, v))));
  }

  /** The squared length of a sum of three vectors. */
  lemma SumOfThreeLength(a: V.Vec3, b: V.Vec3, x: V.Vec3)
    ensures V.MagSquared(V.Add(V.Add(a, b), x))
         == V.Dot(a, a) + 2.0 * V.Dot(a, b) + V.Dot(b, b) + 2.0 * (V.Dot(a, x) + V.Dot(b, x)) + V.Dot(x, x)
  {
    V.DotOfSum(V.Add(a, b), x);
    V.DotOfSum(a, b);
    V.DotSymmetricBilinear(a, b, x, 1.0);
  }

  /** The products of the terms c v and e u of Rodrigues' formula. */
  lemma TermProducts(c: real, e: real, u: V.Vec3, v: V.Vec3)
    ensures V.Dot(V.Scale(c, v), V.Scale(c, v)) == c * c * V.Dot(v, v)
    ensures V.Dot(V.Scale(c, v), V.Scale(e, u)) == c * e * V.Dot(u, v)
    ensures V.Dot(V.Scale(e, u), V.Scale(e, u)) == e * e * V.Dot(u, u)
  {
    V.DotScaledBoth(c, v, c, v);
    V.DotScaledBoth(c, v, e, u);
    V.DotSymmetric(v, u);
    V.DotScaledBoth(e, u, e, u);
  }

  /** The products with the term s (u x v) of Rodrigues' formula. */
  lemma TermCrossProducts(c: real, s: real, e: real, u: V.Vec3, v: V.Vec3)
    ensures V.Dot(V.Scale(c, v), V.Scale(s, V.Cross(u, v))) == 0.0
    ensures V.Dot(V.Scale(e, u), V.Scale(s, V.Cross(u, v))) == 0.0
    ensures V.Dot(V.Scale(s, V.Cross(u, v)), V.Scale(s, V.Cross(u, v))) == s * s * V.Dot(V.Cross(u, v), V.Cross(u, v))
  {
    var w := V.Cross(u, v);
    V.DotScaledBoth(c, v, s, w);
    V.DotScaledBoth(e, u, s, w);
    V.CrossDotRepeated(u, v);
    V.DotSymmetric(v, w);
    V.DotSymmetric(u, w);
    V.DotScaledBoth(s, w, s, w);
  }

  /** The axial term of Rodrigues' formula is one scaling of the axis. */
  lemma RodriguesScaledAxis(c: real, d: real, u: V.Vec3)
    ensures V.Scale(1.0 - c, V.Scale(d, u)) == V.Scale((1.0 - c) * d, u)
  {
    var l := V.Scale(1.0 - c, V.Scale(d, u));
    var r := V.Scale((1.0 - c) * d, u);
    assert l.x == r.x;
    assert l.y == r.y;
    assert l.z == r.z;
  }

  /** The arithmetic of RodriguesTermsLength: the squared lengths and dot
      products of the three terms add up to n. */
  lemma RodriguesLengthReal(c: real, s: real, d: real, n: real, e: real, k: real, l: real,
                            aa: real, ab: real, bb: real, ax: real, bx: real, xx: real)
    requires c * c + s * s == 1.0
    requires e == (1.0 - c) * d && k == 1.0 && l == k * n - d * d
    requires aa == c * c * n && ab == c * e * d && bb == e * e * k
    requires ax == 0.0 && bx == 0.0 && xx == s * s * l
    ensures aa + 2.0 * ab + bb + 2.0 * (ax + bx) + xx == n
  {
    assert c * e * d == c * (1.0 - c) * (d * d);
    assert e * e == (1.0 - c) * (1.0 - c) * (d * d);
    assert c * c * n + s * s * n == n;
  }

  /** Rodrigues' matrix about a unit axis is orthogonal. */
  lemma RodriguesOrthogonal(c: real, s: real, u: V.Vec3)
    requires c * c + s * s == 1.0
    requires V.Dot(u, u) == 1.0
    ensures Mul(Transpose(RodriguesMatrix(c, s, u)), RodriguesMatrix(c, s, u)) == Identity()
  {
    forall v
      ensures V.MagSquared(Apply(RodriguesMatrix(c, s, u), v)) == V.MagSquared(v)
    {
      RodriguesPreservesLength(c, s, u, v);
    }
    IsometryIsOrthogonal(RodriguesMatrix(c, s, u));
  }

  /** An orthogonal matrix whose first column is the cross product of the
      other two has determinant one: it is a rotation, not a reflection. */
  lemma RightHandedDeterminant(m: Mat3)
    requires Mul(Transpose(m), m) == Identity()
    requires V.Cross(m.c1, m.c2) == m.c0
    ensures Determinant(m) == 1.0
  {
    GramEntries(m);
    DeterminantIsTriple(m);
    V.TripleCyclic(m.c0, m.c1, m.c2);
    V.DotSymmetric(m.c0, m.c0);
  }

  /** Rodrigues' matrix column by column, with t = 1 - c. */
  lemma RodriguesEntries(c: real, s: real, u: V.Vec3)
    ensures RodriguesMatrix(c, s, u).c0
         == V.Vec3(c + (1.0 - c) * u.x * u.x, (1.0 - c) * u.x * u.y + s * u.z, (1.0 - c) * u.x * u.z - s * u.y)
    ensures RodriguesMatrix(c, s, u).c1
         == V.Vec3((1.0 - c) * u.x * u.y - s * u.z, c + (1.0 - c) * u.y * u.y, (1.0 - c) * u.y * u.z + s * u.x)
    ensures RodriguesMatrix(c, s, u).c2
         == V.Vec3((1.0 - c) * u.x * u.z + s * u.y, (1.0 - c) * u.y * u.z - s * u.x, c + (1.0 - c) * u.z * u.z)
  {
    RodriguesColumn0(c, s, u);
    RodriguesColumn1(c, s, u);
    RodriguesColumn2(c, s, u);
  }

  lemma RodriguesColumn0(c: real, s: real, u: V.Vec3)
    ensures RodriguesMatrix(c, s, u).c0
         == V.Vec3(c + (1.0 - c) * u.x * u.x, (1.0 - c) * u.x * u.y + s * u.z, (1.0 - c) * u.x * u.z - s * u.y)
  {
    var m := RodriguesMatrix(c, s, u);
    assert m.c0.x == c * 1.0 + (1.0 - c) * (u.x * u.x) + s * 0.0;
    assert m.c0.y == c * 0.0 + (1.0 - c) * (u.y * u.x) + s * u.z;
    assert m.c0.z == c * 0.0 + (1.0 - c) * (u.z * u.x) + s * -u.y;
  }

  lemma RodriguesColumn1(c: real, s: real, u: V.Vec3)
    ensures RodriguesMatrix(c, s, u).c1
         == V.Vec3((1.0 - c) * u.x * u.y - s * u.z, c + (1.0 - c) * u.y * u.y, (1.0 - c) * u.y * u.z + s * u.x)
  {
    var m := RodriguesMatrix(c, s, u);
    assert m.c1.x == c * 0.0 + (1.0 - c) * (u.x * u.y) + s * -u.z;
    assert m.c1.y == c * 1.0 + (1.0 - c) * (u.y * u.y) + s * 0.0;
    assert m.c1.z == c * 0.0 + (1.0 - c) * (u.z * u.y) + s * u.x;
  }

  lemma RodriguesColumn2(c: real, s: real, u: V.Vec3)
    ensures RodriguesMatrix(c, s, u).c2
         == V.Vec3((1.0 - c) * u.x * u.z + s * u.y, (1.0 - c) * u.y * u.z - s * u.x, c + (1.0 - c) * u.z * u.z)
  {
    var m := RodriguesMatrix(c, s, u);
    assert m.c2.x == c * 0.0 + (1.0 - c) * (u.x * u.z) + s * u.y;
    assert m.c2.y == c * 0.0 + (1.0 - c) * (u.y * u.z) + s * -u.x;
    assert m.c2.z == c * 1.0 + (1.0 - c) * (u.z * u.z) + s * 0.0;
  }

  /** About a unit axis, the first column of Rodrigues' matrix is the cross
      product of the other two. */
  lemma RodriguesRightHanded(c: real, s: real, u: V.Vec3)
    requires c * c + s * s == 1.0
    requires V.Dot(u, u) == 1.0
    ensures V.Cross(RodriguesMatrix(c, s, u).c1, RodriguesMatrix(c, s, u).c2) == RodriguesMatrix(c, s, u).c0
  {
    var m := RodriguesMatrix(c, s, u);
    RodriguesEntries(c, s, u);
    RodriguesCrossIdentity(c, s, u, m.c1, m.c2, m.c0);
  }

  /** The same identity on columns a, b and e given entry by entry. */
  lemma RodriguesCrossIdentity(c: real, s: real, u: V.Vec3, a: V.Vec3, b: V.Vec3, e: V.Vec3)
    requires c * c + s * s == 1.0
    requires V.Dot(u, u) == 1.0
    requires a == V.Vec3((1.0 - c) * u.x * u.y - s * u.z, c + (1.0 - c) * u.y * u.y, (1.0 - c) * u.y * u.z + s * u.x)
    requires b == V.Vec3((1.0 - c) * u.x * u.z + s * u.y, (1.0 - c) * u.y * u.z - s * u.x, c + (1.0 - c) * u.z * u.z)
    requires e == V.Vec3(c + (1.0 - c) * u.x * u.x, (1.0 - c) * u.x * u.y + s * u.z, (1.0 - c) * u.x * u.z - s * u.y)
    ensures V.Cross(a, b) == e
  {
    RodriguesCrossX(c, s, u, a, b, e);
    RodriguesCrossY(c, s, u, a, b, e);
    RodriguesCrossZ(c, s, u, a, b, e);
    V.CrossComponents(a, b, e);
  }

  /** The x component of that identity on the columns a, b and e
      written out entry by entry. */
  lemma RodriguesCrossX(c: real, s: real, u: V.Vec3, a: V.Vec3, b: V.Vec3, e: V.Vec3)
    requires c * c + s * s == 1.0
    requires V.Dot(u, u) == 1.0
    requires a.y == c + (1.0 - c) * u.y * u.y && b.z == c + (1.0 - c) * u.z * u.z
    requires a.z == (1.0 - c) * u.y * u.z + s * u.x && b.y == (1.0 - c) * u.y * u.z - s * u.x
    requires e.x == c + (1.0 - c) * u.x * u.x
    ensures a.y * b.z - a.z * b.y == e.x
  {
    RodriguesCofactorX(c, s, u.x, u.y, u.z, a.y, b.z, a.z, b.y);
  }

  /** The y component of that identity on the columns a, b and e
      written out entry by entry. */
  lemma RodriguesCrossY(c: real, s: real, u: V.Vec3, a: V.Vec3, b: V.Vec3, e: V.Vec3)
    requires c * c + s * s == 1.0
    requires V.Dot(u, u) == 1.0
    requires a.z == (1.0 - c) * u.y * u.z + s * u.x && b.x == (1.0 - c) * u.x * u.z + s * u.y
    requires a.x == (1.0 - c) * u.x * u.y - s * u.z && b.z == c + (1.0 - c) * u.z * u.z
    requires e.y == (1.0 - c) * u.x * u.y + s * u.z
    ensures a.z * b.x - a.x * b.z == e.y
  {
    RodriguesCofactorY(c, s, u.x, u.y, u.z, a.z, b.x, a.x, b.z);
  }

  /** The z component of that identity on the columns a, b and e
      written out entry by entry. */
  lemma RodriguesCrossZ(c: real, s: real, u: V.Vec3, a: V.Vec3, b: V.Vec3, e: V.Vec3)
    requires c * c + s * s == 1.0
    requires V.Dot(u, u) == 1.0
    requires a.x == (1.0 - c) * u.x * u.y - s * u.z && b.y == (1.0 - c) * u.y * u.z - s * u.x
    requires a.y == c + (1.0 - c) * u.y * u.y && b.x == (1.0 - c) * u.x * u.z + s * u.y
    requires e.z == (1.0 - c) * u.x * u.z - s * u.y
    ensures a.x * b.y - a.y * b.x == e.z
  {
    RodriguesCofactorZ(c, s, u.x, u.y, u.z, a.x, b.y, a.y, b.x);
  }

  // Each component of that identity, p * q - r * w for four entries p, q, r
  // and w of the second and third columns, is taken in two steps: the
  // entries are substituted, a product at a time, and the resulting
  // polynomial in c, s and the axis (u1, u2, u3) is simplified.

  lemma RodriguesCofactorX(c: real, s: real, u1: real, u2: real, u3: real, p: real, q: real, r: real, w: real)
    requires c * c + s * s == 1.0
    requires u1 * u1 + u2 * u2 + u3 * u3 == 1.0
    requires p == c + (1.0 - c) * u2 * u2 && q == c + (1.0 - c) * u3 * u3
    requires r == (1.0 - c) * u2 * u3 + s * u1 && w == (1.0 - c) * u2 * u3 - s * u1
    ensures p * q - r * w == c + (1.0 - c) * u1 * u1
  {
    RodriguesProductDD(c, u2, u3, p, q);
    RodriguesProductConj(c, s, u1, u2, u3, r, w);
    RodriguesMinorX(c, s, u1, u2, u3);
  }

  lemma RodriguesCofactorY(c: real, s: real, u1: real, u2: real, u3: real, p: real, q: real, r: real, w: real)
    requires c * c + s * s == 1.0
    requires u1 * u1 + u2 * u2 + u3 * u3 == 1.0
    requires p == (1.0 - c) * u2 * u3 + s * u1 && q == (1.0 - c) * u1 * u3 + s * u2
    requires r == (1.0 - c) * u1 * u2 - s * u3 && w == c + (1.0 - c) * u3 * u3
    ensures p * q - r * w == (1.0 - c) * u1 * u2 + s * u3
  {
    RodriguesProductPP(c, s, u1, u2, u3, p, q);
    RodriguesProductMD(c, s, u1, u2, u3, r, w);
    RodriguesMinorY(c, s, u1, u2, u3);
  }

  lemma RodriguesCofactorZ(c: real, s: real, u1: real, u2: real, u3: real, p: real, q: real, r: real, w: real)
    requires c * c + s * s == 1.0
    requires u1 * u1 + u2 * u2 + u3 * u3 == 1.0
    requires p == (1.0 - c) * u1 * u2 - s * u3 && q == (1.0 - c) * u2 * u3 - s * u1
    requires r == c + (1.0 - c) * u2 * u2 && w == (1.0 - c) * u1 * u3 + s * u2
    ensures p * q - r * w == (1.0 - c) * u1 * u3 - s * u2
  {
    RodriguesProductMM(c, s, u1, u2, u3, p, q);
    RodriguesProductDP(c, s, u1, u2, u3, r, w);
    RodriguesMinorZ(c, s, u1, u2, u3);
  }

  lemma RodriguesMinorX(c: real, s: real, u1: real, u2: real, u3: real)
    requires c * c + s * s == 1.0
    requires u1 * u1 + u2 * u2 + u3 * u3 == 1.0
    ensures (c + (1.0 - c) * u2 * u2) * (c + (1.0 - c) * u3 * u3) - ((1.0 - c) * u2 * u3 + s * u1) * ((1.0 - c) * u2 * u3 - s * u1) == c + (1.0 - c) * u1 * u1
  {
    assert (c + (1.0 - c) * u2 * u2) * (c + (1.0 - c) * u3 * u3) - ((1.0 - c) * u2 * u3 + s * u1) * ((1.0 - c) * u2 * u3 - s * u1)
        == c * c + c * (1.0 - c) * (u2 * u2 + u3 * u3) + s * s * (u1 * u1);
    assert c * (1.0 - c) * (u2 * u2 + u3 * u3) == c * (1.0 - c) - c * (1.0 - c) * (u1 * u1);
    assert c * c + c * (1.0 - c) == c;
    assert s * s - c * (1.0 - c) == (1.0 - c) * 1.0;
  }

  lemma RodriguesMinorY(c: real, s: real, u1: real, u2: real, u3: real)
    requires c * c + s * s == 1.0
    requires u1 * u1 + u2 * u2 + u3 * u3 == 1.0
    ensures ((1.0 - c) * u2 * u3 + s * u1) * ((1.0 - c) * u1 * u3 + s * u2) - ((1.0 - c) * u1 * u2 - s * u3) * (c + (1.0 - c) * u3 * u3) == (1.0 - c) * u1 * u2 + s * u3
  {
    assert ((1.0 - c) * u2 * u3 + s * u1) * ((1.0 - c) * u1 * u3 + s * u2) - ((1.0 - c) * u1 * u2 - s * u3) * (c + (1.0 - c) * u3 * u3)
        == (1.0 - c) * s * u3 * (u1 * u1 + u2 * u2 + u3 * u3) + c * s * u3 + (s * s - c * (1.0 - c)) * (u1 * u2);
    assert s * s - c * (1.0 - c) == 1.0 - c;
  }

  lemma RodriguesMinorZ(c: real, s: real, u1: real, u2: real, u3: real)
    requires c * c + s * s == 1.0
    requires u1 * u1 + u2 * u2 + u3 * u3 == 1.0
    ensures ((1.0 - c) * u1 * u2 - s * u3) * ((1.0 - c) * u2 * u3 - s * u1) - (c + (1.0 - c) * u2 * u2) * ((1.0 - c) * u1 * u3 + s * u2) == (1.0 - c) * u1 * u3 - s * u2
  {
    assert ((1.0 - c) * u1 * u2 - s * u3) * ((1.0 - c) * u2 * u3 - s * u1) - (c + (1.0 - c) * u2 * u2) * ((1.0 - c) * u1 * u3 + s * u2)
        == -((1.0 - c) * s * u2 * (u1 * u1 + u2 * u2 + u3 * u3)) - c * s * u2 + (s * s - c * (1.0 - c)) * (u1 * u3);
    assert s * s - c * (1.0 - c) == 1.0 - c;
  }

  /** Rodrigues' matrix about a unit axis is a rotation: determinant one. */
  lemma RodriguesDeterminant(c: real, s: real, u: V.Vec3)
    requires c * c + s * s == 1.0
    requires V.Dot(u, u) == 1.0
    ensures Determinant(RodriguesMatrix(c, s, u)) == 1.0
  {
    RodriguesOrthogonal(c, s, u);
    RodriguesRightHanded(c, s, u);
    RightHandedDeterminant(RodriguesMatrix(c, s, u));
  }

  /** The rotation about any non-zero axis is orthogonal, its transpose being
      its inverse, and has determinant one. */
  lemma RotationOrthogonal(lib: MathLib, theta: real, v: V.Vec3)
    requires Laws(lib)
    requires v != V.Zero()
    ensures V.Magnitude(lib, v) != 0.0
    ensures Mul(Transpose(MakeRotation(lib, theta, v)), MakeRotation(lib, theta, v)) == Identity()
    ensures Determinant(MakeRotation(lib, theta, v)) == 1.0
  {
    NormalizedAxis(lib, v);
    var u := V.ScaleRight(v, V.MagInverse(lib, v));
    var c, s := lib.cos(theta), lib.sin(theta);
    assert c * c + s * s == 1.0;
    RodriguesIsRotation(c, s, u);
  }

  /** Rodrigues' matrix about a unit axis is orthogonal with determinant one. */
  lemma RodriguesIsRotation(c: real, s: real, u: V.Vec3)
    requires c * c + s * s == 1.0
    requires V.Dot(u, u) == 1.0
    ensures Mul(Transpose(RodriguesMatrix(c, s, u)), RodriguesMatrix(c, s, u)) == Identity()
    ensures Determinant(RodriguesMatrix(c, s, u)) == 1.0
  {
    RodriguesOrthogonal(c, s, u);
    RodriguesDeterminant(c, s, u);
  }

  /** A non-zero axis, divided by its magnitude, is a unit vector. */
  lemma NormalizedAxis(lib: MathLib, v: V.Vec3)
    requires Laws(lib)
    requires v != V.Zero()
    ensures V.Magnitude(lib, v) != 0.0
    ensures V.Dot(V.ScaleRight(v, V.MagInverse(lib, v)), V.ScaleRight(v, V.MagInverse(lib, v))) == 1.0
  {
    MagnitudeNonZero(lib, v);
    var r := V.Magnitude(lib, v);
    V.MagSquaredPositive(v);
    assert r * r == V.Dot(v, v);
    UnitFactor(r, V.Dot(v, v));
    var k := V.MagInverse(lib, v);
    V.DotScaledBoth(k, v, k, v);
  }

  // ---------------------------------------------------------------------
  // Solver steps
  //
  // Each lemma below substitutes equal terms into a product: its ensures is
  // its requires multiplied out. They model nothing in the library and only
  // guide the solver through the polynomial proofs above.

  lemma RodriguesProductDD(c: real, u2: real, u3: real, p: real, q: real)
    requires p == c + (1.0 - c) * u2 * u2 && q == c + (1.0 - c) * u3 * u3
    ensures p * q == (c + (1.0 - c) * u2 * u2) * (c + (1.0 - c) * u3 * u3)
  {}

  lemma RodriguesProductConj(c: real, s: real, u1: real, u2: real, u3: real, r: real, w: real)
    requires r == (1.0 - c) * u2 * u3 + s * u1 && w == (1.0 - c) * u2 * u3 - s * u1
    ensures r * w == ((1.0 - c) * u2 * u3 + s * u1) * ((1.0 - c) * u2 * u3 - s * u1)
  {}

  lemma RodriguesProductPP(c: real, s: real, u1: real, u2: real, u3: real, p: real, q: real)
    requires p == (1.0 - c) * u2 * u3 + s * u1 && q == (1.0 - c) * u1 * u3 + s * u2
    ensures p * q == ((1.0 - c) * u2 * u3 + s * u1) * ((1.0 - c) * u1 * u3 + s * u2)
  {}

  lemma RodriguesProductMD(c: real, s: real, u1: real, u2: real, u3: real, r: real, w: real)
    requires r == (1.0 - c) * u1 * u2 - s * u3 && w == c + (1.0 - c) * u3 * u3
    ensures r * w == ((1.0 - c) * u1 * u2 - s * u3) * (c + (1.0 - c) * u3 * u3)
  {}

  lemma RodriguesProductMM(c: real, s: real, u1: real, u2: real, u3: real, p: real, q: real)
    requires p == (1.0 - c) * u1 * u2 - s * u3 && q == (1.0 - c) * u2 * u3 - s * u1
    ensures p * q == ((1.0 - c) * u1 * u2 - s * u3) * ((1.0 - c) * u2 * u3 - s * u1)
  {}

  lemma RodriguesProductDP(c: real, s: real, u1: real, u2: real, u3: real, r: real, w: real)
    requires r == c + (1.0 - c) * u2 * u2 && w == (1.0 - c) * u1 * u3 + s * u2
    ensures r * w == (c + (1.0 - c) * u2 * u2) * ((1.0 - c) * u1 * u3 + s * u2)
  {}
}
