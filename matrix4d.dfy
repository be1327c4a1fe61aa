/** 4x4 matrices (Matrix4D.cpp). The entries live in a private grid `n[4][4]`
    in column-major order: `n[j]` is column j and entry (i, j) lives at
    `n[j][i]`. The model keeps the same layout: a matrix is its four columns. */
module Matrix4D {
  import V3 = Vector3D
  import V = Vector4D
  import M3 = Matrix3D

  datatype Mat4 = Mat4(c0: V.Vec4, c1: V.Vec4, c2: V.Vec4, c3: V.Vec4)

  /** The default constructor: the identity matrix. */
  function Identity(): Mat4 {
    Mat4(V.Vec4(1.0, 0.0, 0.0, 0.0), V.Vec4(0.0, 1.0, 0.0, 0.0),
         V.Vec4(0.0, 0.0, 1.0, 0.0), V.Vec4(0.0, 0.0, 0.0, 1.0))
  }

  /** The constructor taking the entries row by row; entry nij is stored in
      column j. */
  function FromEntries(n00: real, n01: real, n02: real, n03: real,
                       n10: real, n11: real, n12: real, n13: real,
                       n20: real, n21: real, n22: real, n23: real,
                       n30: real, n31: real, n32: real, n33: real): Mat4 {
    Mat4(V.Vec4(n00, n10, n20, n30), V.Vec4(n01, n11, n21, n31),
         V.Vec4(n02, n12, n22, n32), V.Vec4(n03, n13, n23, n33))
  }

  /** The constructor taking the four columns. */
  function FromColumns(a: V.Vec4, b: V.Vec4, c: V.Vec4, d: V.Vec4): Mat4 { Mat4(a, b, c, d) }

  /** `m[j]` and `m.col(j)`: column j. */
  function Col(m: Mat4, j: int): V.Vec4
    requires 0 <= j < 4
  {
    if j == 0 then m.c0 else if j == 1 then m.c1 else if j == 2 then m.c2 else m.c3
  }

  /** Component i of a column. */
  function Component(v: V.Vec4, i: int): real
    requires 0 <= i < 4
  {
    if i == 0 then v.x else if i == 1 then v.y else if i == 2 then v.z else v.w
  }

  /** `m(i, j)`: component i of column j. */
  function At(m: Mat4, i: int, j: int): real
    requires 0 <= i < 4 && 0 <= j < 4
  {
    Component(Col(m, j), i)
  }

  /** `m.row(i)`: a copy of row i, gathered from the four columns. */
  function Row(m: Mat4, i: int): V.Vec4
    requires 0 <= i < 4
  {
    if i == 0 then Row0(m) else if i == 1 then Row1(m) else if i == 2 then Row2(m) else Row3(m)
  }

  function Row0(m: Mat4): V.Vec4 { V.Vec4(m.c0.x, m.c1.x, m.c2.x, m.c3.x) }
  function Row1(m: Mat4): V.Vec4 { V.Vec4(m.c0.y, m.c1.y, m.c2.y, m.c3.y) }
  function Row2(m: Mat4): V.Vec4 { V.Vec4(m.c0.z, m.c1.z, m.c2.z, m.c3.z) }
  function Row3(m: Mat4): V.Vec4 { V.Vec4(m.c0.w, m.c1.w, m.c2.w, m.c3.w) }

  /** Writing `m[j] = c` through the reference that `operator[]` returns. */
  function SetCol(m: Mat4, j: int, c: V.Vec4): Mat4
    requires 0 <= j < 4
  {
    if j == 0 then m.(c0 := c) else if j == 1 then m.(c1 := c)
    else if j == 2 then m.(c2 := c) else m.(c3 := c)
  }

  /** Writing `m(i, j) = s` through the reference that `operator()` returns. */
  function SetEntry(m: Mat4, i: int, j: int, s: real): Mat4
    requires 0 <= i < 4 && 0 <= j < 4
  {
    var c := Col(m, j);
    SetCol(m, j, if i == 0 then c.(x := s) else if i == 1 then c.(y := s)
                 else if i == 2 then c.(z := s) else c.(w := s))
  }

  function Neg(m: Mat4): Mat4 { Mat4(V.Neg(m.c0), V.Neg(m.c1), V.Neg(m.c2), V.Neg(m.c3)) }

  /** `s * m`. */
  function Scale(s: real, m: Mat4): Mat4 {
    Mat4(V.Scale(s, m.c0), V.Scale(s, m.c1), V.Scale(s, m.c2), V.Scale(s, m.c3))
  }

  /** `m * s`, defined as `s * m`. */
  function ScaleRight(m: Mat4, s: real): Mat4 { Scale(s, m) }

  /** `m / s`, defined as `(1 / s) * m`. */
  function Div(m: Mat4, s: real): Mat4
    requires s != 0.0
  {
    Scale(1.0 / s, m)
  }

  function Add(l: Mat4, r: Mat4): Mat4 {
    Mat4(V.Add(l.c0, r.c0), V.Add(l.c1, r.c1), V.Add(l.c2, r.c2), V.Add(l.c3, r.c3))
  }

  /** `l - r` is `l + (-r)`. */
  function Sub(l: Mat4, r: Mat4): Mat4 { Add(l, Neg(r)) }

  /** `operator*` of two matrices as it is written: entry (0, 2) is row 2 of l
      dotted with column 0 of r; every other entry (i, j) is row i of l dotted
      with column j of r. */
  function MulAsWritten(l: Mat4, r: Mat4): Mat4 {
    FromEntries(V.Dot(Row0(l), r.c0), V.Dot(Row0(l), r.c1), V.Dot(Row2(l), r.c0), V.Dot(Row0(l), r.c3),
                V.Dot(Row1(l), r.c0), V.Dot(Row1(l), r.c1), V.Dot(Row1(l), r.c2), V.Dot(Row1(l), r.c3),
                V.Dot(Row2(l), r.c0), V.Dot(Row2(l), r.c1), V.Dot(Row2(l), r.c2), V.Dot(Row2(l), r.c3),
                V.Dot(Row3(l), r.c0), V.Dot(Row3(l), r.c1), V.Dot(Row3(l), r.c2), V.Dot(Row3(l), r.c3))
  }

  /** The matrix product with entry (0, 2) corrected to row 0 of l dotted with
      column 2 of r. */
  function Mul(l: Mat4, r: Mat4): Mat4 {
    FromEntries(V.Dot(Row0(l), r.c0), V.Dot(Row0(l), r.c1), V.Dot(Row0(l), r.c2), V.Dot(Row0(l), r.c3),
                V.Dot(Row1(l), r.c0), V.Dot(Row1(l), r.c1), V.Dot(Row1(l), r.c2), V.Dot(Row1(l), r.c3),
                V.Dot(Row2(l), r.c0), V.Dot(Row2(l), r.c1), V.Dot(Row2(l), r.c2), V.Dot(Row2(l), r.c3),
                V.Dot(Row3(l), r.c0), V.Dot(Row3(l), r.c1), V.Dot(Row3(l), r.c2), V.Dot(Row3(l), r.c3))
  }

  /** `m * v` for a column vector: a combination of the columns of m. */
  function Apply(m: Mat4, v: V.Vec4): V.Vec4 {
    V.Add(V.Add(V.Add(V.Scale(v.x, m.c0), V.Scale(v.y, m.c1)), V.Scale(v.z, m.c2)), V.Scale(v.w, m.c3))
  }

  /** `v * m` for a row vector: a combination of the rows of m. */
  function ApplyRow(v: V.Vec4, m: Mat4): V.Vec4 {
    V.Add(V.Add(V.Add(V.Scale(v.x, Row0(m)), V.Scale(v.y, Row1(m))), V.Scale(v.z, Row2(m))),
          V.Scale(v.w, Row3(m)))
  }

  /** `operator==`: the four columns compare equal. */
  predicate Equal(l: Mat4, r: Mat4) {
    V.Equal(l.c0, r.c0) && V.Equal(l.c1, r.c1) && V.Equal(l.c2, r.c2) && V.Equal(l.c3, r.c3)
  }

  predicate NotEqual(l: Mat4, r: Mat4) { !Equal(l, r) }

  /** The first three components of a column, read through a `Vector3D`
      reference to the start of that column. */
  function Head(v: V.Vec4): V3.Vec3 { V3.Vec3(v.x, v.y, v.z) }

  /** The block formulas split m into the columns a, b, c, d (their first
      three components) and the bottom row x, y, z, w, and build
      s = a x b, t = c x d, u = y a - x b and v = w c - z d. */
  function BlockS(m: Mat4): V3.Vec3 { V3.Cross(Head(m.c0), Head(m.c1)) }

  function BlockT(m: Mat4): V3.Vec3 { V3.Cross(Head(m.c2), Head(m.c3)) }

  function BlockU(m: Mat4): V3.Vec3 {
    V3.Sub(V3.ScaleRight(Head(m.c0), m.c1.w), V3.ScaleRight(Head(m.c1), m.c0.w))
  }

  function BlockV(m: Mat4): V3.Vec3 {
    V3.Sub(V3.ScaleRight(Head(m.c2), m.c3.w), V3.ScaleRight(Head(m.c3), m.c2.w))
  }

  /** The block determinant: s . v + t . u. */
  function Determinant(m: Mat4): real {
    V3.Dot(BlockS(m), BlockV(m)) + V3.Dot(BlockT(m), BlockU(m))
  }

  /** The rows of the block inverse built from m and the block vectors s, t,
      u and v: (b x v + y t, -b . t), (v x a - x t, a . t),
      (d x u + w s, -d . s) and (u x c - z s, c . s). */
  function BlockRows(m: Mat4, s: V3.Vec3, t: V3.Vec3, u: V3.Vec3, v: V3.Vec3): Mat4 {
    var a, b, c, d := Head(m.c0), Head(m.c1), Head(m.c2), Head(m.c3);
    var x, y, z, w := m.c0.w, m.c1.w, m.c2.w, m.c3.w;
    var r0 := V3.Add(V3.Cross(b, v), V3.ScaleRight(t, y));
    var r1 := V3.Sub(V3.Cross(v, a), V3.ScaleRight(t, x));
    var r2 := V3.Add(V3.Cross(d, u), V3.ScaleRight(s, w));
    var r3 := V3.Sub(V3.Cross(u, c), V3.ScaleRight(s, z));
    FromEntries(r0.x, r0.y, r0.z, -V3.Dot(b, t),
                r1.x, r1.y, r1.z, V3.Dot(a, t),
                r2.x, r2.y, r2.z, -V3.Dot(d, s),
                r3.x, r3.y, r3.z, V3.Dot(c, s))
  }

  /** The block inverse before the division by the determinant. */
  function BlockAdjugate(m: Mat4): Mat4 {
    BlockRows(m, BlockS(m), BlockT(m), BlockU(m), BlockV(m))
  }

  /** `Inverse`: the block formulas, with s, t, u and v scaled in place by one
      over the determinant before the rows are built. */
  method Inverse(m: Mat4) returns (r: Mat4)
    requires Determinant(m) != 0.0
    ensures r == InverseAdj(m)
    ensures Mul(r, m) == Identity()
  {
    var a, b, c, d := Head(m.c0), Head(m.c1), Head(m.c2), Head(m.c3);
    var x, y, z, w := m.c0.w, m.c1.w, m.c2.w, m.c3.w;
    var s := V3.Cross(a, b);
    var t := V3.Cross(c, d);
    var u := V3.Sub(V3.ScaleRight(a, y), V3.ScaleRight(b, x));
    var v := V3.Sub(V3.ScaleRight(c, w), V3.ScaleRight(d, z));
    var invDet := 1.0 / (V3.Dot(s, v) + V3.Dot(t, u));
    s := V3.ScaleRight(s, invDet);
    t := V3.ScaleRight(t, invDet);
    u := V3.ScaleRight(u, invDet);
    v := V3.ScaleRight(v, invDet);
    var r0 := V3.Add(V3.Cross(b, v), V3.ScaleRight(t, y));
    var r1 := V3.Sub(V3.Cross(v, a), V3.ScaleRight(t, x));
    var r2 := V3.Add(V3.Cross(d, u), V3.ScaleRight(s, w));
    var r3 := V3.Sub(V3.Cross(u, c), V3.ScaleRight(s, z));
    r := FromEntries(r0.x, r0.y, r0.z, -V3.Dot(b, t),
                     r1.x, r1.y, r1.z, V3.Dot(a, t),
                     r2.x, r2.y, r2.z, -V3.Dot(d, s),
                     r3.x, r3.y, r3.z, V3.Dot(c, s));
    InverseOfBlockRows(m);
  }

  /** The inverse computed as the adjugate over the determinant. */
  function InverseAdj(m: Mat4): Mat4
    requires Determinant(m) != 0.0
  {
    Div(Adjugate(m), Determinant(m))
  }

  // ---------------------------------------------------------------------
  // Minors

  /** The 3x3 minor at (i, j): m with row i and column j deleted, the remaining
      rows and columns kept in order. */
  function MinorOf(m: Mat4, i: int, j: int): M3.Mat3 {
    var r0, r1, r2 := M3.Skip(i, 0), M3.Skip(i, 1), M3.Skip(i, 2);
    var k0, k1, k2 := M3.Skip(j, 0), M3.Skip(j, 1), M3.Skip(j, 2);
    M3.FromEntries(At(m, r0, k0), At(m, r0, k1), At(m, r0, k2),
                   At(m, r1, k0), At(m, r1, k1), At(m, r1, k2),
                   At(m, r2, k0), At(m, r2, k1), At(m, r2, k2))
  }

  /** `Minor`: the nested loops fill a local 3x3 grid, reading m at a row
      counter and a column counter that are bumped past i and j when they
      reach them. */
  method Minor(m: Mat4, i: int, j: int) returns (r: M3.Mat3)
    ensures r == MinorOf(m, i, j)
  {
    var n := new real[3, 3];
    var k := 0;
    var cRow := 0;
    while k < 3
      invariant 0 <= k <= 3
      invariant cRow == M3.CounterAt(i, k)
      invariant forall k', l' :: 0 <= k' < k && 0 <= l' < 3 ==>
        n[k', l'] == At(m, M3.Skip(i, k'), M3.Skip(j, l'))
    {
      var l := 0;
      var cCol := 0;
      while l < 3
        invariant 0 <= l <= 3
        invariant l == 0 ==> cRow == M3.CounterAt(i, k)
        invariant 0 < l ==> cRow == M3.Skip(i, k)
        invariant cCol == M3.CounterAt(j, l)
        invariant forall k', l' :: 0 <= k' < k && 0 <= l' < 3 ==>
          n[k', l'] == At(m, M3.Skip(i, k'), M3.Skip(j, l'))
        invariant forall l' :: 0 <= l' < l ==> n[k, l'] == At(m, M3.Skip(i, k), M3.Skip(j, l'))
      {
        if cRow == i {
          cRow := cRow + 1;
        }
        if cCol == j {
          cCol := cCol + 1;
        }
        n[k, l] := At(m, cRow, cCol);
        l := l + 1;
        cCol := cCol + 1;
      }
      k := k + 1;
      cRow := cRow + 1;
    }
    r := M3.FromEntries(n[0, 0], n[0, 1], n[0, 2], n[1, 0], n[1, 1], n[1, 2], n[2, 0], n[2, 1], n[2, 2]);
  }

  /** The determinant of the minor with the checkerboard sign. */
  function Cofactor(m: Mat4, i: int, j: int): real {
    M3.Sign(i, j) * M3.Determinant(MinorOf(m, i, j))
  }

  function CofactorMatrix(m: Mat4): Mat4 {
    FromEntries(Cofactor(m, 0, 0), Cofactor(m, 0, 1), Cofactor(m, 0, 2), Cofactor(m, 0, 3),
                Cofactor(m, 1, 0), Cofactor(m, 1, 1), Cofactor(m, 1, 2), Cofactor(m, 1, 3),
                Cofactor(m, 2, 0), Cofactor(m, 2, 1), Cofactor(m, 2, 2), Cofactor(m, 2, 3),
                Cofactor(m, 3, 0), Cofactor(m, 3, 1), Cofactor(m, 3, 2), Cofactor(m, 3, 3))
  }

  function Adjugate(m: Mat4): Mat4 { Transpose(CofactorMatrix(m)) }

  /** The rows of m become the columns of the result. */
  function Transpose(m: Mat4): Mat4 { FromColumns(Row0(m), Row1(m), Row2(m), Row3(m)) }

  // ---------------------------------------------------------------------
  // Builders

  /** The outer product: a as a column times b as a row. */
  function Outer(a: V.Vec4, b: V.Vec4): Mat4 {
    FromEntries(a.x * b.x, a.x * b.y, a.x * b.z, a.x * b.w,
                a.y * b.x, a.y * b.y, a.y * b.z, a.y * b.w,
                a.z * b.x, a.z * b.y, a.z * b.z, a.z * b.w,
                a.w * b.x, a.w * b.y, a.w * b.z, a.w * b.w)
  }

  /** The matrix projecting onto b. */
  function MakeProjection(b: V.Vec4): Mat4
    requires V.MagSquared(b) != 0.0
  {
    Scale(1.0 / V.MagSquared(b), Outer(b, b))
  }

  /** The matrix rejecting from b: the identity minus the projection. */
  function MakeRejection(b: V.Vec4): Mat4
    requires V.MagSquared(b) != 0.0
  {
    Sub(Identity(), MakeProjection(b))
  }

  // ---------------------------------------------------------------------
  // Storage

  /** The row-by-row constructor puts nij at (i, j); the column constructor
      makes its arguments the columns. */
  lemma StorageMapping(n00: real, n01: real, n02: real, n03: real,
                       n10: real, n11: real, n12: real, n13: real,
                       n20: real, n21: real, n22: real, n23: real,
                       n30: real, n31: real, n32: real, n33: real,
                       a: V.Vec4, b: V.Vec4, c: V.Vec4, d: V.Vec4)
    ensures var m := FromEntries(n00, n01, n02, n03, n10, n11, n12, n13,
                                 n20, n21, n22, n23, n30, n31, n32, n33);
      At(m, 0, 0) == n00 && At(m, 0, 1) == n01 && At(m, 0, 2) == n02 && At(m, 0, 3) == n03 &&
      At(m, 1, 0) == n10 && At(m, 1, 1) == n11 && At(m, 1, 2) == n12 && At(m, 1, 3) == n13 &&
      At(m, 2, 0) == n20 && At(m, 2, 1) == n21 && At(m, 2, 2) == n22 && At(m, 2, 3) == n23 &&
      At(m, 3, 0) == n30 && At(m, 3, 1) == n31 && At(m, 3, 2) == n32 && At(m, 3, 3) == n33
    ensures var m := FromColumns(a, b, c, d);
      Col(m, 0) == a && Col(m, 1) == b && Col(m, 2) == c && Col(m, 3) == d
  {}

  /** Every matrix is the one its entries build, and row i of m holds the
      entries m(i, 0) to m(i, 3). */
  lemma EntryForms(m: Mat4)
    ensures FromEntries(At(m, 0, 0), At(m, 0, 1), At(m, 0, 2), At(m, 0, 3),
                        At(m, 1, 0), At(m, 1, 1), At(m, 1, 2), At(m, 1, 3),
                        At(m, 2, 0), At(m, 2, 1), At(m, 2, 2), At(m, 2, 3),
                        At(m, 3, 0), At(m, 3, 1), At(m, 3, 2), At(m, 3, 3)) == m
    ensures forall i :: 0 <= i < 4 ==> Row(m, i) == V.Vec4(At(m, i, 0), At(m, i, 1), At(m, i, 2), At(m, i, 3))
  {}

  /** A write through `m(i, j)` changes that entry and no other. */
  lemma SetEntryFrame(m: Mat4, i: int, j: int, s: real)
    requires 0 <= i < 4 && 0 <= j < 4
    ensures At(SetEntry(m, i, j, s), i, j) == s
    ensures forall k, l :: 0 <= k < 4 && 0 <= l < 4 && (k != i || l != j) ==>
      At(SetEntry(m, i, j, s), k, l) == At(m, k, l)
  {}

  /** A write through `m[j]` replaces column j and no other. */
  lemma SetColFrame(m: Mat4, j: int, c: V.Vec4)
    requires 0 <= j < 4
    ensures Col(SetCol(m, j, c), j) == c
    ensures forall l :: 0 <= l < 4 && l != j ==> Col(SetCol(m, j, c), l) == Col(m, l)
  {}

  lemma EqualIsComponentwise(l: Mat4, r: Mat4)
    ensures Equal(l, r) <==> l == r
    ensures NotEqual(l, r) <==> l != r
  {}

  /** Subtraction adds the negation, the two scalar products agree, and
      division by s is undone by scaling by s. */
  lemma ArithmeticLaws(l: Mat4, r: Mat4, s: real)
    ensures Sub(Add(l, r), r) == l
    ensures Sub(l, l) == Scale(0.0, l)
    ensures Neg(Neg(l)) == l
    ensures ScaleRight(l, s) == Scale(s, l)
    ensures s != 0.0 ==> Scale(s, Div(l, s)) == l
  {
    if s != 0.0 {
      ScaleCancel(s, l);
    }
  }

  /** Scaling by s undoes scaling by 1 / s. */
  lemma ScaleCancel(s: real, m: Mat4)
    requires s != 0.0
    ensures Scale(s, Scale(1.0 / s, m)) == m
  {
    V.ScaleCancel(s, m.c0);
    V.ScaleCancel(s, m.c1);
    V.ScaleCancel(s, m.c2);
    V.ScaleCancel(s, m.c3);
  }

  // ---------------------------------------------------------------------
  // Products

  /** Entry (i, j) of a product is row i of l dotted with column j of r. */
  lemma MulEntries(l: Mat4, r: Mat4)
    ensures forall i, j :: 0 <= i < 4 && 0 <= j < 4 ==>
      At(Mul(l, r), i, j) == V.Dot(Row(l, i), Col(r, j))
  {}

  /** The product as written differs from the corrected one in entry (0, 2)
      alone, which holds entry (2, 0) of the corrected product instead. */
  lemma MulAsWrittenEntries(l: Mat4, r: Mat4)
    ensures MulAsWritten(l, r) == SetEntry(Mul(l, r), 0, 2, At(Mul(l, r), 2, 0))
  {}

  /** Whenever entries (0, 2) and (2, 0) of the corrected product differ, the
      product as written is wrong. */
  lemma MulAsWrittenDiffers(l: Mat4, r: Mat4)
    ensures At(MulAsWritten(l, r), 0, 2) == At(Mul(l, r), 2, 0)
    ensures At(Mul(l, r), 0, 2) != At(Mul(l, r), 2, 0) ==> MulAsWritten(l, r) != Mul(l, r)
  {}

  /** A witness for the wrong entry: the identity times any matrix whose
      entries (2, 0) and (0, 2) differ (for instance the matrix whose only
      non-zero entry is a one at (2, 0)) should give that matrix back, and the
      corrected product does, but the product as written does not. */
  lemma MulAsWrittenWitness(r: Mat4)
    requires At(r, 2, 0) != At(r, 0, 2)
    ensures Mul(Identity(), r) == r
    ensures MulAsWritten(Identity(), r) != r
  {
    MulIdentityLeft(r);
    MulAsWrittenDiffers(Identity(), r);
  }

  /** The identity is neutral for products and applications. */
  lemma IdentityNeutral(m: Mat4, v: V.Vec4)
    ensures Mul(Identity(), m) == m && Mul(m, Identity()) == m
    ensures Apply(Identity(), v) == v
  {
    MulIdentityLeft(m);
    MulIdentityRight(m);
    ApplyIdentity(v);
  }

  lemma MulIdentityLeft(m: Mat4)
    ensures Mul(Identity(), m) == m
  {}

  lemma MulIdentityRight(m: Mat4)
    ensures Mul(m, Identity()) == m
  {}

  lemma ApplyIdentity(v: V.Vec4)
    ensures Apply(Identity(), v) == v
  {}

  /** Applying a matrix, a combination of its columns, dots each of its rows
      with the vector. */
  lemma ApplyIsRowDots(m: Mat4, v: V.Vec4)
    ensures Apply(m, v) == V.Vec4(V.Dot(Row0(m), v), V.Dot(Row1(m), v), V.Dot(Row2(m), v), V.Dot(Row3(m), v))
  {
    var p := Apply(m, v);
    assert p.x == V.Dot(Row0(m), v);
    assert p.y == V.Dot(Row1(m), v);
    assert p.z == V.Dot(Row2(m), v);
    assert p.w == V.Dot(Row3(m), v);
  }

  /** Column j of a product is l applied to column j of r. */
  lemma MulColumns(l: Mat4, r: Mat4)
    ensures Mul(l, r) == Mat4(Apply(l, r.c0), Apply(l, r.c1), Apply(l, r.c2), Apply(l, r.c3))
  {
    ApplyIsRowDots(l, r.c0);
    ApplyIsRowDots(l, r.c1);
    ApplyIsRowDots(l, r.c2);
    ApplyIsRowDots(l, r.c3);
  }

  /** Applying a scaled matrix scales the result. */
  lemma ApplyScaledMatrix(s: real, l: Mat4, v: V.Vec4)
    ensures Apply(Scale(s, l), v) == V.Scale(s, Apply(l, v))
  {
    var a := V.Scale(v.x, l.c0);
    var b := V.Scale(v.y, l.c1);
    var c := V.Scale(v.z, l.c2);
    var d := V.Scale(v.w, l.c3);
    V.ScaleTwice(v.x, s, l.c0);
    V.ScaleTwice(v.y, s, l.c1);
    V.ScaleTwice(v.z, s, l.c2);
    V.ScaleTwice(v.w, s, l.c3);
    V.ScaleTwice(s, v.x, l.c0);
    V.ScaleTwice(s, v.y, l.c1);
    V.ScaleTwice(s, v.z, l.c2);
    V.ScaleTwice(s, v.w, l.c3);
    V.ScaleOverAdd(s, V.Add(V.Add(a, b), c), d);
    V.ScaleOverAdd(s, V.Add(a, b), c);
    V.ScaleOverAdd(s, a, b);
  }

  /** Applying a sum of matrices adds the results; applying a negated matrix
      negates it. */
  lemma ApplyMatrixLinear(l: Mat4, r: Mat4, v: V.Vec4)
    ensures Apply(Add(l, r), v) == V.Add(Apply(l, v), Apply(r, v))
    ensures Apply(Neg(l), v) == V.Neg(Apply(l, v))
  {
    ApplySumMatrix(l, r, v);
    ApplyNegMatrix(l, v);
  }

  lemma ApplySumMatrix(l: Mat4, r: Mat4, v: V.Vec4)
    ensures Apply(Add(l, r), v) == V.Add(Apply(l, v), Apply(r, v))
  {
    V.ScaleOverAdd(v.x, l.c0, r.c0);
    V.ScaleOverAdd(v.y, l.c1, r.c1);
    V.ScaleOverAdd(v.z, l.c2, r.c2);
    V.ScaleOverAdd(v.w, l.c3, r.c3);
  }

  lemma ApplyNegMatrix(l: Mat4, v: V.Vec4)
    ensures Apply(Neg(l), v) == V.Neg(Apply(l, v))
  {
    var a := V.Scale(v.x, l.c0);
    var b := V.Scale(v.y, l.c1);
    var c := V.Scale(v.z, l.c2);
    var d := V.Scale(v.w, l.c3);
    V.NegLinear(v.x, l.c0, l.c0);
    V.NegLinear(v.y, l.c1, l.c1);
    V.NegLinear(v.z, l.c2, l.c2);
    V.NegLinear(v.w, l.c3, l.c3);
    V.NegLinear(1.0, V.Add(V.Add(a, b), c), d);
    V.NegLinear(1.0, V.Add(a, b), c);
    V.NegLinear(1.0, a, b);
  }

  /** The row-vector product is the column-vector product with the transpose. */
  lemma ApplyRowIsTransposeApply(v: V.Vec4, m: Mat4)
    ensures ApplyRow(v, m) == Apply(Transpose(m), v)
  {}

  /** Transpose swaps the indices, and transposing twice gives m back. */
  lemma TransposeInvolution(m: Mat4)
    ensures forall i, j :: 0 <= i < 4 && 0 <= j < 4 ==> At(Transpose(m), i, j) == At(m, j, i)
    ensures Transpose(Transpose(m)) == m
  {}

  // ---------------------------------------------------------------------
  // Minors

  /** With a deleted index i inside the matrix, the minor loop reads three
      indices in increasing order, never i, and every index other than i. */
  lemma SkipVisitsOthers(i: int)
    requires 0 <= i < 4
    ensures 0 <= M3.Skip(i, 0) < M3.Skip(i, 1) < M3.Skip(i, 2) < 4
    ensures M3.Skip(i, 0) != i && M3.Skip(i, 1) != i && M3.Skip(i, 2) != i
    ensures forall r :: 0 <= r < 4 && r != i ==> 0 <= Unskip(i, r) < 3 && M3.Skip(i, Unskip(i, r)) == r
  {}

  /** The inverse of Skip: the loop step at which index r is read. */
  function Unskip(i: int, r: int): int {
    if r < i then r else r - 1
  }

  /** Entry (k, l) of the minor is entry (Skip(i, k), Skip(j, l)) of m: row i
      and column j are deleted and the rest keeps its order. */
  lemma MinorDeletes(m: Mat4, i: int, j: int)
    ensures forall k, l :: 0 <= k < 3 && 0 <= l < 3 ==>
      M3.At(MinorOf(m, i, j), k, l) == At(m, M3.Skip(i, k), M3.Skip(j, l))
  {}

  // ---------------------------------------------------------------------
  // Projection and rejection

  /** Row i of an outer product is b scaled by the i-th component of a. */
  lemma OuterRow0(a: V.Vec4, b: V.Vec4)
    ensures Row0(Outer(a, b)) == V.Scale(a.x, b)
  {}

  lemma OuterRow1(a: V.Vec4, b: V.Vec4)
    ensures Row1(Outer(a, b)) == V.Scale(a.y, b)
  {}

  lemma OuterRow2(a: V.Vec4, b: V.Vec4)
    ensures Row2(Outer(a, b)) == V.Scale(a.z, b)
  {}

  lemma OuterRow3(a: V.Vec4, b: V.Vec4)
    ensures Row3(Outer(a, b)) == V.Scale(a.w, b)
  {}

  /** An outer product sends c to a scaled by b . c. */
  lemma OuterApply(a: V.Vec4, b: V.Vec4, c: V.Vec4)
    ensures Apply(Outer(a, b), c) == V.Scale(V.Dot(b, c), a)
  {
    ApplyIsRowDots(Outer(a, b), c);
    OuterRow0(a, b);
    OuterRow1(a, b);
    OuterRow2(a, b);
    OuterRow3(a, b);
    V.ScaleByDots(a, b, c, Apply(Outer(a, b), c));
  }

  /** The projection matrix sends a to its projection onto b. */
  lemma ProjectionApplies(a: V.Vec4, b: V.Vec4)
    requires V.MagSquared(b) != 0.0
    ensures Apply(MakeProjection(b), a) == V.Project(a, b)
  {
    var k := 1.0 / V.MagSquared(b);
    var o := Outer(b, b);
    var d := V.Dot(b, a);
    V.DotSymmetricBilinear(a, b, b, k);
    assert V.Dot(a, b) / V.Dot(b, b) == k * d;
    assert MakeProjection(b) == Scale(k, o);
    ApplyScaledMatrix(k, o, a);
    OuterApply(b, b, a);
    V.ScaleTwice(k, d, b);
  }

  /** The rejection matrix sends a to its rejection from b. */
  lemma RejectionApplies(a: V.Vec4, b: V.Vec4)
    requires V.MagSquared(b) != 0.0
    ensures Apply(MakeRejection(b), a) == V.Reject(a, b)
  {
    var p := MakeProjection(b);
    ProjectionApplies(a, b);
    assert MakeRejection(b) == Add(Identity(), Neg(p));
    ApplySumMatrix(Identity(), Neg(p), a);
    ApplyNegMatrix(p, a);
    ApplyIdentity(a);
  }

  /** The projection onto b keeps b, and the rejection from b sends b to zero. */
  lemma AxisProjectedAndRejected(b: V.Vec4)
    requires V.MagSquared(b) != 0.0
    ensures Apply(MakeProjection(b), b) == b
    ensures Apply(MakeRejection(b), b) == V.Zero()
  {
    ProjectionApplies(b, b);
    RejectionApplies(b, b);
    V.ScaleByOne(V.Dot(b, b) / V.Dot(b, b), b);
    V.NegSubLaws(b, b);
  }

  // ---------------------------------------------------------------------
  // The block formulas against the cofactor definitions
  //
  // Every identity below is a polynomial identity in the sixteen entries.
  // `Blocks` lemmas unfold one block-formula term one level, `Expanded`
  // lemmas write a term out as a flat sum of signed products of entries,
  // and `Poly` lemmas prove the ring identities with the entries and the
  // intermediate quantities as plain variables.

  lemma DotPairs(s: V3.Vec3, v: V3.Vec3, t: V3.Vec3, u: V3.Vec3)
    ensures V3.Dot(s, v) + V3.Dot(t, u) == s.x * v.x + s.y * v.y + s.z * v.z + (t.x * u.x + t.y * u.y + t.z * u.z)
  {}

  lemma BlockSxExpanded(m: Mat4)
    ensures BlockS(m).x == m.c0.y * m.c1.z - m.c0.z * m.c1.y
  {}

  lemma BlockSyExpanded(m: Mat4)
    ensures BlockS(m).y == m.c0.z * m.c1.x - m.c0.x * m.c1.z
  {}

  lemma BlockSzExpanded(m: Mat4)
    ensures BlockS(m).z == m.c0.x * m.c1.y - m.c0.y * m.c1.x
  {}

  lemma BlockTxExpanded(m: Mat4)
    ensures BlockT(m).x == m.c2.y * m.c3.z - m.c2.z * m.c3.y
  {}

  lemma BlockTyExpanded(m: Mat4)
    ensures BlockT(m).y == m.c2.z * m.c3.x - m.c2.x * m.c3.z
  {}

  lemma BlockTzExpanded(m: Mat4)
    ensures BlockT(m).z == m.c2.x * m.c3.y - m.c2.y * m.c3.x
  {}

  lemma BlockUxExpanded(m: Mat4)
    ensures BlockU(m).x == m.c1.w * m.c0.x + -(m.c0.w * m.c1.x)
  {}

  lemma BlockUyExpanded(m: Mat4)
    ensures BlockU(m).y == m.c1.w * m.c0.y + -(m.c0.w * m.c1.y)
  {}

  lemma BlockUzExpanded(m: Mat4)
    ensures BlockU(m).z == m.c1.w * m.c0.z + -(m.c0.w * m.c1.z)
  {}

  lemma BlockVxExpanded(m: Mat4)
    ensures BlockV(m).x == m.c3.w * m.c2.x + -(m.c2.w * m.c3.x)
  {}

  lemma BlockVyExpanded(m: Mat4)
    ensures BlockV(m).y == m.c3.w * m.c2.y + -(m.c2.w * m.c3.y)
  {}

  lemma BlockVzExpanded(m: Mat4)
    ensures BlockV(m).z == m.c3.w * m.c2.z + -(m.c2.w * m.c3.z)
  {}

  lemma DeterminantBlocks(m: Mat4)
    ensures Determinant(m) == BlockS(m).x * BlockV(m).x + BlockS(m).y * BlockV(m).y + BlockS(m).z * BlockV(m).z + (BlockT(m).x * BlockU(m).x + BlockT(m).y * BlockU(m).y + BlockT(m).z * BlockU(m).z)
  {
    DotPairs(BlockS(m), BlockV(m), BlockT(m), BlockU(m));
  }

  lemma DeterminantSVXPoly(p0: V.Vec4, p1: V.Vec4, p2: V.Vec4, p3: V.Vec4, sx: real, vx: real)
    requires sx == p0.y * p1.z - p0.z * p1.y
    requires vx == p3.w * p2.x + -(p2.w * p3.x)
    ensures sx * vx == -p0.y * p1.z * p2.w * p3.x + p0.y * p1.z * p2.x * p3.w + p0.z * p1.y * p2.w * p3.x - p0.z * p1.y * p2.x * p3.w
  {}

  lemma DeterminantSVX(m: Mat4)
    ensures BlockS(m).x * BlockV(m).x == -m.c0.y * m.c1.z * m.c2.w * m.c3.x + m.c0.y * m.c1.z * m.c2.x * m.c3.w + m.c0.z * m.c1.y * m.c2.w * m.c3.x - m.c0.z * m.c1.y * m.c2.x * m.c3.w
  {
    BlockSxExpanded(m);
    BlockVxExpanded(m);
    DeterminantSVXPoly(m.c0, m.c1, m.c2, m.c3, BlockS(m).x, BlockV(m).x);
  }

  lemma DeterminantSVYPoly(p0: V.Vec4, p1: V.Vec4, p2: V.Vec4, p3: V.Vec4, sy: real, vy: real)
    requires sy == p0.z * p1.x - p0.x * p1.z
    requires vy == p3.w * p2.y + -(p2.w * p3.y)
    ensures sy * vy == p0.x * p1.z * p2.w * p3.y - p0.x * p1.z * p2.y * p3.w - p0.z * p1.x * p2.w * p3.y + p0.z * p1.x * p2.y * p3.w
  {}

  lemma DeterminantSVY(m: Mat4)
    ensures BlockS(m).y * BlockV(m).y == m.c0.x * m.c1.z * m.c2.w * m.c3.y - m.c0.x * m.c1.z * m.c2.y * m.c3.w - m.c0.z * m.c1.x * m.c2.w * m.c3.y + m.c0.z * m.c1.x * m.c2.y * m.c3.w
  {
    BlockSyExpanded(m);
    BlockVyExpanded(m);
    DeterminantSVYPoly(m.c0, m.c1, m.c2, m.c3, BlockS(m).y, BlockV(m).y);
  }

  lemma DeterminantSVZPoly(p0: V.Vec4, p1: V.Vec4, p2: V.Vec4, p3: V.Vec4, sz: real, vz: real)
    requires sz == p0.x * p1.y - p0.y * p1.x
    requires vz == p3.w * p2.z + -(p2.w * p3.z)
    ensures sz * vz == -p0.x * p1.y * p2.w * p3.z + p0.x * p1.y * p2.z * p3.w + p0.y * p1.x * p2.w * p3.z - p0.y * p1.x * p2.z * p3.w
  {}

  lemma DeterminantSVZ(m: Mat4)
    ensures BlockS(m).z * BlockV(m).z == -m.c0.x * m.c1.y * m.c2.w * m.c3.z + m.c0.x * m.c1.y * m.c2.z * m.c3.w + m.c0.y * m.c1.x * m.c2.w * m.c3.z - m.c0.y * m.c1.x * m.c2.z * m.c3.w
  {
    BlockSzExpanded(m);
    BlockVzExpanded(m);
    DeterminantSVZPoly(m.c0, m.c1, m.c2, m.c3, BlockS(m).z, BlockV(m).z);
  }

  lemma DeterminantTUXPoly(p0: V.Vec4, p1: V.Vec4, p2: V.Vec4, p3: V.Vec4, tx: real, ux: real)
    requires tx == p2.y * p3.z - p2.z * p3.y
    requires ux == p1.w * p0.x + -(p0.w * p1.x)
    ensures tx * ux == -p0.w * p1.x * p2.y * p3.z + p0.w * p1.x * p2.z * p3.y + p0.x * p1.w * p2.y * p3.z - p0.x * p1.w * p2.z * p3.y
  {}

  lemma DeterminantTUX(m: Mat4)
    ensures BlockT(m).x * BlockU(m).x == -m.c0.w * m.c1.x * m.c2.y * m.c3.z + m.c0.w * m.c1.x * m.c2.z * m.c3.y + m.c0.x * m.c1.w * m.c2.y * m.c3.z - m.c0.x * m.c1.w * m.c2.z * m.c3.y
  {
    BlockTxExpanded(m);
    BlockUxExpanded(m);
    DeterminantTUXPoly(m.c0, m.c1, m.c2, m.c3, BlockT(m).x, BlockU(m).x);
  }

  lemma DeterminantTUYPoly(p0: V.Vec4, p1: V.Vec4, p2: V.Vec4, p3: V.Vec4, ty: real, uy: real)
    requires ty == p2.z * p3.x - p2.x * p3.z
    requires uy == p1.w * p0.y + -(p0.w * p1.y)
    ensures ty * uy == p0.w * p1.y * p2.x * p3.z - p0.w * p1.y * p2.z * p3.x - p0.y * p1.w * p2.x * p3.z + p0.y * p1.w * p2.z * p3.x
  {}

  lemma DeterminantTUY(m: Mat4)
    ensures BlockT(m).y * BlockU(m).y == m.c0.w * m.c1.y * m.c2.x * m.c3.z - m.c0.w * m.c1.y * m.c2.z * m.c3.x - m.c0.y * m.c1.w * m.c2.x * m.c3.z + m.c0.y * m.c1.w * m.c2.z * m.c3.x
  {
    BlockTyExpanded(m);
    BlockUyExpanded(m);
    DeterminantTUYPoly(m.c0, m.c1, m.c2, m.c3, BlockT(m).y, BlockU(m).y);
  }

  lemma DeterminantTUZPoly(p0: V.Vec4, p1: V.Vec4, p2: V.Vec4, p3: V.Vec4, tz: real, uz: real)
    requires tz == p2.x * p3.y - p2.y * p3.x
    requires uz == p1.w * p0.z + -(p0.w * p1.z)
    ensures tz * uz == -p0.w * p1.z * p2.x * p3.y + p0.w * p1.z * p2.y * p3.x + p0.z * p1.w * p2.x * p3.y - p0.z * p1.w * p2.y * p3.x
  {}

  lemma DeterminantTUZ(m: Mat4)
    ensures BlockT(m).z * BlockU(m).z == -m.c0.w * m.c1.z * m.c2.x * m.c3.y + m.c0.w * m.c1.z * m.c2.y * m.c3.x + m.c0.z * m.c1.w * m.c2.x * m.c3.y - m.c0.z * m.c1.w * m.c2.y * m.c3.x
  {
    BlockTzExpanded(m);
    BlockUzExpanded(m);
    DeterminantTUZPoly(m.c0, m.c1, m.c2, m.c3, BlockT(m).z, BlockU(m).z);
  }

  /** The block determinant is the Leibniz sum of the 24 signed products of
      entries, one from each row and each column. */
  lemma DeterminantExpanded(m: Mat4)
    ensures Determinant(m) == -m.c0.w * m.c1.x * m.c2.y * m.c3.z + m.c0.w * m.c1.x * m.c2.z * m.c3.y + m.c0.w * m.c1.y * m.c2.x * m.c3.z - m.c0.w * m.c1.y * m.c2.z * m.c3.x - m.c0.w * m.c1.z * m.c2.x * m.c3.y + m.c0.w * m.c1.z * m.c2.y * m.c3.x + m.c0.x * m.c1.w * m.c2.y * m.c3.z - m.c0.x * m.c1.w * m.c2.z * m.c3.y - m.c0.x * m.c1.y * m.c2.w * m.c3.z + m.c0.x * m.c1.y * m.c2.z * m.c3.w + m.c0.x * m.c1.z * m.c2.w * m.c3.y - m.c0.x * m.c1.z * m.c2.y * m.c3.w - m.c0.y * m.c1.w * m.c2.x * m.c3.z + m.c0.y * m.c1.w * m.c2.z * m.c3.x + m.c0.y * m.c1.x * m.c2.w * m.c3.z - m.c0.y * m.c1.x * m.c2.z * m.c3.w - m.c0.y * m.c1.z * m.c2.w * m.c3.x + m.c0.y * m.c1.z * m.c2.x * m.c3.w + m.c0.z * m.c1.w * m.c2.x * m.c3.y - m.c0.z * m.c1.w * m.c2.y * m.c3.x - m.c0.z * m.c1.x * m.c2.w * m.c3.y + m.c0.z * m.c1.x * m.c2.y * m.c3.w + m.c0.z * m.c1.y * m.c2.w * m.c3.x - m.c0.z * m.c1.y * m.c2.x * m.c3.w
  {
    DeterminantBlocks(m);
    DeterminantSVX(m);
    DeterminantSVY(m);
    DeterminantSVZ(m);
    DeterminantTUX(m);
    DeterminantTUY(m);
    DeterminantTUZ(m);
  }

  lemma LaplaceRow0Poly(p0: V.Vec4, p1: V.Vec4, p2: V.Vec4, p3: V.Vec4, k0: real, k1: real, k2: real, k3: real, det: real)
    requires k0 == p1.w * p2.y * p3.z - p1.w * p2.z * p3.y - p1.y * p2.w * p3.z + p1.y * p2.z * p3.w + p1.z * p2.w * p3.y - p1.z * p2.y * p3.w
    requires k1 == -p0.w * p2.y * p3.z + p0.w * p2.z * p3.y + p0.y * p2.w * p3.z - p0.y * p2.z * p3.w - p0.z * p2.w * p3.y + p0.z * p2.y * p3.w
    requires k2 == p0.w * p1.y * p3.z - p0.w * p1.z * p3.y - p0.y * p1.w * p3.z + p0.y * p1.z * p3.w + p0.z * p1.w * p3.y - p0.z * p1.y * p3.w
    requires k3 == -p0.w * p1.y * p2.z + p0.w * p1.z * p2.y + p0.y * p1.w * p2.z - p0.y * p1.z * p2.w - p0.z * p1.w * p2.y + p0.z * p1.y * p2.w
    requires det == -p0.w * p1.x * p2.y * p3.z + p0.w * p1.x * p2.z * p3.y + p0.w * p1.y * p2.x * p3.z - p0.w * p1.y * p2.z * p3.x - p0.w * p1.z * p2.x * p3.y + p0.w * p1.z * p2.y * p3.x + p0.x * p1.w * p2.y * p3.z - p0.x * p1.w * p2.z * p3.y - p0.x * p1.y * p2.w * p3.z + p0.x * p1.y * p2.z * p3.w + p0.x * p1.z * p2.w * p3.y - p0.x * p1.z * p2.y * p3.w - p0.y * p1.w * p2.x * p3.z + p0.y * p1.w * p2.z * p3.x + p0.y * p1.x * p2.w * p3.z - p0.y * p1.x * p2.z * p3.w - p0.y * p1.z * p2.w * p3.x + p0.y * p1.z * p2.x * p3.w + p0.z * p1.w * p2.x * p3.y - p0.z * p1.w * p2.y * p3.x - p0.z * p1.x * p2.w * p3.y + p0.z * p1.x * p2.y * p3.w + p0.z * p1.y * p2.w * p3.x - p0.z * p1.y * p2.x * p3.w
    ensures det == V.Dot(V.Vec4(p0.x, p1.x, p2.x, p3.x), V.Vec4(k0, k1, k2, k3))
  {}

  /** The block determinant is the cofactor expansion along row 0. */
  lemma LaplaceRow0(m: Mat4)
    ensures Determinant(m) == V.Dot(Row0(m), V.Vec4(Cofactor(m, 0, 0), Cofactor(m, 0, 1), Cofactor(m, 0, 2), Cofactor(m, 0, 3)))
  {
    Cofactor00Expanded(m);
    Cofactor01Expanded(m);
    Cofactor02Expanded(m);
    Cofactor03Expanded(m);
    DeterminantExpanded(m);
    LaplaceRow0Poly(m.c0, m.c1, m.c2, m.c3, Cofactor(m, 0, 0), Cofactor(m, 0, 1), Cofactor(m, 0, 2), Cofactor(m, 0, 3),
                    Determinant(m));
  }

  lemma BlockVectors(m: Mat4)
    ensures BlockS(m) == V3.Cross(Head(m.c0), Head(m.c1))
    ensures BlockT(m) == V3.Cross(Head(m.c2), Head(m.c3))
    ensures BlockU(m) == V3.Sub(V3.ScaleRight(Head(m.c0), m.c1.w), V3.ScaleRight(Head(m.c1), m.c0.w))
    ensures BlockV(m) == V3.Sub(V3.ScaleRight(Head(m.c2), m.c3.w), V3.ScaleRight(Head(m.c3), m.c2.w))
    ensures Determinant(m) == V3.Dot(BlockS(m), BlockV(m)) + V3.Dot(BlockT(m), BlockU(m))
  {}

  lemma Dot4Expand(p: V.Vec4, q: V.Vec4)
    ensures V.Dot(p, q) == p.x * q.x + p.y * q.y + p.z * q.z + p.w * q.w
  {}

  lemma Dot3Head(p: V3.Vec3, q: V.Vec4)
    ensures V3.Dot(p, Head(q)) == p.x * q.x + p.y * q.y + p.z * q.z
  {}

  lemma BlockAdjugateRow0(m: Mat4)
    ensures Row0(BlockAdjugate(m)).x == V3.Add(V3.Cross(Head(m.c1), BlockV(m)), V3.ScaleRight(BlockT(m), m.c1.w)).x
    ensures Row0(BlockAdjugate(m)).y == V3.Add(V3.Cross(Head(m.c1), BlockV(m)), V3.ScaleRight(BlockT(m), m.c1.w)).y
    ensures Row0(BlockAdjugate(m)).z == V3.Add(V3.Cross(Head(m.c1), BlockV(m)), V3.ScaleRight(BlockT(m), m.c1.w)).z
    ensures Row0(BlockAdjugate(m)).w == -V3.Dot(Head(m.c1), BlockT(m))
  {}

  lemma BlockAdjugateRow1(m: Mat4)
    ensures Row1(BlockAdjugate(m)).x == V3.Sub(V3.Cross(BlockV(m), Head(m.c0)), V3.ScaleRight(BlockT(m), m.c0.w)).x
    ensures Row1(BlockAdjugate(m)).y == V3.Sub(V3.Cross(BlockV(m), Head(m.c0)), V3.ScaleRight(BlockT(m), m.c0.w)).y
    ensures Row1(BlockAdjugate(m)).z == V3.Sub(V3.Cross(BlockV(m), Head(m.c0)), V3.ScaleRight(BlockT(m), m.c0.w)).z
    ensures Row1(BlockAdjugate(m)).w == V3.Dot(Head(m.c0), BlockT(m))
  {}

  lemma BlockAdjugateRow2(m: Mat4)
    ensures Row2(BlockAdjugate(m)).x == V3.Add(V3.Cross(Head(m.c3), BlockU(m)), V3.ScaleRight(BlockS(m), m.c3.w)).x
    ensures Row2(BlockAdjugate(m)).y == V3.Add(V3.Cross(Head(m.c3), BlockU(m)), V3.ScaleRight(BlockS(m), m.c3.w)).y
    ensures Row2(BlockAdjugate(m)).z == V3.Add(V3.Cross(Head(m.c3), BlockU(m)), V3.ScaleRight(BlockS(m), m.c3.w)).z
    ensures Row2(BlockAdjugate(m)).w == -V3.Dot(Head(m.c3), BlockS(m))
  {}

  lemma BlockAdjugateRow3(m: Mat4)
    ensures Row3(BlockAdjugate(m)).x == V3.Sub(V3.Cross(BlockU(m), Head(m.c2)), V3.ScaleRight(BlockS(m), m.c2.w)).x
    ensures Row3(BlockAdjugate(m)).y == V3.Sub(V3.Cross(BlockU(m), Head(m.c2)), V3.ScaleRight(BlockS(m), m.c2.w)).y
    ensures Row3(BlockAdjugate(m)).z == V3.Sub(V3.Cross(BlockU(m), Head(m.c2)), V3.ScaleRight(BlockS(m), m.c2.w)).z
    ensures Row3(BlockAdjugate(m)).w == V3.Dot(Head(m.c2), BlockS(m))
  {}

  lemma BlockProduct00Vectors(a: V3.Vec3, b: V3.Vec3, c: V3.Vec3, d: V3.Vec3, x: real, y: real, z: real, w: real)
    ensures V3.Dot(V3.Add(V3.Cross(b, V3.Sub(V3.ScaleRight(c, w), V3.ScaleRight(d, z))), V3.ScaleRight(V3.Cross(c, d), y)), a) + -V3.Dot(b, V3.Cross(c, d)) * x == V3.Dot(V3.Cross(a, b), V3.Sub(V3.ScaleRight(c, w), V3.ScaleRight(d, z))) + V3.Dot(V3.Cross(c, d), V3.Sub(V3.ScaleRight(a, y), V3.ScaleRight(b, x)))
  {
    var s, t, u, v := V3.Cross(a, b), V3.Cross(c, d), V3.Sub(V3.ScaleRight(a, y), V3.ScaleRight(b, x)), V3.Sub(V3.ScaleRight(c, w), V3.ScaleRight(d, z));
    V3.DotAddScaled(V3.Cross(b, v), t, y, a);
    V3.CrossDotCyclic(a, b, v);
    V3.DotCombination(t, a, y, b, x);
    V3.DotSymmetric(b, t);
  }

  lemma BlockProduct00Expanded(m: Mat4)
    ensures V3.Add(V3.Cross(Head(m.c1), BlockV(m)), V3.ScaleRight(BlockT(m), m.c1.w)).x * m.c0.x + V3.Add(V3.Cross(Head(m.c1), BlockV(m)), V3.ScaleRight(BlockT(m), m.c1.w)).y * m.c0.y + V3.Add(V3.Cross(Head(m.c1), BlockV(m)), V3.ScaleRight(BlockT(m), m.c1.w)).z * m.c0.z + -V3.Dot(Head(m.c1), BlockT(m)) * m.c0.w == Determinant(m)
  {
    Dot3Head(V3.Add(V3.Cross(Head(m.c1), BlockV(m)), V3.ScaleRight(BlockT(m), m.c1.w)), m.c0);
    BlockVectors(m);
    BlockProduct00Vectors(Head(m.c0), Head(m.c1), Head(m.c2), Head(m.c3), m.c0.w, m.c1.w, m.c2.w, m.c3.w);
  }

  lemma BlockProduct00(p: V.Vec4, m: Mat4)
    requires p.x == V3.Add(V3.Cross(Head(m.c1), BlockV(m)), V3.ScaleRight(BlockT(m), m.c1.w)).x
    requires p.y == V3.Add(V3.Cross(Head(m.c1), BlockV(m)), V3.ScaleRight(BlockT(m), m.c1.w)).y
    requires p.z == V3.Add(V3.Cross(Head(m.c1), BlockV(m)), V3.ScaleRight(BlockT(m), m.c1.w)).z
    requires p.w == -V3.Dot(Head(m.c1), BlockT(m))
    ensures V.Dot(p, m.c0) == Determinant(m)
  {
    Dot4Expand(p, m.c0);
    BlockProduct00Expanded(m);
  }

  lemma BlockProduct01Vectors(a: V3.Vec3, b: V3.Vec3, c: V3.Vec3, d: V3.Vec3, x: real, y: real, z: real, w: real)
    ensures V3.Dot(V3.Add(V3.Cross(b, V3.Sub(V3.ScaleRight(c, w), V3.ScaleRight(d, z))), V3.ScaleRight(V3.Cross(c, d), y)), b) + -V3.Dot(b, V3.Cross(c, d)) * y == 0.0
  {
    var s, t, u, v := V3.Cross(a, b), V3.Cross(c, d), V3.Sub(V3.ScaleRight(a, y), V3.ScaleRight(b, x)), V3.Sub(V3.ScaleRight(c, w), V3.ScaleRight(d, z));
    V3.DotAddScaled(V3.Cross(b, v), t, y, b);
    V3.CrossDotRepeated(b, v);
    V3.DotSymmetric(b, t);
  }

  lemma BlockProduct01Expanded(m: Mat4)
    ensures V3.Add(V3.Cross(Head(m.c1), BlockV(m)), V3.ScaleRight(BlockT(m), m.c1.w)).x * m.c1.x + V3.Add(V3.Cross(Head(m.c1), BlockV(m)), V3.ScaleRight(BlockT(m), m.c1.w)).y * m.c1.y + V3.Add(V3.Cross(Head(m.c1), BlockV(m)), V3.ScaleRight(BlockT(m), m.c1.w)).z * m.c1.z + -V3.Dot(Head(m.c1), BlockT(m)) * m.c1.w == 0.0
  {
    Dot3Head(V3.Add(V3.Cross(Head(m.c1), BlockV(m)), V3.ScaleRight(BlockT(m), m.c1.w)), m.c1);
    BlockVectors(m);
    BlockProduct01Vectors(Head(m.c0), Head(m.c1), Head(m.c2), Head(m.c3), m.c0.w, m.c1.w, m.c2.w, m.c3.w);
  }

  lemma BlockProduct01(p: V.Vec4, m: Mat4)
    requires p.x == V3.Add(V3.Cross(Head(m.c1), BlockV(m)), V3.ScaleRight(BlockT(m), m.c1.w)).x
    requires p.y == V3.Add(V3.Cross(Head(m.c1), BlockV(m)), V3.ScaleRight(BlockT(m), m.c1.w)).y
    requires p.z == V3.Add(V3.Cross(Head(m.c1), BlockV(m)), V3.ScaleRight(BlockT(m), m.c1.w)).z
    requires p.w == -V3.Dot(Head(m.c1), BlockT(m))
    ensures V.Dot(p, m.c1) == 0.0
  {
    Dot4Expand(p, m.c1);
    BlockProduct01Expanded(m);
  }

  lemma BlockProduct02Vectors(a: V3.Vec3, b: V3.Vec3, c: V3.Vec3, d: V3.Vec3, x: real, y: real, z: real, w: real)
    ensures V3.Dot(V3.Add(V3.Cross(b, V3.Sub(V3.ScaleRight(c, w), V3.ScaleRight(d, z))), V3.ScaleRight(V3.Cross(c, d), y)), c) + -V3.Dot(b, V3.Cross(c, d)) * z == 0.0
  {
    var s, t, u, v := V3.Cross(a, b), V3.Cross(c, d), V3.Sub(V3.ScaleRight(a, y), V3.ScaleRight(b, x)), V3.Sub(V3.ScaleRight(c, w), V3.ScaleRight(d, z));
    V3.DotAddScaled(V3.Cross(b, v), t, y, c);
    V3.CrossDotRepeated(c, d);
    V3.CrossDotCyclic(c, b, v);
    V3.DotCombination(V3.Cross(c, b), c, w, d, z);
    V3.CrossDotRepeated(c, b);
    V3.CrossDotSwap(b, c, d);
    V3.DotSymmetric(b, t);
    V3.CrossDotCyclic(b, c, d);
  }

  lemma BlockProduct02Expanded(m: Mat4)
    ensures V3.Add(V3.Cross(Head(m.c1), BlockV(m)), V3.ScaleRight(BlockT(m), m.c1.w)).x * m.c2.x + V3.Add(V3.Cross(Head(m.c1), BlockV(m)), V3.ScaleRight(BlockT(m), m.c1.w)).y * m.c2.y + V3.Add(V3.Cross(Head(m.c1), BlockV(m)), V3.ScaleRight(BlockT(m), m.c1.w)).z * m.c2.z + -V3.Dot(Head(m.c1), BlockT(m)) * m.c2.w == 0.0
  {
    Dot3Head(V3.Add(V3.Cross(Head(m.c1), BlockV(m)), V3.ScaleRight(BlockT(m), m.c1.w)), m.c2);
    BlockVectors(m);
    BlockProduct02Vectors(Head(m.c0), Head(m.c1), Head(m.c2), Head(m.c3), m.c0.w, m.c1.w, m.c2.w, m.c3.w);
  }

  lemma BlockProduct02(p: V.Vec4, m: Mat4)
    requires p.x == V3.Add(V3.Cross(Head(m.c1), BlockV(m)), V3.ScaleRight(BlockT(m), m.c1.w)).x
    requires p.y == V3.Add(V3.Cross(Head(m.c1), BlockV(m)), V3.ScaleRight(BlockT(m), m.c1.w)).y
    requires p.z == V3.Add(V3.Cross(Head(m.c1), BlockV(m)), V3.ScaleRight(BlockT(m), m.c1.w)).z
    requires p.w == -V3.Dot(Head(m.c1), BlockT(m))
    ensures V.Dot(p, m.c2) == 0.0
  {
    Dot4Expand(p, m.c2);
    BlockProduct02Expanded(m);
  }

  lemma BlockProduct03Vectors(a: V3.Vec3, b: V3.Vec3, c: V3.Vec3, d: V3.Vec3, x: real, y: real, z: real, w: real)
    ensures V3.Dot(V3.Add(V3.Cross(b, V3.Sub(V3.ScaleRight(c, w), V3.ScaleRight(d, z))), V3.ScaleRight(V3.Cross(c, d), y)), d) + -V3.Dot(b, V3.Cross(c, d)) * w == 0.0
  {
    var s, t, u, v := V3.Cross(a, b), V3.Cross(c, d), V3.Sub(V3.ScaleRight(a, y), V3.ScaleRight(b, x)), V3.Sub(V3.ScaleRight(c, w), V3.ScaleRight(d, z));
    V3.DotAddScaled(V3.Cross(b, v), t, y, d);
    V3.CrossDotRepeated(c, d);
    V3.CrossDotCyclic(d, b, v);
    V3.DotCombination(V3.Cross(d, b), c, w, d, z);
    V3.CrossDotRepeated(d, b);
    V3.CrossDotCyclic(d, b, c);
    V3.DotSymmetric(b, t);
    V3.CrossDotCyclic(b, c, d);
  }

  lemma BlockProduct03Expanded(m: Mat4)
    ensures V3.Add(V3.Cross(Head(m.c1), BlockV(m)), V3.ScaleRight(BlockT(m), m.c1.w)).x * m.c3.x + V3.Add(V3.Cross(Head(m.c1), BlockV(m)), V3.ScaleRight(BlockT(m), m.c1.w)).y * m.c3.y + V3.Add(V3.Cross(Head(m.c1), BlockV(m)), V3.ScaleRight(BlockT(m), m.c1.w)).z * m.c3.z + -V3.Dot(Head(m.c1), BlockT(m)) * m.c3.w == 0.0
  {
    Dot3Head(V3.Add(V3.Cross(Head(m.c1), BlockV(m)), V3.ScaleRight(BlockT(m), m.c1.w)), m.c3);
    BlockVectors(m);
    BlockProduct03Vectors(Head(m.c0), Head(m.c1), Head(m.c2), Head(m.c3), m.c0.w, m.c1.w, m.c2.w, m.c3.w);
  }

  lemma BlockProduct03(p: V.Vec4, m: Mat4)
    requires p.x == V3.Add(V3.Cross(Head(m.c1), BlockV(m)), V3.ScaleRight(BlockT(m), m.c1.w)).x
    requires p.y == V3.Add(V3.Cross(Head(m.c1), BlockV(m)), V3.ScaleRight(BlockT(m), m.c1.w)).y
    requires p.z == V3.Add(V3.Cross(Head(m.c1), BlockV(m)), V3.ScaleRight(BlockT(m), m.c1.w)).z
    requires p.w == -V3.Dot(Head(m.c1), BlockT(m))
    ensures V.Dot(p, m.c3) == 0.0
  {
    Dot4Expand(p, m.c3);
    BlockProduct03Expanded(m);
  }

  lemma BlockProduct10Vectors(a: V3.Vec3, b: V3.Vec3, c: V3.Vec3, d: V3.Vec3, x: real, y: real, z: real, w: real)
    ensures V3.Dot(V3.Sub(V3.Cross(V3.Sub(V3.ScaleRight(c, w), V3.ScaleRight(d, z)), a), V3.ScaleRight(V3.Cross(c, d), x)), a) + V3.Dot(a, V3.Cross(c, d)) * x == 0.0
  {
    var s, t, u, v := V3.Cross(a, b), V3.Cross(c, d), V3.Sub(V3.ScaleRight(a, y), V3.ScaleRight(b, x)), V3.Sub(V3.ScaleRight(c, w), V3.ScaleRight(d, z));
    V3.DotSubScaled(V3.Cross(v, a), t, x, a);
    V3.CrossDotRepeated(v, a);
    V3.DotSymmetric(a, t);
  }

  lemma BlockProduct10Expanded(m: Mat4)
    ensures V3.Sub(V3.Cross(BlockV(m), Head(m.c0)), V3.ScaleRight(BlockT(m), m.c0.w)).x * m.c0.x + V3.Sub(V3.Cross(BlockV(m), Head(m.c0)), V3.ScaleRight(BlockT(m), m.c0.w)).y * m.c0.y + V3.Sub(V3.Cross(BlockV(m), Head(m.c0)), V3.ScaleRight(BlockT(m), m.c0.w)).z * m.c0.z + V3.Dot(Head(m.c0), BlockT(m)) * m.c0.w == 0.0
  {
    Dot3Head(V3.Sub(V3.Cross(BlockV(m), Head(m.c0)), V3.ScaleRight(BlockT(m), m.c0.w)), m.c0);
    BlockVectors(m);
    BlockProduct10Vectors(Head(m.c0), Head(m.c1), Head(m.c2), Head(m.c3), m.c0.w, m.c1.w, m.c2.w, m.c3.w);
  }

  lemma BlockProduct10(p: V.Vec4, m: Mat4)
    requires p.x == V3.Sub(V3.Cross(BlockV(m), Head(m.c0)), V3.ScaleRight(BlockT(m), m.c0.w)).x
    requires p.y == V3.Sub(V3.Cross(BlockV(m), Head(m.c0)), V3.ScaleRight(BlockT(m), m.c0.w)).y
    requires p.z == V3.Sub(V3.Cross(BlockV(m), Head(m.c0)), V3.ScaleRight(BlockT(m), m.c0.w)).z
    requires p.w == V3.Dot(Head(m.c0), BlockT(m))
    ensures V.Dot(p, m.c0) == 0.0
  {
    Dot4Expand(p, m.c0);
    BlockProduct10Expanded(m);
  }

  lemma BlockProduct11Vectors(a: V3.Vec3, b: V3.Vec3, c: V3.Vec3, d: V3.Vec3, x: real, y: real, z: real, w: real)
    ensures V3.Dot(V3.Sub(V3.Cross(V3.Sub(V3.ScaleRight(c, w), V3.ScaleRight(d, z)), a), V3.ScaleRight(V3.Cross(c, d), x)), b) + V3.Dot(a, V3.Cross(c, d)) * y == V3.Dot(V3.Cross(a, b), V3.Sub(V3.ScaleRight(c, w), V3.ScaleRight(d, z))) + V3.Dot(V3.Cross(c, d), V3.Sub(V3.ScaleRight(a, y), V3.ScaleRight(b, x)))
  {
    var s, t, u, v := V3.Cross(a, b), V3.Cross(c, d), V3.Sub(V3.ScaleRight(a, y), V3.ScaleRight(b, x)), V3.Sub(V3.ScaleRight(c, w), V3.ScaleRight(d, z));
    V3.DotSubScaled(V3.Cross(v, a), t, x, b);
    V3.CrossDotCyclic(v, a, b);
    V3.DotCombination(t, a, y, b, x);
    V3.DotSymmetric(a, t);
  }

  lemma BlockProduct11Expanded(m: Mat4)
    ensures V3.Sub(V3.Cross(BlockV(m), Head(m.c0)), V3.ScaleRight(BlockT(m), m.c0.w)).x * m.c1.x + V3.Sub(V3.Cross(BlockV(m), Head(m.c0)), V3.ScaleRight(BlockT(m), m.c0.w)).y * m.c1.y + V3.Sub(V3.Cross(BlockV(m), Head(m.c0)), V3.ScaleRight(BlockT(m), m.c0.w)).z * m.c1.z + V3.Dot(Head(m.c0), BlockT(m)) * m.c1.w == Determinant(m)
  {
    Dot3Head(V3.Sub(V3.Cross(BlockV(m), Head(m.c0)), V3.ScaleRight(BlockT(m), m.c0.w)), m.c1);
    BlockVectors(m);
    BlockProduct11Vectors(Head(m.c0), Head(m.c1), Head(m.c2), Head(m.c3), m.c0.w, m.c1.w, m.c2.w, m.c3.w);
  }

  lemma BlockProduct11(p: V.Vec4, m: Mat4)
    requires p.x == V3.Sub(V3.Cross(BlockV(m), Head(m.c0)), V3.ScaleRight(BlockT(m), m.c0.w)).x
    requires p.y == V3.Sub(V3.Cross(BlockV(m), Head(m.c0)), V3.ScaleRight(BlockT(m), m.c0.w)).y
    requires p.z == V3.Sub(V3.Cross(BlockV(m), Head(m.c0)), V3.ScaleRight(BlockT(m), m.c0.w)).z
    requires p.w == V3.Dot(Head(m.c0), BlockT(m))
    ensures V.Dot(p, m.c1) == Determinant(m)
  {
    Dot4Expand(p, m.c1);
    BlockProduct11Expanded(m);
  }

  lemma BlockProduct12Vectors(a: V3.Vec3, b: V3.Vec3, c: V3.Vec3, d: V3.Vec3, x: real, y: real, z: real, w: real)
    ensures V3.Dot(V3.Sub(V3.Cross(V3.Sub(V3.ScaleRight(c, w), V3.ScaleRight(d, z)), a), V3.ScaleRight(V3.Cross(c, d), x)), c) + V3.Dot(a, V3.Cross(c, d)) * z == 0.0
  {
    var s, t, u, v := V3.Cross(a, b), V3.Cross(c, d), V3.Sub(V3.ScaleRight(a, y), V3.ScaleRight(b, x)), V3.Sub(V3.ScaleRight(c, w), V3.ScaleRight(d, z));
    V3.DotSubScaled(V3.Cross(v, a), t, x, c);
    V3.CrossDotRepeated(c, d);
    V3.CrossDotCyclic(v, a, c);
    V3.DotCombination(V3.Cross(a, c), c, w, d, z);
    V3.CrossDotRepeated(a, c);
    V3.DotSymmetric(a, t);
    V3.CrossDotCyclic(a, c, d);
  }

  lemma BlockProduct12Expanded(m: Mat4)
    ensures V3.Sub(V3.Cross(BlockV(m), Head(m.c0)), V3.ScaleRight(BlockT(m), m.c0.w)).x * m.c2.x + V3.Sub(V3.Cross(BlockV(m), Head(m.c0)), V3.ScaleRight(BlockT(m), m.c0.w)).y * m.c2.y + V3.Sub(V3.Cross(BlockV(m), Head(m.c0)), V3.ScaleRight(BlockT(m), m.c0.w)).z * m.c2.z + V3.Dot(Head(m.c0), BlockT(m)) * m.c2.w == 0.0
  {
    Dot3Head(V3.Sub(V3.Cross(BlockV(m), Head(m.c0)), V3.ScaleRight(BlockT(m), m.c0.w)), m.c2);
    BlockVectors(m);
    BlockProduct12Vectors(Head(m.c0), Head(m.c1), Head(m.c2), Head(m.c3), m.c0.w, m.c1.w, m.c2.w, m.c3.w);
  }

  lemma BlockProduct12(p: V.Vec4, m: Mat4)
    requires p.x == V3.Sub(V3.Cross(BlockV(m), Head(m.c0)), V3.ScaleRight(BlockT(m), m.c0.w)).x
    requires p.y == V3.Sub(V3.Cross(BlockV(m), Head(m.c0)), V3.ScaleRight(BlockT(m), m.c0.w)).y
    requires p.z == V3.Sub(V3.Cross(BlockV(m), Head(m.c0)), V3.ScaleRight(BlockT(m), m.c0.w)).z
    requires p.w == V3.Dot(Head(m.c0), BlockT(m))
    ensures V.Dot(p, m.c2) == 0.0
  {
    Dot4Expand(p, m.c2);
    BlockProduct12Expanded(m);
  }

  lemma BlockProduct13Vectors(a: V3.Vec3, b: V3.Vec3, c: V3.Vec3, d: V3.Vec3, x: real, y: real, z: real, w: real)
    ensures V3.Dot(V3.Sub(V3.Cross(V3.Sub(V3.ScaleRight(c, w), V3.ScaleRight(d, z)), a), V3.ScaleRight(V3.Cross(c, d), x)), d) + V3.Dot(a, V3.Cross(c, d)) * w == 0.0
  {
    var s, t, u, v := V3.Cross(a, b), V3.Cross(c, d), V3.Sub(V3.ScaleRight(a, y), V3.ScaleRight(b, x)), V3.Sub(V3.ScaleRight(c, w), V3.ScaleRight(d, z));
    V3.DotSubScaled(V3.Cross(v, a), t, x, d);
    V3.CrossDotRepeated(c, d);
    V3.CrossDotCyclic(v, a, d);
    V3.DotCombination(V3.Cross(a, d), c, w, d, z);
    V3.CrossDotRepeated(a, d);
    V3.CrossDotCyclic(a, d, c);
    V3.CrossDotSwap(c, d, a);
    V3.DotSymmetric(a, t);
  }

  lemma BlockProduct13Expanded(m: Mat4)
    ensures V3.Sub(V3.Cross(BlockV(m), Head(m.c0)), V3.ScaleRight(BlockT(m), m.c0.w)).x * m.c3.x + V3.Sub(V3.Cross(BlockV(m), Head(m.c0)), V3.ScaleRight(BlockT(m), m.c0.w)).y * m.c3.y + V3.Sub(V3.Cross(BlockV(m), Head(m.c0)), V3.ScaleRight(BlockT(m), m.c0.w)).z * m.c3.z + V3.Dot(Head(m.c0), BlockT(m)) * m.c3.w == 0.0
  {
    Dot3Head(V3.Sub(V3.Cross(BlockV(m), Head(m.c0)), V3.ScaleRight(BlockT(m), m.c0.w)), m.c3);
    BlockVectors(m);
    BlockProduct13Vectors(Head(m.c0), Head(m.c1), Head(m.c2), Head(m.c3), m.c0.w, m.c1.w, m.c2.w, m.c3.w);
  }

  lemma BlockProduct13(p: V.Vec4, m: Mat4)
    requires p.x == V3.Sub(V3.Cross(BlockV(m), Head(m.c0)), V3.ScaleRight(BlockT(m), m.c0.w)).x
    requires p.y == V3.Sub(V3.Cross(BlockV(m), Head(m.c0)), V3.ScaleRight(BlockT(m), m.c0.w)).y
    requires p.z == V3.Sub(V3.Cross(BlockV(m), Head(m.c0)), V3.ScaleRight(BlockT(m), m.c0.w)).z
    requires p.w == V3.Dot(Head(m.c0), BlockT(m))
    ensures V.Dot(p, m.c3) == 0.0
  {
    Dot4Expand(p, m.c3);
    BlockProduct13Expanded(m);
  }

  lemma BlockProduct20Vectors(a: V3.Vec3, b: V3.Vec3, c: V3.Vec3, d: V3.Vec3, x: real, y: real, z: real, w: real)
    ensures V3.Dot(V3.Add(V3.Cross(d, V3.Sub(V3.ScaleRight(a, y), V3.ScaleRight(b, x))), V3.ScaleRight(V3.Cross(a, b), w)), a) + -V3.Dot(d, V3.Cross(a, b)) * x == 0.0
  {
    var s, t, u, v := V3.Cross(a, b), V3.Cross(c, d), V3.Sub(V3.ScaleRight(a, y), V3.ScaleRight(b, x)), V3.Sub(V3.ScaleRight(c, w), V3.ScaleRight(d, z));
    V3.DotAddScaled(V3.Cross(d, u), s, w, a);
    V3.CrossDotRepeated(a, b);
    V3.CrossDotCyclic(a, d, u);
    V3.DotCombination(V3.Cross(a, d), a, y, b, x);
    V3.CrossDotRepeated(a, d);
    V3.CrossDotCyclic(b, a, d);
    V3.CrossDotSwap(a, b, d);
    V3.DotSymmetric(d, s);
  }

  lemma BlockProduct20Expanded(m: Mat4)
    ensures V3.Add(V3.Cross(Head(m.c3), BlockU(m)), V3.ScaleRight(BlockS(m), m.c3.w)).x * m.c0.x + V3.Add(V3.Cross(Head(m.c3), BlockU(m)), V3.ScaleRight(BlockS(m), m.c3.w)).y * m.c0.y + V3.Add(V3.Cross(Head(m.c3), BlockU(m)), V3.ScaleRight(BlockS(m), m.c3.w)).z * m.c0.z + -V3.Dot(Head(m.c3), BlockS(m)) * m.c0.w == 0.0
  {
    Dot3Head(V3.Add(V3.Cross(Head(m.c3), BlockU(m)), V3.ScaleRight(BlockS(m), m.c3.w)), m.c0);
    BlockVectors(m);
    BlockProduct20Vectors(Head(m.c0), Head(m.c1), Head(m.c2), Head(m.c3), m.c0.w, m.c1.w, m.c2.w, m.c3.w);
  }

  lemma BlockProduct20(p: V.Vec4, m: Mat4)
    requires p.x == V3.Add(V3.Cross(Head(m.c3), BlockU(m)), V3.ScaleRight(BlockS(m), m.c3.w)).x
    requires p.y == V3.Add(V3.Cross(Head(m.c3), BlockU(m)), V3.ScaleRight(BlockS(m), m.c3.w)).y
    requires p.z == V3.Add(V3.Cross(Head(m.c3), BlockU(m)), V3.ScaleRight(BlockS(m), m.c3.w)).z
    requires p.w == -V3.Dot(Head(m.c3), BlockS(m))
    ensures V.Dot(p, m.c0) == 0.0
  {
    Dot4Expand(p, m.c0);
    BlockProduct20Expanded(m);
  }

  lemma BlockProduct21Vectors(a: V3.Vec3, b: V3.Vec3, c: V3.Vec3, d: V3.Vec3, x: real, y: real, z: real, w: real)
    ensures V3.Dot(V3.Add(V3.Cross(d, V3.Sub(V3.ScaleRight(a, y), V3.ScaleRight(b, x))), V3.ScaleRight(V3.Cross(a, b), w)), b) + -V3.Dot(d, V3.Cross(a, b)) * y == 0.0
  {
    var s, t, u, v := V3.Cross(a, b), V3.Cross(c, d), V3.Sub(V3.ScaleRight(a, y), V3.ScaleRight(b, x)), V3.Sub(V3.ScaleRight(c, w), V3.ScaleRight(d, z));
    V3.DotAddScaled(V3.Cross(d, u), s, w, b);
    V3.CrossDotRepeated(a, b);
    V3.CrossDotCyclic(b, d, u);
    V3.DotCombination(V3.Cross(b, d), a, y, b, x);
    V3.CrossDotRepeated(b, d);
    V3.CrossDotCyclic(a, b, d);
    V3.DotSymmetric(d, s);
  }

  lemma BlockProduct21Expanded(m: Mat4)
    ensures V3.Add(V3.Cross(Head(m.c3), BlockU(m)), V3.ScaleRight(BlockS(m), m.c3.w)).x * m.c1.x + V3.Add(V3.Cross(Head(m.c3), BlockU(m)), V3.ScaleRight(BlockS(m), m.c3.w)).y * m.c1.y + V3.Add(V3.Cross(Head(m.c3), BlockU(m)), V3.ScaleRight(BlockS(m), m.c3.w)).z * m.c1.z + -V3.Dot(Head(m.c3), BlockS(m)) * m.c1.w == 0.0
  {
    Dot3Head(V3.Add(V3.Cross(Head(m.c3), BlockU(m)), V3.ScaleRight(BlockS(m), m.c3.w)), m.c1);
    BlockVectors(m);
    BlockProduct21Vectors(Head(m.c0), Head(m.c1), Head(m.c2), Head(m.c3), m.c0.w, m.c1.w, m.c2.w, m.c3.w);
  }

  lemma BlockProduct21(p: V.Vec4, m: Mat4)
    requires p.x == V3.Add(V3.Cross(Head(m.c3), BlockU(m)), V3.ScaleRight(BlockS(m), m.c3.w)).x
    requires p.y == V3.Add(V3.Cross(Head(m.c3), BlockU(m)), V3.ScaleRight(BlockS(m), m.c3.w)).y
    requires p.z == V3.Add(V3.Cross(Head(m.c3), BlockU(m)), V3.ScaleRight(BlockS(m), m.c3.w)).z
    requires p.w == -V3.Dot(Head(m.c3), BlockS(m))
    ensures V.Dot(p, m.c1) == 0.0
  {
    Dot4Expand(p, m.c1);
    BlockProduct21Expanded(m);
  }

  lemma BlockProduct22Vectors(a: V3.Vec3, b: V3.Vec3, c: V3.Vec3, d: V3.Vec3, x: real, y: real, z: real, w: real)
    ensures V3.Dot(V3.Add(V3.Cross(d, V3.Sub(V3.ScaleRight(a, y), V3.ScaleRight(b, x))), V3.ScaleRight(V3.Cross(a, b), w)), c) + -V3.Dot(d, V3.Cross(a, b)) * z == V3.Dot(V3.Cross(a, b), V3.Sub(V3.ScaleRight(c, w), V3.ScaleRight(d, z))) + V3.Dot(V3.Cross(c, d), V3.Sub(V3.ScaleRight(a, y), V3.ScaleRight(b, x)))
  {
    var s, t, u, v := V3.Cross(a, b), V3.Cross(c, d), V3.Sub(V3.ScaleRight(a, y), V3.ScaleRight(b, x)), V3.Sub(V3.ScaleRight(c, w), V3.ScaleRight(d, z));
    V3.DotAddScaled(V3.Cross(d, u), s, w, c);
    V3.CrossDotCyclic(c, d, u);
    V3.DotCombination(s, c, w, d, z);
    V3.DotSymmetric(d, s);
  }

  lemma BlockProduct22Expanded(m: Mat4)
    ensures V3.Add(V3.Cross(Head(m.c3), BlockU(m)), V3.ScaleRight(BlockS(m), m.c3.w)).x * m.c2.x + V3.Add(V3.Cross(Head(m.c3), BlockU(m)), V3.ScaleRight(BlockS(m), m.c3.w)).y * m.c2.y + V3.Add(V3.Cross(Head(m.c3), BlockU(m)), V3.ScaleRight(BlockS(m), m.c3.w)).z * m.c2.z + -V3.Dot(Head(m.c3), BlockS(m)) * m.c2.w == Determinant(m)
  {
    Dot3Head(V3.Add(V3.Cross(Head(m.c3), BlockU(m)), V3.ScaleRight(BlockS(m), m.c3.w)), m.c2);
    BlockVectors(m);
    BlockProduct22Vectors(Head(m.c0), Head(m.c1), Head(m.c2), Head(m.c3), m.c0.w, m.c1.w, m.c2.w, m.c3.w);
  }

  lemma BlockProduct22(p: V.Vec4, m: Mat4)
    requires p.x == V3.Add(V3.Cross(Head(m.c3), BlockU(m)), V3.ScaleRight(BlockS(m), m.c3.w)).x
    requires p.y == V3.Add(V3.Cross(Head(m.c3), BlockU(m)), V3.ScaleRight(BlockS(m), m.c3.w)).y
    requires p.z == V3.Add(V3.Cross(Head(m.c3), BlockU(m)), V3.ScaleRight(BlockS(m), m.c3.w)).z
    requires p.w == -V3.Dot(Head(m.c3), BlockS(m))
    ensures V.Dot(p, m.c2) == Determinant(m)
  {
    Dot4Expand(p, m.c2);
    BlockProduct22Expanded(m);
  }

  lemma BlockProduct23Vectors(a: V3.Vec3, b: V3.Vec3, c: V3.Vec3, d: V3.Vec3, x: real, y: real, z: real, w: real)
    ensures V3.Dot(V3.Add(V3.Cross(d, V3.Sub(V3.ScaleRight(a, y), V3.ScaleRight(b, x))), V3.ScaleRight(V3.Cross(a, b), w)), d) + -V3.Dot(d, V3.Cross(a, b)) * w == 0.0
  {
    var s, t, u, v := V3.Cross(a, b), V3.Cross(c, d), V3.Sub(V3.ScaleRight(a, y), V3.ScaleRight(b, x)), V3.Sub(V3.ScaleRight(c, w), V3.ScaleRight(d, z));
    V3.DotAddScaled(V3.Cross(d, u), s, w, d);
    V3.CrossDotRepeated(d, u);
    V3.DotSymmetric(d, s);
  }

  lemma BlockProduct23Expanded(m: Mat4)
    ensures V3.Add(V3.Cross(Head(m.c3), BlockU(m)), V3.ScaleRight(BlockS(m), m.c3.w)).x * m.c3.x + V3.Add(V3.Cross(Head(m.c3), BlockU(m)), V3.ScaleRight(BlockS(m), m.c3.w)).y * m.c3.y + V3.Add(V3.Cross(Head(m.c3), BlockU(m)), V3.ScaleRight(BlockS(m), m.c3.w)).z * m.c3.z + -V3.Dot(Head(m.c3), BlockS(m)) * m.c3.w == 0.0
  {
    Dot3Head(V3.Add(V3.Cross(Head(m.c3), BlockU(m)), V3.ScaleRight(BlockS(m), m.c3.w)), m.c3);
    BlockVectors(m);
    BlockProduct23Vectors(Head(m.c0), Head(m.c1), Head(m.c2), Head(m.c3), m.c0.w, m.c1.w, m.c2.w, m.c3.w);
  }

  lemma BlockProduct23(p: V.Vec4, m: Mat4)
    requires p.x == V3.Add(V3.Cross(Head(m.c3), BlockU(m)), V3.ScaleRight(BlockS(m), m.c3.w)).x
    requires p.y == V3.Add(V3.Cross(Head(m.c3), BlockU(m)), V3.ScaleRight(BlockS(m), m.c3.w)).y
    requires p.z == V3.Add(V3.Cross(Head(m.c3), BlockU(m)), V3.ScaleRight(BlockS(m), m.c3.w)).z
    requires p.w == -V3.Dot(Head(m.c3), BlockS(m))
    ensures V.Dot(p, m.c3) == 0.0
  {
    Dot4Expand(p, m.c3);
    BlockProduct23Expanded(m);
  }

  lemma BlockProduct30Vectors(a: V3.Vec3, b: V3.Vec3, c: V3.Vec3, d: V3.Vec3, x: real, y: real, z: real, w: real)
    ensures V3.Dot(V3.Sub(V3.Cross(V3.Sub(V3.ScaleRight(a, y), V3.ScaleRight(b, x)), c), V3.ScaleRight(V3.Cross(a, b), z)), a) + V3.Dot(c, V3.Cross(a, b)) * x == 0.0
  {
    var s, t, u, v := V3.Cross(a, b), V3.Cross(c, d), V3.Sub(V3.ScaleRight(a, y), V3.ScaleRight(b, x)), V3.Sub(V3.ScaleRight(c, w), V3.ScaleRight(d, z));
    V3.DotSubScaled(V3.Cross(u, c), s, z, a);
    V3.CrossDotRepeated(a, b);
    V3.CrossDotCyclic(u, c, a);
    V3.DotCombination(V3.Cross(c, a), a, y, b, x);
    V3.CrossDotRepeated(c, a);
    V3.CrossDotCyclic(c, a, b);
    V3.DotSymmetric(c, s);
  }

  lemma BlockProduct30Expanded(m: Mat4)
    ensures V3.Sub(V3.Cross(BlockU(m), Head(m.c2)), V3.ScaleRight(BlockS(m), m.c2.w)).x * m.c0.x + V3.Sub(V3.Cross(BlockU(m), Head(m.c2)), V3.ScaleRight(BlockS(m), m.c2.w)).y * m.c0.y + V3.Sub(V3.Cross(BlockU(m), Head(m.c2)), V3.ScaleRight(BlockS(m), m.c2.w)).z * m.c0.z + V3.Dot(Head(m.c2), BlockS(m)) * m.c0.w == 0.0
  {
    Dot3Head(V3.Sub(V3.Cross(BlockU(m), Head(m.c2)), V3.ScaleRight(BlockS(m), m.c2.w)), m.c0);
    BlockVectors(m);
    BlockProduct30Vectors(Head(m.c0), Head(m.c1), Head(m.c2), Head(m.c3), m.c0.w, m.c1.w, m.c2.w, m.c3.w);
  }

  lemma BlockProduct30(p: V.Vec4, m: Mat4)
    requires p.x == V3.Sub(V3.Cross(BlockU(m), Head(m.c2)), V3.ScaleRight(BlockS(m), m.c2.w)).x
    requires p.y == V3.Sub(V3.Cross(BlockU(m), Head(m.c2)), V3.ScaleRight(BlockS(m), m.c2.w)).y
    requires p.z == V3.Sub(V3.Cross(BlockU(m), Head(m.c2)), V3.ScaleRight(BlockS(m), m.c2.w)).z
    requires p.w == V3.Dot(Head(m.c2), BlockS(m))
    ensures V.Dot(p, m.c0) == 0.0
  {
    Dot4Expand(p, m.c0);
    BlockProduct30Expanded(m);
  }

  lemma BlockProduct31Vectors(a: V3.Vec3, b: V3.Vec3, c: V3.Vec3, d: V3.Vec3, x: real, y: real, z: real, w: real)
    ensures V3.Dot(V3.Sub(V3.Cross(V3.Sub(V3.ScaleRight(a, y), V3.ScaleRight(b, x)), c), V3.ScaleRight(V3.Cross(a, b), z)), b) + V3.Dot(c, V3.Cross(a, b)) * y == 0.0
  {
    var s, t, u, v := V3.Cross(a, b), V3.Cross(c, d), V3.Sub(V3.ScaleRight(a, y), V3.ScaleRight(b, x)), V3.Sub(V3.ScaleRight(c, w), V3.ScaleRight(d, z));
    V3.DotSubScaled(V3.Cross(u, c), s, z, b);
    V3.CrossDotRepeated(a, b);
    V3.CrossDotCyclic(u, c, b);
    V3.DotCombination(V3.Cross(c, b), a, y, b, x);
    V3.CrossDotRepeated(c, b);
    V3.CrossDotSwap(b, c, a);
    V3.CrossDotCyclic(a, b, c);
    V3.DotSymmetric(c, s);
  }

  lemma BlockProduct31Expanded(m: Mat4)
    ensures V3.Sub(V3.Cross(BlockU(m), Head(m.c2)), V3.ScaleRight(BlockS(m), m.c2.w)).x * m.c1.x + V3.Sub(V3.Cross(BlockU(m), Head(m.c2)), V3.ScaleRight(BlockS(m), m.c2.w)).y * m.c1.y + V3.Sub(V3.Cross(BlockU(m), Head(m.c2)), V3.ScaleRight(BlockS(m), m.c2.w)).z * m.c1.z + V3.Dot(Head(m.c2), BlockS(m)) * m.c1.w == 0.0
  {
    Dot3Head(V3.Sub(V3.Cross(BlockU(m), Head(m.c2)), V3.ScaleRight(BlockS(m), m.c2.w)), m.c1);
    BlockVectors(m);
    BlockProduct31Vectors(Head(m.c0), Head(m.c1), Head(m.c2), Head(m.c3), m.c0.w, m.c1.w, m.c2.w, m.c3.w);
  }

  lemma BlockProduct31(p: V.Vec4, m: Mat4)
    requires p.x == V3.Sub(V3.Cross(BlockU(m), Head(m.c2)), V3.ScaleRight(BlockS(m), m.c2.w)).x
    requires p.y == V3.Sub(V3.Cross(BlockU(m), Head(m.c2)), V3.ScaleRight(BlockS(m), m.c2.w)).y
    requires p.z == V3.Sub(V3.Cross(BlockU(m), Head(m.c2)), V3.ScaleRight(BlockS(m), m.c2.w)).z
    requires p.w == V3.Dot(Head(m.c2), BlockS(m))
    ensures V.Dot(p, m.c1) == 0.0
  {
    Dot4Expand(p, m.c1);
    BlockProduct31Expanded(m);
  }

  lemma BlockProduct32Vectors(a: V3.Vec3, b: V3.Vec3, c: V3.Vec3, d: V3.Vec3, x: real, y: real, z: real, w: real)
    ensures V3.Dot(V3.Sub(V3.Cross(V3.Sub(V3.ScaleRight(a, y), V3.ScaleRight(b, x)), c), V3.ScaleRight(V3.Cross(a, b), z)), c) + V3.Dot(c, V3.Cross(a, b)) * z == 0.0
  {
    var s, t, u, v := V3.Cross(a, b), V3.Cross(c, d), V3.Sub(V3.ScaleRight(a, y), V3.ScaleRight(b, x)), V3.Sub(V3.ScaleRight(c, w), V3.ScaleRight(d, z));
    V3.DotSubScaled(V3.Cross(u, c), s, z, c);
    V3.CrossDotRepeated(u, c);
    V3.DotSymmetric(c, s);
  }

  lemma BlockProduct32Expanded(m: Mat4)
    ensures V3.Sub(V3.Cross(BlockU(m), Head(m.c2)), V3.ScaleRight(BlockS(m), m.c2.w)).x * m.c2.x + V3.Sub(V3.Cross(BlockU(m), Head(m.c2)), V3.ScaleRight(BlockS(m), m.c2.w)).y * m.c2.y + V3.Sub(V3.Cross(BlockU(m), Head(m.c2)), V3.ScaleRight(BlockS(m), m.c2.w)).z * m.c2.z + V3.Dot(Head(m.c2), BlockS(m)) * m.c2.w == 0.0
  {
    Dot3Head(V3.Sub(V3.Cross(BlockU(m), Head(m.c2)), V3.ScaleRight(BlockS(m), m.c2.w)), m.c2);
    BlockVectors(m);
    BlockProduct32Vectors(Head(m.c0), Head(m.c1), Head(m.c2), Head(m.c3), m.c0.w, m.c1.w, m.c2.w, m.c3.w);
  }

  lemma BlockProduct32(p: V.Vec4, m: Mat4)
    requires p.x == V3.Sub(V3.Cross(BlockU(m), Head(m.c2)), V3.ScaleRight(BlockS(m), m.c2.w)).x
    requires p.y == V3.Sub(V3.Cross(BlockU(m), Head(m.c2)), V3.ScaleRight(BlockS(m), m.c2.w)).y
    requires p.z == V3.Sub(V3.Cross(BlockU(m), Head(m.c2)), V3.ScaleRight(BlockS(m), m.c2.w)).z
    requires p.w == V3.Dot(Head(m.c2), BlockS(m))
    ensures V.Dot(p, m.c2) == 0.0
  {
    Dot4Expand(p, m.c2);
    BlockProduct32Expanded(m);
  }

  lemma BlockProduct33Vectors(a: V3.Vec3, b: V3.Vec3, c: V3.Vec3, d: V3.Vec3, x: real, y: real, z: real, w: real)
    ensures V3.Dot(V3.Sub(V3.Cross(V3.Sub(V3.ScaleRight(a, y), V3.ScaleRight(b, x)), c), V3.ScaleRight(V3.Cross(a, b), z)), d) + V3.Dot(c, V3.Cross(a, b)) * w == V3.Dot(V3.Cross(a, b), V3.Sub(V3.ScaleRight(c, w), V3.ScaleRight(d, z))) + V3.Dot(V3.Cross(c, d), V3.Sub(V3.ScaleRight(a, y), V3.ScaleRight(b, x)))
  {
    var s, t, u, v := V3.Cross(a, b), V3.Cross(c, d), V3.Sub(V3.ScaleRight(a, y), V3.ScaleRight(b, x)), V3.Sub(V3.ScaleRight(c, w), V3.ScaleRight(d, z));
    V3.DotSubScaled(V3.Cross(u, c), s, z, d);
    V3.CrossDotCyclic(u, c, d);
    V3.DotCombination(s, c, w, d, z);
    V3.DotSymmetric(c, s);
  }

  lemma BlockProduct33Expanded(m: Mat4)
    ensures V3.Sub(V3.Cross(BlockU(m), Head(m.c2)), V3.ScaleRight(BlockS(m), m.c2.w)).x * m.c3.x + V3.Sub(V3.Cross(BlockU(m), Head(m.c2)), V3.ScaleRight(BlockS(m), m.c2.w)).y * m.c3.y + V3.Sub(V3.Cross(BlockU(m), Head(m.c2)), V3.ScaleRight(BlockS(m), m.c2.w)).z * m.c3.z + V3.Dot(Head(m.c2), BlockS(m)) * m.c3.w == Determinant(m)
  {
    Dot3Head(V3.Sub(V3.Cross(BlockU(m), Head(m.c2)), V3.ScaleRight(BlockS(m), m.c2.w)), m.c3);
    BlockVectors(m);
    BlockProduct33Vectors(Head(m.c0), Head(m.c1), Head(m.c2), Head(m.c3), m.c0.w, m.c1.w, m.c2.w, m.c3.w);
  }

  lemma BlockProduct33(p: V.Vec4, m: Mat4)
    requires p.x == V3.Sub(V3.Cross(BlockU(m), Head(m.c2)), V3.ScaleRight(BlockS(m), m.c2.w)).x
    requires p.y == V3.Sub(V3.Cross(BlockU(m), Head(m.c2)), V3.ScaleRight(BlockS(m), m.c2.w)).y
    requires p.z == V3.Sub(V3.Cross(BlockU(m), Head(m.c2)), V3.ScaleRight(BlockS(m), m.c2.w)).z
    requires p.w == V3.Dot(Head(m.c2), BlockS(m))
    ensures V.Dot(p, m.c3) == Determinant(m)
  {
    Dot4Expand(p, m.c3);
    BlockProduct33Expanded(m);
  }

  /** Row 0 of the product: row 0 of l dotted with each column of r. */
  lemma MulEntriesRow0(l: Mat4, r: Mat4)
    ensures Mul(l, r).c0.x == V.Dot(Row0(l), r.c0)
    ensures Mul(l, r).c1.x == V.Dot(Row0(l), r.c1)
    ensures Mul(l, r).c2.x == V.Dot(Row0(l), r.c2)
    ensures Mul(l, r).c3.x == V.Dot(Row0(l), r.c3)
  {}

  /** Row 1 of the product: row 1 of l dotted with each column of r. */
  lemma MulEntriesRow1(l: Mat4, r: Mat4)
    ensures Mul(l, r).c0.y == V.Dot(Row1(l), r.c0)
    ensures Mul(l, r).c1.y == V.Dot(Row1(l), r.c1)
    ensures Mul(l, r).c2.y == V.Dot(Row1(l), r.c2)
    ensures Mul(l, r).c3.y == V.Dot(Row1(l), r.c3)
  {}

  /** Row 2 of the product: row 2 of l dotted with each column of r. */
  lemma MulEntriesRow2(l: Mat4, r: Mat4)
    ensures Mul(l, r).c0.z == V.Dot(Row2(l), r.c0)
    ensures Mul(l, r).c1.z == V.Dot(Row2(l), r.c1)
    ensures Mul(l, r).c2.z == V.Dot(Row2(l), r.c2)
    ensures Mul(l, r).c3.z == V.Dot(Row2(l), r.c3)
  {}

  /** Row 3 of the product: row 3 of l dotted with each column of r. */
  lemma MulEntriesRow3(l: Mat4, r: Mat4)
    ensures Mul(l, r).c0.w == V.Dot(Row3(l), r.c0)
    ensures Mul(l, r).c1.w == V.Dot(Row3(l), r.c1)
    ensures Mul(l, r).c2.w == V.Dot(Row3(l), r.c2)
    ensures Mul(l, r).c3.w == V.Dot(Row3(l), r.c3)
  {}

  lemma ScaledIdentityEntries(s: real)
    ensures Scale(s, Identity()).c0.x == s
    ensures Scale(s, Identity()).c0.y == 0.0
    ensures Scale(s, Identity()).c0.z == 0.0
    ensures Scale(s, Identity()).c0.w == 0.0
    ensures Scale(s, Identity()).c1.x == 0.0
    ensures Scale(s, Identity()).c1.y == s
    ensures Scale(s, Identity()).c1.z == 0.0
    ensures Scale(s, Identity()).c1.w == 0.0
    ensures Scale(s, Identity()).c2.x == 0.0
    ensures Scale(s, Identity()).c2.y == 0.0
    ensures Scale(s, Identity()).c2.z == s
    ensures Scale(s, Identity()).c2.w == 0.0
    ensures Scale(s, Identity()).c3.x == 0.0
    ensures Scale(s, Identity()).c3.y == 0.0
    ensures Scale(s, Identity()).c3.z == 0.0
    ensures Scale(s, Identity()).c3.w == s
  {}

  /** Matrices with equal entries are equal. */
  lemma MatrixExt(l: Mat4, r: Mat4)
    requires l.c0.x == r.c0.x
    requires l.c0.y == r.c0.y
    requires l.c0.z == r.c0.z
    requires l.c0.w == r.c0.w
    requires l.c1.x == r.c1.x
    requires l.c1.y == r.c1.y
    requires l.c1.z == r.c1.z
    requires l.c1.w == r.c1.w
    requires l.c2.x == r.c2.x
    requires l.c2.y == r.c2.y
    requires l.c2.z == r.c2.z
    requires l.c2.w == r.c2.w
    requires l.c3.x == r.c3.x
    requires l.c3.y == r.c3.y
    requires l.c3.z == r.c3.z
    requires l.c3.w == r.c3.w
    ensures l == r
  {}

  lemma BlockInverseLeftRow0(m: Mat4)
    ensures Mul(BlockAdjugate(m), m).c0.x == Determinant(m)
    ensures Mul(BlockAdjugate(m), m).c1.x == 0.0
    ensures Mul(BlockAdjugate(m), m).c2.x == 0.0
    ensures Mul(BlockAdjugate(m), m).c3.x == 0.0
  {
    BlockAdjugateRow0(m);
    MulEntriesRow0(BlockAdjugate(m), m);
    BlockProduct00(Row0(BlockAdjugate(m)), m);
    BlockProduct01(Row0(BlockAdjugate(m)), m);
    BlockProduct02(Row0(BlockAdjugate(m)), m);
    BlockProduct03(Row0(BlockAdjugate(m)), m);
  }

  lemma BlockInverseLeftRow1(m: Mat4)
    ensures Mul(BlockAdjugate(m), m).c0.y == 0.0
    ensures Mul(BlockAdjugate(m), m).c1.y == Determinant(m)
    ensures Mul(BlockAdjugate(m), m).c2.y == 0.0
    ensures Mul(BlockAdjugate(m), m).c3.y == 0.0
  {
    BlockAdjugateRow1(m);
    MulEntriesRow1(BlockAdjugate(m), m);
    BlockProduct10(Row1(BlockAdjugate(m)), m);
    BlockProduct11(Row1(BlockAdjugate(m)), m);
    BlockProduct12(Row1(BlockAdjugate(m)), m);
    BlockProduct13(Row1(BlockAdjugate(m)), m);
  }

  lemma BlockInverseLeftRow2(m: Mat4)
    ensures Mul(BlockAdjugate(m), m).c0.z == 0.0
    ensures Mul(BlockAdjugate(m), m).c1.z == 0.0
    ensures Mul(BlockAdjugate(m), m).c2.z == Determinant(m)
    ensures Mul(BlockAdjugate(m), m).c3.z == 0.0
  {
    BlockAdjugateRow2(m);
    MulEntriesRow2(BlockAdjugate(m), m);
    BlockProduct20(Row2(BlockAdjugate(m)), m);
    BlockProduct21(Row2(BlockAdjugate(m)), m);
    BlockProduct22(Row2(BlockAdjugate(m)), m);
    BlockProduct23(Row2(BlockAdjugate(m)), m);
  }

  lemma BlockInverseLeftRow3(m: Mat4)
    ensures Mul(BlockAdjugate(m), m).c0.w == 0.0
    ensures Mul(BlockAdjugate(m), m).c1.w == 0.0
    ensures Mul(BlockAdjugate(m), m).c2.w == 0.0
    ensures Mul(BlockAdjugate(m), m).c3.w == Determinant(m)
  {
    BlockAdjugateRow3(m);
    MulEntriesRow3(BlockAdjugate(m), m);
    BlockProduct30(Row3(BlockAdjugate(m)), m);
    BlockProduct31(Row3(BlockAdjugate(m)), m);
    BlockProduct32(Row3(BlockAdjugate(m)), m);
    BlockProduct33(Row3(BlockAdjugate(m)), m);
  }

  /** The block adjugate times m is the determinant times the identity. */
  lemma BlockInverseLeft(m: Mat4)
    ensures Mul(BlockAdjugate(m), m) == Scale(Determinant(m), Identity())
  {
    BlockInverseLeftRow0(m);
    BlockInverseLeftRow1(m);
    BlockInverseLeftRow2(m);
    BlockInverseLeftRow3(m);
    ScaledIdentityEntries(Determinant(m));
    MatrixExt(Mul(BlockAdjugate(m), m), Scale(Determinant(m), Identity()));
  }

  lemma BlockAdjugate00Poly(p0: V.Vec4, p1: V.Vec4, p2: V.Vec4, p3: V.Vec4, tx: real, vy: real, vz: real)
    requires tx == p2.y * p3.z - p2.z * p3.y
    requires vy == p3.w * p2.y + -(p2.w * p3.y)
    requires vz == p3.w * p2.z + -(p2.w * p3.z)
    ensures p1.y * vz - p1.z * vy + p1.w * tx == p1.w * p2.y * p3.z - p1.w * p2.z * p3.y - p1.y * p2.w * p3.z + p1.y * p2.z * p3.w + p1.z * p2.w * p3.y - p1.z * p2.y * p3.w
  {}

  /** Entry (0, 0) of the block adjugate, written out in the entries of m. */
  lemma BlockAdjugate00Expanded(m: Mat4)
    ensures V3.Add(V3.Cross(Head(m.c1), BlockV(m)), V3.ScaleRight(BlockT(m), m.c1.w)).x == m.c1.w * m.c2.y * m.c3.z - m.c1.w * m.c2.z * m.c3.y - m.c1.y * m.c2.w * m.c3.z + m.c1.y * m.c2.z * m.c3.w + m.c1.z * m.c2.w * m.c3.y - m.c1.z * m.c2.y * m.c3.w
  {
    BlockTxExpanded(m);
    BlockVyExpanded(m);
    BlockVzExpanded(m);
    BlockAdjugate00Poly(m.c0, m.c1, m.c2, m.c3, BlockT(m).x, BlockV(m).y, BlockV(m).z);
  }

  lemma BlockAdjugate01Poly(p0: V.Vec4, p1: V.Vec4, p2: V.Vec4, p3: V.Vec4, ty: real, vx: real, vz: real)
    requires ty == p2.z * p3.x - p2.x * p3.z
    requires vx == p3.w * p2.x + -(p2.w * p3.x)
    requires vz == p3.w * p2.z + -(p2.w * p3.z)
    ensures p1.z * vx - p1.x * vz + p1.w * ty == -p1.w * p2.x * p3.z + p1.w * p2.z * p3.x + p1.x * p2.w * p3.z - p1.x * p2.z * p3.w - p1.z * p2.w * p3.x + p1.z * p2.x * p3.w
  {}

  /** Entry (0, 1) of the block adjugate, written out in the entries of m. */
  lemma BlockAdjugate01Expanded(m: Mat4)
    ensures V3.Add(V3.Cross(Head(m.c1), BlockV(m)), V3.ScaleRight(BlockT(m), m.c1.w)).y == -m.c1.w * m.c2.x * m.c3.z + m.c1.w * m.c2.z * m.c3.x + m.c1.x * m.c2.w * m.c3.z - m.c1.x * m.c2.z * m.c3.w - m.c1.z * m.c2.w * m.c3.x + m.c1.z * m.c2.x * m.c3.w
  {
    BlockTyExpanded(m);
    BlockVxExpanded(m);
    BlockVzExpanded(m);
    BlockAdjugate01Poly(m.c0, m.c1, m.c2, m.c3, BlockT(m).y, BlockV(m).x, BlockV(m).z);
  }

  lemma BlockAdjugate02Poly(p0: V.Vec4, p1: V.Vec4, p2: V.Vec4, p3: V.Vec4, tz: real, vx: real, vy: real)
    requires tz == p2.x * p3.y - p2.y * p3.x
    requires vx == p3.w * p2.x + -(p2.w * p3.x)
    requires vy == p3.w * p2.y + -(p2.w * p3.y)
    ensures p1.x * vy - p1.y * vx + p1.w * tz == p1.w * p2.x * p3.y - p1.w * p2.y * p3.x - p1.x * p2.w * p3.y + p1.x * p2.y * p3.w + p1.y * p2.w * p3.x - p1.y * p2.x * p3.w
  {}

  /** Entry (0, 2) of the block adjugate, written out in the entries of m. */
  lemma BlockAdjugate02Expanded(m: Mat4)
    ensures V3.Add(V3.Cross(Head(m.c1), BlockV(m)), V3.ScaleRight(BlockT(m), m.c1.w)).z == m.c1.w * m.c2.x * m.c3.y - m.c1.w * m.c2.y * m.c3.x - m.c1.x * m.c2.w * m.c3.y + m.c1.x * m.c2.y * m.c3.w + m.c1.y * m.c2.w * m.c3.x - m.c1.y * m.c2.x * m.c3.w
  {
    BlockTzExpanded(m);
    BlockVxExpanded(m);
    BlockVyExpanded(m);
    BlockAdjugate02Poly(m.c0, m.c1, m.c2, m.c3, BlockT(m).z, BlockV(m).x, BlockV(m).y);
  }

  lemma BlockAdjugate03Poly(p0: V.Vec4, p1: V.Vec4, p2: V.Vec4, p3: V.Vec4, tx: real, ty: real, tz: real)
    requires tx == p2.y * p3.z - p2.z * p3.y
    requires ty == p2.z * p3.x - p2.x * p3.z
    requires tz == p2.x * p3.y - p2.y * p3.x
    ensures -(p1.x * tx + p1.y * ty + p1.z * tz) == -p1.x * p2.y * p3.z + p1.x * p2.z * p3.y + p1.y * p2.x * p3.z - p1.y * p2.z * p3.x - p1.z * p2.x * p3.y + p1.z * p2.y * p3.x
  {}

  /** Entry (0, 3) of the block adjugate, written out in the entries of m. */
  lemma BlockAdjugate03Expanded(m: Mat4)
    ensures -V3.Dot(Head(m.c1), BlockT(m)) == -m.c1.x * m.c2.y * m.c3.z + m.c1.x * m.c2.z * m.c3.y + m.c1.y * m.c2.x * m.c3.z - m.c1.y * m.c2.z * m.c3.x - m.c1.z * m.c2.x * m.c3.y + m.c1.z * m.c2.y * m.c3.x
  {
    BlockTxExpanded(m);
    BlockTyExpanded(m);
    BlockTzExpanded(m);
    BlockAdjugate03Poly(m.c0, m.c1, m.c2, m.c3, BlockT(m).x, BlockT(m).y, BlockT(m).z);
  }

  lemma BlockAdjugate10Poly(p0: V.Vec4, p1: V.Vec4, p2: V.Vec4, p3: V.Vec4, tx: real, vy: real, vz: real)
    requires tx == p2.y * p3.z - p2.z * p3.y
    requires vy == p3.w * p2.y + -(p2.w * p3.y)
    requires vz == p3.w * p2.z + -(p2.w * p3.z)
    ensures vy * p0.z - vz * p0.y + -(p0.w * tx) == -p0.w * p2.y * p3.z + p0.w * p2.z * p3.y + p0.y * p2.w * p3.z - p0.y * p2.z * p3.w - p0.z * p2.w * p3.y + p0.z * p2.y * p3.w
  {}

  /** Entry (1, 0) of the block adjugate, written out in the entries of m. */
  lemma BlockAdjugate10Expanded(m: Mat4)
    ensures V3.Sub(V3.Cross(BlockV(m), Head(m.c0)), V3.ScaleRight(BlockT(m), m.c0.w)).x == -m.c0.w * m.c2.y * m.c3.z + m.c0.w * m.c2.z * m.c3.y + m.c0.y * m.c2.w * m.c3.z - m.c0.y * m.c2.z * m.c3.w - m.c0.z * m.c2.w * m.c3.y + m.c0.z * m.c2.y * m.c3.w
  {
    BlockTxExpanded(m);
    BlockVyExpanded(m);
    BlockVzExpanded(m);
    BlockAdjugate10Poly(m.c0, m.c1, m.c2, m.c3, BlockT(m).x, BlockV(m).y, BlockV(m).z);
  }

  lemma BlockAdjugate11Poly(p0: V.Vec4, p1: V.Vec4, p2: V.Vec4, p3: V.Vec4, ty: real, vx: real, vz: real)
    requires ty == p2.z * p3.x - p2.x * p3.z
    requires vx == p3.w * p2.x + -(p2.w * p3.x)
    requires vz == p3.w * p2.z + -(p2.w * p3.z)
    ensures vz * p0.x - vx * p0.z + -(p0.w * ty) == p0.w * p2.x * p3.z - p0.w * p2.z * p3.x - p0.x * p2.w * p3.z + p0.x * p2.z * p3.w + p0.z * p2.w * p3.x - p0.z * p2.x * p3.w
  {}

  /** Entry (1, 1) of the block adjugate, written out in the entries of m. */
  lemma BlockAdjugate11Expanded(m: Mat4)
    ensures V3.Sub(V3.Cross(BlockV(m), Head(m.c0)), V3.ScaleRight(BlockT(m), m.c0.w)).y == m.c0.w * m.c2.x * m.c3.z - m.c0.w * m.c2.z * m.c3.x - m.c0.x * m.c2.w * m.c3.z + m.c0.x * m.c2.z * m.c3.w + m.c0.z * m.c2.w * m.c3.x - m.c0.z * m.c2.x * m.c3.w
  {
    BlockTyExpanded(m);
    BlockVxExpanded(m);
    BlockVzExpanded(m);
    BlockAdjugate11Poly(m.c0, m.c1, m.c2, m.c3, BlockT(m).y, BlockV(m).x, BlockV(m).z);
  }

  lemma BlockAdjugate12Poly(p0: V.Vec4, p1: V.Vec4, p2: V.Vec4, p3: V.Vec4, tz: real, vx: real, vy: real)
    requires tz == p2.x * p3.y - p2.y * p3.x
    requires vx == p3.w * p2.x + -(p2.w * p3.x)
    requires vy == p3.w * p2.y + -(p2.w * p3.y)
    ensures vx * p0.y - vy * p0.x + -(p0.w * tz) == -p0.w * p2.x * p3.y + p0.w * p2.y * p3.x + p0.x * p2.w * p3.y - p0.x * p2.y * p3.w - p0.y * p2.w * p3.x + p0.y * p2.x * p3.w
  {}

  /** Entry (1, 2) of the block adjugate, written out in the entries of m. */
  lemma BlockAdjugate12Expanded(m: Mat4)
    ensures V3.Sub(V3.Cross(BlockV(m), Head(m.c0)), V3.ScaleRight(BlockT(m), m.c0.w)).z == -m.c0.w * m.c2.x * m.c3.y + m.c0.w * m.c2.y * m.c3.x + m.c0.x * m.c2.w * m.c3.y - m.c0.x * m.c2.y * m.c3.w - m.c0.y * m.c2.w * m.c3.x + m.c0.y * m.c2.x * m.c3.w
  {
    BlockTzExpanded(m);
    BlockVxExpanded(m);
    BlockVyExpanded(m);
    BlockAdjugate12Poly(m.c0, m.c1, m.c2, m.c3, BlockT(m).z, BlockV(m).x, BlockV(m).y);
  }

  lemma BlockAdjugate13Poly(p0: V.Vec4, p1: V.Vec4, p2: V.Vec4, p3: V.Vec4, tx: real, ty: real, tz: real)
    requires tx == p2.y * p3.z - p2.z * p3.y
    requires ty == p2.z * p3.x - p2.x * p3.z
    requires tz == p2.x * p3.y - p2.y * p3.x
    ensures p0.x * tx + p0.y * ty + p0.z * tz == p0.x * p2.y * p3.z - p0.x * p2.z * p3.y - p0.y * p2.x * p3.z + p0.y * p2.z * p3.x + p0.z * p2.x * p3.y - p0.z * p2.y * p3.x
  {}

  /** Entry (1, 3) of the block adjugate, written out in the entries of m. */
  lemma BlockAdjugate13Expanded(m: Mat4)
    ensures V3.Dot(Head(m.c0), BlockT(m)) == m.c0.x * m.c2.y * m.c3.z - m.c0.x * m.c2.z * m.c3.y - m.c0.y * m.c2.x * m.c3.z + m.c0.y * m.c2.z * m.c3.x + m.c0.z * m.c2.x * m.c3.y - m.c0.z * m.c2.y * m.c3.x
  {
    BlockTxExpanded(m);
    BlockTyExpanded(m);
    BlockTzExpanded(m);
    BlockAdjugate13Poly(m.c0, m.c1, m.c2, m.c3, BlockT(m).x, BlockT(m).y, BlockT(m).z);
  }

  lemma BlockAdjugate20Poly(p0: V.Vec4, p1: V.Vec4, p2: V.Vec4, p3: V.Vec4, sx: real, uy: real, uz: real)
    requires sx == p0.y * p1.z - p0.z * p1.y
    requires uy == p1.w * p0.y + -(p0.w * p1.y)
    requires uz == p1.w * p0.z + -(p0.w * p1.z)
    ensures p3.y * uz - p3.z * uy + p3.w * sx == p0.w * p1.y * p3.z - p0.w * p1.z * p3.y - p0.y * p1.w * p3.z + p0.y * p1.z * p3.w + p0.z * p1.w * p3.y - p0.z * p1.y * p3.w
  {}

  /** Entry (2, 0) of the block adjugate, written out in the entries of m. */
  lemma BlockAdjugate20Expanded(m: Mat4)
    ensures V3.Add(V3.Cross(Head(m.c3), BlockU(m)), V3.ScaleRight(BlockS(m), m.c3.w)).x == m.c0.w * m.c1.y * m.c3.z - m.c0.w * m.c1.z * m.c3.y - m.c0.y * m.c1.w * m.c3.z + m.c0.y * m.c1.z * m.c3.w + m.c0.z * m.c1.w * m.c3.y - m.c0.z * m.c1.y * m.c3.w
  {
    BlockSxExpanded(m);
    BlockUyExpanded(m);
    BlockUzExpanded(m);
    BlockAdjugate20Poly(m.c0, m.c1, m.c2, m.c3, BlockS(m).x, BlockU(m).y, BlockU(m).z);
  }

  lemma BlockAdjugate21Poly(p0: V.Vec4, p1: V.Vec4, p2: V.Vec4, p3: V.Vec4, sy: real, ux: real, uz: real)
    requires sy == p0.z * p1.x - p0.x * p1.z
    requires ux == p1.w * p0.x + -(p0.w * p1.x)
    requires uz == p1.w * p0.z + -(p0.w * p1.z)
    ensures p3.z * ux - p3.x * uz + p3.w * sy == -p0.w * p1.x * p3.z + p0.w * p1.z * p3.x + p0.x * p1.w * p3.z - p0.x * p1.z * p3.w - p0.z * p1.w * p3.x + p0.z * p1.x * p3.w
  {}

  /** Entry (2, 1) of the block adjugate, written out in the entries of m. */
  lemma BlockAdjugate21Expanded(m: Mat4)
    ensures V3.Add(V3.Cross(Head(m.c3), BlockU(m)), V3.ScaleRight(BlockS(m), m.c3.w)).y == -m.c0.w * m.c1.x * m.c3.z + m.c0.w * m.c1.z * m.c3.x + m.c0.x * m.c1.w * m.c3.z - m.c0.x * m.c1.z * m.c3.w - m.c0.z * m.c1.w * m.c3.x + m.c0.z * m.c1.x * m.c3.w
  {
    BlockSyExpanded(m);
    BlockUxExpanded(m);
    BlockUzExpanded(m);
    BlockAdjugate21Poly(m.c0, m.c1, m.c2, m.c3, BlockS(m).y, BlockU(m).x, BlockU(m).z);
  }

  lemma BlockAdjugate22Poly(p0: V.Vec4, p1: V.Vec4, p2: V.Vec4, p3: V.Vec4, sz: real, ux: real, uy: real)
    requires sz == p0.x * p1.y - p0.y * p1.x
    requires ux == p1.w * p0.x + -(p0.w * p1.x)
    requires uy == p1.w * p0.y + -(p0.w * p1.y)
    ensures p3.x * uy - p3.y * ux + p3.w * sz == p0.w * p1.x * p3.y - p0.w * p1.y * p3.x - p0.x * p1.w * p3.y + p0.x * p1.y * p3.w + p0.y * p1.w * p3.x - p0.y * p1.x * p3.w
  {}

  /** Entry (2, 2) of the block adjugate, written out in the entries of m. */
  lemma BlockAdjugate22Expanded(m: Mat4)
    ensures V3.Add(V3.Cross(Head(m.c3), BlockU(m)), V3.ScaleRight(BlockS(m), m.c3.w)).z == m.c0.w * m.c1.x * m.c3.y - m.c0.w * m.c1.y * m.c3.x - m.c0.x * m.c1.w * m.c3.y + m.c0.x * m.c1.y * m.c3.w + m.c0.y * m.c1.w * m.c3.x - m.c0.y * m.c1.x * m.c3.w
  {
    BlockSzExpanded(m);
    BlockUxExpanded(m);
    BlockUyExpanded(m);
    BlockAdjugate22Poly(m.c0, m.c1, m.c2, m.c3, BlockS(m).z, BlockU(m).x, BlockU(m).y);
  }

  lemma BlockAdjugate23Poly(p0: V.Vec4, p1: V.Vec4, p2: V.Vec4, p3: V.Vec4, sx: real, sy: real, sz: real)
    requires sx == p0.y * p1.z - p0.z * p1.y
    requires sy == p0.z * p1.x - p0.x * p1.z
    requires sz == p0.x * p1.y - p0.y * p1.x
    ensures -(p3.x * sx + p3.y * sy + p3.z * sz) == -p0.x * p1.y * p3.z + p0.x * p1.z * p3.y + p0.y * p1.x * p3.z - p0.y * p1.z * p3.x - p0.z * p1.x * p3.y + p0.z * p1.y * p3.x
  {}

  /** Entry (2, 3) of the block adjugate, written out in the entries of m. */
  lemma BlockAdjugate23Expanded(m: Mat4)
    ensures -V3.Dot(Head(m.c3), BlockS(m)) == -m.c0.x * m.c1.y * m.c3.z + m.c0.x * m.c1.z * m.c3.y + m.c0.y * m.c1.x * m.c3.z - m.c0.y * m.c1.z * m.c3.x - m.c0.z * m.c1.x * m.c3.y + m.c0.z * m.c1.y * m.c3.x
  {
    BlockSxExpanded(m);
    BlockSyExpanded(m);
    BlockSzExpanded(m);
    BlockAdjugate23Poly(m.c0, m.c1, m.c2, m.c3, BlockS(m).x, BlockS(m).y, BlockS(m).z);
  }

  lemma BlockAdjugate30Poly(p0: V.Vec4, p1: V.Vec4, p2: V.Vec4, p3: V.Vec4, sx: real, uy: real, uz: real)
    requires sx == p0.y * p1.z - p0.z * p1.y
    requires uy == p1.w * p0.y + -(p0.w * p1.y)
    requires uz == p1.w * p0.z + -(p0.w * p1.z)
    ensures uy * p2.z - uz * p2.y + -(p2.w * sx) == -p0.w * p1.y * p2.z + p0.w * p1.z * p2.y + p0.y * p1.w * p2.z - p0.y * p1.z * p2.w - p0.z * p1.w * p2.y + p0.z * p1.y * p2.w
  {}

  /** Entry (3, 0) of the block adjugate, written out in the entries of m. */
  lemma BlockAdjugate30Expanded(m: Mat4)
    ensures V3.Sub(V3.Cross(BlockU(m), Head(m.c2)), V3.ScaleRight(BlockS(m), m.c2.w)).x == -m.c0.w * m.c1.y * m.c2.z + m.c0.w * m.c1.z * m.c2.y + m.c0.y * m.c1.w * m.c2.z - m.c0.y * m.c1.z * m.c2.w - m.c0.z * m.c1.w * m.c2.y + m.c0.z * m.c1.y * m.c2.w
  {
    BlockSxExpanded(m);
    BlockUyExpanded(m);
    BlockUzExpanded(m);
    BlockAdjugate30Poly(m.c0, m.c1, m.c2, m.c3, BlockS(m).x, BlockU(m).y, BlockU(m).z);
  }

  lemma BlockAdjugate31Poly(p0: V.Vec4, p1: V.Vec4, p2: V.Vec4, p3: V.Vec4, sy: real, ux: real, uz: real)
    requires sy == p0.z * p1.x - p0.x * p1.z
    requires ux == p1.w * p0.x + -(p0.w * p1.x)
    requires uz == p1.w * p0.z + -(p0.w * p1.z)
    ensures uz * p2.x - ux * p2.z + -(p2.w * sy) == p0.w * p1.x * p2.z - p0.w * p1.z * p2.x - p0.x * p1.w * p2.z + p0.x * p1.z * p2.w + p0.z * p1.w * p2.x - p0.z * p1.x * p2.w
  {}

  /** Entry (3, 1) of the block adjugate, written out in the entries of m. */
  lemma BlockAdjugate31Expanded(m: Mat4)
    ensures V3.Sub(V3.Cross(BlockU(m), Head(m.c2)), V3.ScaleRight(BlockS(m), m.c2.w)).y == m.c0.w * m.c1.x * m.c2.z - m.c0.w * m.c1.z * m.c2.x - m.c0.x * m.c1.w * m.c2.z + m.c0.x * m.c1.z * m.c2.w + m.c0.z * m.c1.w * m.c2.x - m.c0.z * m.c1.x * m.c2.w
  {
    BlockSyExpanded(m);
    BlockUxExpanded(m);
    BlockUzExpanded(m);
    BlockAdjugate31Poly(m.c0, m.c1, m.c2, m.c3, BlockS(m).y, BlockU(m).x, BlockU(m).z);
  }

  lemma BlockAdjugate32Poly(p0: V.Vec4, p1: V.Vec4, p2: V.Vec4, p3: V.Vec4, sz: real, ux: real, uy: real)
    requires sz == p0.x * p1.y - p0.y * p1.x
    requires ux == p1.w * p0.x + -(p0.w * p1.x)
    requires uy == p1.w * p0.y + -(p0.w * p1.y)
    ensures ux * p2.y - uy * p2.x + -(p2.w * sz) == -p0.w * p1.x * p2.y + p0.w * p1.y * p2.x + p0.x * p1.w * p2.y - p0.x * p1.y * p2.w - p0.y * p1.w * p2.x + p0.y * p1.x * p2.w
  {}

  /** Entry (3, 2) of the block adjugate, written out in the entries of m. */
  lemma BlockAdjugate32Expanded(m: Mat4)
    ensures V3.Sub(V3.Cross(BlockU(m), Head(m.c2)), V3.ScaleRight(BlockS(m), m.c2.w)).z == -m.c0.w * m.c1.x * m.c2.y + m.c0.w * m.c1.y * m.c2.x + m.c0.x * m.c1.w * m.c2.y - m.c0.x * m.c1.y * m.c2.w - m.c0.y * m.c1.w * m.c2.x + m.c0.y * m.c1.x * m.c2.w
  {
    BlockSzExpanded(m);
    BlockUxExpanded(m);
    BlockUyExpanded(m);
    BlockAdjugate32Poly(m.c0, m.c1, m.c2, m.c3, BlockS(m).z, BlockU(m).x, BlockU(m).y);
  }

  lemma BlockAdjugate33Poly(p0: V.Vec4, p1: V.Vec4, p2: V.Vec4, p3: V.Vec4, sx: real, sy: real, sz: real)
    requires sx == p0.y * p1.z - p0.z * p1.y
    requires sy == p0.z * p1.x - p0.x * p1.z
    requires sz == p0.x * p1.y - p0.y * p1.x
    ensures p2.x * sx + p2.y * sy + p2.z * sz == p0.x * p1.y * p2.z - p0.x * p1.z * p2.y - p0.y * p1.x * p2.z + p0.y * p1.z * p2.x + p0.z * p1.x * p2.y - p0.z * p1.y * p2.x
  {}

  /** Entry (3, 3) of the block adjugate, written out in the entries of m. */
  lemma BlockAdjugate33Expanded(m: Mat4)
    ensures V3.Dot(Head(m.c2), BlockS(m)) == m.c0.x * m.c1.y * m.c2.z - m.c0.x * m.c1.z * m.c2.y - m.c0.y * m.c1.x * m.c2.z + m.c0.y * m.c1.z * m.c2.x + m.c0.z * m.c1.x * m.c2.y - m.c0.z * m.c1.y * m.c2.x
  {
    BlockSxExpanded(m);
    BlockSyExpanded(m);
    BlockSzExpanded(m);
    BlockAdjugate33Poly(m.c0, m.c1, m.c2, m.c3, BlockS(m).x, BlockS(m).y, BlockS(m).z);
  }

  /** The minors deleting row 0 keep the other rows, in order. */
  lemma MinorsRow0(m: Mat4)
    ensures MinorOf(m, 0, 0) == M3.FromEntries(m.c1.y, m.c2.y, m.c3.y, m.c1.z, m.c2.z, m.c3.z, m.c1.w, m.c2.w, m.c3.w)
    ensures MinorOf(m, 0, 1) == M3.FromEntries(m.c0.y, m.c2.y, m.c3.y, m.c0.z, m.c2.z, m.c3.z, m.c0.w, m.c2.w, m.c3.w)
    ensures MinorOf(m, 0, 2) == M3.FromEntries(m.c0.y, m.c1.y, m.c3.y, m.c0.z, m.c1.z, m.c3.z, m.c0.w, m.c1.w, m.c3.w)
    ensures MinorOf(m, 0, 3) == M3.FromEntries(m.c0.y, m.c1.y, m.c2.y, m.c0.z, m.c1.z, m.c2.z, m.c0.w, m.c1.w, m.c2.w)
  {}

  /** The minors deleting row 1 keep the other rows, in order. */
  lemma MinorsRow1(m: Mat4)
    ensures MinorOf(m, 1, 0) == M3.FromEntries(m.c1.x, m.c2.x, m.c3.x, m.c1.z, m.c2.z, m.c3.z, m.c1.w, m.c2.w, m.c3.w)
    ensures MinorOf(m, 1, 1) == M3.FromEntries(m.c0.x, m.c2.x, m.c3.x, m.c0.z, m.c2.z, m.c3.z, m.c0.w, m.c2.w, m.c3.w)
    ensures MinorOf(m, 1, 2) == M3.FromEntries(m.c0.x, m.c1.x, m.c3.x, m.c0.z, m.c1.z, m.c3.z, m.c0.w, m.c1.w, m.c3.w)
    ensures MinorOf(m, 1, 3) == M3.FromEntries(m.c0.x, m.c1.x, m.c2.x, m.c0.z, m.c1.z, m.c2.z, m.c0.w, m.c1.w, m.c2.w)
  {}

  /** The minors deleting row 2 keep the other rows, in order. */
  lemma MinorsRow2(m: Mat4)
    ensures MinorOf(m, 2, 0) == M3.FromEntries(m.c1.x, m.c2.x, m.c3.x, m.c1.y, m.c2.y, m.c3.y, m.c1.w, m.c2.w, m.c3.w)
    ensures MinorOf(m, 2, 1) == M3.FromEntries(m.c0.x, m.c2.x, m.c3.x, m.c0.y, m.c2.y, m.c3.y, m.c0.w, m.c2.w, m.c3.w)
    ensures MinorOf(m, 2, 2) == M3.FromEntries(m.c0.x, m.c1.x, m.c3.x, m.c0.y, m.c1.y, m.c3.y, m.c0.w, m.c1.w, m.c3.w)
    ensures MinorOf(m, 2, 3) == M3.FromEntries(m.c0.x, m.c1.x, m.c2.x, m.c0.y, m.c1.y, m.c2.y, m.c0.w, m.c1.w, m.c2.w)
  {}

  /** The minors deleting row 3 keep the other rows, in order. */
  lemma MinorsRow3(m: Mat4)
    ensures MinorOf(m, 3, 0) == M3.FromEntries(m.c1.x, m.c2.x, m.c3.x, m.c1.y, m.c2.y, m.c3.y, m.c1.z, m.c2.z, m.c3.z)
    ensures MinorOf(m, 3, 1) == M3.FromEntries(m.c0.x, m.c2.x, m.c3.x, m.c0.y, m.c2.y, m.c3.y, m.c0.z, m.c2.z, m.c3.z)
    ensures MinorOf(m, 3, 2) == M3.FromEntries(m.c0.x, m.c1.x, m.c3.x, m.c0.y, m.c1.y, m.c3.y, m.c0.z, m.c1.z, m.c3.z)
    ensures MinorOf(m, 3, 3) == M3.FromEntries(m.c0.x, m.c1.x, m.c2.x, m.c0.y, m.c1.y, m.c2.y, m.c0.z, m.c1.z, m.c2.z)
  {}

  lemma Cofactor00Expanded(m: Mat4)
    ensures Cofactor(m, 0, 0) == m.c1.w * m.c2.y * m.c3.z - m.c1.w * m.c2.z * m.c3.y - m.c1.y * m.c2.w * m.c3.z + m.c1.y * m.c2.z * m.c3.w + m.c1.z * m.c2.w * m.c3.y - m.c1.z * m.c2.y * m.c3.w
  {
    MinorsRow0(m);
  }

  lemma Cofactor01Expanded(m: Mat4)
    ensures Cofactor(m, 0, 1) == -m.c0.w * m.c2.y * m.c3.z + m.c0.w * m.c2.z * m.c3.y + m.c0.y * m.c2.w * m.c3.z - m.c0.y * m.c2.z * m.c3.w - m.c0.z * m.c2.w * m.c3.y + m.c0.z * m.c2.y * m.c3.w
  {
    MinorsRow0(m);
  }

  lemma Cofactor02Expanded(m: Mat4)
    ensures Cofactor(m, 0, 2) == m.c0.w * m.c1.y * m.c3.z - m.c0.w * m.c1.z * m.c3.y - m.c0.y * m.c1.w * m.c3.z + m.c0.y * m.c1.z * m.c3.w + m.c0.z * m.c1.w * m.c3.y - m.c0.z * m.c1.y * m.c3.w
  {
    MinorsRow0(m);
  }

  lemma Cofactor03Expanded(m: Mat4)
    ensures Cofactor(m, 0, 3) == -m.c0.w * m.c1.y * m.c2.z + m.c0.w * m.c1.z * m.c2.y + m.c0.y * m.c1.w * m.c2.z - m.c0.y * m.c1.z * m.c2.w - m.c0.z * m.c1.w * m.c2.y + m.c0.z * m.c1.y * m.c2.w
  {
    MinorsRow0(m);
  }

  lemma Cofactor10Expanded(m: Mat4)
    ensures Cofactor(m, 1, 0) == -m.c1.w * m.c2.x * m.c3.z + m.c1.w * m.c2.z * m.c3.x + m.c1.x * m.c2.w * m.c3.z - m.c1.x * m.c2.z * m.c3.w - m.c1.z * m.c2.w * m.c3.x + m.c1.z * m.c2.x * m.c3.w
  {
    MinorsRow1(m);
  }

  lemma Cofactor11Expanded(m: Mat4)
    ensures Cofactor(m, 1, 1) == m.c0.w * m.c2.x * m.c3.z - m.c0.w * m.c2.z * m.c3.x - m.c0.x * m.c2.w * m.c3.z + m.c0.x * m.c2.z * m.c3.w + m.c0.z * m.c2.w * m.c3.x - m.c0.z * m.c2.x * m.c3.w
  {
    MinorsRow1(m);
  }

  lemma Cofactor12Expanded(m: Mat4)
    ensures Cofactor(m, 1, 2) == -m.c0.w * m.c1.x * m.c3.z + m.c0.w * m.c1.z * m.c3.x + m.c0.x * m.c1.w * m.c3.z - m.c0.x * m.c1.z * m.c3.w - m.c0.z * m.c1.w * m.c3.x + m.c0.z * m.c1.x * m.c3.w
  {
    MinorsRow1(m);
  }

  lemma Cofactor13Expanded(m: Mat4)
    ensures Cofactor(m, 1, 3) == m.c0.w * m.c1.x * m.c2.z - m.c0.w * m.c1.z * m.c2.x - m.c0.x * m.c1.w * m.c2.z + m.c0.x * m.c1.z * m.c2.w + m.c0.z * m.c1.w * m.c2.x - m.c0.z * m.c1.x * m.c2.w
  {
    MinorsRow1(m);
  }

  lemma Cofactor20Expanded(m: Mat4)
    ensures Cofactor(m, 2, 0) == m.c1.w * m.c2.x * m.c3.y - m.c1.w * m.c2.y * m.c3.x - m.c1.x * m.c2.w * m.c3.y + m.c1.x * m.c2.y * m.c3.w + m.c1.y * m.c2.w * m.c3.x - m.c1.y * m.c2.x * m.c3.w
  {
    MinorsRow2(m);
  }

  lemma Cofactor21Expanded(m: Mat4)
    ensures Cofactor(m, 2, 1) == -m.c0.w * m.c2.x * m.c3.y + m.c0.w * m.c2.y * m.c3.x + m.c0.x * m.c2.w * m.c3.y - m.c0.x * m.c2.y * m.c3.w - m.c0.y * m.c2.w * m.c3.x + m.c0.y * m.c2.x * m.c3.w
  {
    MinorsRow2(m);
  }

  lemma Cofactor22Expanded(m: Mat4)
    ensures Cofactor(m, 2, 2) == m.c0.w * m.c1.x * m.c3.y - m.c0.w * m.c1.y * m.c3.x - m.c0.x * m.c1.w * m.c3.y + m.c0.x * m.c1.y * m.c3.w + m.c0.y * m.c1.w * m.c3.x - m.c0.y * m.c1.x * m.c3.w
  {
    MinorsRow2(m);
  }

  lemma Cofactor23Expanded(m: Mat4)
    ensures Cofactor(m, 2, 3) == -m.c0.w * m.c1.x * m.c2.y + m.c0.w * m.c1.y * m.c2.x + m.c0.x * m.c1.w * m.c2.y - m.c0.x * m.c1.y * m.c2.w - m.c0.y * m.c1.w * m.c2.x + m.c0.y * m.c1.x * m.c2.w
  {
    MinorsRow2(m);
  }

  lemma Cofactor30Expanded(m: Mat4)
    ensures Cofactor(m, 3, 0) == -m.c1.x * m.c2.y * m.c3.z + m.c1.x * m.c2.z * m.c3.y + m.c1.y * m.c2.x * m.c3.z - m.c1.y * m.c2.z * m.c3.x - m.c1.z * m.c2.x * m.c3.y + m.c1.z * m.c2.y * m.c3.x
  {
    MinorsRow3(m);
  }

  lemma Cofactor31Expanded(m: Mat4)
    ensures Cofactor(m, 3, 1) == m.c0.x * m.c2.y * m.c3.z - m.c0.x * m.c2.z * m.c3.y - m.c0.y * m.c2.x * m.c3.z + m.c0.y * m.c2.z * m.c3.x + m.c0.z * m.c2.x * m.c3.y - m.c0.z * m.c2.y * m.c3.x
  {
    MinorsRow3(m);
  }

  lemma Cofactor32Expanded(m: Mat4)
    ensures Cofactor(m, 3, 2) == -m.c0.x * m.c1.y * m.c3.z + m.c0.x * m.c1.z * m.c3.y + m.c0.y * m.c1.x * m.c3.z - m.c0.y * m.c1.z * m.c3.x - m.c0.z * m.c1.x * m.c3.y + m.c0.z * m.c1.y * m.c3.x
  {
    MinorsRow3(m);
  }

  lemma Cofactor33Expanded(m: Mat4)
    ensures Cofactor(m, 3, 3) == m.c0.x * m.c1.y * m.c2.z - m.c0.x * m.c1.z * m.c2.y - m.c0.y * m.c1.x * m.c2.z + m.c0.y * m.c1.z * m.c2.x + m.c0.z * m.c1.x * m.c2.y - m.c0.z * m.c1.y * m.c2.x
  {
    MinorsRow3(m);
  }

  /** Column k of the adjugate holds the cofactors of row k. */
  lemma AdjugateEntries(m: Mat4)
    ensures Adjugate(m).c0.x == Cofactor(m, 0, 0)
    ensures Adjugate(m).c0.y == Cofactor(m, 0, 1)
    ensures Adjugate(m).c0.z == Cofactor(m, 0, 2)
    ensures Adjugate(m).c0.w == Cofactor(m, 0, 3)
    ensures Adjugate(m).c1.x == Cofactor(m, 1, 0)
    ensures Adjugate(m).c1.y == Cofactor(m, 1, 1)
    ensures Adjugate(m).c1.z == Cofactor(m, 1, 2)
    ensures Adjugate(m).c1.w == Cofactor(m, 1, 3)
    ensures Adjugate(m).c2.x == Cofactor(m, 2, 0)
    ensures Adjugate(m).c2.y == Cofactor(m, 2, 1)
    ensures Adjugate(m).c2.z == Cofactor(m, 2, 2)
    ensures Adjugate(m).c2.w == Cofactor(m, 2, 3)
    ensures Adjugate(m).c3.x == Cofactor(m, 3, 0)
    ensures Adjugate(m).c3.y == Cofactor(m, 3, 1)
    ensures Adjugate(m).c3.z == Cofactor(m, 3, 2)
    ensures Adjugate(m).c3.w == Cofactor(m, 3, 3)
  {}

  lemma AdjugateBlockRow0(m: Mat4)
    ensures Adjugate(m).c0.x == BlockAdjugate(m).c0.x
    ensures Adjugate(m).c1.x == BlockAdjugate(m).c1.x
    ensures Adjugate(m).c2.x == BlockAdjugate(m).c2.x
    ensures Adjugate(m).c3.x == BlockAdjugate(m).c3.x
  {
    AdjugateEntries(m);
    BlockAdjugateRow0(m);
    BlockAdjugate00Expanded(m);
    Cofactor00Expanded(m);
    BlockAdjugate01Expanded(m);
    Cofactor10Expanded(m);
    BlockAdjugate02Expanded(m);
    Cofactor20Expanded(m);
    BlockAdjugate03Expanded(m);
    Cofactor30Expanded(m);
  }

  lemma AdjugateBlockRow1(m: Mat4)
    ensures Adjugate(m).c0.y == BlockAdjugate(m).c0.y
    ensures Adjugate(m).c1.y == BlockAdjugate(m).c1.y
    ensures Adjugate(m).c2.y == BlockAdjugate(m).c2.y
    ensures Adjugate(m).c3.y == BlockAdjugate(m).c3.y
  {
    AdjugateEntries(m);
    BlockAdjugateRow1(m);
    BlockAdjugate10Expanded(m);
    Cofactor01Expanded(m);
    BlockAdjugate11Expanded(m);
    Cofactor11Expanded(m);
    BlockAdjugate12Expanded(m);
    Cofactor21Expanded(m);
    BlockAdjugate13Expanded(m);
    Cofactor31Expanded(m);
  }

  lemma AdjugateBlockRow2(m: Mat4)
    ensures Adjugate(m).c0.z == BlockAdjugate(m).c0.z
    ensures Adjugate(m).c1.z == BlockAdjugate(m).c1.z
    ensures Adjugate(m).c2.z == BlockAdjugate(m).c2.z
    ensures Adjugate(m).c3.z == BlockAdjugate(m).c3.z
  {
    AdjugateEntries(m);
    BlockAdjugateRow2(m);
    BlockAdjugate20Expanded(m);
    Cofactor02Expanded(m);
    BlockAdjugate21Expanded(m);
    Cofactor12Expanded(m);
    BlockAdjugate22Expanded(m);
    Cofactor22Expanded(m);
    BlockAdjugate23Expanded(m);
    Cofactor32Expanded(m);
  }

  lemma AdjugateBlockRow3(m: Mat4)
    ensures Adjugate(m).c0.w == BlockAdjugate(m).c0.w
    ensures Adjugate(m).c1.w == BlockAdjugate(m).c1.w
    ensures Adjugate(m).c2.w == BlockAdjugate(m).c2.w
    ensures Adjugate(m).c3.w == BlockAdjugate(m).c3.w
  {
    AdjugateEntries(m);
    BlockAdjugateRow3(m);
    BlockAdjugate30Expanded(m);
    Cofactor03Expanded(m);
    BlockAdjugate31Expanded(m);
    Cofactor13Expanded(m);
    BlockAdjugate32Expanded(m);
    Cofactor23Expanded(m);
    BlockAdjugate33Expanded(m);
    Cofactor33Expanded(m);
  }

  /** The block formulas compute the adjugate: the transposed matrix of cofactors. */
  lemma AdjugateIsBlock(m: Mat4)
    ensures Adjugate(m) == BlockAdjugate(m)
  {
    AdjugateBlockRow0(m);
    AdjugateBlockRow1(m);
    AdjugateBlockRow2(m);
    AdjugateBlockRow3(m);
    MatrixExt(Adjugate(m), BlockAdjugate(m));
  }

  /** Scaling the block vectors by k scales the formula of row 0 and row 2 by k. */
  lemma ScaledRowAdd(p: V3.Vec3, q: V3.Vec3, r: V3.Vec3, y: real, k: real)
    ensures V3.Add(V3.Cross(p, V3.ScaleRight(q, k)), V3.ScaleRight(V3.ScaleRight(r, k), y))
         == V3.Scale(k, V3.Add(V3.Cross(p, q), V3.ScaleRight(r, y)))
  {
    V3.CrossScaleSecond(k, p, q);
    V3.ScaleCommute(y, k, r);
    V3.ScaleOverAdd(k, V3.Cross(p, q), V3.ScaleRight(r, y));
  }

  /** Scaling the block vectors by k scales the formula of row 1 and row 3 by k. */
  lemma ScaledRowSub(q: V3.Vec3, p: V3.Vec3, r: V3.Vec3, x: real, k: real)
    ensures V3.Sub(V3.Cross(V3.ScaleRight(q, k), p), V3.ScaleRight(V3.ScaleRight(r, k), x))
         == V3.Scale(k, V3.Sub(V3.Cross(q, p), V3.ScaleRight(r, x)))
  {
    V3.CrossScaleFirst(k, q, p);
    V3.ScaleCommute(x, k, r);
    V3.NegLinear(k, V3.ScaleRight(r, x), V3.ScaleRight(r, x));
    V3.ScaleOverAdd(k, V3.Cross(q, p), V3.Neg(V3.ScaleRight(r, x)));
  }

  // Solver steps: one component of a scaled vector equals one component of
  // another scaled vector when the unscaled components agree. These lemmas
  // model nothing in the library and only guide the solver through the
  // block proofs above.

  lemma ScaleBridgeXX(k: real, h: V3.Vec3, c: V.Vec4)
    requires c.x == h.x
    ensures V3.Scale(k, h).x == V.Scale(k, c).x
  {}

  lemma ScaleBridgeXY(k: real, h: V3.Vec3, c: V.Vec4)
    requires c.y == h.x
    ensures V3.Scale(k, h).x == V.Scale(k, c).y
  {}

  lemma ScaleBridgeXZ(k: real, h: V3.Vec3, c: V.Vec4)
    requires c.z == h.x
    ensures V3.Scale(k, h).x == V.Scale(k, c).z
  {}

  lemma ScaleBridgeXW(k: real, h: V3.Vec3, c: V.Vec4)
    requires c.w == h.x
    ensures V3.Scale(k, h).x == V.Scale(k, c).w
  {}

  lemma ScaleBridgeYX(k: real, h: V3.Vec3, c: V.Vec4)
    requires c.x == h.y
    ensures V3.Scale(k, h).y == V.Scale(k, c).x
  {}

  lemma ScaleBridgeYY(k: real, h: V3.Vec3, c: V.Vec4)
    requires c.y == h.y
    ensures V3.Scale(k, h).y == V.Scale(k, c).y
  {}

  lemma ScaleBridgeYZ(k: real, h: V3.Vec3, c: V.Vec4)
    requires c.z == h.y
    ensures V3.Scale(k, h).y == V.Scale(k, c).z
  {}

  lemma ScaleBridgeYW(k: real, h: V3.Vec3, c: V.Vec4)
    requires c.w == h.y
    ensures V3.Scale(k, h).y == V.Scale(k, c).w
  {}

  lemma ScaleBridgeZX(k: real, h: V3.Vec3, c: V.Vec4)
    requires c.x == h.z
    ensures V3.Scale(k, h).z == V.Scale(k, c).x
  {}

  lemma ScaleBridgeZY(k: real, h: V3.Vec3, c: V.Vec4)
    requires c.y == h.z
    ensures V3.Scale(k, h).z == V.Scale(k, c).y
  {}

  lemma ScaleBridgeZZ(k: real, h: V3.Vec3, c: V.Vec4)
    requires c.z == h.z
    ensures V3.Scale(k, h).z == V.Scale(k, c).z
  {}

  lemma ScaleBridgeZW(k: real, h: V3.Vec3, c: V.Vec4)
    requires c.w == h.z
    ensures V3.Scale(k, h).z == V.Scale(k, c).w
  {}

  lemma ScaleBridge4XX(k: real, h: V.Vec4, c: V.Vec4)
    requires c.x == h.x
    ensures V.Scale(k, h).x == V.Scale(k, c).x
  {}

  lemma ScaleBridge4XY(k: real, h: V.Vec4, c: V.Vec4)
    requires c.y == h.x
    ensures V.Scale(k, h).x == V.Scale(k, c).y
  {}

  lemma ScaleBridge4XZ(k: real, h: V.Vec4, c: V.Vec4)
    requires c.z == h.x
    ensures V.Scale(k, h).x == V.Scale(k, c).z
  {}

  lemma ScaleBridge4XW(k: real, h: V.Vec4, c: V.Vec4)
    requires c.w == h.x
    ensures V.Scale(k, h).x == V.Scale(k, c).w
  {}

  lemma ScaleBridge4YX(k: real, h: V.Vec4, c: V.Vec4)
    requires c.x == h.y
    ensures V.Scale(k, h).y == V.Scale(k, c).x
  {}

  lemma ScaleBridge4YY(k: real, h: V.Vec4, c: V.Vec4)
    requires c.y == h.y
    ensures V.Scale(k, h).y == V.Scale(k, c).y
  {}

  lemma ScaleBridge4YZ(k: real, h: V.Vec4, c: V.Vec4)
    requires c.z == h.y
    ensures V.Scale(k, h).y == V.Scale(k, c).z
  {}

  lemma ScaleBridge4YW(k: real, h: V.Vec4, c: V.Vec4)
    requires c.w == h.y
    ensures V.Scale(k, h).y == V.Scale(k, c).w
  {}

  lemma ScaleBridge4ZX(k: real, h: V.Vec4, c: V.Vec4)
    requires c.x == h.z
    ensures V.Scale(k, h).z == V.Scale(k, c).x
  {}

  lemma ScaleBridge4ZY(k: real, h: V.Vec4, c: V.Vec4)
    requires c.y == h.z
    ensures V.Scale(k, h).z == V.Scale(k, c).y
  {}

  lemma ScaleBridge4ZZ(k: real, h: V.Vec4, c: V.Vec4)
    requires c.z == h.z
    ensures V.Scale(k, h).z == V.Scale(k, c).z
  {}

  lemma ScaleBridge4ZW(k: real, h: V.Vec4, c: V.Vec4)
    requires c.w == h.z
    ensures V.Scale(k, h).z == V.Scale(k, c).w
  {}

  lemma ScaleBridge4WX(k: real, h: V.Vec4, c: V.Vec4)
    requires c.x == h.w
    ensures V.Scale(k, h).w == V.Scale(k, c).x
  {}

  lemma ScaleBridge4WY(k: real, h: V.Vec4, c: V.Vec4)
    requires c.y == h.w
    ensures V.Scale(k, h).w == V.Scale(k, c).y
  {}

  lemma ScaleBridge4WZ(k: real, h: V.Vec4, c: V.Vec4)
    requires c.z == h.w
    ensures V.Scale(k, h).w == V.Scale(k, c).z
  {}

  lemma ScaleBridge4WW(k: real, h: V.Vec4, c: V.Vec4)
    requires c.w == h.w
    ensures V.Scale(k, h).w == V.Scale(k, c).w
  {}

  lemma NegDotBridgeX(k: real, p: V3.Vec3, q: V3.Vec3, c: V.Vec4)
    requires c.x == -V3.Dot(p, q)
    ensures -V3.Dot(p, V3.ScaleRight(q, k)) == V.Scale(k, c).x
  {}

  lemma DotBridgeX(k: real, p: V3.Vec3, q: V3.Vec3, c: V.Vec4)
    requires c.x == V3.Dot(p, q)
    ensures V3.Dot(p, V3.ScaleRight(q, k)) == V.Scale(k, c).x
  {}

  lemma MulBridgeX(k: real, p: V.Vec4, q: V.Vec4, c: V.Vec4)
    requires c.x == V.Dot(p, q)
    ensures V.Dot(V.Scale(k, p), q) == V.Scale(k, c).x
  {}

  lemma NegDotBridgeY(k: real, p: V3.Vec3, q: V3.Vec3, c: V.Vec4)
    requires c.y == -V3.Dot(p, q)
    ensures -V3.Dot(p, V3.ScaleRight(q, k)) == V.Scale(k, c).y
  {}

  lemma DotBridgeY(k: real, p: V3.Vec3, q: V3.Vec3, c: V.Vec4)
    requires c.y == V3.Dot(p, q)
    ensures V3.Dot(p, V3.ScaleRight(q, k)) == V.Scale(k, c).y
  {}

  lemma MulBridgeY(k: real, p: V.Vec4, q: V.Vec4, c: V.Vec4)
    requires c.y == V.Dot(p, q)
    ensures V.Dot(V.Scale(k, p), q) == V.Scale(k, c).y
  {}

  lemma NegDotBridgeZ(k: real, p: V3.Vec3, q: V3.Vec3, c: V.Vec4)
    requires c.z == -V3.Dot(p, q)
    ensures -V3.Dot(p, V3.ScaleRight(q, k)) == V.Scale(k, c).z
  {}

  lemma DotBridgeZ(k: real, p: V3.Vec3, q: V3.Vec3, c: V.Vec4)
    requires c.z == V3.Dot(p, q)
    ensures V3.Dot(p, V3.ScaleRight(q, k)) == V.Scale(k, c).z
  {}

  lemma MulBridgeZ(k: real, p: V.Vec4, q: V.Vec4, c: V.Vec4)
    requires c.z == V.Dot(p, q)
    ensures V.Dot(V.Scale(k, p), q) == V.Scale(k, c).z
  {}

  lemma NegDotBridgeW(k: real, p: V3.Vec3, q: V3.Vec3, c: V.Vec4)
    requires c.w == -V3.Dot(p, q)
    ensures -V3.Dot(p, V3.ScaleRight(q, k)) == V.Scale(k, c).w
  {}

  lemma DotBridgeW(k: real, p: V3.Vec3, q: V3.Vec3, c: V.Vec4)
    requires c.w == V3.Dot(p, q)
    ensures V3.Dot(p, V3.ScaleRight(q, k)) == V.Scale(k, c).w
  {}

  lemma MulBridgeW(k: real, p: V.Vec4, q: V.Vec4, c: V.Vec4)
    requires c.w == V.Dot(p, q)
    ensures V.Dot(V.Scale(k, p), q) == V.Scale(k, c).w
  {}

  /** Scaling the four block vectors by k scales every entry of the rows
      built from them by k. */
  lemma BlockRowsScaled(m: Mat4, k: real, s: V3.Vec3, t: V3.Vec3, u: V3.Vec3, v: V3.Vec3)
    ensures BlockRows(m, V3.ScaleRight(s, k), V3.ScaleRight(t, k), V3.ScaleRight(u, k), V3.ScaleRight(v, k)) == Scale(k, BlockRows(m, s, t, u, v))
  {
    ScaledRowAdd(Head(m.c1), v, t, m.c1.w, k);
    ScaledRowSub(v, Head(m.c0), t, m.c0.w, k);
    ScaledRowAdd(Head(m.c3), u, s, m.c3.w, k);
    ScaledRowSub(u, Head(m.c2), s, m.c2.w, k);
    ScaleBridgeXX(k, V3.Add(V3.Cross(Head(m.c1), v), V3.ScaleRight(t, m.c1.w)), BlockRows(m, s, t, u, v).c0);
    ScaleBridgeYX(k, V3.Add(V3.Cross(Head(m.c1), v), V3.ScaleRight(t, m.c1.w)), BlockRows(m, s, t, u, v).c1);
    ScaleBridgeZX(k, V3.Add(V3.Cross(Head(m.c1), v), V3.ScaleRight(t, m.c1.w)), BlockRows(m, s, t, u, v).c2);
    NegDotBridgeX(k, Head(m.c1), t, BlockRows(m, s, t, u, v).c3);
    ScaleBridgeXY(k, V3.Sub(V3.Cross(v, Head(m.c0)), V3.ScaleRight(t, m.c0.w)), BlockRows(m, s, t, u, v).c0);
    ScaleBridgeYY(k, V3.Sub(V3.Cross(v, Head(m.c0)), V3.ScaleRight(t, m.c0.w)), BlockRows(m, s, t, u, v).c1);
    ScaleBridgeZY(k, V3.Sub(V3.Cross(v, Head(m.c0)), V3.ScaleRight(t, m.c0.w)), BlockRows(m, s, t, u, v).c2);
    DotBridgeY(k, Head(m.c0), t, BlockRows(m, s, t, u, v).c3);
    ScaleBridgeXZ(k, V3.Add(V3.Cross(Head(m.c3), u), V3.ScaleRight(s, m.c3.w)), BlockRows(m, s, t, u, v).c0);
    ScaleBridgeYZ(k, V3.Add(V3.Cross(Head(m.c3), u), V3.ScaleRight(s, m.c3.w)), BlockRows(m, s, t, u, v).c1);
    ScaleBridgeZZ(k, V3.Add(V3.Cross(Head(m.c3), u), V3.ScaleRight(s, m.c3.w)), BlockRows(m, s, t, u, v).c2);
    NegDotBridgeZ(k, Head(m.c3), s, BlockRows(m, s, t, u, v).c3);
    ScaleBridgeXW(k, V3.Sub(V3.Cross(u, Head(m.c2)), V3.ScaleRight(s, m.c2.w)), BlockRows(m, s, t, u, v).c0);
    ScaleBridgeYW(k, V3.Sub(V3.Cross(u, Head(m.c2)), V3.ScaleRight(s, m.c2.w)), BlockRows(m, s, t, u, v).c1);
    ScaleBridgeZW(k, V3.Sub(V3.Cross(u, Head(m.c2)), V3.ScaleRight(s, m.c2.w)), BlockRows(m, s, t, u, v).c2);
    DotBridgeW(k, Head(m.c2), s, BlockRows(m, s, t, u, v).c3);
    MatrixExt(BlockRows(m, V3.ScaleRight(s, k), V3.ScaleRight(t, k), V3.ScaleRight(u, k), V3.ScaleRight(v, k)), Scale(k, BlockRows(m, s, t, u, v)));
  }

  lemma RowScaled0(k: real, l: Mat4)
    ensures Row0(Scale(k, l)) == V.Scale(k, Row0(l))
  {
    ScaleBridge4XX(k, l.c0, Row0(l));
    ScaleBridge4XY(k, l.c1, Row0(l));
    ScaleBridge4XZ(k, l.c2, Row0(l));
    ScaleBridge4XW(k, l.c3, Row0(l));
  }

  lemma RowScaled1(k: real, l: Mat4)
    ensures Row1(Scale(k, l)) == V.Scale(k, Row1(l))
  {
    ScaleBridge4YX(k, l.c0, Row1(l));
    ScaleBridge4YY(k, l.c1, Row1(l));
    ScaleBridge4YZ(k, l.c2, Row1(l));
    ScaleBridge4YW(k, l.c3, Row1(l));
  }

  lemma RowScaled2(k: real, l: Mat4)
    ensures Row2(Scale(k, l)) == V.Scale(k, Row2(l))
  {
    ScaleBridge4ZX(k, l.c0, Row2(l));
    ScaleBridge4ZY(k, l.c1, Row2(l));
    ScaleBridge4ZZ(k, l.c2, Row2(l));
    ScaleBridge4ZW(k, l.c3, Row2(l));
  }

  lemma RowScaled3(k: real, l: Mat4)
    ensures Row3(Scale(k, l)) == V.Scale(k, Row3(l))
  {
    ScaleBridge4WX(k, l.c0, Row3(l));
    ScaleBridge4WY(k, l.c1, Row3(l));
    ScaleBridge4WZ(k, l.c2, Row3(l));
    ScaleBridge4WW(k, l.c3, Row3(l));
  }

  /** A scalar factor on the left operand moves out of the product. */
  lemma MulScaleLeft(k: real, l: Mat4, r: Mat4)
    ensures Mul(Scale(k, l), r) == Scale(k, Mul(l, r))
  {
    RowScaled0(k, l);
    RowScaled1(k, l);
    RowScaled2(k, l);
    RowScaled3(k, l);
    MulBridgeX(k, Row0(l), r.c0, Mul(l, r).c0);
    MulBridgeX(k, Row0(l), r.c1, Mul(l, r).c1);
    MulBridgeX(k, Row0(l), r.c2, Mul(l, r).c2);
    MulBridgeX(k, Row0(l), r.c3, Mul(l, r).c3);
    MulBridgeY(k, Row1(l), r.c0, Mul(l, r).c0);
    MulBridgeY(k, Row1(l), r.c1, Mul(l, r).c1);
    MulBridgeY(k, Row1(l), r.c2, Mul(l, r).c2);
    MulBridgeY(k, Row1(l), r.c3, Mul(l, r).c3);
    MulBridgeZ(k, Row2(l), r.c0, Mul(l, r).c0);
    MulBridgeZ(k, Row2(l), r.c1, Mul(l, r).c1);
    MulBridgeZ(k, Row2(l), r.c2, Mul(l, r).c2);
    MulBridgeZ(k, Row2(l), r.c3, Mul(l, r).c3);
    MulBridgeW(k, Row3(l), r.c0, Mul(l, r).c0);
    MulBridgeW(k, Row3(l), r.c1, Mul(l, r).c1);
    MulBridgeW(k, Row3(l), r.c2, Mul(l, r).c2);
    MulBridgeW(k, Row3(l), r.c3, Mul(l, r).c3);
    MatrixExt(Mul(Scale(k, l), r), Scale(k, Mul(l, r)));
  }

  lemma ScaleScaledIdentity(d: real)
    requires d != 0.0
    ensures Scale(1.0 / d, Scale(d, Identity())) == Identity()
  {
    var k := 1.0 / d;
    assert k * d == 1.0;
    var e := Identity();
    V.ScaleTwice(k, d, e.c0);
    V.ScaleTwice(k, d, e.c1);
    V.ScaleTwice(k, d, e.c2);
    V.ScaleTwice(k, d, e.c3);
    V.ScaleByOne(k * d, e.c0);
    V.ScaleByOne(k * d, e.c1);
    V.ScaleByOne(k * d, e.c2);
    V.ScaleByOne(k * d, e.c3);
  }

  /** If l times r is d times the identity for a non-zero d, then l divided
      by d inverts r from the left. */
  lemma ScaledLeftInverse(l: Mat4, r: Mat4, d: real)
    requires Mul(l, r) == Scale(d, Identity())
    requires d != 0.0
    ensures Mul(Scale(1.0 / d, l), r) == Identity()
  {
    MulScaleLeft(1.0 / d, l, r);
    ScaleScaledIdentity(d);
  }

  /** The rows built from the block vectors scaled by one over the
      determinant are the adjugate over the determinant, and they invert m
      from the left. */
  lemma InverseOfBlockRows(m: Mat4)
    requires Determinant(m) != 0.0
    ensures BlockRows(m, V3.ScaleRight(BlockS(m), 1.0 / Determinant(m)), V3.ScaleRight(BlockT(m), 1.0 / Determinant(m)), V3.ScaleRight(BlockU(m), 1.0 / Determinant(m)), V3.ScaleRight(BlockV(m), 1.0 / Determinant(m))) == InverseAdj(m)
    ensures Mul(BlockRows(m, V3.ScaleRight(BlockS(m), 1.0 / Determinant(m)), V3.ScaleRight(BlockT(m), 1.0 / Determinant(m)), V3.ScaleRight(BlockU(m), 1.0 / Determinant(m)), V3.ScaleRight(BlockV(m), 1.0 / Determinant(m))), m) == Identity()
  {
    BlockRowsScaled(m, 1.0 / Determinant(m), BlockS(m), BlockT(m), BlockU(m), BlockV(m));
    AdjugateIsBlock(m);
    BlockInverseLeft(m);
    ScaledLeftInverse(BlockAdjugate(m), m, Determinant(m));
  }

}
