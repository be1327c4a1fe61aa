# QuaternionSlerp in Dafny

A model of the QuaternionSlerp teaching library, a small C++ library of
2D, 3D and 4D vectors, 2x2, 3x3 and 4x4 matrices and quaternions, and
proofs about that model.

Each core file is modelled by one Dafny module:

- `Vector2D.cpp`, `Vector3D.cpp` and `Vector4D.cpp` by `Vector2D`, `Vector3D` and `Vector4D`.
- `Matrix2D.cpp`, `Matrix3D.cpp` and `Matrix4D.cpp` by `Matrix2D`, `Matrix3D` and `Matrix4D`.
- `Quaternion.cpp` by `Quaternion`.

The C math functions the library calls (`sin`, `cos`, `acos`, `sqrt`) are a parameter of type
`MathLib.MathLib`. The predicate `MathLib.Laws` collects the identities of
those functions that the proofs use:

- the Pythagorean identity;
- the double-angle formulas;
- `cos(acos c) == c` and `sin(acos c) >= 0` on [-1, 1];
- `sqrt` is the non-negative root.

Every library type is passed by value, so vectors, matrices and quaternions
are Dafny datatypes:

- A matrix stores its columns, as the library does. `m(i, j)` reads row i
  of column j, and `m[j]` is column j.
- The writes the library allows through the references that `m(i, j)` and
  `m[j]` return are modelled as the functions `SetEntry` and `SetCol`.
- Arithmetic is on mathematical reals.

The loops of the library are modelled as methods proved against a
specification function:

- `Matrix3D.Minor` and `Matrix4D.Minor` fill a smaller matrix with two
  nested loops and counters that skip the deleted row and column.
- `Matrix4D.Inverse` rescales its block vectors in place.
- `Quaternion.Slerp` assigns the result's components one by one on one of
  three paths.

Where the code has a bug, the model contains both versions:

- the code as written, as a `...AsWritten` definition, with a lemma that
  shows the discrepancy;
- the evidently intended definition, with its properties proved.

The rest of the model uses the intended definition. See "## Findings".

Two 4x4 operations are written with block formulas built from 3D cross
products; the model proves what they compute:

- The 4x4 `Inverse` computes the true inverse of every matrix with a
  non-zero determinant.
  - `Matrix4D.Inverse` is proved to be a left inverse for every such matrix.
  - It is also proved to equal `InverseAdj`.
- The 4x4 `Determinant` is the block formula `s . v + t . u`.
  - `Matrix4D.DeterminantExpanded` proves it is the full 24-term Leibniz sum.
  - `Matrix4D.LaplaceRow0` proves it is the cofactor expansion.

## Model

| member | source | states |
|---|---|---|
| MathLib.SinOfAcos | QuaternionSlerp/QuaternionSlerp/Quaternion.cpp:157-158 | for c in (-1, 1), the root sqrt(1 - c^2) that Slerp computes is the sine of acos c |
| Vector2D.EqualIsComponentwise | QuaternionSlerp/QuaternionSlerp/Vector2D.cpp:63-71 | `==` holds exactly when the vectors are equal; `!=` exactly when they differ |
| Vector2D.NegSubLaws | QuaternionSlerp/QuaternionSlerp/Vector2D.cpp:33-46 | negation is an involution, subtracting r undoes adding r, and v - v is the zero vector |
| Vector2D.ScaleDivLaws | QuaternionSlerp/QuaternionSlerp/Vector2D.cpp:48-61 | v * s equals s * v, and for s != 0 scaling by s undoes division by s |
| Vector2D.ScaleAlgebra | QuaternionSlerp/QuaternionSlerp/Vector2D.cpp:48-51 | scaling composes by multiplying factors and distributes over vector sums and over scalar sums |
| Vector2D.DotSymmetricBilinear | QuaternionSlerp/QuaternionSlerp/Vector2D.cpp:73-76 | the dot product is symmetric and linear in its first argument |
| Vector2D.MagSquaredPositive | QuaternionSlerp/QuaternionSlerp/Vector2D.cpp:108-111 | the squared magnitude is non-negative, and positive for every non-zero vector |
| Vector2D.MagSquaredZero | QuaternionSlerp/QuaternionSlerp/Vector2D.cpp:108-111 | the squared magnitude is zero exactly for the zero vector |
| Vector2D.ProjectRejectSplit | QuaternionSlerp/QuaternionSlerp/Vector2D.cpp:78-86 | the rejection of a from b is orthogonal to b, and the projection plus the rejection gives a back |
| Vector2D.ProjectIdempotent | QuaternionSlerp/QuaternionSlerp/Vector2D.cpp:78-81 | projecting a projection onto b again changes nothing |
| Vector2D.NormalizeIsUnit | QuaternionSlerp/QuaternionSlerp/Vector2D.cpp:88-96 | a non-zero vector has a non-zero magnitude, and its normalization has squared length one |
| Vector3D.EqualIsComponentwise | QuaternionSlerp/QuaternionSlerp/Vector3D.cpp:63-71 | `==` holds exactly when the vectors are equal; `!=` exactly when they differ |
| Vector3D.NegSubLaws | QuaternionSlerp/QuaternionSlerp/Vector3D.cpp:33-46 | negation is an involution, subtracting r undoes adding r, and v - v is the zero vector |
| Vector3D.ScaleDivLaws | QuaternionSlerp/QuaternionSlerp/Vector3D.cpp:48-61 | v * s equals s * v, and for s != 0 scaling by s undoes division by s |
| Vector3D.ScaleAlgebra | QuaternionSlerp/QuaternionSlerp/Vector3D.cpp:48-51 | scaling composes by multiplying factors and distributes over vector sums and over scalar sums |
| Vector3D.ScaleCancel | QuaternionSlerp/QuaternionSlerp/Vector3D.cpp:58-61 | scaling by s undoes scaling by 1 / s |
| Vector3D.NegLinear | QuaternionSlerp/QuaternionSlerp/Vector3D.cpp:33-36 | negation distributes over sums and commutes with scaling |
| Vector3D.DotSymmetricBilinear | QuaternionSlerp/QuaternionSlerp/Vector3D.cpp:73-76 | the dot product is symmetric and linear in its first argument |
| Vector3D.DotAddScaled | QuaternionSlerp/QuaternionSlerp/Vector3D.cpp:73-76 | (e + f k) . g is e . g + k (f . g) |
| Vector3D.DotSubScaled | QuaternionSlerp/QuaternionSlerp/Vector3D.cpp:73-76 | (e - f k) . g is e . g - k (f . g) |
| Vector3D.DotCombination | QuaternionSlerp/QuaternionSlerp/Vector3D.cpp:73-76 | e . (p k - q l) is k (e . p) - l (e . q) |
| Vector3D.MagSquaredPositive | QuaternionSlerp/QuaternionSlerp/Vector3D.cpp:115-118 | the squared magnitude is non-negative, and positive for every non-zero vector |
| Vector3D.MagSquaredZero | QuaternionSlerp/QuaternionSlerp/Vector3D.cpp:115-118 | the squared magnitude is zero exactly for the zero vector |
| Vector3D.CrossAnticommutative | QuaternionSlerp/QuaternionSlerp/Vector3D.cpp:93-98 | a x b is -(b x a), and a x a is zero |
| Vector3D.CrossScale | QuaternionSlerp/QuaternionSlerp/Vector3D.cpp:93-98 | (s a) x b is s (a x b), and a vector crossed with a multiple of itself is zero |
| Vector3D.CrossScaleFirst | QuaternionSlerp/QuaternionSlerp/Vector3D.cpp:93-98 | a scalar factor of the first operand comes out of the cross product |
| Vector3D.CrossScaleSecond | QuaternionSlerp/QuaternionSlerp/Vector3D.cpp:93-98 | a scalar factor of the second operand comes out of the cross product |
| Vector3D.CrossOrthogonal | QuaternionSlerp/QuaternionSlerp/Vector3D.cpp:93-98 | a x b is orthogonal to a and to b |
| Vector3D.CrossDotCyclic | QuaternionSlerp/QuaternionSlerp/Vector3D.cpp:93-98 | (p x q) . r equals (q x r) . p |
| Vector3D.CrossDotSwap | QuaternionSlerp/QuaternionSlerp/Vector3D.cpp:93-98 | (q x p) . r is -((p x q) . r) |
| Vector3D.CrossFrameX | QuaternionSlerp/QuaternionSlerp/Vector3D.cpp:93-98 | the x components of a, b, c dotted with the three cyclic cross products give the triple product on the diagonal and zero off it (first row of the dual basis identity) |
| Vector3D.CrossFrameY | QuaternionSlerp/QuaternionSlerp/Vector3D.cpp:93-98 | second row of the dual basis identity: triple product on the diagonal, zero off it |
| Vector3D.CrossFrameZ | QuaternionSlerp/QuaternionSlerp/Vector3D.cpp:93-98 | third row of the dual basis identity: triple product on the diagonal, zero off it |
| Vector3D.CrossLength | QuaternionSlerp/QuaternionSlerp/Vector3D.cpp:73-98 | Lagrange's identity: (a x b) . (a x b) is (a . a)(b . b) - (a . b)^2 |
| Vector3D.ScalarTripleSymmetry | QuaternionSlerp/QuaternionSlerp/Vector3D.cpp:120-123 | the scalar triple product is invariant under cyclic shifts and changes sign when two arguments swap |
| Vector3D.ProjectRejectSplit | QuaternionSlerp/QuaternionSlerp/Vector3D.cpp:78-86 | the rejection of a from b is orthogonal to b, and the projection plus the rejection gives a back |
| Vector3D.NormalizeIsUnit | QuaternionSlerp/QuaternionSlerp/Vector3D.cpp:88-91 | a non-zero vector has a non-zero magnitude, and its normalization has squared length one |
| Vector4D.FromVec3 | QuaternionSlerp/QuaternionSlerp/Vector4D.cpp:33-36 | the 3D components are kept and w is the given weight |
| Vector4D.EqualIsComponentwise | QuaternionSlerp/QuaternionSlerp/Vector4D.cpp:68-76 | `==` holds exactly when the vectors are equal; `!=` exactly when they differ |
| Vector4D.NegSubLaws | QuaternionSlerp/QuaternionSlerp/Vector4D.cpp:38-51 | negation is an involution, subtracting r undoes adding r, and v - v is the zero vector |
| Vector4D.ScaleDivLaws | QuaternionSlerp/QuaternionSlerp/Vector4D.cpp:53-66 | v * s equals s * v, and for s != 0 scaling by s undoes division by s |
| Vector4D.ScaleCancel | QuaternionSlerp/QuaternionSlerp/Vector4D.cpp:63-66 | scaling by s undoes scaling by 1 / s |
| Vector4D.ScaleTwice | QuaternionSlerp/QuaternionSlerp/Vector4D.cpp:53-56 | scaling by t and then by s is scaling by s t |
| Vector4D.ScaleOverAdd | QuaternionSlerp/QuaternionSlerp/Vector4D.cpp:53-56 | scaling distributes over vector sums |
| Vector4D.NegLinear | QuaternionSlerp/QuaternionSlerp/Vector4D.cpp:38-41 | negation distributes over sums and commutes with scaling |
| Vector4D.DotSymmetricBilinear | QuaternionSlerp/QuaternionSlerp/Vector4D.cpp:78-81 | the dot product is symmetric and linear in its first argument |
| Vector4D.MagSquaredPositive | QuaternionSlerp/QuaternionSlerp/Vector4D.cpp:118-121 | the squared magnitude is non-negative, and positive for every non-zero vector |
| Vector4D.MagSquaredZero | QuaternionSlerp/QuaternionSlerp/Vector4D.cpp:118-121 | the squared magnitude is zero exactly for the zero vector |
| Vector4D.ProjectRejectSplit | QuaternionSlerp/QuaternionSlerp/Vector4D.cpp:83-91 | the rejection of a from b is orthogonal to b, and the projection plus the rejection gives a back |
| Vector4D.PointifyHomogeneous | QuaternionSlerp/QuaternionSlerp/Vector4D.cpp:98-101 | the result always has w = 1; a direction (w = 0) keeps x, y, z; otherwise the result scaled by the old w is the input |
| Vector4D.PointifyIdempotent | QuaternionSlerp/QuaternionSlerp/Vector4D.cpp:98-101 | pointifying a point again changes nothing |
| Vector4D.NormalizeIsUnit | QuaternionSlerp/QuaternionSlerp/Vector4D.cpp:93-96 | a non-zero vector has a non-zero magnitude, and its normalization has squared length one |
| Matrix2D.StorageMapping | QuaternionSlerp/QuaternionSlerp/Matrix2D.cpp:31-45 | the entry constructor puts nij at row i, column j; the column constructor makes its arguments the columns |
| Matrix2D.EntryForms | QuaternionSlerp/QuaternionSlerp/Matrix2D.cpp:139-148 | every matrix is built back from its entries; row i holds entries (i, 0) and (i, 1); the determinant is ad - bc and the closed-form inverse is [d, -b; -c, a] / det |
| Matrix2D.SetEntryFrame | QuaternionSlerp/QuaternionSlerp/Matrix2D.cpp:47-52 | a write through `m(i, j)` sets that entry and leaves every other entry alone |
| Matrix2D.SetColFrame | QuaternionSlerp/QuaternionSlerp/Matrix2D.cpp:54-61 | a write through `m[j]` replaces column j and leaves the other column alone |
| Matrix2D.EqualIsComponentwise | QuaternionSlerp/QuaternionSlerp/Matrix2D.cpp:129-137 | `==` holds exactly when the matrices are equal; `!=` exactly when they differ |
| Matrix2D.ArithmeticLaws | QuaternionSlerp/QuaternionSlerp/Matrix2D.cpp:75-106 | subtracting r undoes adding r, l - l is the zero matrix, m * s equals s * m, and scaling by s undoes division by s |
| Matrix2D.MulEntries | QuaternionSlerp/QuaternionSlerp/Matrix2D.cpp:108-115 | entry (i, j) of l * r is row i of l dotted with column j of r |
| Matrix2D.MulColumns | QuaternionSlerp/QuaternionSlerp/Matrix2D.cpp:108-115 | column j of l * r is l applied to column j of r |
| Matrix2D.MulApply | QuaternionSlerp/QuaternionSlerp/Matrix2D.cpp:108-121 | applying l * r is applying r, then l |
| Matrix2D.MulScaled | QuaternionSlerp/QuaternionSlerp/Matrix2D.cpp:108-115 | (s l)(t r) is (s t)(l r) |
| Matrix2D.ScaleComposes | QuaternionSlerp/QuaternionSlerp/Matrix2D.cpp:83-86 | scaling by t and then by s is scaling by s t |
| Matrix2D.IdentityNeutral | QuaternionSlerp/QuaternionSlerp/Matrix2D.cpp:23-29 | the default matrix is the identity: neutral for products on both sides and for both vector applications |
| Matrix2D.ApplyLinear | QuaternionSlerp/QuaternionSlerp/Matrix2D.cpp:117-121 | m * v is additive and homogeneous in v |
| Matrix2D.ApplyMatrixLinear | QuaternionSlerp/QuaternionSlerp/Matrix2D.cpp:75-106 | applying a sum, a negation or a multiple of matrices is the sum, negation or multiple of the applications |
| Matrix2D.ApplyRowIsTransposeApply | QuaternionSlerp/QuaternionSlerp/Matrix2D.cpp:123-127 | v * m is the transpose of m applied to v |
| Matrix2D.TransposeInvolution | QuaternionSlerp/QuaternionSlerp/Matrix2D.cpp:177-181 | entry (i, j) of the transpose is entry (j, i) of m, and transposing twice gives m back |
| Matrix2D.MinorCofactorEntries | QuaternionSlerp/QuaternionSlerp/Matrix2D.cpp:155-164 | the minor at (i, j) is the opposite-corner entry, and the cofactor carries the checkerboard sign |
| Matrix2D.Laplace | QuaternionSlerp/QuaternionSlerp/Matrix2D.cpp:139-142 | the determinant is the cofactor expansion along either row and either column |
| Matrix2D.AdjugateProduct | QuaternionSlerp/QuaternionSlerp/Matrix2D.cpp:172-175 | the adjugate times m, on either side, is det(m) times the identity |
| Matrix2D.InverseTwoSided | QuaternionSlerp/QuaternionSlerp/Matrix2D.cpp:144-148 | for det(m) != 0 the closed-form inverse is a left and a right inverse |
| Matrix2D.InversesAgree | QuaternionSlerp/QuaternionSlerp/Matrix2D.cpp:150-153 | for det(m) != 0 the two inverse algorithms agree, and the adjugate is det(m) times the inverse |
| Matrix2D.DeterminantMul | QuaternionSlerp/QuaternionSlerp/Matrix2D.cpp:139-142 | the determinant of a product is the product of the determinants |
| Matrix2D.OuterApply | QuaternionSlerp/QuaternionSlerp/Matrix2D.cpp:183-187 | Outer(a, b) applied to c is a scaled by b . c |
| Matrix2D.OuterColumns | QuaternionSlerp/QuaternionSlerp/Matrix2D.cpp:183-187 | the columns of Outer(a, b) are a scaled by b.x and by b.y |
| Matrix2D.OuterSquare | QuaternionSlerp/QuaternionSlerp/Matrix2D.cpp:183-187 | Outer(b, b) squared is Outer(b, b) scaled by the squared length of b |
| Matrix2D.ProjectionMatrices | QuaternionSlerp/QuaternionSlerp/Matrix2D.cpp:189-209 | for b != 0, the projection matrix maps a to Project(a, b) and the rejection matrix maps a to Reject(a, b) |
| Matrix2D.ProjectionIdempotent | QuaternionSlerp/QuaternionSlerp/Matrix2D.cpp:189-200 | the projection matrix squared is itself |
| Matrix2D.RotationImages | QuaternionSlerp/QuaternionSlerp/Matrix2D.cpp:211-221 | the rotation sends (1, 0) to (cos, sin) and (0, 1) to (-sin, cos), as the comment derives |
| Matrix2D.RotationOrthogonal | QuaternionSlerp/QuaternionSlerp/Matrix2D.cpp:211-221 | the rotation is orthogonal, has determinant one, and rotating twice by theta is rotating once by 2 theta |
| Matrix2D.RotationTransposeInverse | QuaternionSlerp/QuaternionSlerp/Matrix2D.cpp:211-221 | the transpose of the rotation is its left inverse |
| Matrix2D.RotationDeterminant | QuaternionSlerp/QuaternionSlerp/Matrix2D.cpp:211-221 | the rotation has determinant one |
| Matrix2D.RotationDoubles | QuaternionSlerp/QuaternionSlerp/Matrix2D.cpp:211-221 | the rotation by theta, squared, is the rotation by 2 theta |
| Matrix2D.ReflectRows | QuaternionSlerp/QuaternionSlerp/Matrix2D.cpp:223-244 | each row (vertex) of the reflected figure is that vertex times the reflection matrix |
| Matrix2D.ReflectionsMirror | QuaternionSlerp/QuaternionSlerp/Matrix2D.cpp:228-242 | the four common reflection matrices mirror a vertex across the x axis, the y axis, the origin and the line y = x |
| Matrix2D.ReflectAcrossXInvolutive | QuaternionSlerp/QuaternionSlerp/Matrix2D.cpp:228-230 | reflecting across the x axis twice is the identity |
| Matrix2D.ReflectAcrossYInvolutive | QuaternionSlerp/QuaternionSlerp/Matrix2D.cpp:232-234 | reflecting across the y axis twice is the identity |
| Matrix2D.ReflectInOriginInvolutive | QuaternionSlerp/QuaternionSlerp/Matrix2D.cpp:236-238 | reflecting in the origin twice is the identity |
| Matrix2D.ReflectAcrossDiagonalInvolutive | QuaternionSlerp/QuaternionSlerp/Matrix2D.cpp:240-242 | reflecting across y = x twice is the identity |
| Matrix3D.Minor | QuaternionSlerp/QuaternionSlerp/Matrix3D.cpp:149-162 | the loop builds MinorOf(m, i, j), the matrix with row i and column j deleted (see MinorDeletes) |
| Matrix3D.SkipVisitsOthers | QuaternionSlerp/QuaternionSlerp/Matrix3D.cpp:153-159 | the counters of the minor loop read two distinct indices in increasing order, never the deleted one, and every other index is read |
| Matrix3D.MinorDeletes | QuaternionSlerp/QuaternionSlerp/Matrix3D.cpp:149-162 | entry (k, l) of the minor is the entry of m at the k-th row other than i and the l-th column other than j |
| Matrix3D.MinorsRow0 | QuaternionSlerp/QuaternionSlerp/Matrix3D.cpp:149-162 | the minors deleting row 0 are the 2x2 matrices of rows 1 and 2 without the deleted column |
| Matrix3D.MinorsRow1 | QuaternionSlerp/QuaternionSlerp/Matrix3D.cpp:149-162 | the minors deleting row 1 are the 2x2 matrices of rows 0 and 2 without the deleted column |
| Matrix3D.MinorsRow2 | QuaternionSlerp/QuaternionSlerp/Matrix3D.cpp:149-162 | the minors deleting row 2 are the 2x2 matrices of rows 0 and 1 without the deleted column |
| Matrix3D.StorageMapping | QuaternionSlerp/QuaternionSlerp/Matrix3D.cpp:30-42 | the entry constructor puts nij at row i, column j; the column constructor makes its arguments the columns |
| Matrix3D.EntryForms | QuaternionSlerp/QuaternionSlerp/Matrix3D.cpp:54-57 | every matrix is built back from its entries, and row i holds entries (i, 0), (i, 1), (i, 2) |
| Matrix3D.SetEntryFrame | QuaternionSlerp/QuaternionSlerp/Matrix3D.cpp:44-47 | a write through `m(i, j)` sets that entry and leaves every other entry alone |
| Matrix3D.SetColFrame | QuaternionSlerp/QuaternionSlerp/Matrix3D.cpp:49-52 | a write through `m[j]` replaces column j and leaves the other columns alone |
| Matrix3D.EqualIsComponentwise | QuaternionSlerp/QuaternionSlerp/Matrix3D.cpp:111-119 | `==` holds exactly when the matrices are equal; `!=` exactly when they differ |
| Matrix3D.ArithmeticLaws | QuaternionSlerp/QuaternionSlerp/Matrix3D.cpp:64-92 | subtracting r undoes adding r, l - l is zero, negation is an involution, m * s equals s * m, and scaling by s undoes division by s |
| Matrix3D.MulEntries | QuaternionSlerp/QuaternionSlerp/Matrix3D.cpp:94-99 | entry (i, j) of l * r is row i of l dotted with column j of r |
| Matrix3D.MulColumns | QuaternionSlerp/QuaternionSlerp/Matrix3D.cpp:94-99 | column j of l * r is l applied to column j of r |
| Matrix3D.MulApply | QuaternionSlerp/QuaternionSlerp/Matrix3D.cpp:94-104 | applying l * r is applying r, then l |
| Matrix3D.MulScaled | QuaternionSlerp/QuaternionSlerp/Matrix3D.cpp:94-99 | (s l)(t r) is (s t)(l r) |
| Matrix3D.ScaleComposes | QuaternionSlerp/QuaternionSlerp/Matrix3D.cpp:69-72 | scaling by t and then by s is scaling by s t |
| Matrix3D.IdentityNeutral | QuaternionSlerp/QuaternionSlerp/Matrix3D.cpp:23-28 | the default matrix is the identity: neutral for products on both sides and for m * v |
| Matrix3D.ApplyIsRowDots | QuaternionSlerp/QuaternionSlerp/Matrix3D.cpp:101-104 | m * v, a combination of the columns, dots each row of m with v |
| Matrix3D.ApplyLinear | QuaternionSlerp/QuaternionSlerp/Matrix3D.cpp:101-104 | m * v is additive and homogeneous in v |
| Matrix3D.ApplyMatrixLinear | QuaternionSlerp/QuaternionSlerp/Matrix3D.cpp:101-104 | applying a sum, a negation or a multiple of matrices is the sum, negation or multiple of the applications |
| Matrix3D.ApplyRowIsTransposeApply | QuaternionSlerp/QuaternionSlerp/Matrix3D.cpp:106-109 | v * m is the transpose of m applied to v |
| Matrix3D.TransposeInvolution | QuaternionSlerp/QuaternionSlerp/Matrix3D.cpp:181-184 | entry (i, j) of the transpose is entry (j, i) of m, and transposing twice gives m back |
| Matrix3D.DeterminantIsTriple | QuaternionSlerp/QuaternionSlerp/Matrix3D.cpp:121-125 | the determinant is the scalar triple product of the columns, the denominator of the closed-form inverse |
| Matrix3D.Laplace | QuaternionSlerp/QuaternionSlerp/Matrix3D.cpp:121-125 | the determinant is the cofactor expansion along row 0 and along column 0 |
| Matrix3D.CofactorsRow0 | QuaternionSlerp/QuaternionSlerp/Matrix3D.cpp:164-167 | the cofactors in row 0 are the x components of c1 x c2, c2 x c0 and c0 x c1 |
| Matrix3D.CofactorsRow1 | QuaternionSlerp/QuaternionSlerp/Matrix3D.cpp:164-167 | the cofactors in row 1 are the y components of the cyclic cross products of the columns |
| Matrix3D.CofactorsRow2 | QuaternionSlerp/QuaternionSlerp/Matrix3D.cpp:164-167 | the cofactors in row 2 are the z components of the cyclic cross products of the columns |
| Matrix3D.AdjugateRows | QuaternionSlerp/QuaternionSlerp/Matrix3D.cpp:176-179 | the rows of the adjugate are c1 x c2, c2 x c0 and c0 x c1, which are the rows the closed-form inverse builds |
| Matrix3D.AdjugateLeftProduct | QuaternionSlerp/QuaternionSlerp/Matrix3D.cpp:176-179 | the adjugate times m is det(m) times the identity |
| Matrix3D.AdjugateRightProduct | QuaternionSlerp/QuaternionSlerp/Matrix3D.cpp:176-179 | m times the adjugate is det(m) times the identity |
| Matrix3D.InverseIsScaledAdjugate | QuaternionSlerp/QuaternionSlerp/Matrix3D.cpp:127-142 | for det(m) != 0 the closed-form inverse is the adjugate divided by the determinant |
| Matrix3D.InversesAgree | QuaternionSlerp/QuaternionSlerp/Matrix3D.cpp:144-147 | for det(m) != 0 the two inverse algorithms agree, and the adjugate is det(m) times the inverse |
| Matrix3D.InverseTwoSided | QuaternionSlerp/QuaternionSlerp/Matrix3D.cpp:127-142 | for det(m) != 0 the closed-form inverse is a left and a right inverse |
| Matrix3D.OuterApply | QuaternionSlerp/QuaternionSlerp/Matrix3D.cpp:186-191 | Outer(a, b) applied to c is a scaled by b . c |
| Matrix3D.OuterColumns | QuaternionSlerp/QuaternionSlerp/Matrix3D.cpp:186-191 | the columns of Outer(a, b) are a scaled by the components of b |
| Matrix3D.OuterSquare | QuaternionSlerp/QuaternionSlerp/Matrix3D.cpp:186-191 | Outer(b, b) squared is Outer(b, b) scaled by the squared length of b |
| Matrix3D.ProjectionApplies | QuaternionSlerp/QuaternionSlerp/Matrix3D.cpp:193-196 | for b != 0, the projection matrix maps a to Project(a, b) |
| Matrix3D.RejectionApplies | QuaternionSlerp/QuaternionSlerp/Matrix3D.cpp:198-201 | for b != 0, the rejection matrix maps a to Reject(a, b) |
| Matrix3D.RejectionAnnihilatesAxis | QuaternionSlerp/QuaternionSlerp/Matrix3D.cpp:198-201 | the rejection matrix sends b to zero |
| Matrix3D.ProjectionIdempotent | QuaternionSlerp/QuaternionSlerp/Matrix3D.cpp:193-196 | the projection matrix squared is itself |
| Matrix3D.AxisRotationsOrthogonal | QuaternionSlerp/QuaternionSlerp/Matrix3D.cpp:203-231 | the rotations about x, y and z are orthogonal with determinant one |
| Matrix3D.CrossMatApply | QuaternionSlerp/QuaternionSlerp/Matrix3D.cpp:243-248 | the cross-product matrix of a applied to b is a x b |
| Matrix3D.RodriguesApply | QuaternionSlerp/QuaternionSlerp/Matrix3D.cpp:233-241 | the axis-angle matrix applied to v is Rodrigues' formula c v + (1 - c)(u . v) u + s (u x v) |
| Matrix3D.RotationFixesAxis | QuaternionSlerp/QuaternionSlerp/Matrix3D.cpp:233-241 | the rotation about a non-zero axis v leaves v where it is |
| Matrix3D.RotationAboutAxes | QuaternionSlerp/QuaternionSlerp/Matrix3D.cpp:233-241 | about the three coordinate axes, the axis-angle rotation is the matching axis rotation |
| Matrix3D.RotationOrthogonal | QuaternionSlerp/QuaternionSlerp/Matrix3D.cpp:233-241 | for a non-zero axis, the axis-angle matrix is orthogonal (its transpose is its inverse) and has determinant one |
| Matrix3D.NormalizedAxis | QuaternionSlerp/QuaternionSlerp/Matrix3D.cpp:235 | a non-zero axis times the inverse of its magnitude is a unit vector |
| Matrix3D.RodriguesIsRotation | QuaternionSlerp/QuaternionSlerp/Matrix3D.cpp:239-240 | c I + (1 - c) u u^T + s [u]x with c^2 + s^2 = 1 and a unit u is orthogonal with determinant one |
| Matrix3D.RodriguesPreservesLength | QuaternionSlerp/QuaternionSlerp/Matrix3D.cpp:239-240 | under the same conditions Rodrigues' matrix preserves the squared length of every vector |
| Matrix3D.RodriguesOrthogonal | QuaternionSlerp/QuaternionSlerp/Matrix3D.cpp:239-240 | under the same conditions Rodrigues' matrix times its transpose on the left is the identity |
| Matrix3D.IsometryIsOrthogonal | QuaternionSlerp/QuaternionSlerp/Matrix3D.cpp:94-104 | a matrix that preserves the squared length of every vector has orthonormal columns: its transpose times it is the identity |
| Matrix3D.RodriguesEntries | QuaternionSlerp/QuaternionSlerp/Matrix3D.cpp:239-240 | the nine entries of Rodrigues' matrix: c + (1 - c) u_i^2 on the diagonal and (1 - c) u_i u_j plus or minus s u_k off it |
| Matrix3D.RodriguesRightHanded | QuaternionSlerp/QuaternionSlerp/Matrix3D.cpp:239-240 | under the same conditions the first column of Rodrigues' matrix is the cross product of the other two |
| Matrix3D.RodriguesDeterminant | QuaternionSlerp/QuaternionSlerp/Matrix3D.cpp:239-240 | under the same conditions the determinant of Rodrigues' matrix is one |
| Matrix3D.RightHandedDeterminant | QuaternionSlerp/QuaternionSlerp/Matrix3D.cpp:121-125 | an orthogonal matrix whose first column is the cross product of the other two has determinant one |
| Matrix4D.Inverse | QuaternionSlerp/QuaternionSlerp/Matrix4D.cpp:148-180 | for det(m) != 0 the block computation, with s, t, u, v rescaled in place, yields InverseAdj(m), and it is a left inverse of m |
| Matrix4D.InverseOfBlockRows | QuaternionSlerp/QuaternionSlerp/Matrix4D.cpp:165-179 | the rows built from the rescaled block vectors are the adjugate over the determinant, and they invert m from the left |
| Matrix4D.AdjugateIsBlock | QuaternionSlerp/QuaternionSlerp/Matrix4D.cpp:171-179 | the block row formulas, before scaling, compute the adjugate (the transposed cofactor matrix) |
| Matrix4D.BlockInverseLeft | QuaternionSlerp/QuaternionSlerp/Matrix4D.cpp:171-179 | the unscaled block rows times m are det(m) times the identity |
| Matrix4D.DeterminantExpanded | QuaternionSlerp/QuaternionSlerp/Matrix4D.cpp:128-146 | the block determinant s . v + t . u is the 24-term Leibniz sum over permutations |
| Matrix4D.LaplaceRow0 | QuaternionSlerp/QuaternionSlerp/Matrix4D.cpp:128-146 | the block determinant is the cofactor expansion along row 0 |
| Matrix4D.AdjugateEntries | QuaternionSlerp/QuaternionSlerp/Matrix4D.cpp:209-220 | column k of the adjugate holds the cofactors of row k |
| Matrix4D.Minor | QuaternionSlerp/QuaternionSlerp/Matrix4D.cpp:187-202 | the loop builds MinorOf(m, i, j), the matrix with row i and column j deleted (see MinorDeletes) |
| Matrix4D.SkipVisitsOthers | QuaternionSlerp/QuaternionSlerp/Matrix4D.cpp:191-197 | the counters of the minor loop read three distinct indices in increasing order, never the deleted one, and every other index is read |
| Matrix4D.MinorDeletes | QuaternionSlerp/QuaternionSlerp/Matrix4D.cpp:187-202 | entry (k, l) of the minor is the entry of m at the k-th row other than i and the l-th column other than j |
| Matrix4D.MinorsRow0 | QuaternionSlerp/QuaternionSlerp/Matrix4D.cpp:187-202 | the minors deleting row 0 keep rows 1, 2, 3 in order, without the deleted column |
| Matrix4D.MinorsRow1 | QuaternionSlerp/QuaternionSlerp/Matrix4D.cpp:187-202 | the minors deleting row 1 keep rows 0, 2, 3 in order, without the deleted column |
| Matrix4D.MinorsRow2 | QuaternionSlerp/QuaternionSlerp/Matrix4D.cpp:187-202 | the minors deleting row 2 keep rows 0, 1, 3 in order, without the deleted column |
| Matrix4D.MinorsRow3 | QuaternionSlerp/QuaternionSlerp/Matrix4D.cpp:187-202 | the minors deleting row 3 keep rows 0, 1, 2 in order, without the deleted column |
| Matrix4D.StorageMapping | QuaternionSlerp/QuaternionSlerp/Matrix4D.cpp:31-48 | the entry constructor puts nij at row i, column j; the column constructor makes its arguments the columns |
| Matrix4D.EntryForms | QuaternionSlerp/QuaternionSlerp/Matrix4D.cpp:60-63 | every matrix is built back from its entries, and row i holds entries (i, 0) to (i, 3) |
| Matrix4D.SetEntryFrame | QuaternionSlerp/QuaternionSlerp/Matrix4D.cpp:50-53 | a write through `m(i, j)` sets that entry and leaves every other entry alone |
| Matrix4D.SetColFrame | QuaternionSlerp/QuaternionSlerp/Matrix4D.cpp:55-58 | a write through `m[j]` replaces column j and leaves the other columns alone |
| Matrix4D.EqualIsComponentwise | QuaternionSlerp/QuaternionSlerp/Matrix4D.cpp:118-126 | `==` holds exactly when the matrices are equal; `!=` exactly when they differ |
| Matrix4D.ArithmeticLaws | QuaternionSlerp/QuaternionSlerp/Matrix4D.cpp:70-98 | subtracting r undoes adding r, l - l is zero, negation is an involution, m * s equals s * m, and scaling by s undoes division by s |
| Matrix4D.ScaleCancel | QuaternionSlerp/QuaternionSlerp/Matrix4D.cpp:85-88 | scaling by s undoes scaling by 1 / s |
| Matrix4D.MulEntries | QuaternionSlerp/QuaternionSlerp/Matrix4D.cpp:100-106 | entry (i, j) of the corrected product is row i of l dotted with column j of r |
| Matrix4D.MulAsWrittenEntries | QuaternionSlerp/QuaternionSlerp/Matrix4D.cpp:100-106 | the product as written differs from the corrected one only in entry (0, 2), which holds entry (2, 0) instead |
| Matrix4D.MulAsWrittenDiffers | QuaternionSlerp/QuaternionSlerp/Matrix4D.cpp:102 | whenever entries (0, 2) and (2, 0) of the true product differ, the product as written is wrong |
| Matrix4D.MulAsWrittenWitness | QuaternionSlerp/QuaternionSlerp/Matrix4D.cpp:102 | the identity times a matrix r with r(2, 0) != r(0, 2) gives r, but the product as written does not |
| Matrix4D.MulColumns | QuaternionSlerp/QuaternionSlerp/Matrix4D.cpp:100-106 | column j of the corrected product is l applied to column j of r |
| Matrix4D.IdentityNeutral | QuaternionSlerp/QuaternionSlerp/Matrix4D.cpp:23-29 | the default matrix is the identity: neutral for products on both sides and for m * v |
| Matrix4D.ApplyIsRowDots | QuaternionSlerp/QuaternionSlerp/Matrix4D.cpp:108-111 | m * v, a combination of the columns, dots each row of m with v |
| Matrix4D.ApplyScaledMatrix | QuaternionSlerp/QuaternionSlerp/Matrix4D.cpp:108-111 | applying s m is scaling the application by s |
| Matrix4D.ApplyMatrixLinear | QuaternionSlerp/QuaternionSlerp/Matrix4D.cpp:108-111 | applying a sum or a negation of matrices is the sum or negation of the applications |
| Matrix4D.ApplyRowIsTransposeApply | QuaternionSlerp/QuaternionSlerp/Matrix4D.cpp:113-116 | v * m is the transpose of m applied to v |
| Matrix4D.TransposeInvolution | QuaternionSlerp/QuaternionSlerp/Matrix4D.cpp:222-225 | entry (i, j) of the transpose is entry (j, i) of m, and transposing twice gives m back |
| Matrix4D.OuterApply | QuaternionSlerp/QuaternionSlerp/Matrix4D.cpp:227-233 | Outer(a, b) applied to c is a scaled by b . c |
| Matrix4D.ProjectionApplies | QuaternionSlerp/QuaternionSlerp/Matrix4D.cpp:235-238 | for b != 0, the projection matrix maps a to Project(a, b) |
| Matrix4D.RejectionApplies | QuaternionSlerp/QuaternionSlerp/Matrix4D.cpp:240-243 | for b != 0, the rejection matrix maps a to Reject(a, b) |
| Matrix4D.AxisProjectedAndRejected | QuaternionSlerp/QuaternionSlerp/Matrix4D.cpp:235-243 | the projection onto b keeps b, and the rejection from b sends b to zero |
| Quaternion.FromVector | QuaternionSlerp/QuaternionSlerp/Quaternion.cpp:13-16 | the scalar part is w and the vector part is v |
| Quaternion.ArithmeticLaws | QuaternionSlerp/QuaternionSlerp/Quaternion.cpp:18-31 | q - q is the default (zero) quaternion, subtracting r undoes adding r, negation is an involution, and q * s equals s * q |
| Quaternion.DivIsScale | QuaternionSlerp/QuaternionSlerp/Quaternion.cpp:73-76 | dividing by s is scaling by 1 / s, and scaling by s undoes it |
| Quaternion.NormLaws | QuaternionSlerp/QuaternionSlerp/Quaternion.cpp:61-65 | the norm is q . q, never negative, and zero exactly for the zero quaternion |
| Quaternion.NormScaled | QuaternionSlerp/QuaternionSlerp/Quaternion.cpp:61-65 | scaling by k multiplies the norm by k^2 |
| Quaternion.NormalizeIsUnit | QuaternionSlerp/QuaternionSlerp/Quaternion.cpp:91-95 | a non-zero quaternion has a positive magnitude whose square is the norm, and its normalization has norm one |
| Quaternion.DotSymmetric | QuaternionSlerp/QuaternionSlerp/Quaternion.cpp:109-114 | the dot product is symmetric |
| Quaternion.ConjugateLaws | QuaternionSlerp/QuaternionSlerp/Quaternion.cpp:97-101 | the corrected conjugate negates the vector part only, is an involution, keeps the norm, and q plus its conjugate is twice the scalar part |
| Quaternion.ConjugateAsWrittenAgrees | QuaternionSlerp/QuaternionSlerp/Quaternion.cpp:100 | the conjugate as written agrees with the conjugate exactly when y == z |
| Quaternion.ConjugateAsWrittenTwice | QuaternionSlerp/QuaternionSlerp/Quaternion.cpp:100 | conjugating twice as written gives q back exactly when y == z |
| Quaternion.MulAsWrittenAgrees | QuaternionSlerp/QuaternionSlerp/Quaternion.cpp:41-49 | the product as written equals the Hamilton product exactly when q.y r.z == q.z r.y, q.z r.x == q.x r.z and q.x r.y == 0 |
| Quaternion.UnitRules | QuaternionSlerp/QuaternionSlerp/Quaternion.cpp:36-40 | the corrected product obeys Hamilton's rules: i^2 = j^2 = k^2 = -1, ij = k, jk = i, ki = j, ji = -k |
| Quaternion.MulOne | QuaternionSlerp/QuaternionSlerp/Quaternion.cpp:41-49 | one is neutral on both sides |
| Quaternion.MulScaled | QuaternionSlerp/QuaternionSlerp/Quaternion.cpp:51-59 | a scalar factor of either operand comes out of the product |
| Quaternion.MulDistributes | QuaternionSlerp/QuaternionSlerp/Quaternion.cpp:41-49 | the product distributes over sums on both sides |
| Quaternion.MulAssociative | QuaternionSlerp/QuaternionSlerp/Quaternion.cpp:41-49 | the corrected product is associative |
| Quaternion.ConjugateOfProduct | QuaternionSlerp/QuaternionSlerp/Quaternion.cpp:97-101 | the conjugate of q r is the conjugate of r times the conjugate of q |
| Quaternion.MulConjugate | QuaternionSlerp/QuaternionSlerp/Quaternion.cpp:97-101 | q times its conjugate, on either side, is the real quaternion Norm(q) |
| Quaternion.NormMultiplicative | QuaternionSlerp/QuaternionSlerp/Quaternion.cpp:61-65 | the norm of a product is the product of the norms (Euler's four-square identity) |
| Quaternion.InverseLaws | QuaternionSlerp/QuaternionSlerp/Quaternion.cpp:103-107 | for a non-zero norm, the conjugate over the norm is a two-sided inverse |
| Quaternion.QuotientLaws | QuaternionSlerp/QuaternionSlerp/Quaternion.cpp:78-89 | the corrected quotient q r^-1 times r gives q back; the quotient as written does not: 1 divided by i, times i, is not 1 |
| Quaternion.QuotientAsWrittenOfUnit | QuaternionSlerp/QuaternionSlerp/Quaternion.cpp:82-89 | for a unit r, 1 divided by r as written, with the code's own product, is r itself rather than its inverse |
| Quaternion.MulAsWrittenOne | QuaternionSlerp/QuaternionSlerp/Quaternion.cpp:41-49 | one is a left unit of the product as written |
| Quaternion.QuotientAsWrittenWitness | QuaternionSlerp/QuaternionSlerp/Quaternion.cpp:82-89 | the quotient as written, built on the code's own product, undoes multiplication by r exactly when that product q r, multiplied by r, is Norm(r) q; this fails for q = 1 and r = i |
| Quaternion.RotationMatrixAsWrittenTransposed | QuaternionSlerp/QuaternionSlerp/Quaternion.cpp:184-201 | the matrix as written is the transpose of the rotation matrix, i.e. the matrix of the conjugate, so it rotates the opposite way |
| Quaternion.RotationMatrixAsWrittenIsRotation | QuaternionSlerp/QuaternionSlerp/Quaternion.cpp:184-201 | for a unit q, the matrix as written is still orthogonal with determinant one: a proper rotation, the one of the conjugate, turning the wrong way |
| Quaternion.RotationMatrixAsWrittenAgrees | QuaternionSlerp/QuaternionSlerp/Quaternion.cpp:188-196 | the matrix as written equals the rotation matrix exactly when w x = w y = w z = 0 |
| Quaternion.RotationMatrixAsWrittenWitness | QuaternionSlerp/QuaternionSlerp/Quaternion.cpp:203-209 | for the unit quaternion (1/2, 1/2, 1/2, 1/2) the rotation matrix sends the x axis to the y axis, as q v q* does, but the code's matrix sends it to the z axis |
| Quaternion.SandwichMatrix | QuaternionSlerp/QuaternionSlerp/Quaternion.cpp:184-201 | for every q, the homogeneous form of the matrix applied to v is the vector part of q v q* |
| Quaternion.RotateIsSandwich | QuaternionSlerp/QuaternionSlerp/Quaternion.cpp:203-209 | for a unit q, rotating v with the corrected rotation matrix is q v q* |
| Quaternion.RotationPreservesLength | QuaternionSlerp/QuaternionSlerp/Quaternion.cpp:203-209 | for a unit q, the rotated vector has the squared length of v |
| Quaternion.RotationMatrixOrthogonal | QuaternionSlerp/QuaternionSlerp/Quaternion.cpp:184-209 | for a unit q, the corrected rotation matrix is orthogonal: its transpose times it is the identity |
| Quaternion.RotationMatrixDeterminant | QuaternionSlerp/QuaternionSlerp/Quaternion.cpp:184-209 | for a unit q, the corrected rotation matrix has determinant one, so it is a proper rotation |
| Quaternion.RotationRightHanded | QuaternionSlerp/QuaternionSlerp/Quaternion.cpp:184-209 | for a unit q, the first column of the rotation matrix is the cross product of the other two |
| Quaternion.RotationFixesAxis | QuaternionSlerp/QuaternionSlerp/Quaternion.cpp:184-209 | the vector part of q, its axis, is left where it is |
| Quaternion.RotationOfOne | QuaternionSlerp/QuaternionSlerp/Quaternion.cpp:184-201 | the quaternion one gives the identity matrix |
| Quaternion.RealRotationIsIdentity | QuaternionSlerp/QuaternionSlerp/Quaternion.cpp:184-201 | a quaternion with no vector part gives the identity matrix |
| Quaternion.RotationIsUnit | QuaternionSlerp/QuaternionSlerp/Quaternion.cpp:127-134 | for a non-zero axis, the axis-angle quaternion has norm one |
| Quaternion.RotationByZero | QuaternionSlerp/QuaternionSlerp/Quaternion.cpp:127-134 | the rotation by angle zero is the quaternion one |
| Quaternion.RotationAboutAxis | QuaternionSlerp/QuaternionSlerp/Quaternion.cpp:127-134 | rotating the axis v by the quaternion built from v leaves v where it is |
| Quaternion.CauchySchwarz | QuaternionSlerp/QuaternionSlerp/Quaternion.cpp:109-114 | (q . r)^2 is at most Norm(q) Norm(r) |
| Quaternion.AngleBetweenCosine | QuaternionSlerp/QuaternionSlerp/Quaternion.cpp:116-125 | for non-zero q and r the ratio passed to acos lies in [-1, 1], and the cosine of the angle is that ratio |
| Quaternion.AngleBetweenSymmetric | QuaternionSlerp/QuaternionSlerp/Quaternion.cpp:116-125 | the angle between q and r is the angle between r and q |
| Quaternion.AngleBetweenSelf | QuaternionSlerp/QuaternionSlerp/Quaternion.cpp:116-125 | the angle between a non-zero q and itself is acos(1) |
| Quaternion.Slerp | QuaternionSlerp/QuaternionSlerp/Quaternion.cpp:136-182 | the component assignments on the three paths build SlerpValue(a, b, t) |
| Quaternion.SlerpParallel | QuaternionSlerp/QuaternionSlerp/Quaternion.cpp:146-154 | when the absolute value of a . b is at least 1, Slerp returns a |
| Quaternion.SqrtBelow | QuaternionSlerp/QuaternionSlerp/Quaternion.cpp:158-162 | the root is below 0.001 exactly when its argument is below 0.000001 |
| Quaternion.SlerpOpposite | QuaternionSlerp/QuaternionSlerp/Quaternion.cpp:162-170 | when the absolute value of a . b is below 1 but (a . b)^2 exceeds 0.999999, Slerp returns the average of a and b |
| Quaternion.SlerpGeneral | QuaternionSlerp/QuaternionSlerp/Quaternion.cpp:172-181 | otherwise sin(acos(a . b)) is non-zero and Slerp is sin((1 - t) h) / sin h * a + sin(t h) / sin h * b with h = acos(a . b) |
| Quaternion.CombineIsLinear | QuaternionSlerp/QuaternionSlerp/Quaternion.cpp:176-181 | the componentwise weighted sum is the sum of the scaled quaternions |
| Quaternion.SlerpEndpoints | QuaternionSlerp/QuaternionSlerp/Quaternion.cpp:136-182 | on the general path, Slerp at t = 0 is a and at t = 1 is b |
| Quaternion.SlerpSymmetric | QuaternionSlerp/QuaternionSlerp/Quaternion.cpp:136-182 | off the first path, Slerp from a to b at t equals Slerp from b to a at 1 - t |

## Left out

- The fast inverse square root `MagFastInv` (Vector2D.cpp:103-106, Vector3D.cpp:110-113, Vector4D.cpp:113-116) is left out. It reinterprets the bits of a float as an integer, which real arithmetic cannot express.
- The `operator<<` printers of every type are left out: they only do output.
- `helpers.cpp` (random numbers) and the demo program `main.cpp` are not part of this model.
- Floating-point effects are not modelled: rounding, infinities and NaN from a division by zero, and the `float`/`double` mix in `Slerp`.
  - Divisions by a possibly zero value carry a `requires` that the divisor is non-zero. The code would return inf or NaN there.
- `sin`, `cos`, `acos` and `sqrt` are not defined in the model. They are the `MathLib` parameter, and only the identities in `MathLib.Laws` are assumed of them.
- `abs(cosHalfTheta)` in `Slerp` is modelled as the real absolute value. This assumes the `double` overload from `<cmath>`; the C `int` overload would truncate first.
- Aliasing through the references that `operator()`, `operator[]` and the `reinterpret_cast` to `Vector3D` return is not modelled. Each write is a new value (`SetEntry`, `SetCol`), and reading the first three components of a 4D column is `Matrix4D.Head`.
- Quaternion.InverseLaws: proved for the model's `Inverse`, which uses the corrected conjugate. The code's `Inverse` (Quaternion.cpp:103-107) calls the faulty `Conjugate`, so it fails exactly where `ConjugateAsWritten` does.
- Matrix4D.Inverse: only the left-inverse equation `Inverse(m) * m == I` is stated. The right-inverse equation follows mathematically but is not proved for 4x4 matrices; for 2x2 and 3x3 both sides are proved.
- Quaternion.Slerp: the model does not prove that the result of a unit-norm interpolation has norm one.

## Findings

| source | as written | input that shows it | evidently intended | confidence | as-written member | corrected member |
|---|---|---|---|---|---|---|
| QuaternionSlerp/QuaternionSlerp/Matrix4D.cpp:102 | entry (0, 2) of the product is `Dot(l.row(2), r.col(0))` | the identity times any r with r(2, 0) != r(0, 2), e.g. the matrix whose only non-zero entry is a one at (2, 0) | `Dot(l.row(0), r.col(2))`, row 0 of l with column 2 of r | high (not executed) | Matrix4D.MulAsWrittenWitness | Matrix4D.MulEntries |
| QuaternionSlerp/QuaternionSlerp/Quaternion.cpp:44-46 | the x and y components take the cross product in the wrong order (r x q instead of q x r), and z has the wrong sign on `q.x*r.y` only, against the formula in the comment at lines 36-40 | i times j gives -k instead of k | the Hamilton product of the comment, obeying ij = k | high (not executed) | Quaternion.MulAsWrittenAgrees | Quaternion.MulAssociative |
| QuaternionSlerp/QuaternionSlerp/Quaternion.cpp:100 | the conjugate's z component is `-q.y` | the unit k: conjugating it twice gives zero instead of k | `-q.z`, negating the whole vector part | high (not executed) | Quaternion.ConjugateAsWrittenTwice | Quaternion.ConjugateLaws |
| QuaternionSlerp/QuaternionSlerp/Quaternion.cpp:188-196 | the entries are listed in transposed order, so the matrix is that of the conjugate: still a proper rotation, but one that turns the opposite way | q = (1/2, 1/2, 1/2, 1/2), the 120 degree turn about (1, 1, 1), sends the x axis to the z axis instead of the y axis | the matrix of v to q v q* | high (not executed) | Quaternion.RotationMatrixAsWrittenWitness | Quaternion.RotateIsSandwich |
| QuaternionSlerp/QuaternionSlerp/Quaternion.cpp:82-89 | `q / r` is the code's product q r scaled by 1 / Norm(r), which does not undo multiplication by r | q = 1, r = i: the quotient is i, and i times i is -1, not 1 | q times the inverse of r, so that (q / r) r == q | medium (not executed) | Quaternion.QuotientAsWrittenWitness | Quaternion.QuotientLaws |
