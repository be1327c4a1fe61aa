/** Quaternions (Quaternion.cpp): w + x i + y j + z k, a plain value with four
    public components. Every operation but Slerp is a closed-form expression;
    Slerp is a method that builds its result by assigning the components one
    by one on one of three paths. */
module Quaternion {
  import opened MathLib
  import V3 = Vector3D
  import M3 = Matrix3D

  datatype Quat = Quat(w: real, x: real, y: real, z: real)

  /** The default constructor: all four components zero. */
  function Zero(): Quat { Quat(0.0, 0.0, 0.0, 0.0) }

  /** The multiplicative unit 1 + 0i + 0j + 0k. */
  function One(): Quat { Quat(1.0, 0.0, 0.0, 0.0) }

  /** The imaginary part x i + y j + z k, read as a 3D vector. */
  function Vector(q: Quat): V3.Vec3 { V3.Vec3(q.x, q.y, q.z) }

  /** The constructor taking a scalar part and a 3D vector part. */
  function FromVector(w: real, v: V3.Vec3): (r: Quat)
    ensures r.w == w && Vector(r) == v
  {
    Quat(w, v.x, v.y, v.z)
  }

  function Add(q: Quat, r: Quat): Quat { Quat(q.w + r.w, q.x + r.x, q.y + r.y, q.z + r.z) }

  function Neg(q: Quat): Quat { Quat(-q.w, -q.x, -q.y, -q.z) }

  /** `q - r` is `q + (-r)`. */
  function Sub(q: Quat, r: Quat): Quat { Add(q, Neg(r)) }

  /** The product as the code computes it. Its w component is the Hamilton
      one; x and y take the cross product in the wrong order (r x q instead
      of q x r), and z has the wrong sign on `q.x*r.y` only. */
  function MulAsWritten(q: Quat, r: Quat): Quat {
    Quat(ProductW(q.w, q.x, q.y, q.z, r.w, r.x, r.y, r.z), WrittenX(q.w, q.x, q.y, q.z, r.w, r.x, r.y, r.z), WrittenY(q.w, q.x, q.y, q.z, r.w, r.x, r.y, r.z), WrittenZ(q.w, q.x, q.y, q.z, r.w, r.x, r.y, r.z))
  }

  function WrittenX(qw: real, qx: real, qy: real, qz: real, rw: real, rx: real, ry: real, rz: real): real { qw * rx + qx * rw - qy * rz + qz * ry }
  function WrittenY(qw: real, qx: real, qy: real, qz: real, rw: real, rx: real, ry: real, rz: real): real { qw * ry + qx * rz + qy * rw - qz * rx }
  function WrittenZ(qw: real, qx: real, qy: real, qz: real, rw: real, rx: real, ry: real, rz: real): real { qw * rz - qx * ry - qy * rx + qz * rw }

  /** The Hamilton product, as the expansion in the comment above the code
      gives it: (sa + a)(sb + b) = (sa sb - a . b) + (sa b + sb a + a x b).
      Each component is a polynomial in the eight components of the factors. */
  function Mul(q: Quat, r: Quat): Quat {
    Quat(ProductW(q.w, q.x, q.y, q.z, r.w, r.x, r.y, r.z),
         ProductX(q.w, q.x, q.y, q.z, r.w, r.x, r.y, r.z),
         ProductY(q.w, q.x, q.y, q.z, r.w, r.x, r.y, r.z),
         ProductZ(q.w, q.x, q.y, q.z, r.w, r.x, r.y, r.z))
  }

  function ProductW(qw: real, qx: real, qy: real, qz: real, rw: real, rx: real, ry: real, rz: real): real {
    qw * rw - qx * rx - qy * ry - qz * rz
  }

  function ProductX(qw: real, qx: real, qy: real, qz: real, rw: real, rx: real, ry: real, rz: real): real {
    qw * rx + rw * qx + qy * rz - ry * qz
  }

  function ProductY(qw: real, qx: real, qy: real, qz: real, rw: real, rx: real, ry: real, rz: real): real {
    qw * ry + rw * qy + qz * rx - rz * qx
  }

  function ProductZ(qw: real, qx: real, qy: real, qz: real, rw: real, rx: real, ry: real, rz: real): real {
    qw * rz + rw * qz + qx * ry - rx * qy
  }

  /** `s * q`. */
  function Scale(s: real, q: Quat): Quat { Quat(s * q.w, s * q.x, s * q.y, s * q.z) }

  /** `q * s`, defined as `s * q`. */
  function ScaleRight(q: Quat, s: real): Quat { Scale(s, q) }

  /** The sum of the squares of the four components. */
  function Norm(q: Quat): real { q.w * q.w + q.x * q.x + q.y * q.y + q.z * q.z }

  /** The square root of the norm. */
  function Magnitude(lib: MathLib, q: Quat): real { lib.sqrt(Norm(q)) }

  /** `q / s`: every component divided by s. */
  function Div(q: Quat, s: real): Quat
    requires s != 0.0
  {
    Quat(q.w / s, q.x / s, q.y / s, q.z / s)
  }

  /** `q / r` as the code computes it: the code's own product q r (not the
      Hamilton one) divided by the norm of r. */
  function QuotientAsWritten(q: Quat, r: Quat): Quat
    requires Norm(r) != 0.0
  {
    Div(MulAsWritten(q, r), Norm(r))
  }

  /** The quotient that undoes multiplication by r: q times the inverse of r. */
  function Quotient(q: Quat, r: Quat): Quat
    requires Norm(r) != 0.0
  {
    Mul(q, Inverse(r))
  }

  /** q divided by its magnitude. */
  function Normalize(lib: MathLib, q: Quat): Quat
    requires Magnitude(lib, q) != 0.0
  {
    Div(q, Magnitude(lib, q))
  }

  /** The conjugate as the code computes it: the z slot receives `-q.y`. */
  function ConjugateAsWritten(q: Quat): Quat { Quat(q.w, -q.x, -q.y, -q.y) }

  /** The conjugate: the imaginary part negated, w kept. */
  function Conjugate(q: Quat): Quat { Quat(q.w, -q.x, -q.y, -q.z) }

  /** The conjugate divided by the norm. */
  function Inverse(q: Quat): Quat
    requires Norm(q) != 0.0
  {
    Div(Conjugate(q), Norm(q))
  }

  /** The sum of the products of corresponding components. */
  function Dot(q: Quat, r: Quat): real { q.w * r.w + q.x * r.x + q.y * r.y + q.z * r.z }

  /** The dot product over the product of the magnitudes. */
  function CosineBetween(lib: MathLib, q: Quat, r: Quat): real
    requires Magnitude(lib, q) * Magnitude(lib, r) != 0.0
  {
    Dot(q, r) / (Magnitude(lib, q) * Magnitude(lib, r))
  }

  /** The arc cosine of CosineBetween. */
  function AngleBetween(lib: MathLib, q: Quat, r: Quat): real
    requires Magnitude(lib, q) * Magnitude(lib, r) != 0.0
  {
    lib.acos(CosineBetween(lib, q, r))
  }

  /** The rotation by angle a about the axis v: v is normalized, then the
      result is cos(a/2) + sin(a/2) v. */
  function Rotation(lib: MathLib, v: V3.Vec3, a: real): Quat
    requires V3.Magnitude(lib, v) != 0.0
  {
    FromVector(lib.cos(a / 2.0), V3.Scale(lib.sin(a / 2.0), V3.Normalize(lib, v)))
  }

  // ---------------------------------------------------------------------
  // Basic laws

  /** Subtraction adds the negation, negation is an involution, q - q is the
      zero quaternion the default constructor builds, and the two scalar
      products agree. */
  lemma ArithmeticLaws(q: Quat, r: Quat, s: real)
    ensures Sub(q, q) == Zero()
    ensures Sub(Add(q, r), r) == q
    ensures Neg(Neg(q)) == q
    ensures ScaleRight(q, s) == Scale(s, q)
  {}

  /** Dividing by s is scaling by 1 / s, and scaling by s undoes it. */
  lemma DivIsScale(q: Quat, s: real)
    requires s != 0.0
    ensures Div(q, s) == Scale(1.0 / s, q)
    ensures Scale(s, Div(q, s)) == q
  {
    CancelFactor(s, q.w);
    CancelFactor(s, q.x);
    CancelFactor(s, q.y);
    CancelFactor(s, q.z);
  }

  /** The norm is the dot product of q with itself, it is never negative, and
      it is zero only for the zero quaternion. */
  lemma NormLaws(q: Quat)
    ensures Norm(q) == Dot(q, q)
    ensures 0.0 <= Norm(q)
    ensures Norm(q) == 0.0 <==> q == Zero()
  {
    SquareNonNegative(q.w);
    SquareNonNegative(q.x);
    SquareNonNegative(q.y);
    SquareNonNegative(q.z);
    assert Norm(q) == Square(q.w) + Square(q.x) + Square(q.y) + Square(q.z);
    if q.w != 0.0 { SquarePositive(q.w); }
    if q.x != 0.0 { SquarePositive(q.x); }
    if q.y != 0.0 { SquarePositive(q.y); }
    if q.z != 0.0 { SquarePositive(q.z); }
  }

  lemma DotSymmetric(q: Quat, r: Quat)
    ensures Dot(q, r) == Dot(r, q)
  {}

  /** The magnitude is the non-negative square root of the norm; a non-zero
      quaternion has a non-zero magnitude and normalizes to norm one. */
  lemma NormalizeIsUnit(lib: MathLib, q: Quat)
    requires Laws(lib)
    requires q != Zero()
    ensures 0.0 <= Magnitude(lib, q) && Magnitude(lib, q) * Magnitude(lib, q) == Norm(q)
    ensures Magnitude(lib, q) != 0.0
    ensures Norm(Normalize(lib, q)) == 1.0
  {
    NormLaws(q);
    var n := Norm(q);
    var m := Magnitude(lib, q);
    assert m * m == n;
    DivIsScale(q, m);
    var k := 1.0 / m;
    NormScaled(k, q);
    assert k * k * n == (k * m) * (k * m);
  }

  /** Scaling by k multiplies the norm by k squared. */
  lemma NormScaled(k: real, q: Quat)
    ensures Norm(Scale(k, q)) == k * k * Norm(q)
  {}

  /** Conjugation negates the imaginary part only, so it is an involution and
      keeps the norm; q plus its conjugate is twice the scalar part. */
  lemma ConjugateLaws(q: Quat)
    ensures Conjugate(q) == FromVector(q.w, V3.Neg(Vector(q)))
    ensures Conjugate(Conjugate(q)) == q
    ensures Norm(Conjugate(q)) == Norm(q)
    ensures Add(q, Conjugate(q)) == Quat(2.0 * q.w, 0.0, 0.0, 0.0)
  {}

  /** The conjugate as written agrees with the conjugate exactly when the y
      and z components are equal. */
  lemma ConjugateAsWrittenAgrees(q: Quat)
    ensures ConjugateAsWritten(q) == Conjugate(q) <==> q.y == q.z
  {}

  /** Conjugating twice with the conjugate as written gives q back exactly
      when the y and z components are equal; for k it gives zero instead. */
  lemma ConjugateAsWrittenTwice(q: Quat)
    ensures ConjugateAsWritten(ConjugateAsWritten(q)) == q <==> q.y == q.z
  {}

  // ---------------------------------------------------------------------
  // The product

  /** The product as written agrees with the Hamilton product exactly when
      the terms it gets wrong cancel: q.y r.z == q.z r.y, q.z r.x == q.x r.z
      and q.x r.y == 0. For i times j it gives -k instead of k. */
  lemma MulAsWrittenAgrees(q: Quat, r: Quat)
    ensures MulAsWritten(q, r) == Mul(q, r) <==>
      q.y * r.z == q.z * r.y && q.z * r.x == q.x * r.z && q.x * r.y == 0.0
  {
    WrittenComponents(q.w, q.x, q.y, q.z, r.w, r.x, r.y, r.z);
  }

  /** Each component as written matches the Hamilton one exactly when the
      cross terms it gets wrong cancel. */
  lemma WrittenComponents(qw: real, qx: real, qy: real, qz: real, rw: real, rx: real, ry: real, rz: real)
    ensures WrittenX(qw, qx, qy, qz, rw, rx, ry, rz) == ProductX(qw, qx, qy, qz, rw, rx, ry, rz) <==> qy * rz == qz * ry
    ensures WrittenY(qw, qx, qy, qz, rw, rx, ry, rz) == ProductY(qw, qx, qy, qz, rw, rx, ry, rz) <==> qz * rx == qx * rz
    ensures WrittenZ(qw, qx, qy, qz, rw, rx, ry, rz) == ProductZ(qw, qx, qy, qz, rw, rx, ry, rz) <==> qx * ry == 0.0
  {}

  /** Hamilton's rules for the units i, j and k: each squares to -1, and the
      product of two of them in cyclic order is the third, in the other order
      its negation. */
  lemma UnitRules(i: Quat, j: Quat, k: Quat)
    requires i == Quat(0.0, 1.0, 0.0, 0.0) && j == Quat(0.0, 0.0, 1.0, 0.0) && k == Quat(0.0, 0.0, 0.0, 1.0)
    ensures Mul(i, i) == Quat(-1.0, 0.0, 0.0, 0.0)
    ensures Mul(j, j) == Quat(-1.0, 0.0, 0.0, 0.0)
    ensures Mul(k, k) == Quat(-1.0, 0.0, 0.0, 0.0)
    ensures Mul(i, j) == k && Mul(j, k) == i && Mul(k, i) == j
    ensures Mul(j, i) == Quat(0.0, 0.0, 0.0, -1.0)
  {}

  /** One is neutral on both sides. */
  lemma MulOne(q: Quat)
    ensures Mul(One(), q) == q && Mul(q, One()) == q
  {}

  /** Scalars move out of either factor. */
  lemma MulScaled(s: real, q: Quat, r: Quat)
    ensures Mul(Scale(s, q), r) == Scale(s, Mul(q, r))
    ensures Mul(q, Scale(s, r)) == Scale(s, Mul(q, r))
  {
    MulScaledLeft(s, q, r);
    MulScaledRight(s, q, r);
  }

  lemma MulScaledLeft(s: real, q: Quat, r: Quat)
    ensures Mul(Scale(s, q), r) == Scale(s, Mul(q, r))
  {
    ScaledLeftW(s, q, r);
    ScaledLeftX(s, q, r);
    ScaledLeftY(s, q, r);
    ScaledLeftZ(s, q, r);
  }

  lemma MulScaledRight(s: real, q: Quat, r: Quat)
    ensures Mul(q, Scale(s, r)) == Scale(s, Mul(q, r))
  {
    ScaledRightW(s, q, r);
    ScaledRightX(s, q, r);
    ScaledRightY(s, q, r);
    ScaledRightZ(s, q, r);
  }

  // The same, one component at a time.

  lemma ScaledLeftW(s: real, q: Quat, r: Quat)
    ensures Mul(Scale(s, q), r).w == s * Mul(q, r).w
  {
    ProductScaledLeft(s, q.w, q.x, q.y, q.z, r.w, r.x, r.y, r.z);
  }

  lemma ScaledLeftX(s: real, q: Quat, r: Quat)
    ensures Mul(Scale(s, q), r).x == s * Mul(q, r).x
  {
    ProductScaledLeft(s, q.w, q.x, q.y, q.z, r.w, r.x, r.y, r.z);
  }

  lemma ScaledLeftY(s: real, q: Quat, r: Quat)
    ensures Mul(Scale(s, q), r).y == s * Mul(q, r).y
  {
    ProductScaledLeft(s, q.w, q.x, q.y, q.z, r.w, r.x, r.y, r.z);
  }

  lemma ScaledLeftZ(s: real, q: Quat, r: Quat)
    ensures Mul(Scale(s, q), r).z == s * Mul(q, r).z
  {
    ProductScaledLeft(s, q.w, q.x, q.y, q.z, r.w, r.x, r.y, r.z);
  }

  lemma ScaledRightW(s: real, q: Quat, r: Quat)
    ensures Mul(q, Scale(s, r)).w == s * Mul(q, r).w
  {
    ProductScaledRight(s, q.w, q.x, q.y, q.z, r.w, r.x, r.y, r.z);
  }

  lemma ScaledRightX(s: real, q: Quat, r: Quat)
    ensures Mul(q, Scale(s, r)).x == s * Mul(q, r).x
  {
    ProductScaledRight(s, q.w, q.x, q.y, q.z, r.w, r.x, r.y, r.z);
  }

  lemma ScaledRightY(s: real, q: Quat, r: Quat)
    ensures Mul(q, Scale(s, r)).y == s * Mul(q, r).y
  {
    ProductScaledRight(s, q.w, q.x, q.y, q.z, r.w, r.x, r.y, r.z);
  }

  lemma ScaledRightZ(s: real, q: Quat, r: Quat)
    ensures Mul(q, Scale(s, r)).z == s * Mul(q, r).z
  {
    ProductScaledRight(s, q.w, q.x, q.y, q.z, r.w, r.x, r.y, r.z);
  }

  /** Scaling the left factor scales every component of the product. */
  lemma ProductScaledLeft(s: real, qw: real, qx: real, qy: real, qz: real, rw: real, rx: real, ry: real, rz: real)
    ensures ProductW(s * qw, s * qx, s * qy, s * qz, rw, rx, ry, rz) == s * ProductW(qw, qx, qy, qz, rw, rx, ry, rz)
    ensures ProductX(s * qw, s * qx, s * qy, s * qz, rw, rx, ry, rz) == s * ProductX(qw, qx, qy, qz, rw, rx, ry, rz)
    ensures ProductY(s * qw, s * qx, s * qy, s * qz, rw, rx, ry, rz) == s * ProductY(qw, qx, qy, qz, rw, rx, ry, rz)
    ensures ProductZ(s * qw, s * qx, s * qy, s * qz, rw, rx, ry, rz) == s * ProductZ(qw, qx, qy, qz, rw, rx, ry, rz)
  {}

  /** Scaling the right factor scales every component of the product. */
  lemma ProductScaledRight(s: real, qw: real, qx: real, qy: real, qz: real, rw: real, rx: real, ry: real, rz: real)
    ensures ProductW(qw, qx, qy, qz, s * rw, s * rx, s * ry, s * rz) == s * ProductW(qw, qx, qy, qz, rw, rx, ry, rz)
    ensures ProductX(qw, qx, qy, qz, s * rw, s * rx, s * ry, s * rz) == s * ProductX(qw, qx, qy, qz, rw, rx, ry, rz)
    ensures ProductY(qw, qx, qy, qz, s * rw, s * rx, s * ry, s * rz) == s * ProductY(qw, qx, qy, qz, rw, rx, ry, rz)
    ensures ProductZ(qw, qx, qy, qz, s * rw, s * rx, s * ry, s * rz) == s * ProductZ(qw, qx, qy, qz, rw, rx, ry, rz)
  {}

  /** The product distributes over sums. */
  lemma MulDistributes(p: Quat, q: Quat, r: Quat)
    ensures Mul(p, Add(q, r)) == Add(Mul(p, q), Mul(p, r))
    ensures Mul(Add(p, q), r) == Add(Mul(p, r), Mul(q, r))
  {
    MulDistributesLeft(p, q, r);
    MulDistributesRight(p, q, r);
  }

  lemma MulDistributesLeft(p: Quat, q: Quat, r: Quat)
    ensures Mul(p, Add(q, r)) == Add(Mul(p, q), Mul(p, r))
  {}

  lemma MulDistributesRight(p: Quat, q: Quat, r: Quat)
    ensures Mul(Add(p, q), r) == Add(Mul(p, r), Mul(q, r))
  {}

  /** The product is associative. */
  lemma MulAssociative(p: Quat, q: Quat, r: Quat)
    ensures Mul(Mul(p, q), r) == Mul(p, Mul(q, r))
  {
    AssociativeW(p.w, p.x, p.y, p.z, q.w, q.x, q.y, q.z, r.w, r.x, r.y, r.z);
    AssociativeX(p.w, p.x, p.y, p.z, q.w, q.x, q.y, q.z, r.w, r.x, r.y, r.z);
    AssociativeY(p.w, p.x, p.y, p.z, q.w, q.x, q.y, q.z, r.w, r.x, r.y, r.z);
    AssociativeZ(p.w, p.x, p.y, p.z, q.w, q.x, q.y, q.z, r.w, r.x, r.y, r.z);
  }

  // Associativity, component by component, on plain reals.

  lemma AssociativeW(pw: real, px: real, py: real, pz: real, qw: real, qx: real, qy: real, qz: real,
                     rw: real, rx: real, ry: real, rz: real)
    ensures ProductW(ProductW(pw, px, py, pz, qw, qx, qy, qz), ProductX(pw, px, py, pz, qw, qx, qy, qz), ProductY(pw, px, py, pz, qw, qx, qy, qz), ProductZ(pw, px, py, pz, qw, qx, qy, qz), rw, rx, ry, rz)
         == ProductW(pw, px, py, pz, ProductW(qw, qx, qy, qz, rw, rx, ry, rz), ProductX(qw, qx, qy, qz, rw, rx, ry, rz), ProductY(qw, qx, qy, qz, rw, rx, ry, rz), ProductZ(qw, qx, qy, qz, rw, rx, ry, rz))
  {
    Times(ProductW(pw, px, py, pz, qw, qx, qy, qz), pw * qw - px * qx - py * qy - pz * qz, rw);
    Times(ProductX(pw, px, py, pz, qw, qx, qy, qz), pw * qx + qw * px + py * qz - qy * pz, rx);
    Times(ProductY(pw, px, py, pz, qw, qx, qy, qz), pw * qy + qw * py + pz * qx - qz * px, ry);
    Times(ProductZ(pw, px, py, pz, qw, qx, qy, qz), pw * qz + qw * pz + px * qy - qx * py, rz);
    Times(ProductW(qw, qx, qy, qz, rw, rx, ry, rz), qw * rw - qx * rx - qy * ry - qz * rz, pw);
    Times(ProductX(qw, qx, qy, qz, rw, rx, ry, rz), qw * rx + rw * qx + qy * rz - ry * qz, px);
    Times(ProductY(qw, qx, qy, qz, rw, rx, ry, rz), qw * ry + rw * qy + qz * rx - rz * qx, py);
    Times(ProductZ(qw, qx, qy, qz, rw, rx, ry, rz), qw * rz + rw * qz + qx * ry - rx * qy, pz);
    assert (pw * qw - px * qx - py * qy - pz * qz) * rw - (pw * qx + qw * px + py * qz - qy * pz) * rx - (pw * qy + qw * py + pz * qx - qz * px) * ry - (pw * qz + qw * pz + px * qy - qx * py) * rz
        == pw * (qw * rw - qx * rx - qy * ry - qz * rz) - px * (qw * rx + rw * qx + qy * rz - ry * qz) - py * (qw * ry + rw * qy + qz * rx - rz * qx) - pz * (qw * rz + rw * qz + qx * ry - rx * qy);
  }

  lemma AssociativeX(pw: real, px: real, py: real, pz: real, qw: real, qx: real, qy: real, qz: real,
                     rw: real, rx: real, ry: real, rz: real)
    ensures ProductX(ProductW(pw, px, py, pz, qw, qx, qy, qz), ProductX(pw, px, py, pz, qw, qx, qy, qz), ProductY(pw, px, py, pz, qw, qx, qy, qz), ProductZ(pw, px, py, pz, qw, qx, qy, qz), rw, rx, ry, rz)
         == ProductX(pw, px, py, pz, ProductW(qw, qx, qy, qz, rw, rx, ry, rz), ProductX(qw, qx, qy, qz, rw, rx, ry, rz), ProductY(qw, qx, qy, qz, rw, rx, ry, rz), ProductZ(qw, qx, qy, qz, rw, rx, ry, rz))
  {
    Times(ProductW(pw, px, py, pz, qw, qx, qy, qz), pw * qw - px * qx - py * qy - pz * qz, rx);
    Times(ProductX(pw, px, py, pz, qw, qx, qy, qz), pw * qx + qw * px + py * qz - qy * pz, rw);
    Times(ProductY(pw, px, py, pz, qw, qx, qy, qz), pw * qy + qw * py + pz * qx - qz * px, rz);
    Times(ProductZ(pw, px, py, pz, qw, qx, qy, qz), pw * qz + qw * pz + px * qy - qx * py, ry);
    Times(ProductX(qw, qx, qy, qz, rw, rx, ry, rz), qw * rx + rw * qx + qy * rz - ry * qz, pw);
    Times(ProductW(qw, qx, qy, qz, rw, rx, ry, rz), qw * rw - qx * rx - qy * ry - qz * rz, px);
    Times(ProductZ(qw, qx, qy, qz, rw, rx, ry, rz), qw * rz + rw * qz + qx * ry - rx * qy, py);
    Times(ProductY(qw, qx, qy, qz, rw, rx, ry, rz), qw * ry + rw * qy + qz * rx - rz * qx, pz);
    assert (pw * qw - px * qx - py * qy - pz * qz) * rx + rw * (pw * qx + qw * px + py * qz - qy * pz) + (pw * qy + qw * py + pz * qx - qz * px) * rz - ry * (pw * qz + qw * pz + px * qy - qx * py)
        == pw * (qw * rx + rw * qx + qy * rz - ry * qz) + (qw * rw - qx * rx - qy * ry - qz * rz) * px + py * (qw * rz + rw * qz + qx * ry - rx * qy) - (qw * ry + rw * qy + qz * rx - rz * qx) * pz;
  }

  lemma AssociativeY(pw: real, px: real, py: real, pz: real, qw: real, qx: real, qy: real, qz: real,
                     rw: real, rx: real, ry: real, rz: real)
    ensures ProductY(ProductW(pw, px, py, pz, qw, qx, qy, qz), ProductX(pw, px, py, pz, qw, qx, qy, qz), ProductY(pw, px, py, pz, qw, qx, qy, qz), ProductZ(pw, px, py, pz, qw, qx, qy, qz), rw, rx, ry, rz)
         == ProductY(pw, px, py, pz, ProductW(qw, qx, qy, qz, rw, rx, ry, rz), ProductX(qw, qx, qy, qz, rw, rx, ry, rz), ProductY(qw, qx, qy, qz, rw, rx, ry, rz), ProductZ(qw, qx, qy, qz, rw, rx, ry, rz))
  {
    Times(ProductW(pw, px, py, pz, qw, qx, qy, qz), pw * qw - px * qx - py * qy - pz * qz, ry);
    Times(ProductY(pw, px, py, pz, qw, qx, qy, qz), pw * qy + qw * py + pz * qx - qz * px, rw);
    Times(ProductZ(pw, px, py, pz, qw, qx, qy, qz), pw * qz + qw * pz + px * qy - qx * py, rx);
    Times(ProductX(pw, px, py, pz, qw, qx, qy, qz), pw * qx + qw * px + py * qz - qy * pz, rz);
    Times(ProductY(qw, qx, qy, qz, rw, rx, ry, rz), qw * ry + rw * qy + qz * rx - rz * qx, pw);
    Times(ProductW(qw, qx, qy, qz, rw, rx, ry, rz), qw * rw - qx * rx - qy * ry - qz * rz, py);
    Times(ProductX(qw, qx, qy, qz, rw, rx, ry, rz), qw * rx + rw * qx + qy * rz - ry * qz, pz);
    Times(ProductZ(qw, qx, qy, qz, rw, rx, ry, rz), qw * rz + rw * qz + qx * ry - rx * qy, px);
    assert (pw * qw - px * qx - py * qy - pz * qz) * ry + rw * (pw * qy + qw * py + pz * qx - qz * px) + (pw * qz + qw * pz + px * qy - qx * py) * rx - rz * (pw * qx + qw * px + py * qz - qy * pz)
        == pw * (qw * ry + rw * qy + qz * rx - rz * qx) + (qw * rw - qx * rx - qy * ry - qz * rz) * py + pz * (qw * rx + rw * qx + qy * rz - ry * qz) - (qw * rz + rw * qz + qx * ry - rx * qy) * px;
  }

  lemma AssociativeZ(pw: real, px: real, py: real, pz: real, qw: real, qx: real, qy: real, qz: real,
                     rw: real, rx: real, ry: real, rz: real)
    ensures ProductZ(ProductW(pw, px, py, pz, qw, qx, qy, qz), ProductX(pw, px, py, pz, qw, qx, qy, qz), ProductY(pw, px, py, pz, qw, qx, qy, qz), ProductZ(pw, px, py, pz, qw, qx, qy, qz), rw, rx, ry, rz)
         == ProductZ(pw, px, py, pz, ProductW(qw, qx, qy, qz, rw, rx, ry, rz), ProductX(qw, qx, qy, qz, rw, rx, ry, rz), ProductY(qw, qx, qy, qz, rw, rx, ry, rz), ProductZ(qw, qx, qy, qz, rw, rx, ry, rz))
  {
    Times(ProductW(pw, px, py, pz, qw, qx, qy, qz), pw * qw - px * qx - py * qy - pz * qz, rz);
    Times(ProductZ(pw, px, py, pz, qw, qx, qy, qz), pw * qz + qw * pz + px * qy - qx * py, rw);
    Times(ProductX(pw, px, py, pz, qw, qx, qy, qz), pw * qx + qw * px + py * qz - qy * pz, ry);
    Times(ProductY(pw, px, py, pz, qw, qx, qy, qz), pw * qy + qw * py + pz * qx - qz * px, rx);
    Times(ProductZ(qw, qx, qy, qz, rw, rx, ry, rz), qw * rz + rw * qz + qx * ry - rx * qy, pw);
    Times(ProductW(qw, qx, qy, qz, rw, rx, ry, rz), qw * rw - qx * rx - qy * ry - qz * rz, pz);
    Times(ProductY(qw, qx, qy, qz, rw, rx, ry, rz), qw * ry + rw * qy + qz * rx - rz * qx, px);
    Times(ProductX(qw, qx, qy, qz, rw, rx, ry, rz), qw * rx + rw * qx + qy * rz - ry * qz, py);
    assert (pw * qw - px * qx - py * qy - pz * qz) * rz + rw * (pw * qz + qw * pz + px * qy - qx * py) + (pw * qx + qw * px + py * qz - qy * pz) * ry - rx * (pw * qy + qw * py + pz * qx - qz * px)
        == pw * (qw * rz + rw * qz + qx * ry - rx * qy) + (qw * rw - qx * rx - qy * ry - qz * rz) * pz + px * (qw * ry + rw * qy + qz * rx - rz * qx) - (qw * rx + rw * qx + qy * rz - ry * qz) * py;
  }

  /** The conjugate of a product is the product of the conjugates in the
      opposite order. */
  lemma ConjugateOfProduct(q: Quat, r: Quat)
    ensures Conjugate(Mul(q, r)) == Mul(Conjugate(r), Conjugate(q))
  {}

  /** q times its conjugate, on either side, is its norm. */
  lemma MulConjugate(q: Quat)
    ensures Mul(q, Conjugate(q)) == Quat(Norm(q), 0.0, 0.0, 0.0)
    ensures Mul(Conjugate(q), q) == Quat(Norm(q), 0.0, 0.0, 0.0)
  {
    MulConjugateRight(q);
    MulConjugateLeft(q);
  }

  lemma MulConjugateRight(q: Quat)
    ensures Mul(q, Conjugate(q)) == Quat(Norm(q), 0.0, 0.0, 0.0)
  {}

  lemma MulConjugateLeft(q: Quat)
    ensures Mul(Conjugate(q), q) == Quat(Norm(q), 0.0, 0.0, 0.0)
  {}

  /** The norm is multiplicative (Euler's four-square identity). */
  lemma NormMultiplicative(q: Quat, r: Quat)
    ensures Norm(Mul(q, r)) == Norm(q) * Norm(r)
  {
    NormOfProduct(q, r);
    NormTimesNorm(q, r);
    FourSquares(q.w, q.x, q.y, q.z, r.w, r.x, r.y, r.z);
  }

  /** The norm of q r, as the sum of the squares of its components. */
  lemma NormOfProduct(q: Quat, r: Quat)
    ensures Norm(Mul(q, r)) == ProductW(q.w, q.x, q.y, q.z, r.w, r.x, r.y, r.z) * ProductW(q.w, q.x, q.y, q.z, r.w, r.x, r.y, r.z) + ProductX(q.w, q.x, q.y, q.z, r.w, r.x, r.y, r.z) * ProductX(q.w, q.x, q.y, q.z, r.w, r.x, r.y, r.z) + ProductY(q.w, q.x, q.y, q.z, r.w, r.x, r.y, r.z) * ProductY(q.w, q.x, q.y, q.z, r.w, r.x, r.y, r.z) + ProductZ(q.w, q.x, q.y, q.z, r.w, r.x, r.y, r.z) * ProductZ(q.w, q.x, q.y, q.z, r.w, r.x, r.y, r.z)
  {}

  /** The product of the norms, written out. */
  lemma NormTimesNorm(q: Quat, r: Quat)
    ensures Norm(q) * Norm(r) == (q.w * q.w + q.x * q.x + q.y * q.y + q.z * q.z) * (r.w * r.w + r.x * r.x + r.y * r.y + r.z * r.z)
  {}

  /** Euler's four-square identity, in terms of the product's components. */
  lemma FourSquares(qw: real, qx: real, qy: real, qz: real, rw: real, rx: real, ry: real, rz: real)
    ensures ProductW(qw, qx, qy, qz, rw, rx, ry, rz) * ProductW(qw, qx, qy, qz, rw, rx, ry, rz) + ProductX(qw, qx, qy, qz, rw, rx, ry, rz) * ProductX(qw, qx, qy, qz, rw, rx, ry, rz) + ProductY(qw, qx, qy, qz, rw, rx, ry, rz) * ProductY(qw, qx, qy, qz, rw, rx, ry, rz) + ProductZ(qw, qx, qy, qz, rw, rx, ry, rz) * ProductZ(qw, qx, qy, qz, rw, rx, ry, rz) == (qw * qw + qx * qx + qy * qy + qz * qz) * (rw * rw + rx * rx + ry * ry + rz * rz)
  {
    Squares(ProductW(qw, qx, qy, qz, rw, rx, ry, rz), qw * rw - qx * rx - qy * ry - qz * rz);
    Squares(ProductX(qw, qx, qy, qz, rw, rx, ry, rz), qw * rx + rw * qx + qy * rz - ry * qz);
    Squares(ProductY(qw, qx, qy, qz, rw, rx, ry, rz), qw * ry + rw * qy + qz * rx - rz * qx);
    Squares(ProductZ(qw, qx, qy, qz, rw, rx, ry, rz), qw * rz + rw * qz + qx * ry - rx * qy);
    EulerExpanded(qw, qx, qy, qz, rw, rx, ry, rz);
  }

  /** Euler's four-square identity on plain reals. */
  lemma EulerExpanded(qw: real, qx: real, qy: real, qz: real, rw: real, rx: real, ry: real, rz: real)
    ensures (qw * rw - qx * rx - qy * ry - qz * rz) * (qw * rw - qx * rx - qy * ry - qz * rz) + (qw * rx + rw * qx + qy * rz - ry * qz) * (qw * rx + rw * qx + qy * rz - ry * qz) + (qw * ry + rw * qy + qz * rx - rz * qx) * (qw * ry + rw * qy + qz * rx - rz * qx) + (qw * rz + rw * qz + qx * ry - rx * qy) * (qw * rz + rw * qz + qx * ry - rx * qy)
         == (qw * qw + qx * qx + qy * qy + qz * qz) * (rw * rw + rx * rx + ry * ry + rz * rz)
  {}

  /** The inverse undoes multiplication on either side. */
  lemma InverseLaws(q: Quat)
    requires Norm(q) != 0.0
    ensures Mul(Inverse(q), q) == One()
    ensures Mul(q, Inverse(q)) == One()
  {
    var n := Norm(q);
    DivIsScale(Conjugate(q), n);
    MulScaledLeft(1.0 / n, Conjugate(q), q);
    MulScaledRight(1.0 / n, q, Conjugate(q));
    MulConjugate(q);
    ScaleNormUnit(n);
  }

  /** Scaling the real quaternion n by 1 / n gives one. */
  lemma ScaleNormUnit(n: real)
    requires n != 0.0
    ensures Scale(1.0 / n, Quat(n, 0.0, 0.0, 0.0)) == One()
  {}

  /** The quotient undoes multiplication by r; the quotient as written does
      not: 1 divided by i is i, and i times i is -1, not 1. */
  lemma QuotientLaws(q: Quat, r: Quat)
    requires Norm(r) != 0.0
    ensures Mul(Quotient(q, r), r) == q
    ensures Mul(QuotientAsWritten(One(), Quat(0.0, 1.0, 0.0, 0.0)), Quat(0.0, 1.0, 0.0, 0.0)) != One()
  {
    InverseLaws(r);
    MulAssociative(q, Inverse(r), r);
    MulOne(q);
    var i := Quat(0.0, 1.0, 0.0, 0.0);
    assert Norm(i) == 1.0;
    QuotientAsWrittenOfUnit(i);
    assert Mul(i, i).w == -1.0;
  }

  /** For a unit r, 1 divided by r as written is r itself rather than its
      inverse. */
  lemma QuotientAsWrittenOfUnit(r: Quat)
    requires Norm(r) == 1.0
    ensures QuotientAsWritten(One(), r) == r
  {
    MulAsWrittenOne(r);
    DivByOne(r);
  }

  /** Dividing by one changes nothing. */
  lemma DivByOne(q: Quat)
    ensures Div(q, 1.0) == q
  {}

  /** One is a left unit of the product as written too. */
  lemma MulAsWrittenOne(r: Quat)
    ensures MulAsWritten(One(), r) == r
  {}

  /** The quotient as written undoes multiplication by r exactly when the
      code's product q r, multiplied by r, is Norm(r) q; this fails for
      q = 1 and r = i. */
  lemma QuotientAsWrittenWitness(q: Quat, r: Quat)
    requires Norm(r) != 0.0
    ensures Mul(QuotientAsWritten(q, r), r) == q <==> Mul(MulAsWritten(q, r), r) == Scale(Norm(r), q)
  {
    var n := Norm(r);
    DivIsScale(MulAsWritten(q, r), n);
    MulScaledLeft(1.0 / n, MulAsWritten(q, r), r);
    ScaleInverse(n, Mul(MulAsWritten(q, r), r), q);
  }

  /** (1 / n) p == q exactly when p == n q. */
  lemma ScaleInverse(n: real, p: Quat, q: Quat)
    requires n != 0.0
    ensures Scale(1.0 / n, p) == q <==> p == Scale(n, q)
  {
    if Scale(1.0 / n, p) == q {
      DivIsScale(p, n);
    }
    if p == Scale(n, q) {
      CancelFactor(n, q.w);
      CancelFactor(n, q.x);
      CancelFactor(n, q.y);
      CancelFactor(n, q.z);
      assert (1.0 / n) * (n * q.w) == q.w;
      assert (1.0 / n) * (n * q.x) == q.x;
      assert (1.0 / n) * (n * q.y) == q.y;
      assert (1.0 / n) * (n * q.z) == q.z;
    }
  }

  // ---------------------------------------------------------------------
  // The rotation matrix

  /** The matrix of the rotation a unit quaternion w + x i + y j + z k stands
      for, entries given row by row: the matrix M with M v == q v q*. */
  function RotationEntries(w: real, x: real, y: real, z: real): M3.Mat3 {
    M3.FromEntries(1.0 - 2.0 * y * y - 2.0 * z * z, 2.0 * (x * y - w * z), 2.0 * (x * z + w * y),
                   2.0 * (x * y + w * z), 1.0 - 2.0 * x * x - 2.0 * z * z, 2.0 * (y * z - w * x),
                   2.0 * (x * z - w * y), 2.0 * (y * z + w * x), 1.0 - 2.0 * x * x - 2.0 * y * y)
  }

  /** The same matrix before the unit norm is used to simplify the diagonal;
      it equals the matrix of v |-> q v q* for every q. */
  function HomogeneousEntries(w: real, x: real, y: real, z: real): M3.Mat3 {
    M3.FromEntries(w * w + x * x - y * y - z * z, 2.0 * (x * y - w * z), 2.0 * (x * z + w * y),
                   2.0 * (x * y + w * z), w * w - x * x + y * y - z * z, 2.0 * (y * z - w * x),
                   2.0 * (x * z - w * y), 2.0 * (y * z + w * x), w * w - x * x - y * y + z * z)
  }

  /** The entries as the code lists them, which is the transpose. */
  function WrittenEntries(w: real, x: real, y: real, z: real): M3.Mat3 {
    M3.FromEntries(1.0 - 2.0 * y * y - 2.0 * z * z, 2.0 * (x * y + w * z), 2.0 * (x * z - w * y),
                   2.0 * (x * y - w * z), 1.0 - 2.0 * x * x - 2.0 * z * z, 2.0 * (y * z + w * x),
                   2.0 * (x * z + w * y), 2.0 * (y * z - w * x), 1.0 - 2.0 * x * x - 2.0 * y * y)
  }

  /** The rotation matrix as the code builds it. */
  function RotationMatrixAsWritten(q: Quat): M3.Mat3 { WrittenEntries(q.w, q.x, q.y, q.z) }

  /** The rotation matrix of q. */
  function RotationMatrix(q: Quat): M3.Mat3 { RotationEntries(q.w, q.x, q.y, q.z) }

  /** The vector v rotated by q, as the code computes it. */
  function RotateVectorAsWritten(v: V3.Vec3, q: Quat): V3.Vec3 { M3.Apply(RotationMatrixAsWritten(q), v) }

  /** The vector v rotated by q through the rotation matrix. */
  function RotateVector(v: V3.Vec3, q: Quat): V3.Vec3 { M3.Apply(RotationMatrix(q), v) }

  /** The rotation by conjugation: the vector part of q v q*, with v read as
      the pure quaternion 0 + v. */
  function Sandwich(q: Quat, v: V3.Vec3): V3.Vec3 { Vector(Mul(Mul(q, FromVector(0.0, v)), Conjugate(q))) }

  /** The matrix as written is the transpose of the rotation matrix of q, and
      so the rotation matrix of the conjugate: it rotates by the inverse. */
  lemma RotationMatrixAsWrittenTransposed(q: Quat, v: V3.Vec3)
    ensures RotationMatrixAsWritten(q) == M3.Transpose(RotationMatrix(q))
    ensures RotationMatrixAsWritten(q) == RotationMatrix(Conjugate(q))
    ensures RotateVectorAsWritten(v, q) == RotateVector(v, Conjugate(q))
  {
    EntriesTransposed(q.w, q.x, q.y, q.z);
  }

  lemma EntriesTransposed(w: real, x: real, y: real, z: real)
    ensures WrittenEntries(w, x, y, z) == M3.Transpose(RotationEntries(w, x, y, z))
    ensures WrittenEntries(w, x, y, z) == RotationEntries(w, -x, -y, -z)
  {}

  /** Rows of RotationEntries applied to the vector part (x, y, z): each
      gives back the corresponding component. */
  lemma FixRow0(w: real, x: real, y: real, z: real, a0: real, a1: real, a2: real)
    requires a0 == 1.0 - 2.0 * y * y - 2.0 * z * z && a1 == 2.0 * (x * y - w * z) && a2 == 2.0 * (x * z + w * y)
    ensures x * a0 + y * a1 + z * a2 == x
  {}

  lemma FixRow1(w: real, x: real, y: real, z: real, a0: real, a1: real, a2: real)
    requires a0 == 2.0 * (x * y + w * z) && a1 == 1.0 - 2.0 * x * x - 2.0 * z * z && a2 == 2.0 * (y * z - w * x)
    ensures x * a0 + y * a1 + z * a2 == y
  {}

  lemma FixRow2(w: real, x: real, y: real, z: real, a0: real, a1: real, a2: real)
    requires a0 == 2.0 * (x * z - w * y) && a1 == 2.0 * (y * z + w * x) && a2 == 1.0 - 2.0 * x * x - 2.0 * y * y
    ensures x * a0 + y * a1 + z * a2 == z
  {}

  /** Rows of the sandwich q v q*: component i of the product equals row i
      of HomogeneousEntries applied to v. */
  lemma SandwichRow0(w: real, x: real, y: real, z: real, vx: real, vy: real, vz: real, a0: real, a1: real, a2: real)
    requires a0 == w * w + x * x - y * y - z * z && a1 == 2.0 * (x * y - w * z) && a2 == 2.0 * (x * z + w * y)
    ensures ProductX(ProductW(w, x, y, z, 0.0, vx, vy, vz), ProductX(w, x, y, z, 0.0, vx, vy, vz), ProductY(w, x, y, z, 0.0, vx, vy, vz), ProductZ(w, x, y, z, 0.0, vx, vy, vz), w, -x, -y, -z)
         == vx * a0 + vy * a1 + vz * a2
  {}

  lemma SandwichRow1(w: real, x: real, y: real, z: real, vx: real, vy: real, vz: real, a0: real, a1: real, a2: real)
    requires a0 == 2.0 * (x * y + w * z) && a1 == w * w - x * x + y * y - z * z && a2 == 2.0 * (y * z - w * x)
    ensures ProductY(ProductW(w, x, y, z, 0.0, vx, vy, vz), ProductX(w, x, y, z, 0.0, vx, vy, vz), ProductY(w, x, y, z, 0.0, vx, vy, vz), ProductZ(w, x, y, z, 0.0, vx, vy, vz), w, -x, -y, -z)
         == vx * a0 + vy * a1 + vz * a2
  {}

  lemma SandwichRow2(w: real, x: real, y: real, z: real, vx: real, vy: real, vz: real, a0: real, a1: real, a2: real)
    requires a0 == 2.0 * (x * z - w * y) && a1 == 2.0 * (y * z + w * x) && a2 == w * w - x * x - y * y + z * z
    ensures ProductZ(ProductW(w, x, y, z, 0.0, vx, vy, vz), ProductX(w, x, y, z, 0.0, vx, vy, vz), ProductY(w, x, y, z, 0.0, vx, vy, vz), ProductZ(w, x, y, z, 0.0, vx, vy, vz), w, -x, -y, -z)
         == vx * a0 + vy * a1 + vz * a2
  {}

  lemma FixesAxisRealX(w: real, x: real, y: real, z: real)
    ensures M3.Apply(RotationEntries(w, x, y, z), V3.Vec3(x, y, z)).x == x
  {
    FixRow0(w, x, y, z, RotationEntries(w, x, y, z).c0.x, RotationEntries(w, x, y, z).c1.x, RotationEntries(w, x, y, z).c2.x);
  }

  lemma FixesAxisRealY(w: real, x: real, y: real, z: real)
    ensures M3.Apply(RotationEntries(w, x, y, z), V3.Vec3(x, y, z)).y == y
  {
    FixRow1(w, x, y, z, RotationEntries(w, x, y, z).c0.y, RotationEntries(w, x, y, z).c1.y, RotationEntries(w, x, y, z).c2.y);
  }

  lemma FixesAxisRealZ(w: real, x: real, y: real, z: real)
    ensures M3.Apply(RotationEntries(w, x, y, z), V3.Vec3(x, y, z)).z == z
  {
    FixRow2(w, x, y, z, RotationEntries(w, x, y, z).c0.z, RotationEntries(w, x, y, z).c1.z, RotationEntries(w, x, y, z).c2.z);
  }

  lemma SandwichRealX(w: real, x: real, y: real, z: real, v: V3.Vec3)
    ensures ProductX(ProductW(w, x, y, z, 0.0, v.x, v.y, v.z), ProductX(w, x, y, z, 0.0, v.x, v.y, v.z), ProductY(w, x, y, z, 0.0, v.x, v.y, v.z), ProductZ(w, x, y, z, 0.0, v.x, v.y, v.z), w, -x, -y, -z)
         == M3.Apply(HomogeneousEntries(w, x, y, z), v).x
  {
    SandwichRow0(w, x, y, z, v.x, v.y, v.z, HomogeneousEntries(w, x, y, z).c0.x, HomogeneousEntries(w, x, y, z).c1.x, HomogeneousEntries(w, x, y, z).c2.x);
  }

  lemma SandwichRealY(w: real, x: real, y: real, z: real, v: V3.Vec3)
    ensures ProductY(ProductW(w, x, y, z, 0.0, v.x, v.y, v.z), ProductX(w, x, y, z, 0.0, v.x, v.y, v.z), ProductY(w, x, y, z, 0.0, v.x, v.y, v.z), ProductZ(w, x, y, z, 0.0, v.x, v.y, v.z), w, -x, -y, -z)
         == M3.Apply(HomogeneousEntries(w, x, y, z), v).y
  {
    SandwichRow1(w, x, y, z, v.x, v.y, v.z, HomogeneousEntries(w, x, y, z).c0.y, HomogeneousEntries(w, x, y, z).c1.y, HomogeneousEntries(w, x, y, z).c2.y);
  }

  lemma SandwichRealZ(w: real, x: real, y: real, z: real, v: V3.Vec3)
    ensures ProductZ(ProductW(w, x, y, z, 0.0, v.x, v.y, v.z), ProductX(w, x, y, z, 0.0, v.x, v.y, v.z), ProductY(w, x, y, z, 0.0, v.x, v.y, v.z), ProductZ(w, x, y, z, 0.0, v.x, v.y, v.z), w, -x, -y, -z)
         == M3.Apply(HomogeneousEntries(w, x, y, z), v).z
  {
    SandwichRow2(w, x, y, z, v.x, v.y, v.z, HomogeneousEntries(w, x, y, z).c0.z, HomogeneousEntries(w, x, y, z).c1.z, HomogeneousEntries(w, x, y, z).c2.z);
  }

  /** The rotation leaves the vector part of q, its axis, where it is. */
  lemma RotationFixesAxis(q: Quat)
    ensures RotateVector(Vector(q), q) == Vector(q)
  {
    FixesAxisRealX(q.w, q.x, q.y, q.z);
    FixesAxisRealY(q.w, q.x, q.y, q.z);
    FixesAxisRealZ(q.w, q.x, q.y, q.z);
  }

  /** The homogeneous matrix is the matrix of v |-> q v q*, for every q. */
  lemma SandwichMatrix(q: Quat, v: V3.Vec3)
    ensures Sandwich(q, v) == M3.Apply(HomogeneousEntries(q.w, q.x, q.y, q.z), v)
  {
    SandwichRealX(q.w, q.x, q.y, q.z, v);
    SandwichRealY(q.w, q.x, q.y, q.z, v);
    SandwichRealZ(q.w, q.x, q.y, q.z, v);
  }

  /** For a unit quaternion, the two matrices agree. */
  lemma UnitEntries(w: real, x: real, y: real, z: real)
    requires w * w + x * x + y * y + z * z == 1.0
    ensures HomogeneousEntries(w, x, y, z) == RotationEntries(w, x, y, z)
  {}

  /** For a unit quaternion the rotation matrix rotates by conjugation. */
  lemma RotateIsSandwich(q: Quat, v: V3.Vec3)
    requires Norm(q) == 1.0
    ensures RotateVector(v, q) == Sandwich(q, v)
  {
    UnitEntries(q.w, q.x, q.y, q.z);
    SandwichMatrix(q, v);
  }

  /** The unit quaternion rotates to the identity matrix. */
  lemma RotationOfOne()
    ensures RotationMatrix(One()) == M3.Identity()
  {}

  /** The matrix as written equals the rotation matrix exactly when q is real
      or purely imaginary, i.e. when q and its conjugate give the same rotation. */
  lemma RotationMatrixAsWrittenAgrees(q: Quat)
    ensures RotationMatrixAsWritten(q) == RotationMatrix(q) <==> q.w * q.x == 0.0 && q.w * q.y == 0.0 && q.w * q.z == 0.0
  {
    EntriesAgree(q.w, q.x, q.y, q.z);
  }

  lemma EntriesAgree(w: real, x: real, y: real, z: real)
    ensures WrittenEntries(w, x, y, z) == RotationEntries(w, x, y, z) <==> w * x == 0.0 && w * y == 0.0 && w * z == 0.0
  {
    if WrittenEntries(w, x, y, z) == RotationEntries(w, x, y, z) {
      assert WrittenEntries(w, x, y, z).c1.x == RotationEntries(w, x, y, z).c1.x;
      assert WrittenEntries(w, x, y, z).c2.x == RotationEntries(w, x, y, z).c2.x;
      assert WrittenEntries(w, x, y, z).c2.y == RotationEntries(w, x, y, z).c2.y;
    }
  }

  /** Rotating the x axis by 120 degrees about (1, 1, 1): the rotation matrix
      gives the y axis, as q v q* does, while the matrix as written gives the z axis. */
  lemma RotationMatrixAsWrittenWitness()
    ensures Norm(Quat(0.5, 0.5, 0.5, 0.5)) == 1.0
    ensures RotateVector(V3.Vec3(1.0, 0.0, 0.0), Quat(0.5, 0.5, 0.5, 0.5)) == V3.Vec3(0.0, 1.0, 0.0)
    ensures RotateVectorAsWritten(V3.Vec3(1.0, 0.0, 0.0), Quat(0.5, 0.5, 0.5, 0.5)) == V3.Vec3(0.0, 0.0, 1.0)
  {
    RotatesXAxis();
    AsWrittenRotatesXAxis();
  }

  lemma RotatesXAxis()
    ensures RotateVector(V3.Vec3(1.0, 0.0, 0.0), Quat(0.5, 0.5, 0.5, 0.5)) == V3.Vec3(0.0, 1.0, 0.0)
  {}

  lemma AsWrittenRotatesXAxis()
    ensures RotateVectorAsWritten(V3.Vec3(1.0, 0.0, 0.0), Quat(0.5, 0.5, 0.5, 0.5)) == V3.Vec3(0.0, 0.0, 1.0)
  {}

  /** The scalar part of q v q* is zero. */
  lemma SandwichScalarReal(w: real, x: real, y: real, z: real, v: V3.Vec3)
    ensures ProductW(ProductW(w, x, y, z, 0.0, v.x, v.y, v.z), ProductX(w, x, y, z, 0.0, v.x, v.y, v.z), ProductY(w, x, y, z, 0.0, v.x, v.y, v.z), ProductZ(w, x, y, z, 0.0, v.x, v.y, v.z), w, -x, -y, -z) == 0.0
  {}

  /** A unit quaternion rotates without changing lengths. */
  lemma RotationPreservesLength(q: Quat, v: V3.Vec3)
    requires Norm(q) == 1.0
    ensures V3.MagSquared(RotateVector(v, q)) == V3.MagSquared(v)
  {
    RotateIsSandwich(q, v);
    var p := FromVector(0.0, v);
    var m := Mul(q, p);
    var s := Mul(m, Conjugate(q));
    SandwichScalarReal(q.w, q.x, q.y, q.z, v);
    assert s.w == 0.0;
    NormMultiplicative(q, p);
    NormMultiplicative(m, Conjugate(q));
    ConjugateLaws(q);
    assert Norm(s) == Norm(p);
  }

  /** The rotation matrix of a unit quaternion is orthogonal: its transpose
      is its inverse. */
  lemma RotationMatrixOrthogonal(q: Quat)
    requires Norm(q) == 1.0
    ensures M3.Mul(M3.Transpose(RotationMatrix(q)), RotationMatrix(q)) == M3.Identity()
  {
    forall v
      ensures V3.MagSquared(M3.Apply(RotationMatrix(q), v)) == V3.MagSquared(v)
    {
      RotationPreservesLength(q, v);
    }
    M3.IsometryIsOrthogonal(RotationMatrix(q));
  }

  /** For a unit q the rotation matrix has determinant one, so together with
      RotationMatrixOrthogonal it is a proper rotation. */
  /** The matrix as written is still a rotation for a unit q: orthogonal,
      with determinant one. It is the rotation of the conjugate, so it
      turns the opposite way. */
  lemma RotationMatrixAsWrittenIsRotation(q: Quat)
    requires Norm(q) == 1.0
    ensures M3.Mul(M3.Transpose(RotationMatrixAsWritten(q)), RotationMatrixAsWritten(q)) == M3.Identity()
    ensures M3.Determinant(RotationMatrixAsWritten(q)) == 1.0
  {
    EntriesTransposed(q.w, q.x, q.y, q.z);
    assert RotationMatrixAsWritten(q) == RotationMatrix(Conjugate(q));
    ConjugateLaws(q);
    RotationMatrixOrthogonal(Conjugate(q));
    RotationMatrixDeterminant(Conjugate(q));
  }

  lemma RotationMatrixDeterminant(q: Quat)
    requires Norm(q) == 1.0
    ensures M3.Determinant(RotationMatrix(q)) == 1.0
  {
    RotationMatrixOrthogonal(q);
    RotationRightHanded(q);
    M3.RightHandedDeterminant(RotationMatrix(q));
  }

  /** For a unit q the first column of the rotation matrix is the cross
      product of the other two. */
  lemma RotationRightHanded(q: Quat)
    requires Norm(q) == 1.0
    ensures V3.Cross(RotationMatrix(q).c1, RotationMatrix(q).c2) == RotationMatrix(q).c0
  {
    RotationEntriesRightHanded(q.w, q.x, q.y, q.z);
  }

  /** The same fact on the components of q. */
  lemma RotationEntriesRightHanded(w: real, x: real, y: real, z: real)
    requires w * w + x * x + y * y + z * z == 1.0
    ensures V3.Cross(RotationEntries(w, x, y, z).c1, RotationEntries(w, x, y, z).c2) == RotationEntries(w, x, y, z).c0
  {
    var m := RotationEntries(w, x, y, z);
    RotationColumns(w, x, y, z);
    RotationCrossIdentity(w, x, y, z, m.c1, m.c2, m.c0);
  }

  /** The columns of the rotation matrix. */
  lemma RotationColumns(w: real, x: real, y: real, z: real)
    ensures RotationEntries(w, x, y, z).c0 == V3.Vec3(1.0 - 2.0 * y * y - 2.0 * z * z, 2.0 * (x * y + w * z), 2.0 * (x * z - w * y))
    ensures RotationEntries(w, x, y, z).c1 == V3.Vec3(2.0 * (x * y - w * z), 1.0 - 2.0 * x * x - 2.0 * z * z, 2.0 * (y * z + w * x))
    ensures RotationEntries(w, x, y, z).c2 == V3.Vec3(2.0 * (x * z + w * y), 2.0 * (y * z - w * x), 1.0 - 2.0 * x * x - 2.0 * y * y)
  {}

  /** The same identity on columns a, b and e given entry by entry. */
  lemma RotationCrossIdentity(w: real, x: real, y: real, z: real, a: V3.Vec3, b: V3.Vec3, e: V3.Vec3)
    requires w * w + x * x + y * y + z * z == 1.0
    requires a == V3.Vec3(2.0 * (x * y - w * z), 1.0 - 2.0 * x * x - 2.0 * z * z, 2.0 * (y * z + w * x))
    requires b == V3.Vec3(2.0 * (x * z + w * y), 2.0 * (y * z - w * x), 1.0 - 2.0 * x * x - 2.0 * y * y)
    requires e == V3.Vec3(1.0 - 2.0 * y * y - 2.0 * z * z, 2.0 * (x * y + w * z), 2.0 * (x * z - w * y))
    ensures V3.Cross(a, b) == e
  {
    RotationCrossX(w, x, y, z, a, b, e);
    RotationCrossY(w, x, y, z, a, b, e);
    RotationCrossZ(w, x, y, z, a, b, e);
    V3.CrossComponents(a, b, e);
  }

  lemma RotationCrossX(w: real, x: real, y: real, z: real, a: V3.Vec3, b: V3.Vec3, e: V3.Vec3)
    requires w * w + x * x + y * y + z * z == 1.0
    requires a.y == 1.0 - 2.0 * x * x - 2.0 * z * z && b.z == 1.0 - 2.0 * x * x - 2.0 * y * y
    requires a.z == 2.0 * (y * z + w * x) && b.y == 2.0 * (y * z - w * x)
    requires e.x == 1.0 - 2.0 * y * y - 2.0 * z * z
    ensures a.y * b.z - a.z * b.y == e.x
  {
    RotationCofactorX(w, x, y, z, a.y, b.z, a.z, b.y);
  }

  lemma RotationCrossY(w: real, x: real, y: real, z: real, a: V3.Vec3, b: V3.Vec3, e: V3.Vec3)
    requires w * w + x * x + y * y + z * z == 1.0
    requires a.z == 2.0 * (y * z + w * x) && b.x == 2.0 * (x * z + w * y)
    requires a.x == 2.0 * (x * y - w * z) && b.z == 1.0 - 2.0 * x * x - 2.0 * y * y
    requires e.y == 2.0 * (x * y + w * z)
    ensures a.z * b.x - a.x * b.z == e.y
  {
    RotationCofactorY(w, x, y, z, a.z, b.x, a.x, b.z);
  }

  lemma RotationCrossZ(w: real, x: real, y: real, z: real, a: V3.Vec3, b: V3.Vec3, e: V3.Vec3)
    requires w * w + x * x + y * y + z * z == 1.0
    requires a.x == 2.0 * (x * y - w * z) && b.y == 2.0 * (y * z - w * x)
    requires a.y == 1.0 - 2.0 * x * x - 2.0 * z * z && b.x == 2.0 * (x * z + w * y)
    requires e.z == 2.0 * (x * z - w * y)
    ensures a.x * b.y - a.y * b.x == e.z
  {
    RotationCofactorZ(w, x, y, z, a.x, b.y, a.y, b.x);
  }

  // Each component p * q - r * t of that identity is taken in two steps: the
  // entries are substituted, a product at a time, and the resulting
  // polynomial in w, x, y and z is simplified with the unit norm.

  lemma RotationCofactorX(w: real, x: real, y: real, z: real, p: real, q: real, r: real, t: real)
    requires w * w + x * x + y * y + z * z == 1.0
    requires p == 1.0 - 2.0 * x * x - 2.0 * z * z && q == 1.0 - 2.0 * x * x - 2.0 * y * y
    requires r == 2.0 * (y * z + w * x) && t == 2.0 * (y * z - w * x)
    ensures p * q - r * t == 1.0 - 2.0 * y * y - 2.0 * z * z
  {
    RotationProductX1(w, x, y, z, p, q);
    RotationProductX2(w, x, y, z, r, t);
    RotationMinorX(w, x, y, z);
  }

  lemma RotationCofactorY(w: real, x: real, y: real, z: real, p: real, q: real, r: real, t: real)
    requires w * w + x * x + y * y + z * z == 1.0
    requires p == 2.0 * (y * z + w * x) && q == 2.0 * (x * z + w * y)
    requires r == 2.0 * (x * y - w * z) && t == 1.0 - 2.0 * x * x - 2.0 * y * y
    ensures p * q - r * t == 2.0 * (x * y + w * z)
  {
    RotationProductY1(w, x, y, z, p, q);
    RotationProductY2(w, x, y, z, r, t);
    RotationMinorY(w, x, y, z);
  }

  lemma RotationCofactorZ(w: real, x: real, y: real, z: real, p: real, q: real, r: real, t: real)
    requires w * w + x * x + y * y + z * z == 1.0
    requires p == 2.0 * (x * y - w * z) && q == 2.0 * (y * z - w * x)
    requires r == 1.0 - 2.0 * x * x - 2.0 * z * z && t == 2.0 * (x * z + w * y)
    ensures p * q - r * t == 2.0 * (x * z - w * y)
  {
    RotationProductZ1(w, x, y, z, p, q);
    RotationProductZ2(w, x, y, z, r, t);
    RotationMinorZ(w, x, y, z);
  }

  lemma RotationMinorX(w: real, x: real, y: real, z: real)
    requires w * w + x * x + y * y + z * z == 1.0
    ensures (1.0 - 2.0 * x * x - 2.0 * z * z) * (1.0 - 2.0 * x * x - 2.0 * y * y) - (2.0 * (y * z + w * x)) * (2.0 * (y * z - w * x)) == 1.0 - 2.0 * y * y - 2.0 * z * z
  {
    assert (1.0 - 2.0 * x * x - 2.0 * z * z) * (1.0 - 2.0 * x * x - 2.0 * y * y) - (2.0 * (y * z + w * x)) * (2.0 * (y * z - w * x))
        == 1.0 - 4.0 * x * x - 2.0 * y * y - 2.0 * z * z + 4.0 * (x * x) * (w * w + x * x + y * y + z * z);
  }

  lemma RotationMinorY(w: real, x: real, y: real, z: real)
    requires w * w + x * x + y * y + z * z == 1.0
    ensures (2.0 * (y * z + w * x)) * (2.0 * (x * z + w * y)) - (2.0 * (x * y - w * z)) * (1.0 - 2.0 * x * x - 2.0 * y * y) == 2.0 * (x * y + w * z)
  {
    assert (2.0 * (y * z + w * x)) * (2.0 * (x * z + w * y)) - (2.0 * (x * y - w * z)) * (1.0 - 2.0 * x * x - 2.0 * y * y)
        == 4.0 * (x * y) * (w * w + x * x + y * y + z * z) - 2.0 * x * y + 2.0 * w * z;
  }

  lemma RotationMinorZ(w: real, x: real, y: real, z: real)
    requires w * w + x * x + y * y + z * z == 1.0
    ensures (2.0 * (x * y - w * z)) * (2.0 * (y * z - w * x)) - (1.0 - 2.0 * x * x - 2.0 * z * z) * (2.0 * (x * z + w * y)) == 2.0 * (x * z - w * y)
  {
    assert (2.0 * (x * y - w * z)) * (2.0 * (y * z - w * x)) - (1.0 - 2.0 * x * x - 2.0 * z * z) * (2.0 * (x * z + w * y))
        == 4.0 * (x * z) * (w * w + x * x + y * y + z * z) - 2.0 * x * z - 2.0 * w * y;
  }

  // ---------------------------------------------------------------------
  // Rotation about an axis

  /** A quaternion with no vector part rotates to the identity. */
  lemma RealRotationIsIdentity(w: real)
    ensures RotationEntries(w, 0.0, 0.0, 0.0) == M3.Identity()
  {}

  /** For a non-zero axis, the rotation quaternion has norm one. */
  lemma RotationIsUnit(lib: MathLib, v: V3.Vec3, a: real)
    requires Laws(lib)
    requires v != V3.Zero()
    ensures V3.Magnitude(lib, v) != 0.0
    ensures Norm(Rotation(lib, v, a)) == 1.0
  {
    V3.NormalizeIsUnit(lib, v);
    assert lib.cos(a / 2.0) * lib.cos(a / 2.0) + lib.sin(a / 2.0) * lib.sin(a / 2.0) == 1.0;
    UnitCombination(lib.cos(a / 2.0), lib.sin(a / 2.0), V3.Normalize(lib, v));
  }

  /** c + s n has norm one when c^2 + s^2 == 1 and n is a unit vector. */
  lemma UnitCombination(c: real, s: real, n: V3.Vec3)
    requires c * c + s * s == 1.0
    requires V3.MagSquared(n) == 1.0
    ensures Norm(FromVector(c, V3.Scale(s, n))) == 1.0
  {
    assert (s * n.x) * (s * n.x) + (s * n.y) * (s * n.y) + (s * n.z) * (s * n.z) == (s * s) * (n.x * n.x + n.y * n.y + n.z * n.z);
  }

  /** Rotating by the angle zero gives the quaternion one. */
  lemma RotationByZero(lib: MathLib, v: V3.Vec3)
    requires Laws(lib)
    requires V3.Magnitude(lib, v) != 0.0
    ensures Rotation(lib, v, 0.0) == One()
  {
    assert 0.0 / 2.0 == 0.0;
  }

  /** The rotation about a non-zero axis leaves that axis where it is. */
  lemma RotationAboutAxis(lib: MathLib, v: V3.Vec3, a: real)
    requires Laws(lib)
    requires v != V3.Zero()
    ensures V3.Magnitude(lib, v) != 0.0
    ensures RotateVector(v, Rotation(lib, v, a)) == v
  {
    V3.NormalizeIsUnit(lib, v);
    FixesScaledAxis(Rotation(lib, v, a), lib.sin(a / 2.0), 1.0 / V3.Magnitude(lib, v), v);
  }

  /** A quaternion whose vector part is a multiple of v leaves v where it is. */
  lemma FixesScaledAxis(q: Quat, s: real, r: real, v: V3.Vec3)
    requires r != 0.0
    requires Vector(q) == V3.Scale(s, V3.Scale(r, v))
    ensures RotateVector(v, q) == v
  {
    V3.ScaleTwice(s, r, v);
    if s == 0.0 {
      RealRotationIsIdentity(q.w);
      M3.ApplyIdentity(v);
    } else {
      var u := s * r;
      ScaleBack(u, v);
      RotationFixesAxis(q);
      M3.ApplyHomogeneous(RotationMatrix(q), Vector(q), 1.0 / u);
    }
  }

  /** Scaling by s / m is undone by scaling by m / s. */
  lemma ScaleBack(u: real, v: V3.Vec3)
    requires u != 0.0
    ensures V3.Scale(1.0 / u, V3.Scale(u, v)) == v
  {
    V3.ScaleTwice(1.0 / u, u, v);
    assert (1.0 / u) * u == 1.0;
  }

  // ---------------------------------------------------------------------
  // The angle between two quaternions

  /** Lagrange's identity for four components. */
  lemma Lagrange(qw: real, qx: real, qy: real, qz: real, rw: real, rx: real, ry: real, rz: real)
    ensures (qw * qw + qx * qx + qy * qy + qz * qz) * (rw * rw + rx * rx + ry * ry + rz * rz)
            - (qw * rw + qx * rx + qy * ry + qz * rz) * (qw * rw + qx * rx + qy * ry + qz * rz)
         == Square(qw * rx - qx * rw) + Square(qw * ry - qy * rw) + Square(qw * rz - qz * rw)
            + Square(qx * ry - qy * rx) + Square(qx * rz - qz * rx) + Square(qy * rz - qz * ry)
  {}

  /** The Cauchy-Schwarz inequality. */
  lemma CauchySchwarz(q: Quat, r: Quat)
    ensures Dot(q, r) * Dot(q, r) <= Norm(q) * Norm(r)
  {
    CauchySchwarzReal(q.w, q.x, q.y, q.z, r.w, r.x, r.y, r.z);
  }

  lemma CauchySchwarzReal(qw: real, qx: real, qy: real, qz: real, rw: real, rx: real, ry: real, rz: real)
    ensures (qw * rw + qx * rx + qy * ry + qz * rz) * (qw * rw + qx * rx + qy * ry + qz * rz)
         <= (qw * qw + qx * qx + qy * qy + qz * qz) * (rw * rw + rx * rx + ry * ry + rz * rz)
  {
    Lagrange(qw, qx, qy, qz, rw, rx, ry, rz);
    SquareNonNegative(qw * rx - qx * rw);
    SquareNonNegative(qw * ry - qy * rw);
    SquareNonNegative(qw * rz - qz * rw);
    SquareNonNegative(qx * ry - qy * rx);
    SquareNonNegative(qx * rz - qz * rx);
    SquareNonNegative(qy * rz - qz * ry);
  }

  /** The ratio the angle is taken of lies in [-1, 1] for any two non-zero
      quaternions, so the angle is the one whose cosine is that ratio. */
  lemma AngleBetweenCosine(lib: MathLib, q: Quat, r: Quat)
    requires Laws(lib)
    requires q != Zero() && r != Zero()
    ensures Magnitude(lib, q) * Magnitude(lib, r) != 0.0
    ensures -1.0 <= CosineBetween(lib, q, r) <= 1.0
    ensures lib.cos(AngleBetween(lib, q, r)) == CosineBetween(lib, q, r)
  {
    CosineBetweenBound(lib, q, r);
    CosOfAcos(lib, CosineBetween(lib, q, r));
  }

  /** Cauchy-Schwarz bounds the ratio the angle is taken of. */
  lemma CosineBetweenBound(lib: MathLib, q: Quat, r: Quat)
    requires Laws(lib)
    requires q != Zero() && r != Zero()
    ensures Magnitude(lib, q) * Magnitude(lib, r) != 0.0
    ensures -1.0 <= CosineBetween(lib, q, r) <= 1.0
  {
    RatioOfMagnitudes(lib, q, r, Magnitude(lib, q), Magnitude(lib, r), Dot(q, r));
    CosineBetweenIs(lib, q, r, Dot(q, r) / (Magnitude(lib, q) * Magnitude(lib, r)));
  }

  /** CosineBetween, with the ratio named x. */
  lemma CosineBetweenIs(lib: MathLib, q: Quat, r: Quat, x: real)
    requires Magnitude(lib, q) * Magnitude(lib, r) != 0.0
    requires x == Dot(q, r) / (Magnitude(lib, q) * Magnitude(lib, r))
    ensures CosineBetween(lib, q, r) == x
  {}

  /** CosineBetweenBound with the magnitudes and the dot product named. */
  lemma RatioOfMagnitudes(lib: MathLib, q: Quat, r: Quat, mq: real, mr: real, d: real)
    requires Laws(lib)
    requires q != Zero() && r != Zero()
    requires mq == Magnitude(lib, q) && mr == Magnitude(lib, r) && d == Dot(q, r)
    ensures mq * mr != 0.0 && -1.0 <= d / (mq * mr) <= 1.0
  {
    MagnitudeLaws(lib, q);
    MagnitudeLaws(lib, r);
    CauchySchwarz(q, r);
    RatioBound(mq, mr, Norm(q), Norm(r), d);
  }

  /** For c in [-1, 1], the cosine of acos c is c. */
  lemma CosOfAcos(lib: MathLib, c: real)
    requires Laws(lib)
    requires -1.0 <= c <= 1.0
    ensures lib.cos(lib.acos(c)) == c
  {}

  /** The magnitude of a non-zero quaternion is a positive root of its norm. */
  lemma MagnitudeLaws(lib: MathLib, q: Quat)
    requires Laws(lib)
    requires q != Zero()
    ensures 0.0 < Magnitude(lib, q) && Magnitude(lib, q) * Magnitude(lib, q) == Norm(q)
  {
    NormLaws(q);
  }

  /** If d^2 <= nq nr with nq == mq^2 and nr == mr^2 for positive mq and mr,
      then d / (mq mr) lies in [-1, 1]. */
  lemma RatioBound(mq: real, mr: real, nq: real, nr: real, d: real)
    requires 0.0 < mq && mq * mq == nq
    requires 0.0 < mr && mr * mr == nr
    requires d * d <= nq * nr
    ensures mq * mr != 0.0
    ensures -1.0 <= d / (mq * mr) <= 1.0
  {
    var p := mq * mr;
    assert 0.0 < p;
    assert p * p == nq * nr;
    assert (p - d) * (p + d) >= 0.0;
    NonNegativeFactors(p - d, p + d);
  }

  /** Two numbers with a non-negative product and a positive sum are both non-negative. */
  lemma NonNegativeFactors(u: real, v: real)
    requires 0.0 <= u * v && 0.0 < u + v
    ensures 0.0 <= u && 0.0 <= v
  {}

  /** The angle between q and r is the angle between r and q. */
  lemma AngleBetweenSymmetric(lib: MathLib, q: Quat, r: Quat)
    requires Magnitude(lib, q) * Magnitude(lib, r) != 0.0
    ensures Magnitude(lib, r) * Magnitude(lib, q) != 0.0
    ensures AngleBetween(lib, q, r) == AngleBetween(lib, r, q)
  {
    DotSymmetric(q, r);
  }

  /** The angle between a non-zero quaternion and itself is acos(1). */
  lemma AngleBetweenSelf(lib: MathLib, q: Quat)
    requires Laws(lib)
    requires q != Zero()
    ensures Magnitude(lib, q) * Magnitude(lib, q) != 0.0
    ensures AngleBetween(lib, q, q) == lib.acos(1.0)
  {
    SelfRatio(lib, q, Magnitude(lib, q));
    CosineBetweenIs(lib, q, q, Dot(q, q) / (Magnitude(lib, q) * Magnitude(lib, q)));
  }

  /** AngleBetweenSelf with the magnitude named. */
  lemma SelfRatio(lib: MathLib, q: Quat, m: real)
    requires Laws(lib)
    requires q != Zero()
    requires m == Magnitude(lib, q)
    ensures m * m != 0.0 && Dot(q, q) / (m * m) == 1.0
  {
    MagnitudeLaws(lib, q);
    NormLaws(q);
    DivideBySelf(Dot(q, q), m * m);
  }

  /** A positive number divided by itself is one. */
  lemma DivideBySelf(x: real, y: real)
    requires x == y && 0.0 < y
    ensures x / y == 1.0
  {}

  // ---------------------------------------------------------------------
  // Spherical linear interpolation

  /** The result of Slerp(a, b, t): the path taken depends only on the
      cosine a . b of the half angle between the two rotations. */
  function SlerpValue(lib: MathLib, a: Quat, b: Quat, t: real): Quat {
    SlerpWithCosine(lib, a, b, t, Dot(a, b))
  }

  /** Slerp once the cosine c of the half angle is known. When |c| >= 1 the
      inputs are taken to be the same rotation and a is returned; when sin of
      the half angle is below 0.001 the result is the average of a and b;
      otherwise it is sin((1 - t) h) / sin h a + sin(t h) / sin h b, for the
      half angle h = acos(c) and sin h computed as sqrt(1 - c^2). */
  function SlerpWithCosine(lib: MathLib, a: Quat, b: Quat, t: real, c: real): Quat {
    if Abs(c) >= 1.0 then a
    else
      var halfTheta := lib.acos(c);
      var sinHalfTheta := SinFromCos(lib, c);
      if Abs(sinHalfTheta) < 0.001 then Combine(a, 0.5, b, 0.5)
      else Combine(a, Ratio(lib, 1.0 - t, halfTheta, sinHalfTheta), b, Ratio(lib, t, halfTheta, sinHalfTheta))
  }

  /** sin h computed from cos h, as the root of 1 - cos^2 h. */
  function SinFromCos(lib: MathLib, c: real): real { lib.sqrt(1.0 - c * c) }

  /** sin(k h) / s, the weight Slerp gives one end point. */
  function Ratio(lib: MathLib, k: real, h: real, s: real): real
    requires s != 0.0
  {
    lib.sin(k * h) / s
  }

  /** One component of a weighted sum: u ra + v rb. */
  function Mix(u: real, ra: real, v: real, rb: real): real { u * ra + v * rb }

  /** a ra + b rb, component by component. */
  function Combine(a: Quat, ra: real, b: Quat, rb: real): Quat {
    Quat(Mix(a.w, ra, b.w, rb), Mix(a.x, ra, b.x, rb), Mix(a.y, ra, b.y, rb), Mix(a.z, ra, b.z, rb))
  }

  /** The combination is the sum of the scaled quaternions. */
  lemma CombineIsLinear(a: Quat, ra: real, b: Quat, rb: real)
    ensures Combine(a, ra, b, rb) == Add(Scale(ra, a), Scale(rb, b))
  {}

  /** Slerp as the code runs it: q starts as the zero quaternion, and on
      each of the three paths its components are assigned one by one before
      it is returned. */
  method Slerp(lib: MathLib, a: Quat, b: Quat, t: real) returns (q: Quat)
    ensures q == SlerpValue(lib, a, b, t)
  {
    q := Zero();
    var cosHalfTheta := Dot(a, b);
    if Abs(cosHalfTheta) >= 1.0 {
      q := q.(w := a.w);
      q := q.(x := a.x);
      q := q.(y := a.y);
      q := q.(z := a.z);
      return;
    }
    var halfTheta := lib.acos(cosHalfTheta);
    var sinHalfTheta := SinFromCos(lib, cosHalfTheta);
    if Abs(sinHalfTheta) < 0.001 {
      q := q.(w := a.w * 0.5 + b.w * 0.5);
      q := q.(x := a.x * 0.5 + b.x * 0.5);
      q := q.(y := a.y * 0.5 + b.y * 0.5);
      q := q.(z := a.z * 0.5 + b.z * 0.5);
      return;
    }
    var ratioA := Ratio(lib, 1.0 - t, halfTheta, sinHalfTheta);
    var ratioB := Ratio(lib, t, halfTheta, sinHalfTheta);
    q := q.(w := Mix(a.w, ratioA, b.w, ratioB));
    q := q.(x := Mix(a.x, ratioA, b.x, ratioB));
    q := q.(y := Mix(a.y, ratioA, b.y, ratioB));
    q := q.(z := Mix(a.z, ratioA, b.z, ratioB));
  }

  /** The root of x is below 0.001 exactly when x is below 0.000001. */
  lemma SqrtBelow(lib: MathLib, x: real)
    requires Laws(lib)
    requires 0.0 <= x
    ensures Abs(lib.sqrt(x)) < 0.001 <==> x < 0.000001
  {
    var r := lib.sqrt(x);
    assert 0.0 <= r && r * r == x;
    if r < 0.001 {
      assert r * r <= r * 0.001;
    } else {
      assert r * r >= r * 0.001;
    }
  }

  /** A number strictly between -1 and 1 has a square in [0, 1). */
  lemma SquareBelowOne(c: real)
    requires -1.0 < c < 1.0
    ensures 0.0 <= c * c < 1.0
  {
    assert (1.0 - c) * (1.0 + c) > 0.0;
  }

  /** When |a . b| >= 1 Slerp returns a. */
  lemma SlerpParallel(lib: MathLib, a: Quat, b: Quat, t: real)
    requires Abs(Dot(a, b)) >= 1.0
    ensures SlerpValue(lib, a, b, t) == a
  {}

  /** When |a . b| < 1 but (a . b)^2 exceeds 0.999999, Slerp returns the average. */
  lemma SlerpOpposite(lib: MathLib, a: Quat, b: Quat, t: real)
    requires Laws(lib)
    requires Abs(Dot(a, b)) < 1.0 && 0.999999 < Dot(a, b) * Dot(a, b)
    ensures SlerpValue(lib, a, b, t) == Scale(0.5, Add(a, b))
  {
    OppositePath(lib, a, b, t, Dot(a, b));
    CombineIsLinear(a, 0.5, b, 0.5);
  }

  /** The second path, for a cosine c with |c| < 1 and c^2 > 0.999999. */
  lemma OppositePath(lib: MathLib, a: Quat, b: Quat, t: real, c: real)
    requires Laws(lib)
    requires Abs(c) < 1.0 && 0.999999 < c * c
    ensures SlerpWithCosine(lib, a, b, t, c) == Combine(a, 0.5, b, 0.5)
  {
    SquareBelowOne(c);
    SqrtBelow(lib, 1.0 - c * c);
  }

  /** Otherwise Slerp is the textbook formula: with h = acos(a . b), the
      result is a weighted by sin((1 - t) h) / sin h plus b weighted by
      sin(t h) / sin h, and sin h is not zero. */
  lemma SlerpGeneral(lib: MathLib, a: Quat, b: Quat, t: real)
    requires Laws(lib)
    requires Abs(Dot(a, b)) < 1.0 && Dot(a, b) * Dot(a, b) <= 0.999999
    ensures lib.sin(lib.acos(Dot(a, b))) != 0.0
    ensures var h := lib.acos(Dot(a, b));
            SlerpValue(lib, a, b, t)
            == Add(Scale(Ratio(lib, 1.0 - t, h, lib.sin(h)), a), Scale(Ratio(lib, t, h, lib.sin(h)), b))
  {
    GeneralPathIsLinear(lib, a, b, t, Dot(a, b));
  }

  /** The third path, for a cosine c, as a sum of scaled quaternions. */
  lemma GeneralPathIsLinear(lib: MathLib, a: Quat, b: Quat, t: real, c: real)
    requires Laws(lib)
    requires Abs(c) < 1.0 && c * c <= 0.999999
    ensures lib.sin(lib.acos(c)) != 0.0
    ensures var h := lib.acos(c);
            SlerpWithCosine(lib, a, b, t, c)
            == Add(Scale(Ratio(lib, 1.0 - t, h, lib.sin(h)), a), Scale(Ratio(lib, t, h, lib.sin(h)), b))
  {
    var h := lib.acos(c);
    GeneralPath(lib, a, b, t, c);
    CombineIsLinear(a, Ratio(lib, 1.0 - t, h, lib.sin(h)), b, Ratio(lib, t, h, lib.sin(h)));
  }

  /** The third path, for a cosine c with |c| < 1 and c^2 <= 0.999999: the
      root the code computes is sin(acos c), and it is not zero. */
  lemma GeneralPath(lib: MathLib, a: Quat, b: Quat, t: real, c: real)
    requires Laws(lib)
    requires Abs(c) < 1.0 && c * c <= 0.999999
    ensures lib.sin(lib.acos(c)) != 0.0
    ensures var h := lib.acos(c);
            SlerpWithCosine(lib, a, b, t, c)
            == Combine(a, Ratio(lib, 1.0 - t, h, lib.sin(h)), b, Ratio(lib, t, h, lib.sin(h)))
  {
    SquareBelowOne(c);
    SqrtBelow(lib, 1.0 - c * c);
    SinOfAcos(lib, c);
  }

  /** Away from the two degenerate paths, Slerp starts at a and ends at b. */
  lemma SlerpEndpoints(lib: MathLib, a: Quat, b: Quat)
    requires Laws(lib)
    requires Abs(Dot(a, b)) < 1.0 && Dot(a, b) * Dot(a, b) <= 0.999999
    ensures SlerpValue(lib, a, b, 0.0) == a
    ensures SlerpValue(lib, a, b, 1.0) == b
  {
    EndpointsPath(lib, a, b, Dot(a, b));
  }

  /** The end points of the third path, for a cosine c. */
  lemma EndpointsPath(lib: MathLib, a: Quat, b: Quat, c: real)
    requires Laws(lib)
    requires Abs(c) < 1.0 && c * c <= 0.999999
    ensures SlerpWithCosine(lib, a, b, 0.0, c) == a
    ensures SlerpWithCosine(lib, a, b, 1.0, c) == b
  {
    var h := lib.acos(c);
    EndpointWeights(lib, c);
    GeneralPath(lib, a, b, 0.0, c);
    CombineFirst(a, Ratio(lib, 1.0 - 0.0, h, lib.sin(h)), b, Ratio(lib, 0.0, h, lib.sin(h)));
    GeneralPath(lib, a, b, 1.0, c);
    CombineSecond(a, Ratio(lib, 1.0 - 1.0, h, lib.sin(h)), b, Ratio(lib, 1.0, h, lib.sin(h)));
  }

  /** Weights 1 and 0 pick the first quaternion, 0 and 1 the second. */
  lemma CombineFirst(a: Quat, ra: real, b: Quat, rb: real)
    requires ra == 1.0 && rb == 0.0
    ensures Combine(a, ra, b, rb) == a
  {}

  lemma CombineSecond(a: Quat, ra: real, b: Quat, rb: real)
    requires ra == 0.0 && rb == 1.0
    ensures Combine(a, ra, b, rb) == b
  {}

  /** At t = 0 the weights are 1 and 0, at t = 1 they are 0 and 1. */
  lemma EndpointWeights(lib: MathLib, c: real)
    requires Laws(lib)
    requires Abs(c) < 1.0 && c * c <= 0.999999
    ensures lib.sin(lib.acos(c)) != 0.0
    ensures var h := lib.acos(c);
            && Ratio(lib, 1.0 - 0.0, h, lib.sin(h)) == 1.0
            && Ratio(lib, 0.0, h, lib.sin(h)) == 0.0
            && Ratio(lib, 1.0 - 1.0, h, lib.sin(h)) == 0.0
            && Ratio(lib, 1.0, h, lib.sin(h)) == 1.0
  {
    var h := lib.acos(c);
    GeneralPath(lib, Zero(), Zero(), 0.0, c);
    assert (1.0 - 0.0) * h == h && 0.0 * h == 0.0 && (1.0 - 1.0) * h == 0.0 && 1.0 * h == h;
    DivideBySelf(lib.sin(h), lib.sin(h));
  }

  /** Off the first path, interpolating from b to a at 1 - t gives the same
      quaternion as from a to b at t. */
  lemma SlerpSymmetric(lib: MathLib, a: Quat, b: Quat, t: real)
    requires Abs(Dot(a, b)) < 1.0
    ensures SlerpValue(lib, a, b, t) == SlerpValue(lib, b, a, 1.0 - t)
  {
    DotSymmetric(a, b);
    assert 1.0 - (1.0 - t) == t;
  }

  // ---------------------------------------------------------------------
  // Solver steps
  //
  // Each lemma below substitutes equal terms into a product: its ensures is
  // its requires multiplied out. They model nothing in the library and only
  // guide the solver through the polynomial proofs above.

  /** Equal factors give equal products (a step the solver does not take by
      itself when e is a polynomial). */
  lemma Times(a: real, e: real, x: real)
    requires a == e
    ensures a * x == e * x && x * a == x * e
  {}

  /** Equal numbers have equal squares. */
  lemma Squares(a: real, e: real)
    requires a == e
    ensures a * a == e * e
  {}

  lemma RotationProductX1(w: real, x: real, y: real, z: real, p: real, q: real)
    requires p == 1.0 - 2.0 * x * x - 2.0 * z * z && q == 1.0 - 2.0 * x * x - 2.0 * y * y
    ensures p * q == (1.0 - 2.0 * x * x - 2.0 * z * z) * (1.0 - 2.0 * x * x - 2.0 * y * y)
  {}

  lemma RotationProductX2(w: real, x: real, y: real, z: real, r: real, t: real)
    requires r == 2.0 * (y * z + w * x) && t == 2.0 * (y * z - w * x)
    ensures r * t == (2.0 * (y * z + w * x)) * (2.0 * (y * z - w * x))
  {}

  lemma RotationProductY1(w: real, x: real, y: real, z: real, p: real, q: real)
    requires p == 2.0 * (y * z + w * x) && q == 2.0 * (x * z + w * y)
    ensures p * q == (2.0 * (y * z + w * x)) * (2.0 * (x * z + w * y))
  {}

  lemma RotationProductY2(w: real, x: real, y: real, z: real, r: real, t: real)
    requires r == 2.0 * (x * y - w * z) && t == 1.0 - 2.0 * x * x - 2.0 * y * y
    ensures r * t == (2.0 * (x * y - w * z)) * (1.0 - 2.0 * x * x - 2.0 * y * y)
  {}

  lemma RotationProductZ1(w: real, x: real, y: real, z: real, p: real, q: real)
    requires p == 2.0 * (x * y - w * z) && q == 2.0 * (y * z - w * x)
    ensures p * q == (2.0 * (x * y - w * z)) * (2.0 * (y * z - w * x))
  {}

  lemma RotationProductZ2(w: real, x: real, y: real, z: real, r: real, t: real)
    requires r == 1.0 - 2.0 * x * x - 2.0 * z * z && t == 2.0 * (x * z + w * y)
    ensures r * t == (1.0 - 2.0 * x * x - 2.0 * z * z) * (2.0 * (x * z + w * y))
  {}
}
