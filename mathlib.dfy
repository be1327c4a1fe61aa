/** The C math library functions the core calls (sin, cos, acos, sqrt), as a
    parameter. Their real-analysis behaviour is not modelled; `Laws` collects
    the few identities that the properties below rely on. */
module MathLib {

  datatype MathLib = MathLib(
    sin: real -> real,
    cos: real -> real,
    acos: real -> real,
    sqrt: real -> real)

  /** Identities that the true sin, cos, acos and sqrt satisfy. */
  ghost predicate Laws(lib: MathLib) {
    && (forall x :: lib.sin(x) * lib.sin(x) + lib.cos(x) * lib.cos(x) == 1.0)
    && lib.sin(0.0) == 0.0
    && lib.cos(0.0) == 1.0
    // The double-angle formulas, stated for y == x + x so that an instance
    // never creates the sine of a new angle.
    && (forall x, y :: y == x + x ==> lib.sin(y) == 2.0 * lib.sin(x) * lib.cos(x))
    && (forall x, y :: y == x + x ==> lib.cos(y) == lib.cos(x) * lib.cos(x) - lib.sin(x) * lib.sin(x))
    && (forall c :: -1.0 <= c <= 1.0 ==> lib.cos(lib.acos(c)) == c && lib.sin(lib.acos(c)) >= 0.0)
    && (forall x :: 0.0 <= x ==> 0.0 <= lib.sqrt(x) && lib.sqrt(x) * lib.sqrt(x) == x)
  }

  /** `abs` / `fabs` on a double. */
  function Abs(x: real): (r: real)
    ensures 0.0 <= r && (r == x || r == -x)
  {
    if x < 0.0 then -x else x
  }

  /** `x * x`, named so that facts about a square can be stated about one term. */
  function Square(x: real): real { x * x }

  /** A square is never negative. */
  lemma SquareNonNegative(x: real)
    ensures 0.0 <= Square(x)
  {
    if x < 0.0 {
      assert Square(x) == (-x) * (-x);
    }
  }

  /** A product is zero only when one of its factors is. */
  lemma ProductZero(x: real, y: real, p: real)
    requires p == x * y && p == 0.0
    ensures x == 0.0 || y == 0.0
  {
    if x != 0.0 {
      var k := 1.0 / x;
      assert x * k == 1.0;
      assert y == p * k;
    }
  }

  /** Only zero squares to zero. */
  lemma SquareZero(x: real)
    requires Square(x) == 0.0
    ensures x == 0.0
  {
    ProductZero(x, x, Square(x));
  }

  /** The square of a non-zero number is positive. */
  lemma SquarePositive(x: real)
    requires x != 0.0
    ensures 0.0 < Square(x)
  {
    SquareNonNegative(x);
    if Square(x) == 0.0 {
      SquareZero(x);
    }
  }

  /** Multiplying by s undoes multiplying by 1 / s. */
  lemma CancelFactor(s: real, x: real)
    requires s != 0.0
    ensures s * ((1.0 / s) * x) == x
  {
    assert s * (1.0 / s) == 1.0;
  }

  /** A non-negative square root is unique. */
  lemma SqrtUnique(lib: MathLib, x: real, r: real)
    requires Laws(lib)
    requires 0.0 <= x && 0.0 <= r && r * r == x
    ensures lib.sqrt(x) == r
  {
    var q := lib.sqrt(x);
    assert 0.0 <= q && q * q == x;
    assert (q - r) * (q + r) == 0.0;
    if q + r != 0.0 {
      assert q - r == ((q - r) * (q + r)) / (q + r);
    }
  }

  lemma SqrtOne(lib: MathLib)
    requires Laws(lib)
    ensures lib.sqrt(1.0) == 1.0
  {
    SqrtUnique(lib, 1.0, 1.0);
  }

  /** sin(acos(c)) is the non-negative root of 1 - c*c. */
  lemma SinOfAcos(lib: MathLib, c: real)
    requires Laws(lib)
    requires -1.0 < c < 1.0
    ensures lib.sin(lib.acos(c)) == lib.sqrt(1.0 - c * c)
  {
    var h := lib.acos(c);
    assert lib.sin(h) * lib.sin(h) + lib.cos(h) * lib.cos(h) == 1.0;
    assert lib.sin(h) * lib.sin(h) == 1.0 - c * c;
    SqrtUnique(lib, 1.0 - c * c, lib.sin(h));
  }
}
