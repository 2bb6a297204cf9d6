/** The part of libm that the haptic calibration calls, over exact reals.

    A calculation that C floating point would answer with an infinity or a NaN
    is `NotFinite` here; every comparison against it is false.
 */
module Libm {

  datatype Num = Finite(v: real) | NotFinite

  function Abs(x: real): real {
    if x < 0.0 then -x else x
  }

  /** Division as the calibration relies on it: nothing finite comes of a zero divisor. */
  function Quotient(num: real, den: real): Num {
    if den == 0.0 then NotFinite else Finite(num / den)
  }

  /** Cosine and sine of an angle between 0 and a third of pi whose triple has cosine t. */
  predicate ThirdOfAngle(t: real, c: real, s: real) {
    c >= 0.5 && s >= 0.0 && s * s + c * c == 1.0 && 4.0 * c * c * c - 3.0 * c == t
  }

  lemma ThirdOfAngleMeans(t: real, c: real, s: real)
    requires ThirdOfAngle(t, c, s)
    ensures c >= 0.5 && s >= 0.0 && s * s + c * c == 1.0 && 4.0 * c * c * c - 3.0 * c == t
  {
  }

  /** The functions of libm the code calls. `cbrt` is `pow(_, 1.0 / 3.0)` on non-negative arguments. */
  datatype Lib = Lib(sqrtAt: real -> real, cbrtAt: real -> real, acosAt: real -> real,
                     cosAt: real -> real, sinAt: real -> real)
  {
    function sqrt(x: real): real { sqrtAt(x) }
    function cbrt(x: real): real { cbrtAt(x) }
    function acos(x: real): real { acosAt(x) }
    function cos(x: real): real { cosAt(x) }
    function sin(x: real): real { sinAt(x) }

    /** What libm promises of them. The last clause is the triple-angle law at `acos(t) / 3`,
        an angle between 0 and a third of pi. */
    ghost predicate Sound() {
      && (forall x: real :: x >= 0.0 ==> sqrt(x) >= 0.0 && sqrt(x) * sqrt(x) == x)
      && (forall x: real :: x >= 0.0 ==> cbrt(x) >= 0.0 && cbrt(x) * cbrt(x) * cbrt(x) == x)
      && (forall t: real :: -1.0 <= t <= 1.0 ==> ThirdOfAngle(t, cos(acos(t) / 3.0), sin(acos(t) / 3.0)))
    }

    /** `pow(x, 1.0 / 3.0)`: a NaN below zero. */
    function PowThird(x: real): Num {
      if x < 0.0 then NotFinite else Finite(cbrt(x))
    }

    /** The real cube root, of either sign. */
    function RealCubeRoot(x: real): real {
      if x < 0.0 then -cbrt(-x) else cbrt(x)
    }

    lemma SqrtLaw(x: real)
      requires Sound() && x > 0.0
      ensures sqrt(x) > 0.0 && sqrt(x) * sqrt(x) == x
    {
      hide sqrt;
      RootPositive(sqrt(x), x);
    }

    lemma AngleLaw(t: real)
      requires Sound() && -1.0 <= t <= 1.0
      ensures ThirdOfAngle(t, cos(acos(t) / 3.0), sin(acos(t) / 3.0))
    {
      hide cos, sin, acos, ThirdOfAngle;
    }

    lemma RealCubeRootLaw(x: real)
      requires Sound()
      ensures var r := RealCubeRoot(x); r * r * r == x
    {
      if x < 0.0 {
        var p := cbrt(-x);
        assert (-p) * (-p) * (-p) == -(p * p * p);
      }
    }
  }

  lemma RootPositive(r: real, x: real)
    requires r >= 0.0 && r * r == x && x > 0.0
    ensures r > 0.0
  {
    SquareSign(r, x);
  }

  lemma ProductPositive(x: real, y: real, p: real)
    requires x > 0.0 && y > 0.0 && p == x * y
    ensures p > 0.0
  {
  }

  lemma ProductNonNegative(x: real, y: real, p: real)
    requires x >= 0.0 && y >= 0.0 && p == x * y
    ensures p >= 0.0
  {
  }

  lemma SquareSign(x: real, s: real)
    requires s == x * x
    ensures s >= 0.0 && (s == 0.0 <==> x == 0.0)
  {
    if x > 0.0 { ProductPositive(x, x, s); } else if x < 0.0 { ProductPositive(-x, -x, s); }
  }

  lemma NonZeroProduct(x: real, y: real, p: real)
    requires p == x * y
    ensures p == 0.0 <==> x == 0.0 || y == 0.0
  {
  }

  lemma ZeroFactor(p: real, x: real)
    requires p != 0.0 && p * x == 0.0
    ensures x == 0.0
  {
  }

  /** Cubing is injective. */
  lemma CubeInjective(p: real, q: real)
    ensures p * p * p == q * q * q <==> p == q
  {
    if p != q {
      var s, e, f := p * p + p * q + q * q, (2.0 * p + q) * (2.0 * p + q), q * q;
      SquareSign(2.0 * p + q, e);
      SquareSign(q, f);
      assert 4.0 * s == e + 3.0 * f;
      assert p * p * p - q * q * q == (p - q) * s;
      NonZeroProduct(p - q, s, (p - q) * s);
    }
  }
}
