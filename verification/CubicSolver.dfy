/** The calibration solver: from a target acceleration to a drive voltage, through a cubic
    (vibrator/drv2624/Vibrator.cpp:158-259). */
module CubicSolver {
  import opened Libm

  const MAX_VOLTAGE := 3.2
  const FLOAT_EPS := 0.0000001

  /** `inputCoeffs`: the cubic a*x^3 + b*x^2 + c*x + d. */
  datatype Coeffs = Coeffs(a: real, b: real, c: real, d: real)

  function Cubic(k: Coeffs, x: real): real {
    k.a * x * x * x + k.b * x * x + k.c * x + k.d
  }

  /** The forward polynomial; `vLevel` is a fraction of the maximal voltage. */
  function VLevelsToTargetG(k: Coeffs, vLevel: real): real {
    Cubic(k, vLevel * MAX_VOLTAGE)
  }

  function AA(k: Coeffs): real {
    k.b * k.b - 3.0 * k.a * k.c
  }

  function BB(k: Coeffs, g: real): real {
    k.b * k.c - 9.0 * k.a * (k.d - g)
  }

  function CC(k: Coeffs, g: real): real {
    k.c * k.c - 3.0 * k.b * (k.d - g)
  }

  function Delta(k: Coeffs, g: real): real {
    BB(k, g) * BB(k, g) - 4.0 * AA(k) * CC(k, g)
  }

  /** The test every guarded branch makes before it returns a candidate. */
  predicate InRange(x: Num) {
    x.Finite? && FLOAT_EPS < x.v <= MAX_VOLTAGE
  }

  /** The first candidate in range, or zero. */
  function FirstInRange(candidates: seq<Num>): Num {
    if candidates == [] then Finite(0.0)
    else if InRange(candidates[0]) then candidates[0]
    else FirstInRange(candidates[1..])
  }

  // The four discriminants, in the order the code tests them.

  predicate TripleRoot(k: Coeffs, g: real) {
    Abs(AA(k)) <= FLOAT_EPS && Abs(BB(k, g)) <= FLOAT_EPS
  }

  predicate OneRealRoot(k: Coeffs, g: real) {
    !TripleRoot(k, g) && Delta(k, g) > FLOAT_EPS
  }

  predicate ThreeRealRoots(k: Coeffs, g: real) {
    !TripleRoot(k, g) && Delta(k, g) < -FLOAT_EPS
  }

  predicate DoubleRoot(k: Coeffs, g: real) {
    !TripleRoot(k, g) && -FLOAT_EPS <= Delta(k, g) <= FLOAT_EPS
  }

  function Y1(k: Coeffs, g: real, m: Lib): real {
    AA(k) * k.b + 3.0 * k.a * (-BB(k, g) + m.sqrt(Delta(k, g))) / 2.0
  }

  function Y2(k: Coeffs, g: real, m: Lib): real {
    AA(k) * k.b + 3.0 * k.a * (-BB(k, g) - m.sqrt(Delta(k, g))) / 2.0
  }

  /** Case 2, with its four branches on the signs of Y1 and Y2 and no range check. */
  function SingleRoot(k: Coeffs, g: real, m: Lib): Num {
    var y1, y2 := Y1(k, g, m), Y2(k, g, m);
    if y1 < -FLOAT_EPS && y2 > FLOAT_EPS then
      Quotient(-k.b + m.cbrt(-y1) - m.cbrt(y2), 3.0 * k.a)
    else if y1 > FLOAT_EPS && y2 < -FLOAT_EPS then
      Quotient(-k.b - m.cbrt(y1) + m.cbrt(-y2), 3.0 * k.a)
    else if y1 < -FLOAT_EPS && y2 < -FLOAT_EPS then
      Quotient(-k.b + m.cbrt(-y1) + m.cbrt(-y2), 3.0 * k.a)
    else
      match (m.PowThird(y1), m.PowThird(y2))
      case (Finite(u), Finite(v)) => Quotient(-k.b - u - v, 3.0 * k.a)
      case _ => NotFinite
  }

  function CosArgument(k: Coeffs, g: real, m: Lib): real
    requires AA(k) != 0.0 && m.sqrt(AA(k)) != 0.0
  {
    (2.0 * AA(k) * k.b - 3.0 * k.a * BB(k, g)) / (2.0 * AA(k) * m.sqrt(AA(k)))
  }

  /** Case 3: the three candidates, in the order the code tries them. */
  function TrigCandidates(k: Coeffs, g: real, m: Lib): seq<Num> {
    var sqrtA := m.sqrt(AA(k));
    if AA(k) <= 0.0 || sqrtA == 0.0 then []  // sqrt or the quotient under acos is a NaN
    else
      var t := CosArgument(k, g, m);
      if t < -1.0 || t > 1.0 then []         // acos is a NaN
      else
        var third := m.acos(t) / 3.0;
        var cosSita, sinSitaSqrt3 := m.cos(third), m.sqrt(3.0) * m.sin(third);
        [ Quotient(-k.b - 2.0 * sqrtA * cosSita, 3.0 * k.a),
          Quotient(-k.b + sqrtA * (cosSita + sinSitaSqrt3), 3.0 * k.a),
          Quotient(-k.b + sqrtA * (cosSita - sinSitaSqrt3), 3.0 * k.a) ]
  }

  /** Case 4: the simple root and the double root. */
  function DoubleRootCandidates(k: Coeffs, g: real): seq<Num> {
    match Quotient(BB(k, g), AA(k))
    case NotFinite => []
    case Finite(q) =>
      match Quotient(-k.b, k.a)
      case Finite(p) => [Finite(p + q), Finite(-q / 2.0)]
      case NotFinite => [NotFinite, Finite(-q / 2.0)]
  }

  function TargetGToVLevelsUnderCubic(k: Coeffs, g: real, m: Lib): Num {
    if TripleRoot(k, g) then FirstInRange([Quotient(-k.b, 3.0 * k.a)])
    else if Delta(k, g) > FLOAT_EPS then SingleRoot(k, g, m)
    else if Delta(k, g) < -FLOAT_EPS then FirstInRange(TrigCandidates(k, g, m))
    else FirstInRange(DoubleRootCandidates(k, g))
  }

  /** The linear approach, f(x) = a*x + b with the first two coefficients. */
  function TargetGToVLevelsUnderLinear(k: Coeffs, g: real): Num {
    FirstInRange([Quotient(g - k.b, k.a)])
  }
}
