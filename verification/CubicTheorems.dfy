/** What the calibration solver promises: it inverts the forward polynomial. */
module CubicTheorems {
  import opened Libm
  import opened CubicSolver

  /** The depressed unknown. */
  function W(k: Coeffs, x: real): real {
    3.0 * k.a * x + k.b
  }

  function Q(k: Coeffs, g: real): real {
    2.0 * AA(k) * k.b - 3.0 * k.a * BB(k, g)
  }

  /** The cubic in its depressed form. */
  lemma Depressed(k: Coeffs, g: real, x: real)
    ensures var w := W(k, x);
            27.0 * k.a * k.a * (Cubic(k, x) - g) == w * w * w - 3.0 * AA(k) * w + Q(k, g)
  {
  }

  /** The discriminant of the depressed form. */
  lemma Discriminant(k: Coeffs, g: real)
    ensures Q(k, g) * Q(k, g) - 9.0 * k.a * k.a * Delta(k, g) == 4.0 * AA(k) * AA(k) * AA(k)
  {
    var a, b, A, B, C, q := k.a, k.b, AA(k), BB(k, g), CC(k, g), Q(k, g);
    assert b * B - 3.0 * a * C == k.c * A;
    assert q * q == 4.0 * A * A * b * b - 12.0 * a * b * A * B + 9.0 * a * a * B * B;
    assert q * q - 9.0 * a * a * (B * B - 4.0 * A * C) == 4.0 * A * (A * b * b - 3.0 * a * (b * B - 3.0 * a * C));
    assert A * b * b - 3.0 * a * (k.c * A) == A * A;
  }

  /** A zero of the depressed form is a solution, and conversely. */
  lemma SolutionIff(k: Coeffs, g: real, x: real)
    requires k.a != 0.0
    ensures var w := W(k, x);
            Cubic(k, x) == g <==> w * w * w - 3.0 * AA(k) * w + Q(k, g) == 0.0
  {
    hide *;
    Depressed(k, g, x);
    if Cubic(k, x) - g != 0.0 {
      assert k.a * (k.a * (27.0 * (Cubic(k, x) - g))) == 27.0 * k.a * k.a * (Cubic(k, x) - g);
      if 27.0 * k.a * k.a * (Cubic(k, x) - g) == 0.0 {
        ZeroFactor(k.a, k.a * (27.0 * (Cubic(k, x) - g)));
        ZeroFactor(k.a, 27.0 * (Cubic(k, x) - g));
      }
    }
  }

  /** The depressed unknown of a candidate written as a quotient by 3a. */
  lemma WOfQuotient(k: Coeffs, num: real)
    requires k.a != 0.0
    ensures Quotient(num, 3.0 * k.a).Finite?
    ensures W(k, Quotient(num, 3.0 * k.a).v) == num + k.b
  {
  }

  // ---------- Case 2: one real root ----------

  /** Sum of cubes minus three times the product. */
  lemma SumOfCubes(w: real, y: real, z: real)
    ensures w * w * w + y * y * y + z * z * z - 3.0 * w * y * z
         == (w + y + z) * (w * w + y * y + z * z - w * y - w * z - y * z)
  {
  }

  /** The cofactor of the real root is positive unless its two cube roots coincide. */
  lemma CofactorPositive(w: real, y: real, z: real)
    requires y != z
    ensures w * w + y * y + z * z - w * y - w * z - y * z > 0.0
  {
    HalfSumOfSquares(w * w + y * y + z * z - w * y - w * z - y * z, w - y, w - z, y - z);
  }

  lemma HalfSumOfSquares(c: real, e: real, f: real, h: real)
    requires h != 0.0 && 2.0 * c == e * e + f * f + h * h
    ensures c > 0.0
  {
    SquareSign(e, e * e);
    SquareSign(f, f * f);
    SquareSign(h, h * h);
  }

  lemma ProductOfYs(p: real, q: real, a: real, r: real, delta: real, A: real, sum: real)
    requires p + q == sum && p - q == 3.0 * a * r && r * r == delta
    requires sum * sum - 9.0 * a * a * delta == 4.0 * A * A * A
    ensures p * q == A * A * A
  {
    assert 4.0 * (p * q) == (p + q) * (p + q) - (p - q) * (p - q);
    assert (p - q) * (p - q) == 9.0 * a * a * (r * r);
  }

  lemma ProductOfRoots(y: real, z: real, p: real, q: real, A: real)
    requires y * y * y == p && z * z * z == q && p * q == A * A * A
    ensures y * z == A
  {
    assert (y * z) * (y * z) * (y * z) == (y * y * y) * (z * z * z);
    CubeInjective(y * z, A);
  }

  /** The two cube roots of case 2: they differ, their product is A and their cubes add up to Q. */
  lemma CubeRoots(k: Coeffs, g: real, m: Lib) returns (y: real, z: real)
    requires m.Sound() && k.a != 0.0 && Delta(k, g) > 0.0
    ensures y == m.RealCubeRoot(Y1(k, g, m)) && z == m.RealCubeRoot(Y2(k, g, m))
    ensures y * z == AA(k) && y * y * y + z * z * z == Q(k, g) && y != z
  {
    hide *;
    m.SqrtLaw(Delta(k, g));
    var r, p, q := m.sqrt(Delta(k, g)), Y1(k, g, m), Y2(k, g, m);
    assert r * r == Delta(k, g) && r > 0.0;
    y, z := m.RealCubeRoot(p), m.RealCubeRoot(q);
    m.RealCubeRootLaw(p);
    m.RealCubeRootLaw(q);
    Discriminant(k, g);
    YSumAndDifference(k, g, m);
    ProductOfYs(p, q, k.a, r, Delta(k, g), AA(k), Q(k, g));
    ProductOfRoots(y, z, p, q, AA(k));
    NonZeroProduct(k.a, r, k.a * r);
  }

  lemma YSumAndDifference(k: Coeffs, g: real, m: Lib)
    ensures Y1(k, g, m) + Y2(k, g, m) == Q(k, g)
    ensures Y1(k, g, m) - Y2(k, g, m) == 3.0 * k.a * m.sqrt(Delta(k, g))
  {
    hide AA, BB, CC, Delta;
  }

  /** In every branch that answers, the answer is (-b - cbrt(Y1) - cbrt(Y2)) / 3a with real cube roots. */
  lemma SingleRootForm(k: Coeffs, g: real, m: Lib)
    requires k.a != 0.0 && SingleRoot(k, g, m).Finite?
    ensures W(k, SingleRoot(k, g, m).v) == -m.RealCubeRoot(Y1(k, g, m)) - m.RealCubeRoot(Y2(k, g, m))
  {
    var p, q := Y1(k, g, m), Y2(k, g, m);
    var num := -k.b - m.RealCubeRoot(p) - m.RealCubeRoot(q);
    assert SingleRoot(k, g, m) == Quotient(num, 3.0 * k.a);
    WOfQuotient(k, num);
  }

  /** When case 2 answers: either both Y are non-negative or neither is within the tolerance of zero. */
  predicate CubeRootsDefined(k: Coeffs, g: real, m: Lib) {
    || (Y1(k, g, m) >= 0.0 && Y2(k, g, m) >= 0.0)
    || (Abs(Y1(k, g, m)) > FLOAT_EPS && Abs(Y2(k, g, m)) > FLOAT_EPS)
  }

  lemma SingleRootDefined(k: Coeffs, g: real, m: Lib)
    ensures SingleRoot(k, g, m).Finite? <==> k.a != 0.0 && CubeRootsDefined(k, g, m)
  {
  }

  /** f(x) - g as the distance to the root times a positive factor, up to the sign of a. */
  lemma SignAwayFromRoot(k: Coeffs, g: real, m: Lib, root: real, x: real)
    requires m.Sound() && k.a != 0.0 && Delta(k, g) > 0.0
    requires W(k, root) == -m.RealCubeRoot(Y1(k, g, m)) - m.RealCubeRoot(Y2(k, g, m))
    ensures x < root ==> k.a * (Cubic(k, x) - g) < 0.0
    ensures x == root ==> Cubic(k, x) == g
    ensures x > root ==> k.a * (Cubic(k, x) - g) > 0.0
  {
    hide *;
    WDifference(k, x, root);
    var y, z := CubeRoots(k, g, m);
    var w, h := W(k, x), Cubic(k, x) - g;
    var cofactor := w * w + y * y + z * z - w * y - w * z - y * z;
    CofactorPositive(w, y, z);
    Depressed(k, g, x);
    assert 27.0 * k.a * k.a * h == (w + y + z) * cofactor by {
      SumOfCubes(w, y, z);
      assert 3.0 * w * y * z == 3.0 * (y * z) * w;
    }
    SignOfDistance(k.a, h, x - root, cofactor);
  }

  lemma WDifference(k: Coeffs, x: real, y: real)
    ensures W(k, x) - W(k, y) == 3.0 * k.a * (x - y)
  {
  }

  lemma SignOfDistance(a: real, h: real, distance: real, cofactor: real)
    requires a != 0.0 && cofactor > 0.0
    requires 27.0 * a * a * h == 3.0 * a * distance * cofactor
    ensures distance < 0.0 ==> a * h < 0.0
    ensures distance == 0.0 ==> h == 0.0
    ensures distance > 0.0 ==> a * h > 0.0
  {
    assert a * (9.0 * (a * h) - distance * cofactor) == 0.0;
    ZeroFactor(a, 9.0 * (a * h) - distance * cofactor);
    if distance < 0.0 { assert (-distance) * cofactor > 0.0; }
    if distance == 0.0 { ZeroFactor(a, h); }
  }

  /** Case 2 returns the only real solution. */
  lemma SingleRootExact(k: Coeffs, g: real, m: Lib, x: real)
    requires m.Sound() && k.a != 0.0 && OneRealRoot(k, g) && CubeRootsDefined(k, g, m)
    ensures TargetGToVLevelsUnderCubic(k, g, m).Finite?
    ensures Cubic(k, x) == g <==> x == TargetGToVLevelsUnderCubic(k, g, m).v
  {
    SingleRootDefined(k, g, m);
    SingleRootForm(k, g, m);
    var root := SingleRoot(k, g, m).v;
    SignAwayFromRoot(k, g, m, root, x);
  }

  /** The bound the solver's comment gives for its output. */
  predicate ValidOutput(v: real) {
    0.0 <= v <= 3.2
  }

  lemma FirstInRangeMember(candidates: seq<Num>)
    ensures var r := FirstInRange(candidates);
            r.Finite? && (r == Finite(0.0) || (r in candidates && InRange(r)))
    ensures FirstInRange(candidates) == Finite(0.0) <==> forall c :: c in candidates ==> !InRange(c)
  {
  }

  /** Where the documented output range holds: everywhere but in case 2, which never checks it; there
      exactly when the cube roots are defined and a*(f - g) goes from negative to positive within
      [0, MAX_VOLTAGE]. */
  lemma OutputRange(k: Coeffs, g: real, m: Lib)
    requires m.Sound()
    ensures var r := TargetGToVLevelsUnderCubic(k, g, m);
            r.Finite? && ValidOutput(r.v) <==>
            (OneRealRoot(k, g) ==>
               && k.a != 0.0 && CubeRootsDefined(k, g, m)
               && k.a * (Cubic(k, 0.0) - g) <= 0.0 <= k.a * (Cubic(k, MAX_VOLTAGE) - g))
  {
    hide AA, BB, CC, Delta, Cubic, TripleRoot, SingleRoot, TargetGToVLevelsUnderCubic, CubeRootsDefined;
    OtherOutputs(k, g, m);
    if OneRealRoot(k, g) {
      SingleRootDefined(k, g, m);
      if SingleRoot(k, g, m).Finite? {
        SingleRootRange(k, g, m);
      }
    }
  }

  lemma SingleRootRange(k: Coeffs, g: real, m: Lib)
    requires m.Sound() && k.a != 0.0 && Delta(k, g) > 0.0 && SingleRoot(k, g, m).Finite?
    ensures var root := SingleRoot(k, g, m).v;
            0.0 <= root <= MAX_VOLTAGE <==>
            k.a * (Cubic(k, 0.0) - g) <= 0.0 <= k.a * (Cubic(k, MAX_VOLTAGE) - g)
  {
    hide *;
    SingleRootForm(k, g, m);
    var root := SingleRoot(k, g, m).v;
    SignAwayFromRoot(k, g, m, root, 0.0);
    SignAwayFromRoot(k, g, m, root, MAX_VOLTAGE);
    Cancel(k.a, Cubic(k, 0.0), g);
    Cancel(k.a, Cubic(k, MAX_VOLTAGE), g);
  }

  lemma Cancel(a: real, y: real, g: real)
    ensures y == g ==> a * (y - g) == 0.0
  {
  }

  /** Outside case 2 the answer is zero or a candidate in range. */
  lemma OtherOutputs(k: Coeffs, g: real, m: Lib)
    ensures OneRealRoot(k, g) ==> TargetGToVLevelsUnderCubic(k, g, m) == SingleRoot(k, g, m)
    ensures !OneRealRoot(k, g) ==>
              var r := TargetGToVLevelsUnderCubic(k, g, m);
              r == Finite(0.0) || InRange(r)
  {
    FirstInRangeMember([Quotient(-k.b, 3.0 * k.a)]);
    FirstInRangeMember(TrigCandidates(k, g, m));
    FirstInRangeMember(DoubleRootCandidates(k, g));
  }

  // ---------- Case 3: three real roots ----------

  lemma ArgumentInside(q: real, A: real, s: real, n: real, d: real, t: real)
    requires A > 0.0 && s > 0.0 && s * s == A && n > 0.0 && q * q + n == 4.0 * A * A * A
    requires d == 2.0 * A * s && q == t * d
    ensures d > 0.0 && -1.0 < t < 1.0
  {
    ProductPositive(2.0 * A, s, d);
    assert d * d == 4.0 * A * A * (s * s);
    SquareLess(t, d, q * q, d * d);
  }

  lemma SquareLess(t: real, d: real, qq: real, dd: real)
    requires d > 0.0 && qq == t * d * (t * d) && dd == d * d && qq < dd
    ensures -1.0 < t < 1.0
  {
    assert (1.0 - t) * (1.0 + t) * dd == dd - qq;
    if t >= 1.0 { TimesAtLeast(t, dd); } else if t <= -1.0 { TimesAtLeast(-t, dd); }
  }

  lemma TimesAtLeast(t: real, dd: real)
    requires t >= 1.0 && dd > 0.0
    ensures t * t * dd >= dd
  {
    assert t * t >= 1.0;
    assert (t * t - 1.0) * dd >= 0.0;
  }

  lemma CubePositive(A: real, p: real)
    requires p == A * A * A && p > 0.0
    ensures A > 0.0
  {
    SquareSign(A, A * A);
    if A < 0.0 { ProductPositive(-A, A * A, -p); }
  }

  /** Case 3 is well defined: sqrt is taken of a positive A and acos strictly inside (-1, 1). */
  lemma AcosDefined(k: Coeffs, g: real, m: Lib)
    requires m.Sound() && k.a != 0.0 && Delta(k, g) < 0.0
    ensures AA(k) > 0.0 && m.sqrt(AA(k)) > 0.0
    ensures -1.0 < CosArgument(k, g, m) < 1.0
  {
    hide *;
    var A, q, n := AA(k), Q(k, g), -9.0 * k.a * k.a * Delta(k, g);
    Discriminant(k, g);
    SquareSign(k.a, k.a * k.a);
    ProductPositive(9.0 * (k.a * k.a), -Delta(k, g), n);
    SquareSign(q, q * q);
    CubePositive(A, A * A * A);
    m.SqrtLaw(A);
    CosArgumentByDefinition(k, g, m, 2.0 * A * m.sqrt(A));
    ArgumentInside(q, A, m.sqrt(A), n, 2.0 * A * m.sqrt(A), CosArgument(k, g, m));
  }

  lemma CosArgumentByDefinition(k: Coeffs, g: real, m: Lib, d: real)
    requires AA(k) != 0.0 && m.sqrt(AA(k)) != 0.0 && d == 2.0 * AA(k) * m.sqrt(AA(k))
    ensures Q(k, g) == CosArgument(k, g, m) * d
  {
    hide AA, BB;
    NonZeroProduct(2.0 * AA(k), m.sqrt(AA(k)), d);
  }

  /** The depressed cubic factors over -2u, u+v and u-v. */
  lemma ThreeFactors(w: real, A: real, u: real, v: real, q: real)
    requires v * v == 3.0 * A - 3.0 * u * u && 8.0 * u * u * u - 6.0 * u * A == q
    ensures w * w * w - 3.0 * A * w + q == (w + 2.0 * u) * (w - u - v) * (w - u + v)
  {
    assert (w - u - v) * (w - u + v) == (w - u) * (w - u) - v * v;
    assert (w + 2.0 * u) * ((w - u) * (w - u) - (3.0 * A - 3.0 * u * u))
        == w * w * w - 3.0 * A * w + 8.0 * u * u * u - 6.0 * u * A;
    assert (w - u - v) * (w - u + v) == (w - u) * (w - u) - (3.0 * A - 3.0 * u * u);
  }

  lemma ZeroOfThreeFactors(p: real, q: real, r: real, product: real)
    requires product == p * q * r
    ensures product == 0.0 <==> p == 0.0 || q == 0.0 || r == 0.0
  {
    NonZeroProduct(p, q, p * q);
    NonZeroProduct(p * q, r, product);
  }

  /** v*v = s*s * r3*r3 * sn*sn and u*u = s*s * c*c, with the squares named. */
  lemma SquaredTerms(A: real, vv: real, uu: real, ss: real, rr: real, nn: real, cc: real)
    requires ss == A && rr == 3.0 && nn + cc == 1.0 && vv == ss * rr * nn && uu == ss * cc
    ensures vv == 3.0 * A - 3.0 * uu
  {
    assert nn == 1.0 - cc;
  }

  /** 8u^3 - 6uA with u = s*c, through the triple-angle law. */
  lemma CubedTerm(A: real, s: real, c: real, t: real, q: real, ss: real, d: real, lhs: real)
    requires ss == A && 4.0 * c * c * c - 3.0 * c == t && d == 2.0 * A * s && q == t * d
    requires lhs == 8.0 * (ss * s) * (c * c * c) - 6.0 * s * c * A
    ensures lhs == q
  {
    assert lhs == d * (4.0 * c * c * c - 3.0 * c);
  }

  /** What libm says of the quantities of case 3. */
  lemma AngleFacts(k: Coeffs, g: real, m: Lib) returns (s: real, r3: real, t: real, c: real, sn: real, d: real)
    requires m.Sound() && k.a != 0.0 && Delta(k, g) < 0.0
    ensures AA(k) > 0.0 && s == m.sqrt(AA(k)) > 0.0 && r3 == m.sqrt(3.0) && t == CosArgument(k, g, m)
    ensures c == m.cos(m.acos(t) / 3.0) && sn == m.sin(m.acos(t) / 3.0) && -1.0 < t < 1.0
    ensures s * s == AA(k) && r3 * r3 == 3.0 && d == 2.0 * AA(k) * s && Q(k, g) == t * d
    ensures sn * sn + c * c == 1.0 && 4.0 * c * c * c - 3.0 * c == t && c >= 0.5 && sn >= 0.0 && r3 > 0.0
  {
    hide *;
    AcosDefined(k, g, m);
    s, r3, t := m.sqrt(AA(k)), m.sqrt(3.0), CosArgument(k, g, m);
    c, sn, d := m.cos(m.acos(t) / 3.0), m.sin(m.acos(t) / 3.0), 2.0 * AA(k) * s;
    m.SqrtLaw(AA(k));
    m.SqrtLaw(3.0);
    m.AngleLaw(t);
    ThirdOfAngleMeans(t, c, sn);
    CosArgumentByDefinition(k, g, m, d);
  }

  /** The depressed unknowns of the three candidates are -2u, u+v and u-v with u and v as ThreeFactors asks. */
  lemma AngleTerms(k: Coeffs, g: real, m: Lib) returns (u: real, v: real)
    requires m.Sound() && k.a != 0.0 && Delta(k, g) < 0.0
    ensures v * v == 3.0 * AA(k) - 3.0 * u * u && 8.0 * u * u * u - 6.0 * u * AA(k) == Q(k, g) && 0.0 <= v <= 3.0 * u
    ensures TrigCandidates(k, g, m) == [ Quotient(-k.b - 2.0 * u, 3.0 * k.a), Quotient(-k.b + u + v, 3.0 * k.a),
                                         Quotient(-k.b + u - v, 3.0 * k.a) ]
  {
    hide *;
    var s, r3, t, c, sn, d := AngleFacts(k, g, m);
    u, v := s * c, s * (r3 * sn);
    AngleIdentities(AA(k), s, r3, t, c, sn, Q(k, g), d, u, v);
    AngleOrder(AA(k), s, c, r3 * sn, u, v);
    ProductNonNegative(r3, sn, r3 * sn);
    TrigCandidatesForm(k, g, m, u, v);
  }

  /** The angle is at most a third of pi, so the terms are in order: -2u <= u - v <= u + v. */
  lemma AngleOrder(A: real, s: real, c: real, n: real, u: real, v: real)
    requires s > 0.0 && c >= 0.5 && s * s == A && u == s * c && v == s * n && v * v == 3.0 * A - 3.0 * u * u
    ensures n >= 0.0 ==> 0.0 <= v <= 3.0 * u
  {
    if n >= 0.0 {
      ProductNonNegative(s, n, v);
      ProductPositive(s, c, u);
      ProductNonNegative(2.0 * c - 1.0, 2.0 * c + 1.0, 4.0 * c * c - 1.0);
      ProductNonNegative(s * s, 4.0 * c * c - 1.0, 4.0 * ((s * c) * (s * c)) - A) by {
        SquareSign(s, s * s);
        assert 4.0 * ((s * c) * (s * c)) == (s * s) * (4.0 * c * c);
      }
      AtMostBySquares(v, 3.0 * u, v * v, 9.0 * (u * u));
    }
  }

  lemma AtMostBySquares(x: real, y: real, xx: real, yy: real)
    requires x >= 0.0 && y >= 0.0 && xx == x * x && yy == y * y && xx <= yy
    ensures x <= y
  {
    if x > y { ProductPositive(x - y, x + y, xx - yy); }
  }

  lemma AngleIdentities(A: real, s: real, r3: real, t: real, c: real, sn: real, q: real, d: real, u: real, v: real)
    requires s * s == A && r3 * r3 == 3.0 && d == 2.0 * A * s && q == t * d
    requires sn * sn + c * c == 1.0 && 4.0 * c * c * c - 3.0 * c == t
    requires u == s * c && v == s * (r3 * sn)
    ensures v * v == 3.0 * A - 3.0 * u * u && 8.0 * u * u * u - 6.0 * u * A == q
  {
    SquaredTerms(A, v * v, u * u, s * s, r3 * r3, sn * sn, c * c);
    CubedTerm(A, s, c, t, q, s * s, d, 8.0 * u * u * u - 6.0 * u * A);
  }

  lemma TrigCandidatesForm(k: Coeffs, g: real, m: Lib, u: real, v: real)
    requires AA(k) > 0.0 && m.sqrt(AA(k)) > 0.0 && -1.0 < CosArgument(k, g, m) < 1.0
    requires var third := m.acos(CosArgument(k, g, m)) / 3.0;
             u == m.sqrt(AA(k)) * m.cos(third) && v == m.sqrt(AA(k)) * (m.sqrt(3.0) * m.sin(third))
    ensures TrigCandidates(k, g, m) == [ Quotient(-k.b - 2.0 * u, 3.0 * k.a), Quotient(-k.b + u + v, 3.0 * k.a),
                                         Quotient(-k.b + u - v, 3.0 * k.a) ]
  {
    hide AA, BB, CC, Delta, CosArgument, Quotient;
    var sqrtA, third := m.sqrt(AA(k)), m.acos(CosArgument(k, g, m)) / 3.0;
    var cosSita, sinSitaSqrt3 := m.cos(third), m.sqrt(3.0) * m.sin(third);
    assert -k.b - 2.0 * sqrtA * cosSita == -k.b - 2.0 * u;
    assert -k.b + sqrtA * (cosSita + sinSitaSqrt3) == -k.b + u + v;
    assert -k.b + sqrtA * (cosSita - sinSitaSqrt3) == -k.b + u - v;
  }

  /** A real number is the candidate num / 3a exactly when its depressed unknown is num + b. */
  lemma CandidateIff(k: Coeffs, num: real, x: real)
    requires k.a != 0.0
    ensures Quotient(num, 3.0 * k.a) == Finite(x) <==> W(k, x) == num + k.b
  {
    WOfQuotient(k, num);
    var y := Quotient(num, 3.0 * k.a).v;
    WDifference(k, x, y);
    NonZeroProduct(3.0 * k.a, x - y, 3.0 * k.a * (x - y));
  }

  /** The candidates of case 3 are all the solutions. */
  lemma TrigCandidatesExact(k: Coeffs, g: real, m: Lib, x: real)
    requires m.Sound() && k.a != 0.0 && Delta(k, g) < 0.0
    ensures Cubic(k, x) == g <==> Finite(x) in TrigCandidates(k, g, m)
  {
    hide *;
    var u, v := AngleTerms(k, g, m);
    var w := W(k, x);
    SolutionIff(k, g, x);
    ThreeFactors(w, AA(k), u, v, Q(k, g));
    ZeroOfThreeFactors(w + 2.0 * u, w - u - v, w - u + v, (w + 2.0 * u) * (w - u - v) * (w - u + v));
    CandidateIff(k, -k.b - 2.0 * u, x);
    CandidateIff(k, -k.b + u + v, x);
    CandidateIff(k, -k.b + u - v, x);
  }

  // ---------- Case 1: a triple root ----------

  lemma TripleRootResidual(k: Coeffs, g: real, x: real)
    requires k.a != 0.0 && Quotient(-k.b, 3.0 * k.a) == Finite(x)
    ensures 27.0 * k.a * k.a * (Cubic(k, x) - g) == Q(k, g)
  {
    hide *;
    CandidateIff(k, -k.b, x);
    Depressed(k, g, x);
  }

  /** With A = B = 0 the one candidate is the only solution. */
  lemma TripleRootExact(k: Coeffs, g: real, x: real)
    requires k.a != 0.0 && AA(k) == 0.0 && BB(k, g) == 0.0
    ensures Cubic(k, x) == g <==> Finite(x) == Quotient(-k.b, 3.0 * k.a)
  {
    var w := W(k, x);
    assert Q(k, g) == 0.0;
    hide *;
    SolutionIff(k, g, x);
    ZeroOfThreeFactors(w, w, w, w * w * w);
    CandidateIff(k, -k.b, x);
  }

  // ---------- Case 4: a double root ----------

  /** With h = Q / 2A, the depressed unknowns of the two candidates are -2h and h. */
  lemma DoubleRootForm(k: Coeffs, g: real) returns (h: real, x: real, y: real)
    requires k.a != 0.0 && AA(k) != 0.0
    ensures DoubleRootCandidates(k, g) == [Finite(x), Finite(y)]
    ensures Q(k, g) == 2.0 * AA(k) * h && W(k, x) == -2.0 * h && W(k, y) == h
    ensures 4.0 * AA(k) * AA(k) * (h * h - AA(k)) == 9.0 * k.a * k.a * Delta(k, g)
  {
    var p, q := -k.b / k.a, BB(k, g) / AA(k);
    h := Q(k, g) / (2.0 * AA(k));
    x, y := p + q, -q / 2.0;
    assert q * AA(k) == BB(k, g);
    DoubleRootW(k, g, h, p, q);
    Discriminant(k, g);
    HalfQ(AA(k), h, Q(k, g), 9.0 * k.a * k.a * Delta(k, g));
  }

  lemma DoubleRootW(k: Coeffs, g: real, h: real, p: real, q: real)
    requires k.a * p == -k.b && q * AA(k) == BB(k, g) && Q(k, g) == 2.0 * AA(k) * h && AA(k) != 0.0
    ensures W(k, p + q) == -2.0 * h && W(k, -q / 2.0) == h
  {
    hide AA, BB;
    var A := AA(k);
    assert A * (2.0 * k.b - 3.0 * k.a * q - 2.0 * h) == 0.0;
    ZeroFactor(A, 2.0 * k.b - 3.0 * k.a * q - 2.0 * h);
  }

  lemma HalfQ(A: real, h: real, q: real, n: real)
    requires q == 2.0 * A * h && q * q - n == 4.0 * A * A * A
    ensures 4.0 * A * A * (h * h - A) == n
  {
  }

  /** What case 4 misses the target by, for each of its two candidates x and y. */
  lemma DoubleRootResidual(k: Coeffs, g: real) returns (x: real, y: real)
    requires k.a != 0.0 && AA(k) != 0.0
    ensures DoubleRootCandidates(k, g) == [Finite(x), Finite(y)]
    ensures 3.0 * AA(k) * AA(k) * (Cubic(k, x) - g) == W(k, x) * Delta(k, g)
    ensures 12.0 * AA(k) * AA(k) * (Cubic(k, y) - g) == W(k, y) * Delta(k, g)
    ensures AA(k) * W(k, x) == -Q(k, g) && 2.0 * AA(k) * W(k, y) == Q(k, g)
  {
    hide *;
    var h;
    h, x, y := DoubleRootForm(k, g);
    Depressed(k, g, x);
    Depressed(k, g, y);
    DepressedAtRoots(AA(k), h, Q(k, g), W(k, x));
    DepressedAtRoots(AA(k), h, Q(k, g), W(k, y));
    ScaledResidual(k.a, AA(k), h, h * h - AA(k), Delta(k, g), Cubic(k, x) - g, -8.0);
    ScaledResidual(k.a, AA(k), h, h * h - AA(k), Delta(k, g), Cubic(k, y) - g, 1.0);
  }

  lemma DepressedAtRoots(A: real, h: real, q: real, w: real)
    requires q == 2.0 * A * h
    ensures w == -2.0 * h ==> w * w * w - 3.0 * A * w + q == -8.0 * h * (h * h - A)
    ensures w == h ==> w * w * w - 3.0 * A * w + q == h * (h * h - A)
  {
  }

  lemma ScaledResidual(a: real, A: real, h: real, r: real, delta: real, f: real, s: real)
    requires a != 0.0 && 4.0 * A * A * r == 9.0 * a * a * delta && 27.0 * a * a * f == s * h * r
    ensures 12.0 * A * A * f == s * h * delta
  {
    var z := 12.0 * A * A * f - s * h * delta;
    assert 9.0 * (a * (a * z)) == 4.0 * A * A * (27.0 * a * a * f) - s * h * (9.0 * a * a * delta);
    assert 4.0 * A * A * (s * h * r) == s * h * (4.0 * A * A * r);
    NonZeroProduct(a, z, a * z);
    NonZeroProduct(a, a * z, a * (a * z));
  }

  /** With a = 0 case 4 still finds the double root of the parabola that is left. */
  lemma ParabolaVertex(k: Coeffs, g: real, y: real)
    requires k.a == 0.0 && k.b != 0.0 && 2.0 * k.b * y == -k.c
    ensures Cubic(k, y) == g <==> Delta(k, g) == 0.0
  {
    var f := Cubic(k, y) - g;
    assert 4.0 * k.b * f == (2.0 * k.b * y) * (2.0 * k.b * y) + 2.0 * k.c * (2.0 * k.b * y) + 4.0 * k.b * (k.d - g);
    assert 4.0 * k.b * f == 4.0 * k.b * (k.d - g) - k.c * k.c;
    assert Delta(k, g) == 3.0 * k.b * k.b * (4.0 * k.b * f);
    NonZeroProduct(k.b, f, k.b * f);
    NonZeroProduct(k.b, k.b * f, k.b * (k.b * f));
    NonZeroProduct(k.b, k.b * (k.b * f), k.b * (k.b * (k.b * f)));
  }

  // ---------- The solver as a whole ----------

  /** Where the tolerance of the discriminant tests cannot spoil the answer. */
  predicate ToleranceHarmless(k: Coeffs, g: real) {
    && (TripleRoot(k, g) ==> Q(k, g) == 0.0)
    && (DoubleRoot(k, g) ==> Delta(k, g) == 0.0 || Q(k, g) == 0.0)
  }

  /** The answers that stand for a voltage: any finite one of case 2, and any non-zero one of the others. */
  predicate Answers(k: Coeffs, g: real, r: Num) {
    r.Finite? && (OneRealRoot(k, g) || r.v != 0.0)
  }

  lemma TripleRootCase(k: Coeffs, g: real, m: Lib)
    requires TripleRoot(k, g) && Answers(k, g, TargetGToVLevelsUnderCubic(k, g, m))
    ensures Cubic(k, TargetGToVLevelsUnderCubic(k, g, m).v) == g <==> Q(k, g) == 0.0
  {
    hide *;
    TripleRootAnswer(k, g, m);
    var r := TargetGToVLevelsUnderCubic(k, g, m);
    TripleRootResidual(k, g, r.v);
    Scale(k.a, Cubic(k, r.v) - g, Q(k, g));
  }

  lemma TripleRootAnswer(k: Coeffs, g: real, m: Lib)
    requires TripleRoot(k, g) && Answers(k, g, TargetGToVLevelsUnderCubic(k, g, m))
    ensures k.a != 0.0 && TargetGToVLevelsUnderCubic(k, g, m).Finite?
    ensures TargetGToVLevelsUnderCubic(k, g, m) == Quotient(-k.b, 3.0 * k.a)
  {
    hide AA, BB, CC, Delta;
    FirstInRangeMember([Quotient(-k.b, 3.0 * k.a)]);
  }

  lemma Scale(a: real, f: real, q: real)
    requires a != 0.0 && 27.0 * a * a * f == q
    ensures f == 0.0 <==> q == 0.0
  {
    NonZeroProduct(a, f, a * f);
    NonZeroProduct(a, a * f, a * (a * f));
    assert q == 27.0 * (a * (a * f));
  }

  lemma DoubleRootCase(k: Coeffs, g: real, m: Lib)
    requires DoubleRoot(k, g) && Answers(k, g, TargetGToVLevelsUnderCubic(k, g, m))
    ensures Cubic(k, TargetGToVLevelsUnderCubic(k, g, m).v) == g <==> Delta(k, g) == 0.0 || Q(k, g) == 0.0
  {
    hide *;
    DoubleRootAnswer(k, g, m);
    var v := TargetGToVLevelsUnderCubic(k, g, m).v;
    if k.a == 0.0 {
      ParabolaCase(k, g, v);
    } else {
      var x, y := DoubleRootResidual(k, g);
      if v == x {
        ResidualVanishes(AA(k), Cubic(k, x) - g, W(k, x), Delta(k, g), Q(k, g), 3.0, -1.0);
      } else {
        ResidualVanishes(AA(k), Cubic(k, y) - g, W(k, y), Delta(k, g), Q(k, g), 12.0, 2.0);
      }
    }
  }

  lemma DoubleRootAnswer(k: Coeffs, g: real, m: Lib)
    requires DoubleRoot(k, g) && Answers(k, g, TargetGToVLevelsUnderCubic(k, g, m))
    ensures AA(k) != 0.0 && TargetGToVLevelsUnderCubic(k, g, m).Finite?
    ensures TargetGToVLevelsUnderCubic(k, g, m) in DoubleRootCandidates(k, g)
  {
    hide AA, BB, CC, Delta;
    FirstInRangeMember(DoubleRootCandidates(k, g));
  }

  lemma ParabolaCase(k: Coeffs, g: real, y: real)
    requires k.a == 0.0 && AA(k) != 0.0 && Finite(y) in DoubleRootCandidates(k, g)
    ensures Q(k, g) != 0.0
    ensures Cubic(k, y) == g <==> Delta(k, g) == 0.0
  {
    assert k.b != 0.0;
    var q := BB(k, g) / AA(k);
    assert Finite(y) == Finite(-q / 2.0);
    assert k.b * (k.b * q - k.c) == 0.0;
    ZeroFactor(k.b, k.b * q - k.c);
    ParabolaVertex(k, g, y);
    NonZeroProduct(AA(k), k.b, AA(k) * k.b);
  }

  lemma ResidualVanishes(A: real, f: real, w: real, delta: real, q: real, s: real, t: real)
    requires A != 0.0 && s * A * A * f == w * delta && s != 0.0 && t != 0.0 && t * A * w == q
    ensures f == 0.0 <==> delta == 0.0 || q == 0.0
  {
    NonZeroProduct(w, delta, w * delta);
    NonZeroProduct(t * A, w, q);
    NonZeroProduct(t, A, t * A);
    NonZeroProduct(s, A, s * A);
    NonZeroProduct(s * A, A, s * A * A);
    NonZeroProduct(s * A * A, f, w * delta);
  }

  /** The solver inverts the evaluator: an answer, given back to the forward polynomial as a fraction of
      the maximal voltage, yields the target, exactly when no tolerance got in the way. */
  lemma SolverInvertsEvaluator(k: Coeffs, g: real, m: Lib)
    requires m.Sound() && Answers(k, g, TargetGToVLevelsUnderCubic(k, g, m))
    ensures VLevelsToTargetG(k, TargetGToVLevelsUnderCubic(k, g, m).v / MAX_VOLTAGE) == g
       <==> ToleranceHarmless(k, g)
  {
    var r := TargetGToVLevelsUnderCubic(k, g, m);
    assert r.v / MAX_VOLTAGE * MAX_VOLTAGE == r.v;
    ThreeRootsCase(k, g, m);
    hide AA, BB, CC, Delta, Cubic, Q, SingleRoot, TrigCandidates, DoubleRootCandidates;
    if TripleRoot(k, g) {
      TripleRootCase(k, g, m);
    } else if OneRealRoot(k, g) {
      SingleRootDefined(k, g, m);
      SingleRootExact(k, g, m, r.v);
    } else if DoubleRoot(k, g) {
      DoubleRootCase(k, g, m);
    }
  }

  lemma ThreeRootsCase(k: Coeffs, g: real, m: Lib)
    requires m.Sound() && Answers(k, g, TargetGToVLevelsUnderCubic(k, g, m))
    ensures ThreeRealRoots(k, g) ==> Cubic(k, TargetGToVLevelsUnderCubic(k, g, m).v) == g
  {
    if ThreeRealRoots(k, g) {
      var r := TargetGToVLevelsUnderCubic(k, g, m);
      FirstInRangeMember(TrigCandidates(k, g, m));
      assert r in TrigCandidates(k, g, m) && k.a != 0.0;
      hide *;
      TrigCandidatesExact(k, g, m, r.v);
    }
  }

  /** Discriminants that are exactly what the case distinction takes them for. */
  predicate ExactDiscriminant(k: Coeffs, g: real) {
    && (TripleRoot(k, g) ==> AA(k) == 0.0 && BB(k, g) == 0.0)
    && (DoubleRoot(k, g) ==> Delta(k, g) == 0.0)
  }

  /** With A not zero and Delta zero, the two candidates of case 4 are all the solutions. */
  lemma DoubleRootExact(k: Coeffs, g: real, x: real)
    requires k.a != 0.0 && AA(k) != 0.0 && Delta(k, g) == 0.0
    ensures Cubic(k, x) == g <==> Finite(x) in DoubleRootCandidates(k, g)
  {
    hide *;
    var h, r1, r2 := DoubleRootForm(k, g);
    var w := W(k, x);
    SolutionIff(k, g, x);
    SquareOfH(AA(k), h);
    FactorsOfDouble(w, AA(k), h, Q(k, g));
    ZeroOfThreeFactors(w + 2.0 * h, w - h, w - h, (w + 2.0 * h) * (w - h) * (w - h));
    WDifference(k, x, r1);
    WDifference(k, x, r2);
    NonZeroProduct(3.0 * k.a, x - r1, 3.0 * k.a * (x - r1));
    NonZeroProduct(3.0 * k.a, x - r2, 3.0 * k.a * (x - r2));
  }

  lemma SquareOfH(A: real, h: real)
    requires A != 0.0 && 4.0 * A * A * (h * h - A) == 0.0
    ensures h * h == A
  {
    NonZeroProduct(A, h * h - A, A * (h * h - A));
    NonZeroProduct(A, A * (h * h - A), A * (A * (h * h - A)));
  }

  lemma FactorsOfDouble(w: real, A: real, h: real, q: real)
    requires h * h == A && q == 2.0 * A * h
    ensures w * w * w - 3.0 * A * w + q == (w + 2.0 * h) * (w - h) * (w - h)
  {
    assert (w + 2.0 * h) * (w - h) * (w - h) == w * w * w - 3.0 * (h * h) * w + 2.0 * (h * h) * h;
  }

  /** The candidates of the three cases that check the range. */
  function GuardedCandidates(k: Coeffs, g: real, m: Lib): seq<Num> {
    if TripleRoot(k, g) then [Quotient(-k.b, 3.0 * k.a)]
    else if ThreeRealRoots(k, g) then TrigCandidates(k, g, m)
    else DoubleRootCandidates(k, g)
  }

  lemma GuardedAnswer(k: Coeffs, g: real, m: Lib)
    requires !OneRealRoot(k, g)
    ensures TargetGToVLevelsUnderCubic(k, g, m) == FirstInRange(GuardedCandidates(k, g, m))
  {
    hide AA, BB, CC, Delta, TrigCandidates, DoubleRootCandidates, FirstInRange;
  }

  /** The candidates of the guarded cases are all the solutions. */
  lemma GuardedCandidatesExact(k: Coeffs, g: real, m: Lib, x: real)
    requires m.Sound() && k.a != 0.0 && ExactDiscriminant(k, g) && !OneRealRoot(k, g)
    ensures Cubic(k, x) == g <==> Finite(x) in GuardedCandidates(k, g, m)
  {
    hide AA, BB, CC, Delta, Cubic, TrigCandidates, DoubleRootCandidates;
    if TripleRoot(k, g) {
      TripleRootExact(k, g, x);
    } else if ThreeRealRoots(k, g) {
      TrigCandidatesExact(k, g, m, x);
    } else {
      DiscriminantAtDouble(k, g);
      DoubleRootExact(k, g, x);
    }
  }

  /** A is not zero in case 4 with Delta = 0. */
  lemma DiscriminantAtDouble(k: Coeffs, g: real)
    requires !TripleRoot(k, g) && Delta(k, g) == 0.0
    ensures AA(k) != 0.0
  {
    hide AA, BB, CC;
    if AA(k) == 0.0 {
      NonZeroProduct(BB(k, g), BB(k, g), BB(k, g) * BB(k, g));
    }
  }

  /** Where the solver finds the solutions there are: not in case 2 with a Y that is negative and the other within the
      tolerance of zero, and with a = 0 only in case 4. */
  predicate Finds(k: Coeffs, g: real, m: Lib) {
    if k.a != 0.0 then OneRealRoot(k, g) ==> CubeRootsDefined(k, g, m) else DoubleRoot(k, g)
  }

  /** With exact discriminants and some voltage in (FLOAT_EPS, MAX_VOLTAGE] that reaches the target, the solver answers
      one exactly where `Finds` says; elsewhere it answers a NaN in case 2, and zero with a = 0. */
  lemma SolverMissesNoSolution(k: Coeffs, g: real, m: Lib, x: real)
    requires m.Sound() && ExactDiscriminant(k, g)
    requires Cubic(k, x) == g && InRange(Finite(x))
    ensures var r := TargetGToVLevelsUnderCubic(k, g, m);
            && (InRange(r) && Cubic(k, r.v) == g <==> Finds(k, g, m))
            && (!Finds(k, g, m) ==> r == if k.a != 0.0 then NotFinite else Finite(0.0))
  {
    hide AA, BB, CC, Delta, Cubic, FirstInRange, TargetGToVLevelsUnderCubic, TrigCandidates, DoubleRootCandidates,
         GuardedCandidates, SingleRoot, CubeRootsDefined;
    var r := TargetGToVLevelsUnderCubic(k, g, m);
    if k.a == 0.0 {
      ParabolaAnswer(k, g, m, x);
    } else if OneRealRoot(k, g) {
      OtherOutputs(k, g, m);
      SingleRootDefined(k, g, m);
      if CubeRootsDefined(k, g, m) {
        SingleRootExact(k, g, m, x);
      }
    } else {
      GuardedAnswer(k, g, m);
      GuardedCandidatesExact(k, g, m, x);
      FirstInRangeMember(GuardedCandidates(k, g, m));
      GuardedCandidatesExact(k, g, m, r.v);
    }
  }

  /** What is left of the solver with a = 0, where the forward polynomial is a parabola. */
  lemma ParabolaAnswer(k: Coeffs, g: real, m: Lib, x: real)
    requires k.a == 0.0 && ExactDiscriminant(k, g) && Cubic(k, x) == g && InRange(Finite(x))
    ensures TargetGToVLevelsUnderCubic(k, g, m) == if DoubleRoot(k, g) then Finite(x) else Finite(0.0)
  {
    hide AA, BB, CC, Delta, Cubic, FirstInRange, TargetGToVLevelsUnderCubic, TrigCandidates, DoubleRootCandidates;
    ParabolaDiscriminant(k, g, x);
    GuardedAnswer(k, g, m);
    if TripleRoot(k, g) {
      NothingFinite([Quotient(-k.b, 3.0 * k.a)]);
    } else if ThreeRealRoots(k, g) {
      TrigOfParabola(k, g, m);
      NothingFinite(TrigCandidates(k, g, m));
    } else {
      DiscriminantAtDouble(k, g);
      VertexCandidate(k, g, x);
      SecondInRange(x);
    }
  }

  /** With a = 0 a solution leaves no positive discriminant, and a vanishing one only where it is the vertex. */
  lemma ParabolaDiscriminant(k: Coeffs, g: real, x: real)
    requires k.a == 0.0 && Cubic(k, x) == g
    ensures Delta(k, g) <= 0.0
    ensures Delta(k, g) == 0.0 ==> k.b == 0.0 || 2.0 * k.b * x == -k.c
  {
    var b, c, s := k.b, k.c, 2.0 * k.b * x + k.c;
    var e := k.d - g;
    assert e == -(b * x * x) - c * x;
    assert AA(k) == b * b && BB(k, g) == b * c && CC(k, g) == c * c - 3.0 * b * e;
    ParabolaSquares(b, c, x, e, s, Delta(k, g));
    SquareSign(b * s, (b * s) * (b * s));
    NonZeroProduct(b, s, b * s);
  }

  lemma ParabolaSquares(b: real, c: real, x: real, e: real, s: real, delta: real)
    requires e == -(b * x * x) - c * x && s == 2.0 * b * x + c
    requires delta == (b * c) * (b * c) - 4.0 * (b * b) * (c * c - 3.0 * b * e)
    ensures delta == -3.0 * ((b * s) * (b * s))
  {
    assert s * s == c * c - 4.0 * (b * e);
    assert (b * s) * (b * s) == (b * b) * (s * s);
    assert delta == -3.0 * ((b * b) * (c * c - 4.0 * (b * e)));
  }

  lemma NothingFinite(candidates: seq<Num>)
    requires forall c :: c in candidates ==> c == NotFinite
    ensures FirstInRange(candidates) == Finite(0.0)
  {
    FirstInRangeMember(candidates);
  }

  lemma TrigOfParabola(k: Coeffs, g: real, m: Lib)
    requires k.a == 0.0
    ensures forall c :: c in TrigCandidates(k, g, m) ==> c == NotFinite
  {
    hide AA, BB;
    assert 3.0 * k.a == 0.0;
  }

  lemma VertexCandidate(k: Coeffs, g: real, x: real)
    requires k.a == 0.0 && AA(k) != 0.0 && (k.b == 0.0 || 2.0 * k.b * x == -k.c)
    ensures DoubleRootCandidates(k, g) == [NotFinite, Finite(x)]
  {
    assert k.b != 0.0;
    var q := BB(k, g) / AA(k);
    var y := -q / 2.0;
    assert k.b * (k.b * q - k.c) == 0.0;
    ZeroFactor(k.b, k.b * q - k.c);
    assert k.b * (x - y) == 0.0;
    ZeroFactor(k.b, x - y);
  }

  lemma SecondInRange(x: real)
    requires InRange(Finite(x))
    ensures FirstInRange([NotFinite, Finite(x)]) == Finite(x)
  {
    assert [NotFinite, Finite(x)][1..] == [Finite(x)];
  }

  // ---------- Which solution is answered ----------

  /** The order in which the solver meets solutions: upwards if a is positive, downwards if it is negative. */
  predicate Precedes(k: Coeffs, x: real, y: real) {
    if k.a > 0.0 then x <= y else y <= x
  }

  ghost predicate First(k: Coeffs, g: real, x: real) {
    Cubic(k, x) == g && forall y: real :: Cubic(k, y) == g ==> Precedes(k, x, y)
  }

  /** No solution that is a voltage comes later. */
  ghost predicate LastVoltage(k: Coeffs, g: real, x: real) {
    forall y: real :: Cubic(k, y) == g && FLOAT_EPS < y <= MAX_VOLTAGE ==> Precedes(k, y, x)
  }

  lemma OrderOfW(k: Coeffs, x: real, y: real)
    requires k.a != 0.0
    ensures Precedes(k, x, y) <==> W(k, x) <= W(k, y)
  {
    WDifference(k, x, y);
    hide W;
    if W(k, x) > W(k, y) {
      if k.a > 0.0 && x <= y { ProductNonNegative(k.a, y - x, k.a * (y - x)); }
      if k.a < 0.0 && y <= x { ProductNonNegative(-k.a, x - y, k.a * (y - x)); }
    } else {
      if k.a > 0.0 && x > y { ProductPositive(k.a, x - y, k.a * (x - y)); }
      if k.a < 0.0 && y > x { ProductPositive(-k.a, y - x, k.a * (x - y)); }
    }
  }

  /** The solutions of case 3 in the order they are tried: the first, the last, and the one between. */
  lemma RootsInOrder(k: Coeffs, g: real, m: Lib) returns (x: real, y: real, z: real)
    requires m.Sound() && k.a != 0.0 && Delta(k, g) < 0.0
    ensures TrigCandidates(k, g, m) == [Finite(x), Finite(y), Finite(z)]
    ensures Precedes(k, x, z) && Precedes(k, z, y) && Precedes(k, x, y)
  {
    hide *;
    var u, v := AngleTerms(k, g, m);
    WOfQuotient(k, -k.b - 2.0 * u);
    WOfQuotient(k, -k.b + u + v);
    WOfQuotient(k, -k.b + u - v);
    x, y, z := Quotient(-k.b - 2.0 * u, 3.0 * k.a).v, Quotient(-k.b + u + v, 3.0 * k.a).v, Quotient(-k.b + u - v, 3.0 * k.a).v;
    OrderOfW(k, x, z);
    OrderOfW(k, z, y);
    OrderOfW(k, x, y);
  }

  lemma OneOfThree(x: real, y: real, z: real)
    ensures FirstInRange([Finite(x), Finite(y), Finite(z)]) ==
            if FLOAT_EPS < x <= MAX_VOLTAGE then Finite(x)
            else if FLOAT_EPS < y <= MAX_VOLTAGE then Finite(y)
            else if FLOAT_EPS < z <= MAX_VOLTAGE then Finite(z)
            else Finite(0.0)
  {
    var all := [Finite(x), Finite(y), Finite(z)];
    assert all[1..] == [Finite(y), Finite(z)] && [Finite(y), Finite(z)][1..] == [Finite(z)] && [Finite(z)][1..] == [];
    assert FirstInRange([Finite(z)]) == if FLOAT_EPS < z <= MAX_VOLTAGE then Finite(z) else Finite(0.0);
  }

  /** Of three real solutions, the one that is answered is the first in the order of `Precedes` if it is a voltage in
      range, and otherwise the last of those in range: with a > 0 the least, or else the greatest in range. */
  lemma AnswerOfThree(k: Coeffs, g: real, m: Lib, v: real)
    requires m.Sound() && k.a != 0.0 && ThreeRealRoots(k, g) && Cubic(k, v) == g && FLOAT_EPS < v <= MAX_VOLTAGE
    ensures TargetGToVLevelsUnderCubic(k, g, m) == Finite(v) <==>
            First(k, g, v) || (LastVoltage(k, g, v) && forall y :: First(k, g, y) ==> !(FLOAT_EPS < y <= MAX_VOLTAGE))
  {
    assert Delta(k, g) < 0.0;
    hide AA, BB, CC, Delta, Cubic, TargetGToVLevelsUnderCubic, TrigCandidates, GuardedCandidates, First, LastVoltage;
    assert GuardedCandidates(k, g, m) == TrigCandidates(k, g, m) by { ThreeAreTrig(k, g, m); }
    GuardedAnswer(k, g, m);
    var x, y, z := RootsInOrder(k, g, m);
    OneOfThree(x, y, z);
    forall r: real ensures Cubic(k, r) == g <==> r == x || r == y || r == z {
      TrigCandidatesExact(k, g, m, r);
    }
    hide TripleRoot, ThreeRealRoots, FirstInRange;
    FirstIs(k, g, x, y, z);
    assert First(k, g, x);
    if !(FLOAT_EPS < x <= MAX_VOLTAGE) { LastIs(k, g, x, y, z, v); }
  }

  lemma ThreeAreTrig(k: Coeffs, g: real, m: Lib)
    requires ThreeRealRoots(k, g)
    ensures !OneRealRoot(k, g) && GuardedCandidates(k, g, m) == TrigCandidates(k, g, m)
  {
    hide AA, BB, CC, Delta, TrigCandidates, DoubleRootCandidates;
  }

  lemma FirstIs(k: Coeffs, g: real, x: real, y: real, z: real)
    requires k.a != 0.0 && Precedes(k, x, z) && Precedes(k, z, y)
    requires forall r: real :: Cubic(k, r) == g <==> r == x || r == y || r == z
    ensures forall r :: First(k, g, r) <==> r == x
  {
    hide Cubic;
    forall r ensures First(k, g, r) <==> r == x {
      if First(k, g, r) { assert Cubic(k, x) == g; }
    }
  }

  lemma LastIs(k: Coeffs, g: real, x: real, y: real, z: real, v: real)
    requires k.a != 0.0 && Precedes(k, x, z) && Precedes(k, z, y) && (v == x || v == y || v == z)
    requires forall r: real :: Cubic(k, r) == g <==> r == x || r == y || r == z
    requires !(FLOAT_EPS < x <= MAX_VOLTAGE) && FLOAT_EPS < v <= MAX_VOLTAGE
    ensures LastVoltage(k, g, v) <==> v == if FLOAT_EPS < y <= MAX_VOLTAGE then y else z
  {
    hide Cubic;
    assert Cubic(k, y) == g && Cubic(k, z) == g;
  }

  /** The slope of the forward polynomial: it vanishes at a double root. */
  function Slope(k: Coeffs, x: real): real {
    3.0 * k.a * x * x + 2.0 * k.b * x + k.c
  }

  lemma SlopeOfW(k: Coeffs, x: real, p: real)
    requires k.a != 0.0 && p == W(k, x) * W(k, x) - AA(k)
    ensures Slope(k, x) == 0.0 <==> p == 0.0
  {
    assert p == 3.0 * k.a * Slope(k, x);
    hide Slope, W, AA;
    NonZeroProduct(3.0 * k.a, Slope(k, x), p);
  }

  lemma OneOfTwo(x: real, y: real)
    ensures FirstInRange([Finite(x), Finite(y)]) ==
            if FLOAT_EPS < x <= MAX_VOLTAGE then Finite(x)
            else if FLOAT_EPS < y <= MAX_VOLTAGE then Finite(y)
            else Finite(0.0)
  {
    assert [Finite(x), Finite(y)][1..] == [Finite(y)] && [Finite(y)][1..] == [];
    assert FirstInRange([Finite(y)]) == if FLOAT_EPS < y <= MAX_VOLTAGE then Finite(y) else Finite(0.0);
  }

  /** Case 4 of a cubic, whatever the tolerance has let through: s and d are where the simple and the double root would
      be, and s is tried first. */
  lemma AnswerOfTwo(k: Coeffs, g: real, m: Lib, s: real, d: real)
    requires DoubleRoot(k, g) && k.a != 0.0 && AA(k) != 0.0
    requires AA(k) * W(k, s) == -Q(k, g) && 2.0 * AA(k) * W(k, d) == Q(k, g)
    ensures TargetGToVLevelsUnderCubic(k, g, m) ==
            if FLOAT_EPS < s <= MAX_VOLTAGE then Finite(s)
            else if FLOAT_EPS < d <= MAX_VOLTAGE then Finite(d)
            else Finite(0.0)
  {
    hide *;
    TwoAreDouble(k, g, m);
    GuardedAnswer(k, g, m);
    var x, y := DoubleRootResidual(k, g);
    SameRoot(k, AA(k), -Q(k, g), s, x);
    SameRoot(k, 2.0 * AA(k), Q(k, g), d, y);
    OneOfTwo(x, y);
  }

  lemma TwoAreDouble(k: Coeffs, g: real, m: Lib)
    requires DoubleRoot(k, g)
    ensures !OneRealRoot(k, g) && GuardedCandidates(k, g, m) == DoubleRootCandidates(k, g)
  {
    hide AA, BB, CC, Delta, TrigCandidates, DoubleRootCandidates;
  }

  lemma SameRoot(k: Coeffs, A: real, n: real, x: real, y: real)
    requires k.a != 0.0 && A != 0.0 && A * W(k, x) == n && A * W(k, y) == n
    ensures x == y
  {
    WDifference(k, x, y);
    hide W;
    SameFactor(A, n, W(k, x), W(k, y));
    ZeroFactor(3.0 * k.a, x - y);
  }

  lemma SameFactor(p: real, n: real, x: real, y: real)
    requires p != 0.0 && p * x == n && p * y == n
    ensures x == y
  {
    ZeroFactor(p, x - y);
  }

  /** With Delta = 0 the simple root is answered whenever it is a voltage in range, and otherwise the double one. */
  lemma AnswerOfDouble(k: Coeffs, g: real, m: Lib, v: real)
    requires k.a != 0.0 && DoubleRoot(k, g) && Delta(k, g) == 0.0 && Cubic(k, v) == g && FLOAT_EPS < v <= MAX_VOLTAGE
    ensures TargetGToVLevelsUnderCubic(k, g, m) == Finite(v) <==>
            Slope(k, v) != 0.0 || forall y :: Cubic(k, y) == g && Slope(k, y) != 0.0 ==> !(FLOAT_EPS < y <= MAX_VOLTAGE)
  {
    TripleExcluded(k, g);
    hide *;
    DiscriminantAtDouble(k, g);
    TwoAreDouble(k, g, m);
    GuardedAnswer(k, g, m);
    var s, d := SimpleAndDouble(k, g);
    OneOfTwo(s, d);
    forall y: real ensures Cubic(k, y) == g <==> y == s || y == d {
      DoubleRootExact(k, g, y);
    }
  }

  lemma TripleExcluded(k: Coeffs, g: real)
    requires DoubleRoot(k, g)
    ensures !TripleRoot(k, g)
  {
  }

  /** The slope tells the two apart. */
  lemma SimpleAndDouble(k: Coeffs, g: real) returns (s: real, d: real)
    requires k.a != 0.0 && AA(k) != 0.0 && Delta(k, g) == 0.0
    ensures DoubleRootCandidates(k, g) == [Finite(s), Finite(d)]
    ensures Slope(k, s) != 0.0 && Slope(k, d) == 0.0
  {
    hide *;
    var h;
    h, s, d := DoubleRootForm(k, g);
    SquareOfH(AA(k), h);
    SlopeOfW(k, s, 3.0 * AA(k)) by { assert (-2.0 * h) * (-2.0 * h) == 4.0 * (h * h); }
    SlopeOfW(k, d, 0.0);
  }

  /** Case 1 answers -b/3a if that is a voltage in range. */
  lemma AnswerOfTriple(k: Coeffs, g: real, m: Lib, x: real)
    requires TripleRoot(k, g) && k.a != 0.0 && 3.0 * k.a * x == -k.b
    ensures TargetGToVLevelsUnderCubic(k, g, m) == if FLOAT_EPS < x <= MAX_VOLTAGE then Finite(x) else Finite(0.0)
  {
    hide AA, BB, CC, Delta, Quotient;
    CandidateIff(k, -k.b, x);
    assert W(k, x) == 0.0 && [Finite(x)][1..] == [];
    assert FirstInRange([Finite(x)]) == if FLOAT_EPS < x <= MAX_VOLTAGE then Finite(x) else Finite(0.0);
  }

  /** With a = 0 case 4 answers the vertex of the parabola if that is a voltage in range; cases 1 and 3 answer zero. */
  lemma AnswerOfParabola(k: Coeffs, g: real, m: Lib, x: real)
    requires k.a == 0.0 && !OneRealRoot(k, g) && (k.b == 0.0 || 2.0 * k.b * x == -k.c)
    ensures TargetGToVLevelsUnderCubic(k, g, m) ==
            if DoubleRoot(k, g) && k.b != 0.0 && FLOAT_EPS < x <= MAX_VOLTAGE then Finite(x) else Finite(0.0)
  {
    SquareSign(k.b, k.b * k.b);
    assert AA(k) == k.b * k.b;
    GuardedAnswer(k, g, m);
    hide AA, BB, CC, Delta, Cubic, FirstInRange, TargetGToVLevelsUnderCubic, TrigCandidates, DoubleRootCandidates, InRange;
    if TripleRoot(k, g) {
      NothingFinite([Quotient(-k.b, 3.0 * k.a)]);
    } else if ThreeRealRoots(k, g) {
      TrigOfParabola(k, g, m);
      NothingFinite(TrigCandidates(k, g, m));
    } else {
      VertexTried(k, g, x);
    }
  }

  lemma VertexTried(k: Coeffs, g: real, x: real)
    requires k.a == 0.0 && (AA(k) == 0.0 <==> k.b == 0.0) && (k.b == 0.0 || 2.0 * k.b * x == -k.c)
    ensures FirstInRange(DoubleRootCandidates(k, g)) ==
            if k.b != 0.0 && FLOAT_EPS < x <= MAX_VOLTAGE then Finite(x) else Finite(0.0)
  {
    if k.b != 0.0 {
      VertexCandidate(k, g, x);
      assert [NotFinite, Finite(x)][1..] == [Finite(x)] && [Finite(x)][1..] == [];
      assert FirstInRange([Finite(x)]) == if FLOAT_EPS < x <= MAX_VOLTAGE then Finite(x) else Finite(0.0);
    }
    hide AA, BB;
  }

  /** Without a voltage in range among the solutions, the cases that check the range answer zero. */
  lemma NoVoltageNoAnswer(k: Coeffs, g: real, m: Lib)
    requires m.Sound() && !OneRealRoot(k, g) && ToleranceHarmless(k, g)
    requires forall x: real :: Cubic(k, x) == g ==> !(FLOAT_EPS < x <= MAX_VOLTAGE)
    ensures TargetGToVLevelsUnderCubic(k, g, m) == Finite(0.0)
  {
    hide AA, BB, CC, Delta, Cubic, TargetGToVLevelsUnderCubic, ToleranceHarmless, TripleRoot;
    OtherOutputs(k, g, m);
    var r := TargetGToVLevelsUnderCubic(k, g, m);
    if r != Finite(0.0) {
      assert r.v / MAX_VOLTAGE * MAX_VOLTAGE == r.v;
      SolverInvertsEvaluator(k, g, m);
    }
  }

  /** What the tolerance of case 1 costs: an error of at most FLOAT_EPS * (2|b| + 3|a|) / 27a^2. */
  lemma TripleRootErrorBound(k: Coeffs, g: real, m: Lib)
    requires TripleRoot(k, g) && Answers(k, g, TargetGToVLevelsUnderCubic(k, g, m))
    ensures 27.0 * k.a * k.a * Abs(Cubic(k, TargetGToVLevelsUnderCubic(k, g, m).v) - g)
         <= FLOAT_EPS * (2.0 * Abs(k.b) + 3.0 * Abs(k.a))
  {
    hide *;
    TripleRootAnswer(k, g, m);
    BoundOnQ(k, g);
    var r := TargetGToVLevelsUnderCubic(k, g, m);
    TripleRootResidual(k, g, r.v);
    SquareSign(k.a, k.a * k.a);
    AbsScale(27.0 * k.a * k.a, Cubic(k, r.v) - g, Q(k, g));
  }

  lemma AbsScale(s: real, f: real, q: real)
    requires s >= 0.0 && s * f == q
    ensures s * Abs(f) == Abs(q)
  {
    if f < 0.0 { ProductNonNegative(s, -f, -q); } else { ProductNonNegative(s, f, q); }
  }

  lemma BoundOnQ(k: Coeffs, g: real)
    requires TripleRoot(k, g)
    ensures Abs(Q(k, g)) <= FLOAT_EPS * (2.0 * Abs(k.b) + 3.0 * Abs(k.a))
  {
    hide AA, BB, CC, Delta;
    AbsProduct(AA(k), k.b, Abs(k.b), AA(k) * k.b);
    AbsProduct(BB(k, g), k.a, Abs(k.a), BB(k, g) * k.a);
    hide Abs;
    assert Q(k, g) == 2.0 * (AA(k) * k.b) - 3.0 * (BB(k, g) * k.a);
    AbsOfDifference(Q(k, g), AA(k) * k.b, BB(k, g) * k.a, Abs(k.b), Abs(k.a));
  }

  lemma AbsOfDifference(q: real, x: real, y: real, b: real, a: real)
    requires q == 2.0 * x - 3.0 * y && Abs(x) <= FLOAT_EPS * b && Abs(y) <= FLOAT_EPS * a
    ensures Abs(q) <= FLOAT_EPS * (2.0 * b + 3.0 * a)
  {
  }

  lemma AbsProduct(x: real, y: real, z: real, p: real)
    requires Abs(x) <= FLOAT_EPS && p == x * y && z == Abs(y)
    ensures Abs(p) <= FLOAT_EPS * z
  {
    var r := if y >= 0.0 then p else -p;
    ProductNonNegative(FLOAT_EPS - x, z, FLOAT_EPS * z - r);
    ProductNonNegative(FLOAT_EPS + x, z, FLOAT_EPS * z + r);
  }

  // ---------- Inputs on which the solver falls short ----------

  /** x^3 = 1: the solution 1 is in range, and the solver takes a cube root of -27 as a power. */
  lemma PureCubicHasNoAnswer(m: Lib)
    requires m.Sound()
    ensures Cubic(Coeffs(1.0, 0.0, 0.0, 0.0), 1.0) == 1.0 && InRange(Finite(1.0))
    ensures TargetGToVLevelsUnderCubic(Coeffs(1.0, 0.0, 0.0, 0.0), 1.0, m) == NotFinite
  {
    m.SqrtLaw(81.0);
    SquareRootIs(m.sqrt(81.0), 9.0);
    hide *;
    PureCubicTerms(m, Coeffs(1.0, 0.0, 0.0, 0.0));
    PureCubicBranch(m);
  }

  /** x^2 = 1, as a cubic with a = 0: the solution 1 is in range, every candidate divides by zero, and the solver
      answers zero. */
  lemma ParabolaHasNoAnswer(m: Lib)
    requires m.Sound()
    ensures var k := Coeffs(0.0, 1.0, 0.0, 0.0);
            && ExactDiscriminant(k, 1.0) && ThreeRealRoots(k, 1.0) && Cubic(k, 1.0) == 1.0 && InRange(Finite(1.0))
            && TargetGToVLevelsUnderCubic(k, 1.0, m) == Finite(0.0)
  {
    hide *;
    PureParabolaTerms(Coeffs(0.0, 1.0, 0.0, 0.0));
    PureParabola(Coeffs(0.0, 1.0, 0.0, 0.0), m);
  }

  lemma PureParabolaTerms(k: Coeffs)
    requires k == Coeffs(0.0, 1.0, 0.0, 0.0)
    ensures AA(k) == 1.0 && Delta(k, 1.0) == -12.0 && Cubic(k, 1.0) == 1.0
  {
    assert AA(k) == 1.0 && BB(k, 1.0) == 0.0 && CC(k, 1.0) == 3.0;
  }

  lemma PureParabola(k: Coeffs, m: Lib)
    requires m.Sound() && k == Coeffs(0.0, 1.0, 0.0, 0.0) && AA(k) == 1.0 && Delta(k, 1.0) == -12.0 && Cubic(k, 1.0) == 1.0
    ensures ExactDiscriminant(k, 1.0) && ThreeRealRoots(k, 1.0) && InRange(Finite(1.0))
    ensures TargetGToVLevelsUnderCubic(k, 1.0, m) == Finite(0.0)
  {
    hide AA, BB, CC, Delta, Cubic, TargetGToVLevelsUnderCubic;
    SolverMissesNoSolution(k, 1.0, m, 1.0);
  }

  /** x^3 = -1000: case 2 answers -10. */
  lemma AnswerBelowRange(m: Lib)
    requires m.Sound()
    ensures TargetGToVLevelsUnderCubic(Coeffs(1.0, 0.0, 0.0, 0.0), -1000.0, m) == Finite(-10.0)
  {
    m.SqrtLaw(81000000.0);
    SquareRootIs(m.sqrt(81000000.0), 9000.0);
    CubeInjective(m.cbrt(27000.0), 30.0);
    CubeInjective(m.cbrt(0.0), 0.0);
  }

  lemma PureCubicA(k: Coeffs)
    requires k == Coeffs(1.0, 0.0, 0.0, 0.0)
    ensures AA(k) == 0.0
  {
  }

  lemma PureCubicB(k: Coeffs)
    requires k == Coeffs(1.0, 0.0, 0.0, 0.0)
    ensures BB(k, 1.0) == 9.0
  {
  }

  lemma PureCubicDelta(k: Coeffs)
    requires AA(k) == 0.0 && BB(k, 1.0) == 9.0
    ensures Delta(k, 1.0) == 81.0
  {
    hide AA, BB, CC;
  }

  lemma PureCubicTerms(m: Lib, k: Coeffs)
    requires m.sqrt(81.0) == 9.0 && k == Coeffs(1.0, 0.0, 0.0, 0.0)
    ensures OneRealRoot(k, 1.0) && Y1(k, 1.0, m) == 0.0 && Y2(k, 1.0, m) == -27.0
  {
    hide AA, BB, CC, Delta;
    PureCubicA(k);
    PureCubicB(k);
    PureCubicDelta(k);
  }

  lemma PureCubicBranch(m: Lib)
    requires var k := Coeffs(1.0, 0.0, 0.0, 0.0);
             OneRealRoot(k, 1.0) && Y1(k, 1.0, m) == 0.0 && Y2(k, 1.0, m) == -27.0
    ensures TargetGToVLevelsUnderCubic(Coeffs(1.0, 0.0, 0.0, 0.0), 1.0, m) == NotFinite
  {
    hide AA, BB, CC, Delta, Y1, Y2;
  }

  lemma SquareRootIs(r: real, s: real)
    requires r >= 0.0 && s >= 0.0 && r * r == s * s
    ensures r == s
  {
    NonZeroProduct(r - s, r + s, r * r - s * s);
  }

  /** (x - 1)^2 (x - 2) = -10^-9: the discriminant is within the tolerance, the answer is not a solution. */
  lemma ToleranceCostsAccuracy(m: Lib)
    requires m.Sound()
    ensures var k, g := Coeffs(1.0, -4.0, 5.0, -2.0), -0.000000001;
            var r := TargetGToVLevelsUnderCubic(k, g, m);
            DoubleRoot(k, g) && Answers(k, g, r) && VLevelsToTargetG(k, r.v / MAX_VOLTAGE) != g
  {
    var k, g := Coeffs(1.0, -4.0, 5.0, -2.0), -0.000000001;
    assert AA(k) == 1.0 && BB(k, g) == -2.000000009 && CC(k, g) == 1.000000012;
    assert DoubleRoot(k, g);
    assert TargetGToVLevelsUnderCubic(k, g, m) == FirstInRange(DoubleRootCandidates(k, g));
    SolverInvertsEvaluator(k, g, m);
  }
}
