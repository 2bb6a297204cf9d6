/** From calibration data to the overdrive clamps the vibrator uses
    (vibrator/drv2624/Vibrator.cpp:148-156, 306-428). */
module Calibration {
  import opened Wrappers
  import opened Libm
  import opened LraPeriod
  import opened CubicSolver
  import opened CubicTheorems

  /** What the persistent calibration answers; None where it answers that it has no value. */
  datatype Data = Data(
    lraPeriod: uint32, closeLoopThreshold: uint32, dynamicConfig: bool, earlyBoard: bool,
    longFrequencyShift: uint32, shortVoltageMax: uint32, longVoltageMax: uint32,
    effectShape: uint32, steadyShape: uint32,
    effectCoeffs: Option<Coeffs>, effectTargetG: Option<seq<real>>,
    steadyCoeffs: Option<Coeffs>, steadyTargetG: Option<seq<real>>, steadyAmpMax: Option<real>)
  {
    /** The external targets are arrays of five and three. */
    predicate WellFormed() {
      && (effectTargetG.Some? ==> |effectTargetG.value| == 5)
      && (steadyTargetG.Some? ==> |steadyTargetG.value| == 3)
    }
  }

  /** libm, and what the machine makes of a float outside uint32, which C leaves open. */
  datatype Machine = Machine(lib: Lib, castAt: Num -> uint32)
  {
    function Cast(x: Num): uint32 { castAt(x) }
  }

  /** `round`: half away from zero. */
  function Round(x: real): int {
    if x >= 0.0 then (x + 0.5).Floor else -((-x + 0.5).Floor)
  }

  function ToUint32(x: Num, m: Machine): uint32 {
    if x.Finite? && 0 <= Round(x.v) < WORD then Round(x.v) else m.Cast(x)
  }

  /** The voltage of one unit of clamp, where it is defined. */
  function ClampStep(lraPeriod: uint32, lib: Lib): Num {
    match FreqPeriodFormula(lraPeriod)
    case None => NotFinite
    case Some(f) =>
      var radicand := 1.0 - f as real * 8.0 / 10000.0;
      if radicand < 0.0 then NotFinite else Finite(21.32 / 1000.0 * lib.sqrt(radicand))
  }

  function ConvertLevelsToOdClamp(level: Num, lraPeriod: uint32, m: Machine): uint32 {
    match (level, ClampStep(lraPeriod, m.lib))
    case (Finite(v), Finite(step)) => ToUint32(Quotient(v, step), m)
    case _ => m.Cast(NotFinite)
  }

  function EffectTargets(d: Data): seq<real>
    requires d.WellFormed()
    ensures |EffectTargets(d)| == 5
  {
    if d.effectCoeffs.Some? && d.effectTargetG.Some? then d.effectTargetG.value
    else if d.earlyBoard then [0.15, 0.27, 0.35, 0.54, 0.65]
    else [0.275, 0.55, 0.6, 0.9, 1.12]
  }

  function SteadyTargets(d: Data): seq<real>
    requires d.WellFormed()
    ensures |SteadyTargets(d)| == 3
  {
    if d.steadyTargetG.Some? then d.steadyTargetG.value
    else if d.earlyBoard then [1.2, 1.145, 0.4]
    else [2.15, 1.145, 1.3]
  }

  /** The linear approach when the last two coefficients are zero, the cubic one otherwise. */
  function EffectLevel(k: Coeffs, g: real, lib: Lib): Num {
    if k.c == 0.0 && k.d == 0.0 then TargetGToVLevelsUnderLinear(k, g)
    else TargetGToVLevelsUnderCubic(k, g, lib)
  }

  /** Level 3 of the steady vibration: the secant through 20% and 60% of the maximal voltage. */
  function Interpolated(k: Coeffs, g: real): Num {
    var low, high := VLevelsToTargetG(k, 0.2), VLevelsToTargetG(k, 0.6);
    match Quotient((g - low) * 0.4 * MAX_VOLTAGE, high - low)
    case Finite(x) => Finite(x + 0.2 * MAX_VOLTAGE)
    case NotFinite => NotFinite
  }

  function Bounded(clamp: uint32, max: uint32): uint32 {
    if clamp <= 0 || clamp > max then max else clamp
  }

  function UnboundedEffectClamp(d: Data, m: Machine, i: nat): uint32
    requires d.WellFormed() && i < 5
  {
    match d.effectCoeffs
    case Some(k) => ConvertLevelsToOdClamp(EffectLevel(k, EffectTargets(d)[i], m.lib), d.lraPeriod, m)
    case None => d.shortVoltageMax
  }

  /** Only the last level has a boundary protection. */
  function EffectClamp(d: Data, m: Machine, i: nat): uint32
    requires d.WellFormed() && i < 5
  {
    var clamp := UnboundedEffectClamp(d, m, i);
    if i == 4 then Bounded(clamp, d.shortVoltageMax) else clamp
  }

  function SteadyLevel(d: Data, k: Coeffs, m: Machine, i: nat): Num
    requires d.WellFormed() && i < 3
  {
    if i == 2 then Interpolated(k, SteadyTargets(d)[2]) else TargetGToVLevelsUnderCubic(k, SteadyTargets(d)[i], m.lib)
  }

  function Share(ratio: real, max: uint32): real {
    ratio * max as real
  }

  /** `round((target / ampMax) * max)`. */
  function ScaledClamp(target: real, ampMax: real, max: uint32, m: Machine): uint32 {
    match Quotient(target, ampMax)
    case Finite(ratio) => ToUint32(Finite(Share(ratio, max)), m)
    case NotFinite => m.Cast(NotFinite)
  }

  /** None for the one element the constructor leaves without a value. */
  function SteadyClamp(d: Data, m: Machine, i: nat): Option<uint32>
    requires d.WellFormed() && i < 3
  {
    match d.steadyCoeffs
    case Some(k) => Some(Bounded(ConvertLevelsToOdClamp(SteadyLevel(d, k, m, i), d.lraPeriod, m), d.longVoltageMax))
    case None =>
      if i == 1 then None
      else match d.steadyAmpMax
        case None => Some(d.longVoltageMax)
        case Some(amp) => Some(ScaledClamp(SteadyTargets(d)[i], amp, d.longVoltageMax, m))
  }

  // ---------- Properties ----------

  /** The linear solver answers a solution in range, or zero; a solution in range is answered if the slope is not zero,
      and zero is if it is, where every voltage or none is a solution. */
  lemma LinearExact(k: Coeffs, g: real, x: real)
    ensures var r := TargetGToVLevelsUnderLinear(k, g);
            && r.Finite?
            && (r.v != 0.0 ==> 0.0000001 < r.v <= 3.2 && k.a * r.v + k.b == g)
            && (0.0000001 < x <= 3.2 && k.a * x + k.b == g ==> r == if k.a != 0.0 then Finite(x) else Finite(0.0))
  {
    if k.a == 0.0 {
      FirstInRangeOne(NotFinite);
      assert TargetGToVLevelsUnderLinear(k, g) == FirstInRange([NotFinite]);
    } else {
      var y := (g - k.b) / k.a;
      FirstInRangeOne(Finite(y));
      assert TargetGToVLevelsUnderLinear(k, g) == FirstInRange([Finite(y)]);
      LineMeets(k.a, k.b, g, x, y);
    }
    hide FirstInRange;
  }

  lemma FirstInRangeOne(x: Num)
    ensures FirstInRange([x]) == if InRange(x) then x else Finite(0.0)
  {
    assert [x][1..] == [];
  }

  lemma LineMeets(a: real, b: real, g: real, x: real, y: real)
    requires a != 0.0 && y == (g - b) / a
    ensures a * y + b == g
    ensures a * x + b == g ==> x == y
  {
    var z := x - y;
    assert a * y == g - b;
    NonZeroProduct(a, z, a * z);
  }

  /** The interpolated level is where the secant meets the target, and it lies strictly between 20% and
      60% of the maximal voltage exactly when the target lies strictly between the accelerations there. */
  lemma InterpolatedOnSecant(k: Coeffs, g: real)
    ensures var low, high := VLevelsToTargetG(k, 0.2), VLevelsToTargetG(k, 0.6);
            var r := Interpolated(k, g);
            && (r.Finite? <==> low != high)
            && (r.Finite? ==>
                  && (r.v - 0.64) * (high - low) == (g - low) * 1.28
                  && (0.64 < r.v < 1.92 <==> low < g < high || high < g < low))
  {
    hide VLevelsToTargetG;
    var low, high := VLevelsToTargetG(k, 0.2), VLevelsToTargetG(k, 0.6);
    if low != high {
      var n, d := (g - low) * 0.4 * MAX_VOLTAGE, high - low;
      var x := n / d;
      assert x * d == n;
      Between(x, d, n, 0.4 * MAX_VOLTAGE, g - low);
    }
  }

  lemma Between(x: real, d: real, n: real, span: real, h: real)
    requires d != 0.0 && span > 0.0 && x * d == n && n == h * span
    ensures 0.0 < x < span <==> 0.0 < h < d || d < h < 0.0
  {
    assert (span - x) * d == (d - h) * span;
    if d > 0.0 {
      Sign(x, d, h, span);
      Sign(span - x, d, d - h, span);
    } else {
      Sign(x, -d, -h, span);
      Sign(span - x, -d, h - d, span);
    }
  }

  lemma Sign(x: real, d: real, h: real, span: real)
    requires d > 0.0 && span > 0.0 && x * d == h * span
    ensures x > 0.0 <==> h > 0.0
  {
    if x > 0.0 { ProductPositive(x, d, h * span); if h <= 0.0 { ProductNonNegative(-h, span, -(h * span)); } }
    if h > 0.0 { ProductPositive(h, span, x * d); if x <= 0.0 { ProductNonNegative(-x, d, -(x * d)); } }
  }

  /** Rounding moves a non-negative number by at most one half. */
  lemma RoundWithinHalf(x: real)
    ensures -1.0 <= 2.0 * (Round(x) as real - x) <= 1.0
    ensures x >= 0.0 ==> Round(x) >= 0
  {
  }

  /** Ties are rounded away from zero. */
  lemma RoundExact(x: real, n: int)
    ensures x >= 0.0 ==> (Round(x) == n <==> n as real - 0.5 <= x < n as real + 0.5)
    ensures Round(-x) == -Round(x)
  {
    if x >= 0.0 {
      var r := (x + 0.5).Floor;
      if n as real - 0.5 <= x < n as real + 0.5 {
        assert r as real <= x + 0.5 < r as real + 1.0;
        assert r == n;
      }
    }
  }

  /** The conversion, exactly: n units from half a unit below n, up to but not including half a unit above; a voltage
      outside those of the 32-bit numbers is left to the machine. */
  lemma ConversionExact(v: real, lraPeriod: uint32, m: Machine, step: real, n: uint32)
    requires ClampStep(lraPeriod, m.lib) == Finite(step) && step > 0.0
    ensures v >= 0.0 && 2.0 * n as real * step - step <= 2.0 * v < 2.0 * n as real * step + step ==>
              ConvertLevelsToOdClamp(Finite(v), lraPeriod, m) == n
    ensures v < 0.0 && -step < 2.0 * v ==> ConvertLevelsToOdClamp(Finite(v), lraPeriod, m) == 0
    ensures 2.0 * v <= -step || 2.0 * v >= 2.0 * 4294967295.0 * step + step ==>
              ConvertLevelsToOdClamp(Finite(v), lraPeriod, m) == m.Cast(Finite(v / step))
    ensures ConvertLevelsToOdClamp(NotFinite, lraPeriod, m) == m.Cast(NotFinite)
  {
    hide ClampStep, Round;
    var x := v / step;
    assert x * step == v;
    assert ConvertLevelsToOdClamp(Finite(v), lraPeriod, m) == ToUint32(Finite(x), m);
    RoundExact(x, n);
    RoundExact(-x, 0);
    RoundExact(x, 0);
    Scales(x, step, v, n as real - 0.5);
    Scales(x, step, v, n as real + 0.5);
    Scales(x, step, v, 0.0);
    Scales(-x, step, -v, 0.5);
    Scales(x, step, v, 4294967295.5);
    RoundBeyond(x);
  }

  /** x compares with y as x * step does with y * step. */
  lemma Scales(x: real, step: real, v: real, y: real)
    requires step > 0.0 && v == x * step
    ensures x < y <==> 2.0 * v < 2.0 * y * step
  {
    if x < y { ProductPositive(y - x, step, y * step - v); } else { ProductNonNegative(x - y, step, v - y * step); }
  }

  lemma RoundBeyond(x: real)
    ensures x >= 4294967295.5 ==> Round(x) >= WORD
    ensures x <= -0.5 ==> Round(x) < 0
  {
  }

  /** The conversion loses at most half a unit of clamp. */
  lemma ConversionError(v: real, lraPeriod: uint32, m: Machine, step: real)
    requires ClampStep(lraPeriod, m.lib) == Finite(step) && step > 0.0
    requires 0.0 <= v <= step * 4294967294.0
    ensures var clamp := ConvertLevelsToOdClamp(Finite(v), lraPeriod, m);
            -step <= 2.0 * (clamp as real * step - v) <= step
  {
    var x := v / step;
    assert x * step == v;
    if x < 0.0 { ProductPositive(-x, step, -v); }
    if x > 4294967294.0 { ProductPositive(x - 4294967294.0, step, v - step * 4294967294.0); }
    RoundWithinHalf(x);
    var e := Round(x) as real - x;
    ProductNonNegative(1.0 - 2.0 * e, step, step - 2.0 * (e * step));
    ProductNonNegative(1.0 + 2.0 * e, step, step + 2.0 * (e * step));
  }

  /** The unit of clamp is defined and positive for resonant frequencies below 1250 Hz. */
  lemma ClampStepPositive(lraPeriod: uint32, lib: Lib)
    requires lib.Sound() && FreqPeriodFormula(lraPeriod).Some? && FreqPeriodFormula(lraPeriod).value < 1250
    ensures ClampStep(lraPeriod, lib).Finite? && ClampStep(lraPeriod, lib).v > 0.0004
  {
    hide FreqPeriodFormula;
    var radicand := 1.0 - FreqPeriodFormula(lraPeriod).value as real * 8.0 / 10000.0;
    assert radicand >= 0.0008;
    lib.SqrtLaw(radicand);
    RootAbove(lib.sqrt(radicand), radicand);
  }

  /** The unit of clamp: defined up to 1250 Hz, and its square is (0.02132)^2 * (1 - 0.0008 f). */
  lemma ClampStepExact(lraPeriod: uint32, lib: Lib)
    requires lib.Sound()
    ensures ClampStep(lraPeriod, lib).Finite? <==>
            FreqPeriodFormula(lraPeriod).Some? && FreqPeriodFormula(lraPeriod).value <= 1250
    ensures ClampStep(lraPeriod, lib).Finite? ==>
              var f, step := FreqPeriodFormula(lraPeriod).value as real, ClampStep(lraPeriod, lib).v;
              step >= 0.0 && step * step == 0.02132 * 0.02132 * (1.0 - 0.0008 * f)
  {
    hide FreqPeriodFormula;
    if ClampStep(lraPeriod, lib).Finite? {
      var radicand := 1.0 - 0.0008 * FreqPeriodFormula(lraPeriod).value as real;
      ScaledRoot(lib.sqrt(radicand), radicand, ClampStep(lraPeriod, lib).v);
    }
  }

  lemma ScaledRoot(r: real, x: real, step: real)
    requires r >= 0.0 && r * r == x && step == 21.32 / 1000.0 * r
    ensures step >= 0.0 && step * step == 0.02132 * 0.02132 * x
  {
  }

  lemma RootAbove(r: real, x: real)
    requires r > 0.0 && r * r == x && x >= 0.0008
    ensures r > 0.02
  {
    if r <= 0.02 { ProductNonNegative(0.02 - r, 0.02 + r, 0.0004 - x); }
  }

  /** The forward curves of the calibration: for effects a line when the last two coefficients are zero, for the steady
      levels 1 and 2 the cubic, and for level 3 its secant through 0.64 V and 1.92 V, a fifth and three fifths of the
      maximal voltage. */
  datatype Curve = EffectCurve | SteadyCurve | SteadySecant

  function Forward(curve: Curve, k: Coeffs, v: real): real {
    match curve
    case EffectCurve => if k.c == 0.0 && k.d == 0.0 then k.a * v + k.b else Cubic(k, v)
    case SteadyCurve => Cubic(k, v)
    case SteadySecant => Cubic(k, 0.64) + (Cubic(k, 1.92) - Cubic(k, 0.64)) * (v - 0.64) / 1.28
  }

  /** A clamp stands, up to half a unit, for a voltage that reaches a target acceleration exactly. */
  ghost predicate StandsFor(clamp: uint32, step: real, curve: Curve, k: Coeffs, g: real) {
    exists v: real :: Forward(curve, k, v) == g && Abs(2.0 * (clamp as real * step - v)) <= step
  }

  predicate Tuned(d: Data, m: Machine) {
    d.WellFormed() && FreqPeriodFormula(d.lraPeriod).Some? && FreqPeriodFormula(d.lraPeriod).value < 1250
  }

  /** The target of an effect level: from the calibration if it has any, or one of two sets. */
  predicate IsEffectTarget(d: Data, i: nat, g: real)
    requires d.WellFormed() && i < 5
  {
    g == if d.effectTargetG.Some? then d.effectTargetG.value[i]
         else if d.earlyBoard then [0.15, 0.27, 0.35, 0.54, 0.65][i] else [0.275, 0.55, 0.6, 0.9, 1.12][i]
  }

  /** End to end: when the solver answers with an in-range voltage that no tolerance spoilt, the clamp stored for an
      effect level stands for a voltage that reaches the level's target, on the linear path and on the cubic one; for
      the last level, when the boundary protection has not replaced it. */
  lemma EffectClampReachesTarget(d: Data, m: Machine, i: nat, g: real)
    requires Tuned(d, m) && i < 5 && m.lib.Sound() && d.effectCoeffs.Some? && IsEffectTarget(d, i, g)
    requires var k := d.effectCoeffs.value;
             InRange(EffectLevel(k, g, m.lib)) && (k.c != 0.0 || k.d != 0.0 ==> ToleranceHarmless(k, g))
    requires i == 4 ==> 0 < UnboundedEffectClamp(d, m, 4) <= d.shortVoltageMax
    ensures ClampStep(d.lraPeriod, m.lib).Finite?
    ensures var k, step := d.effectCoeffs.value, ClampStep(d.lraPeriod, m.lib).v;
            StandsFor(EffectClamp(d, m, i), step, EffectCurve, k, g)
  {
    EffectTargetIs(d, i, g);
    assert d.WellFormed() && FreqPeriodFormula(d.lraPeriod).Some? && FreqPeriodFormula(d.lraPeriod).value < 1250;
    hide ClampStep, ConvertLevelsToOdClamp, TargetGToVLevelsUnderCubic, TargetGToVLevelsUnderLinear, ToleranceHarmless, Cubic,
         FreqPeriodFormula, StandsFor, EffectLevel, Forward, Interpolated, EffectClamp, SteadyClamp, IsEffectTarget, IsSteadyTarget,
         EffectTargets, SteadyTargets, Tuned;
    EffectClampIs(d, m, i, g);
    LevelStands(d.lraPeriod, m, d.effectCoeffs.value, g);
  }

  lemma EffectClampIs(d: Data, m: Machine, i: nat, g: real)
    requires d.WellFormed() && i < 5 && d.effectCoeffs.Some? && EffectTargets(d)[i] == g
    requires i == 4 ==> 0 < UnboundedEffectClamp(d, m, 4) <= d.shortVoltageMax
    ensures EffectClamp(d, m, i) == ConvertLevelsToOdClamp(EffectLevel(d.effectCoeffs.value, g, m.lib), d.lraPeriod, m)
  {
    hide ConvertLevelsToOdClamp, EffectTargets, EffectLevel;
  }

  lemma LevelStands(lraPeriod: uint32, m: Machine, k: Coeffs, g: real)
    requires m.lib.Sound() && FreqPeriodFormula(lraPeriod).Some? && FreqPeriodFormula(lraPeriod).value < 1250
    requires InRange(EffectLevel(k, g, m.lib)) && (k.c != 0.0 || k.d != 0.0 ==> ToleranceHarmless(k, g))
    ensures ClampStep(lraPeriod, m.lib).Finite?
    ensures StandsFor(ConvertLevelsToOdClamp(EffectLevel(k, g, m.lib), lraPeriod, m), ClampStep(lraPeriod, m.lib).v,
                      EffectCurve, k, g)
  {
    hide ClampStep, ConvertLevelsToOdClamp, TargetGToVLevelsUnderCubic, TargetGToVLevelsUnderLinear, ToleranceHarmless,
         Cubic, FreqPeriodFormula;
    var v := EffectLevel(k, g, m.lib).v;
    ClampOfLevel(lraPeriod, m, v);
    if k.c == 0.0 && k.d == 0.0 {
      LinearLevel(k, g, v);
    } else {
      CubicLevel(k, g, m.lib, v);
    }
    assert Forward(EffectCurve, k, v) == g;
  }

  /** The same for a steady level. */
  predicate IsSteadyTarget(d: Data, i: nat, g: real)
    requires d.WellFormed() && i < 3
  {
    g == if d.steadyTargetG.Some? then d.steadyTargetG.value[i]
         else if d.earlyBoard then [1.2, 1.145, 0.4][i] else [2.15, 1.145, 1.3][i]
  }

  lemma EffectTargetIs(d: Data, i: nat, g: real)
    requires d.WellFormed() && i < 5 && d.effectCoeffs.Some? && IsEffectTarget(d, i, g)
    ensures EffectTargets(d)[i] == g
  {
  }

  lemma SteadyTargetIs(d: Data, i: nat, g: real)
    requires d.WellFormed() && i < 3 && IsSteadyTarget(d, i, g)
    ensures SteadyTargets(d)[i] == g
  {
  }

  /** The same for the steady levels 1 and 2, which are solved for, when the protection has not replaced them. */
  lemma SteadyClampReachesTarget(d: Data, m: Machine, i: nat, g: real)
    requires Tuned(d, m) && i < 2 && m.lib.Sound() && d.steadyCoeffs.Some? && IsSteadyTarget(d, i, g)
    requires var k := d.steadyCoeffs.value;
             InRange(TargetGToVLevelsUnderCubic(k, g, m.lib)) && ToleranceHarmless(k, g)
    requires 0 < ConvertLevelsToOdClamp(SteadyLevel(d, d.steadyCoeffs.value, m, i), d.lraPeriod, m) <= d.longVoltageMax
    ensures ClampStep(d.lraPeriod, m.lib).Finite? && SteadyClamp(d, m, i).Some?
    ensures var k, step := d.steadyCoeffs.value, ClampStep(d.lraPeriod, m.lib).v;
            StandsFor(SteadyClamp(d, m, i).value, step, SteadyCurve, k, g)
  {
    SteadyTargetIs(d, i, g);
    assert d.WellFormed() && FreqPeriodFormula(d.lraPeriod).Some? && FreqPeriodFormula(d.lraPeriod).value < 1250;
    hide ClampStep, ConvertLevelsToOdClamp, TargetGToVLevelsUnderCubic, TargetGToVLevelsUnderLinear, ToleranceHarmless, Cubic,
         FreqPeriodFormula, StandsFor, EffectLevel, Forward, Interpolated, EffectClamp, SteadyClamp, IsEffectTarget, IsSteadyTarget,
         EffectTargets, SteadyTargets, Tuned;
    var k := d.steadyCoeffs.value;
    var v := TargetGToVLevelsUnderCubic(k, g, m.lib).v;
    SteadyClampIs(d, m, i, g);
    CubicLevel(k, g, m.lib, v);
    Stands(d.lraPeriod, m, v, SteadyCurve, k, g);
  }

  lemma SteadyClampIs(d: Data, m: Machine, i: nat, g: real)
    requires d.WellFormed() && i < 3 && d.steadyCoeffs.Some? && SteadyTargets(d)[i] == g
    requires 0 < ConvertLevelsToOdClamp(SteadyLevel(d, d.steadyCoeffs.value, m, i), d.lraPeriod, m) <= d.longVoltageMax
    ensures var level := if i == 2 then Interpolated(d.steadyCoeffs.value, g)
                         else TargetGToVLevelsUnderCubic(d.steadyCoeffs.value, g, m.lib);
            SteadyClamp(d, m, i) == Some(ConvertLevelsToOdClamp(level, d.lraPeriod, m))
  {
    hide ConvertLevelsToOdClamp, SteadyTargets, Interpolated, TargetGToVLevelsUnderCubic;
  }

  /** A level in range at which a curve has the target. */
  lemma Stands(lraPeriod: uint32, m: Machine, v: real, curve: Curve, k: Coeffs, g: real)
    requires m.lib.Sound() && FreqPeriodFormula(lraPeriod).Some? && FreqPeriodFormula(lraPeriod).value < 1250
    requires InRange(Finite(v)) && Forward(curve, k, v) == g
    ensures ClampStep(lraPeriod, m.lib).Finite?
    ensures StandsFor(ConvertLevelsToOdClamp(Finite(v), lraPeriod, m), ClampStep(lraPeriod, m.lib).v, curve, k, g)
  {
    hide ClampStep, ConvertLevelsToOdClamp, FreqPeriodFormula, Forward;
    ClampOfLevel(lraPeriod, m, v);
  }

  /** The third steady clamp stands for a voltage at which the secant has the target, when the target lies strictly
      between the accelerations at its ends and the protection has not replaced the clamp. */
  lemma SteadyClampOnSecant(d: Data, m: Machine, g: real)
    requires Tuned(d, m) && m.lib.Sound() && d.steadyCoeffs.Some? && IsSteadyTarget(d, 2, g)
    requires var k := d.steadyCoeffs.value; Cubic(k, 0.64) < g < Cubic(k, 1.92) || Cubic(k, 1.92) < g < Cubic(k, 0.64)
    requires 0 < ConvertLevelsToOdClamp(SteadyLevel(d, d.steadyCoeffs.value, m, 2), d.lraPeriod, m) <= d.longVoltageMax
    ensures ClampStep(d.lraPeriod, m.lib).Finite? && SteadyClamp(d, m, 2).Some?
    ensures var k, step := d.steadyCoeffs.value, ClampStep(d.lraPeriod, m.lib).v;
            StandsFor(SteadyClamp(d, m, 2).value, step, SteadySecant, k, g)
  {
    SteadyTargetIs(d, 2, g);
    assert d.WellFormed() && FreqPeriodFormula(d.lraPeriod).Some? && FreqPeriodFormula(d.lraPeriod).value < 1250;
    hide ClampStep, ConvertLevelsToOdClamp, TargetGToVLevelsUnderCubic, TargetGToVLevelsUnderLinear, ToleranceHarmless, Cubic,
         FreqPeriodFormula, StandsFor, EffectLevel, Forward, Interpolated, EffectClamp, SteadyClamp, IsEffectTarget, IsSteadyTarget,
         EffectTargets, SteadyTargets, Tuned;
    var k := d.steadyCoeffs.value;
    SteadyClampIs(d, m, 2, g);
    SecantMeets(k, g);
    Stands(d.lraPeriod, m, Interpolated(k, g).v, SteadySecant, k, g);
  }

  lemma SecantMeets(k: Coeffs, g: real)
    requires Cubic(k, 0.64) < g < Cubic(k, 1.92) || Cubic(k, 1.92) < g < Cubic(k, 0.64)
    ensures Interpolated(k, g).Finite? && InRange(Interpolated(k, g)) && Forward(SteadySecant, k, Interpolated(k, g).v) == g
  {
    InterpolatedOnSecant(k, g);
    hide Cubic, Interpolated;
    assert VLevelsToTargetG(k, 0.2) == Cubic(k, 0.64) && VLevelsToTargetG(k, 0.6) == Cubic(k, 1.92);
    OnChord(Cubic(k, 0.64), Cubic(k, 1.92), Interpolated(k, g).v - 0.64, g);
  }

  lemma OnChord(low: real, high: real, x: real, g: real)
    requires x * (high - low) == (g - low) * 1.28
    ensures low + (high - low) * x / 1.28 == g
  {
  }

  lemma ClampOfLevel(lraPeriod: uint32, m: Machine, v: real)
    requires m.lib.Sound() && FreqPeriodFormula(lraPeriod).Some? && FreqPeriodFormula(lraPeriod).value < 1250
    requires InRange(Finite(v))
    ensures ClampStep(lraPeriod, m.lib).Finite?
    ensures var clamp, step := ConvertLevelsToOdClamp(Finite(v), lraPeriod, m), ClampStep(lraPeriod, m.lib).v;
            Abs(2.0 * (clamp as real * step - v)) <= step
  {
    hide ClampStep, ConvertLevelsToOdClamp, FreqPeriodFormula;
    ClampStepPositive(lraPeriod, m.lib);
    ConversionError(v, lraPeriod, m, ClampStep(lraPeriod, m.lib).v);
  }

  lemma LinearLevel(k: Coeffs, g: real, v: real)
    requires TargetGToVLevelsUnderLinear(k, g) == Finite(v) && InRange(Finite(v))
    ensures k.a * v + k.b == g
  {
    LinearExact(k, g, v);
  }

  lemma CubicLevel(k: Coeffs, g: real, lib: Lib, v: real)
    requires lib.Sound() && TargetGToVLevelsUnderCubic(k, g, lib) == Finite(v) && InRange(Finite(v)) && ToleranceHarmless(k, g)
    ensures Cubic(k, v) == g
  {
    hide TargetGToVLevelsUnderCubic, ToleranceHarmless, Cubic;
    SolverInvertsEvaluator(k, g, lib);
    assert v / MAX_VOLTAGE * MAX_VOLTAGE == v;
  }

  /** Without steady coefficients the steady clamps are the targets in proportion to the maximal amplitude, up to one
      half. */
  lemma SteadyClampProportional(d: Data, m: Machine, i: nat)
    requires d.WellFormed() && (i == 0 || i == 2) && d.steadyCoeffs == None && d.steadyAmpMax.Some?
    requires d.steadyAmpMax.value != 0.0
    requires 0.0 <= SteadyTargets(d)[i] / d.steadyAmpMax.value * d.longVoltageMax as real <= 4294967294.0
    ensures SteadyClamp(d, m, i).Some?
    ensures var share := SteadyTargets(d)[i] / d.steadyAmpMax.value * d.longVoltageMax as real;
            Abs(2.0 * (SteadyClamp(d, m, i).value as real - share)) <= 1.0
  {
    hide SteadyTargets;
    RoundWithinHalf(SteadyTargets(d)[i] / d.steadyAmpMax.value * d.longVoltageMax as real);
  }

  /** The boundary protection: level 5 of the effects and every steady level solved for stay within their
      maximum, and are zero only if it is; without coefficients all effects use that maximum, and
      without a maximal amplitude either so do the steady levels, but for the one that is left unset. */
  lemma BoundaryProtection(d: Data, m: Machine, i: nat)
    requires d.WellFormed() && i < 3
    ensures d.steadyCoeffs == None && d.steadyAmpMax == None ==>
              SteadyClamp(d, m, i) == if i == 1 then None else Some(d.longVoltageMax)
    ensures d.effectCoeffs == None ==> forall j :: 0 <= j < 5 ==> EffectClamp(d, m, j) == d.shortVoltageMax
    ensures EffectClamp(d, m, 4) <= d.shortVoltageMax
    ensures EffectClamp(d, m, 4) == 0 ==> d.shortVoltageMax == 0
    ensures d.steadyCoeffs.Some? ==> SteadyClamp(d, m, i).Some? && SteadyClamp(d, m, i).value <= d.longVoltageMax
    ensures d.steadyCoeffs.Some? && SteadyClamp(d, m, i).value == 0 ==> d.longVoltageMax == 0
  {
  }
}
