/** The vibrator service: configuration set-up, the temperature switch of `on`, and the effects
    (vibrator/drv2624/Vibrator.cpp:287-446, 459-517, 604-677). */
module VibratorService {
  import opened Wrappers
  import opened Libm
  import opened CubicSolver
  import opened LraPeriod
  import opened Calibration

  const TEMP_UPPER_BOUND := 10000
  const TEMP_LOWER_BOUND := 5000
  const STEADY_VOLTAGE_LOWER_BOUND: uint32 := 90
  const VIBRATION_MOTION_TIME_THRESHOLD := 100
  const UINT32_MAX: uint32 := 0xFFFF_FFFF

  /** What a configuration's `odClamp` points to: the five effect clamps, the three steady clamps, or the
      single word of the low-temperature voltage. */
  datatype ClampArray = EffectTargetOdClamp | SteadyTargetOdClamp | SteadyVoltageLowerBound

  datatype Config = Config(shape: uint32, odClamp: ClampArray, olLraPeriod: uint32)

  datatype Mode = Rtp | Waveform
  datatype Status = Success | UnsupportedOperation | IllegalState

  datatype Effect = TextureTick | Tick | Click | HeavyClick | DoubleClick | OtherEffect
  datatype Strength = Light | Medium | Strong | OtherStrength
  datatype Sequence = ClickSeq | TickSeq | DoubleClickSeq | HeavyClickSeq

  /** The calls made on the hardware interface. */
  datatype Call =
    | SetCtrlLoop(open: bool)
    | SetDuration(timeoutMs: uint32)
    | SetMode(mode: Mode)
    | SetLraWaveShape(shape: uint32)
    | SetOdClamp(clamp: uint32)
    | SetOlLraPeriod(period: uint32)
    | SetSequencer(sequence: Sequence)
    | SetActivate

  /** Which of the checked calls the hardware accepts. */
  datatype Hardware = Hardware(duration: bool, activate: bool)

  /** A call of `on`; the temperature is what the sensor reads then, and `moving` what `motionAwareness`
      would answer. */
  datatype Request = Request(timeoutMs: int, callback: bool, temperature: int, moving: bool, hardware: Hardware)
  {
    predicate Hot() { temperature > TEMP_UPPER_BOUND }
    predicate Cold() { temperature < TEMP_LOWER_BOUND }
    /** The requests that change the steady configuration. */
    predicate Decisive() { !callback && (Hot() || Cold()) }
  }

  /** The two periods `on` switches between. */
  datatype Periods = Periods(steady: uint32, shifted: uint32)

  /** The steady configuration after a request. */
  function Next(c: Config, r: Request, p: Periods): Config {
    if !r.Decisive() then c
    else if r.Hot() then c.(odClamp := SteadyTargetOdClamp, olLraPeriod := p.steady)
    else c.(odClamp := SteadyVoltageLowerBound, olLraPeriod := p.shifted)
  }

  function After(c: Config, rs: seq<Request>, p: Periods): Config {
    if rs == [] then c else Next(After(c, rs[..|rs| - 1], p), rs[|rs| - 1], p)
  }

  /** What drive() sends: everything up to the first call the hardware refuses. */
  function DriveCalls(timeoutMs: uint32, mode: Mode, threshold: uint32, settings: seq<Call>, h: Hardware): seq<Call> {
    [SetCtrlLoop(!(mode == Rtp && timeoutMs > threshold)), SetDuration(timeoutMs)]
    + if h.duration then [SetMode(mode)] + settings + [SetActivate] else []
  }

  function DriveStatus(h: Hardware): Status {
    if h.duration && h.activate then Success else IllegalState
  }

  function Settings(c: Config, clamp: uint32): seq<Call> {
    [SetLraWaveShape(c.shape), SetOdClamp(clamp), SetOlLraPeriod(c.olLraPeriod)]
  }

  /** The element of the effect clamps an effect of a given strength uses; None where unsupported. */
  function VolOffset(effect: Effect, strength: Strength): Option<nat> {
    if strength == OtherStrength || effect == OtherEffect then None
    else
      var volOffset := if strength == Light then 0 else 1;
      match effect
      case TextureTick => Some(0)
      case Tick => Some(volOffset + 1)
      case Click => Some(volOffset + 2)
      case DoubleClick => Some(volOffset + 2)
      case HeavyClick => Some(volOffset + 3)
  }

  function SequenceOf(effect: Effect): Sequence
    requires effect != OtherEffect
  {
    match effect
    case TextureTick => TickSeq
    case Tick => TickSeq
    case Click => ClickSeq
    case DoubleClick => DoubleClickSeq
    case HeavyClick => HeavyClickSeq
  }

  class Vibrator {
    var dynamicConfig: bool
    var closeLoopThreshold: uint32
    var steadyConfig: Option<Config>
    var effectConfig: Option<Config>
    const effectTargetOdClamp: array<Option<uint32>>
    const steadyTargetOdClamp: array<Option<uint32>>
    var periods: Periods
    const durations: map<Effect, uint32>
    var calls: seq<Call>
    /** The requests served so far, and the steady configuration before the first. */
    ghost var history: seq<Request>
    ghost var initial: Config

    /** The pointers lead where they may, every element that can be read has been written, and the steady
        configuration is what the run of requests so far makes of the initial one. */
    ghost predicate Valid()
      reads `dynamicConfig, `steadyConfig, `effectConfig, `periods, `history, `initial
      reads effectTargetOdClamp, steadyTargetOdClamp
    {
      && effectTargetOdClamp != steadyTargetOdClamp
      && effectTargetOdClamp.Length == 5 && steadyTargetOdClamp.Length == 3
      && (forall e: Effect :: e != OtherEffect ==> e in durations)
      && (dynamicConfig <==> steadyConfig.Some?) && (dynamicConfig <==> effectConfig.Some?)
      && (dynamicConfig ==>
            && effectConfig.value.odClamp == EffectTargetOdClamp
            && steadyConfig.value.odClamp != EffectTargetOdClamp
            && (forall i :: 0 <= i < 5 ==> effectTargetOdClamp[i].Some?)
            && steadyTargetOdClamp[0].Some? && steadyTargetOdClamp[2].Some?
            && initial.odClamp == SteadyTargetOdClamp && initial.olLraPeriod == periods.steady
            && steadyConfig.value == After(initial, history, periods))
    }

    /** Whether `odClamp[volOffset]` is within what odClamp points to, and initialised. */
    predicate Readable(odClamp: ClampArray, volOffset: nat)
      reads effectTargetOdClamp, steadyTargetOdClamp
    {
      match odClamp
      case EffectTargetOdClamp => volOffset < effectTargetOdClamp.Length && effectTargetOdClamp[volOffset].Some?
      case SteadyTargetOdClamp => volOffset < steadyTargetOdClamp.Length && steadyTargetOdClamp[volOffset].Some?
      case SteadyVoltageLowerBound => volOffset == 0
    }

    /** `odClamp[volOffset]`. */
    function ClampAt(odClamp: ClampArray, volOffset: nat): uint32
      requires Readable(odClamp, volOffset)
      reads effectTargetOdClamp, steadyTargetOdClamp
    {
      match odClamp
      case EffectTargetOdClamp => effectTargetOdClamp[volOffset].value
      case SteadyTargetOdClamp => steadyTargetOdClamp[volOffset].value
      case SteadyVoltageLowerBound => STEADY_VOLTAGE_LOWER_BOUND
    }

    /** Fills the clamps level by level. An integer division by zero on the way would not return. */
    constructor (d: Data, m: Machine, durations: map<Effect, uint32>)
      requires d.WellFormed() && forall e: Effect :: e != OtherEffect ==> e in durations
      requires d.dynamicConfig ==> ShiftedPeriod(d.lraPeriod, d.longFrequencyShift).Some?
      ensures Valid() && fresh(effectTargetOdClamp) && fresh(steadyTargetOdClamp) && history == []
      ensures dynamicConfig == d.dynamicConfig && closeLoopThreshold == d.closeLoopThreshold
      ensures calls == if d.dynamicConfig then [] else [SetOlLraPeriod(d.lraPeriod)]
      ensures d.dynamicConfig ==>
                && (forall i :: 0 <= i < 5 ==> effectTargetOdClamp[i] == Some(EffectClamp(d, m, i)))
                && (forall i :: 0 <= i < 3 ==> steadyTargetOdClamp[i] == SteadyClamp(d, m, i))
                && effectConfig == Some(Config(if d.effectShape == UINT32_MAX then 1 else d.effectShape,
                                               EffectTargetOdClamp, d.lraPeriod))
                && steadyConfig == Some(Config(if d.steadyShape == UINT32_MAX then 0 else d.steadyShape,
                                               SteadyTargetOdClamp, d.lraPeriod))
                && periods == Periods(d.lraPeriod, ShiftedPeriod(d.lraPeriod, d.longFrequencyShift).value)
    {
      hide ConvertLevelsToOdClamp, EffectClamp, SteadyLevel, SteadyTargets, ShiftedPeriod, ToUint32;
      dynamicConfig, closeLoopThreshold := d.dynamicConfig, d.closeLoopThreshold;
      steadyConfig, effectConfig, calls := None, None, [];
      periods := Periods(0, 0);
      this.durations := durations;
      history, initial := [], Config(d.steadyShape, SteadyTargetOdClamp, d.lraPeriod);
      effectTargetOdClamp := new Option<uint32>[5](_ => None);
      steadyTargetOdClamp := new Option<uint32>[3](_ => None);
      new;
      if dynamicConfig {
        FillEffectClamps(effectTargetOdClamp, d, m);
        effectConfig := Some(Config(if d.effectShape == UINT32_MAX then 1 else d.effectShape,
                                    EffectTargetOdClamp, d.lraPeriod));
        FillSteadyClamps(steadyTargetOdClamp, d, m);
        steadyConfig := Some(Config(if d.steadyShape == UINT32_MAX then 0 else d.steadyShape,
                                    SteadyTargetOdClamp, d.lraPeriod));
        periods := Periods(d.lraPeriod, ShiftedPeriod(d.lraPeriod, d.longFrequencyShift).value);
        initial := steadyConfig.value;
      } else {
        calls := calls + [SetOlLraPeriod(d.lraPeriod)];
      }
    }

    /** The private `on`: `config` is None for a null pointer. */
    method Drive(timeoutMs: uint32, mode: Mode, config: Option<Config>, volOffset: nat, hardware: Hardware)
      returns (status: Status)
      requires Valid() && (config.Some? ==> Readable(config.value.odClamp, volOffset))
      modifies this`calls
      ensures Valid() && status == DriveStatus(hardware)
      ensures var settings := if config.Some? then Settings(config.value, ClampAt(config.value.odClamp, volOffset)) else [];
              calls == old(calls) + DriveCalls(timeoutMs, mode, closeLoopThreshold, settings, hardware)
    {
      hide After, Valid;
      calls := calls + [SetCtrlLoop(!(mode == Rtp && timeoutMs > closeLoopThreshold))];
      calls := calls + [SetDuration(timeoutMs)];
      if !hardware.duration {
        return IllegalState;
      }
      calls := calls + [SetMode(mode)];
      if config.Some? {
        calls := calls + [SetLraWaveShape(config.value.shape)];
        calls := calls + [SetOdClamp(ClampAt(config.value.odClamp, volOffset))];
        calls := calls + [SetOlLraPeriod(config.value.olLraPeriod)];
      }
      calls := calls + [SetActivate];
      if !hardware.activate {
        return IllegalState;
      }
      return Success;
    }

    /** The public `on`. */
    method On(r: Request) returns (status: Status)
      requires Valid()
      modifies this`steadyConfig, this`calls, this`history
      ensures Valid() && history == old(history) + [r]
      ensures status == if r.callback then UnsupportedOperation else DriveStatus(r.hardware)
      ensures dynamicConfig ==> steadyConfig == Some(Next(old(steadyConfig).value, r, periods))
      ensures calls == old(calls) + OnCalls(r)
    {
      history := history + [r];
      assert history[..|history| - 1] == old(history);
      if r.callback {
        return UnsupportedOperation;
      }
      if dynamicConfig {
        if r.temperature > TEMP_UPPER_BOUND {
          steadyConfig := Some(steadyConfig.value.(odClamp := SteadyTargetOdClamp));
          steadyConfig := Some(steadyConfig.value.(olLraPeriod := periods.steady));
          if r.timeoutMs > VIBRATION_MOTION_TIME_THRESHOLD && !r.moving {
            status := Drive(r.timeoutMs % WORD, Rtp, steadyConfig, 2, r.hardware);
            return;
          }
        } else if r.temperature < TEMP_LOWER_BOUND {
          steadyConfig := Some(steadyConfig.value.(odClamp := SteadyVoltageLowerBound));
          steadyConfig := Some(steadyConfig.value.(olLraPeriod := periods.shifted));
        }
      }
      status := Drive(r.timeoutMs % WORD, Rtp, steadyConfig, 0, r.hardware);
    }

    /** What a request makes the hardware do, given the configuration it leaves behind: the still clamp when
        the device is hot, the vibration long and the phone at rest, and the first one otherwise. */
    ghost function OnCalls(r: Request): seq<Call>
      requires Valid()
      reads this, effectTargetOdClamp, steadyTargetOdClamp
    {
      if r.callback then []
      else
        var settings :=
          if !dynamicConfig then []
          else if r.temperature > 10000 && r.timeoutMs > 100 && !r.moving then
            Settings(steadyConfig.value, steadyTargetOdClamp[2].value)
          else if steadyConfig.value.odClamp == SteadyTargetOdClamp then
            Settings(steadyConfig.value, steadyTargetOdClamp[0].value)
          else Settings(steadyConfig.value, 90);
        DriveCalls(r.timeoutMs % WORD, Rtp, closeLoopThreshold, settings, r.hardware)
    }

    /** `performEffect`, behind the callback check of `perform`. */
    method Perform(effect: Effect, strength: Strength, callback: bool, hardware: Hardware)
      returns (status: Status, timeMs: Option<uint32>)
      requires Valid()
      modifies this`calls
      ensures Valid()
      ensures status == if callback || VolOffset(effect, strength) == None then UnsupportedOperation
                        else DriveStatus(hardware)
      ensures timeMs == if status == Success then Some(durations[effect]) else None
      ensures status == UnsupportedOperation ==> calls == old(calls)
      ensures status != UnsupportedOperation ==>
                var settings := if dynamicConfig
                                then Settings(effectConfig.value, effectTargetOdClamp[VolOffset(effect, strength).value].value)
                                else [];
                calls == old(calls) + [SetSequencer(SequenceOf(effect))]
                         + DriveCalls(durations[effect], Waveform, closeLoopThreshold, settings, hardware)
    {
      timeMs := None;
      if callback || strength == OtherStrength {
        return UnsupportedOperation, None;
      }
      var volOffset: nat := if strength == Light then 0 else 1;
      match effect {
        case TextureTick => calls := calls + [SetSequencer(TickSeq)]; volOffset := 0;
        case Click => calls := calls + [SetSequencer(ClickSeq)]; volOffset := volOffset + 2;
        case DoubleClick => calls := calls + [SetSequencer(DoubleClickSeq)]; volOffset := volOffset + 2;
        case Tick => calls := calls + [SetSequencer(TickSeq)]; volOffset := volOffset + 1;
        case HeavyClick => calls := calls + [SetSequencer(HeavyClickSeq)]; volOffset := volOffset + 3;
        case OtherEffect => return UnsupportedOperation, None;
      }
      status := Drive(durations[effect], Waveform, effectConfig, volOffset, hardware);
      if status == Success {
        timeMs := Some(durations[effect]);
      }
    }
  }

  method FillEffectClamps(clamps: array<Option<uint32>>, d: Data, m: Machine)
    requires d.WellFormed() && clamps.Length == 5
    modifies clamps
    ensures forall i :: 0 <= i < 5 ==> clamps[i] == Some(EffectClamp(d, m, i))
  {
    hide ConvertLevelsToOdClamp, TargetGToVLevelsUnderLinear, TargetGToVLevelsUnderCubic;
    var targetG := if d.earlyBoard then [0.15, 0.27, 0.35, 0.54, 0.65] else [0.275, 0.55, 0.6, 0.9, 1.12];
    for i := 0 to 5
      invariant |targetG| == 5
      invariant d.effectCoeffs == None || d.effectTargetG == None ==> targetG == EffectTargets(d)
      invariant forall j :: 0 <= j < i ==> clamps[j] == Some(UnboundedEffectClamp(d, m, j))
    {
      if d.effectCoeffs.Some? {
        var coeffs := d.effectCoeffs.value;
        if d.effectTargetG.Some? {
          targetG := targetG[i := d.effectTargetG.value[i]];
        }
        if coeffs.c == 0.0 && coeffs.d == 0.0 {
          var tempVolLevel := TargetGToVLevelsUnderLinear(coeffs, targetG[i]);
          clamps[i] := Some(ConvertLevelsToOdClamp(tempVolLevel, d.lraPeriod, m));
        } else {
          var tempVolLevel := TargetGToVLevelsUnderCubic(coeffs, targetG[i], m.lib);
          clamps[i] := Some(ConvertLevelsToOdClamp(tempVolLevel, d.lraPeriod, m));
        }
      } else {
        clamps[i] := Some(d.shortVoltageMax);
      }
    }
    if clamps[4].value <= 0 || clamps[4].value > d.shortVoltageMax {
      clamps[4] := Some(d.shortVoltageMax);
    }
  }

  method FillSteadyClamps(clamps: array<Option<uint32>>, d: Data, m: Machine)
    requires d.WellFormed() && clamps.Length == 3 && clamps[1] == None
    modifies clamps
    ensures forall i :: 0 <= i < 3 ==> clamps[i] == SteadyClamp(d, m, i)
  {
    hide ConvertLevelsToOdClamp, TargetGToVLevelsUnderCubic, Interpolated, ScaledClamp;
    var targetG := if d.earlyBoard then [1.2, 1.145, 0.4] else [2.15, 1.145, 1.3];
    if d.steadyCoeffs.Some? {
      var coeffs := d.steadyCoeffs.value;
      for i := 0 to 3
        invariant |targetG| == 3 && (d.steadyTargetG == None ==> targetG == SteadyTargets(d))
        invariant forall j :: 0 <= j < i ==> clamps[j] == SteadyClamp(d, m, j)
      {
        if d.steadyTargetG.Some? {
          targetG := targetG[i := d.steadyTargetG.value[i]];
        }
        var tempVolLevel;
        if i == 2 {
          tempVolLevel := InterpolateLevel(coeffs, targetG[2]);
        } else {
          tempVolLevel := TargetGToVLevelsUnderCubic(coeffs, targetG[i], m.lib);
        }
        clamps[i] := Some(ConvertLevelsToOdClamp(tempVolLevel, d.lraPeriod, m));
        if clamps[i].value <= 0 || clamps[i].value > d.longVoltageMax {
          clamps[i] := Some(d.longVoltageMax);
        }
      }
    } else {
      if d.steadyTargetG.Some? {
        targetG := targetG[0 := d.steadyTargetG.value[0]][2 := d.steadyTargetG.value[2]];
      }
      clamps[0] := Some(d.longVoltageMax);
      clamps[2] := Some(d.longVoltageMax);
      if d.steadyAmpMax.Some? {
        var clamp := ScaleClamp(targetG[0], d.steadyAmpMax.value, d.longVoltageMax, m);
        clamps[0] := Some(clamp);
        clamp := ScaleClamp(targetG[2], d.steadyAmpMax.value, d.longVoltageMax, m);
        clamps[2] := Some(clamp);
      }
    }
  }

  /** Steady level 3, between 20% and 60% of the maximal voltage. */
  method InterpolateLevel(coeffs: Coeffs, g: real) returns (level: Num)
    ensures level == Interpolated(coeffs, g)
  {
    hide VLevelsToTargetG;
    var low, high := VLevelsToTargetG(coeffs, 0.2), VLevelsToTargetG(coeffs, 0.6);
    level := Quotient((g - low) * 0.4 * MAX_VOLTAGE, high - low);
    if level.Finite? {
      level := Finite(level.v + 0.2 * MAX_VOLTAGE);
    }
  }

  /** `round((target / ampMax) * max)`. */
  method ScaleClamp(target: real, ampMax: real, max: uint32, m: Machine) returns (clamp: uint32)
    ensures clamp == ScaledClamp(target, ampMax, max, m)
  {
    hide ToUint32, Quotient, Share;
    var ratio := Quotient(target, ampMax);
    if ratio.Finite? {
      clamp := ToUint32(Finite(Share(ratio.v, max)), m);
    } else {
      clamp := m.Cast(NotFinite);
    }
  }

  // ---------- What the calls come to ----------

  /** The state of the hardware that calls set, and how often it has been activated. */
  datatype Registers = Registers(open: bool, duration: uint32, mode: Mode, shape: uint32, clamp: uint32, period: uint32,
                                 sequence: Sequence, activations: nat)

  function Apply(r: Registers, c: Call): Registers {
    match c
    case SetCtrlLoop(open) => r.(open := open)
    case SetDuration(timeoutMs) => r.(duration := timeoutMs)
    case SetMode(mode) => r.(mode := mode)
    case SetLraWaveShape(shape) => r.(shape := shape)
    case SetOdClamp(clamp) => r.(clamp := clamp)
    case SetOlLraPeriod(period) => r.(period := period)
    case SetSequencer(sequence) => r.(sequence := sequence)
    case SetActivate => r.(activations := r.activations + 1)
  }

  function Replay(r: Registers, calls: seq<Call>): Registers
    decreases |calls|
  {
    if calls == [] then r else Replay(Apply(r, calls[0]), calls[1..])
  }

  /** The device is activated once, last, with shape, clamp and period of the configuration, and runs in closed loop
      exactly for long vibrations in real-time mode; when the duration is refused it is not activated, and nothing of the
      configuration reaches it. */
  lemma DriveActivatesWith(g: Registers, timeoutMs: uint32, mode: Mode, threshold: uint32, c: Config, clamp: uint32, h: Hardware)
    ensures var calls := DriveCalls(timeoutMs, mode, threshold, Settings(c, clamp), h);
            var open := mode == Waveform || timeoutMs <= threshold;
            && Replay(g, calls) ==
                 (if h.duration
                  then Registers(open, timeoutMs, mode, c.shape, clamp, c.olLraPeriod, g.sequence, g.activations + 1)
                  else g.(open := open, duration := timeoutMs))
            && (forall i :: 0 <= i < |calls| && calls[i] == SetActivate ==> i == |calls| - 1)
  {
    var calls := DriveCalls(timeoutMs, mode, threshold, Settings(c, clamp), h);
    var open := mode == Waveform || timeoutMs <= threshold;
    var front := [SetCtrlLoop(open), SetDuration(timeoutMs)];
    var rest := [SetMode(mode), SetLraWaveShape(c.shape), SetOdClamp(clamp), SetOlLraPeriod(c.olLraPeriod), SetActivate];
    assert calls == front + if h.duration then rest else [];
    ReplayParts(g, front, if h.duration then rest else []);
    ReplayTwo(g, SetCtrlLoop(open), SetDuration(timeoutMs));
    ReplayFive(g.(open := open, duration := timeoutMs), rest);
    hide Replay, DriveCalls;
  }

  lemma {:induction false} ReplayParts(g: Registers, xs: seq<Call>, ys: seq<Call>)
    ensures Replay(g, xs + ys) == Replay(Replay(g, xs), ys)
    decreases |xs|
  {
    if xs == [] {
      assert xs + ys == ys;
    } else {
      ReplayParts(Apply(g, xs[0]), xs[1..], ys);
      assert (xs + ys)[1..] == xs[1..] + ys;
    }
  }

  lemma ReplayTwo(g: Registers, x: Call, y: Call)
    ensures Replay(g, [x, y]) == Apply(Apply(g, x), y)
  {
    hide Apply;
    assert [x, y][1..] == [y] && [y][1..] == [];
    assert Replay(Apply(g, x), [y]) == Replay(Apply(Apply(g, x), y), []);
  }

  lemma ReplayFive(g: Registers, xs: seq<Call>)
    requires |xs| == 5
    ensures Replay(g, xs) == Apply(Apply(Apply(Apply(Apply(g, xs[0]), xs[1]), xs[2]), xs[3]), xs[4])
  {
    hide Apply;
    assert xs == xs[..2] + xs[2..] && xs[2..] == [xs[2], xs[3]] + [xs[4]] && xs[..2] == [xs[0], xs[1]];
    ReplayParts(g, xs[..2], xs[2..]);
    ReplayTwo(g, xs[0], xs[1]);
    ReplayParts(Replay(g, xs[..2]), [xs[2], xs[3]], [xs[4]]);
    ReplayTwo(Replay(g, xs[..2]), xs[2], xs[3]);
    assert [xs[4]][1..] == [];
  }

  /** What the offsets promise: the light effect never uses a higher level than the strong one, the effects are graded at
      every strength, and every one of the five levels is used. */
  lemma EffectsGraded(strength: Strength)
    requires strength != OtherStrength
    ensures forall e: Effect :: VolOffset(e, strength).Some? <==> e != OtherEffect
    ensures forall e: Effect :: e != OtherEffect ==>
              VolOffset(e, Light).value <= VolOffset(e, strength).value <= VolOffset(e, Strong).value < 5
    ensures VolOffset(TextureTick, strength).value <= VolOffset(Tick, strength).value < VolOffset(Click, strength).value
            == VolOffset(DoubleClick, strength).value < VolOffset(HeavyClick, strength).value
    ensures forall e: Effect :: e == Tick || e == Click || e == DoubleClick || e == HeavyClick ==>
              VolOffset(e, strength).value == VolOffset(e, Light).value + if strength == Light then 0 else 1
    ensures forall i :: 0 <= i < 5 ==> exists e: Effect, s: Strength :: VolOffset(e, s) == Some(i)
  {
    assert VolOffset(TextureTick, Light) == Some(0) && VolOffset(Tick, Light) == Some(1) && VolOffset(Click, Light) == Some(2);
    assert VolOffset(HeavyClick, Light) == Some(3) && VolOffset(HeavyClick, Strong) == Some(4);
  }

  /** Every effect plays its own sequence, but for the texture tick, which plays the tick's. */
  lemma SequencesOfEffects(e: Effect, f: Effect)
    requires e != OtherEffect && f != OtherEffect
    ensures SequenceOf(e) == SequenceOf(f) <==> e == f || {e, f} == {TextureTick, Tick}
    ensures SequenceOf(Click) == ClickSeq && SequenceOf(DoubleClick) == DoubleClickSeq
    ensures SequenceOf(HeavyClick) == HeavyClickSeq && SequenceOf(Tick) == TickSeq
  {
    if e != f && SequenceOf(e) == SequenceOf(f) { assert e in {TextureTick, Tick} && f in {TextureTick, Tick}; }
    if e != f && {e, f} == {TextureTick, Tick} { assert e in {e, f} && f in {e, f}; }
  }

  // ---------- Hysteresis over whole runs ----------

  /** The active clamp array and period are those the last decisive request chose, whatever came between;
      without one they are the initial pair. */
  lemma {:induction false} LastDecisiveRules(c: Config, rs: seq<Request>, p: Periods, last: nat)
    requires last < |rs| && !rs[last].callback
    requires forall i :: last < i < |rs| ==> rs[i].callback || 5000 <= rs[i].temperature <= 10000
    ensures var a, temperature := After(c, rs, p), rs[last].temperature;
            && (temperature > 10000 ==> a == Config(c.shape, SteadyTargetOdClamp, p.steady))
            && (temperature < 5000 ==> a == Config(c.shape, SteadyVoltageLowerBound, p.shifted))
  {
    var front := rs[..|rs| - 1];
    if last == |rs| - 1 {
      ShapeKept(c, front, p);
    } else {
      LastDecisiveRules(c, front, p, last);
    }
  }

  lemma {:induction false} ShapeKept(c: Config, rs: seq<Request>, p: Periods)
    ensures After(c, rs, p).shape == c.shape
  {
    if rs != [] { ShapeKept(c, rs[..|rs| - 1], p); }
  }

  lemma {:induction false} NothingDecisive(c: Config, rs: seq<Request>, p: Periods)
    requires forall i :: 0 <= i < |rs| ==> rs[i].callback || 5000 <= rs[i].temperature <= 10000
    ensures After(c, rs, p) == c
  {
    if rs != [] { NothingDecisive(c, rs[..|rs| - 1], p); }
  }
}
