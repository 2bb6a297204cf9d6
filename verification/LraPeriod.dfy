/** Conversion between the period of the actuator and its resonant frequency
    (vibrator/drv2624/Vibrator.cpp:144-146, 424-428). */
module LraPeriod {
  import opened Wrappers

  const WORD := 0x1_0000_0000
  type uint32 = x: int | 0 <= x < WORD

  /** The conversion works both ways. The product is a 32-bit one; a zero divisor has no result. */
  function FreqPeriodFormula(x: uint32): Option<uint32> {
    var product := 24615 * x % WORD;
    if product == 0 then None else Some(1000000000 / product)
  }

  /** `freqPeriodFormula(freqPeriodFormula(lraPeriod) - longFreqencyShift)`, the subtraction wrapping. */
  function ShiftedPeriod(period: uint32, shift: uint32): Option<uint32> {
    match FreqPeriodFormula(period)
    case None => None
    case Some(f) => FreqPeriodFormula((f - shift) % WORD)
  }

  /** The largest argument whose 32-bit product does not wrap. */
  const MAX_EXACT := 174485

  /** 10^9 / 24615, rounded down. */
  const SCALE := 40625

  /** The conversion has a result for everything but zero, wrapped product or not: 24615 is odd, with
      inverse 3067285399 modulo 2^32. */
  lemma DefinedIff(x: uint32)
    ensures FreqPeriodFormula(x).Some? <==> x != 0
  {
    if 24615 * x % WORD == 0 {
      var j := 24615 * x / WORD;
      assert 3067285399 * (24615 * x) == x + 17579 * WORD * x;
      MultipleBelowWord(x, 3067285399 * j - 17579 * x);
    }
  }

  lemma MultipleBelowWord(x: uint32, j: int)
    requires x == j * WORD
    ensures x == 0
  {
  }

  /** The conversion is its own adjoint: a Galois connection. */
  lemma Galois(x: uint32, y: int)
    requires 1 <= x <= MAX_EXACT
    ensures FreqPeriodFormula(x).Some?
    ensures y <= FreqPeriodFormula(x).value <==> x * y <= SCALE
  {
    var product := 24615 * x;
    assert product % WORD == product;
    assert y <= 1000000000 / product <==> product * y <= 1000000000 by { AtMostQuotient(1000000000, product, y); }
    assert product * y == 24615 * (x * y);
  }

  lemma AtMostQuotient(n: int, d: int, y: int)
    requires d > 0
    ensures y <= n / d <==> d * y <= n
  {
    assert n == d * (n / d) + n % d;
    if y <= n / d {
      assert d * y <= d * (n / d);
    } else {
      assert d * y >= d * (n / d + 1);
    }
  }

  lemma Scaled(x: nat, a: nat, b: nat, f: nat)
    requires a <= b
    ensures x * a <= x * b
    ensures a * x <= b * x
    ensures 1 <= b ==> f <= b * f
  {
  }

  /** A longer period never has a higher frequency. */
  lemma Antitone(x: uint32, y: uint32)
    requires 1 <= x <= y <= MAX_EXACT
    ensures FreqPeriodFormula(x).Some? && FreqPeriodFormula(y).Some?
    ensures FreqPeriodFormula(y).value <= FreqPeriodFormula(x).value
  {
    hide FreqPeriodFormula;
    Galois(x, 0);
    Galois(y, 0);
    var f := FreqPeriodFormula(y).value;
    Galois(y, f);
    Scaled(f, x, y, 1);
    Galois(x, f);
  }

  lemma WithinScale(x: uint32)
    requires 1 <= x <= SCALE
    ensures FreqPeriodFormula(x).Some? && 1 <= FreqPeriodFormula(x).value <= SCALE
  {
    hide FreqPeriodFormula;
    Galois(x, 1);
    var f := FreqPeriodFormula(x).value;
    Galois(x, f);
    Scaled(x, 1, x, f);
  }

  /** Converting there and back never shortens the period, and a third conversion adds nothing. */
  lemma ThereAndBack(x: uint32)
    requires 1 <= x <= SCALE
    ensures FreqPeriodFormula(x).Some?
    ensures var f := FreqPeriodFormula(x).value;
            && 1 <= f <= SCALE
            && FreqPeriodFormula(f).Some?
            && x <= FreqPeriodFormula(f).value
            && FreqPeriodFormula(FreqPeriodFormula(f).value) == Some(f)
  {
    hide FreqPeriodFormula;
    WithinScale(x);
    var f := FreqPeriodFormula(x).value;
    WithinScale(f);
    var back := FreqPeriodFormula(f).value;
    WithinScale(back);
    Galois(x, f);
    Galois(f, x);
    Antitone(x, back);
    Galois(f, back);
    Galois(back, f);
  }

  /** How far above the frequency the wrapped difference still makes a product above 10^9. */
  const ZERO_SPAN := 133860

  /** The shifted period is defined for every shift but the frequency itself. For shifts up to ZERO_SPAN above the
      frequency it is no shorter than the original exactly if the shift is below the frequency: above it the subtraction
      wraps and the result is 0. */
  lemma ShiftLengthens(period: uint32, shift: uint32)
    requires 1 <= period <= SCALE
    ensures FreqPeriodFormula(period).Some?
    ensures var f := FreqPeriodFormula(period).value;
            && (ShiftedPeriod(period, shift).Some? <==> shift != f)
            && (shift <= f + ZERO_SPAN ==>
                  (ShiftedPeriod(period, shift).Some? && ShiftedPeriod(period, shift).value >= period <==> shift < f))
            && (f < shift <= f + ZERO_SPAN ==> ShiftedPeriod(period, shift) == Some(0))
            && (shift == f + ZERO_SPAN + 1 ==> ShiftedPeriod(period, shift) == Some(1))
  {
    hide FreqPeriodFormula;
    ThereAndBack(period);
    var f := FreqPeriodFormula(period).value;
    DefinedIff((f - shift) % WORD);
    if shift < f {
      var g := f - shift;
      assert (f - shift) % WORD == g;
      Galois(period, f);
      Scaled(period, g, f, 1);
      Galois(g, period);
    } else if f < shift <= f + ZERO_SPAN + 1 {
      assert (f - shift) % WORD == WORD - (shift - f);
      Wrapped(shift - f);
    }
  }

  /** The conversion of a small negative number, as a 32-bit word. */
  lemma Wrapped(d: nat)
    requires 1 <= d <= ZERO_SPAN + 1
    ensures FreqPeriodFormula(WORD - d) == Some(if d <= ZERO_SPAN then 0 else 1)
  {
    var product := WORD - 24615 * d;
    Remainder(24615 * (WORD - d), 24614, product);
    SmallQuotient(product);
  }

  lemma Remainder(n: int, q: int, r: int)
    requires n == q * WORD + r && 0 <= r < WORD
    ensures n % WORD == r
  {
  }

  lemma SmallQuotient(product: int)
    requires product > 500000000
    ensures 1000000000 / product == if product > 1000000000 then 0 else 1
  {
    AtMostQuotient(1000000000, product, 1);
    AtMostQuotient(1000000000, product, 2);
  }

  /** For every shift: the shifted period is no shorter exactly if the 32-bit product is small enough. */
  lemma ShiftLengthensIff(period: uint32, shift: uint32)
    requires 1 <= period <= SCALE
    ensures FreqPeriodFormula(period).Some?
    ensures var f := FreqPeriodFormula(period).value;
            ShiftedPeriod(period, shift).Some? && ShiftedPeriod(period, shift).value >= period
            <==> 0 < 24615 * ((f - shift) % WORD) % WORD * period <= 1000000000
  {
    ThereAndBack(period);
    hide FreqPeriodFormula;
    AtLeastPeriod((FreqPeriodFormula(period).value - shift) % WORD, period);
  }

  /** The value for any argument but zero: the largest number whose product with the wrapped 32-bit word is at most 10^9. */
  lemma GaloisWrapped(x: uint32, y: int)
    requires x != 0
    ensures FreqPeriodFormula(x).Some?
    ensures y <= FreqPeriodFormula(x).value <==> y * (24615 * x % WORD) <= 1000000000
  {
    DefinedIff(x);
    AtMostQuotient(1000000000, 24615 * x % WORD, y);
  }

  /** The shifted period, by its value: the largest y with y * (f - shift) at most 40625 for a shift below the frequency
      f, and for any other shift the largest y whose product with the wrapped word is at most 10^9; there is none exactly
      if the shift is the frequency. */
  lemma ShiftedValue(period: uint32, shift: uint32, y: int)
    requires 1 <= period
    ensures FreqPeriodFormula(period).Some?
    ensures var f := FreqPeriodFormula(period).value;
            && (ShiftedPeriod(period, shift).Some? <==> shift != f)
            && (shift != f ==>
                  (y <= ShiftedPeriod(period, shift).value <==> y * (24615 * ((f - shift) % WORD) % WORD) <= 1000000000))
            && (period <= SCALE && shift < f ==> (y <= ShiftedPeriod(period, shift).value <==> y * (f - shift) <= SCALE))
  {
    DefinedIff(period);
    var f := FreqPeriodFormula(period).value;
    hide FreqPeriodFormula;
    var x := (f - shift) % WORD;
    if shift != f {
      Difference(f, shift);
      GaloisWrapped(x, y);
      if period <= SCALE && shift < f {
        WithinScale(period);
        Galois(x, y);
        Commutes(x, y);
      }
    }
  }

  lemma Difference(f: uint32, shift: uint32)
    requires shift != f
    ensures (f - shift) % WORD != 0 && (shift < f ==> (f - shift) % WORD == f - shift)
  {
    if f < shift { assert (f - shift) % WORD == f - shift + WORD; }
  }

  lemma Commutes(x: int, y: int)
    ensures x * y == y * x
  {
  }

  /** Below the frequency, a larger shift never gives a shorter period. */
  lemma ShiftMonotone(period: uint32, less: uint32, more: uint32)
    requires 1 <= period <= SCALE && FreqPeriodFormula(period).Some? && less <= more < FreqPeriodFormula(period).value
    ensures ShiftedPeriod(period, less).Some? && ShiftedPeriod(period, more).Some?
    ensures ShiftedPeriod(period, less).value <= ShiftedPeriod(period, more).value
  {
    hide FreqPeriodFormula, ShiftedPeriod;
    ShiftedValue(period, less, 0);
    var y, f := ShiftedPeriod(period, less).value, FreqPeriodFormula(period).value;
    ShiftedValue(period, less, y);
    ShiftedValue(period, more, y);
    Scaled(y, f - more, f - less, 1);
  }

  lemma AtLeastPeriod(y: uint32, period: uint32)
    requires period >= 1
    ensures FreqPeriodFormula(y).Some? && FreqPeriodFormula(y).value >= period
            <==> 0 < 24615 * y % WORD * period <= 1000000000
  {
    var product := 24615 * y % WORD;
    if product > 0 {
      AtMostQuotient(1000000000, product, period);
      Scaled(product, 1, period, 1);
    }
  }

  /** One Hz above the frequency of the default period, and a shift so far above it that the product is 1. */
  lemma ShiftTooLarge()
    ensures FreqPeriodFormula(262) == Some(155) && ShiftedPeriod(262, 156) == Some(0)
    ensures ShiftedPeriod(262, 155 + WORD - 3067285399) == Some(1000000000)
  {
    assert 24615 * 262 % WORD == 6449130;
    assert (155 - 156) % WORD == 4294967295;
    assert 24615 * 4294967295 % WORD == 4294942681;
    assert (155 - (155 + WORD - 3067285399)) % WORD == 3067285399;
    assert 24615 * 3067285399 % WORD == 1;
  }
}
