/** Bytes, and the octal text of ustar header fields. */
module Octal {
  import opened Wrappers

  type byte = x: int | 0 <= x < 256

  const NUL: byte := 0
  const SPACE: byte := 32
  const ZERO: byte := 48

  function Zeros(n: nat): (z: seq<byte>)
    ensures |z| == n && forall i :: 0 <= i < n ==> z[i] == 0
  {
    seq(n, _ => NUL)
  }

  /** `sprintf("%o", n)`. */
  function Digits(n: nat): (ds: seq<byte>)
    ensures |ds| >= 1 && forall d :: d in ds ==> IsDigit(d)
  {
    if n < 8 then [ZERO + n] else Digits(n / 8) + [ZERO + n % 8]
  }

  /** `sprintf("%0<width>o", n)`: at least `width` digits, more if the number needs them. */
  function Padded(n: nat, width: nat): (ds: seq<byte>)
    ensures |ds| >= width && |ds| >= 1 && forall d :: d in ds ==> IsDigit(d)
    ensures |ds| == if |Digits(n)| <= width then width else |Digits(n)|
  {
    var ds := Digits(n);
    if |ds| >= width then ds else seq(width - |ds|, _ => ZERO) + ds
  }

  predicate IsDigit(d: byte) {
    48 <= d < 56
  }

  /** The number a digit string stands for. */
  function Value(ds: seq<byte>): nat
    requires forall d :: d in ds ==> IsDigit(d)
  {
    if ds == [] then 0
    else
      assert IsDigit(ds[|ds| - 1]);
      8 * Value(ds[..|ds| - 1]) + (ds[|ds| - 1] - ZERO)
  }

  function Pow8(n: nat): (p: nat)
    ensures p > 0
  {
    if n == 0 then 1 else 8 * Pow8(n - 1)
  }

  /** The text of a field up to its first terminator, or the whole field. */
  function Text(field: seq<byte>, stop: set<byte>): (t: seq<byte>)
    ensures |t| <= |field| && t == field[..|t|]
  {
    if field == [] || field[0] in stop then [] else [field[0]] + Text(field[1..], stop)
  }

  /** A numeric field: octal digits up to a space, a NUL or the end of the field. */
  function ReadOctal(field: seq<byte>): Option<nat> {
    var t := Text(field, {NUL, SPACE});
    if t == [] || exists d :: d in t && !IsDigit(d) then None else Some(Value(t))
  }

  lemma {:induction false} ValueOfDigits(n: nat)
    ensures Value(Digits(n)) == n
  {
    if n >= 8 {
      ValueOfDigits(n / 8);
      assert Digits(n)[..|Digits(n)| - 1] == Digits(n / 8);
    } else {
      assert Digits(n)[..0] == [];
    }
  }

  lemma {:induction false} LeadingZeros(k: nat, ds: seq<byte>)
    requires forall d :: d in ds ==> IsDigit(d)
    ensures (forall d :: d in seq(k, _ => ZERO) + ds ==> IsDigit(d)) && Value(seq(k, _ => ZERO) + ds) == Value(ds)
    decreases k + |ds|
  {
    var zs := seq(k, _ => ZERO) + ds;
    if ds != [] {
      LeadingZeros(k, ds[..|ds| - 1]);
      assert zs[..|zs| - 1] == seq(k, _ => ZERO) + ds[..|ds| - 1];
    } else if k > 0 {
      LeadingZeros(k - 1, ds);
      assert zs[..|zs| - 1] == seq(k - 1, _ => ZERO) + ds;
    }
  }

  lemma ValueOfPadded(n: nat, width: nat)
    ensures Value(Padded(n, width)) == n
  {
    ValueOfDigits(n);
    if |Digits(n)| < width { LeadingZeros(width - |Digits(n)|, Digits(n)); }
  }

  /** A number below 8^k has at most k digits, and conversely. */
  lemma {:induction false} DigitCount(n: nat, k: nat)
    requires k >= 1
    ensures |Digits(n)| <= k <==> n < Pow8(k)
  {
    assert Pow8(k) == 8 * Pow8(k - 1);
    if n >= 8 {
      assert |Digits(n)| == |Digits(n / 8)| + 1;
      if k > 1 {
        DigitCount(n / 8, k - 1);
        assert n < 8 * Pow8(k - 1) <==> n / 8 < Pow8(k - 1);
      } else {
        assert Pow8(0) == 1;
      }
    }
  }

  lemma {:induction false} ValueBound(ds: seq<byte>)
    requires forall d :: d in ds ==> IsDigit(d)
    ensures Value(ds) < Pow8(|ds|)
  {
    if ds != [] {
      ValueBound(ds[..|ds| - 1]);
      assert IsDigit(ds[|ds| - 1]);
      assert Pow8(|ds|) == 8 * Pow8(|ds| - 1);
    }
  }

  /** Text without terminators, followed by one or by nothing, is read back whole. */
  lemma {:induction false} TextOf(t: seq<byte>, rest: seq<byte>, stop: set<byte>)
    requires forall b :: b in t ==> b !in stop
    requires rest == [] || rest[0] in stop
    ensures Text(t + rest, stop) == t
  {
    if t == [] {
      assert t + rest == rest;
    } else {
      TextOf(t[1..], rest, stop);
      assert (t + rest)[1..] == t[1..] + rest;
    }
  }

  /** What a field holding the padded text of n reads as: n, if the text fits it. Only the leading digits of a
      longer text are left in the field, and they stand for a smaller number. */
  lemma ReadPadded(n: nat, width: nat, field: seq<byte>)
    requires width >= 1 && |field| >= width
    requires field == if |Padded(n, width)| < |field| then Padded(n, width) + [NUL] + field[|Padded(n, width)| + 1..]
                      else Padded(n, width)[..|field|]
    ensures ReadOctal(field) == Some(n) <==> n < Pow8(|field|)
  {
    hide Digits, Value, Text, Padded, Pow8;
    var ds := Padded(n, width);
    ValueOfPadded(n, width);
    DigitCount(n, |field|);
    if |ds| < |field| {
      ReadWhole(ds, field);
    } else {
      assert forall d :: d in field ==> d in ds;
      ReadDigits(field);
      ValueBound(field);
      if n < Pow8(|field|) {
        assert ds[..|field|] == ds;
      }
    }
  }

  lemma ReadWhole(ds: seq<byte>, field: seq<byte>)
    requires |ds| >= 1 && forall d :: d in ds ==> IsDigit(d)
    requires |ds| < |field| && field == ds + [NUL] + field[|ds| + 1..]
    ensures ReadOctal(field) == Some(Value(ds))
  {
    hide Value, Text, ReadOctal;
    Together(ds, NUL, field[|ds| + 1..]);
    ReadBefore(ds, [NUL] + field[|ds| + 1..], field);
  }

  lemma Together(ds: seq<byte>, b: byte, rest: seq<byte>)
    ensures ds + [b] + rest == ds + ([b] + rest)
  {
  }

  lemma ReadBefore(ds: seq<byte>, rest: seq<byte>, field: seq<byte>)
    requires |ds| >= 1 && forall d :: d in ds ==> IsDigit(d)
    requires rest != [] && rest[0] == NUL && field == ds + rest
    ensures ReadOctal(field) == Some(Value(ds))
  {
    hide Value, Text, ReadOctal, IsDigit;
    DigitsDoNotStop(ds);
    TextOf(ds, rest, {NUL, SPACE});
    OctalOfText(field, ds);
  }

  lemma DigitsDoNotStop(ds: seq<byte>)
    requires forall d :: d in ds ==> IsDigit(d)
    ensures forall b :: b in ds ==> b !in {NUL, SPACE}
  {
  }

  lemma OctalOfText(field: seq<byte>, ds: seq<byte>)
    requires Text(field, {NUL, SPACE}) == ds && |ds| >= 1 && forall d :: d in ds ==> IsDigit(d)
    ensures ReadOctal(field) == Some(Value(ds))
  {
    hide Value, Text, IsDigit;
  }

  lemma ReadDigits(ds: seq<byte>)
    requires |ds| >= 1 && forall d :: d in ds ==> IsDigit(d)
    ensures ReadOctal(ds) == Some(Value(ds))
  {
    hide Value, Text, ReadOctal;
    assert ds + [] == ds;
    DigitsDoNotStop(ds);
    TextOf(ds, [], {NUL, SPACE});
    OctalOfText(ds, ds);
  }
}
