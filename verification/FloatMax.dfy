/**
  The largest and smallest finite value of a float format (vllm/scalar_type.py), computed as the
  bit pattern of an IEEE 754 double. Values are exact reals; section 3.4 of IEEE 754-2019 gives
  the value of a pattern.
 */
module FloatMax {
  import opened Wrappers
  import opened ScalarTypes

  /** 2 to the k, for any integer k. */
  ghost function Exp2(k: int): (r: real)
    ensures r > 0.0
  {
    if k >= 0 then Pow2(k) as real else 1.0 / (Pow2(-k) as real)
  }

  ghost function Ratio(f: nat, steps: nat): real
    requires steps > 0
  {
    f as real / steps as real
  }

  ghost function Scale(a: real, weight: real): real {
    a * weight
  }

  /** The value of exponent field e and fraction f out of `steps`, with this exponent bias. */
  ghost function FieldValue(e: nat, f: nat, steps: nat, bias: int): real
    requires steps > 0
  {
    if e == 0 then Scale(Ratio(f, steps), Exp2(1 - bias))
    else Scale(1.0 + Ratio(f, steps), Exp2(e - bias))
  }

  /** What a 64-bit pattern stands for; None for infinities and NaNs. */
  ghost function DecodeDouble(raw: nat): Option<real> {
    var exponent := raw % 0x8000_0000_0000_0000 / 0x10_0000_0000_0000;
    var magnitude := FieldValue(exponent, raw % 0x10_0000_0000_0000, 0x10_0000_0000_0000, 1023);
    if exponent == 2047 || raw >= 0x1_0000_0000_0000_0000 then None
    else if raw >= 0x8000_0000_0000_0000 then Some(-magnitude)
    else Some(magnitude)
  }

  /******* The format itself *******/

  ghost function Bias(t: ScalarType): int
    requires t.exponent > 0
  {
    Pow2(t.exponent - 1) - 1
  }

  ghost predicate Encoding(t: ScalarType, e: nat, f: nat) {
    e < Pow2(t.exponent) && f < Pow2(t.mantissa)
  }

  /**
    The encodings that are neither infinite nor NaN. Only IEEE formats say which encodings are
    infinite: the top exponent with fraction zero, unless the format has finite values only.
   */
  ghost predicate Finite(t: ScalarType, e: nat, f: nat) {
    match t.nanRepr
    case NONE => true
    case IEEE_754 => e != Pow2(t.exponent) - 1 || (f == 0 && t.finiteValuesOnly)
    case EXTD_RANGE_MAX_MIN => !(e == Pow2(t.exponent) - 1 && f == Pow2(t.mantissa) - 1)
  }

  ghost function ValueOf(t: ScalarType, e: nat, f: nat): real
    requires t.exponent > 0
  {
    FieldValue(e, f, Pow2(t.mantissa), Bias(t))
  }

  /** The finite encodings with their sign; only signed formats have negative ones. */
  ghost predicate FiniteSigned(t: ScalarType, negative: bool, e: nat, f: nat) {
    (negative ==> t.signed) && Encoding(t, e, f) && Finite(t, e, f)
  }

  ghost function SignedValue(t: ScalarType, negative: bool, e: nat, f: nat): real
    requires t.exponent > 0
  {
    if negative then -ValueOf(t, e, f) else ValueOf(t, e, f)
  }

  /** v is the largest finite value of the format. */
  ghost predicate IsLargest(t: ScalarType, v: real)
    requires t.exponent > 0
  {
    && (exists negative, e: nat, f: nat :: FiniteSigned(t, negative, e, f) && SignedValue(t, negative, e, f) == v)
    && (forall negative, e: nat, f: nat :: FiniteSigned(t, negative, e, f) ==> SignedValue(t, negative, e, f) <= v)
  }

  /** v is the smallest finite value of the format. */
  ghost predicate IsSmallest(t: ScalarType, v: real)
    requires t.exponent > 0
  {
    && (exists negative, e: nat, f: nat :: FiniteSigned(t, negative, e, f) && SignedValue(t, negative, e, f) == v)
    && (forall negative, e: nat, f: nat :: FiniteSigned(t, negative, e, f) ==> v <= SignedValue(t, negative, e, f))
  }

  /******* _floating_point_max_int *******/

  function MaxMantissa(t: ScalarType): int {
    Pow2(t.mantissa) - (if t.nanRepr == EXTD_RANGE_MAX_MIN then 2 else 1)
  }

  function MaxExponent(t: ScalarType): int {
    Pow2(t.exponent) - (if t.nanRepr == IEEE_754 then 2 else 1)
  }

  predicate Representable(t: ScalarType) {
    t.mantissa <= 52 && t.exponent <= 11 && (t.nanRepr != IEEE_754 ==> t.exponent < 11)
  }

  /** The pattern; packing a negative one into 64 bits raises, and so do the assertions. */
  function FloatingPointMaxInt(t: ScalarType): Result<nat>
    requires t.exponent > 0
  {
    if !Representable(t) then Raise("AssertionError")
    else if MaxMantissa(t) < 0 then Raise("struct.error")
    else
      var exponentBias := Pow2(t.exponent - 1) - 1;
      var doubleExponent := MaxExponent(t) - exponentBias + 1023;
      if doubleExponent < 0 then Raise("struct.error")
      else Ok(BitOr(Shl(MaxMantissa(t), 52 - t.mantissa), Shl(doubleExponent, 52)))
  }

  /** `_raw_min` sets the sign bit. */
  function FloatingPointMinInt(t: ScalarType): Result<nat>
    requires t.exponent > 0
  {
    if !t.signed then Raise("AssertionError")
    else
      match FloatingPointMaxInt(t)
      case Ok(raw) => Ok(BitOr(raw, Shl(1, 63)))
      case Raise(e) => Raise(e)
  }

  /******* Powers of two *******/

  lemma {:induction false} Exp2Next(k: int)
    ensures Exp2(k + 1) == 2.0 * Exp2(k)
  {
  }

  lemma {:induction false} Exp2Mono(i: int, j: int)
    requires i <= j
    ensures Exp2(i) <= Exp2(j)
    decreases j - i
  {
    if i < j {
      Exp2Mono(i, j - 1);
      Exp2Next(j - 1);
    }
  }

  lemma {:induction false} Fraction(f: nat, g: nat, steps: nat)
    requires f <= g && steps > 0
    ensures 0.0 <= Ratio(f, steps) <= Ratio(g, steps)
    ensures g < steps ==> Ratio(g, steps) < 1.0
  {
  }

  lemma {:induction false} ScaleMono(a: real, b: real, s: real)
    requires a <= b && s > 0.0
    ensures Scale(a, s) <= Scale(b, s)
    ensures a < b ==> Scale(a, s) < Scale(b, s)
  {
  }

  lemma {:induction false} ScaleUnits(s: real)
    ensures Scale(1.0, s) == s && Scale(2.0, s) == 2.0 * s
  {
  }

  /** Values below the next exponent, whatever the fraction. */
  lemma {:induction false} BelowNextExponent(e: nat, f: nat, steps: nat, bias: int)
    requires f < steps
    ensures FieldValue(e, f, steps, bias) < Exp2((if e == 0 then 1 else e + 1) - bias)
  {
    hide Ratio, Scale, Exp2;
    Fraction(f, f, steps);
    if e == 0 {
      ScaleMono(Ratio(f, steps), 1.0, Exp2(1 - bias));
      ScaleUnits(Exp2(1 - bias));
    } else {
      ScaleMono(1.0 + Ratio(f, steps), 2.0, Exp2(e - bias));
      ScaleUnits(Exp2(e - bias));
      Exp2Next(e - bias);
      assert e + 1 - bias == e - bias + 1;
    }
  }

  /** With a normal top exponent, the top fraction under it is the largest value. */
  lemma {:induction false} TopIsLargest(e: nat, f: nat, topE: nat, topF: nat, steps: nat, bias: int)
    requires f < steps && topF < steps && 0 < topE && e <= topE && (e == topE ==> f <= topF)
    ensures FieldValue(e, f, steps, bias) <= FieldValue(topE, topF, steps, bias)
  {
    hide Ratio, Scale, Exp2;
    if e == topE {
      Fraction(f, topF, steps);
      ScaleMono(1.0 + Ratio(f, steps), 1.0 + Ratio(topF, steps), Exp2(e - bias));
    } else {
      BelowNextExponent(e, f, steps, bias);
      Exp2Mono((if e == 0 then 1 else e + 1) - bias, topE - bias);
      Fraction(topF, topF, steps);
      ScaleMono(1.0, 1.0 + Ratio(topF, steps), Exp2(topE - bias));
      ScaleUnits(Exp2(topE - bias));
    }
  }

  /******* The pattern decodes to the value *******/

  lemma {:induction false} SmallPowers(t: ScalarType)
    requires 0 < t.exponent && Representable(t)
    ensures Pow2(t.exponent) == 2 * Pow2(t.exponent - 1) && Pow2(t.exponent - 1) <= 1024
    ensures t.nanRepr != IEEE_754 ==> Pow2(t.exponent - 1) <= 512
  {
    Pow2Values();
    Pow2Mono(t.exponent - 1, 10);
    if t.nanRepr != IEEE_754 {
      Pow2Mono(t.exponent - 1, 9);
    }
  }

  lemma {:induction false} PowersMeet(m: nat)
    requires m <= 52
    ensures Pow2(m) * Pow2(52 - m) == 0x10_0000_0000_0000
  {
    Pow2Values();
    Pow2Add(m, 52 - m);
  }

  lemma {:induction false} ShiftedBelow(f: nat, m: nat)
    requires m <= 52 && f < Pow2(m)
    ensures Shl(f, 52 - m) < 0x10_0000_0000_0000
  {
    PowersMeet(m);
    hide Pow2;
    Below(f, Pow2(m), Pow2(52 - m));
  }

  /** A mantissa of m bits, shifted to 52, is the same fraction of one. */
  lemma {:induction false} ShiftedFraction(f: nat, m: nat)
    requires m <= 52 && f < Pow2(m)
    ensures Ratio(Shl(f, 52 - m), 0x10_0000_0000_0000) == Ratio(f, Pow2(m))
  {
    PowersMeet(m);
    hide Pow2;
    CancelNat(f, Pow2(m), Pow2(52 - m));
  }

  lemma {:induction false} Below(f: nat, steps: nat, shift: nat)
    requires f < steps && shift > 0
    ensures f * shift < steps * shift
  {
  }

  lemma {:induction false} CancelNat(a: nat, b: nat, c: nat)
    requires b > 0 && c > 0
    ensures b * c > 0 && (a * c) as real / (b * c) as real == a as real / b as real
  {
  }

  /** Taking a pattern apart. */
  lemma {:induction false} DecodeParts(f: nat, e: nat)
    requires f < 0x10_0000_0000_0000 && e < 2047
    ensures var raw := f + e * 0x10_0000_0000_0000;
      && raw < 0x8000_0000_0000_0000
      && DecodeDouble(raw) == Some(FieldValue(e, f, 0x10_0000_0000_0000, 1023))
      && DecodeDouble(raw + 0x8000_0000_0000_0000) == Some(-FieldValue(e, f, 0x10_0000_0000_0000, 1023))
  {
    hide FieldValue;
    var raw := f + e * 0x10_0000_0000_0000;
    assert raw / 0x10_0000_0000_0000 == e && raw % 0x10_0000_0000_0000 == f;
    assert (raw + 0x8000_0000_0000_0000) % 0x10_0000_0000_0000 == f;
    assert (raw + 0x8000_0000_0000_0000) % 0x8000_0000_0000_0000 == raw;
  }

  /** What the format's top encoding is worth, read as a normal number. */
  ghost function TopValue(t: ScalarType): real
    requires 0 < t.exponent && 0 <= MaxMantissa(t)
  {
    Scale(1.0 + Ratio(MaxMantissa(t), Pow2(t.mantissa)), Exp2(MaxExponent(t) - Bias(t)))
  }

  /** The exponent field of the double is in range and has the right weight. */
  lemma {:induction false} DoubleExponent(t: ScalarType)
    requires 0 < t.exponent && Representable(t)
    ensures 0 <= MaxExponent(t) && 0 < MaxExponent(t) - Bias(t) + 1023 < 2047
  {
    SmallPowers(t);
  }

  /** The pattern is the two fields side by side. */
  lemma {:induction false} MaxPattern(t: ScalarType)
    requires 0 < t.exponent && Representable(t) && MaxMantissa(t) >= 0
    ensures var e := MaxExponent(t) - Bias(t) + 1023;
      && 0 < e < 2047 && MaxMantissa(t) < Pow2(t.mantissa)
      && Shl(MaxMantissa(t), 52 - t.mantissa) < 0x10_0000_0000_0000
      && FloatingPointMaxInt(t) == Ok(Shl(MaxMantissa(t), 52 - t.mantissa) + e * 0x10_0000_0000_0000)
  {
    hide Pow2, BitOr, Shl, MaxMantissa, MaxExponent, Representable, FloatingPointMaxInt, Bias;
    DoubleExponent(t);
    MaxMantissaShifted(t);
    MaxIntFields(t);
    OrExponent(Shl(MaxMantissa(t), 52 - t.mantissa), MaxExponent(t) - Bias(t) + 1023);
  }

  lemma {:induction false} MaxMantissaShifted(t: ScalarType)
    requires Representable(t) && MaxMantissa(t) >= 0
    ensures t.mantissa <= 52 && MaxMantissa(t) < Pow2(t.mantissa)
    ensures Shl(MaxMantissa(t), 52 - t.mantissa) < 0x10_0000_0000_0000
  {
    hide Shl;
    MaxMantissaBelow(t);
    hide Pow2, MaxMantissa;
    ShiftedBelow(MaxMantissa(t), t.mantissa);
  }

  lemma {:induction false} MaxMantissaBelow(t: ScalarType)
    ensures MaxMantissa(t) < Pow2(t.mantissa)
  {
  }

  lemma {:induction false} MaxIntFields(t: ScalarType)
    requires 0 < t.exponent && Representable(t) && MaxMantissa(t) >= 0 && MaxExponent(t) - Bias(t) + 1023 >= 0
    ensures FloatingPointMaxInt(t) ==
            Ok(BitOr(Shl(MaxMantissa(t), 52 - t.mantissa), Shl(MaxExponent(t) - Bias(t) + 1023, 52)))
  {
    hide BitOr, Shl, MaxMantissa, MaxExponent;
  }

  lemma {:induction false} OrExponent(low: nat, e: nat)
    requires low < 0x10_0000_0000_0000
    ensures BitOr(low, Shl(e, 52)) == low + e * 0x10_0000_0000_0000
  {
    Pow2Values();
    OrAbove(low, e, 52);
  }

  lemma {:induction false} MaxDecodes(t: ScalarType)
    requires 0 < t.exponent && Representable(t) && MaxMantissa(t) >= 0
    ensures FloatingPointMaxInt(t).Ok? && DecodeDouble(FloatingPointMaxInt(t).value) == Some(TopValue(t))
    ensures t.signed ==> FloatingPointMinInt(t).Ok? && DecodeDouble(FloatingPointMinInt(t).value) == Some(-TopValue(t))
  {
    hide Pow2, Shl, BitOr, MaxMantissa, MaxExponent, Bias, DecodeDouble, FloatingPointMaxInt, TopValue, FieldValue, Exp2;
    MaxPattern(t);
    var low, e := Shl(MaxMantissa(t), 52 - t.mantissa), MaxExponent(t) - Bias(t) + 1023;
    TopField(t);
    DecodeParts(low, e);
    SetSignBit(low + e * 0x10_0000_0000_0000);
  }

  lemma {:induction false} SetSignBit(raw: nat)
    requires raw < 0x8000_0000_0000_0000
    ensures BitOr(raw, Shl(1, 63)) == raw + 0x8000_0000_0000_0000
  {
    Pow2Values();
    OrAbove(raw, 1, 63);
  }

  lemma {:induction false} TopField(t: ScalarType)
    requires 0 < t.exponent && t.mantissa <= 52 && 0 <= MaxMantissa(t) < Pow2(t.mantissa) && MaxExponent(t) - Bias(t) + 1023 > 0
    ensures FieldValue(MaxExponent(t) - Bias(t) + 1023, Shl(MaxMantissa(t), 52 - t.mantissa), 0x10_0000_0000_0000, 1023) == TopValue(t)
  {
    ShiftedFraction(MaxMantissa(t), t.mantissa);
    hide Pow2, Exp2, MaxMantissa, MaxExponent, Shl, Bias, Ratio, Scale;
    var e := MaxExponent(t) - Bias(t) + 1023;
    assert e - 1023 == MaxExponent(t) - Bias(t);
  }

  /******* The main results *******/

  /** Exactly when a maximum is computed at all. */
  lemma {:induction false} MaxRaisesIff(t: ScalarType)
    requires 0 < t.exponent
    ensures FloatingPointMaxInt(t).Raise? <==>
            || t.mantissa > 52 || t.exponent > 11
            || (t.nanRepr != IEEE_754 && t.exponent == 11)
            || (t.nanRepr == EXTD_RANGE_MAX_MIN && t.mantissa == 0)
    ensures FloatingPointMinInt(t).Raise? <==> !t.signed || FloatingPointMaxInt(t).Raise?
  {
  }

  /**
    The double computed for a float format is exactly its largest finite value, and with the sign
    bit set its smallest, except for an IEEE format with a single exponent bit, whose finite values
    are all subnormal, and for one without infinities, whose top exponent has a finite value: then,
    and only then, it is not.
   */
  lemma {:induction false} MaxIsLargestIff(t: ScalarType)
    requires 0 < t.exponent && FloatingPointMaxInt(t).Ok?
    requires t.nanRepr != IEEE_754 ==> t.finiteValuesOnly
    ensures DecodeDouble(FloatingPointMaxInt(t).value).Some?
    ensures IsLargest(t, DecodeDouble(FloatingPointMaxInt(t).value).value) <==>
            !(t.nanRepr == IEEE_754 && (t.exponent == 1 || t.finiteValuesOnly))
    ensures t.signed ==>
              && FloatingPointMinInt(t).Ok?
              && DecodeDouble(FloatingPointMinInt(t).value).Some?
              && (IsSmallest(t, DecodeDouble(FloatingPointMinInt(t).value).value) <==>
                  !(t.nanRepr == IEEE_754 && (t.exponent == 1 || t.finiteValuesOnly)))
  {
    hide Pow2, Shl, BitOr, DecodeDouble, IsLargest, IsSmallest, TopValue, ValueOf;
    MaxRaisesIff(t);
    MantissaSign(t);
    MaxDecodes(t);
    if t.nanRepr == IEEE_754 && t.finiteValuesOnly {
      FiniteIeee(t);
      NotExtreme(t, TopValue(t));
    } else if t.nanRepr == IEEE_754 && t.exponent == 1 {
      OneBitIeee(t);
      NotExtreme(t, TopValue(t));
    } else {
      TopEncoding(t);
      Extreme(t, TopValue(t));
    }
  }

  lemma {:induction false} NonNegative(t: ScalarType, e: nat, f: nat)
    requires t.exponent > 0
    ensures ValueOf(t, e, f) >= 0.0
  {
    hide Exp2, Scale, Ratio;
    var steps := Pow2(t.mantissa);
    Fraction(f, f, steps);
    ScaleMono(0.0, Ratio(f, steps), Exp2(1 - Bias(t)));
    ScaleMono(0.0, 1.0 + Ratio(f, steps), Exp2(e - Bias(t)));
    ScaleZero(Exp2(1 - Bias(t)));
    ScaleZero(Exp2(e - Bias(t)));
  }

  lemma {:induction false} ScaleZero(s: real)
    ensures Scale(0.0, s) == 0.0
  {
  }

  /** The largest magnitude, with either sign, is the extreme value. */
  lemma {:induction false} Extreme(t: ScalarType, v: real)
    requires 0 < t.exponent
    requires exists e: nat, f: nat :: Encoding(t, e, f) && Finite(t, e, f) && ValueOf(t, e, f) == v
    requires forall e: nat, f: nat :: Encoding(t, e, f) && Finite(t, e, f) ==> ValueOf(t, e, f) <= v
    ensures IsLargest(t, v) && (t.signed ==> IsSmallest(t, -v))
  {
    hide ValueOf, Encoding, Finite;
    var e: nat, f: nat :| Encoding(t, e, f) && Finite(t, e, f) && ValueOf(t, e, f) == v;
    assert FiniteSigned(t, false, e, f) && SignedValue(t, false, e, f) == v;
    assert t.signed ==> FiniteSigned(t, true, e, f) && SignedValue(t, true, e, f) == -v;
    forall negative, e: nat, f: nat | FiniteSigned(t, negative, e, f)
      ensures -v <= SignedValue(t, negative, e, f) <= v
    {
      NonNegative(t, e, f);
    }
  }

  /** A value above all magnitudes, or below some, is not. */
  lemma {:induction false} NotExtreme(t: ScalarType, v: real)
    requires 0 < t.exponent
    requires || (forall e: nat, f: nat :: Encoding(t, e, f) && Finite(t, e, f) ==> ValueOf(t, e, f) < v)
             || (exists e: nat, f: nat :: Encoding(t, e, f) && Finite(t, e, f) && ValueOf(t, e, f) > v)
    ensures !IsLargest(t, v) && (t.signed ==> !IsSmallest(t, -v))
  {
    hide ValueOf, Encoding, Finite;
    if e: nat, f: nat :| Encoding(t, e, f) && Finite(t, e, f) && ValueOf(t, e, f) > v {
      assert FiniteSigned(t, false, e, f) && SignedValue(t, false, e, f) > v;
      assert t.signed ==> FiniteSigned(t, true, e, f) && SignedValue(t, true, e, f) < -v;
    } else {
      forall negative, e: nat, f: nat | FiniteSigned(t, negative, e, f)
        ensures -v < SignedValue(t, negative, e, f) < v
      {
        NonNegative(t, e, f);
      }
    }
  }

  lemma {:induction false} MantissaSign(t: ScalarType)
    ensures MaxMantissa(t) < 0 <==> t.nanRepr == EXTD_RANGE_MAX_MIN && t.mantissa == 0
  {
  }

  lemma {:induction false} TopExponent(t: ScalarType)
    requires 0 < t.exponent && !(t.nanRepr == IEEE_754 && t.exponent == 1)
    ensures 0 < MaxExponent(t) < Pow2(t.exponent)
  {
    if t.nanRepr == IEEE_754 {
      Pow2Mono(2, t.exponent);
      assert Pow2(2) == 4;
    } else {
      Pow2Mono(1, t.exponent);
    }
  }

  lemma {:induction false} TopIsValue(t: ScalarType)
    requires 0 < t.exponent && 0 < MaxExponent(t) && 0 <= MaxMantissa(t)
    ensures ValueOf(t, MaxExponent(t), MaxMantissa(t)) == TopValue(t)
  {
  }

  lemma {:induction false} TopEncoding(t: ScalarType)
    requires 0 < t.exponent && Representable(t) && MaxMantissa(t) >= 0
    requires !(t.nanRepr == IEEE_754 && (t.exponent == 1 || t.finiteValuesOnly))
    ensures exists e: nat, f: nat :: Encoding(t, e, f) && Finite(t, e, f) && ValueOf(t, e, f) == TopValue(t)
    ensures forall e: nat, f: nat :: Encoding(t, e, f) && Finite(t, e, f) ==> ValueOf(t, e, f) <= TopValue(t)
  {
    TopExponent(t);
    TopIsValue(t);
    var topE, topF := MaxExponent(t), MaxMantissa(t);
    hide Pow2, Exp2, FieldValue, TopValue;
    assert Encoding(t, topE, topF) && Finite(t, topE, topF);
    forall e: nat, f: nat | Encoding(t, e, f) && Finite(t, e, f)
      ensures ValueOf(t, e, f) <= TopValue(t)
    {
      TopIsLargest(e, f, topE, topF, Pow2(t.mantissa), Bias(t));
    }
  }

  /** With one exponent bit every finite IEEE value is subnormal, and the pattern's value is above them all. */
  lemma {:induction false} OneBitIeee(t: ScalarType)
    requires t.nanRepr == IEEE_754 && t.exponent == 1 && !t.finiteValuesOnly && 0 <= MaxMantissa(t)
    ensures forall e: nat, f: nat :: Encoding(t, e, f) && Finite(t, e, f) ==> ValueOf(t, e, f) < TopValue(t)
  {
  }

  /** Without infinities, the top exponent with fraction zero is a finite value above the computed one. */
  lemma {:induction false} FiniteIeee(t: ScalarType)
    requires t.nanRepr == IEEE_754 && 0 < t.exponent && t.finiteValuesOnly && 0 <= MaxMantissa(t)
    ensures exists e: nat, f: nat :: Encoding(t, e, f) && Finite(t, e, f) && ValueOf(t, e, f) > TopValue(t)
  {
    var steps, ones := Pow2(t.mantissa), Pow2(t.exponent) - 1;
    assert 0 < ones by { Pow2Mono(1, t.exponent); }
    hide Pow2, Exp2, Ratio, Scale, Bias;
    var weight := Exp2(MaxExponent(t) - Bias(t));
    Fraction(0, MaxMantissa(t), steps);
    ScaleMono(1.0 + Ratio(MaxMantissa(t), steps), 2.0, weight);
    ScaleUnits(weight);
    Exp2Next(MaxExponent(t) - Bias(t));
    assert MaxExponent(t) - Bias(t) + 1 == ones - Bias(t);
    ScaleMono(1.0, 1.0 + Ratio(0, steps), Exp2(ones - Bias(t)));
    ScaleUnits(Exp2(ones - Bias(t)));
    assert Encoding(t, ones, 0) && Finite(t, ones, 0);
    assert ValueOf(t, ones, 0) > TopValue(t);
  }
}
