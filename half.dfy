/**
 * The half-float codec of pl.tomaszkax86.math.Half: conversion between the
 * 16-bit binary16 layout of IEEE 754-2008 (section 3.4: 1 sign bit, a 5-bit
 * biased exponent field, a 10-bit trailing significand) and Java floats.
 *
 * A half is its 16-bit pattern, read as an unsigned number (a negative short
 * is a pattern with bit 15 set). A Java float given to the encoder is
 * described exactly by a Float value (sign, unbiased exponent as returned by
 * Math.getExponent, 24-bit significand); a decoded float is a FloatValue that
 * keeps a finite value as the significand and power of two the decoder hands
 * to Math.scalb. Every value the decoder builds is representable as a float,
 * so this loses nothing.
 */
module HalfFloat {

  type Bits16 = x: int | 0 <= x < 0x1_0000

  // ---------------------------------------------------------------------
  // Constants and masks (Half.java, lines 361-420)
  // ---------------------------------------------------------------------

  const BYTES: int := 2
  const SIZE: int := 16
  const MAX_EXPONENT: int := 15
  const MIN_EXPONENT: int := -14
  const NaN: Bits16 := 0x7FFF
  const POSITIVE_INFINITY: Bits16 := 0x7C00
  const NEGATIVE_INFINITY: Bits16 := 0xFC00
  const ZERO: Bits16 := 0
  const ONE: Bits16 := 0x3C00
  const MAX_VALUE: Bits16 := 0x7BFF
  const MIN_VALUE: Bits16 := 1
  const MIN_NORMAL: Bits16 := 0x0400
  const SIGN_MASK: Bits16 := 0x8000
  const EXPONENT_MASK: Bits16 := 0x7C00
  const SIGNIFICAND_MASK: Bits16 := 0x3FF

  /** Bit 15: the short is negative. */
  function SignBit(h: Bits16): bool { h >= SIGN_MASK }

  /** Bits 10-14: `(EXPONENT_MASK & half) >> 10`. */
  function ExponentField(h: Bits16): int { (h / 0x400) % 0x20 }

  /** Bits 0-9: `SIGNIFICAND_MASK & half`. */
  function SignificandField(h: Bits16): int { h % 0x400 }

  /** Reassembling the three fields gives back the pattern. */
  lemma FieldsDetermine(h: Bits16)
    ensures h == (if SignBit(h) then SIGN_MASK else 0) + ExponentField(h) * 0x400 + SignificandField(h)
  {
  }

  // ---------------------------------------------------------------------
  // Exact powers of two
  // ---------------------------------------------------------------------

  function Pow2Int(k: nat): (p: nat)
    ensures p >= 1
  {
    if k == 0 then 1 else 2 * Pow2Int(k - 1)
  }

  /** 2^e for any integer e, as a real. */
  function Pow2(e: int): (p: real)
    decreases if e >= 0 then e else -e
  {
    if e == 0 then 1.0
    else if e > 0 then 2.0 * Pow2(e - 1)
    else Pow2(e + 1) / 2.0
  }

  function Signed(negative: bool, x: real): real { if negative then -x else x }

  // ---------------------------------------------------------------------
  // Decoding: toFloat(short)
  // ---------------------------------------------------------------------

  /**
   * A Java float as the decoder returns it. A nonzero finite value is kept
   * in the form the decoder builds it, Math.copySign(Math.scalb(significand,
   * exponent), sign), that is +-significand * 2^exponent. NaN payloads are
   * not tracked.
   */
  datatype FloatValue =
    | NotANumber
    | Infinite(negative: bool)
    | SignedZero(negative: bool)
    | Scaled(negative: bool, significand: nat, exponent: int)

  /** The real number a decoded finite nonzero value stands for. */
  function ToReal(d: FloatValue): real
    requires d.Scaled?
  {
    Signed(d.negative, d.significand as real * Pow2(d.exponent))
  }

  /**
   * toFloat as written. Field 31 is infinity or NaN, field 0 is zero or a
   * subnormal scaled by 2^(-15 - 10), and fields 1-30 get their leading bit
   * from SIGN_MASK (bit 15), so the significand is s + 2^15.
   */
  function ToFloat(h: Bits16): (d: FloatValue)
    ensures d.NotANumber? <==> ExponentField(h) == 31 && SignificandField(h) != 0
    ensures !d.NotANumber? ==> d.negative == SignBit(h)
    ensures d.Scaled? ==> 0 < d.significand < 0x8400 && -25 <= d.exponent <= 5
    ensures d.Scaled? && ExponentField(h) != 0 ==> d.significand >= SIGN_MASK
  {
    var negative := SignBit(h);
    var exponent := ExponentField(h) - 15;
    var significand := SignificandField(h);
    if exponent == 16 then
      (if significand == 0 then Infinite(negative) else NotANumber)
    else if exponent == -15 then
      (if significand == 0 then SignedZero(negative)
       else Scaled(negative, significand, exponent - 10))
    else
      // `significand |= SIGN_MASK`: the significand is below 2^10, so | is +
      Scaled(negative, significand + SIGN_MASK, exponent - 10)
  }

  /** The decoder's case split, with the sign always taken from bit 15. */
  lemma ToFloatCases(h: Bits16)
    ensures ToFloat(h).NotANumber? <==> ExponentField(h) == 31 && SignificandField(h) != 0
    ensures ToFloat(h).Infinite? <==> ExponentField(h) == 31 && SignificandField(h) == 0
    ensures ToFloat(h).SignedZero? <==> ExponentField(h) == 0 && SignificandField(h) == 0
    ensures !ToFloat(h).NotANumber? ==> ToFloat(h).negative == SignBit(h)
    ensures ExponentField(h) == 0 && SignificandField(h) != 0 ==>
      ToFloat(h) == Scaled(SignBit(h), SignificandField(h), -25)
    ensures 1 <= ExponentField(h) <= 30 ==>
      ToFloat(h) == Scaled(SignBit(h), SignificandField(h) + 0x8000, ExponentField(h) - 25)
  {
  }

  /** The special patterns decode as their names say. */
  lemma SpecialPatterns()
    ensures ToFloat(NaN) == NotANumber && ToFloat(0xFFFF) == NotANumber
    ensures ToFloat(POSITIVE_INFINITY) == Infinite(false)
    ensures ToFloat(NEGATIVE_INFINITY) == Infinite(true)
    ensures ToFloat(ZERO) == SignedZero(false) && ToFloat(SIGN_MASK) == SignedZero(true)
  {
  }

  // ---------------------------------------------------------------------
  // Encoding: toHalf(float)
  // ---------------------------------------------------------------------

  /**
   * A Java float: NaN, an infinity, or a finite value. A finite float has
   * Math.getExponent's unbiased exponent e and its 24-bit significand m:
   * normal floats have -126 <= e <= 127 and 2^23 <= m < 2^24 and stand for
   * m * 2^(e-23); zeros and subnormals have e == -127 and m < 2^23 and stand
   * for m * 2^-149.
   */
  datatype Float =
    | NaNFloat
    | InfiniteFloat(negative: bool)
    | FiniteFloat(negative: bool, exponent: int, mantissa: nat)

  predicate ValidFloat(f: Float)
  {
    f.FiniteFloat? ==>
      (-126 <= f.exponent <= 127 && 0x80_0000 <= f.mantissa < 0x100_0000)
      || (f.exponent == -127 && f.mantissa < 0x80_0000)
  }

  /** The power of two the last significand bit of a finite float is worth. */
  function UnitExponent(f: Float): int
    requires f.FiniteFloat?
  {
    (if f.exponent == -127 then -126 else f.exponent) - 23
  }

  /** The real value of a finite float. */
  function ValueOf(f: Float): real
    requires f.FiniteFloat?
  {
    Signed(f.negative, f.mantissa as real * Pow2(UnitExponent(f)))
  }

  /**
   * A decoded value and a finite float stand for the same number: same sign
   * and significand * 2^exponent == mantissa * 2^UnitExponent, compared by
   * scaling the one with the larger exponent down to the other.
   */
  predicate SameNumber(d: FloatValue, f: Float)
    requires f.FiniteFloat?
  {
    var fe := UnitExponent(f);
    d.Scaled? && d.negative == f.negative &&
    if d.exponent <= fe then d.significand == f.mantissa * Pow2Int(fe - d.exponent)
    else f.mantissa == d.significand * Pow2Int(d.exponent - fe)
  }

  /** Math.getExponent: 128 for NaN and the infinities. */
  function GetExponent(f: Float): int
  {
    if f.FiniteFloat? then f.exponent else 128
  }

  /** `Math.signum(value) >= 0`: false for NaN and for values below zero; -0.0f passes. */
  predicate SignumNonNegative(f: Float)
  {
    match f
    case NaNFloat => false
    case InfiniteFloat(negative) => !negative
    case FiniteFloat(negative, _, mantissa) => !negative || mantissa == 0
  }

  /**
   * toHalf as written. The sign bit, exponent bits and significand bits
   * occupy disjoint positions, so the source's `|` is `+` here. On the normal
   * path `(int) Math.scalb(Math.abs(value), 10 - exponent)` is m * 2^-13
   * truncated, that is m / 2^13.
   */
  function ToHalf(f: Float): (h: Bits16)
    requires ValidFloat(f)
    ensures SignBit(h) == !SignumNonNegative(f)
    ensures f.NaNFloat? || GetExponent(f) > MAX_EXPONENT ==> h % SIGN_MASK == (if f.NaNFloat? then NaN else POSITIVE_INFINITY)
    ensures GetExponent(f) < MIN_EXPONENT ==> h % SIGN_MASK == ZERO
  {
    var signBit := if SignumNonNegative(f) then 0 else SIGN_MASK;
    if f.NaNFloat? then signBit + NaN
    else
      var exponent := GetExponent(f);
      if exponent > MAX_EXPONENT then signBit + POSITIVE_INFINITY
      else if exponent < MIN_EXPONENT then signBit
      else
        var exponentBits := ((exponent + 15) % 0x20) * 0x400;
        var significandBits := (f.mantissa / 0x2000) % 0x400;
        signBit + exponentBits + significandBits
  }

  /** NaN always encodes to 0xFFFF (the sign bit is set), which decodes to NaN. */
  lemma EncodeNaN()
    ensures ToHalf(NaNFloat) == 0xFFFF
    ensures ToFloat(ToHalf(NaNFloat)) == NotANumber
  {
  }

  /** Exponents above 15, the infinities included, clamp to a signed infinity. */
  lemma EncodeOverflow(f: Float)
    requires ValidFloat(f) && !f.NaNFloat? && GetExponent(f) > MAX_EXPONENT
    ensures ToHalf(f) == if f.negative then NEGATIVE_INFINITY else POSITIVE_INFINITY
    ensures ToFloat(ToHalf(f)) == Infinite(f.negative)
  {
  }

  /**
   * Exponents below -14, zeros and float subnormals included, clamp to a
   * zero carrying the sign bit; -0.0f loses its sign.
   */
  lemma EncodeUnderflow(f: Float)
    requires ValidFloat(f) && f.FiniteFloat? && f.exponent < MIN_EXPONENT
    ensures ToHalf(f) == if f.negative && f.mantissa != 0 then SIGN_MASK else ZERO
    ensures ToFloat(ToHalf(f)) == SignedZero(f.negative && f.mantissa != 0)
  {
  }

  /**
   * In the normal range the field is e + 15 (always 1-30) and the significand
   * is the top ten fraction bits, truncated.
   */
  lemma EncodeNormal(f: Float)
    requires ValidFloat(f) && f.FiniteFloat? && MIN_EXPONENT <= f.exponent <= MAX_EXPONENT
    ensures SignBit(ToHalf(f)) == f.negative
    ensures ExponentField(ToHalf(f)) == f.exponent + 15
    ensures 1 <= ExponentField(ToHalf(f)) <= 30
    ensures SignificandField(ToHalf(f)) == f.mantissa / 0x2000 - 0x400
  {
    var h := ToHalf(f);
    var signBit := if f.negative then SIGN_MASK else 0;
    var q := f.mantissa / 0x2000;
    assert 0x400 <= q < 0x800;
    assert h == signBit + (f.exponent + 15) * 0x400 + (q - 0x400);
  }

  /** The encoder never produces a subnormal pattern. */
  lemma EncodeNeverSubnormal(f: Float)
    requires ValidFloat(f)
    ensures ExponentField(ToHalf(f)) == 0 ==> SignificandField(ToHalf(f)) == 0
  {
    if f.FiniteFloat? && MIN_EXPONENT <= f.exponent <= MAX_EXPONENT {
      EncodeNormal(f);
    }
  }

  /** 1.0f encodes to ONE. */
  lemma EncodeOne()
    ensures ValidFloat(FiniteFloat(false, 0, 0x80_0000))
    ensures ValueOf(FiniteFloat(false, 0, 0x80_0000)) == 1.0
    ensures ToHalf(FiniteFloat(false, 0, 0x80_0000)) == ONE
  {
    assert Pow2(-1) == 1.0 / 2.0;
    assert Pow2(-2) == 1.0 / 4.0;
    assert Pow2(-3) == 1.0 / 8.0;
    assert Pow2(-4) == 1.0 / 16.0;
    assert Pow2(-5) == 1.0 / 32.0;
    assert Pow2(-6) == 1.0 / 64.0;
    assert Pow2(-7) == 1.0 / 128.0;
    assert Pow2(-8) == 1.0 / 256.0;
    assert Pow2(-9) == 1.0 / 512.0;
    assert Pow2(-10) == 1.0 / 1024.0;
    assert Pow2(-11) == 1.0 / 2048.0;
    assert Pow2(-12) == 1.0 / 4096.0;
    assert Pow2(-13) == 1.0 / 8192.0;
    assert Pow2(-14) == 1.0 / 16384.0;
    assert Pow2(-15) == 1.0 / 32768.0;
    assert Pow2(-16) == 1.0 / 65536.0;
    assert Pow2(-17) == 1.0 / 131072.0;
    assert Pow2(-18) == 1.0 / 262144.0;
    assert Pow2(-19) == 1.0 / 524288.0;
    assert Pow2(-20) == 1.0 / 1048576.0;
    assert Pow2(-21) == 1.0 / 2097152.0;
    assert Pow2(-22) == 1.0 / 4194304.0;
    assert Pow2(-23) == 1.0 / 8388608.0;
  }

  /**
   * What encode then decode (as written) yields in the normal range: the
   * decoder's leading bit is 2^15, not 2^10.
   */
  lemma EncodeThenDecodeNormal(f: Float)
    requires ValidFloat(f) && f.FiniteFloat? && MIN_EXPONENT <= f.exponent <= MAX_EXPONENT
    ensures ToFloat(ToHalf(f)) == Scaled(f.negative, f.mantissa / 0x2000 - 0x400 + 0x8000, f.exponent - 10)
  {
    EncodeNormal(f);
  }

  /** Decoding ONE as written gives 32, not 1. */
  lemma DecodeOneIsThirtyTwo()
    ensures ToFloat(ONE) == Scaled(false, 0x8000, -10)
    ensures ToReal(ToFloat(ONE)) == 32.0
    ensures ToHalf(FiniteFloat(false, 0, 0x80_0000)) == ONE
  {
    EncodeOne();
    assert Pow2(-1) == 1.0 / 2.0;
    assert Pow2(-2) == 1.0 / 4.0;
    assert Pow2(-3) == 1.0 / 8.0;
    assert Pow2(-4) == 1.0 / 16.0;
    assert Pow2(-5) == 1.0 / 32.0;
    assert Pow2(-6) == 1.0 / 64.0;
    assert Pow2(-7) == 1.0 / 128.0;
    assert Pow2(-8) == 1.0 / 256.0;
    assert Pow2(-9) == 1.0 / 512.0;
    assert Pow2(-10) == 1.0 / 1024.0;
  }

  /** Decoding MIN_VALUE as written gives 2^-25 instead of binary16's 2^-24. */
  lemma DecodeMinValueIsHalved()
    ensures ToFloat(MIN_VALUE) == Scaled(false, 1, -25)
    ensures ToFloatIntended(MIN_VALUE) == Scaled(false, 1, -24)
    ensures ToReal(ToFloat(MIN_VALUE)) * 2.0 == ToReal(ToFloatIntended(MIN_VALUE))
  {
  }

  // ---------------------------------------------------------------------
  // The decoder binary16 calls for
  // ---------------------------------------------------------------------

  /**
   * toFloat with the leading bit at 2^10 and subnormals scaled by 2^-24, as
   * section 3.4 of IEEE 754-2008 lays binary16 out.
   */
  function ToFloatIntended(h: Bits16): (d: FloatValue)
    ensures d.NotANumber? <==> ExponentField(h) == 31 && SignificandField(h) != 0
    ensures !d.NotANumber? ==> d.negative == SignBit(h)
    ensures d.Scaled? ==> 0 < d.significand < 0x800 && -24 <= d.exponent <= 5
    ensures d.Scaled? ==> d.significand >= 0x400 || d.exponent == -24
  {
    var negative := SignBit(h);
    var field := ExponentField(h);
    var significand := SignificandField(h);
    if field == 31 then
      (if significand == 0 then Infinite(negative) else NotANumber)
    else if field == 0 then
      (if significand == 0 then SignedZero(negative)
       else Scaled(negative, significand, -24))
    else
      Scaled(negative, significand + 0x400, field - 25)
  }

  /** The float a normal half stands for under the intended decoder. */
  function FloatOfHalf(h: Bits16): Float
  {
    FiniteFloat(SignBit(h), ExponentField(h) - 15, (SignificandField(h) + 0x400) * 0x2000)
  }

  /**
   * Round trip through the intended decoder: for every normal pattern the
   * decoded value is the number FloatOfHalf(h) stands for, and encoding that
   * float gives the pattern back.
   */
  lemma IntendedRoundTrip(h: Bits16)
    requires 1 <= ExponentField(h) <= 30
    ensures ValidFloat(FloatOfHalf(h))
    ensures SameNumber(ToFloatIntended(h), FloatOfHalf(h))
    ensures ToHalf(FloatOfHalf(h)) == h
  {
    var f := FloatOfHalf(h);
    assert Pow2Int(13) == 0x2000;
    EncodeNormal(f);
    FieldsDetermine(h);
    FieldsDetermine(ToHalf(f));
  }

  /**
   * Encode then the intended decode truncates toward zero by less than one
   * unit 2^(e-10): the result is +-t * 2^(e-10) with the input's sign and
   * t * 2^13 <= m < (t + 1) * 2^13.
   */
  lemma IntendedTruncates(f: Float)
    requires ValidFloat(f) && f.FiniteFloat? && MIN_EXPONENT <= f.exponent <= MAX_EXPONENT
    ensures ToFloatIntended(ToHalf(f)).Scaled?
    ensures ToFloatIntended(ToHalf(f)).negative == f.negative
    ensures ToFloatIntended(ToHalf(f)).exponent == f.exponent - 10
    ensures ToFloatIntended(ToHalf(f)).significand * 0x2000 <= f.mantissa
    ensures f.mantissa < (ToFloatIntended(ToHalf(f)).significand + 1) * 0x2000
  {
    EncodeNormal(f);
  }

  /** A float with no bits below 2^13 encodes then decodes (intended) to itself. */
  lemma IntendedExactWhenRepresentable(f: Float)
    requires ValidFloat(f) && f.FiniteFloat? && MIN_EXPONENT <= f.exponent <= MAX_EXPONENT
    requires f.mantissa % 0x2000 == 0
    ensures SameNumber(ToFloatIntended(ToHalf(f)), f)
  {
    EncodeNormal(f);
    assert Pow2Int(13) == 0x2000;
  }

  lemma Pow2Succ(e: int)
    ensures Pow2(e + 1) == 2.0 * Pow2(e)
  {
  }

  /** Shifting the exponent by k multiplies by 2^k. */
  lemma {:induction false} Pow2Shift(e: int, k: nat)
    ensures Pow2(e + k) == Pow2Int(k) as real * Pow2(e)
    decreases k
  {
    if k > 0 {
      Pow2Shift(e, k - 1);
      Pow2Succ(e + k - 1);
    }
  }

  /**
   * Under the intended decoder the subnormals are multiples of MIN_VALUE's
   * 2^-24 and run without a gap into MIN_NORMAL = 2^-14: the largest
   * subnormal plus one step is the smallest normal.
   */
  lemma IntendedSubnormalsMeetNormals()
    ensures ToFloatIntended(0x03FF) == Scaled(false, 0x3FF, -24)
    ensures ToFloatIntended(MIN_NORMAL) == Scaled(false, 0x400, -24)
    ensures ToReal(ToFloatIntended(0x03FF)) + ToReal(ToFloatIntended(MIN_VALUE))
         == ToReal(ToFloatIntended(MIN_NORMAL))
    ensures ToReal(ToFloatIntended(MIN_NORMAL)) == Pow2(-14)
  {
    Pow2Shift(-24, 10);
    assert Pow2Int(10) == 1024;
  }

  // ---------------------------------------------------------------------
  // equals
  // ---------------------------------------------------------------------

  /** The argument of equals: another Half or some other object. */
  datatype Object = HalfObject(half: Bits16) | OtherObject

  /** equals: true exactly for a Half with the same bit pattern. */
  predicate Equals(h: Bits16, other: Object): (b: bool)
    ensures b ==> other.HalfObject? && ToFloat(other.half) == ToFloat(h)
  {
    other.HalfObject? && h == other.half
  }

  /**
   * equals compares patterns, not values: it is an equivalence, equal halves
   * decode alike, but the two NaN patterns differ and so do +0 and -0.
   */
  lemma EqualsComparesPatterns(a: Bits16, b: Bits16)
    ensures Equals(a, HalfObject(b)) <==> a == b
    ensures Equals(a, HalfObject(b)) ==> Equals(b, HalfObject(a)) && ToFloat(a) == ToFloat(b)
    ensures !Equals(a, OtherObject)
    ensures !Equals(NaN, HalfObject(0xFFFF)) && ToFloat(NaN) == ToFloat(0xFFFF)
    ensures !Equals(ZERO, HalfObject(SIGN_MASK))
  {
  }
}
