/** bf16 as the high half of a binary32: the two conversions, the numbers they stand for, and what truncation loses. */
module Bf16 {
  import opened Sums
  import opened SoftmaxRow
  import opened Staging
  import opened TruncationBound
  import opened LostRows

  // ---- the fields of a binary32, section 3.4 of IEEE 754-2019 ----

  function Exponent(u: bv32): bv32 {
    (u >> 23) & 0xFF
  }

  function Mantissa(u: bv32): bv32 {
    u & 0x7F_FFFF
  }

  predicate Negative(u: bv32) {
    u & 0x8000_0000 != 0
  }

  predicate Odd(u: bv32) {
    u & 1 == 1
  }

  function Half(u: bv32): bv32 {
    u >> 1
  }

  function Masked(u: bv32, m: bv32): bv32 {
    u & m
  }

  function Twice(m: bv32): bv32 {
    m << 1
  }

  /** The number that the lowest n bits of u spell. */
  function Magnitude(u: bv32, n: nat): (m: int)
    ensures m >= 0
  {
    if n == 0 then 0 else (if Odd(u) then 1 else 0) + 2 * Magnitude(Half(u), n - 1)
  }

  function Pow2(e: int): (p: real)
    ensures p > 0.0
    decreases if e < 0 then -e else e
  {
    if e == 0 then 1.0 else if e > 0 then 2.0 * Pow2(e - 1) else Pow2(e + 1) / 2.0
  }

  function IntPow2(k: nat): (p: int)
    ensures p > 0
  {
    if k == 0 then 1 else 2 * IntPow2(k - 1)
  }

  function Weighed(significand: int, e: int): real {
    significand as real * Pow2(e)
  }

  /** Subnormal numbers have no leading 1 and the exponent of the smallest normal ones. */
  function Significand(u: bv32): (s: int)
    ensures s >= 0
  {
    (if Magnitude(Exponent(u), 8) == 0 then 0 else 8388608) + Magnitude(Mantissa(u), 23)
  }

  function UnitExponent(u: bv32): int {
    if Magnitude(Exponent(u), 8) == 0 then -149 else Magnitude(Exponent(u), 8) - 150
  }

  /** The number that a finite binary32 stands for. */
  function FloatValue(u: bv32): real {
    if Negative(u) then -Weighed(Significand(u), UnitExponent(u)) else Weighed(Significand(u), UnitExponent(u))
  }

  /** The distance to the next number away from zero. */
  function Ulp(u: bv32): (r: real)
    ensures r > 0.0
  {
    Pow2(UnitExponent(u))
  }

  /** bf16_to_float; float_to_bf16 is High. */
  function Bf16ToFloat(b: bv16): bv32 {
    (b as bv32) << 16
  }

  function Bf16Value(b: bv16): real {
    FloatValue(Bf16ToFloat(b))
  }

  /** Widening a bf16 and truncating it again changes nothing; truncating first clears the low half. */
  lemma RoundTrips(b: bv16, u: bv32)
    ensures High(Bf16ToFloat(b)) == b
    ensures Bf16ToFloat(High(u)) == Masked(u, 0xFFFF_0000)
  {
  }

  // ---- the sign ----

  /** The image with the other sign. */
  function Flipped(u: bv32): bv32 {
    u ^ 0x8000_0000
  }

  lemma FlippedFields(u: bv32)
    ensures Exponent(Flipped(u)) == Exponent(u) && Mantissa(Flipped(u)) == Mantissa(u)
    ensures Negative(Flipped(u)) != Negative(u)
  {
  }

  /** A number and its image with the other sign add up to zero, whatever the bits. */
  lemma FlipNegates(u: bv32)
    ensures FloatValue(Flipped(u)) == -FloatValue(u) && Ulp(Flipped(u)) == Ulp(u)
  {
    hide Exponent, Mantissa, Negative, Flipped, Weighed, Pow2, Magnitude;
    FlippedFields(u);
  }

  // ---- clearing low bits ----

  /** All ones but for the low k bits. */
  function HighMask(k: nat): bv32 {
    if k == 0 then 0xFFFF_FFFF else Twice(HighMask(k - 1))
  }

  lemma MaskStep(u: bv32, m: bv32)
    ensures !Odd(Masked(u, Twice(m))) && Half(Masked(u, Twice(m))) == Masked(Half(u), m)
  {
  }

  lemma AllOnes(u: bv32)
    ensures Masked(u, 0xFFFF_FFFF) == u
  {
  }

  /** Clearing the low k bits loses less than 2^k, and leaves nothing or at least 2^k. */
  lemma {:induction false} ClearedBits(u: bv32, k: nat, n: nat)
    requires k <= n
    ensures var m, m' := Magnitude(u, n), Magnitude(Masked(u, HighMask(k)), n);
      0 <= m - m' < IntPow2(k) && (m' == 0 || m' >= IntPow2(k))
    decreases n
  {
    AllOnes(u);
    hide Odd, Half, Masked, Twice;
    if k > 0 {
      MaskStep(u, HighMask(k - 1));
      ClearedBits(Half(u), k - 1, n - 1);
    }
  }

  lemma SixteenBits()
    ensures HighMask(16) == 0xFFFF_0000 && IntPow2(16) == 65536
  {
    assert HighMask(8) == 0xFFFF_FF00 && IntPow2(8) == 256;
  }

  lemma PowersOfMantissa()
    ensures IntPow2(16) == 65536 && IntPow2(23) == 8388608 && IntPow2(8) == 256
  {
    assert IntPow2(8) == 256;
    assert IntPow2(16) == 65536;
  }

  /** Sign and exponent survive the truncation, and the mantissa loses its low 16 bits only. */
  lemma TruncatedFields(u: bv32, t: bv32)
    requires t == Masked(u, 0xFFFF_0000)
    ensures Exponent(t) == Exponent(u) && Mantissa(t) == Masked(Mantissa(u), 0xFFFF_0000) && Negative(t) == Negative(u)
  {
  }

  /** What the conversion to bf16 does to the number: same sign and exponent, a multiple of 2^16 units below it. */
  lemma TruncatedValue(u: bv32)
    ensures var t, m, m' := Bf16ToFloat(High(u)), Magnitude(Mantissa(u), 23),
        Magnitude(Mantissa(Bf16ToFloat(High(u))), 23);
      && Exponent(t) == Exponent(u) && Negative(t) == Negative(u)
      && 0 <= m - m' < 65536 && (m' == 0 || m' >= 65536)
  {
    SixteenBits();
    hide Magnitude, Mantissa, Exponent, HighMask, IntPow2, Masked, High, Bf16ToFloat, Negative;
    RoundTrips(0, u);
    TruncatedFields(u, Bf16ToFloat(High(u)));
    ClearedBits(Mantissa(u), 16, 23);
  }

  // ---- multiples of a unit ----

  lemma NextPower(e: int)
    ensures Pow2(e + 1) == 2.0 * Pow2(e)
  {
  }

  lemma {:induction false} PowersGrow(a: int, b: int)
    requires a <= b
    ensures Pow2(a) <= Pow2(b)
    decreases b - a
  {
    if a < b {
      PowersGrow(a, b - 1);
      NextPower(b - 1);
    }
  }

  lemma WeighedAdds(a: int, b: int, e: int)
    ensures Weighed(a, e) + Weighed(b, e) == Weighed(a + b, e)
  {
    hide Pow2;
    assert (a + b) as real == a as real + b as real;
  }

  lemma WeighedGrows(a: int, b: int, e: int)
    ensures a <= b ==> Weighed(a, e) <= Weighed(b, e)
    ensures a < b ==> Weighed(a, e) < Weighed(b, e)
    ensures Weighed(0, e) == 0.0
  {
    var x := Pow2(e);
    hide Pow2;
    if a <= b {
      Monotone(a as real, b as real, x);
    }
  }

  lemma WeighedTwice(a: int, e: int)
    ensures Weighed(2 * a, e) == Weighed(a, e + 1)
  {
    NextPower(e);
    hide Pow2;
    assert (2 * a) as real == 2.0 * a as real;
    assert (2.0 * a as real) * Pow2(e) == a as real * (2.0 * Pow2(e));
  }

  lemma WeighedTimes(a: int, n: nat, e: int)
    ensures Weighed(n * a, e) == n as real * Weighed(a, e)
  {
    hide Pow2;
    assert (n * a) as real == n as real * a as real;
    Reassociate(n as real, a as real, Pow2(e));
  }

  lemma {:induction false} PowersAdd(k: nat, e: int)
    ensures Weighed(IntPow2(k), e) == Pow2(e + k)
  {
    if k == 0 {
      assert Weighed(1, e) == Pow2(e);
    } else {
      PowersAdd(k - 1, e + 1);
      hide Weighed, Pow2;
      WeighedTwice(IntPow2(k - 1), e);
    }
  }

  lemma {:induction false} MagnitudeBelow(u: bv32, n: nat)
    ensures Magnitude(u, n) < IntPow2(n)
    decreases n
  {
    hide Odd, Half;
    if n > 0 {
      MagnitudeBelow(Half(u), n - 1);
    }
  }

  // ---- the loss ----

  /** The largest finite number. */
  function Largest(): real {
    Weighed(16777215, 104)
  }

  /** u is the last binary32 on the way from zero to p, p itself if it is one. */
  predicate TowardZero(u: bv32, p: real) {
    (Negative(u) <==> p < 0.0) && Abs(FloatValue(u)) <= Abs(p) < Abs(FloatValue(u)) + Ulp(u)
  }

  /** A number of the model is a real; its binary32 image is the number next to it towards zero, itself if it is one. */
  ghost predicate RoundsDown(bits: real -> bv32) {
    forall p :: Abs(p) <= Largest() ==> TowardZero(bits(p), p)
  }

  lemma OneIsFinite()
    ensures Largest() >= 1.0
  {
    PowersGrow(0, 104);
    assert Pow2(0) == 1.0;
    assert Weighed(1, 104) == Pow2(104);
    hide Pow2, Weighed;
    WeighedGrows(1, 16777215, 104);
  }

  /** Truncation to bf16: a share of 2^-7, and anything of a number below the smallest normal one. */
  function Bf16Loss(): Loss {
    Loss(1.0 / 128.0, Pow2(-126))
  }

  /** The smallest positive bf16. */
  function Bf16Least(): real {
    Pow2(-133)
  }

  lemma NormalLoss(s: int, s': int, e: int, p: real)
    requires 8388608 <= s && 0 <= s - s' < 65536
    requires Weighed(s, e) <= p < Weighed(s + 1, e)
    ensures 0.0 < Weighed(s', e) <= p && p - Weighed(s', e) < p / 128.0
  {
    hide Weighed;
    WeighedGrows(s', s, e);
    WeighedGrows(0, s', e);
    WeighedAdds(s', s + 1 - s', e);
    WeighedGrows(128 * (s + 1 - s'), s, e);
    WeighedTimes(s + 1 - s', 128, e);
  }

  lemma SubnormalLoss(m: int, m': int, e: int, p: real)
    requires 0 <= m' && 0 <= m - m' < 65536 && (m' == 0 || m' >= 65536) && m < 8388608
    requires Weighed(m, e) <= p < Weighed(m + 1, e)
    ensures 0.0 <= Weighed(m', e) <= p < Weighed(8388608, e)
    ensures Weighed(m', e) == 0.0 <==> p < Weighed(65536, e)
  {
    hide Weighed;
    WeighedGrows(0, m', e);
    WeighedGrows(m', m, e);
    WeighedGrows(m + 1, 8388608, e);
    WeighedGrows(m + 1, 65536, e);
    WeighedGrows(65536, m, e);
  }

  lemma SmallestNumbers()
    ensures Weighed(65536, -149) == Pow2(-133) && Weighed(8388608, -149) == Pow2(-126)
    ensures Pow2(-133) <= Pow2(-126) <= 1.0
  {
    PowersOfMantissa();
    hide Weighed, IntPow2;
    PowersAdd(16, -149);
    PowersAdd(23, -149);
    assert Pow2(0) == 1.0;
    hide Pow2;
    PowersGrow(-133, -126);
    PowersGrow(-126, 0);
  }

  /** A normal number is at least the smallest one. */
  lemma NormalAtLeast(s: int, e: int, p: real)
    requires 8388608 <= s && -149 <= e && Weighed(s, e) <= p
    ensures p >= Pow2(-126)
  {
    SmallestNumbers();
    PowersGrow(-149, e);
    assert Weighed(8388608, -149) <= Weighed(8388608, e) by {
      Monotone(Pow2(-149), Pow2(e), 8388608.0);
    }
    hide Weighed, Pow2;
    WeighedGrows(8388608, s, e);
  }

  lemma UlpIsUnit(u: bv32)
    ensures Abs(FloatValue(u)) == Weighed(Significand(u), UnitExponent(u))
    ensures Abs(FloatValue(u)) + Ulp(u) == Weighed(Significand(u) + 1, UnitExponent(u))
  {
    assert Weighed(1, UnitExponent(u)) == Ulp(u);
    hide Pow2, Significand, UnitExponent, Negative, Weighed;
    WeighedAdds(Significand(u), 1, UnitExponent(u));
    WeighedGrows(0, Significand(u), UnitExponent(u));
  }

  predicate Subnormal(u: bv32) {
    Magnitude(Exponent(u), 8) == 0
  }

  /** The number that is left is a smaller multiple of the same unit. */
  lemma TruncatedNumber(u: bv32)
    ensures var s, s', e := Significand(u), Significand(Bf16ToFloat(High(u))), UnitExponent(u);
      && Bf16Value(High(u)) == (if Negative(u) then -Weighed(s', e) else Weighed(s', e))
      && 0 <= s - s' < 65536 && e >= -149
      && (if Subnormal(u) then e == -149 && s < 8388608 && (s' == 0 || s' >= 65536) else s >= 8388608)
  {
    hide Magnitude, Mantissa, Exponent, High, Bf16ToFloat, Negative, IntPow2, Pow2, Weighed;
    TruncatedValue(u);
    MagnitudeBelow(Mantissa(u), 23);
    PowersOfMantissa();
  }

  /** One number, of either sign: truncation to bf16 keeps it between zero and itself, loses less than 2^-7 of it from
      the smallest normal one on, and takes it to zero exactly below the smallest bf16. */
  lemma TruncationError(p: real, u: bv32)
    requires TowardZero(u, p)
    ensures var q := Bf16Value(High(u));
      && Abs(q) <= Abs(p) && Abs(p - q) == Abs(p) - Abs(q)
      && (Abs(p) >= Pow2(-126) ==> Abs(p - q) < Abs(p) / 128.0) && (q == 0.0 <==> Abs(p) < Pow2(-133))
  {
    UlpIsUnit(u);
    hide Magnitude, Mantissa, Exponent, High, Bf16ToFloat, Negative, IntPow2, Pow2, Weighed, Ulp, Significand,
      UnitExponent, Bf16Value, Subnormal, FloatValue;
    TruncatedNumber(u);
    SmallestNumbers();
    var s, s', e := Significand(u), Significand(Bf16ToFloat(High(u))), UnitExponent(u);
    if Subnormal(u) {
      SubnormalLoss(s, s', e, Abs(p));
    } else {
      NormalLoss(s, s', e, Abs(p));
      NormalAtLeast(s, e, Abs(p));
    }
  }

  /** Cutting binary32 probabilities to bf16 loses no more than the bound on a row's output allows for, and flushes
      exactly the probabilities below the smallest bf16. */
  lemma TruncationIsBounded(trunc: real -> real, bits: real -> bv32)
    requires RoundsDown(bits) && forall p :: trunc(p) == Bf16Value(High(bits(p)))
    ensures TruncatesWithin(trunc, Bf16Loss()) && FlushesBelow(trunc, Bf16Least())
  {
    SmallestNumbers();
    OneIsFinite();
    hide TowardZero, Bf16Value, High, Pow2, Largest;
    forall p | 0.0 <= p <= 1.0
      ensures 0.0 <= trunc(p) <= p && (p >= Pow2(-126) ==> p - trunc(p) <= p / 128.0)
           && (trunc(p) == 0.0 <==> p < Pow2(-133)) {
      TruncationError(p, bits(p));
    }
  }

  /** Every number whose exponent is not that of infinities and NaN is within the largest one. */
  lemma FiniteWithinLargest(u: bv32)
    requires Magnitude(Exponent(u), 8) < 255
    ensures Abs(FloatValue(u)) <= Largest()
  {
    UlpIsUnit(u);
    PowersOfMantissa();
    hide Exponent, Mantissa, Negative, Magnitude, FloatValue, IntPow2, Weighed, Pow2;
    MagnitudeBelow(Mantissa(u), 23);
    var s, e := Significand(u), UnitExponent(u);
    assert 0 <= s <= 16777215 && e <= 104;
    hide Significand, UnitExponent;
    WeighedGrows(s, 16777215, e);
    LargerUnit(16777215, e, 104);
  }

  lemma LargerUnit(s: int, e: int, e': int)
    requires s >= 0 && e <= e'
    ensures Weighed(s, e) <= Weighed(s, e')
  {
    PowersGrow(e, e');
    var p, p' := Pow2(e), Pow2(e');
    hide Pow2;
    Monotone(p, p', s as real);
  }

  /** Conversion of a finite result to bf16: never further from zero, of the same sign, and off by at most 2^-7 of it
      and 2^-126. */
  lemma ConversionError(bits: real -> bv32, p: real)
    requires RoundsDown(bits) && Abs(p) <= Largest()
    ensures var q := Bf16Value(High(bits(p)));
      && Abs(q) <= Abs(p) && Abs(q - p) <= Abs(p) / 128.0 + Pow2(-126) && (p == 0.0 ==> q == 0.0)
  {
    hide TowardZero, Bf16Value, High, Pow2, Largest;
    TruncationError(p, bits(p));
  }
}
