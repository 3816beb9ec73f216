/** What every bf16 stands for, from its sign, its exponent and its seven mantissa bits. */
module Bf16Numbers {
  import opened Bf16
  import opened Bf16Rounding

  /** A bf16 from its three fields. */
  function Bf16Bits(negative: bool, e: int, m: int): bv16 {
    AsHalf(if negative then 1 else 0, Field(e, 8), Field(m, 7))
  }

  function AsHalf(sign: bv32, e: bv32, m: bv32): bv16 {
    (((sign << 15) | (e << 7) | m) & 0xFFFF) as bv16
  }

  /** The number of those fields: subnormal ones have no leading 1 and the exponent of the smallest normal ones. */
  function NumberOf(negative: bool, e: int, m: int): real {
    var size := if e == 0 then m as real * Pow2(-133) else (128 + m) as real * Pow2(e - 134);
    if negative then -size else size
  }

  // ---- fields, shifted ----

  function ShiftedUp(x: bv32, k: nat): bv32
    decreases k
  {
    if k == 0 then x else Twice(ShiftedUp(x, k - 1))
  }

  lemma {:induction false} ShiftedField(m: int, n: nat, k: nat)
    ensures Field(IntPow2(k) * m, n + k) == ShiftedUp(Field(m, n), k)
  {
    if k > 0 {
      ShiftedField(m, n, k - 1);
      var m' := IntPow2(k - 1) * m;
      assert IntPow2(k) * m == 2 * m';
      AppendZero(m', n + k - 1);
    }
  }

  lemma AppendZero(m: int, n: nat)
    ensures Field(2 * m, n + 1) == Twice(Field(m, n))
  {
    assert 2 * m / 2 == m && 2 * m % 2 == 0;
    var x := Field(m, n);
    hide Field;
    OrZero(x);
  }

  lemma OrZero(x: bv32)
    ensures Appended(x, 0) == Twice(x)
  {
  }

  lemma {:induction false} ShiftsAdd(x: bv32, a: nat, b: nat)
    ensures ShiftedUp(x, a + b) == ShiftedUp(ShiftedUp(x, b), a)
  {
    hide Twice;
    if a > 0 {
      ShiftsAdd(x, a - 1, b);
    }
  }

  function FourUp(x: bv32): bv32 {
    x << 4
  }

  lemma FourTwice(x: bv32)
    ensures Twice(Twice(Twice(Twice(x)))) == FourUp(x)
  {
  }

  lemma FourFours(x: bv32)
    ensures FourUp(FourUp(FourUp(FourUp(x)))) == x << 16
  {
  }

  lemma ShiftedFour(x: bv32)
    ensures ShiftedUp(x, 4) == FourUp(x)
  {
    hide Twice, FourUp;
    FourTwice(x);
  }

  lemma SixteenUp(x: bv32)
    ensures ShiftedUp(x, 16) == x << 16
  {
    hide ShiftedUp, FourUp;
    ShiftsAdd(x, 4, 12);
    ShiftsAdd(x, 4, 8);
    ShiftsAdd(x, 4, 4);
    ShiftedFour(x);
    ShiftedFour(FourUp(x));
    ShiftedFour(FourUp(FourUp(x)));
    ShiftedFour(FourUp(FourUp(FourUp(x))));
    FourFours(x);
  }

  lemma {:induction false} WeighedShifted(a: int, k: nat, e: int)
    ensures Weighed(IntPow2(k) * a, e) == Weighed(a, e + k)
  {
    if k > 0 {
      hide Weighed;
      WeighedShifted(a, k - 1, e + 1);
      WeighedTwice(IntPow2(k - 1) * a, e);
      assert IntPow2(k) * a == 2 * (IntPow2(k - 1) * a);
    }
  }

  // ---- the number of given fields ----

  lemma WidenedFields(sign: bv32, e: bv32, m: bv32)
    requires sign <= 1 && e < 0x100 && m < 0x80
    ensures var u := Bf16ToFloat(AsHalf(sign, e, m));
      Negative(u) == (sign == 1) && Exponent(u) == e && Mantissa(u) == m << 16
  {
  }

  lemma SevenBits()
    ensures FieldEnd(7) == 0x80 && IntPow2(7) == 128
  {
    assert FieldEnd(15) == 0x8000;
  }

  /** The significand and the unit of the widened number. */
  lemma WidenedNumber(negative: bool, e: int, m: int)
    requires 0 <= e < 256 && 0 <= m < 128
    ensures var u := Bf16ToFloat(Bf16Bits(negative, e, m));
      && Negative(u) == negative && UnitExponent(u) == (if e == 0 then -149 else e - 150)
      && Significand(u) == 65536 * (if e == 0 then m else 128 + m)
  {
    hide Field, FieldEnd, ShiftedUp, Magnitude, IntPow2, Negative, Exponent, Mantissa, Bf16ToFloat, AsHalf;
    FieldFits(e, 8);
    FieldFits(m, 7);
    FieldEnds();
    SevenBits();
    WidenedFields(if negative then 1 else 0, Field(e, 8), Field(m, 7));
    ShiftedField(m, 7, 16);
    SixteenUp(Field(m, 7));
    PowersOfMantissa();
    FieldSpells(e, 8);
    FieldSpells(65536 * m, 23);
  }

  /** Each combination of sign, exponent and mantissa stands for its number. */
  lemma FieldsGiveNumber(negative: bool, e: int, m: int)
    requires 0 <= e < 256 && 0 <= m < 128
    ensures Bf16Value(Bf16Bits(negative, e, m)) == NumberOf(negative, e, m)
  {
    hide Bf16Bits, Bf16ToFloat, Negative, Significand, UnitExponent, IntPow2, Pow2;
    WidenedNumber(negative, e, m);
    PowersOfMantissa();
    WeighedShifted(if e == 0 then m else 128 + m, 16, if e == 0 then -149 else e - 150);
  }

  // ---- every bf16 has fields ----

  lemma OnlyZero(x: bv32)
    requires x < 1
    ensures x == 0
  {
  }

  lemma HalvesAppend(x: bv32)
    ensures Appended(Half(x), if Odd(x) then 1 else 0) == x
  {
  }

  lemma HalfBelow(x: bv32, end: bv32)
    requires x < end && !Odd(end)
    ensures Half(x) < Half(end)
  {
  }

  lemma {:induction false} FieldOfMagnitude(x: bv32, n: nat)
    requires n <= 23 && x < FieldEnd(n)
    ensures Field(Magnitude(x, n), n) == x
    decreases n
  {
    hide Half, Odd, Appended, FieldEnd;
    if n == 0 {
      FieldEnds();
      OnlyZero(x);
    } else {
      FieldEndEven(n);
      FieldEndStep(n - 1);
      HalfBelow(x, FieldEnd(n));
      FieldOfMagnitude(Half(x), n - 1);
      HalvesAppend(x);
      assert Magnitude(x, n) / 2 == Magnitude(Half(x), n - 1);
    }
  }

  lemma FieldEndEven(n: nat)
    requires 0 < n <= 23
    ensures !Odd(FieldEnd(n))
  {
    FieldEnds();
  }

  function SignBit(b: bv16): bv32 {
    (b as bv32) >> 15
  }

  function ExponentBits(b: bv16): bv32 {
    ((b as bv32) >> 7) & 0xFF
  }

  function MantissaBits(b: bv16): bv32 {
    (b as bv32) & 0x7F
  }

  lemma FieldsOf(b: bv16)
    ensures SignBit(b) <= 1 && ExponentBits(b) < 0x100 && MantissaBits(b) < 0x80
    ensures AsHalf(SignBit(b), ExponentBits(b), MantissaBits(b)) == b
  {
  }

  lemma ZeroOrOne(x: bv32)
    requires x <= 1
    ensures x == 0 || x == 1
  {
  }

  /** Every bf16 is that of its sign bit, its exponent and its mantissa, and stands for their number. */
  lemma EveryBf16(b: bv16)
    ensures var negative, e, m := SignBit(b) == 1, Magnitude(ExponentBits(b), 8), Magnitude(MantissaBits(b), 7);
      && 0 <= e < 256 && 0 <= m < 128
      && b == Bf16Bits(negative, e, m) && Bf16Value(b) == NumberOf(negative, e, m)
  {
    hide Magnitude, Field, FieldEnd, AsHalf, IntPow2, Bf16Value, SignBit, ExponentBits, MantissaBits;
    FieldsOf(b);
    ZeroOrOne(SignBit(b));
    MagnitudeBelow(ExponentBits(b), 8);
    MagnitudeBelow(MantissaBits(b), 7);
    PowersOfMantissa();
    FieldEnds();
    SevenBits();
    FieldOfMagnitude(ExponentBits(b), 8);
    FieldOfMagnitude(MantissaBits(b), 7);
    FieldsGiveNumber(SignBit(b) == 1, Magnitude(ExponentBits(b), 8), Magnitude(MantissaBits(b), 7));
  }
}
