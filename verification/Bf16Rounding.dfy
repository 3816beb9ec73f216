/** A rounding of reals to binary32 that the bound on truncation applies to: the number just below, built from its
    exponent and its significand. */
module Bf16Rounding {
  import opened Sums
  import opened Bf16
  import opened TruncationBound

  // ---- bit fields that spell a number ----

  function Bit(m: int): bv32 {
    if m % 2 == 1 then 1 else 0
  }

  function Appended(x: bv32, b: bv32): bv32 {
    (x << 1) | b
  }

  /** The n bits that spell m. */
  function Field(m: int, n: nat): bv32
    decreases n
  {
    if n == 0 then 0 else Appended(Field(m / 2, n - 1), Bit(m))
  }

  /** A field of n bits stays below this; n is at most 23, the width of a mantissa. */
  function FieldEnd(n: nat): bv32
    decreases 23 - n
  {
    if n >= 23 then 0x80_0000 else Half(FieldEnd(n + 1))
  }

  lemma HalfIsLess(x: bv32)
    ensures Half(x) <= x
  {
  }

  lemma {:induction false} FieldEndBelow(n: nat)
    ensures FieldEnd(n) <= 0x80_0000
    decreases 23 - n
  {
    hide Half;
    if n < 23 {
      FieldEndBelow(n + 1);
      HalfIsLess(FieldEnd(n + 1));
    }
  }

  lemma FieldEnds()
    ensures FieldEnd(23) == 0x80_0000 && FieldEnd(8) == 0x100 && FieldEnd(0) == 1
  {
    assert FieldEnd(16) == 0x1_0000;
    assert FieldEnd(8) == 0x100;
  }

  lemma AppendedBelow(x: bv32, b: bv32, end: bv32)
    requires x < Half(end) && b <= 1
    ensures Appended(x, b) < end
  {
  }

  lemma AppendedParts(x: bv32, b: bv32)
    requires x < 0x8000_0000 && b <= 1
    ensures Half(Appended(x, b)) == x && (Odd(Appended(x, b)) <==> b == 1)
  {
  }

  lemma FieldEndStep(n: nat)
    requires n < 23
    ensures FieldEnd(n) == Half(FieldEnd(n + 1))
  {
  }

  lemma {:induction false} FieldFits(m: int, n: nat)
    requires n <= 23
    ensures Field(m, n) < FieldEnd(n)
    decreases n
  {
    hide Half, Appended, FieldEnd;
    if n == 0 {
      FieldEnds();
    } else {
      FieldFits(m / 2, n - 1);
      FieldEndStep(n - 1);
      AppendedBelow(Field(m / 2, n - 1), Bit(m), FieldEnd(n));
    }
  }

  lemma FieldParts(m: int, n: nat)
    requires 0 < n <= 23
    ensures Half(Field(m, n)) == Field(m / 2, n - 1) && (Odd(Field(m, n)) <==> m % 2 == 1)
  {
    FieldFits(m / 2, n - 1);
    FieldEndBelow(n - 1);
    hide FieldEnd, Half, Appended, Odd;
    AppendedParts(Field(m / 2, n - 1), Bit(m));
  }

  lemma {:induction false} FieldSpells(m: int, n: nat)
    requires n <= 23 && 0 <= m < IntPow2(n)
    ensures Magnitude(Field(m, n), n) == m
    decreases n
  {
    if n > 0 {
      FieldParts(m, n);
      FieldSpells(m / 2, n - 1);
      hide Field, Half, Odd;
    }
  }

  // ---- a positive number from its fields ----

  function Composed(e: bv32, m: bv32): bv32 {
    (e << 23) | m
  }

  lemma ComposedFields(e: bv32, m: bv32)
    requires e < 0x100 && m < 0x80_0000
    ensures !Negative(Composed(e, m)) && Exponent(Composed(e, m)) == e && Mantissa(Composed(e, m)) == m
  {
  }

  /** The float with exponent field e and mantissa field m. */
  function Float(e: int, m: int): bv32 {
    Composed(Field(e, 8), Field(m, 23))
  }

  lemma FloatOf(e: int, m: int)
    requires 0 <= e < 255 && 0 <= m < 8388608
    ensures var u := Float(e, m);
      && !Negative(u) && UnitExponent(u) == (if e == 0 then -149 else e - 150)
      && Significand(u) == (if e == 0 then m else 8388608 + m)
  {
    hide Field, FieldEnd, Magnitude, IntPow2, Composed, Negative, Exponent, Mantissa;
    FieldFits(e, 8);
    FieldFits(m, 23);
    FieldEnds();
    PowersOfMantissa();
    FieldSpells(e, 8);
    FieldSpells(m, 23);
    ComposedFields(Field(e, 8), Field(m, 23));
  }

  // ---- rounding down ----

  /** The unit of exponent field e. */
  function Unit(e: int): int {
    if e == 0 then -149 else e - 150
  }

  /** The first exponent from e on whose numbers reach past p, up to that of the largest numbers. */
  function ExponentFrom(p: real, e: nat): nat
    decreases 254 - e
  {
    if e >= 254 || p < Weighed(16777216, Unit(e)) then e else ExponentFrom(p, e + 1)
  }

  function ExponentOf(p: real): nat {
    if p < Weighed(8388608, -149) then 0 else ExponentFrom(p, 1)
  }

  /** How many units fit in p. */
  function Units(p: real, e: int): int {
    (p / Pow2(e)).Floor
  }

  lemma UnitsFit(p: real, e: int)
    ensures Weighed(Units(p, e), e) <= p < Weighed(Units(p, e) + 1, e)
  {
    var x, q := Pow2(e), p / Pow2(e);
    hide Pow2;
    FloorFits(p, q, x, q.Floor);
    assert Weighed(Units(p, e), e) == q.Floor as real * x;
    assert Weighed(Units(p, e) + 1, e) == (q.Floor + 1) as real * x;
  }

  lemma FloorFits(p: real, q: real, x: real, n: int)
    requires x > 0.0 && q == p / x && n as real <= q < (n + 1) as real
    ensures n as real * x <= p < (n + 1) as real * x
  {
    assert p == q * x;
    Monotone(n as real, q, x);
    StrictlyMonotone(q, (n + 1) as real, x);
  }

  lemma StrictlyMonotone(a: real, b: real, x: real)
    requires a < b && x > 0.0
    ensures a * x < b * x
  {
  }

  lemma UnitsBetween(p: real, e: int, lo: int, hi: int)
    requires Weighed(lo, e) <= p < Weighed(hi, e)
    ensures lo <= Units(p, e) < hi
  {
    UnitsFit(p, e);
    hide Units, Weighed;
    WeighedGrows(Units(p, e) + 1, lo, e);
    WeighedGrows(hi, Units(p, e), e);
  }

  /** The largest binary32 that is no more than p, for p from 0 on. */
  function Rounded(p: real): bv32 {
    var e := ExponentOf(p);
    var s := Units(p, Unit(e));
    Float(e, if e == 0 then s else s - 8388608)
  }

  function RoundDown(): real -> bv32 {
    p => if p < 0.0 then Flipped(Rounded(-p)) else Rounded(p)
  }

  lemma ExponentFits(p: real, e: nat)
    requires 1 <= e <= 254 && 0.0 <= p <= Largest() && Weighed(8388608, Unit(e)) <= p
    ensures var f := ExponentFrom(p, e); e <= f <= 254 && Weighed(8388608, Unit(f)) <= p < Weighed(16777216, Unit(f))
    decreases 254 - e
  {
    if e >= 254 {
      WeighedGrows(16777215, 16777216, 104);
    } else if p >= Weighed(16777216, Unit(e)) {
      hide Weighed;
      WeighedTwice(8388608, Unit(e));
      ExponentFits(p, e + 1);
    }
  }

  /** So the bounds on truncation are bounds on something. */
  lemma RoundsDownHolds()
    ensures RoundsDown(RoundDown())
  {
    hide TowardZero, Rounded, Largest, Flipped;
    forall p | Abs(p) <= Largest() ensures TowardZero(RoundDown()(p), p) {
      RoundedIsNext(Abs(p));
      if p < 0.0 {
        FlipIsNext(Rounded(-p), -p);
      }
    }
  }

  lemma FlipIsNext(u: bv32, p: real)
    requires TowardZero(u, p) && p > 0.0
    ensures TowardZero(Flipped(u), -p)
  {
    FlipNegates(u);
    FlippedFields(u);
    hide Negative, FloatValue, Ulp, Flipped;
  }

  lemma RoundedIsNext(p: real)
    requires 0.0 <= p <= Largest()
    ensures TowardZero(Rounded(p), p)
  {
    hide Negative, Significand, UnitExponent, Ulp, Float, Units, Weighed, ExponentFrom, Largest, FloatValue;
    var e := ExponentOf(p);
    var s := Units(p, Unit(e));
    WeighedGrows(0, 0, Unit(e));
    if p < Weighed(8388608, -149) {
      UnitsBetween(p, Unit(e), 0, 8388608);
      FloatOf(e, s);
    } else {
      ExponentFits(p, 1);
      UnitsBetween(p, Unit(e), 8388608, 16777216);
      FloatOf(e, s - 8388608);
    }
    UnitsFit(p, Unit(e));
    UlpIsUnit(Rounded(p));
  }
}
