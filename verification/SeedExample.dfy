/** A bf16 input that the seed of the running maximum costs its output: one query of 128s, one key of -1s, one value of
    ones. */
module SeedExample {
  import opened Sums
  import opened Exponential
  import opened SoftmaxRow
  import opened OnlineSoftmax
  import opened TruncationBound
  import opened LostRows
  import opened Attention
  import opened WaveSpec
  import opened Pipeline
  import opened EndToEnd
  import opened KernelBound
  import opened Staging
  import opened Bf16

  const BF16_ONE: bv16 := 0x3F80
  const BF16_MINUS_ONE: bv16 := 0xBF80
  const BF16_128: bv16 := 0x4300

  lemma {:induction false} ZeroMagnitude(n: nat)
    ensures Magnitude(0, n) == 0
  {
    if n > 0 {
      assert Half(0) == 0;
      ZeroMagnitude(n - 1);
    }
  }

  /** A power of two, from its fields. */
  lemma PowerValue(u: bv32, e: int)
    requires Mantissa(u) == 0 && Magnitude(Exponent(u), 8) == e + 127 && e > -127
    ensures FloatValue(u) == if Negative(u) then -Pow2(e) else Pow2(e)
  {
    hide Mantissa, Exponent, Negative, Magnitude, Weighed, Pow2, IntPow2;
    ZeroMagnitude(23);
    PowersOfMantissa();
    assert Significand(u) == 8388608 && UnitExponent(u) == e - 23;
    hide Significand, UnitExponent;
    PowersAdd(23, e - 23);
  }

  lemma ExponentFields()
    ensures Magnitude(127, 8) == 127 && Magnitude(134, 8) == 134
  {
  }

  lemma SampleBits()
    ensures Exponent(Bf16ToFloat(BF16_ONE)) == 127 && Mantissa(Bf16ToFloat(BF16_ONE)) == 0
    ensures Exponent(Bf16ToFloat(BF16_MINUS_ONE)) == 127 && Mantissa(Bf16ToFloat(BF16_MINUS_ONE)) == 0
    ensures Exponent(Bf16ToFloat(BF16_128)) == 134 && Mantissa(Bf16ToFloat(BF16_128)) == 0
    ensures !Negative(Bf16ToFloat(BF16_ONE)) && Negative(Bf16ToFloat(BF16_MINUS_ONE))
        && !Negative(Bf16ToFloat(BF16_128))
  {
  }

  lemma SampleValues()
    ensures Bf16Value(BF16_ONE) == 1.0 && Bf16Value(BF16_MINUS_ONE) == -1.0 && Bf16Value(BF16_128) == 128.0
  {
    SampleBits();
    ExponentFields();
    assert Pow2(0) == 1.0;
    assert Pow2(7) == 128.0;
    hide Mantissa, Exponent, Negative, Magnitude, Bf16ToFloat, FloatValue, Pow2;
    PowerValue(Bf16ToFloat(BF16_ONE), 0);
    PowerValue(Bf16ToFloat(BF16_MINUS_ONE), 0);
    PowerValue(Bf16ToFloat(BF16_128), 7);
  }

  /** The input: one query row, one key, not causal. */
  function SeedJob(bits: real -> bv32, exp2: real -> real, scale: real): Job {
    Job(_ => BF16_128, 64, _ => BF16_MINUS_ONE, 64, _ => BF16_ONE, 64, 1, 1, false, 0, 0,
        b => Bf16Value(b), bits, false, exp2, scale)
  }

  lemma SeedElements(bits: real -> bv32, exp2: real -> real, scale: real, row: int, d: int)
    ensures var x := InputsOf(SeedJob(bits, exp2, scale));
      x.q(row, d) == 128.0 && x.k(row, d) == -1.0 && x.v(row, d) == 1.0
  {
    var j := SeedJob(bits, exp2, scale);
    SampleValues();
    hide Bf16Value;
    assert At(j.q, 64, row, d) == BF16_128 && At(j.k, 64, row, d) == BF16_MINUS_ONE && At(j.v, 64, row, d) == BF16_ONE;
  }

  lemma SeedScore(bits: real -> bv32, exp2: real -> real, scale: real)
    ensures Score(InputsOf(SeedJob(bits, exp2, scale)), 0, 0) == -8192.0
  {
    var x := InputsOf(SeedJob(bits, exp2, scale));
    hide Bf16Value;
    forall d ensures ScoreTerm(x, 0, 0)(d) == -128.0 {
      SeedElements(bits, exp2, scale, 0, d);
    }
    hide ScoreTerm, InputsOf;
    SumConstant(ScoreTerm(x, 0, 0), -128.0, 64);
  }

  /** exp2 halves with every step down. */
  lemma {:induction false} PowerOfBase(exp2: real -> real, n: nat)
    requires IsExponential(exp2) && exp2(-1.0) == 0.5
    ensures exp2(-(n as real)) == Pow2(0 - n)
  {
    if n > 0 {
      PowerOfBase(exp2, n - 1);
      NextPower(0 - n);
      ExponentialAdds(exp2, -((n - 1) as real), -1.0);
      assert -((n - 1) as real) + -1.0 == -(n as real);
    }
  }

  lemma FarBelow(exp2: real -> real, a: real)
    requires IsExponential(exp2) && Decays(exp2) && exp2(-1.0) == 0.5 && a <= -134.0
    ensures exp2(a) < Bf16Least()
  {
    hide Pow2, IsExponential, Decays;
    PowerOfBase(exp2, 134);
    NextPower(-134);
    assert Pow2(-134) > 0.0;
    ExponentialGrows(exp2, a, -134.0);
  }

  lemma SeedIsFarAbove(bits: real -> bv32, exp2: real -> real, scale: real)
    requires IsExponential(exp2) && Decays(exp2) && exp2(-1.0) == 0.5 && scale >= 0.125
    ensures !Reaches(WaveRow(SeedJob(bits, exp2, scale), 0), scale, SEED, Bf16Least())
  {
    var j := SeedJob(bits, exp2, scale);
    hide Score, IsExponential, Decays, Reaches, Bf16Least;
    ReachedByKey(j, 0, Bf16Least());
    SeedScore(bits, exp2, scale);
    assert LaneRow(j, 0) == 0;
    forall key | Visible(InputsOf(j), LaneRow(j, 0), key) ensures SeedWeight(j, 0, key) < Bf16Least() {
      assert key == 0;
      Monotone(0.125, scale, 3192.0);
      assert Scaled(scale, -3192.0) == -(scale * 3192.0);
      FarBelow(exp2, Scaled(scale, -3192.0));
    }
  }

  lemma SeedJobFacts(bits: real -> bv32, exp2: real -> real, scale: real)
    requires RoundsDown(bits) && IsExponential(exp2) && Decays(exp2) && scale >= 0.125
    ensures var j := SeedJob(bits, exp2, scale);
      && OwnsRow(j, 0) && UsesBf16(j) && Softmaxes(j) && SeesSome(WaveRow(j, 0))
      && (forall d :: ValuesWithin(WaveRow(j, 0), d, 1.0)) && (forall key, d :: WaveRow(j, 0).value(key, d) == 1.0)
  {
    var j := SeedJob(bits, exp2, scale);
    hide Bf16Value, RoundsDown, Score, IsExponential, Decays;
    assert LaneRow(j, 0) == 0;
    assert WaveRow(j, 0).seen(0);
    forall key, d ensures WaveRow(j, 0).value(key, d) == 1.0 {
      SeedElements(bits, exp2, scale, key, d);
      hide InputsOf;
    }
    hide WaveRow, SeedJob;
  }

  lemma SeedFields(bits: real -> bv32, exp2: real -> real, scale: real)
    ensures var j := SeedJob(bits, exp2, scale);
      WaveRow(j, 0).exp == exp2 && j.seqlenK == 1 && j.scale == scale && j.exp2 == exp2
  {
  }

  /** Truncation leaves nothing of the one probability. */
  lemma SeedOutput(bits: real -> bv32, exp2: real -> real, scale: real, d: int)
    requires RoundsDown(bits) && IsExponential(exp2) && Decays(exp2) && exp2(-1.0) == 0.5 && scale >= 0.125
    ensures PreStore(SeedJob(bits, exp2, scale), 0, d) == 0.0
  {
    hide SeedJob, WaveRow, RoundsDown, IsExponential, Decays, UsesBf16, Softmaxes, TruncatesWithin, FlushesBelow,
      Weighs, Reaches, RunAcc, RunSum, TilesOf, TruncOf, Bf16Least;
    var j := SeedJob(bits, exp2, scale);
    SeedFields(bits, exp2, scale);
    SeedJobFacts(bits, exp2, scale);
    SeedIsFarAbove(bits, exp2, scale);
    Bf16Truncates(j);
    WaveRowWeighs(j, 0);
    NothingKept(WaveRow(j, 0), scale, SEED, TruncOf(j), Bf16Least(), TilesOf(j), d);
  }

  lemma SeedSumAndExact(bits: real -> bv32, exp2: real -> real, scale: real, d: int)
    requires RoundsDown(bits) && IsExponential(exp2) && Decays(exp2) && scale >= 0.125
    ensures var j := SeedJob(bits, exp2, scale);
      RunSum(WaveRow(j, 0), scale, SEED, TilesOf(j)) > 0.0 && ExactOf(j, 0, d) == 1.0
  {
    hide SeedJob, WaveRow, RoundsDown, IsExponential, Decays, UsesBf16, Softmaxes, SeesSome, SeenWithin, RunSum,
      RunShift, Exact, TilesOf, Den, OwnsRow;
    var j := SeedJob(bits, exp2, scale);
    SeedFields(bits, exp2, scale);
    SeedJobFacts(bits, exp2, scale);
    TilesCoverRow(j, 0);
    RunSumIsDen(WaveRow(j, 0), scale, SEED, TilesOf(j));
    DenPositive(WaveRow(j, 0), RunShift(WaveRow(j, 0), scale, SEED, TilesOf(j)), TileStart(TilesOf(j)));
    ExactOfOnes(WaveRow(j, 0), d, 1);
  }

  /** The kernel's output is zero for it, over a row sum that is positive, while exact attention is
      one and the reference is within a hundredth of it. Any scale from 1/8 on will do: 64 headdims have
      log2(e) / 8. */
  lemma SeedCostsTheRow(bits: real -> bv32, exp2: real -> real, scale: real, scalar: real, exp: real -> real, c: real,
                        d: int)
    requires RoundsDown(bits) && IsExponential(exp2) && Decays(exp2) && exp2(-1.0) == 0.5 && scale >= 0.125
    requires SameBase(exp2, exp, scale, scalar) && IsExponential(exp)
    ensures var j := SeedJob(bits, exp2, scale);
      && PreStore(j, 0, d) == 0.0 && RunSum(WaveRow(j, 0), scale, SEED, TilesOf(j)) > 0.0
      && ExactOf(j, 0, d) == 1.0 && RefPreStore(j, scalar, exp, c, 0, d) >= 0.99
  {
    hide SeedJob, WaveRow, RoundsDown, IsExponential, Decays, SameBase, UsesBf16, Softmaxes, SeesSome, TruncatesWithin,
      FlushesBelow, RunSum, PreStore, ExactOf, RefPreStore, WorstLoss, ValuesWithin, Bf16Loss, TilesOf, TruncOf;
    var j := SeedJob(bits, exp2, scale);
    SeedOutput(bits, exp2, scale, d);
    SeedSumAndExact(bits, exp2, scale, d);
    SeedFields(bits, exp2, scale);
    SeedJobFacts(bits, exp2, scale);
    Bf16Truncates(j);
    SmallLoss();
    ReferenceWithin(j, scalar, exp, Bf16Loss(), c, 0, d, 1.0);
  }

  lemma SmallLoss()
    ensures WorstLoss(Bf16Loss(), 1, 1.0) <= 0.01
  {
    PowersGrow(-126, -9);
    assert Pow2(-9) == 1.0 / 512.0;
  }
}
