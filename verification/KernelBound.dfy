/** How far truncation to bf16 can take the kernel from exact attention and from the reference, and which rows the
    seed of the running maximum costs altogether. */
module KernelBound {
  import opened Sums
  import opened Exponential
  import opened SoftmaxRow
  import opened OnlineSoftmax
  import opened TruncationBound
  import opened LostRows
  import opened OutputSize
  import opened Attention
  import opened GpuRef
  import opened WaveSpec
  import opened Pipeline
  import opened EndToEnd
  import opened Staging
  import opened Bf16

  /** An exponential that grows, and a softmax scale that is not negative. */
  ghost predicate Softmaxes(j: Job) {
    IsExponential(j.exp2) && Decays(j.exp2) && j.scale >= 0.0
  }

  /** The average of absolute values, and their sum, over the keys a row sees. */
  function SizeOf(j: Job, l: int, d: int): real {
    Exact(AbsRow(WaveRow(j, l)), d, j.seqlenK)
  }

  function MassOf(j: Job, l: int, d: int): real {
    Mass(WaveRow(j, l), d, j.seqlenK)
  }

  lemma WaveRowWeighs(j: Job, l: int)
    requires Softmaxes(j)
    ensures Weighs(WaveRow(j, l), j.scale)
  {
    hide Score;
  }

  /** The tiled kernel is near exact attention for a row with a key of weight w against the seed, and exactly zero for
      a row that sees no key. */
  lemma KernelNearExact(j: Job, loss: Loss, w: real, l: int, d: int)
    requires OwnsRow(j, l) && Softmaxes(j) && TruncatesWithin(TruncOf(j), loss) && 0.0 < w <= 1.0
    ensures Reaches(WaveRow(j, l), j.scale, -5000.0, w) ==>
              Near(PreStore(j, l, d), ExactOf(j, l, d), Slack(Amplified(loss, w), SizeOf(j, l, d), MassOf(j, l, d)))
    ensures !SeesSome(WaveRow(j, l)) ==> PreStore(j, l, d) == 0.0 == ExactOf(j, l, d)
  {
    TilesCoverRow(j, l);
    WaveRowWeighs(j, l);
    hide WaveRow, TilesOf, FusedOutput, Exact, AbsRow, Mass, Weighs, Reaches, TruncatesWithin, TruncOf, SeenWithin,
      Slack;
    FusedNear(WaveRow(j, l), j.scale, SEED, TruncOf(j), loss, w, TilesOf(j), d, j.seqlenK);
  }

  lemma AmplifiedNonneg(loss: Loss, w: real)
    requires loss.eps >= 0.0 && loss.tiny >= 0.0 && w > 0.0
    ensures Amplified(loss, w).eps >= 0.0 && Amplified(loss, w).tiny >= 0.0
  {
    DivideIsMultiply(loss.tiny, w);
    Monotone(0.0, loss.tiny, 1.0 / w);
  }

  lemma ExpOf(j: Job, scalar: real, exp: real -> real, l: int)
    ensures WaveRow(j, l).exp == j.exp2 && RefRow(j, scalar, exp, l).exp == exp
  {
  }

  /** The same, per unit of the largest absolute value the row sees: eps, plus tiny / w for each key. */
  lemma KernelWithin(j: Job, loss: Loss, w: real, l: int, d: int, vmax: real)
    requires OwnsRow(j, l) && Softmaxes(j) && TruncatesWithin(TruncOf(j), loss) && 0.0 < w <= 1.0
    requires ValuesWithin(WaveRow(j, l), d, vmax) && Reaches(WaveRow(j, l), j.scale, -5000.0, w)
    ensures Near(PreStore(j, l, d), ExactOf(j, l, d), WorstLoss(Amplified(loss, w), j.seqlenK, vmax))
  {
    assert IsExponential(j.exp2);
    hide OwnsRow, WaveRow, Exact, AbsRow, Mass, IsExponential, Softmaxes, TruncatesWithin, TruncOf, SeenWithin, Reaches,
      PreStore, ExactOf, Slack, WorstLoss, Amplified, Near, ValuesWithin, TilesOf;
    KernelNearExact(j, loss, w, l, d);
    TilesCoverRow(j, l);
    LossNonneg(TruncOf(j), loss);
    AmplifiedNonneg(loss, w);
    ExpOf(j, 0.0, j.exp2, l);
    assert SizeOf(j, l, d) == Exact(AbsRow(WaveRow(j, l)), d, j.seqlenK);
    assert MassOf(j, l, d) == Mass(WaveRow(j, l), d, j.seqlenK);
    NearPerUnit(WaveRow(j, l), Amplified(loss, w), d, j.seqlenK, vmax, PreStore(j, l, d), ExactOf(j, l, d));
  }

  lemma SameValues(j: Job, scalar: real, exp: real -> real, l: int, d: int, vmax: real)
    requires ValuesWithin(WaveRow(j, l), d, vmax)
    ensures ValuesWithin(RefRow(j, scalar, exp, l), d, vmax)
  {
    var x := RefRow(j, scalar, exp, l);
    forall key | x.seen(key) ensures Abs(x.value(key, d)) <= vmax {
      assert WaveRow(j, l).seen(key);
      assert WaveRow(j, l).value(key, d) == x.value(key, d);
    }
  }

  lemma ReferenceWithin(j: Job, scalar: real, exp: real -> real, loss: Loss, c: real, l: int, d: int, vmax: real)
    requires SameBase(j.exp2, exp, j.scale, scalar) && IsExponential(exp) && TruncatesWithin(TruncOf(j), loss)
    requires ValuesWithin(WaveRow(j, l), d, vmax)
    ensures SeesSome(WaveRow(j, l)) ==>
              Near(RefPreStore(j, scalar, exp, c, l, d), ExactOf(j, l, d), WorstLoss(loss, j.seqlenK, vmax))
    ensures !SeesSome(WaveRow(j, l)) ==> RefPreStore(j, scalar, exp, c, l, d) == 0.0
  {
    hide WaveRow, RefRow, Exact, AbsRow, Mass, IsExponential, TruncatesWithin, TruncOf, SeenWithin, RefOutput, SameBase,
      Slack, WorstLoss, Near, ValuesWithin, SeesSome, ExactOf;
    var x := RefRow(j, scalar, exp, l);
    SameRow(j, scalar, exp, l, d);
    LossNonneg(TruncOf(j), loss);
    ExpOf(j, scalar, exp, l);
    SameValues(j, scalar, exp, l, d, vmax);
    if SeesSome(x) {
      RefNear(x, TruncOf(j), loss, c, d, j.seqlenK);
      NearPerUnit(x, loss, d, j.seqlenK, vmax, RefPreStore(j, scalar, exp, c, l, d), ExactOf(j, l, d));
    } else {
      RefNothing(x, TruncOf(j), c, d, j.seqlenK);
    }
  }

  lemma Triangle(a: real, b: real, c: real, p: real, q: real)
    requires Near(a, c, p) && Near(b, c, q)
    ensures Near(a, b, p + q)
  {
  }

  /** Although one truncates before and the other after normalising, kernel and reference stay together. */
  lemma KernelNearReference(j: Job, scalar: real, exp: real -> real, loss: Loss, w: real, c: real, l: int, d: int,
                            vmax: real)
    requires OwnsRow(j, l) && SameBase(j.exp2, exp, j.scale, scalar) && Softmaxes(j) && IsExponential(exp)
    requires TruncatesWithin(TruncOf(j), loss) && 0.0 < w <= 1.0 && ValuesWithin(WaveRow(j, l), d, vmax)
    ensures Reaches(WaveRow(j, l), j.scale, -5000.0, w) ==>
              Near(PreStore(j, l, d), RefPreStore(j, scalar, exp, c, l, d),
                WorstLoss(Amplified(loss, w), j.seqlenK, vmax) + WorstLoss(loss, j.seqlenK, vmax))
    ensures !SeesSome(WaveRow(j, l)) ==> PreStore(j, l, d) == RefPreStore(j, scalar, exp, c, l, d) == 0.0
  {
    hide OwnsRow, WaveRow, IsExponential, Softmaxes, TruncatesWithin, TruncOf, Reaches, SameBase, SeesSome,
      PreStore, RefPreStore, ExactOf, Slack, WorstLoss, Amplified, Near, ValuesWithin;
    KernelNearExact(j, loss, w, l, d);
    ReferenceWithin(j, scalar, exp, loss, c, l, d, vmax);
    if Reaches(WaveRow(j, l), j.scale, -5000.0, w) {
      ReachedIsSeen(WaveRow(j, l), j.scale, w);
      KernelWithin(j, loss, w, l, d, vmax);
      Triangle(PreStore(j, l, d), RefPreStore(j, scalar, exp, c, l, d), ExactOf(j, l, d),
        WorstLoss(Amplified(loss, w), j.seqlenK, vmax), WorstLoss(loss, j.seqlenK, vmax));
    }
  }

  lemma ReachedIsSeen(x: Row, scale: real, w: real)
    requires Reaches(x, scale, -5000.0, w)
    ensures SeesSome(x)
  {
  }

  // ---- the truncation that the code performs ----

  /** bf16 tensors, and probabilities cut to the high half of their binary32 image. */
  ghost predicate UsesBf16(j: Job) {
    !j.exact && RoundsDown(j.bits) && forall b :: j.val(b) == Bf16Value(b)
  }

  lemma Bf16Truncates(j: Job)
    requires UsesBf16(j)
    ensures TruncatesWithin(TruncOf(j), Bf16Loss()) && FlushesBelow(TruncOf(j), Bf16Least())
  {
    hide Bf16Value, RoundsDown, High, Bf16Loss, Bf16Least;
    TruncationIsBounded(TruncOf(j), j.bits);
  }

  /** Some visible score is no lower than the seed of the running maximum. */
  ghost predicate SeedReached(j: Job, l: int) {
    exists key :: Visible(InputsOf(j), LaneRow(j, l), key) && Score(InputsOf(j), LaneRow(j, l), key) >= -5000.0
  }

  lemma SeedIsReached(j: Job, l: int)
    requires Softmaxes(j) && SeedReached(j, l)
    ensures Reaches(WaveRow(j, l), j.scale, -5000.0, 1.0)
  {
    hide Score, Visible;
    var key :| Visible(InputsOf(j), LaneRow(j, l), key) && Score(InputsOf(j), LaneRow(j, l), key) >= -5000.0;
    var x := WaveRow(j, l);
    assert x.seen(key) && x.score(key) >= -5000.0;
    WaveRowWeighs(j, l);
    hide WaveRow, Weighs;
    ScoreReaches(x, j.scale, -5000.0, key);
  }

  /** What one truncation to bf16 can cost a row of n keys: 2^-7 + n * 2^-126 of its largest value. */
  function Bf16Bound(n: nat, vmax: real): real {
    (1.0 / 128.0 + n as real * Pow2(-126)) * vmax
  }

  lemma BoundIsLoss(n: nat, vmax: real)
    ensures Bf16Bound(n, vmax) == WorstLoss(Bf16Loss(), n, vmax)
  {
    hide Pow2;
  }

  lemma KernelWithinBf16(j: Job, l: int, d: int, vmax: real)
    requires OwnsRow(j, l) && UsesBf16(j) && Softmaxes(j) && SeedReached(j, l) && ValuesWithin(WaveRow(j, l), d, vmax)
    ensures Near(PreStore(j, l, d), ExactOf(j, l, d), Bf16Bound(j.seqlenK, vmax))
  {
    hide OwnsRow, WaveRow, UsesBf16, Softmaxes, SeedReached, IsExponential, Reaches, TruncatesWithin, TruncOf,
      PreStore, ExactOf, Bf16Loss, WorstLoss, Amplified, Near, ValuesWithin, FlushesBelow, Bf16Least, Bf16Bound;
    BoundIsLoss(j.seqlenK, vmax);
    Bf16Truncates(j);
    SeedIsReached(j, l);
    UnitAmplifies(Bf16Loss());
    KernelWithin(j, Bf16Loss(), 1.0, l, d, vmax);
  }

  lemma RefWithinBf16(j: Job, scalar: real, exp: real -> real, c: real, l: int, d: int, vmax: real)
    requires UsesBf16(j) && Softmaxes(j) && SeedReached(j, l) && ValuesWithin(WaveRow(j, l), d, vmax)
    requires SameBase(j.exp2, exp, j.scale, scalar) && IsExponential(exp)
    ensures Near(RefPreStore(j, scalar, exp, c, l, d), ExactOf(j, l, d), Bf16Bound(j.seqlenK, vmax))
  {
    hide WaveRow, UsesBf16, Softmaxes, SeedReached, IsExponential, SameBase, Reaches, TruncatesWithin, TruncOf,
      RefPreStore, ExactOf, Bf16Loss, WorstLoss, Near, ValuesWithin, FlushesBelow, Bf16Least, Bf16Bound, SeesSome;
    BoundIsLoss(j.seqlenK, vmax);
    Bf16Truncates(j);
    SeedIsReached(j, l);
    ReachedIsSeen(WaveRow(j, l), j.scale, 1.0);
    ReferenceWithin(j, scalar, exp, Bf16Loss(), c, l, d, vmax);
  }

  /** The code's own truncation: once a visible score reaches the seed, the kernel is within 2^-7 + n * 2^-126 of exact
      attention, and within twice that of the reference, relative to the largest visible value. */
  lemma KernelWithinBf16Bound(j: Job, scalar: real, exp: real -> real, c: real, l: int, d: int, vmax: real)
    requires OwnsRow(j, l) && UsesBf16(j) && Softmaxes(j) && SeedReached(j, l) && ValuesWithin(WaveRow(j, l), d, vmax)
    requires SameBase(j.exp2, exp, j.scale, scalar) && IsExponential(exp)
    ensures Near(PreStore(j, l, d), ExactOf(j, l, d), Bf16Bound(j.seqlenK, vmax))
    ensures Near(PreStore(j, l, d), RefPreStore(j, scalar, exp, c, l, d), 2.0 * Bf16Bound(j.seqlenK, vmax))
  {
    hide OwnsRow, WaveRow, UsesBf16, Softmaxes, SeedReached, IsExponential, SameBase, PreStore, RefPreStore, ExactOf,
      Near, ValuesWithin, Bf16Bound;
    KernelWithinBf16(j, l, d, vmax);
    RefWithinBf16(j, scalar, exp, c, l, d, vmax);
    Triangle(PreStore(j, l, d), RefPreStore(j, scalar, exp, c, l, d), ExactOf(j, l, d), Bf16Bound(j.seqlenK, vmax),
      Bf16Bound(j.seqlenK, vmax));
  }

  // ---- the stored number ----

  /** Neither pre-store number is larger than the largest visible value. */
  lemma PreStoreSize(j: Job, l: int, d: int, vmax: real)
    requires UsesBf16(j) && Softmaxes(j) && ValuesWithin(WaveRow(j, l), d, vmax)
    ensures Abs(PreStore(j, l, d)) <= vmax
  {
    hide WaveRow, UsesBf16, Softmaxes, TruncatesWithin, FlushesBelow, TruncOf, Bf16Loss, Bf16Least, ValuesWithin,
      FusedOutput, Weighs;
    Bf16Truncates(j);
    WaveRowWeighs(j, l);
    FusedSize(WaveRow(j, l), j.scale, SEED, TruncOf(j), Bf16Loss(), TilesOf(j), d, vmax);
  }

  lemma RefPreStoreSize(j: Job, scalar: real, exp: real -> real, c: real, l: int, d: int, vmax: real)
    requires UsesBf16(j) && IsExponential(exp) && ValuesWithin(WaveRow(j, l), d, vmax)
    ensures Abs(RefPreStore(j, scalar, exp, c, l, d)) <= vmax
  {
    hide WaveRow, RefRow, UsesBf16, IsExponential, TruncatesWithin, FlushesBelow, TruncOf, Bf16Loss, Bf16Least,
      ValuesWithin, RefOutput;
    Bf16Truncates(j);
    SameValues(j, scalar, exp, l, d, vmax);
    ExpOf(j, scalar, exp, l);
    RefSize(RefRow(j, scalar, exp, l), TruncOf(j), Bf16Loss(), c, d, j.seqlenK, vmax);
  }

  /** The bound on a stored number: the conversion of the output to bf16 comes on top. */
  function StoredBound(n: nat, vmax: real): real {
    (1.0 / 64.0 + n as real * Pow2(-126)) * vmax + Pow2(-126)
  }

  /** A number near another one, not larger than vmax, is stored near it. */
  lemma StoredNear(bits: real -> bv32, out: real, exact: real, n: nat, vmax: real)
    requires RoundsDown(bits) && Abs(out) <= vmax <= Largest() && Near(out, exact, Bf16Bound(n, vmax))
    ensures Near(Bf16Value(High(bits(out))), exact, StoredBound(n, vmax))
  {
    var tiny := Pow2(-126);
    hide RoundsDown, Bf16Value, High, Pow2, Largest;
    ConversionError(bits, out);
    assert Bf16Bound(n, vmax) + vmax / 128.0 + tiny == StoredBound(n, vmax) by {
      BoundsAdd(n as real, vmax, tiny);
    }
    hide Bf16Bound, StoredBound;
  }

  lemma BoundsAdd(n: real, vmax: real, tiny: real)
    ensures (1.0 / 128.0 + n * tiny) * vmax + vmax / 128.0 + tiny == (1.0 / 64.0 + n * tiny) * vmax + tiny
  {
    var t := n * tiny;
    assert (1.0 / 128.0 + t) * vmax == vmax / 128.0 + t * vmax;
    assert (1.0 / 64.0 + t) * vmax == vmax / 64.0 + t * vmax;
  }

  lemma UnitAmplifies(loss: Loss)
    ensures Amplified(loss, 1.0) == loss
  {
  }

  // ---- rows below the seed ----

  /** A visible key's weight when the maximum is still the seed. */
  function SeedWeight(j: Job, l: int, key: int): real {
    j.exp2(Scaled(j.scale, Score(InputsOf(j), LaneRow(j, l), key) + 5000.0))
  }

  lemma SeedWeightOf(j: Job, l: int, key: int)
    ensures SeedWeight(j, l, key) == j.exp2(WaveRow(j, l).logit(key) - Scaled(j.scale, SEED))
  {
    hide Score;
    var s := Score(InputsOf(j), LaneRow(j, l), key);
    assert WaveRow(j, l).logit(key) == Scaled(j.scale, s);
    assert Scaled(j.scale, s + 5000.0) == Scaled(j.scale, s) - Scaled(j.scale, SEED);
  }

  /** A row's output is zero whatever V holds, exactly when all its visible scores lie so far below the seed that
      their weights against it are below the smallest bf16: exp2(scale * (score + 5000)) < 2^-133. */
  lemma RowLostExactlyBelowSeed(j: Job, l: int, d: int)
    requires OwnsRow(j, l) && UsesBf16(j) && Softmaxes(j)
    ensures (forall v :: FusedOutput(WithValues(WaveRow(j, l), v), j.scale, SEED, TruncOf(j), TilesOf(j), d) == 0.0)
       <==> forall key :: Visible(InputsOf(j), LaneRow(j, l), key) ==> SeedWeight(j, l, key) < Pow2(-133)
  {
    assert Bf16Least() == Pow2(-133);
    hide WaveRow, SeedWeight, Visible, FlushesBelow, Pow2, Weighs, TruncOf, TilesOf, FusedOutput, WithValues,
      SeenWithin, Bf16Least, UsesBf16, OwnsRow, Softmaxes, TruncatesWithin, Reaches;
    Bf16Truncates(j);
    WaveRowWeighs(j, l);
    TilesCoverRow(j, l);
    ReachedByKey(j, l, Bf16Least());
    LostExactlyBelowSeed(WaveRow(j, l), j.scale, SEED, TruncOf(j), Bf16Least(), TilesOf(j), d);
  }

  lemma ReachedByKey(j: Job, l: int, w: real)
    ensures Reaches(WaveRow(j, l), j.scale, -5000.0, w)
       <==> exists key :: Visible(InputsOf(j), LaneRow(j, l), key) && SeedWeight(j, l, key) >= w
  {
    var x := WaveRow(j, l);
    hide Score, Visible;
    forall key ensures SeedWeight(j, l, key) == x.exp(x.logit(key) - Scaled(j.scale, SEED))
                    && x.seen(key) == Visible(InputsOf(j), LaneRow(j, l), key) {
      SeedWeightOf(j, l, key);
    }
    hide WaveRow, SeedWeight;
  }
}
