/** What a launch computes, stated without tiles, waves or layouts, and against the reference. */
module LaunchResults {
  import opened Exponential
  import opened Floats
  import opened SoftmaxRow
  import opened OnlineSoftmax
  import opened TruncationBound
  import opened LostRows
  import opened Attention
  import opened GpuRef
  import opened Staging
  import opened Gemm
  import opened WaveSpec
  import opened Pipeline
  import opened Grid
  import opened TensorLayouts
  import opened LaunchGrid
  import opened LaunchSpec
  import opened Agreement
  import opened EndToEnd
  import opened KernelBound
  import opened Bf16

  function AttentionRow(s: Setup, at: Spot): Row {
    RowOf(ProblemOf(s, at.batch, at.head), s.scale, s.exp2, at.row)
  }

  /** The job and the lane that compute a row. */
  function JobAt(s: Setup, at: Spot): Job {
    var w := WriterFor(s.g, at, 0);
    JobOf(s, w.batch, w.head, w.y, w.warp)
  }

  function LaneAt(at: Spot): int {
    at.row % 32
  }

  /** The spot's row, as its wave sees it: the same for every headdim. */
  lemma SpotJob(s: Setup, at: Spot, d: int)
    requires IsSetup(s) && IsSpot(s.g, at) && 0 <= d < 64
    ensures var j, l := JobAt(s, at), LaneAt(at);
      && OwnsRow(j, l) && SameInputs(InputsOf(j), ProblemOf(s, at.batch, at.head))
      && LaneRow(j, l) == at.row && j.scale == s.scale && j.exp2 == s.exp2 && j.val == s.val && j.bits == s.bits
      && j.exact == s.exact && j.seqlenK == KeyLength(s, at.batch)
      && ExpectedO(s, at, d) == OutputOf(j, l, d)
  {
    assert HasLengths(s.g);
    WriterLanes(s, at, 0);
    var w, w' := WriterFor(s.g, at, 0), WriterFor(s.g, at, d);
    assert w'.batch == w.batch && w'.head == w.head && w'.y == w.y && w'.warp == w.warp
        && w'.lane % 32 == w.lane % 32 == LaneAt(at) by {
      WriterLanes(s, at, d);
    }
    hide WriterFor, JobOf, IsSetup, HasLengths, InGrid, InputsOf, ProblemOf, OwnsRow, LaneRow, MTileIdx, SeqlenQ,
      OutputOf, SameInputs, KeyLength;
    JobIsProblem(s, w.batch, w.head, w.y, w.warp, LaneAt(at), at.row);
  }

  /** So the wave's row has the attention, the keys and the values of the spot's. */
  lemma SpotRow(s: Setup, at: Spot, d: int, vmax: real)
    requires IsSetup(s) && IsSpot(s.g, at) && 0 <= d < 64
    ensures var j, l, n := JobAt(s, at), LaneAt(at), KeyLength(s, at.batch);
      && ExactOf(j, l, d) == Exact(AttentionRow(s, at), d, n)
      && Den(WaveRow(j, l), 0.0, j.seqlenK) == Den(AttentionRow(s, at), 0.0, n)
      && (SeesSome(WaveRow(j, l)) <==> SeesSome(AttentionRow(s, at)))
      && (ValuesWithin(WaveRow(j, l), d, vmax) <==> ValuesWithin(AttentionRow(s, at), d, vmax))
  {
    SpotJob(s, at, d);
    var j, l := JobAt(s, at), LaneAt(at);
    hide JobAt, InputsOf, ProblemOf, OwnsRow, LaneRow, RowOf, IsSetup, IsSpot, OutputOf, ExpectedO, SameInputs,
      AgreeingRows, KeyLength, Exact, Den, SeesSome, ValuesWithin;
    AgreeingInputs(InputsOf(j), ProblemOf(s, at.batch, at.head), s.scale, s.exp2, at.row);
    SameAttention(WaveRow(j, l), AttentionRow(s, at), d, j.seqlenK, vmax);
  }

  // ---- attention ----

  /** In exact arithmetic every element of O is the bf16 of exact attention for its (batch, head, row, headdim). */
  lemma LaunchIsExact(s: Setup, at: Spot, d: int)
    requires IsSetup(s) && IsSpot(s.g, at) && 0 <= d < 64 && IsExponential(s.exp2) && s.exact
    ensures ExpectedO(s, at, d) == High(s.bits(Exact(AttentionRow(s, at), d, KeyLength(s, at.batch))))
  {
    SpotJob(s, at, d);
    SpotRow(s, at, d, 0.0);
    hide JobAt, AttentionRow, OwnsRow, WaveRow, FusedOutput, Exact, ExactOf, IsExponential, TilesOf, TruncOf, High,
      IsSetup, IsSpot, KeyLength, InputsOf, ProblemOf, SameInputs, Den, SeesSome, ValuesWithin;
    KernelIsExact(JobAt(s, at), LaneAt(at), d);
  }

  /** bf16 tensors, probabilities cut to bf16, a base that grows and a scale that is not negative. */
  ghost predicate RunsAsCoded(s: Setup) {
    && !s.exact && RoundsDown(s.bits) && (forall b :: s.val(b) == Bf16Value(b))
    && IsExponential(s.exp2) && Decays(s.exp2) && s.scale >= 0.0
  }

  /** Some score that the row sees is no lower than -5000, where the running maximum starts. */
  ghost predicate ReachesSeed(s: Setup, at: Spot) {
    exists key ::
      && Visible(ProblemOf(s, at.batch, at.head), at.row, key)
      && Score(ProblemOf(s, at.batch, at.head), at.row, key) >= -5000.0
  }

  lemma SpotReaches(s: Setup, at: Spot)
    requires IsSetup(s) && IsSpot(s.g, at) && ReachesSeed(s, at)
    ensures SeedReached(JobAt(s, at), LaneAt(at))
  {
    SpotJob(s, at, 0);
    var x, p := InputsOf(JobAt(s, at)), ProblemOf(s, at.batch, at.head);
    hide JobAt, InputsOf, ProblemOf, OwnsRow, LaneRow, IsSetup, IsSpot, OutputOf, ExpectedO, KeyLength, Score;
    var key :| Visible(p, at.row, key) && Score(p, at.row, key) >= -5000.0;
    AgreeingScore(x, p, at.row, key);
    assert Visible(x, at.row, key);
  }

  lemma SpotTruncates(s: Setup, at: Spot)
    requires IsSetup(s) && IsSpot(s.g, at) && RunsAsCoded(s)
    ensures UsesBf16(JobAt(s, at)) && Softmaxes(JobAt(s, at))
  {
    SpotJob(s, at, 0);
    hide JobAt, InputsOf, ProblemOf, OwnsRow, LaneRow, IsSetup, IsSpot, OutputOf, ExpectedO, KeyLength, SameInputs,
      RoundsDown, Bf16Value, IsExponential, Decays;
  }

  /** The number that O stores is within 2^-6 + n * 2^-126 of exact attention for its (batch, head, row, headdim),
      relative to the largest value the row sees, and 2^-126 more, provided one of its scores reaches -5000; exactly
      zero for a row that sees no key. */
  lemma LaunchComputesAttention(s: Setup, at: Spot, d: int, vmax: real)
    requires IsSetup(s) && IsSpot(s.g, at) && 0 <= d < 64 && RunsAsCoded(s)
    ensures var x, n, stored := AttentionRow(s, at), KeyLength(s, at.batch), Bf16Value(ExpectedO(s, at, d));
      && (ReachesSeed(s, at) && ValuesWithin(x, d, vmax) && vmax <= Largest() ==>
            Near(stored, Exact(x, d, n), StoredBound(n, vmax)))
      && (!SeesSome(x) ==> stored == 0.0 == Exact(x, d, n))
  {
    assert RoundsDown(s.bits) && IsExponential(s.exp2);
    var j, l, n := JobAt(s, at), LaneAt(at), KeyLength(s, at.batch);
    LargestNonneg();
    hide JobAt, AttentionRow, OwnsRow, WaveRow, FusedOutput, Exact, IsExponential, Decays, UsesBf16, Softmaxes,
      RunsAsCoded, TilesOf, TruncOf, High, IsSetup, IsSpot, KeyLength, InputsOf, ProblemOf, ReachesSeed, SeedReached,
      ValuesWithin, TruncatesWithin, FlushesBelow, Bf16Loss, Near, SeesSome, Slack, Amplified, Reaches, SizeOf, MassOf,
      StoredBound, Bf16Bound, Pow2, Largest, Bf16Value, RoundsDown, ExactOf, Den, SameInputs;
    SpotJob(s, at, d);
    SpotRow(s, at, d, vmax);
    SpotTruncates(s, at);
    if SeesSome(AttentionRow(s, at)) {
      if ReachesSeed(s, at) && ValuesWithin(AttentionRow(s, at), d, vmax) && vmax <= Largest() {
        SpotReaches(s, at);
        KernelWithinBf16(j, l, d, vmax);
        PreStoreSize(j, l, d, vmax);
        StoredNear(s.bits, PreStore(j, l, d), ExactOf(j, l, d), n, vmax);
      }
    } else {
      Bf16Truncates(j);
      KernelNearExact(j, Bf16Loss(), 1.0, l, d);
      ConversionError(s.bits, 0.0);
      assert !ReachesSeed(s, at) by {
        NothingReaches(s, at);
      }
    }
  }

  lemma LargestNonneg()
    ensures Largest() >= 0.0
  {
    OneIsFinite();
    hide Largest;
  }

  lemma NothingReaches(s: Setup, at: Spot)
    requires !SeesSome(AttentionRow(s, at))
    ensures !ReachesSeed(s, at)
  {
    hide Score, ProblemOf, Visible;
    forall key ensures !Visible(ProblemOf(s, at.batch, at.head), at.row, key) {
      assert AttentionRow(s, at).seen(key) == Visible(ProblemOf(s, at.batch, at.head), at.row, key);
    }
  }

  /** Every log-sum-exp is that of all the keys its row sees; -inf exactly for a row that sees none. */
  lemma LaunchComputesLse(s: Setup, at: Spot, log2: real -> real, ln2: real)
    requires IsSetup(s) && IsSpot(s.g, at) && IsExponential(s.exp2) && IsLogarithm(log2, s.exp2)
    ensures ExpectedLse(s, log2, ln2, at)
         == if SeesSome(AttentionRow(s, at)) then Fin(Scaled(ln2,
           log2(Den(AttentionRow(s, at), 0.0, KeyLength(s, at.batch)))))
            else NegInf
  {
    LseAt(s, at, log2, ln2);
    SpotJob(s, at, 0);
    SpotRow(s, at, 0, 0.0);
    hide JobAt, AttentionRow, WaveRow, OwnsRow, Den, IsExponential, IsLogarithm, LseOfRow, IsSetup, IsSpot,
      KeyLength, Scaled, InputsOf, ProblemOf, SameInputs, Exact, ExactOf, SeesSome, ValuesWithin, ExpectedO, OutputOf;
    KernelLse(JobAt(s, at), log2, ln2, LaneAt(at));
  }

  lemma LseAt(s: Setup, at: Spot, log2: real -> real, ln2: real)
    ensures ExpectedLse(s, log2, ln2, at) == LseOfRow(JobAt(s, at), log2, ln2, LaneAt(at))
  {
    assert WriterFor(s.g, at, 0).lane % 32 == LaneAt(at);
    hide JobOf, LseOfRow;
  }

  // ---- the reference ----

  /** What the reference stores: base e, the plain scale, and the shift c it subtracts, its row maximum. */
  function RefRowAt(s: Setup, scalar: real, exp: real -> real, at: Spot): Row {
    RowOf(ProblemOf(s, at.batch, at.head), scalar, exp, at.row)
  }

  /** How the setup narrows a probability. */
  function NarrowIn(s: Setup): Narrowing {
    if s.exact then Keep else Truncate(s.bits)
  }

  function RefNumber(s: Setup, scalar: real, exp: real -> real, c: real, at: Spot, d: int): real {
    RefOutput(RefRowAt(s, scalar, exp, at), Narrowed(NarrowIn(s), s.val), c, d, KeyLength(s, at.batch))
  }

  function RefLseAt(s: Setup, scalar: real, exp: real -> real, log: real -> real, c: real, at: Spot): Flt {
    RefLse(RefRowAt(s, scalar, exp, at), log, c, KeyLength(s, at.batch))
  }

  lemma SameRefRow(s: Setup, scalar: real, exp: real -> real, log: real -> real, c: real, at: Spot, d: int)
    requires IsSetup(s) && IsSpot(s.g, at) && 0 <= d < 64
    ensures var j, l := JobAt(s, at), LaneAt(at);
      && RefPreStore(j, scalar, exp, c, l, d) == RefNumber(s, scalar, exp, c, at, d)
      && RefLse(RefRow(j, scalar, exp, l), log, c, j.seqlenK) == RefLseAt(s, scalar, exp, log, c, at)
  {
    SpotJob(s, at, d);
    var j, l := JobAt(s, at), LaneAt(at);
    hide JobAt, InputsOf, ProblemOf, OwnsRow, LaneRow, RowOf, OutputOf, IsSetup, IsSpot, KeyLength, RefOutput, RefLse,
      Narrowed, ExpectedO, SameInputs, AgreeingRows;
    AgreeingInputs(InputsOf(j), ProblemOf(s, at.batch, at.head), scalar, exp, at.row);
    SameReference(RefRow(j, scalar, exp, l), RefRowAt(s, scalar, exp, at), TruncOf(j), log, c, d, j.seqlenK);
  }

  /** Exact arithmetic in both bases. */
  ghost predicate ExactBases(s: Setup, scalar: real, exp: real -> real) {
    s.exact && SameBase(s.exp2, exp, s.scale, scalar) && IsExponential(s.exp2) && IsExponential(exp)
  }

  /** In exact arithmetic the whole launch refines the reference: in every batch, head, row and headdim the two
      store the bf16 of the same number, whatever shift the reference subtracts. */
  lemma LaunchRefinesReference(s: Setup, scalar: real, exp: real -> real, shift: Spot -> real)
    requires IsSetup(s) && ExactBases(s, scalar, exp)
    ensures forall at, d :: IsSpot(s.g, at) && 0 <= d < 64 ==>
              ExpectedO(s, at, d) == High(s.bits(RefNumber(s, scalar, exp, shift(at), at, d)))
  {
    forall at, d | IsSpot(s.g, at) && 0 <= d < 64
      ensures ExpectedO(s, at, d) == High(s.bits(RefNumber(s, scalar, exp, shift(at), at, d))) {
      SpotJob(s, at, d);
      SameRefRow(s, scalar, exp, x => 0.0, shift(at), at, d);
      hide JobAt, InputsOf, ProblemOf, OwnsRow, WaveRow, AttentionRow, IsSetup, IsSpot, KeyLength, RefNumber,
        RefPreStore, ExpectedO, LaneRow, FusedOutput, TilesOf, TruncOf, High, SameBase, IsExponential, SameInputs,
        RefRow, RefLse, RefLseAt;
      KernelRefinesReference(JobAt(s, at), scalar, exp, shift(at), LaneAt(at), d);
    }
  }

  /** With the code's own truncation the numbers that kernel and reference store stay within twice what one of them may
      be off by. */
  lemma LaunchNearReference(s: Setup, scalar: real, exp: real -> real, c: real, at: Spot, d: int, vmax: real)
    requires IsSetup(s) && IsSpot(s.g, at) && 0 <= d < 64 && RunsAsCoded(s) && ReachesSeed(s, at)
    requires SameBase(s.exp2, exp, s.scale, scalar) && IsExponential(exp) && ValuesWithin(AttentionRow(s, at), d, vmax)
    requires vmax <= Largest()
    ensures Near(Bf16Value(ExpectedO(s, at, d)), Bf16Value(High(s.bits(RefNumber(s, scalar, exp, c, at, d)))),
              2.0 * StoredBound(KeyLength(s, at.batch), vmax))
  {
    assert RoundsDown(s.bits);
    var j, l, n := JobAt(s, at), LaneAt(at), KeyLength(s, at.batch);
    hide JobAt, AttentionRow, OwnsRow, WaveRow, RefRow, FusedOutput, IsExponential, Decays, UsesBf16, Softmaxes,
      RunsAsCoded, SameBase, TilesOf, TruncOf, High, IsSetup, IsSpot, KeyLength, InputsOf, ProblemOf, ReachesSeed,
      SeedReached, ValuesWithin, Near, RefNumber, RefPreStore, Bf16Bound, StoredBound, Largest, RoundsDown, Bf16Value,
      ExactOf, Exact, Den, SeesSome, SameInputs, RefLse, RefLseAt;
    SpotJob(s, at, d);
    SpotRow(s, at, d, vmax);
    SpotTruncates(s, at);
    SpotReaches(s, at);
    SameRefRow(s, scalar, exp, x => 0.0, c, at, d);
    KernelWithinBf16(j, l, d, vmax);
    PreStoreSize(j, l, d, vmax);
    StoredNear(s.bits, PreStore(j, l, d), ExactOf(j, l, d), n, vmax);
    RefWithinBf16(j, scalar, exp, c, l, d, vmax);
    RefPreStoreSize(j, scalar, exp, c, l, d, vmax);
    StoredNear(s.bits, RefPreStore(j, scalar, exp, c, l, d), ExactOf(j, l, d), n, vmax);
    Triangle(Bf16Value(ExpectedO(s, at, d)), Bf16Value(High(s.bits(RefNumber(s, scalar, exp, c, at, d)))),
      ExactOf(j, l, d), StoredBound(n, vmax), StoredBound(n, vmax));
  }

  /** Every log-sum-exp is the reference's. */
  lemma LaunchLseIsReference(s: Setup, scalar: real, exp: real -> real, log2: real -> real, ln2: real,
                             log: real -> real, shift: Spot -> real)
    requires IsSetup(s) && SameBase(s.exp2, exp, s.scale, scalar) && SameLog(log2, ln2, log)
    requires IsExponential(s.exp2) && IsLogarithm(log2, s.exp2) && IsExponential(exp) && IsLogarithm(log, exp)
    ensures forall at :: IsSpot(s.g, at) ==>
              ExpectedLse(s, log2, ln2, at) == RefLseAt(s, scalar, exp, log, shift(at), at)
  {
    forall at | IsSpot(s.g, at)
      ensures ExpectedLse(s, log2, ln2, at) == RefLseAt(s, scalar, exp, log, shift(at), at) {
      LseAt(s, at, log2, ln2);
      SpotJob(s, at, 0);
      SameRefRow(s, scalar, exp, log, shift(at), at, 0);
      hide JobAt, InputsOf, ProblemOf, OwnsRow, WaveRow, AttentionRow, IsSetup, IsSpot, KeyLength, RefRowAt, RefRow,
        LseOfRow, RefLse, SameBase, SameLog, IsExponential, IsLogarithm, ExpectedLse, LaneRow, SameInputs, RefPreStore,
        RefNumber, RefLseAt;
      KernelLseIsReference(JobAt(s, at), log2, ln2, scalar, exp, log, shift(at), LaneAt(at));
    }
  }

  // ---- whole arrays ----

  /** O as the reference fills it, a row to a thread, at the addresses it computes. */
  ghost predicate RefComplete(ref: seq<bv16>, s: Setup, scalar: real, exp: real -> real, shift: Spot -> real) {
    forall at, d :: IsSpot(s.g, at) && 0 <= d < 64 ==>
      var i := RefRowStart(s.g.o, s.g, at) + d;
      0 <= i < |ref| && ref[i] == High(s.bits(RefNumber(s, scalar, exp, shift(at), at, d)))
  }

  lemma RefCell(ref: seq<bv16>, s: Setup, scalar: real, exp: real -> real, shift: Spot -> real, at: Spot, d: int)
    requires RefComplete(ref, s, scalar, exp, shift) && IsSpot(s.g, at) && 0 <= d < 64
    requires s.g.varlen ==> s.g.o.batch == 0
    ensures var i := ElementAt(s.g, at, d);
      0 <= i < |ref| && ref[i] == High(s.bits(RefNumber(s, scalar, exp, shift(at), at, d)))
  {
    RefRowAgrees(s.g.o, s.g, at);
    hide RefNumber, High, IsSpot, RowStart, RefRowStart;
    var number := RefNumber(s, scalar, exp, shift(at), at, d);
    assert RefRowStart(s.g.o, s.g, at) + d == ElementAt(s.g, at, d);
  }

  /** The two arrays are equal where the rows fill O, in exact arithmetic. */
  lemma ArraysAreEqual(o: array<bv16>, was: seq<bv16>, ref: seq<bv16>, s: Setup, scalar: real, exp: real -> real,
                       shift: Spot -> real)
    requires IsSetup(s) && ExactBases(s, scalar, exp) && (s.g.varlen ==> s.g.o.batch == 0)
    requires OComplete(o, was, s) && Covers(s.g, o.Length) && |ref| == o.Length
        && RefComplete(ref, s, scalar, exp, shift)
    ensures o[..] == ref
  {
    hide IsSetup, ExactBases, RefNumber, High, ExpectedO, IsSpot, RowStart, ElementAt, Covers, OComplete, RefComplete;
    LaunchRefinesReference(s, scalar, exp, shift);
    forall i | 0 <= i < o.Length ensures o[i] == ref[i] {
      NothingIsLeft(o, was, s, i);
      var at, d :| IsSpot(s.g, at) && 0 <= d < 64 && i == ElementAt(s.g, at, d) && o[i] == ExpectedO(s, at, d);
      RefCell(ref, s, scalar, exp, shift, at, d);
    }
  }

  /** Cell by cell the log-sum-exps of kernel and reference are equal wherever the two use the same index. */
  lemma LseCellsAreEqual(lse: array<Flt>, was: seq<Flt>, ref: seq<Flt>, s: Setup, scalar: real, exp: real -> real,
                         log2: real -> real, ln2: real, log: real -> real, shift: Spot -> real, at: Spot)
    requires IsSetup(s) && SameBase(s.exp2, exp, s.scale, scalar) && SameLog(log2, ln2, log)
    requires IsExponential(s.exp2) && IsLogarithm(log2, s.exp2) && IsExponential(exp) && IsLogarithm(log, exp)
    requires LseComplete(lse, was, s, log2, ln2) && |ref| == lse.Length && IsSpot(s.g, at)
    requires RefLseIndex(s.strideQ, s.g, at) == LseCell(s.strideQ, s.g, at)
    requires 0 <= RefLseIndex(s.strideQ, s.g, at) < |ref|
    requires ref[RefLseIndex(s.strideQ, s.g, at)] == RefLseAt(s, scalar, exp, log, shift(at), at)
    ensures lse[LseCell(s.strideQ, s.g, at)] == ref[LseCell(s.strideQ, s.g, at)]
  {
    LaunchLseIsReference(s, scalar, exp, log2, ln2, log, shift);
    hide IsSetup, RefLseAt, ExpectedLse, LseCell, RefLseIndex, IsSpot, SameBase, SameLog, IsExponential, IsLogarithm;
  }
}
