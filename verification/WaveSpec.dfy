/** What one wave of the kernel holds before and after each tile, in terms of the attention rows it owns. */
module WaveSpec {
  import opened Sums
  import opened Exponential
  import opened Floats
  import opened Layout
  import opened SoftmaxRow
  import opened OnlineSoftmax
  import opened Attention
  import opened Staging
  import opened Mfma
  import opened Gemm
  import opened SoftmaxOps
  import opened TileStep

  /** The inputs of one wave: a (batch, head)'s tensors, the query tile and the warp; val decodes a bf16, bits is the
      binary32 image of a real. With exact set, probabilities are not narrowed on their way to GEMM1. */
  datatype Job = Job(
    q: Dram, strideQ: int, k: Dram, strideK: int, v: Dram, strideV: int,
    seqlenQ: nat, seqlenK: nat, causal: bool, mTile: nat, warp: nat,
    val: bv16 -> real, bits: real -> bv32, exact: bool, exp2: real -> real, scale: real)

  function NarrowOf(j: Job): Narrowing {
    if j.exact then Keep else Truncate(j.bits)
  }

  /** What is left of a probability when it meets its value. */
  function TruncOf(j: Job): real -> real {
    Narrowed(NarrowOf(j), j.val)
  }

  /** The running maximum starts here, not at minus infinity. */
  const SEED: real := -5000.0

  function InputsOf(j: Job): Inputs {
    Inputs((row, d) => j.val(At(j.q, j.strideQ, row, d)),
           (row, d) => j.val(At(j.k, j.strideK, row, d)),
           (row, d) => j.val(At(j.v, j.strideV, row, d)),
           j.seqlenQ, j.seqlenK, j.causal)
  }

  /** Absolute query row of the wave's row l. */
  function LaneRow(j: Job, l: int): int {
    128 * j.mTile + 32 * j.warp + l
  }

  function WaveRow(j: Job, l: int): Row {
    RowOf(InputsOf(j), j.scale, j.exp2, LaneRow(j, l))
  }

  // ---- scores ----

  function KHalf(j: Job, t: int, half: int): Lanes {
    (key, d) => j.val(At(j.k, j.strideK, 64 * t + key, 32 * half + d))
  }

  function QHalf(j: Job, half: int): Lanes {
    (l, d) => QueryElem(InputsOf(j), LaneRow(j, l), 32 * half + d)
  }

  function ScoreOf(j: Job, t: int, l: int, c: int): real {
    Score(InputsOf(j), LaneRow(j, l), 64 * t + c)
  }

  /** The raw scores of tile t. */
  function ScoreCells(j: Job, t: int): Cells {
    (l, c) => Fin(ScoreOf(j, t, l, c))
  }

  function SeenCells(j: Job, t: int): Cells {
    (l, c) => if WaveRow(j, l).seen(64 * t + c) then Fin(ScoreOf(j, t, l, c)) else NegInf
  }

  function ZeroLanes(): Lanes {
    (lane, r) => 0.0
  }

  method ClearAcc(acc: array2<Flt>)
    requires IsAcc(acc)
    modifies acc
    ensures Holds(acc, ZeroLanes())
  {
    forall lane, r | 0 <= lane < 64 && 0 <= r < 16 {
      acc[lane, r] := Fin(0.0);
    }
  }

  /** Two halves of the head dimension add up to the whole dot product. */
  lemma HalvesAreScore(j: Job, t: int, l: int, c: int)
    ensures Sum(DotTerm(KHalf(j, t, 0), QHalf(j, 0), c, l), 0, 32)
        + Sum(DotTerm(KHalf(j, t, 1), QHalf(j, 1), c, l), 0, 32)
         == ScoreOf(j, t, l, c)
  {
    hide DotTerm, ScoreTerm, Sum, KHalf, QHalf, InputsOf, LaneRow;
    var f := ScoreTerm(InputsOf(j), LaneRow(j, l), 64 * t + c);
    forall d | 0 <= d < 32 ensures DotTerm(KHalf(j, t, 0), QHalf(j, 0), c, l)(d) == f(d) {
      HalfTerm(j, t, 0, l, c, d);
    }
    forall d | 0 <= d < 32 ensures DotTerm(KHalf(j, t, 1), QHalf(j, 1), c, l)(d) == f(d + 32) {
      HalfTerm(j, t, 1, l, c, d);
    }
    SumEqual(DotTerm(KHalf(j, t, 0), QHalf(j, 0), c, l), f, 0, 32);
    SumShift(DotTerm(KHalf(j, t, 1), QHalf(j, 1), c, l), 0, 32, f, 32);
    SumSplit(f, 0, 32, 64);
  }

  lemma HalfTerm(j: Job, t: int, half: int, l: int, c: int, d: int)
    ensures DotTerm(KHalf(j, t, half), QHalf(j, half), c, l)(d)
         == ScoreTerm(InputsOf(j), LaneRow(j, l), 64 * t + c)(32 * half + d)
  {
    hide At, QueryElem;
  }

  /** After both GEMM0 sub-tiles the accumulators hold the tile's raw scores, 64-term dot products. */
  lemma ScoresComplete(j: Job, t: int, n0: array2<Flt>, n1: array2<Flt>)
    requires n0 != n1
    requires Holds(n0,
      ScoresPlus(ScoresPlus(ZeroLanes(), KHalf(j, t, 0), QHalf(j, 0), 0), KHalf(j, t, 1), QHalf(j, 1), 0))
    requires Holds(n1,
      ScoresPlus(ScoresPlus(ZeroLanes(), KHalf(j, t, 0), QHalf(j, 0), 32), KHalf(j, t, 1), QHalf(j, 1), 32))
    ensures TileHolds(n0, n1, ScoreCells(j, t))
  {
    hide Free, KHalf, QHalf, ScoreOf, DotTerm, Sum;
    forall lane, r | LaneReg(lane, r)
      ensures n0[lane, r] == ScoreCells(j, t)(lane % 32, Free(lane, r))
           && n1[lane, r] == ScoreCells(j, t)(lane % 32, 32 + Free(lane, r)) {
      HalvesAreScore(j, t, lane % 32, Free(lane, r));
      HalvesAreScore(j, t, lane % 32, 32 + Free(lane, r));
    }
  }

  // ---- the query registers ----

  /** Element c of the b128 load at the byte offset of Q[row][hd]. */
  function QCell(stride: int, row: int, hd: int, c: int): int {
    (row * (stride * 2) + hd * 2) / 2 + c
  }

  /** The lane's 32 bf16 of its query row, loaded once; rows past the sequence load zeros. */
  function LoadQ(j: Job): (int, int) -> bv16 {
    (lane, e) =>
      var row, hd := LaneRow(j, lane % 32), (e / 8) * 16 + (lane / 32) * 8;
      if row < j.seqlenQ then j.q(QCell(j.strideQ, row, hd, e % 8)) else 0
  }

  function SliceQ(q: (int, int) -> bv16, half: int): (int, int) -> bv16 {
    (lane, e) => q(lane, 16 * half + e)
  }

  lemma QAddress(stride: int, row: int, hd: int, c: int)
    ensures QCell(stride, row, hd, c) == ElemIndex(stride, row, hd + c)
  {
    assert row * (stride * 2) == 2 * (row * stride);
  }

  lemma QElem(j: Job, half: int, kstep: int, lane: int, c: int)
    requires j.val(0) == 0.0 && 0 <= half < 2 && 0 <= kstep < 2 && 0 <= lane < 64 && 0 <= c < 8
    ensures QOperand(SliceQ(LoadQ(j), half), j.val, kstep)(lane, c)
         == QHalf(j, half)(lane % 32, 16 * kstep + 8 * (lane / 32) + c)
  {
    var e, h, row := 16 * half + (8 * kstep + c), lane / 32, LaneRow(j, lane % 32);
    DivMod(e, 8, 2 * half + kstep, c);
    QAddress(j.strideQ, row, (e / 8) * 16 + h * 8, c);
    hide ElemIndex, LaneRow, QCell;
    var d := 32 * half + (16 * kstep + 8 * h + c);
    assert (e / 8) * 16 + h * 8 + c == d;
    assert LoadQ(j)(lane, e) == if row < j.seqlenQ then j.q(ElemIndex(j.strideQ, row, d)) else 0;
    assert InputsOf(j).q(row, d) == j.val(At(j.q, j.strideQ, row, d));
    assert At(j.q, j.strideQ, row, d) == j.q(ElemIndex(j.strideQ, row, d));
    assert QueryElem(InputsOf(j), row, d) == if row < j.seqlenQ then j.val(j.q(ElemIndex(j.strideQ, row, d))) else 0.0;
    assert QHalf(j, half)(lane % 32, 16 * kstep + 8 * h + c) == QueryElem(InputsOf(j), row, d);
    assert QOperand(SliceQ(LoadQ(j), half), j.val, kstep)(lane, c) == j.val(LoadQ(j)(lane, e));
  }

  lemma QSlices(j: Job, half: int)
    requires j.val(0) == 0.0 && 0 <= half < 2
    ensures QSliceIs(SliceQ(LoadQ(j), half), j.val, QHalf(j, half))
  {
    hide QOperand, SliceQ, LoadQ, QHalf;
    forall kstep, lane, c | 0 <= kstep < 2 && 0 <= lane < 64 && 0 <= c < 8
      ensures QOperand(SliceQ(LoadQ(j), half), j.val, kstep)(lane, c)
           == QHalf(j, half)(lane % 32, 16 * kstep + 8 * (lane / 32) + c) {
      QElem(j, half, kstep, lane, c);
    }
  }

  // ---- mask and maximum ----

  lemma SameTile(n0: array2<Flt>, n1: array2<Flt>, cells: Cells, cells': Cells)
    requires TileHolds(n0, n1, cells)
    requires forall l, c :: 0 <= l < 32 && 0 <= c < 64 ==> cells(l, c) == cells'(l, c)
    ensures TileHolds(n0, n1, cells')
  {
    forall lane, r | LaneReg(lane, r) ensures 0 <= Free(lane, r) < 32 {
      AccRowSwizzled(lane, r);
    }
    hide Free;
  }

  lemma MaskedIsSeen(j: Job, t: nat, l: int, c: int)
    requires 0 <= c
    ensures MaskedCells(ScoreCells(j, t), j.causal, j.seqlenK, j.seqlenK - j.seqlenQ, LaneRow(j, 0), 64 * t)(l, c)
         == SeenCells(j, t)(l, c)
  {
    hide ScoreOf, Score, Logit;
    var x, key := InputsOf(j), 64 * t + c;
    assert LaneRow(j, 0) + l == LaneRow(j, l);
    assert WaveRow(j, l).seen(key) == Visible(x, LaneRow(j, l), key);
    hide LaneRow, WaveRow;
    assert MaskShift(x) == j.seqlenK - j.seqlenQ;
    assert Visible(x, LaneRow(j, l), key) == Kept(j.causal, j.seqlenK, MaskShift(x), LaneRow(j, 0) + l, key);
    hide Visible, Kept;
  }

  /** The masked scores are those of the keys the row sees. */
  lemma MaskIsSeen(j: Job, t: nat, n0: array2<Flt>, n1: array2<Flt>)
    requires TileHolds(n0, n1,
      MaskedCells(ScoreCells(j, t), j.causal, j.seqlenK, j.seqlenK - j.seqlenQ, LaneRow(j, 0), 64 * t))
    ensures TileHolds(n0, n1, SeenCells(j, t))
  {
    hide TileHolds, MaskedCells, SeenCells;
    var masked := MaskedCells(ScoreCells(j, t), j.causal, j.seqlenK, j.seqlenK - j.seqlenQ, LaneRow(j, 0), 64 * t);
    forall l, c | 0 <= l < 32 && 0 <= c < 64 ensures masked(l, c) == SeenCells(j, t)(l, c) {
      MaskedIsSeen(j, t, l, c);
    }
    SameTile(n0, n1, masked, SeenCells(j, t));
  }

  lemma SeenCell(j: Job, t: int, l: int, c: int)
    ensures SeenCells(j, t)(l, c) == if WaveRow(j, l).seen(64 * t + c) then Fin(WaveRow(j, l).score(64 * t + c))
        else NegInf
  {
    hide Score;
  }

  /** Folding one tile into the running maximum of a row. */
  lemma TileMaxIsRunMax(j: Job, t: nat, l: int, start: real, m: real)
    requires start == RunMax(WaveRow(j, l), SEED, t) && IsTileMax(m, start, SeenCells(j, t), l)
    ensures m == RunMax(WaveRow(j, l), SEED, t + 1)
  {
    var cells := SeenCells(j, t);
    var cell := c => cells(l, c);
    hide SeenCells, WaveRow, RunMax;
    assert IsTileOf(WaveRow(j, l), t, cell) by {
      forall c | 0 <= c < 64
        ensures cell(c) == if WaveRow(j, l).seen(64 * t + c) then Fin(WaveRow(j, l).score(64 * t + c)) else NegInf {
        SeenCell(j, t, l, c);
      }
    }
    if m != start {
      var c :| 0 <= c < 64 && cells(l, c) == Fin(m);
      assert cell(c) == Fin(m);
    }
    assert forall c :: cell(c) == cells(l, c);
    assert IsMaxOf(m, start, cell);
    hide IsTileOf, IsTileMax, IsMaxOf;
    NextMax(WaveRow(j, l), SEED, t, cell, m);
  }

  // ---- probabilities ----

  /** exp2 of the folded argument is the weight of a key under the new shift. */
  lemma ProbIsWeight(j: Job, t: int, scaleM: seq<real>, l: int, c: int)
    requires 0 <= l < |scaleM|
    ensures ProbCells(SeenCells(j, t), j.exp2, j.scale, scaleM)(l, c) == Weight(WaveRow(j, l), scaleM[l], 64 * t + c)
  {
    var x, key := WaveRow(j, l), 64 * t + c;
    hide Score, Scaled;
    SeenCell(j, t, l, c);
    assert x.seen(key) ==> x.logit(key) == Scaled(j.scale, x.score(key));
    assert x.exp == j.exp2;
    hide WaveRow, SeenCells;
  }

  /** The tile's probabilities under the shift that is current once the tile is in. */
  function Probs(j: Job, t: nat): Lanes {
    (l, c) => Weight(WaveRow(j, l), RunShift(WaveRow(j, l), j.scale, SEED, t + 1), 64 * t + c)
  }

  /** The shifts that are current once tile t is in. */
  ghost predicate ShiftsAre(j: Job, t: nat, scaleM: seq<real>) {
    |scaleM| == 64 && forall l :: 0 <= l < 32 ==> scaleM[l] == RunShift(WaveRow(j, l), j.scale, SEED, t + 1)
  }

  lemma ProbsHold(j: Job, t: nat, scaleM: seq<real>, n0: array2<Flt>, n1: array2<Flt>)
    requires ShiftsAre(j, t, scaleM)
    requires TileIs(n0, n1, ProbCells(SeenCells(j, t), j.exp2, j.scale, scaleM))
    ensures TileIs(n0, n1, Probs(j, t))
  {
    hide ProbCells, SeenCells, WaveRow, Weight, RunShift, Free;
    var p := ProbCells(SeenCells(j, t), j.exp2, j.scale, scaleM);
    forall l, c | 0 <= l < 32 ensures p(l, c) == Probs(j, t)(l, c) {
      ProbIsWeight(j, t, scaleM, l, c);
    }
    hide Probs;
  }

  /** A tile's row sum is its share of the denominator. */
  lemma RowSumIsShare(j: Job, t: nat, l: int)
    ensures Sum(RowTerm(Probs(j, t), l), 0, 64)
         == Sum(WeightTerm(WaveRow(j, l), RunShift(WaveRow(j, l), j.scale, SEED, t + 1)), 64 * t, 64 * t + 64)
  {
    hide WaveRow, Weight, WeightTerm, Sum, RunShift;
    ShareOfSum(WaveRow(j, l), RunShift(WaveRow(j, l), j.scale, SEED, t + 1), 64 * t, RowTerm(Probs(j, t), l));
  }

  // ---- the numerator ----

  function VHalf(j: Job, t: int, half: int): Lanes {
    (key, d) => j.val(At(j.v, j.strideV, 64 * t + 32 * half + key, d))
  }

  /** The probabilities of the left or the right 32 keys of a tile. */
  function PHalf(p: Lanes, half: int): Lanes {
    (l, c) => p(l, 32 * half + c)
  }

  lemma VHalfValue(j: Job, t: int, half: int, l: int, key: int, d: int)
    ensures VHalf(j, t, half)(key, d) == WaveRow(j, l).value(64 * t + 32 * half + key, d)
  {
    hide At;
  }

  lemma PvIsTruncatedValue(j: Job, t: nat, half: int, l: int, d: int, key: int)
    ensures PvTerm(TruncOf(j), PHalf(Probs(j, t), half), VHalf(j, t, half), l, d)(key)
         == TruncatedValue(WaveRow(j, l), TruncOf(j), RunShift(WaveRow(j, l), j.scale, SEED, t + 1), d,
              64 * t + 32 * half + key)
  {
    hide WaveRow, Weight, VHalf, RunShift;
    VHalfValue(j, t, half, l, key, d);
    assert 64 * t + (32 * half + key) == 64 * t + 32 * half + key;
  }

  /** Two halves of GEMM1 add the tile's whole share of the numerator. */
  lemma ValuesAreShare(j: Job, t: nat, l: int, d: int)
    ensures Sum(PvTerm(TruncOf(j), PHalf(Probs(j, t), 0), VHalf(j, t, 0), l, d), 0, 32)
          + Sum(PvTerm(TruncOf(j), PHalf(Probs(j, t), 1), VHalf(j, t, 1), l, d), 0, 32)
         == Sum(TruncTerm(WaveRow(j, l), TruncOf(j), RunShift(WaveRow(j, l), j.scale, SEED, t + 1), d),
              64 * t, 64 * t + 64)
  {
    hide WaveRow, TruncTerm, PvTerm, VHalf, PHalf, Sum, TruncatedValue, Probs, RunShift;
    var x, c := WaveRow(j, l), RunShift(WaveRow(j, l), j.scale, SEED, t + 1);
    var f0 := PvTerm(TruncOf(j), PHalf(Probs(j, t), 0), VHalf(j, t, 0), l, d);
    var f1 := PvTerm(TruncOf(j), PHalf(Probs(j, t), 1), VHalf(j, t, 1), l, d);
    forall key | 0 <= key < 32 ensures f0(key) == TruncatedValue(x, TruncOf(j), c, d, 64 * t + key) {
      PvIsTruncatedValue(j, t, 0, l, d, key);
    }
    forall key | 0 <= key < 32 ensures f1(key) == TruncatedValue(x, TruncOf(j), c, d, 64 * t + 32 + key) {
      PvIsTruncatedValue(j, t, 1, l, d, key);
    }
    ShareOfAcc(x, TruncOf(j), c, 64 * t, d, f0, f1);
  }

  /** The carried numerators after t tiles. */
  function AccAt(j: Job, t: nat): Lanes {
    (l, d) => RunAcc(WaveRow(j, l), j.scale, SEED, TruncOf(j), t, d)
  }

  /** The factor that tile t applies to the carried state of row l. */
  function Factor(j: Job, t: nat, l: int): real {
    Rescale(j.exp2, j.scale, RunMax(WaveRow(j, l), SEED, t), RunMax(WaveRow(j, l), SEED, t + 1))
  }

  /** The carried numerators, rescaled for tile t. */
  function RescaledAcc(j: Job, t: nat): Lanes {
    (l, d) => Scaled(Factor(j, t, l), AccAt(j, t)(l, d))
  }

  /** An output matrix in the accumulator layout, from headdim first on. */
  function OutLanes(out: Lanes, first: int): Lanes {
    (lane, r) => out(lane % 32, first + AccRow(lane, r))
  }

  lemma ExpOfWaveRow(j: Job, l: int)
    ensures WaveRow(j, l).exp == j.exp2
  {
  }

  /** Rescaling and both halves of GEMM1 are one step of the online recurrence. */
  lemma AccStepIsRunAcc(j: Job, t: nat, l: int, d: int)
    ensures RescaledAcc(j, t)(l, d)
          + Sum(PvTerm(TruncOf(j), PHalf(Probs(j, t), 0), VHalf(j, t, 0), l, d), 0, 32)
          + Sum(PvTerm(TruncOf(j), PHalf(Probs(j, t), 1), VHalf(j, t, 1), l, d), 0, 32)
         == AccAt(j, t + 1)(l, d)
  {
    ExpOfWaveRow(j, l);
    hide WaveRow, TruncTerm, PvTerm, VHalf, PHalf, Sum, RunMax, RunShift, RunAcc, Scaled, Rescale, Probs;
    ValuesAreShare(j, t, l, d);
    var share := Sum(TruncTerm(WaveRow(j, l), TruncOf(j), RunShift(WaveRow(j, l), j.scale, SEED, t + 1), d),
      64 * t, 64 * t + 64);
    NextAcc(WaveRow(j, l), j.scale, SEED, TruncOf(j), t, d, AccAt(j, t)(l, d), share);
  }

  /** Both GEMM1 sub-tiles leave the next tile's numerators in the accumulators. */
  lemma ValuesComplete(j: Job, t: nat, acc: array2<Flt>, first: int)
    requires Holds(acc,
      ValuesPlus(
        ValuesPlus(OutLanes(RescaledAcc(j, t), first), TruncOf(j), PHalf(Probs(j, t), 0), VHalf(j, t, 0), first),
        TruncOf(j), PHalf(Probs(j, t), 1), VHalf(j, t, 1), first))
    ensures Holds(acc, OutLanes(AccAt(j, t + 1), first))
  {
    hide AccAt, RescaledAcc, PvTerm, VHalf, PHalf, Probs, Sum, AccRow;
    forall lane, r | LaneReg(lane, r) ensures acc[lane, r] == Fin(OutLanes(AccAt(j, t + 1), first)(lane, r)) {
      AccStepIsRunAcc(j, t, lane % 32, first + AccRow(lane, r));
    }
  }

  // ---- the carried scalars ----

  /** rmax and rsum of every lane are those of its row after t tiles; so both lanes of a row agree. */
  ghost predicate Stats(j: Job, t: nat, rmax: seq<real>, rsum: seq<real>) {
    && |rmax| == |rsum| == 64
    && forall lane :: 0 <= lane < 64 ==>
         && rmax[lane] == RunMax(WaveRow(j, lane % 32), SEED, t)
         && rsum[lane] == RunSum(WaveRow(j, lane % 32), j.scale, SEED, t)
  }

  lemma StatsAgree(j: Job, t: nat, rmax: seq<real>, rsum: seq<real>)
    requires Stats(j, t, rmax, rsum)
    ensures PairsAgree(rmax) && PairsAgree(rsum)
  {
    hide WaveRow, RunMax, RunSum;
    forall lane | 0 <= lane < 64 ensures 0 <= Partner(lane) < 64 && Partner(lane) % 32 == lane % 32 {
      PartnerPartner(lane);
    }
    hide Partner;
  }

  /** rescale * rsum + l_new, for every lane. */
  lemma StatsStep(j: Job, t: nat, rmax: seq<real>, rsum: seq<real>, m: seq<real>, share: seq<real>, rsum': seq<real>)
    requires Stats(j, t, rmax, rsum) && RowMaxes(m, rmax, SeenCells(j, t)) && RowSums(share, Probs(j, t))
        && |rsum'| == 64
    requires forall lane :: 0 <= lane < 64 ==>
      rsum'[lane] == Scaled(Rescale(j.exp2, j.scale, rmax[lane], m[lane]), rsum[lane]) + share[lane]
    ensures Stats(j, t + 1, m, rsum')
  {
    hide WaveRow, RunMax, RunSum, RunShift, IsTileMax, SeenCells, Sum, RowTerm, Probs, WeightTerm, Scaled, Rescale;
    forall lane | 0 <= lane < 64
      ensures m[lane] == RunMax(WaveRow(j, lane % 32), SEED, t + 1)
           && rsum'[lane] == RunSum(WaveRow(j, lane % 32), j.scale, SEED, t + 1) {
      var l := lane % 32;
      TileMaxIsRunMax(j, t, l, rmax[lane], m[lane]);
      RowSumIsShare(j, t, l);
      ExpOfWaveRow(j, l);
      NextSum(WaveRow(j, l), j.scale, SEED, t, rsum[lane], share[lane]);
    }
  }
}
