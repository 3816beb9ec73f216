/** One wave of the fused kernel: the KV loop over 64-key tiles, from staging to the epilogue.

    The registers are the wave's own. LDS is the block's: wherever the program stages a sub-tile, all four warps'
    shares are written before the next read, which is what the barrier protocol guarantees (see StagedReads). */
module Pipeline {
  import opened Exponential
  import opened Floats
  import opened Layout
  import opened OnlineSoftmax
  import opened Staging
  import opened Mfma
  import opened Gemm
  import opened SoftmaxOps
  import opened Epilogue
  import opened TileStep
  import opened WaveSpec
  import opened CausalBound
  import opened OnlineConsequences
  import LdsProtocol

  // ---- LDS contents ----

  /** Two images agree on a buffer. */
  ghost predicate SameBuffer(a: seq<bv16>, b: seq<bv16>, buf: int) {
    && |a| == |b| >= 6912 && 0 <= buf < 3
    && forall e :: BufBase(buf) <= e < BufBase(buf) + 2304 ==> a[e] == b[e]
  }

  lemma KStagedSame(a: seq<bv16>, b: seq<bv16>, buf: int, k: Dram, strideK: int, kvOffset: int, col: int)
    requires KStaged(a, buf, k, strideK, kvOffset, col) && SameBuffer(a, b, buf)
    ensures KStaged(b, buf, k, strideK, kvOffset, col)
  {
    forall x, d | 0 <= x < 64 && 0 <= d < 32
      ensures CellAt(b, BufBase(buf) + LdsElemOffset(x, d)) == CellAt(a, BufBase(buf) + LdsElemOffset(x, d)) {
      hide LdsElemOffset, KCellRow, KCellCol, KCellWarp, KCellIssue;
      KOffsetInverse(x, d);
      assert KUsed(LdsElemOffset(x, d));
    }
    hide LdsElemOffset, At, CellAt;
  }

  lemma KHalfStaged(j: Job, image: seq<bv16>, buf: int, t: int, half: int)
    requires KStaged(image, buf, j.k, j.strideK, 64 * t, 32 * half)
    ensures KHalfIs(image, buf, j.val, KHalf(j, t, half))
  {
    hide LdsElemOffset, CellAt, At;
  }

  lemma VHalfStaged(j: Job, image: seq<bv16>, buf: int, t: int, half: int)
    requires VStaged(image, buf, j.v, j.strideV, 64 * t + 32 * half)
    ensures VHalfIs(image, buf, j.val, VHalf(j, t, half))
  {
    hide VLdsElemOffset, CellAt, At;
  }

  // ---- scores ----

  /** GEMM0: stage K half 1 while half 0 is there, multiply with both; V half 0 is loaded in between. */
  method ScorePhase(j: Job, q: (int, int) -> bv16, lds: array<bv16>, n0: array2<Flt>, n1: array2<Flt>,
                    ghost t: nat, kvKByte: int, kvVByte: int)
    returns (v0: seq<VRegs>)
    requires j.val(0) == 0.0 && q == LoadQ(j)
    requires IsLds(lds) && n0 != n1 && IsAcc(n0) && IsAcc(n1)
    requires KStaged(lds[..], LdsProtocol.LDS_SEQ[0], j.k, j.strideK, 64 * t, 0)
    requires kvKByte == 2 * ElemIndex(j.strideK, 64 * t, 0) && kvVByte == 2 * ElemIndex(j.strideV, 64 * t, 0)
    modifies lds, n0, n1
    ensures TileHolds(n0, n1, ScoreCells(j, t))
    ensures AllVLoaded(v0, j.v, j.strideV, 64 * t)
  {
    QSlices(j, 0);
    QSlices(j, 1);
    hide KStaged, KHalf, QHalf, LoadQ, SliceQ, QSliceIs, ScoreCells, AllVLoaded, ElemIndex, ScoresPlus, ZeroLanes;
    ghost var before := lds[..];
    ClearAcc(n0);
    ClearAcc(n1);
    StageK(lds, j.k, j.strideK, 64 * t, kvKByte, 32, LdsProtocol.LDS_SEQ[1]);
    KStagedSame(before, lds[..], LdsProtocol.LDS_SEQ[0], j.k, j.strideK, 64 * t, 0);
    KHalfStaged(j, lds[..], LdsProtocol.LDS_SEQ[0], t, 0);
    KHalfStaged(j, lds[..], LdsProtocol.LDS_SEQ[1], t, 1);
    ghost var image := lds[..];
    Gemm0Subtile(n0, n1, SliceQ(q, 0), lds, LdsProtocol.LDS_SEQ[0], j.val, KHalf(j, t, 0), QHalf(j, 0), ZeroLanes(),
      ZeroLanes());
    v0 := LoadV(j.v, j.strideV, 64 * t, kvVByte);
    assert lds[..] == image;
    Gemm0Subtile(n0, n1, SliceQ(q, 1), lds, LdsProtocol.LDS_SEQ[1], j.val, KHalf(j, t, 1), QHalf(j, 1),
      ScoresPlus(ZeroLanes(), KHalf(j, t, 0), QHalf(j, 0), 0),
        ScoresPlus(ZeroLanes(), KHalf(j, t, 0), QHalf(j, 0), 32));
    ScoresComplete(j, t, n0, n1);
  }

  // ---- softmax ----

  /** Everything the wave carries from tile to tile. */
  ghost predicate Carried(j: Job, t: nat, rmax: seq<real>, rsum: seq<real>, d0: array2<Flt>, d1: array2<Flt>)
    reads d0, d1
  {
    && Stats(j, t, rmax, rsum)
    && Holds(d0, OutLanes(AccAt(j, t), 0)) && Holds(d1, OutLanes(AccAt(j, t), 32))
  }

  ghost predicate FourAccs(n0: array2<Flt>, n1: array2<Flt>, d0: array2<Flt>, d1: array2<Flt>) {
    && n0 != n1 && n0 != d0 && n0 != d1 && n1 != d0 && n1 != d1 && d0 != d1
    && IsAcc(n0) && IsAcc(n1) && IsAcc(d0) && IsAcc(d1)
  }

  /** Every lane has its row's running maximum after t tiles. */
  ghost predicate MaxesAre(j: Job, t: nat, m: seq<real>) {
    |m| == 64 && forall lane :: 0 <= lane < 64 ==> m[lane] == RunMax(WaveRow(j, lane % 32), SEED, t)
  }

  lemma MaxIsRunMax(j: Job, t: nat, rmax: seq<real>, rsum: seq<real>, m: seq<real>)
    requires Stats(j, t, rmax, rsum) && RowMaxes(m, rmax, SeenCells(j, t))
    ensures MaxesAre(j, t, rmax) && MaxesAre(j, t + 1, m)
  {
    hide WaveRow, RunMax, RunSum, SeenCells, IsTileMax;
    forall lane | 0 <= lane < 64 ensures m[lane] == RunMax(WaveRow(j, lane % 32), SEED, t + 1) {
      TileMaxIsRunMax(j, t, lane % 32, rmax[lane], m[lane]);
    }
  }

  /** Mask, then fold the tile into the running maximum. */
  method MaskAndMax(j: Job, n0: array2<Flt>, n1: array2<Flt>, ghost t: nat, kvOffset: int, rmax: seq<real>,
                    ghost rsum: seq<real>)
    returns (m: seq<real>)
    requires TileHolds(n0, n1, ScoreCells(j, t)) && Stats(j, t, rmax, rsum) && kvOffset == 64 * t
    modifies n0, n1
    ensures TileHolds(n0, n1, SeenCells(j, t)) && PairsAgree(m) && RowMaxes(m, rmax, SeenCells(j, t))
  {
    hide TileHolds, ScoreCells, SeenCells, MaskedCells, Stats, RowMaxes, PairsAgree, Kept, Limit, WaveRow;
    StatsAgree(j, t, rmax, rsum);
    var absRow, maskShift, mTileBase := LaneRow(j, 0), j.seqlenK - j.seqlenQ, j.mTile * 128;
    assert mTileBase <= absRow;
    hide LaneRow;
    SoftmaxMask(n0, n1, j.causal, j.seqlenK, kvOffset, absRow, maskShift, mTileBase, ScoreCells(j, t));
    MaskIsSeen(j, t, n0, n1);
    m := SoftmaxRowMax(n0, n1, rmax, SeenCells(j, t));
  }

  lemma ShiftsOfMax(j: Job, t: nat, m: seq<real>, scaleM: seq<real>)
    requires PairsAgree(m) && |scaleM| == 64 && MaxesAre(j, t + 1, m)
    requires forall lane :: 0 <= lane < 64 ==> scaleM[lane] == Scaled(j.scale, m[lane])
    ensures PairsAgree(scaleM) && ShiftsAre(j, t, scaleM)
  {
    hide RunMax, WaveRow, Scaled;
    forall lane | 0 <= lane < 64 ensures 0 <= Partner(lane) < 64 {
      PartnerPartner(lane);
    }
    forall l | 0 <= l < 32 ensures scaleM[l] == RunShift(WaveRow(j, l), j.scale, SEED, t + 1) {
      assert l % 32 == l;
    }
  }

  /** Every lane's correction factor is that of its row. */
  ghost predicate FactorsAre(j: Job, t: nat, factor: seq<real>) {
    |factor| == 64 && forall lane :: 0 <= lane < 64 ==> factor[lane] == Factor(j, t, lane % 32)
  }

  lemma FactorsOfMax(j: Job, t: nat, rmax: seq<real>, m: seq<real>, factor: seq<real>)
    requires MaxesAre(j, t, rmax) && MaxesAre(j, t + 1, m) && |factor| == 64
    requires forall lane :: 0 <= lane < 64 ==> factor[lane] == Rescale(j.exp2, j.scale, rmax[lane], m[lane])
    ensures FactorsAre(j, t, factor)
  {
    hide RunMax, WaveRow, Rescale;
  }

  lemma RescaledIsAcc(j: Job, t: nat, acc: array2<Flt>, factor: seq<real>, first: int)
    requires FactorsAre(j, t, factor) && Holds(acc, RescaledLanes(OutLanes(AccAt(j, t), first), factor))
    ensures Holds(acc, OutLanes(RescaledAcc(j, t), first))
  {
    hide Factor, AccAt, Scaled, AccRow;
  }

  /** Exponentials, row sum, and the correction of the carried numerator and denominator. */
  method ExpAndRescale(j: Job, n0: array2<Flt>, n1: array2<Flt>, d0: array2<Flt>, d1: array2<Flt>, ghost t: nat,
                       rmax: seq<real>, rsum: seq<real>, m: seq<real>)
    returns (sum: seq<real>)
    requires FourAccs(n0, n1, d0, d1) && Carried(j, t, rmax, rsum, d0, d1)
    requires TileHolds(n0, n1, SeenCells(j, t)) && PairsAgree(m) && RowMaxes(m, rmax, SeenCells(j, t))
    modifies n0, n1, d0, d1
    ensures Stats(j, t + 1, m, sum) && TileIs(n0, n1, Probs(j, t))
    ensures Holds(d0, OutLanes(RescaledAcc(j, t), 0)) && Holds(d1, OutLanes(RescaledAcc(j, t), 32))
  {
    assert |rmax| == |rsum| == |m| == 64;
    hide TileHolds, TileIs, SeenCells, RowMaxes, RowSums, MaxesAre, ShiftsAre, FactorsAre, Stats, PairsAgree, ProbCells,
      Probs, Scaled, Rescale, OutLanes, RescaledAcc, AccAt, Holds, RescaledLanes;
    MaxIsRunMax(j, t, rmax, rsum, m);
    var scaleM := seq(64, lane requires 0 <= lane < 64 => Scaled(j.scale, m[lane]));
    ShiftsOfMax(j, t, m, scaleM);
    SoftmaxExp2(n0, n1, j.exp2, j.scale, scaleM, SeenCells(j, t));
    ProbsHold(j, t, scaleM, n0, n1);
    var share := SoftmaxRowSum(n0, n1, Probs(j, t));
    assert |share| == 64 by {
      SumLength(share, Probs(j, t));
    }
    var factor := seq(64, lane requires 0 <= lane < 64 => Rescale(j.exp2, j.scale, rmax[lane], m[lane]));
    FactorsOfMax(j, t, rmax, m, factor);
    RescaleOAcc(d0, d1, factor, OutLanes(AccAt(j, t), 0), OutLanes(AccAt(j, t), 32));
    sum := seq(64, lane requires 0 <= lane < 64 => Scaled(factor[lane], rsum[lane]) + share[lane]);
    StatsStep(j, t, rmax, rsum, m, share, sum);
    RescaledIsAcc(j, t, d0, factor, 0);
    RescaledIsAcc(j, t, d1, factor, 32);
  }

  lemma SumLength(sum: seq<real>, p: Lanes)
    requires RowSums(sum, p)
    ensures |sum| == 64
  {
  }

  // ---- values ----

  lemma VStagedSame(a: seq<bv16>, b: seq<bv16>, buf: int, v: Dram, strideV: int, kvOffset: int)
    requires VStaged(a, buf, v, strideV, kvOffset) && SameBuffer(a, b, buf)
    ensures VStaged(b, buf, v, strideV, kvOffset)
  {
    forall n, d | 0 <= n < 32 && 0 <= d < 64
      ensures CellAt(b, BufBase(buf) + VLdsElemOffset(n, d)) == CellAt(a, BufBase(buf) + VLdsElemOffset(n, d)) {
      hide VLdsElemOffset, VCellRow, VCellCol;
      VOffsetInverse(n, d);
      assert VUsed(VLdsElemOffset(n, d));
    }
    hide VLdsElemOffset, At, CellAt;
  }

  lemma ProbHalves(n0: array2<Flt>, n1: array2<Flt>, p: Lanes)
    requires TileIs(n0, n1, p)
    ensures Holds(n0, PLanes(PHalf(p, 0))) && Holds(n1, PLanes(PHalf(p, 1)))
  {
    hide Free;
  }

  /** The running byte offsets are those of tile t. */
  ghost predicate BytesAt(j: Job, t: nat, kvOffset: int, kvKByte: int, kvVByte: int) {
    && kvOffset == 64 * t
    && kvKByte == 2 * ElemIndex(j.strideK, 64 * t, 0)
    && kvVByte == 2 * ElemIndex(j.strideV, 64 * t, 0)
  }

  /** One 64-row step of the running byte offsets. */
  lemma BytesStep(j: Job, t: nat, kvOffset: int, kvKByte: int, kvVByte: int)
    requires BytesAt(j, t, kvOffset, kvKByte, kvVByte)
    ensures BytesAt(j, t + 1, kvOffset + 64, kvKByte + 64 * (j.strideK * 2), kvVByte + 64 * (j.strideV * 2))
  {
    RowStep(j.strideK, 64 * t, 0, 64);
    RowStep(j.strideV, 64 * t, 0, 64);
  }

  lemma SecondHalfByte(j: Job, t: nat, kvOffset: int, kvKByte: int, kvVByte: int)
    requires BytesAt(j, t, kvOffset, kvKByte, kvVByte)
    ensures kvVByte + 32 * (j.strideV * 2) == 2 * ElemIndex(j.strideV, 64 * t + 32, 0)
  {
    RowStep(j.strideV, 64 * t, 0, 32);
  }

  /** GEMM1: multiply with V half 0, store half 1 behind it, prefetch the next tile's first K half unless this is
      the last tile, multiply with half 1. */
  method ValuePhase(j: Job, lds: array<bv16>, n0: array2<Flt>, n1: array2<Flt>, d0: array2<Flt>, d1: array2<Flt>,
                    ghost t: nat, more: bool, v1: seq<VRegs>, nextKByte: int)
    requires IsLds(lds) && FourAccs(n0, n1, d0, d1) && TileIs(n0, n1, Probs(j, t))
    requires Holds(d0, OutLanes(RescaledAcc(j, t), 0)) && Holds(d1, OutLanes(RescaledAcc(j, t), 32))
    requires VStaged(lds[..], LdsProtocol.LDS_SEQ[2], j.v, j.strideV, 64 * t)
        && AllVLoaded(v1, j.v, j.strideV, 64 * t + 32)
    requires more ==> nextKByte == 2 * ElemIndex(j.strideK, 64 * (t + 1), 0)
    modifies lds, d0, d1
    ensures Holds(d0, OutLanes(AccAt(j, t + 1), 0)) && Holds(d1, OutLanes(AccAt(j, t + 1), 32))
    ensures more ==> KStaged(lds[..], LdsProtocol.LDS_SEQ[0], j.k, j.strideK, 64 * (t + 1), 0)
  {
    ProbHalves(n0, n1, Probs(j, t));
    ghost var g0, g1, trunc := OutLanes(RescaledAcc(j, t), 0), OutLanes(RescaledAcc(j, t), 32), TruncOf(j);
    ghost var p0, p1, w0, w1 := PHalf(Probs(j, t), 0), PHalf(Probs(j, t), 1), VHalf(j, t, 0), VHalf(j, t, 1);
    hide Holds, VStaged, KStaged, AllVLoaded, Probs, PHalf, VHalf, RescaledAcc, AccAt, OutLanes, PLanes, TileIs,
      ElemIndex, ValuesPlus, VHalfIs;
    VHalfStaged(j, lds[..], LdsProtocol.LDS_SEQ[2], t, 0);
    Gemm1Subtile(d0, d1, n0, lds, LdsProtocol.LDS_SEQ[2], j.val, NarrowOf(j), p0, w0, g0, g1);
    StoreV(lds, v1, LdsProtocol.LDS_SEQ[3], j.v, j.strideV, 64 * t + 32);
    if more {
      ghost var before := lds[..];
      StageK(lds, j.k, j.strideK, 64 * (t + 1), nextKByte, 0, LdsProtocol.LDS_SEQ[0]);
      VStagedSame(before, lds[..], LdsProtocol.LDS_SEQ[3], j.v, j.strideV, 64 * t + 32);
    }
    VHalfStaged(j, lds[..], LdsProtocol.LDS_SEQ[3], t, 1);
    ghost var image := lds[..];
    Gemm1Subtile(d0, d1, n1, lds, LdsProtocol.LDS_SEQ[3], j.val, NarrowOf(j), p1, w1,
      ValuesPlus(g0, trunc, p0, w0, 0), ValuesPlus(g1, trunc, p0, w0, 32));
    assert lds[..] == image;
    ValuesComplete(j, t, d0, 0);
    ValuesComplete(j, t, d1, 32);
  }

  // ---- one tile, and all of them ----

  /** One iteration of the KV loop: softmax between the two GEMMs, V staged on the way. */
  method KvTile(j: Job, q: (int, int) -> bv16, lds: array<bv16>, n0: array2<Flt>, n1: array2<Flt>,
                d0: array2<Flt>, d1: array2<Flt>, ghost t: nat, more: bool,
                kvOffset: int, kvKByte: int, kvVByte: int, rmax: seq<real>, rsum: seq<real>)
    returns (m: seq<real>, sum: seq<real>)
    requires j.val(0) == 0.0 && q == LoadQ(j)
    requires IsLds(lds) && FourAccs(n0, n1, d0, d1) && Carried(j, t, rmax, rsum, d0, d1)
    requires BytesAt(j, t, kvOffset, kvKByte, kvVByte)
    requires KStaged(lds[..], LdsProtocol.LDS_SEQ[0], j.k, j.strideK, 64 * t, 0)
    modifies lds, n0, n1, d0, d1
    ensures Carried(j, t + 1, m, sum, d0, d1)
    ensures more ==> KStaged(lds[..], LdsProtocol.LDS_SEQ[0], j.k, j.strideK, 64 * (t + 1), 0)
  {
    SecondHalfByte(j, t, kvOffset, kvKByte, kvVByte);
    BytesStep(j, t, kvOffset, kvKByte, kvVByte);
    hide KStaged, VStaged, AllVLoaded, TileHolds, TileIs, SeenCells, ScoreCells, RowMaxes, PairsAgree, Stats, Holds,
      Probs, OutLanes, AccAt, RescaledAcc, ElemIndex, LoadQ;
    var v0 := ScorePhase(j, q, lds, n0, n1, t, kvKByte, kvVByte);
    m := MaskAndMax(j, n0, n1, t, kvOffset, rmax, rsum);
    StoreV(lds, v0, LdsProtocol.LDS_SEQ[2], j.v, j.strideV, 64 * t);
    ghost var image := lds[..];
    var v1 := LoadV(j.v, j.strideV, 64 * t + 32, kvVByte + 32 * (j.strideV * 2));
    sum := ExpAndRescale(j, n0, n1, d0, d1, t, rmax, rsum, m);
    assert lds[..] == image;
    ValuePhase(j, lds, n0, n1, d0, d1, t, more, v1, kvKByte + 64 * (j.strideK * 2));
  }

  lemma CarriedStart(j: Job, rmax: seq<real>, rsum: seq<real>, d0: array2<Flt>, d1: array2<Flt>)
    requires |rmax| == |rsum| == 64 && forall lane :: 0 <= lane < 64 ==> rmax[lane] == -5000.0 && rsum[lane] == 0.0
    requires Holds(d0, ZeroLanes()) && Holds(d1, ZeroLanes())
    ensures Carried(j, 0, rmax, rsum, d0, d1)
  {
    hide WaveRow, AccRow;
  }

  lemma CarriedMax(j: Job, n: nat, rmax: seq<real>, rsum: seq<real>, d0: array2<Flt>, d1: array2<Flt>)
    requires Carried(j, n, rmax, rsum, d0, d1)
    ensures |rmax| == 64 && forall lane :: 0 <= lane < 64 ==>
              rmax[lane] == MaxOver(WaveRow(j, lane % 32), -5000.0, 64 * n)
  {
    hide WaveRow, MaxOver, RunSum, Holds;
  }

  /** The KV loop: after n tiles the wave carries the online state of every row it owns, its maxima begun at -5000. */
  method KvLoop(j: Job, lds: array<bv16>, d0: array2<Flt>, d1: array2<Flt>, n: int)
    returns (rmax: seq<real>, rsum: seq<real>)
    requires j.val(0) == 0.0 && n > 0
    requires IsLds(lds) && d0 != d1 && Holds(d0, ZeroLanes()) && Holds(d1, ZeroLanes())
    modifies lds, d0, d1
    ensures Carried(j, n, rmax, rsum, d0, d1)
    ensures |rmax| == 64 && forall lane :: 0 <= lane < 64 ==>
              rmax[lane] == MaxOver(WaveRow(j, lane % 32), -5000.0, 64 * n)
  {
    var q := LoadQ(j);
    rmax, rsum := seq(64, lane => -5000.0), seq(64, lane => 0.0);
    CarriedStart(j, rmax, rsum, d0, d1);
    var kvOffset, kvKByte, kvVByte := 0, 0, 0;
    assert BytesAt(j, 0, kvOffset, kvKByte, kvVByte);
    assert IsAcc(d0) && IsAcc(d1);
    hide KStaged, Carried, LoadQ, Holds, ElemIndex;
    StageK(lds, j.k, j.strideK, 0, kvKByte, 0, LdsProtocol.LDS_SEQ[0]);
    var n0, n1 := new Flt[64, 16]((_, _) => NegInf), new Flt[64, 16]((_, _) => NegInf);
    var i := 0;
    while i < n
      invariant 0 <= i <= n && Carried(j, i, rmax, rsum, d0, d1)
      invariant i < n ==> BytesAt(j, i, kvOffset, kvKByte, kvVByte)
      invariant i < n ==> KStaged(lds[..], LdsProtocol.LDS_SEQ[0], j.k, j.strideK, 64 * i, 0)
    {
      rmax, rsum := KvTile(j, q, lds, n0, n1, d0, d1, i, i + 1 < n, kvOffset, kvKByte, kvVByte, rmax, rsum);
      BytesStep(j, i, kvOffset, kvKByte, kvVByte);
      i := i + 1;
      if i < n {
        kvOffset, kvVByte, kvKByte := kvOffset + 64, kvVByte + 64 * (j.strideV * 2), kvKByte + 64 * (j.strideK * 2);
      }
    }
    CarriedMax(j, n, rmax, rsum, d0, d1);
  }

  // ---- the whole wave ----

  /** The number of tiles a block walks; a degenerate one walks none. */
  function TilesOf(j: Job): nat {
    var n := NumTotalLoop(InputsOf(j), j.mTile);
    if n > 0 then n else 0
  }

  /** What the wave stores for headdim d of its row l, as a bf16. */
  function OutputOf(j: Job, l: int, d: int): bv16 {
    High(j.bits(FusedOutput(WaveRow(j, l), j.scale, SEED, TruncOf(j), TilesOf(j), d)))
  }

  function LseOfRow(j: Job, log2: real -> real, ln2: real, l: int): Flt {
    FusedLse(WaveRow(j, l), j.scale, SEED, log2, ln2, TilesOf(j))
  }

  lemma OutputIsFused(j: Job, n: nat, l: int, d: int, sum: real)
    requires n == TilesOf(j) && sum == RunSum(WaveRow(j, l), j.scale, SEED, n)
    ensures Stored(j.bits, AccAt(j, n)(l, d), sum) == OutputOf(j, l, d)
  {
    hide WaveRow, TilesOf, RunAcc, RunSum, High, Normalise;
  }

  lemma LseIsFused(j: Job, log2: real -> real, ln2: real, n: nat, l: int, sum: real, m: Flt)
    requires n == TilesOf(j) && sum == RunSum(WaveRow(j, l), j.scale, SEED, n)
    requires sum > 0.0 ==> m == Fin(RunMax(WaveRow(j, l), SEED, n))
    ensures LseOf(log2, ln2, j.scale, sum, m) == LseOfRow(j, log2, ln2, l)
  {
    hide WaveRow, TilesOf, RunSum, RunMax, Scaled;
  }

  lemma AccsHoldOutput(j: Job, n: nat, d0: array2<Flt>, d1: array2<Flt>)
    requires Holds(d0, OutLanes(AccAt(j, n), 0)) && Holds(d1, OutLanes(AccAt(j, n), 32))
    ensures OutputHolds(d0, d1, AccAt(j, n))
  {
    hide AccAt, AccRow;
  }

  /** Where the wave's rows of O are. */
  function RowsOf(j: Job, oBase: int, strideO: int): Rows {
    Rows(oBase, strideO, LaneRow(j, 0), j.seqlenQ)
  }

  /** The epilogue on the state carried out of the loop. */
  method StoreWave(j: Job, n: nat, d0: array2<Flt>, d1: array2<Flt>, rmax: seq<Flt>, rsum: seq<real>,
                   lse: array?<Flt>, lseBase: int, o: array<bv16>, oBase: int, strideO: int, log2: real -> real,
                   ln2: real)
    requires n == TilesOf(j) && PairsAgree(rsum) && |rmax| == 64
    requires forall l :: 0 <= l < 32 ==> rsum[l] == RunSum(WaveRow(j, l), j.scale, SEED, n)
    requires forall l :: 0 <= l < 32 && rsum[l] > 0.0 ==> rmax[l] == Fin(RunMax(WaveRow(j, l), SEED, n))
    requires forall lane :: 0 <= lane < 64 && rsum[lane] > 0.0 ==> rmax[lane].Fin?
    requires Holds(d0, OutLanes(AccAt(j, n), 0)) && Holds(d1, OutLanes(AccAt(j, n), 32))
    requires RowsFit(RowsOf(j, oBase, strideO), o.Length) && Apart(o, lse)
    requires lse != null ==>
      forall l :: ValidRow(RowsOf(j, oBase, strideO), l) ==> 0 <= lseBase + LaneRow(j, 0) + l < lse.Length
    modifies o, lse
    ensures forall l, d :: ValidRow(RowsOf(j, oBase, strideO), l) && 0 <= d < 64 ==>
              o[RowCell(RowsOf(j, oBase, strideO), l, d)] == OutputOf(j, l, d)
    ensures forall i :: 0 <= i < o.Length && !WaveCell(RowsOf(j, oBase, strideO), i) ==> o[i] == old(o[i])
    ensures lse != null ==> forall l :: ValidRow(RowsOf(j, oBase, strideO), l) ==>
              lse[lseBase + LaneRow(j, 0) + l] == LseOfRow(j, log2, ln2, l)
    ensures lse != null ==>
              forall i :: 0 <= i < lse.Length && !ValidRow(RowsOf(j, oBase, strideO), i - (lseBase + LaneRow(j, 0))) ==>
                lse[i] == old(lse[i])
  {
    assert |rsum| == 64;
    hide Stored, AccAt, OutputOf, LseOf, LseOfRow, RowCell, LaneRow, OutputHolds, PairsAgree, RunSum, RunMax,
      RowsFit, WaveCell, Holds, OutLanes, WaveRow, TilesOf;
    AccsHoldOutput(j, n, d0, d1);
    var at := RowsOf(j, oBase, strideO);
    assert at.rowBase == LaneRow(j, 0);
    hide RowsOf;
    OutputsAreFused(j, n, rsum);
    LsesAreFused(j, log2, ln2, n, rsum, rmax);
    EpilogStore(d0, d1, rsum, rmax, j.scale, at, lse, lseBase, o, j.bits, log2, ln2, AccAt(j, n));
  }

  lemma OutputsAreFused(j: Job, n: nat, rsum: seq<real>)
    requires n == TilesOf(j) && |rsum| >= 32
    requires forall l :: 0 <= l < 32 ==> rsum[l] == RunSum(WaveRow(j, l), j.scale, SEED, n)
    ensures forall l, d :: 0 <= l < 32 ==> Stored(j.bits, AccAt(j, n)(l, d), rsum[l]) == OutputOf(j, l, d)
  {
    hide WaveRow, TilesOf, RunSum, Stored, OutputOf, AccAt;
    forall l, d | 0 <= l < 32 ensures Stored(j.bits, AccAt(j, n)(l, d), rsum[l]) == OutputOf(j, l, d) {
      OutputIsFused(j, n, l, d, rsum[l]);
    }
  }

  lemma LsesAreFused(j: Job, log2: real -> real, ln2: real, n: nat, rsum: seq<real>, rmax: seq<Flt>)
    requires n == TilesOf(j) && |rsum| >= 32 && |rmax| >= 32
    requires forall l :: 0 <= l < 32 ==> rsum[l] == RunSum(WaveRow(j, l), j.scale, SEED, n)
    requires forall l :: 0 <= l < 32 && rsum[l] > 0.0 ==> rmax[l] == Fin(RunMax(WaveRow(j, l), SEED, n))
    ensures forall l :: 0 <= l < 32 ==> LseOf(log2, ln2, j.scale, rsum[l], rmax[l]) == LseOfRow(j, log2, ln2, l)
  {
    hide WaveRow, TilesOf, RunSum, RunMax, LseOf, LseOfRow;
    forall l | 0 <= l < 32 ensures LseOf(log2, ln2, j.scale, rsum[l], rmax[l]) == LseOfRow(j, log2, ln2, l) {
      LseIsFused(j, log2, ln2, n, l, rsum[l], rmax[l]);
    }
  }

  /** A wave with no tile to walk stores zeros and minus infinity. */
  lemma DegenerateState(j: Job, d0: array2<Flt>, d1: array2<Flt>, rsum: seq<real>)
    requires Holds(d0, ZeroLanes()) && Holds(d1, ZeroLanes())
    requires |rsum| == 64 && forall lane :: 0 <= lane < 64 ==> rsum[lane] == 0.0
    ensures Holds(d0, OutLanes(AccAt(j, 0), 0)) && Holds(d1, OutLanes(AccAt(j, 0), 32)) && PairsAgree(rsum)
    ensures forall l :: 0 <= l < 32 ==> rsum[l] == RunSum(WaveRow(j, l), j.scale, SEED, 0)
  {
    hide WaveRow, AccRow;
  }

  lemma CarriedRows(j: Job, n: nat, rmax: seq<real>, rsum: seq<real>, d0: array2<Flt>, d1: array2<Flt>)
    requires Carried(j, n, rmax, rsum, d0, d1)
    ensures |rmax| == |rsum| == 64 && PairsAgree(rsum)
    ensures Holds(d0, OutLanes(AccAt(j, n), 0)) && Holds(d1, OutLanes(AccAt(j, n), 32))
    ensures forall l :: 0 <= l < 32 ==> rsum[l] == RunSum(WaveRow(j, l), j.scale, SEED, n)
    ensures forall l :: 0 <= l < 32 ==> rmax[l] == RunMax(WaveRow(j, l), SEED, n)
  {
    StatsAgree(j, n, rmax, rsum);
    hide WaveRow, RunSum, RunMax, Holds;
    forall l | 0 <= l < 32 ensures rsum[l] == RunSum(WaveRow(j, l), j.scale, SEED, n)
      && rmax[l] == RunMax(WaveRow(j, l), SEED, n) {
      assert l % 32 == l;
    }
  }

  /** fmha_fwd_d64_device for one wave: every valid row of the wave gets the fused output of its attention row,
      in natural headdim order, its log-sum-exp if asked for, and nothing else is written. */
  method FmhaWave(j: Job, lds: array<bv16>, lse: array?<Flt>, lseBase: int, o: array<bv16>, oBase: int, strideO: int,
                  log2: real -> real, ln2: real)
    requires j.val(0) == 0.0 && j.warp < 4 && IsLds(lds)
    requires RowsFit(RowsOf(j, oBase, strideO), o.Length) && Apart(o, lse) && Apart(o, lds) && Apart(lds, lse)
    requires lse != null ==>
      forall l :: ValidRow(RowsOf(j, oBase, strideO), l) ==> 0 <= lseBase + LaneRow(j, 0) + l < lse.Length
    modifies lds, o, lse
    ensures forall l, d :: ValidRow(RowsOf(j, oBase, strideO), l) && 0 <= d < 64 ==>
              o[RowCell(RowsOf(j, oBase, strideO), l, d)] == OutputOf(j, l, d)
    ensures forall i :: 0 <= i < o.Length && !WaveCell(RowsOf(j, oBase, strideO), i) ==> o[i] == old(o[i])
    ensures lse != null ==> forall l :: ValidRow(RowsOf(j, oBase, strideO), l) ==>
              lse[lseBase + LaneRow(j, 0) + l] == LseOfRow(j, log2, ln2, l)
    ensures lse != null ==>
              forall i :: 0 <= i < lse.Length && !ValidRow(RowsOf(j, oBase, strideO), i - (lseBase + LaneRow(j, 0))) ==>
                lse[i] == old(lse[i])
  {
    var d0, d1 := new Flt[64, 16]((_, _) => Fin(0.0)), new Flt[64, 16]((_, _) => Fin(0.0));
    assert Holds(d0, ZeroLanes()) && Holds(d1, ZeroLanes());
    var numTotalLoop := NumTotalLoop(InputsOf(j), j.mTile);
    hide Holds, OutputOf, LseOfRow, RowCell, LaneRow, RowsOf, WaveCell, RowsFit, RunSum, RunMax, AccAt, OutLanes,
      Carried, NumTotalLoop, WaveRow;
    if numTotalLoop <= 0 {
      var rsum := seq(64, lane => 0.0);
      DegenerateState(j, d0, d1, rsum);
      hide PairsAgree;
      StoreWave(j, 0, d0, d1, seq(64, lane => NegInf), rsum, lse, lseBase, o, oBase, strideO, log2, ln2);
      return;
    }
    var rmax, rsum := KvLoop(j, lds, d0, d1, numTotalLoop);
    CarriedRows(j, numTotalLoop, rmax, rsum, d0, d1);
    hide PairsAgree;
    var m := seq(64, lane requires 0 <= lane < 64 => Fin(rmax[lane]));
    StoreWave(j, numTotalLoop, d0, d1, m, rsum, lse, lseBase, o, oBase, strideO, log2, ln2);
  }
}
