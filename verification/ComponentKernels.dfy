/** The stand-alone GEMM kernels: guarded staging into zeroed memory, all 16 MFMA, and the dump in thread-buffer
    order; each equal to its plain-loop reference in every slot. */
module ComponentKernels {
  import opened Sums
  import opened Floats
  import opened Layout
  import opened Attention
  import opened Staging
  import opened StagingOracles
  import opened Mfma
  import opened Gemm
  import opened WaveSpec
  import opened GemmOracles

  /** The K tile as staged: rows past the sequence are zero. */
  function GuardedK(j: Job): Lanes {
    (key, d) => if key < j.seqlenK then j.val(At(j.k, j.strideK, key, d)) else 0.0
  }

  function QRows(j: Job): Lanes {
    (l, d) => QueryElem(InputsOf(j), LaneRow(j, l), d)
  }

  /** The region holds the whole 64 x 64 tile at the reader's offsets. */
  ghost predicate KTileIs(image: seq<bv16>, val: bv16 -> real, kt: Lanes) {
    forall key, d :: 0 <= key < 64 && 0 <= d < 64 ==> val(CellAt(image, LdsElemOffset(key, d))) == kt(key, d)
  }

  lemma ImageIsTile(j: Job, smem: array<bv16>)
    requires j.val(0) == 0.0 && IsImage(smem, KPlace, j.k, j.strideK, 0, j.seqlenK)
    ensures KTileIs(smem[..], j.val, GuardedK(j))
  {
    hide KPlace, LdsElemOffset, At;
    forall key, d | 0 <= key < 64 && 0 <= d < 64
      ensures j.val(CellAt(smem[..], LdsElemOffset(key, d))) == GuardedK(j)(key, d) {
      KPlaceOf(key, d, LdsElemOffset(key, d));
    }
  }

  /** The K operand of k-step 0 to 3. */
  lemma KTileSupplies(image: seq<bv16>, val: bv16 -> real, kt: Lanes, tile: int, kstep: int)
    requires KTileIs(image, val, kt) && 0 <= tile < 2 && 0 <= kstep < 4
    ensures Supplies(KOperand(image, val, 0, tile, kstep), Swizzled(kt, tile), kstep)
  {
    hide KTileIs, KOperand, Swizzled;
    forall lane, c | 0 <= lane < 64 && 0 <= c < 8
      ensures KOperand(image, val, 0, tile, kstep)(lane, c)
           == Swizzled(kt, tile)(lane % 32, 16 * kstep + 8 * (lane / 32) + c) {
      KTileLane(image, val, kt, tile, kstep, lane, c);
    }
  }

  lemma KTileLane(image: seq<bv16>, val: bv16 -> real, kt: Lanes, tile: int, kstep: int, lane: int, c: int)
    requires KTileIs(image, val, kt) && 0 <= tile < 2 && 0 <= kstep < 4 && 0 <= lane < 64 && 0 <= c < 8
    ensures KOperand(image, val, 0, tile, kstep)(lane, c)
         == Swizzled(kt, tile)(lane % 32, 16 * kstep + 8 * (lane / 32) + c)
  {
    hide Swz, KRead, KTileIs;
    SwzInverse(lane % 32);
    KTileRead(image, val, kt, 32 * tile + Swz(lane % 32), kstep * 16 + (lane / 32) * 8, c);
  }

  lemma KTileRead(image: seq<bv16>, val: bv16 -> real, kt: Lanes, key: int, d: int, c: int)
    requires KTileIs(image, val, kt) && 0 <= key < 64 && 0 <= d && d + 8 <= 64 && d % 8 == 0 && 0 <= c < 8
    ensures KRead(image, val, 0, key, d, c) == kt(key, d + c)
  {
    hide CellAt, LdsElemOffset;
    TileOctet(key, d / 32, d % 32, c);
    ByteCell(0, LdsElemOffset(key, d), c);
    assert val(CellAt(image, LdsElemOffset(key, d + c))) == kt(key, d + c);
  }

  lemma TileOctet(key: int, half: int, d: int, c: int)
    requires 0 <= key < 64 && 0 <= half < 2 && 0 <= d && d + 8 <= 32 && d % 8 == 0 && 0 <= c < 8
    ensures LdsElemOffset(key, 32 * half + d + c) == LdsElemOffset(key, 32 * half + d) + c
  {
    hide LdsElemOffset;
    HalfOffset(key, half, d);
    HalfOffset(key, half, d + c);
    KOctet(key, d, c);
  }

  lemma QTileLane(j: Job, half: int, s: int, lane: int, c: int)
    requires j.val(0) == 0.0 && 0 <= half < 2 && 0 <= s < 2 && 0 <= lane < 64 && 0 <= c < 8
    ensures QOperand(LoadQ(j), j.val, 2 * half + s)(lane, c)
         == QRows(j)(lane % 32, 16 * (2 * half + s) + 8 * (lane / 32) + c)
  {
    hide LoadQ, QueryElem, InputsOf, LaneRow;
    QElem(j, half, s, lane, c);
    var l, h := lane % 32, lane / 32;
    assert QOperand(LoadQ(j), j.val, 2 * half + s)(lane, c) == QOperand(SliceQ(LoadQ(j), half), j.val, s)(lane, c) by {
      assert 16 * half + (8 * s + c) == 8 * (2 * half + s) + c;
    }
    assert QHalf(j, half)(l, 16 * s + 8 * h + c) == QRows(j)(l, 16 * (2 * half + s) + 8 * h + c) by {
      assert 32 * half + (16 * s + 8 * h + c) == 16 * (2 * half + s) + 8 * h + c;
    }
  }

  lemma QTileSupplies(j: Job, kstep: int)
    requires j.val(0) == 0.0 && 0 <= kstep < 4
    ensures Supplies(QOperand(LoadQ(j), j.val, kstep), QRows(j), kstep)
  {
    hide QOperand, QRows, LoadQ;
    var half, s := kstep / 2, kstep % 2;
    assert kstep == 2 * half + s;
    forall lane, c | 0 <= lane < 64 && 0 <= c < 8
      ensures QOperand(LoadQ(j), j.val, kstep)(lane, c) == QRows(j)(lane % 32, 16 * kstep + 8 * (lane / 32) + c) {
      QTileLane(j, half, s, lane, c);
    }
  }

  lemma EntryOf(x: Inputs, tid: int, r: int, m: int, n: int)
    requires MRow(tid) == m && NCol(tid, r) == n
    ensures QkEntry(x, tid, r) == if m < x.seqlenQ && n < x.seqlenK then Score(x, m, n) else 0.0
  {
    hide MRow, NCol, Score;
  }

  /** The finished accumulators are the reference's entries. */
  lemma TileIsEntry(j: Job, lane: int, r: int, h: int)
    requires j.mTile == 0 && j.warp < 4 && LaneReg(lane, r) && 0 <= h < 2
    ensures Partial(ZeroLanes(), Swizzled(GuardedK(j), h), QRows(j), 64)(lane, r)
         == QkEntry(InputsOf(j), 64 * j.warp + lane, 16 * h + r)
  {
    hide Free, AccRow, MRow, NCol, DCol, Swizzled, DotTerm, Sum, GuardedK, QRows, LaneRow, InputsOf, Score, QkEntry;
    var l, n := lane % 32, 32 * h + Free(lane, r);
    AccSlot(j.warp, lane, r, h);
    InputLengths(j, l);
    EntryOf(InputsOf(j), 64 * j.warp + lane, 16 * h + r, LaneRow(j, l), n);
    SwizzledRow(GuardedK(j), h, lane, r);
    SameRowProducts64(Swizzled(GuardedK(j), h), GuardedK(j), QRows(j), AccRow(lane, r), n, l);
    GuardedDot(j, n, l);
  }

  lemma SameRowProducts64(A: Lanes, A': Lanes, B: Lanes, m: int, m': int, n: int)
    requires forall x :: A(m, x) == A'(m', x)
    ensures Sum(DotTerm(A, B, m, n), 0, 64) == Sum(DotTerm(A', B, m', n), 0, 64)
  {
    SumEqual(DotTerm(A, B, m, n), DotTerm(A', B, m', n), 0, 64);
  }

  /** The dot product over staged rows: the score, or zero past either sequence. */
  lemma GuardedDot(j: Job, n: int, l: int)
    ensures Sum(DotTerm(GuardedK(j), QRows(j), n, l), 0, 64)
         == if LaneRow(j, l) < j.seqlenQ && n < j.seqlenK then Score(InputsOf(j), LaneRow(j, l), n) else 0.0
    ensures InputsOf(j).seqlenQ == j.seqlenQ
  {
    var x, m := InputsOf(j), LaneRow(j, l);
    if m < j.seqlenQ && n < j.seqlenK {
      forall d ensures DotTerm(GuardedK(j), QRows(j), n, l)(d) == ScoreTerm(x, m, n)(d) {
        hide At, QueryElem;
      }
      hide DotTerm, ScoreTerm;
      SumEqual(DotTerm(GuardedK(j), QRows(j), n, l), ScoreTerm(x, m, n), 0, 64);
    } else {
      forall d ensures DotTerm(GuardedK(j), QRows(j), n, l)(d) == 0.0 {
        assert GuardedK(j)(n, d) == 0.0 || QRows(j)(l, d) == 0.0;
      }
      SumZero(DotTerm(GuardedK(j), QRows(j), n, l), 0, 64);
    }
  }

  /** One wave's 16 MFMA over the 64 headdims. */
  method QkWave(j: Job, image: seq<bv16>, n0: array2<Flt>, n1: array2<Flt>)
    requires j.val(0) == 0.0 && KTileIs(image, j.val, GuardedK(j)) && n0 != n1 && IsAcc(n0) && IsAcc(n1)
    modifies n0, n1
    ensures Holds(n0, Partial(ZeroLanes(), Swizzled(GuardedK(j), 0), QRows(j), 64))
    ensures Holds(n1, Partial(ZeroLanes(), Swizzled(GuardedK(j), 1), QRows(j), 64))
  {
    ghost var A0, A1, B := Swizzled(GuardedK(j), 0), Swizzled(GuardedK(j), 1), QRows(j);
    ClearAcc(n0);
    ClearAcc(n1);
    PartialStart(n0, ZeroLanes(), A0, B);
    PartialStart(n1, ZeroLanes(), A1, B);
    hide KTileIs, Supplies, Partial, KOperand, QOperand, Swizzled, GuardedK, QRows, Holds, LoadQ;
    var q := LoadQ(j);
    for kstep := 0 to 4
      invariant Holds(n0, Partial(ZeroLanes(), A0, B, 16 * kstep)) && Holds(n1, Partial(ZeroLanes(), A1, B, 16 * kstep))
    {
      KTileSupplies(image, j.val, GuardedK(j), 0, kstep);
      KTileSupplies(image, j.val, GuardedK(j), 1, kstep);
      QTileSupplies(j, kstep);
      KStep(n0, n1, KOperand(image, j.val, 0, 0, kstep), KOperand(image, j.val, 0, 1, kstep), QOperand(q, j.val, kstep),
        ZeroLanes(), ZeroLanes(), A0, A1, B, kstep);
    }
  }

  /** The first n slots of the thread buffer are as expected. */
  ghost predicate DumpedUpTo(out: array<real>, entry: int -> real, n: int)
    reads out
  {
    out.Length == 8192 && forall i :: 0 <= i < n && i < 8192 ==> out[i] == entry(i)
  }

  /** The accumulators of a wave, slot by slot. */
  ghost predicate WaveEntries(g0: Lanes, g1: Lanes, warp: int, entry: int -> real) {
    forall lane, r :: LaneReg(lane, r) ==>
      && g0(lane, r) == entry((64 * warp + lane) * 32 + r)
      && g1(lane, r) == entry((64 * warp + lane) * 32 + 16 + r)
  }

  /** The 32 registers of one thread. */
  method DumpThread(n0: array2<Flt>, n1: array2<Flt>, out: array<real>, warp: int, lane: int,
                    ghost g0: Lanes, ghost g1: Lanes, ghost entry: int -> real)
    requires 0 <= warp < 4 && 0 <= lane < 64 && DumpedUpTo(out, entry, (64 * warp + lane) * 32)
    requires Holds(n0, g0) && Holds(n1, g1) && WaveEntries(g0, g1, warp, entry)
    modifies out
    ensures DumpedUpTo(out, entry, (64 * warp + lane) * 32 + 32)
  {
    var base := (64 * warp + lane) * 32;
    for r := 0 to 16
      invariant forall i :: 0 <= i < base + r ==> out[i] == entry(i)
      invariant forall i :: base + 16 <= i < base + 16 + r ==> out[i] == entry(i)
    {
      assert LaneReg(lane, r);
      out[base + r] := n0[lane, r].v;
      out[base + 16 + r] := n1[lane, r].v;
    }
  }

  /** out[tid * 32 + r] and out[tid * 32 + 16 + r], for the lanes of one wave. */
  method DumpWave(n0: array2<Flt>, n1: array2<Flt>, out: array<real>, warp: int,
                  ghost g0: Lanes, ghost g1: Lanes, ghost entry: int -> real)
    requires 0 <= warp < 4 && DumpedUpTo(out, entry, 2048 * warp)
    requires Holds(n0, g0) && Holds(n1, g1) && WaveEntries(g0, g1, warp, entry)
    modifies out
    ensures DumpedUpTo(out, entry, 2048 * (warp + 1))
  {
    hide DumpedUpTo, WaveEntries, Holds;
    for lane := 0 to 64
      invariant DumpedUpTo(out, entry, (64 * warp + lane) * 32)
    {
      DumpThread(n0, n1, out, warp, lane, g0, g1, entry);
    }
  }

  function QkSlot(x: Inputs): int -> real {
    i => QkEntry(x, i / 32, i % 32)
  }

  lemma QkWaveEntries(j: Job)
    requires j.mTile == 0 && j.warp < 4
    ensures WaveEntries(Partial(ZeroLanes(), Swizzled(GuardedK(j), 0), QRows(j), 64),
              Partial(ZeroLanes(), Swizzled(GuardedK(j), 1), QRows(j), 64), j.warp, QkSlot(InputsOf(j)))
  {
    hide QkEntry, QkSlot, InputsOf, Partial, Swizzled, GuardedK, QRows;
    forall lane, r | LaneReg(lane, r)
      ensures Partial(ZeroLanes(), Swizzled(GuardedK(j), 0), QRows(j), 64)(lane, r)
           == QkSlot(InputsOf(j))((64 * j.warp + lane) * 32 + r)
      ensures Partial(ZeroLanes(), Swizzled(GuardedK(j), 1), QRows(j), 64)(lane, r)
           == QkSlot(InputsOf(j))((64 * j.warp + lane) * 32 + 16 + r) {
      ghost var tid := 64 * j.warp + lane;
      TileIsEntry(j, lane, r, 0);
      TileIsEntry(j, lane, r, 1);
      hide LaneReg;
      QkSlotIs(InputsOf(j), tid, r);
      QkSlotIs(InputsOf(j), tid, 16 + r);
      assert tid * 32 + (16 + r) == tid * 32 + 16 + r;
    }
  }

  lemma QkSlotIs(x: Inputs, tid: int, r: int)
    requires 0 <= r < 32
    ensures QkSlot(x)(tid * 32 + r) == QkEntry(x, tid, r)
  {
    hide QkEntry;
    SlotDigits(tid, r);
  }

  lemma SlotDigits(tid: int, r: int)
    requires 0 <= r < 32
    ensures (tid * 32 + r) / 32 == tid && (tid * 32 + r) % 32 == r
  {
  }

  /** test_qk_gemm_kernel: the whole thread buffer is the reference's. */
  method TestQkGemm(j: Job, out: array<real>)
    requires j.val(0) == 0.0 && j.mTile == 0 && out.Length == 8192
    modifies out
    ensures forall tid, r :: ThreadReg(tid, r) ==> out[tid * 32 + r] == QkEntry(InputsOf(j), tid, r)
  {
    var smem := new bv16[8192];
    StageKTile(smem, j.k, j.strideK, 0, j.seqlenK);
    ImageIsTile(j, smem);
    var image := smem[..];
    var n0, n1 := new Flt[64, 16]((_, _) => NegInf), new Flt[64, 16]((_, _) => NegInf);
    hide KTileIs, QkEntry, QkSlot, InputsOf, Holds, GuardedK, IsImage, WaveEntries, Partial, Swizzled, QRows;
    for warp := 0 to 4
      invariant DumpedUpTo(out, QkSlot(InputsOf(j)), 2048 * warp)
    {
      var wave := j.(warp := warp);
      SameTensors(j, warp);
      QkWave(wave, image, n0, n1);
      QkWaveEntries(wave);
      DumpWave(n0, n1, out, warp, Partial(ZeroLanes(), Swizzled(GuardedK(wave), 0), QRows(wave), 64),
        Partial(ZeroLanes(), Swizzled(GuardedK(wave), 1), QRows(wave), 64), QkSlot(InputsOf(j)));
    }
    QkSlotsAreEntries(InputsOf(j), out);
  }

  lemma QkSlotsAreEntries(x: Inputs, out: array<real>)
    requires DumpedUpTo(out, QkSlot(x), 8192)
    ensures forall tid, r :: ThreadReg(tid, r) ==> out[tid * 32 + r] == QkEntry(x, tid, r)
  {
    hide QkEntry;
    forall tid, r | ThreadReg(tid, r) ensures out[tid * 32 + r] == QkEntry(x, tid, r) {
      SlotDigits(tid, r);
      assert out[tid * 32 + r] == QkSlot(x)(tid * 32 + r);
    }
  }

  lemma SameTensors(j: Job, warp: nat)
    ensures InputsOf(j.(warp := warp)) == InputsOf(j) && GuardedK(j.(warp := warp)) == GuardedK(j)
  {
  }

  // ---- the P V kernel ----

  function VValues(v: Dram, strideV: int, val: bv16 -> real): Lanes {
    (n, d) => val(At(v, strideV, n, d))
  }

  /** One 32-row slice of V, rows guarded, into buffer 1 or 2. */
  method StageVSlice(smem: array<bv16>, v: Dram, strideV: int, seqlenK: int, x: int)
    requires smem.Length == 8192 && 0 <= x < 2
    modifies smem
    ensures forall e :: 0 <= e < 8192 ==>
              smem[e] == if VUsed(e - BufBase(1 + x))
                         then Expected(v, strideV, 32 * x, seqlenK, VPlace(2304 + (e - BufBase(1 + x))))
                         else old(smem[e])
  {
    forall e ensures VUsed(e) ==> 0 <= e / 576 < 4 {
      SlabsBelowFour(e);
    }
    hide VUsed, VPlace, RegElem, Expected, LaneGuarded, BufBase;
    for warp := 0 to 4
      invariant forall e :: 0 <= e < 8192 ==>
        smem[e] == if VUsed(e - BufBase(1 + x)) && (e - BufBase(1 + x)) / 576 < warp
                   then Expected(v, strideV, 32 * x, seqlenK, VPlace(2304 + (e - BufBase(1 + x))))
                   else old(smem[e])
    {
      var regs := GuardedLoadV(v, strideV, 32 * x, seqlenK, warp);
      StoreVToLds(smem, regs, 1 + x, warp);
      forall e | VUsed(e) && e / 576 == warp
        ensures RegElem(regs, e) == Expected(v, strideV, 32 * x, seqlenK, VPlace(2304 + e)) {
        GuardedRegElem(regs, v, strideV, 32 * x, seqlenK, warp, e);
      }
    }
  }

  /** The slice at the reader's offsets. */
  lemma SliceStaged(image: seq<bv16>, v: Dram, strideV: int, seqlenK: int, x: int, val: bv16 -> real)
    requires |image| == 8192 && 0 <= x < 2 && val(0) == 0.0
    requires forall e :: 0 <= e < 8192 && VUsed(e - BufBase(1 + x)) ==>
      image[e] == Expected(v, strideV, 32 * x, seqlenK, VPlace(2304 + (e - BufBase(1 + x))))
    ensures VHalfIs(image, 1 + x, val, VRows(VValues(v, strideV, val), seqlenK, x))
  {
    hide VLdsElemOffset, VUsed, VCellRow, VCellCol, At, CellAt;
    forall n, d | 0 <= n < 32 && 0 <= d < 64
      ensures val(CellAt(image, BufBase(1 + x) + VLdsElemOffset(n, d)))
           == VRows(VValues(v, strideV, val), seqlenK, x)(n, d) {
      VOffsetInverse(n, d);
      SliceCell(image, v, strideV, seqlenK, x, VLdsElemOffset(n, d), BufBase(1 + x) + VLdsElemOffset(n, d));
      SliceValue(v, strideV, seqlenK, x, val, n, d);
    }
  }

  lemma SliceValue(v: Dram, strideV: int, seqlenK: int, x: int, val: bv16 -> real, n: int, d: int)
    requires val(0) == 0.0
    ensures VRows(VValues(v, strideV, val), seqlenK, x)(n, d)
         == val(if 32 * x + n < seqlenK then At(v, strideV, 32 * x + n, d) else 0)
  {
    hide At;
    if 32 * x + n < seqlenK {
      assert VRows(VValues(v, strideV, val), seqlenK, x)(n, d) == VValues(v, strideV, val)(32 * x + n, d);
    } else {
      assert VRows(VValues(v, strideV, val), seqlenK, x)(n, d) == 0.0;
    }
  }

  lemma SliceCell(image: seq<bv16>, v: Dram, strideV: int, seqlenK: int, x: int, c: int, e: int)
    requires |image| == 8192 && 0 <= x < 2 && VUsed(c) && e == BufBase(1 + x) + c
    requires forall e :: 0 <= e < 8192 && VUsed(e - BufBase(1 + x)) ==>
      image[e] == Expected(v, strideV, 32 * x, seqlenK, VPlace(2304 + (e - BufBase(1 + x))))
    ensures CellAt(image, e)
         == if 32 * x + VCellRow(c) < seqlenK then At(v, strideV, 32 * x + VCellRow(c), VCellCol(c)) else 0
  {
    hide VUsed, VCellRow, VCellCol, At;
    Staging.UsedBelow(c);
    assert e - BufBase(1 + x) == c && 2304 + c - 2304 == c;
    assert VPlace(2304 + c) == Place(VCellRow(c), VCellCol(c));
  }

  /** V over all 64 keys, rows past the sequence zero. */
  function VTile(v: Lanes, seqlenK: int): Lanes {
    (n, d) => GuardedV(v, seqlenK, n, d)
  }

  /** P over all 64 keys, for the rows of a wave. */
  function PTile(p: seq<real>, warp: int): Lanes {
    (l, n) => GetP(p, 32 * warp + l, n)
  }

  lemma VTileSupplies(image: seq<bv16>, val: bv16 -> real, v: Lanes, seqlenK: int, half: int, x: int, s: int,
                      kstep: int)
    requires 0 <= half < 2 && 0 <= x < 2 && 0 <= s < 2 && VHalfIs(image, 1 + x, val, VRows(v, seqlenK, x))
        && kstep == 2 * x + s
    ensures Supplies(VOperand(image, val, 1 + x, half, s), Columns(VTile(v, seqlenK), half), kstep)
  {
    hide VOperand, VHalfIs, Columns, VTile, VRows;
    var a := VOperand(image, val, 1 + x, half, s);
    VOperandSupplies(image, val, 1 + x, VRows(v, seqlenK, x), half, s);
    forall lane, c | 0 <= lane < 64 && 0 <= c < 8
      ensures a(lane, c) == Columns(VTile(v, seqlenK), half)(lane % 32, 16 * kstep + 8 * (lane / 32) + c) {
      VTileLane(a, v, seqlenK, half, x, s, kstep, lane, c);
    }
  }

  lemma VTileLane(a: Lanes, v: Lanes, seqlenK: int, half: int, x: int, s: int, kstep: int, lane: int, c: int)
    requires Supplies(a, Columns(VRows(v, seqlenK, x), half), s) && kstep == 2 * x + s && 0 <= lane < 64 && 0 <= c < 8
    ensures a(lane, c) == Columns(VTile(v, seqlenK), half)(lane % 32, 16 * kstep + 8 * (lane / 32) + c)
  {
    hide Columns, VTile, VRows;
    var l, h := lane % 32, lane / 32;
    assert a(lane, c) == Columns(VRows(v, seqlenK, x), half)(l, 16 * s + 8 * h + c);
    SameColumns(v, seqlenK, half, x, s, kstep, l, 8 * h + c);
    assert 16 * s + (8 * h + c) == 16 * s + 8 * h + c && 16 * kstep + (8 * h + c) == 16 * kstep + 8 * h + c;
  }

  lemma SameColumns(v: Lanes, seqlenK: int, half: int, x: int, s: int, kstep: int, l: int, i: int)
    requires kstep == 2 * x + s
    ensures Columns(VRows(v, seqlenK, x), half)(l, 16 * s + i) == Columns(VTile(v, seqlenK), half)(l, 16 * kstep + i)
  {
    hide GuardedV;
    assert 32 * x + (16 * s + i) == 16 * kstep + i;
  }

  /** The 32 registers of each lane of a wave. */
  function WaveRegs(p: seq<real>, warp: int): seq<seq<real>> {
    seq(64, lane => seq(32, r => BufferAt(p, (64 * warp + lane) * 32 + r)))
  }

  /** The thread buffer holds bf16 numbers: cutting their binary32 images to the high half loses nothing. */
  ghost predicate HoldsBf16(p: seq<real>, bits: real -> bv32, val: bv16 -> real) {
    forall i :: val(High(bits(BufferAt(p, i)))) == BufferAt(p, i)
  }

  lemma PTileSupplies(p: seq<real>, bits: real -> bv32, val: bv16 -> real, warp: int, x: int, s: int, kstep: int)
    requires 0 <= warp < 4 && 0 <= x < 2 && 0 <= s < 2 && kstep == 2 * x + s
    requires HoldsBf16(p, bits, val)
    ensures Supplies(PackedP(WaveRegs(p, warp), Truncate(bits), val, kstep), PTile(p, warp), kstep)
  {
    hide PackedP, WaveRegs, PTile, BufferAt, HoldsBf16;
    forall lane, c | 0 <= lane < 64 && 0 <= c < 8
      ensures PackedP(WaveRegs(p, warp), Truncate(bits), val, kstep)(lane, c)
           == PTile(p, warp)(lane % 32, 16 * kstep + 8 * (lane / 32) + c) {
      PTileLane(p, bits, val, warp, x, s, kstep, lane, c);
    }
  }

  lemma PTileLane(p: seq<real>, bits: real -> bv32, val: bv16 -> real, warp: int, x: int, s: int, kstep: int,
                  lane: int, c: int)
    requires 0 <= warp < 4 && 0 <= x < 2 && 0 <= s < 2 && 0 <= lane < 64 && 0 <= c < 8 && kstep == 2 * x + s
    requires HoldsBf16(p, bits, val)
    ensures PackedP(WaveRegs(p, warp), Truncate(bits), val, kstep)(lane, c)
        == PTile(p, warp)(lane % 32, 16 * kstep + 8 * (lane / 32) + c)
  {
    hide PackedP, BufferAt, GetP, Free, WaveRegs;
    var r, l, h := 8 * s + c, lane % 32, lane / 32;
    PackedElem(WaveRegs(p, warp), Truncate(bits), val, kstep, lane, c);
    RegisterOf(p, warp, lane, 8 * kstep + c);
    RegistersHoldP(p, warp, lane, r, x);
    FreeOfStep(lane, s, c);
    assert 32 * x + (16 * s + 8 * h + c) == 16 * kstep + 8 * h + c;
    assert 16 * x + r == 8 * kstep + c;
  }

  lemma RegisterOf(p: seq<real>, warp: int, lane: int, i: int)
    requires 0 <= lane < 64 && 0 <= i < 32
    ensures Register(WaveRegs(p, warp), lane, i) == BufferAt(p, (64 * warp + lane) * 32 + i)
  {
    hide BufferAt;
  }

  /** One wave's 16 MFMA over the 64 keys. */
  method PvWave(p: seq<real>, image: seq<bv16>, val: bv16 -> real, bits: real -> bv32, warp: int,
                d0: array2<Flt>, d1: array2<Flt>, ghost v: Lanes, ghost seqlenK: int)
    requires 0 <= warp < 4 && d0 != d1 && IsAcc(d0) && IsAcc(d1)
    requires HoldsBf16(p, bits, val)
    requires VHalfIs(image, 1, val, VRows(v, seqlenK, 0)) && VHalfIs(image, 2, val, VRows(v, seqlenK, 1))
    modifies d0, d1
    ensures Holds(d0, Partial(ZeroLanes(), Columns(VTile(v, seqlenK), 0), PTile(p, warp), 64))
    ensures Holds(d1, Partial(ZeroLanes(), Columns(VTile(v, seqlenK), 1), PTile(p, warp), 64))
  {
    hide VHalfIs, HoldsBf16, Supplies, Partial, VOperand, PackedP, Columns, VTile, VRows, PTile, Holds, WaveRegs,
      BufferAt;
    ghost var A0, A1, B := Columns(VTile(v, seqlenK), 0), Columns(VTile(v, seqlenK), 1), PTile(p, warp);
    ClearAcc(d0);
    ClearAcc(d1);
    PartialStart(d0, ZeroLanes(), A0, B);
    PartialStart(d1, ZeroLanes(), A1, B);
    var u := WaveRegs(p, warp);
    for kstep := 0 to 4
      invariant Holds(d0, Partial(ZeroLanes(), A0, B, 16 * kstep)) && Holds(d1, Partial(ZeroLanes(), A1, B, 16 * kstep))
    {
      var x, s := kstep / 2, kstep % 2;
      assert kstep == 2 * x + s;
      VTileSupplies(image, val, v, seqlenK, 0, x, s, kstep);
      VTileSupplies(image, val, v, seqlenK, 1, x, s, kstep);
      PTileSupplies(p, bits, val, warp, x, s, kstep);
      KStep(d0, d1, VOperand(image, val, 1 + x, 0, s), VOperand(image, val, 1 + x, 1, s),
        PackedP(u, Truncate(bits), val, kstep),
        ZeroLanes(), ZeroLanes(), A0, A1, B, kstep);
    }
  }

  function PvSlot(p: seq<real>, v: Lanes, seqlenK: int): int -> real {
    i => PvEntry(p, v, seqlenK, i / 32, i % 32)
  }

  lemma PvSlotIs(p: seq<real>, v: Lanes, seqlenK: int, tid: int, r: int)
    requires 0 <= r < 32
    ensures PvSlot(p, v, seqlenK)(tid * 32 + r) == PvEntry(p, v, seqlenK, tid, r)
  {
    hide PvEntry;
    SlotDigits(tid, r);
  }

  lemma PvIsEntry(p: seq<real>, v: Lanes, seqlenK: int, warp: int, lane: int, r: int, h: int)
    requires 0 <= warp < 4 && LaneReg(lane, r) && 0 <= h < 2
    ensures Partial(ZeroLanes(), Columns(VTile(v, seqlenK), h), PTile(p, warp), 64)(lane, r)
         == PvEntry(p, v, seqlenK, 64 * warp + lane, 16 * h + r)
  {
    hide MRow, NCol, DCol, AccRow, Free, Sum, GetP, GuardedV;
    AccSlot(warp, lane, r, h);
    SumEqual(DotTerm(Columns(VTile(v, seqlenK), h), PTile(p, warp), AccRow(lane, r), lane % 32),
             PvRefTerm(p, v, seqlenK, 32 * warp + lane % 32, 32 * h + AccRow(lane, r)), 0, 64);
  }

  lemma PvWaveEntries(p: seq<real>, v: Lanes, seqlenK: int, warp: int)
    requires 0 <= warp < 4
    ensures WaveEntries(Partial(ZeroLanes(), Columns(VTile(v, seqlenK), 0), PTile(p, warp), 64),
              Partial(ZeroLanes(), Columns(VTile(v, seqlenK), 1), PTile(p, warp), 64), warp, PvSlot(p, v, seqlenK))
  {
    hide PvEntry, PvSlot, Partial, Columns, VTile, PTile;
    forall lane, r | LaneReg(lane, r)
      ensures Partial(ZeroLanes(), Columns(VTile(v, seqlenK), 0), PTile(p, warp), 64)(lane, r)
           == PvSlot(p, v, seqlenK)((64 * warp + lane) * 32 + r)
      ensures Partial(ZeroLanes(), Columns(VTile(v, seqlenK), 1), PTile(p, warp), 64)(lane, r)
           == PvSlot(p, v, seqlenK)((64 * warp + lane) * 32 + 16 + r) {
      PvIsEntry(p, v, seqlenK, warp, lane, r, 0);
      PvIsEntry(p, v, seqlenK, warp, lane, r, 1);
      PvSlotIs(p, v, seqlenK, 64 * warp + lane, r);
      PvSlotIs(p, v, seqlenK, 64 * warp + lane, 16 + r);
    }
  }

  /** Zeroed memory with both slices of V in it. */
  method StageVTile(v: Dram, strideV: int, seqlenK: int, ghost val: bv16 -> real) returns (image: seq<bv16>)
    requires val(0) == 0.0
    ensures VHalfIs(image, 1, val, VRows(VValues(v, strideV, val), seqlenK, 0))
    ensures VHalfIs(image, 2, val, VRows(VValues(v, strideV, val), seqlenK, 1))
  {
    hide VHalfIs, Expected, VPlace, VUsed, VRows, VValues;
    var smem := new bv16[8192];
    ZeroFill(smem);
    StageVSlice(smem, v, strideV, seqlenK, 0);
    ghost var first := smem[..];
    SliceStaged(first, v, strideV, seqlenK, 0, val);
    StageVSlice(smem, v, strideV, seqlenK, 1);
    image := smem[..];
    SliceStaged(image, v, strideV, seqlenK, 1, val);
    FirstSliceStays(first, image, val, VRows(VValues(v, strideV, val), seqlenK, 0));
  }

  /** test_pv_gemm_kernel, on probabilities that are bf16 already: the whole thread buffer is the reference's. */
  method TestPvGemm(p: seq<real>, v: Dram, strideV: int, seqlenK: int, val: bv16 -> real, bits: real -> bv32,
                    out: array<real>)
    requires val(0) == 0.0 && out.Length == 8192
    requires HoldsBf16(p, bits, val)
    modifies out
    ensures forall tid, r :: ThreadReg(tid, r) ==>
              out[tid * 32 + r] == PvEntry(p, VValues(v, strideV, val), seqlenK, tid, r)
  {
    hide VHalfIs, HoldsBf16, BufferAt, DumpedUpTo, WaveEntries, Holds, Partial, Columns, VTile, VRows, PTile,
      PvSlot, PvEntry, VValues;
    ghost var w := VValues(v, strideV, val);
    var image := StageVTile(v, strideV, seqlenK, val);
    var d0, d1 := new Flt[64, 16]((_, _) => NegInf), new Flt[64, 16]((_, _) => NegInf);
    NothingDumped(out, PvSlot(p, w, seqlenK));
    for warp := 0 to 4
      invariant DumpedUpTo(out, PvSlot(p, w, seqlenK), 2048 * warp)
    {
      PvWave(p, image, val, bits, warp, d0, d1, w, seqlenK);
      PvWaveEntries(p, w, seqlenK, warp);
      DumpWave(d0, d1, out, warp, Partial(ZeroLanes(), Columns(VTile(w, seqlenK), 0), PTile(p, warp), 64),
        Partial(ZeroLanes(), Columns(VTile(w, seqlenK), 1), PTile(p, warp), 64), PvSlot(p, w, seqlenK));
    }
    PvSlotsAreEntries(p, w, seqlenK, out);
  }

  lemma NothingDumped(out: array<real>, entry: int -> real)
    requires out.Length == 8192
    ensures DumpedUpTo(out, entry, 0)
  {
  }

  lemma PvSlotsAreEntries(p: seq<real>, v: Lanes, seqlenK: int, out: array<real>)
    requires DumpedUpTo(out, PvSlot(p, v, seqlenK), 8192)
    ensures forall tid, r :: ThreadReg(tid, r) ==> out[tid * 32 + r] == PvEntry(p, v, seqlenK, tid, r)
  {
    hide PvEntry;
    forall tid, r | ThreadReg(tid, r) ensures out[tid * 32 + r] == PvEntry(p, v, seqlenK, tid, r) {
      SlotDigits(tid, r);
      assert out[tid * 32 + r] == PvSlot(p, v, seqlenK)(tid * 32 + r);
    }
  }

  /** Staging the second slice leaves the first where it is. */
  lemma FirstSliceStays(before: seq<bv16>, after: seq<bv16>, val: bv16 -> real, vt: Lanes)
    requires |before| == |after| == 8192 && VHalfIs(before, 1, val, vt)
    requires forall e :: 0 <= e < 8192 && !VUsed(e - BufBase(2)) ==> after[e] == before[e]
    ensures VHalfIs(after, 1, val, vt)
  {
    forall n, d | 0 <= n < 32 && 0 <= d < 64
      ensures CellAt(after, BufBase(1) + VLdsElemOffset(n, d)) == CellAt(before, BufBase(1) + VLdsElemOffset(n, d)) {
      hide VLdsElemOffset, VCellRow, VCellCol;
      VOffsetInverse(n, d);
      assert VUsed(VLdsElemOffset(n, d));
    }
    hide VLdsElemOffset, CellAt;
  }
}
