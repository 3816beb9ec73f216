/** The stand-alone K and V staging kernels, and the plain loops that say what image they must leave in LDS.
    Both kernels start from zeroed memory and skip rows at or past seqlen_k. */
module StagingOracles {
  import opened Layout
  import opened Staging

  /** What a cell of the 8192-element region holds: an element of the tile, or nothing. */
  datatype Place = Pad | Place(row: int, col: int)

  function KPlace(e: int): Place {
    if KUsed(e) then Place(KCellRow(e), KCellCol(e))
    else if KUsed(e - 2304) then Place(KCellRow(e - 2304), 32 + KCellCol(e - 2304))
    else Pad
  }

  function VPlace(e: int): Place {
    if VUsed(e - 2304) then Place(VCellRow(e - 2304), VCellCol(e - 2304)) else Pad
  }

  /** The element of a place; padding and rows out of range are zero. */
  function Expected(m: Dram, stride: int, kvOffset: int, seqlenK: int, at: Place): bv16 {
    if at.Place? && kvOffset + at.row < seqlenK then At(m, stride, kvOffset + at.row, at.col) else 0
  }

  /** Cell and element determine each other. */
  lemma KPlaceOf(j: int, d: int, e: int)
    requires 0 <= j < 64 && 0 <= d < 64
    ensures KPlace(e) == Place(j, d) <==> e == LdsElemOffset(j, d)
    ensures 0 <= LdsElemOffset(j, d) < 4608
  {
    KPlaceOfHalf(j, d / 32, d % 32, e);
  }

  lemma KPlaceOfHalf(j: int, half: int, c: int, e: int)
    requires 0 <= j < 64 && 0 <= half < 2 && 0 <= c < 32
    ensures KPlace(e) == Place(j, 32 * half + c) <==> e == LdsElemOffset(j, 32 * half + c)
    ensures 0 <= LdsElemOffset(j, 32 * half + c) < 4608
  {
    hide LdsElemOffset, KUsed, KCellRow, KCellCol, KCellWarp, KCellIssue, KCellLane;
    HalfOffset(j, half, c);
    KOffsetInverse(j, c);
    UsedBelow(LdsElemOffset(j, c));
    UsedBelow(e);
    UsedBelow(e - 2304);
    if KUsed(e) {
      KCellDecomposes(e);
    }
    if KUsed(e - 2304) {
      KCellDecomposes(e - 2304);
    }
  }

  lemma HalfOffset(j: int, half: int, c: int)
    requires 0 <= half < 2 && 0 <= c < 32
    ensures LdsElemOffset(j, 32 * half + c) == LdsElemOffset(j, c) + 2304 * half
  {
    DivMod(32 * half + c, 32, half, c);
  }

  lemma UsedBelow(e: int)
    ensures KUsed(e) ==> 0 <= e < 2176
  {
  }

  lemma KPlaceRange(e: int)
    ensures KPlace(e).Place? ==> 0 <= KPlace(e).row < 64 && 0 <= KPlace(e).col < 64
  {
    if KUsed(e) {
      KCellDecomposes(e);
    }
    if KUsed(e - 2304) {
      KCellDecomposes(e - 2304);
    }
    hide KUsed, KCellRow, KCellCol;
  }

  lemma VPlaceOf(n: int, d: int, e: int)
    requires 0 <= n < 32 && 0 <= d < 64
    ensures VPlace(e) == Place(n, d) <==> e == 2304 + VLdsElemOffset(n, d)
    ensures 0 <= VLdsElemOffset(n, d) < 2304
  {
    hide VLdsElemOffset, VCellRow, VCellCol;
    VOffsetInverse(n, d);
    if VUsed(e - 2304) {
      VCellDecomposes(e - 2304);
    }
  }

  lemma VPlaceRange(e: int)
    ensures VPlace(e).Place? ==> 0 <= VPlace(e).row < 32 && 0 <= VPlace(e).col < 64
  {
    if VUsed(e - 2304) {
      VCellDecomposes(e - 2304);
    }
  }

  // ---- the oracles ----

  /** Rows before row, and in it the columns before col, are in place. */
  predicate Filled(at: Place, row: int, col: int) {
    at.Place? && (at.row < row || (at.row == row && at.col < col))
  }

  /** The image with the first rows, and some columns of the next one, filled in. */
  ghost predicate ImageUpTo(a: array<bv16>, place: int -> Place, m: Dram, stride: int, kvOffset: int, seqlenK: int,
                            row: int, col: int)
    reads a
  {
    && a.Length == 8192
    && forall e :: 0 <= e < 8192 ==>
         a[e] == if Filled(place(e), row, col) then Expected(m, stride, kvOffset, seqlenK, place(e)) else 0
  }

  /** The whole image. */
  ghost predicate IsImage(a: array<bv16>, place: int -> Place, m: Dram, stride: int, kvOffset: int, seqlenK: int)
    reads a
  {
    a.Length == 8192 && forall e :: 0 <= e < 8192 ==> a[e] == Expected(m, stride, kvOffset, seqlenK, place(e))
  }

  method PutPlace(a: array<bv16>, e0: int, ghost place: int -> Place, m: Dram, stride: int, kvOffset: int, seqlenK: int,
                  row: int, col: int)
    requires ImageUpTo(a, place, m, stride, kvOffset, seqlenK, row, col) && 0 <= e0 < 8192 && kvOffset + row < seqlenK
    requires forall e :: 0 <= e < 8192 ==> (place(e) == Place(row, col) <==> e == e0)
    modifies a
    ensures ImageUpTo(a, place, m, stride, kvOffset, seqlenK, row, col + 1)
  {
    hide At;
    a[e0] := At(m, stride, kvOffset + row, col);
  }

  lemma RowDone(a: array<bv16>, place: int -> Place, m: Dram, stride: int, kvOffset: int, seqlenK: int, row: int)
    requires forall e :: 0 <= e < 8192 && place(e).Place? ==> 0 <= place(e).col < 64
    requires ImageUpTo(a, place, m, stride, kvOffset, seqlenK, row, 64)
          || (ImageUpTo(a, place, m, stride, kvOffset, seqlenK, row, 0) && kvOffset + row >= seqlenK)
    ensures ImageUpTo(a, place, m, stride, kvOffset, seqlenK, row + 1, 0)
  {
    hide At;
  }

  lemma AllRowsDone(a: array<bv16>, place: int -> Place, m: Dram, stride: int, kvOffset: int, seqlenK: int, rows: int)
    requires forall e :: 0 <= e < 8192 && place(e).Place? ==> 0 <= place(e).row < rows && 0 <= place(e).col < 64
    requires ImageUpTo(a, place, m, stride, kvOffset, seqlenK, rows, 0)
    ensures IsImage(a, place, m, stride, kvOffset, seqlenK)
  {
    hide At;
  }

  method ZeroFill(a: array<bv16>)
    requires a.Length == 8192
    modifies a
    ensures forall e :: 0 <= e < 8192 ==> a[e] == 0
  {
    forall e | 0 <= e < 8192 {
      a[e] := 0;
    }
  }

  /** ref_k_lds: every element of the 64 x 64 tile at its offset, one by one. */
  method RefKLds(k: Dram, strideK: int, kvOffset: int, seqlenK: int, expected: array<bv16>)
    requires expected.Length == 8192
    modifies expected
    ensures IsImage(expected, KPlace, k, strideK, kvOffset, seqlenK)
  {
    ZeroFill(expected);
    forall e ensures KPlace(e).Place? ==> 0 <= KPlace(e).row < 64 && 0 <= KPlace(e).col < 64 {
      KPlaceRange(e);
    }
    hide KPlace, LdsElemOffset, Expected;
    for j := 0 to 64
      invariant ImageUpTo(expected, KPlace, k, strideK, kvOffset, seqlenK, j, 0)
    {
      var row := kvOffset + j;
      if row < seqlenK {
        for d := 0 to 64
          invariant ImageUpTo(expected, KPlace, k, strideK, kvOffset, seqlenK, j, d)
        {
          forall e ensures KPlace(e) == Place(j, d) <==> e == LdsElemOffset(j, d) {
            KPlaceOf(j, d, e);
          }
          KPlaceOf(j, d, 0);
          PutPlace(expected, LdsElemOffset(j, d), KPlace, k, strideK, kvOffset, seqlenK, j, d);
        }
      }
      RowDone(expected, KPlace, k, strideK, kvOffset, seqlenK, j);
    }
    AllRowsDone(expected, KPlace, k, strideK, kvOffset, seqlenK, 64);
  }

  /** ref_v_lds: every element of the 32 x 64 slice at its offset in the second buffer, one by one. */
  method RefVLds(v: Dram, strideV: int, kvOffset: int, seqlenK: int, expected: array<bv16>)
    requires expected.Length == 8192
    modifies expected
    ensures IsImage(expected, VPlace, v, strideV, kvOffset, seqlenK)
  {
    ZeroFill(expected);
    forall e ensures VPlace(e).Place? ==> 0 <= VPlace(e).row < 32 && 0 <= VPlace(e).col < 64 {
      VPlaceRange(e);
    }
    hide VPlace, VLdsElemOffset, Expected;
    for n := 0 to 32
      invariant ImageUpTo(expected, VPlace, v, strideV, kvOffset, seqlenK, n, 0)
    {
      var row := kvOffset + n;
      if row < seqlenK {
        for d := 0 to 64
          invariant ImageUpTo(expected, VPlace, v, strideV, kvOffset, seqlenK, n, d)
        {
          forall e ensures VPlace(e) == Place(n, d) <==> e == 2304 + VLdsElemOffset(n, d) {
            VPlaceOf(n, d, e);
          }
          VPlaceOf(n, d, 0);
          PutPlace(expected, 2304 + VLdsElemOffset(n, d), VPlace, v, strideV, kvOffset, seqlenK, n, d);
        }
      }
      RowDone(expected, VPlace, v, strideV, kvOffset, seqlenK, n);
    }
    AllRowsDone(expected, VPlace, v, strideV, kvOffset, seqlenK, 32);
  }

  // ---- the K staging kernel ----

  /** buffer_load ... lds with some lanes switched off. */
  method GuardedLoadLds(lds: array<bv16>, m: Dram, voffset: seq<int>, active: seq<bool>, m0: int)
    requires lds.Length == 8192 && |voffset| == |active| == 64 && m0 % 4 == 0 && 0 <= m0 && m0 / 2 + 128 <= 8192
    modifies lds
    ensures forall e :: 0 <= e < 8192 ==>
              lds[e] == if m0 / 2 <= e < m0 / 2 + 128 && active[(e - m0 / 2) / 2]
                        then m(voffset[(e - m0 / 2) / 2] / 2 + (e - m0 / 2) % 2)
                        else old(lds[e])
  {
    var cell := m0 / 2;
    forall i | 0 <= i < 128 && active[i / 2] {
      lds[cell + i] := m(voffset[i / 2] / 2 + i % 2);
    }
  }

  /** The warp, chunk and issue that fill a cell, as one number below 32. */
  function CellStep(e: int): int {
    if KUsed(e) then 8 * KCellWarp(e) + KCellIssue(e)
    else if KUsed(e - 2304) then 8 * KCellWarp(e - 2304) + 4 + KCellIssue(e - 2304)
    else 32
  }

  /** Cells whose step is done hold their element, the others zero. */
  ghost predicate StagedUpTo(a: array<bv16>, k: Dram, strideK: int, kvOffset: int, seqlenK: int, step: int)
    reads a
  {
    && a.Length == 8192
    && forall e :: 0 <= e < 8192 ==>
         a[e] == if CellStep(e) < step then Expected(k, strideK, kvOffset, seqlenK, KPlace(e)) else 0
  }

  lemma ChunkCell(warp: int, chunk: int, issue: int, x: int)
    requires 0 <= warp < 4 && 0 <= chunk < 2 && 0 <= issue < 4 && KIssued(warp, issue, x)
    ensures CellStep(x + 2304 * chunk) == 8 * warp + 4 * chunk + issue
    ensures KPlace(x + 2304 * chunk) == Place(KCellRow(x), 32 * chunk + KCellCol(x))
  {
    UsedBelow(x);
    UsedBelow(x + 2304);
    hide KUsed, KCellWarp, KCellIssue, KCellRow, KCellCol;
  }

  lemma StepIssue(warp: int, chunk: int, issue: int, e: int)
    requires 0 <= warp < 4 && 0 <= chunk < 2 && 0 <= issue < 4
    requires CellStep(e) == 8 * warp + 4 * chunk + issue
    ensures KIssued(warp, issue, e - 2304 * chunk)
  {
    hide KUsed, KCellWarp, KCellIssue, KCellRow, KCellCol, KCellLane, LdsElemOffset, KSlabCell;
    if KUsed(e) {
      KCellDecomposes(e);
      assert KCellWarp(e) == warp && chunk == 0;
    } else {
      assert KUsed(e - 2304);
      KCellDecomposes(e - 2304);
      assert KCellWarp(e - 2304) == warp && chunk == 1;
    }
  }

  /** The 128 cells of one issue of one chunk, and what they are to hold. */
  lemma IssueStep(warp: int, chunk: int, issue: int, e: int)
    requires 0 <= warp < 4 && 0 <= chunk < 2 && 0 <= issue < 4
    ensures var first := 2304 * chunk + 136 * warp + 544 * issue;
      && (CellStep(e) == 8 * warp + 4 * chunk + issue <==> first <= e < first + 128)
      && (first <= e < first + 128 ==>
            var lane := (e - first) / 2;
            KPlace(e) == Place(16 * issue + KLaneRow(lane, warp), 32 * chunk + KLaneCol(lane) + (e - first) % 2))
  {
    var x := e - 2304 * chunk;
    hide KLaneRow, KLaneCol, KCellRow, KCellCol, CellStep, KPlace;
    KIssueCells(warp, issue, x);
    if CellStep(e) == 8 * warp + 4 * chunk + issue {
      StepIssue(warp, chunk, issue, e);
    }
    hide KUsed, KCellWarp, KCellIssue;
    if KIssued(warp, issue, x) {
      ChunkCell(warp, chunk, issue, x);
    }
  }

  /** Byte offset of a lane's dword, and whether its row is in range. */
  function LaneOffset(strideK: int, row: int, col: int): int {
    row * (strideK * 2) + col * 2
  }

  lemma LaneElem(k: Dram, strideK: int, row: int, col: int, i: int)
    requires 0 <= i < 2
    ensures k(LaneOffset(strideK, row, col) / 2 + i) == At(k, strideK, row, col + i)
  {
    RowsAndColumn(strideK, 0, row, col, 0);
    assert LaneOffset(strideK, row, col) == 2 * ElemIndex(strideK, row, col);
  }

  method StageIssue(smem: array<bv16>, k: Dram, strideK: int, kvOffset: int, seqlenK: int, warp: int, chunk: int,
                    issue: int)
    requires 0 <= warp < 4 && 0 <= chunk < 2 && 0 <= issue < 4
    requires StagedUpTo(smem, k, strideK, kvOffset, seqlenK, 8 * warp + 4 * chunk + issue)
    modifies smem
    ensures StagedUpTo(smem, k, strideK, kvOffset, seqlenK, 8 * warp + 4 * chunk + issue + 1)
  {
    hide KLaneRow, KLaneCol, CellStep, KPlace, LaneOffset, At;
    var row := seq(64, lane => kvOffset + issue * 16 + KLaneRow(lane, warp));
    var active := seq(64, lane requires 0 <= lane < 64 => row[lane] < seqlenK);
    var voffset := seq(64, lane requires 0 <= lane < 64 => LaneOffset(strideK, row[lane], chunk * 32 + KLaneCol(lane)));
    var m0 := chunk * 4608 + warp * 0x110 + issue * 0x440;
    ghost var first := 2304 * chunk + 136 * warp + 544 * issue;
    assert m0 / 2 == first && m0 % 4 == 0;
    GuardedLoadLds(smem, k, voffset, active, m0);
    forall e | 0 <= e < 8192
      ensures smem[e] == if CellStep(e) < 8 * warp + 4 * chunk + issue + 1
                         then Expected(k, strideK, kvOffset, seqlenK, KPlace(e)) else 0 {
      IssueStep(warp, chunk, issue, e);
      if first <= e < first + 128 {
        var lane := (e - first) / 2;
        LaneElem(k, strideK, row[lane], chunk * 32 + KLaneCol(lane), (e - first) % 2);
      }
    }
  }

  lemma AllStaged(a: array<bv16>, k: Dram, strideK: int, kvOffset: int, seqlenK: int)
    requires StagedUpTo(a, k, strideK, kvOffset, seqlenK, 32)
    ensures IsImage(a, KPlace, k, strideK, kvOffset, seqlenK)
  {
    hide Expected;
    forall e | 0 <= e < 8192
      ensures CellStep(e) < 32 || Expected(k, strideK, kvOffset, seqlenK, KPlace(e)) == 0 {
      StepBelow(k, strideK, kvOffset, seqlenK, e);
    }
    hide CellStep, KPlace;
  }

  lemma StepBelow(k: Dram, strideK: int, kvOffset: int, seqlenK: int, e: int)
    ensures CellStep(e) < 32 || Expected(k, strideK, kvOffset, seqlenK, KPlace(e)) == 0
    ensures CellStep(e) >= 0
  {
    if KUsed(e) {
      KCellDecomposes(e);
    }
    if KUsed(e - 2304) {
      KCellDecomposes(e - 2304);
    }
    hide KUsed, KCellWarp, KCellIssue, KCellRow, KCellCol, KCellLane, At;
  }

  lemma NothingStaged(a: array<bv16>, k: Dram, strideK: int, kvOffset: int, seqlenK: int)
    requires a.Length == 8192 && forall e :: 0 <= e < 8192 ==> a[e] == 0
    ensures StagedUpTo(a, k, strideK, kvOffset, seqlenK, 0)
  {
    hide CellStep, KPlace, Expected;
    forall e ensures CellStep(e) >= 0 {
      StepBelow(k, strideK, kvOffset, seqlenK, e);
    }
  }

  /** Zero, then stage both chunks with the rows guarded. */
  method StageKTile(smem: array<bv16>, k: Dram, strideK: int, kvOffset: int, seqlenK: int)
    requires smem.Length == 8192
    modifies smem
    ensures IsImage(smem, KPlace, k, strideK, kvOffset, seqlenK)
  {
    ZeroFill(smem);
    NothingStaged(smem, k, strideK, kvOffset, seqlenK);
    hide StagedUpTo;
    for warp := 0 to 4
      invariant StagedUpTo(smem, k, strideK, kvOffset, seqlenK, 8 * warp)
    {
      for chunk := 0 to 2
        invariant StagedUpTo(smem, k, strideK, kvOffset, seqlenK, 8 * warp + 4 * chunk)
      {
        for issue := 0 to 4
          invariant StagedUpTo(smem, k, strideK, kvOffset, seqlenK, 8 * warp + 4 * chunk + issue)
        {
          StageIssue(smem, k, strideK, kvOffset, seqlenK, warp, chunk, issue);
        }
      }
    }
    AllStaged(smem, k, strideK, kvOffset, seqlenK);
  }

  /** test_k_lds_kernel: stage and dump; the oracle's image, padding and out-of-range rows included. */
  method TestKLds(k: Dram, strideK: int, kvOffset: int, seqlenK: int, out: array<bv16>)
    requires out.Length == 8192
    modifies out
    ensures IsImage(out, KPlace, k, strideK, kvOffset, seqlenK)
  {
    var smem := new bv16[8192];
    StageKTile(smem, k, strideK, kvOffset, seqlenK);
    hide Expected, KPlace;
    forall e | 0 <= e < 8192 {
      out[e] := smem[e];
    }
  }

  // ---- the V staging kernel ----

  /** A b64 load of four columns of a row, or zeros if the row is out of range. */
  function GuardedB64(v: Dram, strideV: int, seqlenK: int, row: int, col: int): V2i {
    if row < seqlenK then LoadB64(v, LaneOffset(strideV, row, col)) else V2i(0, 0)
  }

  lemma GuardedElem(v: Dram, strideV: int, kvOffset: int, seqlenK: int, row: int, col: int, c: int)
    requires 0 <= c < 4
    ensures Elem(GuardedB64(v, strideV, seqlenK, kvOffset + row, col), c)
         == Expected(v, strideV, kvOffset, seqlenK, Place(row, col + c))
  {
    if kvOffset + row < seqlenK {
      RowsAndColumn(strideV, 0, kvOffset + row, col, 0);
      assert LaneOffset(strideV, kvOffset + row, col) == 2 * ElemIndex(strideV, kvOffset + row, col);
      hide Elem, LoadB64, LaneOffset;
      LoadedElem(v, ElemIndex(strideV, kvOffset + row, col), c);
    }
  }

  ghost predicate LaneGuarded(even: V2i, odd: V2i, v: Dram, strideV: int, kvOffset: int, seqlenK: int, warp: int,
                              lane: int) {
    forall c :: 0 <= c < 4 ==>
      && Elem(even, c) == Expected(v, strideV, kvOffset, seqlenK, Place(VLaneRow(lane, warp), VLaneCol(lane) + c))
      && Elem(odd, c) == Expected(v, strideV, kvOffset, seqlenK, Place(VLaneRow(lane, warp) + 1, VLaneCol(lane) + c))
  }

  ghost predicate AllGuarded(regs: VRegs, v: Dram, strideV: int, kvOffset: int, seqlenK: int, warp: int) {
    && |regs.even| == |regs.odd| == 64
    && forall lane :: 0 <= lane < 64 ==>
         LaneGuarded(regs.even[lane], regs.odd[lane], v, strideV, kvOffset, seqlenK, warp, lane)
  }

  method GuardedLoadV(v: Dram, strideV: int, kvOffset: int, seqlenK: int, warp: int) returns (regs: VRegs)
    ensures AllGuarded(regs, v, strideV, kvOffset, seqlenK, warp)
  {
    hide GuardedB64, Elem, Expected, VLaneRow, VLaneCol;
    regs := VRegs(
      seq(64, lane => GuardedB64(v, strideV, seqlenK, kvOffset + VLaneRow(lane, warp), VLaneCol(lane))),
      seq(64, lane => GuardedB64(v, strideV, seqlenK, kvOffset + (VLaneRow(lane, warp) + 1), VLaneCol(lane))));
    forall lane | 0 <= lane < 64
      ensures LaneGuarded(regs.even[lane], regs.odd[lane], v, strideV, kvOffset, seqlenK, warp, lane) {
      forall c | 0 <= c < 4
        ensures Elem(regs.even[lane], c) == Expected(v, strideV, kvOffset, seqlenK,
            Place(VLaneRow(lane, warp), VLaneCol(lane) + c))
        ensures Elem(regs.odd[lane], c)
             == Expected(v, strideV, kvOffset, seqlenK, Place(VLaneRow(lane, warp) + 1, VLaneCol(lane) + c)) {
        GuardedElem(v, strideV, kvOffset, seqlenK, VLaneRow(lane, warp), VLaneCol(lane), c);
        GuardedElem(v, strideV, kvOffset, seqlenK, VLaneRow(lane, warp) + 1, VLaneCol(lane), c);
      }
    }
  }

  lemma GuardedRegElem(regs: VRegs, v: Dram, strideV: int, kvOffset: int, seqlenK: int, warp: int, x: int)
    requires 0 <= warp < 4 && AllGuarded(regs, v, strideV, kvOffset, seqlenK, warp) && VUsed(x) && x / 576 == warp
    ensures RegElem(regs, x) == Expected(v, strideV, kvOffset, seqlenK, VPlace(2304 + x))
  {
    hide VUsed, VCellRow, VCellCol, VRegCell, VLaneRow, VLaneCol, VCellLane, VCellDword, Elem, Expected;
    var lane, c := VCellLane(x), VCellDword(x);
    VCellHasRegister(x);
    VRegCellInverse(warp, lane, c, x % 2);
    assert 2304 + x - 2304 == x;
    assert VPlace(2304 + x) == Place(VCellRow(x), VCellCol(x));
    hide VPlace;
    assert LaneGuarded(regs.even[lane], regs.odd[lane], v, strideV, kvOffset, seqlenK, warp, lane);
  }

  /** The slabs of the warps before warp hold their elements, everything else zero. */
  ghost predicate SlabsUpTo(a: array<bv16>, v: Dram, strideV: int, kvOffset: int, seqlenK: int, warp: int)
    reads a
  {
    && a.Length == 8192
    && forall e :: 0 <= e < 8192 ==>
         a[e] == if VUsed(e - 2304) && (e - 2304) / 576 < warp then Expected(v, strideV, kvOffset, seqlenK, VPlace(e))
           else 0
  }

  method StageSlab(smem: array<bv16>, v: Dram, strideV: int, kvOffset: int, seqlenK: int, warp: int)
    requires 0 <= warp < 4 && SlabsUpTo(smem, v, strideV, kvOffset, seqlenK, warp)
    modifies smem
    ensures SlabsUpTo(smem, v, strideV, kvOffset, seqlenK, warp + 1)
  {
    var regs := GuardedLoadV(v, strideV, kvOffset, seqlenK, warp);
    hide VUsed, VPlace, RegElem, Expected, LaneGuarded;
    StoreVToLds(smem, regs, 1, warp);
    forall e | 0 <= e < 8192
      ensures smem[e] == if VUsed(e - 2304) && (e - 2304) / 576 < warp + 1
                         then Expected(v, strideV, kvOffset, seqlenK, VPlace(e)) else 0 {
      assert e - BufBase(1) == e - 2304;
      if VUsed(e - 2304) && (e - 2304) / 576 == warp {
        GuardedRegElem(regs, v, strideV, kvOffset, seqlenK, warp, e - 2304);
        assert 2304 + (e - 2304) == e;
      }
    }
  }

  lemma SlabsBelowFour(e: int)
    ensures VUsed(e) ==> 0 <= e / 576 < 4
  {
  }

  /** test_v_lds_kernel: zero, load with the rows guarded, transpose and store, dump; the oracle's image. */
  method TestVLds(v: Dram, strideV: int, kvOffset: int, seqlenK: int, out: array<bv16>)
    requires out.Length == 8192
    modifies out
    ensures IsImage(out, VPlace, v, strideV, kvOffset, seqlenK)
  {
    var smem := new bv16[8192];
    ZeroFill(smem);
    forall e ensures VUsed(e) ==> 0 <= e / 576 < 4 {
      SlabsBelowFour(e);
    }
    assert forall e :: !VUsed(e - 2304) ==> Expected(v, strideV, kvOffset, seqlenK, VPlace(e)) == 0;
    hide VUsed, VPlace, Expected;
    assert SlabsUpTo(smem, v, strideV, kvOffset, seqlenK, 0);
    for warp := 0 to 4
      invariant SlabsUpTo(smem, v, strideV, kvOffset, seqlenK, warp)
    {
      StageSlab(smem, v, strideV, kvOffset, seqlenK, warp);
    }
    forall e | 0 <= e < 8192 {
      out[e] := smem[e];
    }
  }

  /** Kernel and oracle leave the same image, cell by cell. */
  lemma SameImage(a: array<bv16>, b: array<bv16>, place: int -> Place, m: Dram, stride: int, kvOffset: int,
                  seqlenK: int)
    requires IsImage(a, place, m, stride, kvOffset, seqlenK) && IsImage(b, place, m, stride, kvOffset, seqlenK)
    ensures a[..] == b[..]
  {
    hide Expected;
  }
}
