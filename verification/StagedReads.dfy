/** The LDS protocol carrying data: what a GEMM sub-tile reads through the padded layout, in any interleaving. */
module StagedReads {
  import opened Layout
  import opened Staging
  import opened LdsProtocol
  import opened LdsSafety

  /** The tensors of one (batch, head), and whatever unstaged cells hold. */
  datatype Tensors = Tensors(k: Dram, strideK: int, v: Dram, strideV: int, junk: int -> bv16)

  type Memory = (int, int) -> bv16

  /** Which copy issue, or which LDS write, fills a cell: the layout of the staging functions. */
  function KernelGeometry(): Geometry {
    Geometry(
      e => if KUsed(e) then KSlot(KCellWarp(e), KCellIssue(e)) else NoK,
      e => if VUsed(e) then VSlot(e / 576, VCellDword(e) / 2, e % 2) else NoV)
  }

  /** The element that a staged cell holds. */
  function Content(x: Tensors, tag: Tag, e: int): bv16 {
    match tag
    case Junk => x.junk(e)
    case KTag(tile, half) => KHalfElem(x.k, x.strideK, 64 * tile, 32 * half, e)
    case VTag(tile, half) => At(x.v, x.strideV, 64 * tile + 32 * half + VCellRow(e), VCellCol(e))
  }

  /** The data side of a step: a K copy that lands, an LDS write that lands. */
  function ApplyData(x: Tensors, mem: Memory, step: Step): Memory {
    match step
    case Land(w, CopyK(tile, half, issue)) =>
      (b, e) => if b == KBuf(half) && KIssued(w, issue, e) then KHalfElem(x.k, x.strideK, 64 * tile, 32 * half, e)
        else mem(b, e)
    case Write(w, d) =>
      (b, e) => if b == VBuf(d.half) && VWritten(w, d.write, e) then Content(x, if e % 2 == 0 then d.low else d.high, e)
                else mem(b, e)
    case _ => mem
  }

  /** Every tagged cell holds the element its tag stands for. */
  ghost predicate Filled(x: Tensors, lds: (int, int) -> Tag, mem: Memory) {
    forall b, e :: lds(b, e) != Junk ==> mem(b, e) == Content(x, lds(b, e), e)
  }

  ghost predicate DataStep(x: Tensors, numTiles: int, s: State, mem: Memory, s': State, mem': Memory) {
    exists step :: Enabled(s, step) && s' == Apply(KernelGeometry(), numTiles, s, step)
      && mem' == ApplyData(x, mem, step)
  }

  /** A run together with the memory after each of its steps; nothing is staged at the start. */
  ghost predicate IsDataRun(x: Tensors, numTiles: int, run: seq<State>, mems: seq<Memory>) {
    && |run| == |mems| > 0 && Init(run[0])
    && (forall b, e :: run[0].lds(b, e) == Junk)
    && forall i :: 0 <= i < |run| - 1 ==> DataStep(x, numTiles, run[i], mems[i], run[i + 1], mems[i + 1])
  }

  /** The geometry says of each cell which issue, and which write, fills it. */
  lemma GeometryMatches(w: int, i: int, pair: int, e: int)
    ensures KernelGeometry().k(e) == KSlot(w, i) <==> KIssued(w, i, e)
    ensures KernelGeometry().v(e) == VSlot(w, pair, 0) <==> VWritten(w, pair, e) && e % 2 == 0
    ensures KernelGeometry().v(e) == VSlot(w, pair, 1) <==> VWritten(w, pair, e) && e % 2 == 1
  {
    hide KUsed, KCellWarp, KCellIssue, VUsed, VCellDword;
  }

  lemma StepFills(x: Tensors, numTiles: int, s: State, mem: Memory, step: Step)
    requires Enabled(s, step) && Filled(x, s.lds, mem)
    ensures Filled(x, Apply(KernelGeometry(), numTiles, s, step).lds, ApplyData(x, mem, step))
  {
    hide AdvanceWarp, ReleaseWarp, LandWarp, RetireWarp;
    var g, lds' := KernelGeometry(), Apply(KernelGeometry(), numTiles, s, step).lds;
    var mem' := ApplyData(x, mem, step);
    forall b, e | lds'(b, e) != Junk ensures mem'(b, e) == Content(x, lds'(b, e), e) {
      match step
      case Land(w, op) =>
        if op.CopyK? {
          GeometryMatches(w, op.issue, 0, e);
          hide KernelGeometry, KHalfElem, KIssued;
        }
      case Write(w, d) =>
        GeometryMatches(w, 0, d.write, e);
        hide KernelGeometry, Content, VWritten;
      case _ =>
    }
  }

  lemma {:induction false} RunFills(x: Tensors, numTiles: int, run: seq<State>, mems: seq<Memory>, i: nat)
    requires IsDataRun(x, numTiles, run, mems) && i < |run|
    ensures Filled(x, run[i].lds, mems[i])
  {
    hide Filled, Enabled, Apply, ApplyData, Init;
    if i == 0 {
      UnstagedIsFilled(x, run[0].lds, mems[0]);
    } else {
      RunFills(x, numTiles, run, mems, i - 1);
      assert DataStep(x, numTiles, run[i - 1], mems[i - 1], run[i - 1 + 1], mems[i - 1 + 1]);
      var step :| Enabled(run[i - 1], step) && run[i] == Apply(KernelGeometry(), numTiles, run[i - 1], step)
               && mems[i] == ApplyData(x, mems[i - 1], step);
      StepFills(x, numTiles, run[i - 1], mems[i - 1], step);
    }
  }

  lemma UnstagedIsFilled(x: Tensors, lds: (int, int) -> Tag, mem: Memory)
    requires forall b, e :: lds(b, e) == Junk
    ensures Filled(x, lds, mem)
  {
  }

  lemma DataRunIsRun(x: Tensors, numTiles: int, run: seq<State>, mems: seq<Memory>)
    requires IsDataRun(x, numTiles, run, mems)
    ensures IsRun(KernelGeometry(), numTiles, run)
  {
    hide Enabled, Apply, ApplyData, Init;
    forall i | 0 <= i < |run| - 1 ensures Next(KernelGeometry(), numTiles, run[i], run[i + 1]) {
      assert DataStep(x, numTiles, run[i], mems[i], run[i + 1], mems[i + 1]);
    }
  }

  /** In every state of every run, whatever the interleaving of warps, copies and writes: the GEMM0 and GEMM1
      sub-tiles read, at the offsets they compute, the elements of the current tile's K or V half. */
  lemma ReadsAreRight(x: Tensors, numTiles: int, run: seq<State>, mems: seq<Memory>, i: nat, w: int)
    requires numTiles > 0 && IsDataRun(x, numTiles, run, mems) && i < |run| && 0 <= w < WARPS
    ensures |run[i].warps| == WARPS
    ensures var p, mem := run[i].warps[w].at, mems[i];
      && (forall j, d :: p.pc.Gemm00? && 0 <= j < 64 && 0 <= d < 32 ==>
            mem(LDS_SEQ[0], LdsElemOffset(j, d)) == At(x.k, x.strideK, 64 * p.tile + j, d))
      && (forall j, d :: p.pc.Gemm01? && 0 <= j < 64 && 0 <= d < 32 ==>
            mem(LDS_SEQ[1], LdsElemOffset(j, d)) == At(x.k, x.strideK, 64 * p.tile + j, 32 + d))
      && (forall n, d :: p.pc.Gemm10? && 0 <= n < 32 && 0 <= d < 64 ==>
            mem(LDS_SEQ[2], VLdsElemOffset(n, d)) == At(x.v, x.strideV, 64 * p.tile + n, d))
      && (forall n, d :: p.pc.Gemm11? && 0 <= n < 32 && 0 <= d < 64 ==>
            mem(LDS_SEQ[3], VLdsElemOffset(n, d)) == At(x.v, x.strideV, 64 * p.tile + 32 + n, d))
  {
    hide IsDataRun, IsRun, KernelGeometry, Content, Inv, Filled, LdsElemOffset, VLdsElemOffset, At;
    assert |run| == |mems| && i < |mems| by {
      SameLength(x, numTiles, run, mems);
    }
    DataRunIsRun(x, numTiles, run, mems);
    RunInv(KernelGeometry(), numTiles, run, i);
    RunFills(x, numTiles, run, mems, i);
    var s, mem := run[i], mems[i];
    assert |s.warps| == WARPS by {
      WarpCount(numTiles, s);
    }
    forall j, d | 0 <= j < 64 && 0 <= d < 32
      ensures s.warps[w].at.pc.Gemm00? ==>
                mem(LDS_SEQ[0], LdsElemOffset(j, d)) == At(x.k, x.strideK, 64 * s.warps[w].at.tile + j, d)
      ensures s.warps[w].at.pc.Gemm01? ==>
                mem(LDS_SEQ[1], LdsElemOffset(j, d)) == At(x.k, x.strideK, 64 * s.warps[w].at.tile + j, 32 + d) {
      KReadIsRight(x, numTiles, s, mem, w, j, d);
    }
    forall n, d | 0 <= n < 32 && 0 <= d < 64
      ensures s.warps[w].at.pc.Gemm10? ==>
                mem(LDS_SEQ[2], VLdsElemOffset(n, d)) == At(x.v, x.strideV, 64 * s.warps[w].at.tile + n, d)
      ensures s.warps[w].at.pc.Gemm11? ==>
                mem(LDS_SEQ[3], VLdsElemOffset(n, d)) == At(x.v, x.strideV, 64 * s.warps[w].at.tile + 32 + n, d) {
      VReadIsRight(x, numTiles, s, mem, w, n, d);
    }
  }

  lemma SameLength(x: Tensors, numTiles: int, run: seq<State>, mems: seq<Memory>)
    requires IsDataRun(x, numTiles, run, mems)
    ensures |run| == |mems|
  {
  }

  lemma WarpCount(numTiles: int, s: State)
    requires Inv(KernelGeometry(), numTiles, s)
    ensures |s.warps| == WARPS
  {
  }

  /** The cells of a K half while it is being read. */
  lemma KCellIsRight(x: Tensors, numTiles: int, s: State, mem: Memory, w: int, e: int)
    requires Inv(KernelGeometry(), numTiles, s) && Filled(x, s.lds, mem) && 0 <= w < WARPS && |s.warps| == WARPS
        && KUsed(e)
    ensures var p := s.warps[w].at;
      && (p.pc.Gemm00? ==> mem(LDS_SEQ[0], e) == KHalfElem(x.k, x.strideK, 64 * p.tile, 0, e))
      && (p.pc.Gemm01? ==> mem(LDS_SEQ[1], e) == KHalfElem(x.k, x.strideK, 64 * p.tile, 32, e))
  {
    hide KernelGeometry, KUsed, KCellWarp, KCellIssue, Inv, KHalfElem;
    KSlotOf(e);
    KReadIsIntact(KernelGeometry(), numTiles, s, w, KernelGeometry().k(e).warp, e);
  }

  lemma KSlotOf(e: int)
    requires KUsed(e)
    ensures KernelGeometry().k(e).KSlot? && 0 <= KernelGeometry().k(e).warp < 4 && 0 <= KernelGeometry().k(e).issue < 4
  {
    hide KUsed, KCellWarp, KCellIssue, KCellRow, KCellCol, KCellLane;
    KCellDecomposes(e);
  }

  lemma KReadIsRight(x: Tensors, numTiles: int, s: State, mem: Memory, w: int, j: int, d: int)
    requires Inv(KernelGeometry(), numTiles, s) && Filled(x, s.lds, mem) && 0 <= w < WARPS && |s.warps| == WARPS
    requires 0 <= j < 64 && 0 <= d < 32
    ensures var p := s.warps[w].at;
      && (p.pc.Gemm00? ==> mem(LDS_SEQ[0], LdsElemOffset(j, d)) == At(x.k, x.strideK, 64 * p.tile + j, d))
      && (p.pc.Gemm01? ==> mem(LDS_SEQ[1], LdsElemOffset(j, d)) == At(x.k, x.strideK, 64 * p.tile + j, 32 + d))
  {
    hide LdsElemOffset, KUsed, KCellRow, KCellCol, KCellWarp, KCellIssue, Inv, Filled, At, KernelGeometry;
    var e := LdsElemOffset(j, d);
    assert KUsed(e) && KCellRow(e) == j && KCellCol(e) == d by {
      KOffsetInverse(j, d);
    }
    KCellIsRight(x, numTiles, s, mem, w, e);
  }

  /** The cells of a V half while it is being read. */
  lemma VCellIsRight(x: Tensors, numTiles: int, s: State, mem: Memory, w: int, e: int)
    requires Inv(KernelGeometry(), numTiles, s) && Filled(x, s.lds, mem) && 0 <= w < WARPS && |s.warps| == WARPS
        && VUsed(e)
    ensures var p := s.warps[w].at;
      && (p.pc.Gemm10? ==> mem(LDS_SEQ[2], e) == At(x.v, x.strideV, 64 * p.tile + VCellRow(e), VCellCol(e)))
      && (p.pc.Gemm11? ==> mem(LDS_SEQ[3], e) == At(x.v, x.strideV, 64 * p.tile + 32 + VCellRow(e), VCellCol(e)))
  {
    hide KernelGeometry, VUsed, VCellDword, VCellRow, VCellCol, Inv, At;
    VSlotOf(e);
    VReadIsIntact(KernelGeometry(), numTiles, s, w, KernelGeometry().v(e).warp, e);
  }

  lemma VSlotOf(e: int)
    requires VUsed(e)
    ensures KernelGeometry().v(e).VSlot? && 0 <= KernelGeometry().v(e).warp < 4
    ensures 0 <= KernelGeometry().v(e).write < 2 && 0 <= KernelGeometry().v(e).k3 < 2
  {
    hide VUsed, VCellDword, VCellLane, VRegCell;
    VCellHasRegister(e);
  }

  lemma VReadIsRight(x: Tensors, numTiles: int, s: State, mem: Memory, w: int, n: int, d: int)
    requires Inv(KernelGeometry(), numTiles, s) && Filled(x, s.lds, mem) && 0 <= w < WARPS && |s.warps| == WARPS
    requires 0 <= n < 32 && 0 <= d < 64
    ensures var p := s.warps[w].at;
      && (p.pc.Gemm10? ==> mem(LDS_SEQ[2], VLdsElemOffset(n, d)) == At(x.v, x.strideV, 64 * p.tile + n, d))
      && (p.pc.Gemm11? ==> mem(LDS_SEQ[3], VLdsElemOffset(n, d)) == At(x.v, x.strideV, 64 * p.tile + 32 + n, d))
  {
    hide VLdsElemOffset, VUsed, VCellRow, VCellCol, Inv, Filled, At, KernelGeometry;
    var e := VLdsElemOffset(n, d);
    VOffsetInverse(n, d);
    VCellIsRight(x, numTiles, s, mem, w, e);
  }

  // ---- the sub-tiles' preconditions ----

  /** The block's LDS as the readers address it: three buffers of 2304 elements. */
  function Image(mem: Memory): (image: seq<bv16>)
    ensures |image| == 6912
  {
    seq(6912, e => mem(e / 2304, e % 2304))
  }

  lemma ImageCell(mem: Memory, buf: int, e: int)
    requires 0 <= buf < 3 && 0 <= e < 2304
    ensures CellAt(Image(mem), BufBase(buf) + e) == mem(buf, e)
  {
    DivMod(BufBase(buf) + e, 2304, buf, e);
  }

  lemma KOffsetBelow(j: int, d: int)
    requires 0 <= j < 64 && 0 <= d < 32
    ensures 0 <= LdsElemOffset(j, d) < 2304
  {
    hide KCellRow, KCellCol, KCellWarp, KCellIssue;
    KOffsetInverse(j, d);
  }

  lemma VOffsetBelow(n: int, d: int)
    requires 0 <= n < 32 && 0 <= d < 64
    ensures 0 <= VLdsElemOffset(n, d) < 2304
  {
    hide VCellRow, VCellCol;
    VOffsetInverse(n, d);
  }

  lemma KImage(mem: Memory, buf: int, k: Dram, strideK: int, kvOffset: int, col: int)
    requires 0 <= buf < 3
    requires forall j, d :: 0 <= j < 64 && 0 <= d < 32 ==>
        mem(buf, LdsElemOffset(j, d)) == At(k, strideK, kvOffset + j, col + d)
    ensures KStaged(Image(mem), buf, k, strideK, kvOffset, col)
  {
    hide LdsElemOffset, At, BufBase, Image, CellAt;
    forall j, d | 0 <= j < 64 && 0 <= d < 32
      ensures CellAt(Image(mem), BufBase(buf) + LdsElemOffset(j, d)) == mem(buf, LdsElemOffset(j, d)) {
      KOffsetBelow(j, d);
      ImageCell(mem, buf, LdsElemOffset(j, d));
    }
  }

  lemma VImage(mem: Memory, buf: int, v: Dram, strideV: int, kvOffset: int)
    requires 0 <= buf < 3
    requires forall n, d :: 0 <= n < 32 && 0 <= d < 64 ==>
        mem(buf, VLdsElemOffset(n, d)) == At(v, strideV, kvOffset + n, d)
    ensures VStaged(Image(mem), buf, v, strideV, kvOffset)
  {
    hide VLdsElemOffset, At, BufBase, Image, CellAt;
    forall n, d | 0 <= n < 32 && 0 <= d < 64
      ensures CellAt(Image(mem), BufBase(buf) + VLdsElemOffset(n, d)) == mem(buf, VLdsElemOffset(n, d)) {
      VOffsetBelow(n, d);
      ImageCell(mem, buf, VLdsElemOffset(n, d));
    }
  }

  /** In every state of every run, the memory in front of a sub-tile satisfies what the wave-level sub-tile asks
      for: both K halves of the current tile at GEMM0, both V halves at GEMM1. So following one wave with all four
      warps' shares in place, as the pipeline model does, is what any interleaving amounts to. */
  lemma SubtilesAreStaged(x: Tensors, numTiles: int, run: seq<State>, mems: seq<Memory>, i: nat, w: int)
    requires numTiles > 0 && IsDataRun(x, numTiles, run, mems) && i < |run| && 0 <= w < WARPS
    ensures |run[i].warps| == WARPS && i < |mems|
    ensures var p, image := run[i].warps[w].at, Image(mems[i]);
      && (p.pc.Gemm00? ==> KStaged(image, LDS_SEQ[0], x.k, x.strideK, 64 * p.tile, 0))
      && (p.pc.Gemm01? ==> KStaged(image, LDS_SEQ[1], x.k, x.strideK, 64 * p.tile, 32))
      && (p.pc.Gemm10? ==> VStaged(image, LDS_SEQ[2], x.v, x.strideV, 64 * p.tile))
      && (p.pc.Gemm11? ==> VStaged(image, LDS_SEQ[3], x.v, x.strideV, 64 * p.tile + 32))
  {
    SameLength(x, numTiles, run, mems);
    hide IsDataRun, LdsElemOffset, VLdsElemOffset, At, Image, KStaged, VStaged;
    ReadsAreRight(x, numTiles, run, mems, i, w);
    var p, mem := run[i].warps[w].at, mems[i];
    match p.pc
    case Gemm00 => KImage(mem, LDS_SEQ[0], x.k, x.strideK, 64 * p.tile, 0);
    case Gemm01 => KImage(mem, LDS_SEQ[1], x.k, x.strideK, 64 * p.tile, 32);
    case Gemm10 => VImage(mem, LDS_SEQ[2], x.v, x.strideV, 64 * p.tile);
    case Gemm11 => VImage(mem, LDS_SEQ[3], x.v, x.strideV, 64 * p.tile + 32);
    case _ =>
  }
}
