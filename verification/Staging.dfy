/** Moving K and V tiles from DRAM into padded LDS buffers, in bf16 elements.
    DRAM is a total map from element address to element: rows past a sequence read whatever lies there. */
module Staging {
  import opened Layout

  type Dram = int -> bv16

  /** The two dwords of a b64 register pair. */
  datatype V2i = V2i(lo: bv32, hi: bv32)

  /** What one warp's lanes load of a V half: the even and the odd row of each lane's pair of rows. */
  datatype VRegs = VRegs(even: seq<V2i>, odd: seq<V2i>)

  function ElemIndex(stride: int, row: int, col: int): int {
    row * stride + col
  }

  /** Element (row, col) of a row-major matrix. */
  function At(m: Dram, stride: int, row: int, col: int): bv16 {
    m(ElemIndex(stride, row, col))
  }

  /** At least three buffers of 2304 elements. */
  predicate IsLds(lds: array<bv16>) {
    lds.Length >= 6912
  }

  // ---- dwords ----

  function Low(x: bv32): bv16 {
    (x & 0xFFFF) as bv16
  }

  function High(x: bv32): bv16 {
    (x >> 16) as bv16
  }

  function Pack(lo: bv16, hi: bv16): bv32 {
    ((hi as bv32) << 16) | (lo as bv32)
  }

  function ByteOf(x: bv32, i: int): bv32 {
    if i == 0 then x & 0xFF
    else if i == 1 then (x >> 8) & 0xFF
    else if i == 2 then (x >> 16) & 0xFF
    else (x >> 24) & 0xFF
  }

  /** One selected byte of v_perm_b32: 0 to 3 take a byte of b, 4 to 7 a byte of a. */
  function PermByte(a: bv32, b: bv32, s: int): bv32 {
    if s < 4 then ByteOf(b, s) else ByteOf(a, s - 4)
  }

  function Word(b3: bv32, b2: bv32, b1: bv32, b0: bv32): bv32 {
    (b3 << 24) | (b2 << 16) | (b1 << 8) | b0
  }

  /** v_perm_b32, its selector given as four byte numbers, the highest byte first. */
  function Perm(a: bv32, b: bv32, s3: int, s2: int, s1: int, s0: int): bv32 {
    Word(PermByte(a, b, s3), PermByte(a, b, s2), PermByte(a, b, s1), PermByte(a, b, s0))
  }

  lemma PackParts(lo: bv16, hi: bv16)
    ensures Low(Pack(lo, hi)) == lo && High(Pack(lo, hi)) == hi
  {
  }

  lemma LowBytes(hi: bv32, lo: bv32)
    ensures Word((hi >> 8) & 0xFF, hi & 0xFF, (lo >> 8) & 0xFF, lo & 0xFF) == Pack(Low(lo), Low(hi))
  {
  }

  lemma HighBytes(hi: bv32, lo: bv32)
    ensures Word((hi >> 24) & 0xFF, (hi >> 16) & 0xFF, (lo >> 24) & 0xFF, (lo >> 16) & 0xFF) == Pack(High(lo), High(hi))
  {
  }

  /** The two V selectors pair the low, respectively the high, halves of their sources. */
  lemma PermPairs(a: bv32, b: bv32)
    ensures Perm(a, b, 1, 0, 5, 4) == Pack(Low(a), Low(b))
    ensures Perm(a, b, 3, 2, 7, 6) == Pack(High(a), High(b))
  {
    LowBytes(b, a);
    HighBytes(b, a);
  }

  /** The packing selector of GEMM1 and of the epilogue keeps the high halves of two floats. */
  lemma PermTruncates(u1: bv32, u0: bv32)
    ensures Perm(u1, u0, 7, 6, 3, 2) == Pack(High(u0), High(u1))
  {
    HighBytes(u1, u0);
  }

  // ---- K: asynchronous copies straight into LDS ----

  /** Headdim, within the half, and row of the first issue that a lane copies. */
  function KLaneCol(lane: int): int {
    (lane % 16) * 2
  }

  function KLaneRow(lane: int, warp: int): int {
    (lane / 16) * 4 + warp
  }

  /** The element a lane's dword of an issue holds, and the one a whole K half is made of. */
  function KHalfElem(k: Dram, strideK: int, kvOffset: int, col: int, e: int): bv16 {
    At(k, strideK, kvOffset + KCellRow(e), col + KCellCol(e))
  }

  /** One buffer_load ... lds: each of the 64 lanes moves one dword to m0 + 4 * lane (byte addresses). */
  method BufferLoadLds(lds: array<bv16>, m: Dram, voffset: seq<int>, m0: int)
    requires IsLds(lds) && |voffset| == 64 && m0 % 4 == 0 && 0 <= m0 && m0 / 2 + 128 <= 6912
    modifies lds
    ensures forall e :: 0 <= e < lds.Length ==>
              lds[e] == if m0 / 2 <= e < m0 / 2 + 128
                        then m(voffset[(e - m0 / 2) / 2] / 2 + (e - m0 / 2) % 2)
                        else old(lds[e])
  {
    var cell := m0 / 2;
    forall i | 0 <= i < 128 {
      lds[cell + i] := m(voffset[i / 2] / 2 + i % 2);
    }
  }

  /** A step of the running byte offset is 16 rows. */
  lemma RowStep(stride: int, row: int, col: int, n: int)
    ensures 2 * ElemIndex(stride, row, col) + n * (stride * 2) == 2 * ElemIndex(stride, row + n, col)
  {
  }

  lemma RowsAndColumn(stride: int, row: int, n: int, col: int, byteBase: int)
    requires byteBase == 2 * ElemIndex(stride, row, 0)
    ensures byteBase + n * (stride * 2) + col * 2 == 2 * ElemIndex(stride, row + n, col)
  {
  }

  /** The dwords of one issue, seen from the cells. */
  lemma KIssueCells(warp: int, issue: int, e: int)
    requires 0 <= warp < 4 && 0 <= issue < 4
    ensures var first := 136 * warp + 544 * issue;
      && (KUsed(e) && KCellWarp(e) == warp && KCellIssue(e) == issue <==> first <= e < first + 128)
      && (first <= e < first + 128 ==>
            var lane := (e - first) / 2;
            && KCellRow(e) == 16 * issue + KLaneRow(lane, warp)
            && KCellCol(e) == KLaneCol(lane) + (e - first) % 2)
  {
    hide KUsed, KCellWarp, KCellIssue, KCellLane, KCellRow, KCellCol;
    var first := 136 * warp + 544 * issue;
    if KUsed(e) && KCellWarp(e) == warp && KCellIssue(e) == issue {
      KCellDecomposes(e);
    }
    if first <= e < first + 128 {
      KIssueElement(warp, issue, e - first);
    }
  }

  lemma KIssueElement(warp: int, issue: int, x: int)
    requires 0 <= warp < 4 && 0 <= issue < 4 && 0 <= x < 128
    ensures var e := 136 * warp + 544 * issue + x;
      && KUsed(e) && KCellWarp(e) == warp && KCellIssue(e) == issue
      && KCellRow(e) == 16 * issue + KLaneRow(x / 2, warp)
      && KCellCol(e) == KLaneCol(x / 2) + x % 2
  {
    hide KUsed, KCellWarp, KCellIssue, KCellLane;
    KCellOf(issue, warp, x);
  }

  /** The cells that one issue of one warp fills. */
  predicate KIssued(warp: int, issue: int, e: int) {
    KUsed(e) && KCellWarp(e) == warp && KCellIssue(e) == issue
  }

  /** Where the lanes of one issue read: the rows of that issue, two columns each. */
  ghost predicate KOffsets(voffset: seq<int>, strideK: int, row: int, col: int, warp: int) {
    && |voffset| == 64
    && forall lane :: 0 <= lane < 64 ==>
         voffset[lane] == 2 * ElemIndex(strideK, row + KLaneRow(lane, warp), col + KLaneCol(lane))
  }

  lemma KIssueElem(k: Dram, strideK: int, kvOffset: int, col: int, warp: int, issue: int, voffset: seq<int>, e: int)
    requires 0 <= warp < 4 && 0 <= issue < 4 && KOffsets(voffset, strideK, kvOffset + 16 * issue, col, warp)
    ensures var first := 136 * warp + 544 * issue;
      && (KIssued(warp, issue, e) <==> first <= e < first + 128)
      && (first <= e < first + 128 ==>
            k(voffset[(e - first) / 2] / 2 + (e - first) % 2) == KHalfElem(k, strideK, kvOffset, col, e))
  {
    KIssueCells(warp, issue, e);
  }

  /** One issue of one warp's share of a K half. */
  method KIssue(lds: array<bv16>, k: Dram, ghost strideK: int, ghost kvOffset: int, ghost col: int,
                voffset: seq<int>, m0: int, ghost buf: int, ghost warp: int, ghost issue: int)
    requires IsLds(lds) && 0 <= buf < 3 && 0 <= warp < 4 && 0 <= issue < 4
    requires m0 == buf * 4608 + warp * 0x110 + issue * 0x440
    requires KOffsets(voffset, strideK, kvOffset + 16 * issue, col, warp)
    modifies lds
    ensures forall e :: 0 <= e < lds.Length ==>
              lds[e] == if KIssued(warp, issue, e - BufBase(buf))
                        then KHalfElem(k, strideK, kvOffset, col, e - BufBase(buf))
                        else old(lds[e])
  {
    ghost var first := 136 * warp + 544 * issue;
    assert m0 / 2 == BufBase(buf) + first;
    BufferLoadLds(lds, k, voffset, m0);
    forall e | 0 <= e < lds.Length
      ensures lds[e] == if KIssued(warp, issue, e - BufBase(buf))
                        then KHalfElem(k, strideK, kvOffset, col, e - BufBase(buf))
                        else old(lds[e]) {
      KIssueElem(k, strideK, kvOffset, col, warp, issue, voffset, e - BufBase(buf));
    }
  }

  /** The next issue reads 16 rows further down. */
  lemma NextOffsets(voffset: seq<int>, next: seq<int>, strideK: int, row: int, col: int, warp: int)
    requires KOffsets(voffset, strideK, row, col, warp)
    requires |next| == 64 && forall lane :: 0 <= lane < 64 ==> next[lane] == voffset[lane] + 16 * (strideK * 2)
    ensures KOffsets(next, strideK, row + 16, col, warp)
  {
    forall lane | 0 <= lane < 64
      ensures next[lane] == 2 * ElemIndex(strideK, row + 16 + KLaneRow(lane, warp), col + KLaneCol(lane)) {
      RowStep(strideK, row + KLaneRow(lane, warp), col + KLaneCol(lane), 16);
    }
  }

  lemma FirstOffsets(voffset: seq<int>, strideK: int, row: int, col: int, warp: int, byteBase: int)
    requires byteBase == 2 * ElemIndex(strideK, row, 0) && |voffset| == 64
    requires forall lane :: 0 <= lane < 64 ==>
      voffset[lane] == byteBase + KLaneRow(lane, warp) * (strideK * 2) + (col + KLaneCol(lane)) * 2
    ensures KOffsets(voffset, strideK, row, col, warp)
  {
    forall lane | 0 <= lane < 64
      ensures voffset[lane] == 2 * ElemIndex(strideK, row + KLaneRow(lane, warp), col + KLaneCol(lane)) {
      RowsAndColumn(strideK, row, KLaneRow(lane, warp), col + KLaneCol(lane), byteBase);
    }
  }

  /** One warp's share of a K half: four issues, 16 rows apart. */
  method AsyncCopyKSubtile(lds: array<bv16>, k: Dram, strideK: int, ghost kvOffset: int, kvByteBase: int,
                           kColOffset: int, buf: int, warp: int)
    requires IsLds(lds) && 0 <= buf < 3 && 0 <= warp < 4
    requires kvByteBase == 2 * ElemIndex(strideK, kvOffset, 0)
    modifies lds
    ensures forall e :: 0 <= e < lds.Length ==>
              lds[e] == if KUsed(e - BufBase(buf)) && KCellWarp(e - BufBase(buf)) == warp
                        then KHalfElem(k, strideK, kvOffset, kColOffset, e - BufBase(buf))
                        else old(lds[e])
  {
    var strideBytes := strideK * 2;
    var m0Base := buf * 4608 + warp * 0x110;
    var voffset := seq(64, lane => kvByteBase + KLaneRow(lane, warp) * strideBytes + (kColOffset + KLaneCol(lane)) * 2);
    FirstOffsets(voffset, strideK, kvOffset, kColOffset, warp, kvByteBase);
    hide KOffsets, KHalfElem, KUsed, KCellWarp, KLaneRow, KLaneCol;
    for issue := 0 to 4
      invariant KOffsets(voffset, strideK, kvOffset + 16 * issue, kColOffset, warp) && |voffset| == 64
      invariant forall e :: 0 <= e < lds.Length ==>
        lds[e] == if KUsed(e - BufBase(buf)) && KCellWarp(e - BufBase(buf)) == warp
          && KCellIssue(e - BufBase(buf)) < issue
                  then KHalfElem(k, strideK, kvOffset, kColOffset, e - BufBase(buf))
                  else old(lds[e])
    {
      var m0 := m0Base + issue * 0x440;
      KIssue(lds, k, strideK, kvOffset, kColOffset, voffset, m0, buf, warp, issue);
      var next := seq(64, lane requires 0 <= lane < 64 => voffset[lane] + 16 * strideBytes);
      NextOffsets(voffset, next, strideK, kvOffset + 16 * issue, kColOffset, warp);
      voffset := next;
    }
    forall e | KUsed(e) ensures KCellIssue(e) < 4 {
      KCellDecomposes(e);
    }
  }

  // ---- V: through registers, transposed in pairs of rows ----

  /** First row of the pair a lane loads, and first of its four columns. */
  function VLaneRow(lane: int, warp: int): int {
    warp * 8 + (lane % 4) * 2
  }

  function VLaneCol(lane: int): int {
    (lane / 4) * 4
  }

  /** One of the four elements of a b64 register pair. */
  function Elem(r: V2i, c: int): bv16 {
    if c == 0 then Low(r.lo) else if c == 1 then High(r.lo) else if c == 2 then Low(r.hi) else High(r.hi)
  }

  /** A b64 load from an even byte address. */
  function LoadB64(m: Dram, voffset: int): V2i {
    V2i(Pack(m(voffset / 2), m(voffset / 2 + 1)), Pack(m(voffset / 2 + 2), m(voffset / 2 + 3)))
  }

  lemma LoadedElem(m: Dram, i: int, c: int)
    requires 0 <= c < 4
    ensures Elem(LoadB64(m, 2 * i), c) == m(i + c)
  {
    PackParts(m(i), m(i + 1));
    PackParts(m(i + 2), m(i + 3));
  }

  /** A lane's registers hold its four columns of its two rows. */
  ghost predicate VLaneLoaded(even: V2i, odd: V2i, v: Dram, strideV: int, kvOffset: int, warp: int, lane: int) {
    forall c :: 0 <= c < 4 ==>
      && Elem(even, c) == At(v, strideV, kvOffset + VLaneRow(lane, warp), VLaneCol(lane) + c)
      && Elem(odd, c) == At(v, strideV, kvOffset + VLaneRow(lane, warp) + 1, VLaneCol(lane) + c)
  }

  ghost predicate VLoaded(regs: VRegs, v: Dram, strideV: int, kvOffset: int, warp: int) {
    && |regs.even| == |regs.odd| == 64
    && forall lane :: 0 <= lane < 64 ==>
         VLaneLoaded(regs.even[lane], regs.odd[lane], v, strideV, kvOffset, warp, lane)
  }

  lemma VLaneLoads(v: Dram, strideV: int, row: int, n: int, col: int, byteBase: int, c: int)
    requires byteBase == 2 * ElemIndex(strideV, row, 0) && 0 <= c < 4
    ensures var voff := byteBase + n * (strideV * 2) + col * 2;
      && Elem(LoadB64(v, voff), c) == At(v, strideV, row + n, col + c)
      && Elem(LoadB64(v, voff + strideV * 2), c) == At(v, strideV, row + n + 1, col + c)
  {
    RowsAndColumn(strideV, row, n, col, byteBase);
    RowStep(strideV, row + n, col, 1);
    LoadedElem(v, ElemIndex(strideV, row + n, col), c);
    LoadedElem(v, ElemIndex(strideV, row + n + 1, col), c);
  }

  /** Byte offset of a lane's first row. */
  function VOffset(kvByteBase: int, strideBytes: int, warp: int, lane: int): int {
    kvByteBase + VLaneRow(lane, warp) * strideBytes + VLaneCol(lane) * 2
  }

  lemma VLaneIsLoaded(v: Dram, strideV: int, kvOffset: int, kvByteBase: int, warp: int, lane: int, voff: int, odd: int)
    requires kvByteBase == 2 * ElemIndex(strideV, kvOffset, 0)
    requires voff == VOffset(kvByteBase, strideV * 2, warp, lane) && odd == voff + strideV * 2
    ensures VLaneLoaded(LoadB64(v, voff), LoadB64(v, odd), v, strideV, kvOffset, warp, lane)
  {
    hide Elem, LoadB64, VLaneRow, VLaneCol, At, ElemIndex;
    forall c | 0 <= c < 4
      ensures Elem(LoadB64(v, voff), c) == At(v, strideV, kvOffset + VLaneRow(lane, warp), VLaneCol(lane) + c)
      ensures Elem(LoadB64(v, odd), c) == At(v, strideV, kvOffset + VLaneRow(lane, warp) + 1, VLaneCol(lane) + c) {
      VLaneLoads(v, strideV, kvOffset, VLaneRow(lane, warp), VLaneCol(lane), kvByteBase, c);
    }
  }

  /** One warp's loads of a V half: 8 rows, two per lane. */
  method LoadVFromDram(v: Dram, strideV: int, ghost kvOffset: int, kvByteBase: int, warp: int) returns (regs: VRegs)
    requires kvByteBase == 2 * ElemIndex(strideV, kvOffset, 0)
    ensures VLoaded(regs, v, strideV, kvOffset, warp)
  {
    hide VOffset, VLaneLoaded, LoadB64, ElemIndex;
    var strideBytes := strideV * 2;
    var voff0 := seq(64, lane => VOffset(kvByteBase, strideBytes, warp, lane));
    regs := VRegs(seq(64, lane requires 0 <= lane < 64 => LoadB64(v, voff0[lane])),
                  seq(64, lane requires 0 <= lane < 64 => LoadB64(v, voff0[lane] + strideBytes)));
    forall lane | 0 <= lane < 64
      ensures VLaneLoaded(regs.even[lane], regs.odd[lane], v, strideV, kvOffset, warp, lane) {
      VLaneIsLoaded(v, strideV, kvOffset, kvByteBase, warp, lane, voff0[lane], voff0[lane] + strideBytes);
    }
  }

  /** The cell, within its buffer, of a lane's output dword c (of 4) and row parity k3. */
  function VRegCell(warp: int, lane: int, c: int, k3: int): int {
    576 * warp + 72 * (lane / 8) + 32 * ((lane / 4) % 2) + 2 * (lane % 4) + 8 * c + k3
  }

  function VCellLane(e: int): int {
    ((e % 576) / 72) * 8 + ((e % 72) / 32) * 4 + (e % 8) / 2
  }

  function VCellDword(e: int): int {
    ((e % 72) / 8) % 4
  }

  /** The cells a V slab is made of, digit by digit. */
  lemma VCellDigits(warp: int, a: int, h: int, c: int, k: int, k3: int)
    requires 0 <= warp < 4 && 0 <= a < 8 && 0 <= h < 2 && 0 <= c < 4 && 0 <= k < 4 && 0 <= k3 < 2
    ensures var e := 576 * warp + 72 * a + 32 * h + 8 * c + 2 * k + k3;
      && VUsed(e) && e / 576 == warp && e % 2 == k3
      && VCellLane(e) == 8 * a + 4 * h + k && VCellDword(e) == c
      && VCellRow(e) == 8 * warp + 2 * k + k3 && VCellCol(e) == 8 * a + 4 * h + c
  {
    hide VUsed, VCellRow, VCellCol, VCellLane, VCellDword, VLdsElemOffset;
    var x := 32 * h + 8 * c + 2 * k + k3;
    var e := 576 * warp + 72 * a + x;
    VCellAt(warp, 2 * k + k3, a, 4 * h + c);
    DivMod(e, 576, warp, 72 * a + x);
    DivMod(e, 2, 288 * warp + 36 * a + 16 * h + 4 * c + k, k3);
    VCellRegister(warp, a, h, c, 2 * k + k3);
  }

  lemma VCellRegister(warp: int, a: int, h: int, c: int, m: int)
    requires 0 <= warp < 4 && 0 <= a < 8 && 0 <= h < 2 && 0 <= c < 4 && 0 <= m < 8
    ensures var e := 576 * warp + 72 * a + 32 * h + 8 * c + m;
      VCellLane(e) == 8 * a + 4 * h + m / 2 && VCellDword(e) == c
  {
    var x := 32 * h + 8 * c + m;
    var e := 576 * warp + 72 * a + x;
    DivMod(e, 576, warp, 72 * a + x);
    DivMod(72 * a + x, 72, a, x);
    DivMod(e, 72, 8 * warp + a, x);
    DivMod(e, 8, 72 * warp + 9 * a + 4 * h + c, m);
    DivMod(x, 32, h, 8 * c + m);
    DivMod(x, 8, 4 * h + c, m);
    DivMod(4 * h + c, 4, h, c);
  }

  /** The two digits of a lane that its row and its columns depend on. */
  lemma LaneDigits(lane: int, warp: int)
    requires 0 <= lane < 64
    ensures lane == 8 * (lane / 8) + 4 * ((lane / 4) % 2) + lane % 4
    ensures 0 <= lane / 8 < 8 && 0 <= (lane / 4) % 2 < 2 && 0 <= lane % 4 < 4
    ensures VLaneRow(lane, warp) == 8 * warp + 2 * (lane % 4)
    ensures VLaneCol(lane) == 8 * (lane / 8) + 4 * ((lane / 4) % 2)
  {
  }

  lemma VRegCellInverse(warp: int, lane: int, c: int, k3: int)
    requires 0 <= warp < 4 && 0 <= lane < 64 && 0 <= c < 4 && 0 <= k3 < 2
    ensures var e := VRegCell(warp, lane, c, k3);
      && VUsed(e) && e / 576 == warp && e % 2 == k3 && VCellLane(e) == lane && VCellDword(e) == c
      && VCellRow(e) == VLaneRow(lane, warp) + k3 && VCellCol(e) == VLaneCol(lane) + c
  {
    hide VUsed, VCellRow, VCellCol, VCellLane, VCellDword, VLaneRow, VLaneCol, VRegCell;
    var a, h, k := lane / 8, (lane / 4) % 2, lane % 4;
    LaneDigits(lane, warp);
    RegCellDigits(warp, a, h, c, k, k3);
    VCellDigits(warp, a, h, c, k, k3);
  }

  /** The register that fills a cell. */
  lemma VCellHasRegister(e: int)
    requires VUsed(e)
    ensures var lane, c := VCellLane(e), VCellDword(e);
      0 <= e / 576 < 4 && 0 <= lane < 64 && 0 <= c < 4 && e == VRegCell(e / 576, lane, c, e % 2)
  {
    hide VUsed, VCellRow, VCellCol, VCellLane, VCellDword, VRegCell;
    var w, a, x := e / 576, (e % 576) / 72, e % 72;
    VCellSplits(e, w, a, x);
    var h, c, k, k3 := x / 32, (x / 8) % 4, (x % 8) / 2, x % 2;
    RowSplits(x, h, c, k, k3);
    VCellDigits(w, a, h, c, k, k3);
    RegCellDigits(w, a, h, c, k, k3);
  }

  lemma VCellSplits(e: int, w: int, a: int, x: int)
    requires VUsed(e) && w == e / 576 && a == (e % 576) / 72 && x == e % 72
    ensures e == 576 * w + 72 * a + x && 0 <= w < 4 && 0 <= a < 8 && 0 <= x < 64
  {
    DivMod(e, 72, 8 * w + a, (e % 576) % 72);
  }

  lemma RowSplits(x: int, h: int, c: int, k: int, k3: int)
    requires 0 <= x < 64 && h == x / 32 && c == (x / 8) % 4 && k == (x % 8) / 2 && k3 == x % 2
    ensures x == 32 * h + 8 * c + 2 * k + k3
    ensures 0 <= h < 2 && 0 <= c < 4 && 0 <= k < 4 && 0 <= k3 < 2
  {
  }

  lemma RegCellDigits(warp: int, a: int, h: int, c: int, k: int, k3: int)
    requires 0 <= a < 8 && 0 <= h < 2 && 0 <= c < 4 && 0 <= k < 4 && 0 <= k3 < 2
    ensures VRegCell(warp, 8 * a + 4 * h + k, c, k3) == 576 * warp + 72 * a + 32 * h + 8 * c + 2 * k + k3
  {
    DivMod(8 * a + 4 * h + k, 8, a, 4 * h + k);
    DivMod(8 * a + 4 * h + k, 4, 2 * a + h, k);
  }

  /** The element a cell receives from a warp's registers. */
  function RegElem(regs: VRegs, e: int): bv16 {
    var lane, c := VCellLane(e), VCellDword(e);
    if 0 <= lane < |regs.even| && 0 <= lane < |regs.odd| then
      if e % 2 == 0 then Elem(regs.even[lane], c) else Elem(regs.odd[lane], c)
    else 0
  }

  /** The cells of one ds_write2 of one warp's V half: output dwords 0 and 1, or 2 and 3. */
  predicate VWritten(warp: int, pair: int, e: int) {
    VUsed(e) && e / 576 == warp && VCellDword(e) / 2 == pair
  }

  /** The two cells of one output dword of one lane. */
  predicate VCellIs(warp: int, lane: int, c: int, e: int) {
    VUsed(e) && e / 576 == warp && VCellLane(e) == lane && VCellDword(e) == c
  }

  lemma UsedBelow(e: int)
    ensures VUsed(e) ==> 0 <= e < 2304
  {
  }

  lemma LaneCells(warp: int, lane: int, c: int, e: int)
    requires 0 <= warp < 4 && 0 <= lane < 64 && 0 <= c < 4
    ensures var cell := VRegCell(warp, lane, c, 0);
      && (VCellIs(warp, lane, c, e) <==> e == cell || e == cell + 1)
      && (VCellIs(warp, lane, c, e) ==> e % 2 == e - cell)
      && 0 <= cell && cell + 1 < 2304
  {
    hide VUsed, VCellRow, VCellCol, VLaneRow, VLaneCol, VCellLane, VCellDword;
    VRegCellInverse(warp, lane, c, 0);
    VRegCellInverse(warp, lane, c, 1);
    UsedBelow(VRegCell(warp, lane, c, 0));
    UsedBelow(VRegCell(warp, lane, c, 1));
    if VCellIs(warp, lane, c, e) {
      VCellHasRegister(e);
    }
  }

  /** One dword of one lane. */
  method StoreDword(lds: array<bv16>, addr: int, d: bv32, ghost regs: VRegs,
                    ghost buf: int, ghost warp: int, ghost lane: int, ghost c: int)
    requires IsLds(lds) && 0 <= buf < 3 && 0 <= warp < 4 && 0 <= lane < 64 && 0 <= c < 4
    requires |regs.even| == |regs.odd| == 64 && d == Pack(Elem(regs.even[lane], c), Elem(regs.odd[lane], c))
    requires addr == 2 * (BufBase(buf) + VRegCell(warp, lane, c, 0))
    modifies lds
    ensures forall e :: 0 <= e < lds.Length ==>
              lds[e] == if VCellIs(warp, lane, c, e - BufBase(buf)) then RegElem(regs, e - BufBase(buf))
                else old(lds[e])
  {
    var cell := addr / 2;
    DwordCells(regs, buf, warp, lane, c, cell, 0);
    PackParts(Elem(regs.even[lane], c), Elem(regs.odd[lane], c));
    hide Low, High, Pack, Elem, VUsed, VRegCell, VCellIs, RegElem;
    lds[cell], lds[cell + 1] := Low(d), High(d);
    forall e | 0 <= e < lds.Length
      ensures lds[e] == if VCellIs(warp, lane, c, e - BufBase(buf)) then RegElem(regs, e - BufBase(buf))
          else old(lds[e]) {
      DwordCells(regs, buf, warp, lane, c, cell, e);
    }
  }

  lemma DwordCells(regs: VRegs, buf: int, warp: int, lane: int, c: int, cell: int, e: int)
    requires 0 <= buf < 3 && 0 <= warp < 4 && 0 <= lane < 64 && 0 <= c < 4 && |regs.even| == |regs.odd| == 64
    requires cell == BufBase(buf) + VRegCell(warp, lane, c, 0)
    ensures 0 <= cell && cell + 1 < 6912
    ensures VCellIs(warp, lane, c, e - BufBase(buf)) <==> e == cell || e == cell + 1
    ensures e == cell ==> RegElem(regs, e - BufBase(buf)) == Elem(regs.even[lane], c)
    ensures e == cell + 1 ==> RegElem(regs, e - BufBase(buf)) == Elem(regs.odd[lane], c)
  {
    LaneCells(warp, lane, c, e - BufBase(buf));
    hide Elem, VRegCell, VUsed;
  }

  /** Where a lane's output dword c goes, in bytes. */
  lemma DwordAddress(buf: int, warp: int, lane: int, c: int)
    ensures 2 * (BufBase(buf) + VRegCell(warp, lane, c, 0)) == 2 * (BufBase(buf) + VRegCell(warp, lane, 0, 0)) + 16 * c
  {
  }

  lemma VWrittenCells(warp: int, pair: int, e: int)
    requires 0 <= pair < 2
    ensures VWritten(warp, pair, e) ==> 0 <= VCellLane(e) < 64
    ensures forall lane :: VWritten(warp, pair, e) && VCellLane(e) == lane
                      <==> VCellIs(warp, lane, 2 * pair, e) || VCellIs(warp, lane, 2 * pair + 1, e)
  {
    hide VUsed, VCellLane, VCellDword, VRegCell;
    if VUsed(e) {
      VCellHasRegister(e);
    }
  }

  /** One ds_write2_b32: every lane stores two dwords, at dword offsets off0 and off1 from its byte address. */
  method DsWrite2(lds: array<bv16>, addr: seq<int>, d0: seq<bv32>, d1: seq<bv32>, off0: int, off1: int,
                  ghost regs: VRegs, ghost buf: int, ghost warp: int, ghost pair: int)
    requires IsLds(lds) && 0 <= buf < 3 && 0 <= warp < 4 && 0 <= pair < 2
    requires |addr| == |d0| == |d1| == |regs.even| == |regs.odd| == 64
    requires off0 == 128 + 8 * pair && off1 == off0 + 4
    requires forall lane :: 0 <= lane < 64 ==>
      && addr[lane] + 512 == 2 * (BufBase(buf) + VRegCell(warp, lane, 0, 0))
      && d0[lane] == Pack(Elem(regs.even[lane], 2 * pair), Elem(regs.odd[lane], 2 * pair))
      && d1[lane] == Pack(Elem(regs.even[lane], 2 * pair + 1), Elem(regs.odd[lane], 2 * pair + 1))
    modifies lds
    ensures forall e :: 0 <= e < lds.Length ==>
              lds[e] == if VWritten(warp, pair, e - BufBase(buf)) then RegElem(regs, e - BufBase(buf)) else old(lds[e])
  {
    forall e ensures VWritten(warp, pair, e) ==> 0 <= VCellLane(e) < 64
      ensures forall lane :: VWritten(warp, pair, e) && VCellLane(e) == lane
                        <==> VCellIs(warp, lane, 2 * pair, e) || VCellIs(warp, lane, 2 * pair + 1, e) {
      VWrittenCells(warp, pair, e);
    }
    hide Low, High, Pack, Elem, VUsed, VRegCell, VCellIs, VWritten, RegElem, VCellLane, BufBase;
    for lane := 0 to 64
      invariant forall e :: 0 <= e < lds.Length ==>
        lds[e] == if VWritten(warp, pair, e - BufBase(buf)) && VCellLane(e - BufBase(buf)) < lane
                  then RegElem(regs, e - BufBase(buf)) else old(lds[e])
    {
      DwordAddress(buf, warp, lane, 2 * pair);
      DwordAddress(buf, warp, lane, 2 * pair + 1);
      StoreDword(lds, addr[lane] + 4 * off0, d0[lane], regs, buf, warp, lane, 2 * pair);
      StoreDword(lds, addr[lane] + 4 * off1, d1[lane], regs, buf, warp, lane, 2 * pair + 1);
    }
  }

  /** One warp's transpose of its rows by pairs, and its two LDS writes. */
  method StoreVToLds(lds: array<bv16>, regs: VRegs, buf: int, warp: int)
    requires IsLds(lds) && 0 <= buf < 3 && 0 <= warp < 4
    requires |regs.even| == |regs.odd| == 64
    modifies lds
    ensures forall e :: 0 <= e < lds.Length ==>
              lds[e] == if VUsed(e - BufBase(buf)) && (e - BufBase(buf)) / 576 == warp
                        then RegElem(regs, e - BufBase(buf)) else old(lds[e])
  {
    var even, odd := regs.even, regs.odd;
    var out0 := seq(64, lane requires 0 <= lane < 64 => Perm(even[lane].lo, odd[lane].lo, 1, 0, 5, 4));
    var out1 := seq(64, lane requires 0 <= lane < 64 => Perm(even[lane].lo, odd[lane].lo, 3, 2, 7, 6));
    var out2 := seq(64, lane requires 0 <= lane < 64 => Perm(even[lane].hi, odd[lane].hi, 1, 0, 5, 4));
    var out3 := seq(64, lane requires 0 <= lane < 64 => Perm(even[lane].hi, odd[lane].hi, 3, 2, 7, 6));
    forall lane | 0 <= lane < 64
      ensures out0[lane] == Pack(Elem(even[lane], 0), Elem(odd[lane], 0))
           && out1[lane] == Pack(Elem(even[lane], 1), Elem(odd[lane], 1))
           && out2[lane] == Pack(Elem(even[lane], 2), Elem(odd[lane], 2))
           && out3[lane] == Pack(Elem(even[lane], 3), Elem(odd[lane], 3)) {
      PermPairs(even[lane].lo, odd[lane].lo);
      PermPairs(even[lane].hi, odd[lane].hi);
    }
    hide Perm, Pack, Elem, VUsed, VRegCell, RegElem;
    var ldsBufOffset := buf * 4608 - 128 * 4;
    var addr := seq(64, lane => warp * 1152 + VLaneAddress(lane) + ldsBufOffset);
    forall lane | 0 <= lane < 64 ensures addr[lane] + 512 == 2 * (BufBase(buf) + VRegCell(warp, lane, 0, 0)) {
      LaneAddress(warp, lane);
    }
    hide VLaneAddress;
    DsWrite2(lds, addr, out0, out1, 128, 132, regs, buf, warp, 0);
    DsWrite2(lds, addr, out2, out3, 136, 140, regs, buf, warp, 1);
    forall e ensures VUsed(e) && e / 576 == warp <==> VWritten(warp, 0, e) || VWritten(warp, 1, e) {
      BothPairs(warp, e);
    }
  }

  lemma BothPairs(warp: int, e: int)
    ensures VUsed(e) && e / 576 == warp <==> VWritten(warp, 0, e) || VWritten(warp, 1, e)
  {
    hide VUsed, VCellLane, VCellDword, VRegCell;
    if VUsed(e) {
      VCellHasRegister(e);
    }
  }

  /** A lane's place in its warp's slab, in bytes. */
  function VLaneAddress(lane: int): int {
    ((lane / 8) % 8) * 144 + ((lane / 4) % 2) * 64 + (lane % 4) * 4
  }

  lemma LaneAddress(warp: int, lane: int)
    requires 0 <= lane < 64
    ensures warp * 1152 + VLaneAddress(lane) == 2 * VRegCell(warp, lane, 0, 0)
  {
  }

  // ---- all four warps ----

  function CellAt(image: seq<bv16>, e: int): bv16 {
    if 0 <= e < |image| then image[e] else 0
  }

  /** A buffer holds the K half of 64 rows from kvOffset and 32 headdims from col, at the reader's offsets. */
  ghost predicate KStaged(image: seq<bv16>, buf: int, k: Dram, strideK: int, kvOffset: int, col: int) {
    forall j, d :: 0 <= j < 64 && 0 <= d < 32 ==>
      CellAt(image, BufBase(buf) + LdsElemOffset(j, d)) == At(k, strideK, kvOffset + j, col + d)
  }

  /** A buffer holds the 32 V rows from kvOffset, at the reader's offsets. */
  ghost predicate VStaged(image: seq<bv16>, buf: int, v: Dram, strideV: int, kvOffset: int) {
    forall n, d :: 0 <= n < 32 && 0 <= d < 64 ==>
      CellAt(image, BufBase(buf) + VLdsElemOffset(n, d)) == At(v, strideV, kvOffset + n, d)
  }

  lemma KCellsStaged(image: seq<bv16>, buf: int, k: Dram, strideK: int, kvOffset: int, col: int)
    requires |image| >= 6912 && 0 <= buf < 3
    requires forall e :: 0 <= e < |image| && KUsed(e - BufBase(buf)) ==>
      image[e] == KHalfElem(k, strideK, kvOffset, col, e - BufBase(buf))
    ensures KStaged(image, buf, k, strideK, kvOffset, col)
  {
    hide LdsElemOffset, KUsed, KCellRow, KCellCol, KCellWarp, KCellIssue, At, CellAt, KHalfElem;
    forall j, d | 0 <= j < 64 && 0 <= d < 32
      ensures CellAt(image, BufBase(buf) + LdsElemOffset(j, d)) == At(k, strideK, kvOffset + j, col + d) {
      KOffsetInverse(j, d);
      KCellStaged(image, buf, k, strideK, kvOffset, col, LdsElemOffset(j, d), BufBase(buf) + LdsElemOffset(j, d));
    }
  }

  lemma KCellStaged(image: seq<bv16>, buf: int, k: Dram, strideK: int, kvOffset: int, col: int, x: int, e: int)
    requires |image| >= 6912 && 0 <= buf < 3 && KUsed(x) && e == BufBase(buf) + x
    requires forall e :: 0 <= e < |image| && KUsed(e - BufBase(buf)) ==>
      image[e] == KHalfElem(k, strideK, kvOffset, col, e - BufBase(buf))
    ensures CellAt(image, e) == At(k, strideK, kvOffset + KCellRow(x), col + KCellCol(x))
  {
    assert 0 <= x < 2304;
    hide KCellRow, KCellCol, KUsed, At;
    assert e - BufBase(buf) == x;
  }

  /** A whole K half, staged by the four warps together, wherever the strides put it. */
  method StageK(lds: array<bv16>, k: Dram, strideK: int, ghost kvOffset: int, kvByteBase: int, kColOffset: int,
                buf: int)
    requires IsLds(lds) && 0 <= buf < 3 && kvByteBase == 2 * ElemIndex(strideK, kvOffset, 0)
    modifies lds
    ensures KStaged(lds[..], buf, k, strideK, kvOffset, kColOffset)
    ensures forall e :: 0 <= e < lds.Length && !(BufBase(buf) <= e < BufBase(buf) + 2304) ==> lds[e] == old(lds[e])
  {
    forall e | KUsed(e) ensures 0 <= KCellWarp(e) < 4 {
      KCellDecomposes(e);
    }
    hide KCellWarp, KHalfElem, ElemIndex;
    for warp := 0 to 4
      invariant forall e :: 0 <= e < lds.Length ==>
        lds[e] == if KUsed(e - BufBase(buf)) && KCellWarp(e - BufBase(buf)) < warp
                  then KHalfElem(k, strideK, kvOffset, kColOffset, e - BufBase(buf))
                  else old(lds[e])
    {
      AsyncCopyKSubtile(lds, k, strideK, kvOffset, kvByteBase, kColOffset, buf, warp);
    }
    KCellsStaged(lds[..], buf, k, strideK, kvOffset, kColOffset);
  }

  ghost predicate AllVLoaded(regs: seq<VRegs>, v: Dram, strideV: int, kvOffset: int) {
    |regs| == 4 && forall warp :: 0 <= warp < 4 ==> VLoaded(regs[warp], v, strideV, kvOffset, warp)
  }

  /** The four warps' loads of a V half. */
  method LoadV(v: Dram, strideV: int, ghost kvOffset: int, kvByteBase: int) returns (regs: seq<VRegs>)
    requires kvByteBase == 2 * ElemIndex(strideV, kvOffset, 0)
    ensures AllVLoaded(regs, v, strideV, kvOffset)
  {
    regs := [];
    for warp := 0 to 4
      invariant |regs| == warp
      invariant forall w :: 0 <= w < warp ==> VLoaded(regs[w], v, strideV, kvOffset, w)
    {
      var r := LoadVFromDram(v, strideV, kvOffset, kvByteBase, warp);
      regs := regs + [r];
    }
  }

  /** What a warp loaded for a cell is the element the reader expects there. */
  lemma RegElemIsV(regs: VRegs, v: Dram, strideV: int, kvOffset: int, warp: int, e: int)
    requires 0 <= warp < 4 && VLoaded(regs, v, strideV, kvOffset, warp) && VUsed(e) && e / 576 == warp
    ensures RegElem(regs, e) == At(v, strideV, kvOffset + VCellRow(e), VCellCol(e))
  {
    hide VUsed, VCellRow, VCellCol, VRegCell, VLaneRow, VLaneCol, VCellLane, VCellDword, Elem, At;
    var lane, c := VCellLane(e), VCellDword(e);
    VCellHasRegister(e);
    VRegCellInverse(warp, lane, c, e % 2);
    assert VLaneLoaded(regs.even[lane], regs.odd[lane], v, strideV, kvOffset, warp, lane);
  }

  lemma VCellsStaged(image: seq<bv16>, buf: int, regs: seq<VRegs>, v: Dram, strideV: int, kvOffset: int)
    requires |image| >= 6912 && 0 <= buf < 3 && AllVLoaded(regs, v, strideV, kvOffset)
    requires forall e :: 0 <= e < |image| && VUsed(e - BufBase(buf)) && 0 <= (e - BufBase(buf)) / 576 < 4 ==>
      image[e] == RegElem(regs[(e - BufBase(buf)) / 576], e - BufBase(buf))
    ensures VStaged(image, buf, v, strideV, kvOffset)
  {
    hide VLdsElemOffset, VUsed, VCellRow, VCellCol, At, CellAt, RegElem;
    forall n, d | 0 <= n < 32 && 0 <= d < 64
      ensures CellAt(image, BufBase(buf) + VLdsElemOffset(n, d)) == At(v, strideV, kvOffset + n, d) {
      VOffsetInverse(n, d);
      VCellStaged(image, buf, regs, v, strideV, kvOffset, VLdsElemOffset(n, d), BufBase(buf) + VLdsElemOffset(n, d));
    }
  }

  lemma VCellStaged(image: seq<bv16>, buf: int, regs: seq<VRegs>, v: Dram, strideV: int, kvOffset: int, x: int, e: int)
    requires |image| >= 6912 && 0 <= buf < 3 && AllVLoaded(regs, v, strideV, kvOffset) && VUsed(x)
        && e == BufBase(buf) + x
    requires forall e :: 0 <= e < |image| && VUsed(e - BufBase(buf)) && 0 <= (e - BufBase(buf)) / 576 < 4 ==>
      image[e] == RegElem(regs[(e - BufBase(buf)) / 576], e - BufBase(buf))
    ensures CellAt(image, e) == At(v, strideV, kvOffset + VCellRow(x), VCellCol(x))
  {
    assert 0 <= x < 2304;
    hide VUsed, VCellRow, VCellCol, At, RegElem, VLoaded;
    assert 0 <= x / 576 < 4;
    assert e - BufBase(buf) == x;
    RegElemIsV(regs[x / 576], v, strideV, kvOffset, x / 576, x);
  }

  /** The four warps' stores of a V half. */
  method StoreV(lds: array<bv16>, regs: seq<VRegs>, buf: int, ghost v: Dram, ghost strideV: int, ghost kvOffset: int)
    requires IsLds(lds) && 0 <= buf < 3 && AllVLoaded(regs, v, strideV, kvOffset)
    modifies lds
    ensures VStaged(lds[..], buf, v, strideV, kvOffset)
    ensures forall e :: 0 <= e < lds.Length && !(BufBase(buf) <= e < BufBase(buf) + 2304) ==> lds[e] == old(lds[e])
  {
    hide RegElem, VLaneLoaded;
    for warp := 0 to 4
      invariant forall e :: 0 <= e < lds.Length ==>
        lds[e] == if VUsed(e - BufBase(buf)) && 0 <= (e - BufBase(buf)) / 576 < warp
                  then RegElem(regs[(e - BufBase(buf)) / 576], e - BufBase(buf))
                  else old(lds[e])
    {
      assert VLoaded(regs[warp], v, strideV, kvOffset, warp);
      StoreVToLds(lds, regs[warp], buf, warp);
    }
    VCellsStaged(lds[..], buf, regs, v, strideV, kvOffset);
  }
}
