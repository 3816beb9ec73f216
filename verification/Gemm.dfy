/** The two GEMM sub-tiles: operands read from the padded LDS layouts, products left in the accumulator layout.
    val is the real a bf16 stands for; trunc is what narrowing leaves of a probability. */
module Gemm {
  import opened Sums
  import opened Floats
  import opened Layout
  import opened Staging
  import opened Mfma

  // ---- GEMM0: scores ----

  /** Element c of the 16-byte read at the offset of K element (j, d). */
  function KRead(image: seq<bv16>, val: bv16 -> real, buf: int, j: int, d: int, c: int): real {
    val(CellAt(image, (buf * 4608 + LdsElemOffset(j, d) * 2) / 2 + c))
  }

  /** Element c of the 16-byte read at the offset of V element (n, d). */
  function VRead(image: seq<bv16>, val: bv16 -> real, buf: int, n: int, d: int, c: int): real {
    val(CellAt(image, (buf * 4608 + VLdsElemOffset(n, d) * 2) / 2 + c))
  }

  /** What a lane reads of K for one k-step and one 32-key tile: eight headdims of the swizzled key. */
  function KOperand(image: seq<bv16>, val: bv16 -> real, buf: int, tile: int, kstep: int): Lanes {
    (lane, c) => KRead(image, val, buf, 32 * tile + Swz(lane % 32), kstep * 16 + (lane / 32) * 8, c)
  }

  function QOperand(q: (int, int) -> bv16, val: bv16 -> real, kstep: int): Lanes {
    (lane, c) => val(q(lane, 8 * kstep + c))
  }

  /** The buffer holds a K half: kt(j, d) for key j of the tile and headdim d of the half. */
  ghost predicate KHalfIs(image: seq<bv16>, buf: int, val: bv16 -> real, kt: Lanes) {
    forall j, d :: 0 <= j < 64 && 0 <= d < 32 ==> val(CellAt(image, BufBase(buf) + LdsElemOffset(j, d))) == kt(j, d)
  }

  /** The lanes hold a half of their query rows: qt(row, d) for headdim d of the half. */
  ghost predicate QSliceIs(q: (int, int) -> bv16, val: bv16 -> real, qt: Lanes) {
    forall kstep :: 0 <= kstep < 2 ==> Supplies(QOperand(q, val, kstep), qt, kstep)
  }

  /** The K matrix as the MFMA sees it: row l is key Swz(l) of the tile. */
  function Swizzled(kt: Lanes, tile: int): Lanes {
    (l, x) => if 0 <= l then kt(32 * tile + Swz(l), x) else 0.0
  }

  /** g plus the products over a half of the head dimension, register r holding key first + Free(lane, r). */
  function ScoresPlus(g: Lanes, kt: Lanes, qt: Lanes, first: int): Lanes {
    (lane, r) => g(lane, r) + Sum(DotTerm(kt, qt, first + Free(lane, r), lane % 32), 0, 32)
  }

  lemma KOperandSupplies(image: seq<bv16>, val: bv16 -> real, buf: int, kt: Lanes, tile: int, kstep: int)
    requires KHalfIs(image, buf, val, kt) && 0 <= tile < 2 && 0 <= kstep < 2
    ensures Supplies(KOperand(image, val, buf, tile, kstep), Swizzled(kt, tile), kstep)
  {
    hide KHalfIs, KOperand, Swizzled;
    forall lane, c | 0 <= lane < 64 && 0 <= c < 8
      ensures KOperand(image, val, buf, tile, kstep)(lane, c)
           == Swizzled(kt, tile)(lane % 32, 16 * kstep + 8 * (lane / 32) + c) {
      KLane(image, val, buf, kt, tile, kstep, lane, c);
    }
  }

  lemma KLane(image: seq<bv16>, val: bv16 -> real, buf: int, kt: Lanes, tile: int, kstep: int, lane: int, c: int)
    requires KHalfIs(image, buf, val, kt) && 0 <= tile < 2 && 0 <= kstep < 2 && 0 <= lane < 64 && 0 <= c < 8
    ensures KOperand(image, val, buf, tile, kstep)(lane, c)
         == Swizzled(kt, tile)(lane % 32, 16 * kstep + 8 * (lane / 32) + c)
  {
    hide Swz, KRead, KHalfIs;
    SwzInverse(lane % 32);
    KCellRead(image, val, buf, kt, tile, Swz(lane % 32), kstep * 16 + (lane / 32) * 8, c);
  }

  /** Eight neighbouring elements of a K row, read from one byte address. */
  lemma KCellRead(image: seq<bv16>, val: bv16 -> real, buf: int, kt: Lanes, tile: int, key: int, d: int, c: int)
    requires KHalfIs(image, buf, val, kt) && 0 <= tile < 2 && 0 <= key < 32
    requires 0 <= d && d + 8 <= 32 && d % 8 == 0 && 0 <= c < 8
    ensures KRead(image, val, buf, 32 * tile + key, d, c) == kt(32 * tile + key, d + c)
  {
    hide CellAt, LdsElemOffset;
    var j := 32 * tile + key;
    KOctet(j, d, c);
    ByteCell(buf, LdsElemOffset(j, d), c);
    assert val(CellAt(image, BufBase(buf) + LdsElemOffset(j, d + c))) == kt(j, d + c);
  }

  lemma ByteCell(buf: int, offset: int, c: int)
    ensures (buf * 4608 + offset * 2) / 2 + c == BufBase(buf) + (offset + c)
  {
  }

  lemma KOctet(j: int, d: int, c: int)
    requires 0 <= j < 64 && 0 <= d < 32 && d % 8 == 0 && 0 <= c < 8
    ensures LdsElemOffset(j, d + c) == LdsElemOffset(j, d) + c
  {
    OctetContiguous(j, d, 0, 0, c);
  }

  /** The swizzled read puts key first + Free(lane, r) into register r. */
  lemma SwizzledScores(g: Lanes, kt: Lanes, qt: Lanes, tile: int, lane: int, r: int)
    requires 0 <= tile < 2 && LaneReg(lane, r)
    ensures Partial(g, Swizzled(kt, tile), qt, 32)(lane, r) == ScoresPlus(g, kt, qt, 32 * tile)(lane, r)
  {
    hide AccRow, Free, Swz, Swizzled, DotTerm, Sum;
    SwizzledRow(kt, tile, lane, r);
    SameRowProducts(Swizzled(kt, tile), kt, qt, AccRow(lane, r), 32 * tile + Free(lane, r), lane % 32);
  }

  lemma SwizzledRow(kt: Lanes, tile: int, lane: int, r: int)
    requires LaneReg(lane, r)
    ensures forall x :: Swizzled(kt, tile)(AccRow(lane, r), x) == kt(32 * tile + Free(lane, r), x)
  {
    AccRowSwizzled(lane, r);
    hide AccRow, Free, Swz;
  }

  lemma SameRowProducts(A: Lanes, A': Lanes, B: Lanes, m: int, m': int, n: int)
    requires forall x :: A(m, x) == A'(m', x)
    ensures Sum(DotTerm(A, B, m, n), 0, 32) == Sum(DotTerm(A', B, m', n), 0, 32)
  {
    SumEqual(DotTerm(A, B, m, n), DotTerm(A', B, m', n), 0, 32);
  }

  lemma PartialStart(acc: array2<Flt>, g: Lanes, A: Lanes, B: Lanes)
    requires Holds(acc, g)
    ensures Holds(acc, Partial(g, A, B, 0))
  {
    SameHolds(acc, g, Partial(g, A, B, 0));
  }

  /** One half of the head dimension of GEMM0: 8 MFMA. */
  method Gemm0Subtile(accN0: array2<Flt>, accN1: array2<Flt>, q: (int, int) -> bv16, lds: array<bv16>, buf: int,
                      val: bv16 -> real, ghost kt: Lanes, ghost qt: Lanes, ghost g0: Lanes, ghost g1: Lanes)
    requires accN0 != accN1 && IsLds(lds) && 0 <= buf < 3
    requires KHalfIs(lds[..], buf, val, kt) && QSliceIs(q, val, qt)
    requires Holds(accN0, g0) && Holds(accN1, g1)
    modifies accN0, accN1
    ensures Holds(accN0, ScoresPlus(g0, kt, qt, 0)) && Holds(accN1, ScoresPlus(g1, kt, qt, 32))
  {
    var image := lds[..];
    ghost var A0, A1 := Swizzled(kt, 0), Swizzled(kt, 1);
    PartialStart(accN0, g0, A0, qt);
    PartialStart(accN1, g1, A1, qt);
    hide KHalfIs, Supplies, Partial, KOperand, QOperand, Swizzled;
    for kstep := 0 to 2
      invariant Holds(accN0, Partial(g0, A0, qt, 16 * kstep)) && Holds(accN1, Partial(g1, A1, qt, 16 * kstep))
    {
      KOperandSupplies(image, val, buf, kt, 0, kstep);
      KOperandSupplies(image, val, buf, kt, 1, kstep);
      assert Supplies(QOperand(q, val, kstep), qt, kstep);
      var k0, k1 := KOperand(image, val, buf, 0, kstep), KOperand(image, val, buf, 1, kstep);
      KStep(accN0, accN1, k0, k1, QOperand(q, val, kstep), g0, g1, A0, A1, qt, kstep);
    }
    hide Free;
    forall lane, r | LaneReg(lane, r)
      ensures Partial(g0, A0, qt, 32)(lane, r) == ScoresPlus(g0, kt, qt, 0)(lane, r)
           && Partial(g1, A1, qt, 32)(lane, r) == ScoresPlus(g1, kt, qt, 32)(lane, r) {
      SwizzledScores(g0, kt, qt, 0, lane, r);
      SwizzledScores(g1, kt, qt, 1, lane, r);
    }
    hide ScoresPlus;
    SameHolds(accN0, Partial(g0, A0, qt, 32), ScoresPlus(g0, kt, qt, 0));
    SameHolds(accN1, Partial(g1, A1, qt, 32), ScoresPlus(g1, kt, qt, 32));
  }

  // ---- GEMM1: weighted values ----

  /** What a lane reads of V for one k-step and one half of the headdims: eight keys of one headdim, not swizzled. */
  function VOperand(image: seq<bv16>, val: bv16 -> real, buf: int, half: int, kstep: int): Lanes {
    (lane, c) => VRead(image, val, buf, kstep * 16 + (lane / 32) * 8, lane % 32 + 32 * half, c)
  }

  /** The buffer holds a V half: vt(n, d) for key n of the half and headdim d. */
  ghost predicate VHalfIs(image: seq<bv16>, buf: int, val: bv16 -> real, vt: Lanes) {
    forall n, d :: 0 <= n < 32 && 0 <= d < 64 ==> val(CellAt(image, BufBase(buf) + VLdsElemOffset(n, d))) == vt(n, d)
  }

  function Columns(vt: Lanes, half: int): Lanes {
    (l, x) => vt(x, 32 * half + l)
  }

  function Register(u: seq<seq<real>>, lane: int, i: int): real {
    if 0 <= lane < |u| && 0 <= i < |u[lane]| then u[lane][i] else 0.0
  }

  /** A dword of two bf16, as the reals they stand for. */
  datatype Bf16Pair = Bf16Pair(low: real, high: real)

  /** How GEMM1 narrows a probability: by the high half of its binary32 image, as the code does, or not at all, which
      is exact arithmetic. */
  datatype Narrowing = Keep | Truncate(bits: real -> bv32)

  /** The number that is left of a probability. */
  function Narrowed(narrow: Narrowing, val: bv16 -> real): real -> real {
    match narrow
    case Keep => p => p
    case Truncate(bits) => p => val(High(bits(p)))
  }

  /** v_perm with the packing selector on the images of two registers: the high half of the first below that of the
      second. */
  function PackPair(narrow: Narrowing, val: bv16 -> real, p1: real, p0: real): Bf16Pair {
    match narrow
    case Keep => Bf16Pair(p0, p1)
    case Truncate(bits) =>
      var dword := Perm(bits(p1), bits(p0), 7, 6, 3, 2);
      Bf16Pair(val(Low(dword)), val(High(dword)))
  }

  /** The selector truncates both. */
  lemma PackPairNarrows(narrow: Narrowing, val: bv16 -> real, p1: real, p0: real)
    ensures PackPair(narrow, val, p1, p0) == Bf16Pair(Narrowed(narrow, val)(p0), Narrowed(narrow, val)(p1))
  {
    if narrow.Truncate? {
      var u1, u0 := narrow.bits(p1), narrow.bits(p0);
      hide Perm, Low, High, Pack;
      PermTruncates(u1, u0);
      PackParts(High(u0), High(u1));
    }
  }

  /** One of the four elements of two packed dwords. */
  function QuadElem(lo: Bf16Pair, hi: Bf16Pair, i: int): real {
    if i == 0 then lo.low else if i == 1 then lo.high else if i == 2 then hi.low else hi.high
  }

  /** P packed inline, dword pair s = 2 * kstep + pass: four registers, narrowed. */
  function PackedP(u: seq<seq<real>>, narrow: Narrowing, val: bv16 -> real, kstep: int): Lanes {
    (lane, c) =>
      var s := 2 * kstep + c / 4;
      var lo := PackPair(narrow, val, Register(u, lane, 4 * s + 1), Register(u, lane, 4 * s));
      var hi := PackPair(narrow, val, Register(u, lane, 4 * s + 3), Register(u, lane, 4 * s + 2));
      QuadElem(lo, hi, c % 4)
  }

  /** A register of probabilities: pt(row, key of the half). */
  function PLanes(pt: Lanes): Lanes {
    (lane, r) => pt(lane % 32, Free(lane, r))
  }

  function TruncatedRows(trunc: real -> real, pt: Lanes): Lanes {
    (n, x) => trunc(pt(n, x))
  }

  /** A truncated probability of row n times a value of headdim d. */
  function PvTerm(trunc: real -> real, pt: Lanes, vt: Lanes, n: int, d: int): int -> real {
    x => trunc(pt(n, x)) * vt(x, d)
  }

  /** g plus the products over a half of the tile's keys, register r holding headdim first + AccRow(lane, r). */
  function ValuesPlus(g: Lanes, trunc: real -> real, pt: Lanes, vt: Lanes, first: int): Lanes {
    (lane, r) => g(lane, r) + Sum(PvTerm(trunc, pt, vt, lane % 32, first + AccRow(lane, r)), 0, 32)
  }

  lemma VOperandSupplies(image: seq<bv16>, val: bv16 -> real, buf: int, vt: Lanes, half: int, kstep: int)
    requires VHalfIs(image, buf, val, vt) && 0 <= half < 2 && 0 <= kstep < 2
    ensures Supplies(VOperand(image, val, buf, half, kstep), Columns(vt, half), kstep)
  {
    hide VHalfIs, VOperand, Columns;
    forall lane, c | 0 <= lane < 64 && 0 <= c < 8
      ensures VOperand(image, val, buf, half, kstep)(lane, c)
           == Columns(vt, half)(lane % 32, 16 * kstep + 8 * (lane / 32) + c) {
      VLane(image, val, buf, vt, half, kstep, lane, c);
    }
  }

  lemma VLane(image: seq<bv16>, val: bv16 -> real, buf: int, vt: Lanes, half: int, kstep: int, lane: int, c: int)
    requires VHalfIs(image, buf, val, vt) && 0 <= half < 2 && 0 <= kstep < 2 && 0 <= lane < 64 && 0 <= c < 8
    ensures VOperand(image, val, buf, half, kstep)(lane, c)
         == Columns(vt, half)(lane % 32, 16 * kstep + 8 * (lane / 32) + c)
  {
    hide VRead, VHalfIs;
    VCellRead(image, val, buf, vt, kstep * 16 + (lane / 32) * 8, lane % 32 + 32 * half, c);
  }

  /** Eight neighbouring elements of a V column, read from one byte address. */
  lemma VCellRead(image: seq<bv16>, val: bv16 -> real, buf: int, vt: Lanes, n: int, d: int, c: int)
    requires VHalfIs(image, buf, val, vt) && 0 <= n && n + 8 <= 32 && n % 8 == 0 && 0 <= d < 64 && 0 <= c < 8
    ensures VRead(image, val, buf, n, d, c) == vt(n + c, d)
  {
    hide CellAt, VLdsElemOffset;
    VOctet(n, d, c);
    ByteCell(buf, VLdsElemOffset(n, d), c);
    assert val(CellAt(image, BufBase(buf) + VLdsElemOffset(n + c, d))) == vt(n + c, d);
  }

  lemma VOctet(n: int, d: int, c: int)
    requires 0 <= n < 32 && n % 8 == 0 && 0 <= d < 64 && 0 <= c < 8
    ensures VLdsElemOffset(n + c, d) == VLdsElemOffset(n, d) + c
  {
    OctetContiguous(0, 0, n, d, c);
  }

  /** The packed operand holds the narrowed value of register 8 * kstep + c. */
  lemma PackedElem(u: seq<seq<real>>, narrow: Narrowing, val: bv16 -> real, kstep: int, lane: int, c: int)
    requires 0 <= kstep < 4 && 0 <= lane < 64 && 0 <= c < 8
    ensures PackedP(u, narrow, val, kstep)(lane, c) == Narrowed(narrow, val)(Register(u, lane, 8 * kstep + c))
  {
    hide Register, PackPair, Narrowed;
    var s, i := 2 * kstep + c / 4, c % 4;
    assert 8 * kstep + c == 4 * s + i;
    assert PackedP(u, narrow, val, kstep)(lane, c)
        == QuadElem(PackPair(narrow, val, Register(u, lane, 4 * s + 1), Register(u, lane, 4 * s)),
             PackPair(narrow, val, Register(u, lane, 4 * s + 3), Register(u, lane, 4 * s + 2)), i);
    hide PackedP;
    PackPairNarrows(narrow, val, Register(u, lane, 4 * s + 1), Register(u, lane, 4 * s));
    PackPairNarrows(narrow, val, Register(u, lane, 4 * s + 3), Register(u, lane, 4 * s + 2));
    assert i == 0 || i == 1 || i == 2 || i == 3;
  }

  /** u is the image of registers that hold pt. */
  ghost predicate RawOf(u: seq<seq<real>>, pt: Lanes) {
    forall lane, r :: LaneReg(lane, r) ==> Register(u, lane, r) == pt(lane % 32, Free(lane, r))
  }

  lemma PackedPSupplies(u: seq<seq<real>>, narrow: Narrowing, val: bv16 -> real, pt: Lanes, kstep: int)
    requires 0 <= kstep < 2 && RawOf(u, pt)
    ensures Supplies(PackedP(u, narrow, val, kstep), TruncatedRows(Narrowed(narrow, val), pt), kstep)
  {
    hide PackedP, RawOf, TruncatedRows, Narrowed;
    forall lane, c | 0 <= lane < 64 && 0 <= c < 8
      ensures PackedP(u, narrow, val, kstep)(lane, c)
           == TruncatedRows(Narrowed(narrow, val), pt)(lane % 32, 16 * kstep + 8 * (lane / 32) + c) {
      PackedLane(u, narrow, val, pt, kstep, lane, c);
    }
  }

  lemma PackedLane(u: seq<seq<real>>, narrow: Narrowing, val: bv16 -> real, pt: Lanes, kstep: int, lane: int, c: int)
    requires 0 <= kstep < 2 && RawOf(u, pt) && 0 <= lane < 64 && 0 <= c < 8
    ensures PackedP(u, narrow, val, kstep)(lane, c)
         == TruncatedRows(Narrowed(narrow, val), pt)(lane % 32, 16 * kstep + 8 * (lane / 32) + c)
  {
    hide PackedP, Register, Free, Narrowed;
    PackedElem(u, narrow, val, kstep, lane, c);
    FreeOfStep(lane, kstep, c);
    assert LaneReg(lane, 8 * kstep + c);
  }

  lemma FreeOfStep(lane: int, kstep: int, c: int)
    requires 0 <= kstep < 2 && 0 <= c < 8
    ensures Free(lane, 8 * kstep + c) == 16 * kstep + 8 * (lane / 32) + c
  {
  }

  lemma WeightedValues(g: Lanes, trunc: real -> real, pt: Lanes, vt: Lanes, half: int, lane: int, r: int)
    ensures Partial(g, Columns(vt, half), TruncatedRows(trunc, pt), 32)(lane, r)
         == ValuesPlus(g, trunc, pt, vt, 32 * half)(lane, r)
  {
    hide AccRow;
    SumEqual(DotTerm(Columns(vt, half), TruncatedRows(trunc, pt), AccRow(lane, r), lane % 32),
             PvTerm(trunc, pt, vt, lane % 32, 32 * half + AccRow(lane, r)), 0, 32);
  }

  /** One half of a tile's keys of GEMM1: 8 MFMA, P truncated and packed on the way. */
  method Gemm1Subtile(accD0: array2<Flt>, accD1: array2<Flt>, p: array2<Flt>, lds: array<bv16>, buf: int,
                      val: bv16 -> real, narrow: Narrowing,
                      ghost pt: Lanes, ghost vt: Lanes, ghost g0: Lanes, ghost g1: Lanes)
    requires accD0 != accD1 && p != accD0 && p != accD1 && IsLds(lds) && 0 <= buf < 3
    requires VHalfIs(lds[..], buf, val, vt) && Holds(p, PLanes(pt))
    requires Holds(accD0, g0) && Holds(accD1, g1)
    modifies accD0, accD1
    ensures Holds(accD0, ValuesPlus(g0, Narrowed(narrow, val), pt, vt, 0))
    ensures Holds(accD1, ValuesPlus(g1, Narrowed(narrow, val), pt, vt, 32))
  {
    ghost var trunc := Narrowed(narrow, val);
    var image := lds[..];
    var u := seq(64, lane requires 0 <= lane < 64 && IsAcc(p) reads p =>
               seq(16, r requires 0 <= r < 16 && IsAcc(p) reads p => if p[lane, r].Fin? then p[lane, r].v else 0.0));
    assert RawOf(u, pt);
    ghost var A0, A1, B := Columns(vt, 0), Columns(vt, 1), TruncatedRows(trunc, pt);
    PartialStart(accD0, g0, A0, B);
    PartialStart(accD1, g1, A1, B);
    hide VHalfIs, RawOf, Supplies, Partial, VOperand, PackedP, Columns, TruncatedRows, PLanes, Narrowed;
    for kstep := 0 to 2
      invariant Holds(accD0, Partial(g0, A0, B, 16 * kstep)) && Holds(accD1, Partial(g1, A1, B, 16 * kstep))
    {
      VOperandSupplies(image, val, buf, vt, 0, kstep);
      VOperandSupplies(image, val, buf, vt, 1, kstep);
      PackedPSupplies(u, narrow, val, pt, kstep);
      var v0, v1 := VOperand(image, val, buf, 0, kstep), VOperand(image, val, buf, 1, kstep);
      KStep(accD0, accD1, v0, v1, PackedP(u, narrow, val, kstep), g0, g1, A0, A1, B, kstep);
    }
    forall lane, r | LaneReg(lane, r)
      ensures Partial(g0, A0, B, 32)(lane, r) == ValuesPlus(g0, trunc, pt, vt, 0)(lane, r)
           && Partial(g1, A1, B, 32)(lane, r) == ValuesPlus(g1, trunc, pt, vt, 32)(lane, r) {
      WeightedValues(g0, trunc, pt, vt, 0, lane, r);
      WeightedValues(g1, trunc, pt, vt, 1, lane, r);
    }
    hide ValuesPlus, AccRow;
    SameHolds(accD0, Partial(g0, A0, B, 32), ValuesPlus(g0, trunc, pt, vt, 0));
    SameHolds(accD1, Partial(g1, A1, B, 32), ValuesPlus(g1, trunc, pt, vt, 32));
  }
}
