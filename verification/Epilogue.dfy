/** Normalise, truncate and store one wave's rows of O, and its log-sum-exp. */
module Epilogue {
  import opened Exponential
  import opened Floats
  import opened Layout
  import opened Staging
  import opened Mfma
  import opened OnlineSoftmax
  import opened SoftmaxOps

  /** The two accumulators hold out(row, headdim), row being the lane modulo 32. */
  ghost predicate OutputHolds(d0: array2<Flt>, d1: array2<Flt>, out: Lanes)
    reads d0, d1
  {
    && IsAcc(d0) && IsAcc(d1)
    && forall lane, r :: LaneReg(lane, r) ==>
         d0[lane, r] == Fin(out(lane % 32, AccRow(lane, r))) && d1[lane, r] == Fin(out(lane % 32, 32 + AccRow(lane, r)))
  }

  /** The bf16 stored for a value of a row whose probabilities add up to l. */
  function Stored(bits: real -> bv32, acc: real, l: real): bv16 {
    High(bits(Normalise(acc, l)))
  }

  /** Element index of O[row][col]. */
  function OCell(oBase: int, strideO: int, row: int, col: int): int {
    oBase + ElemIndex(strideO, row, col)
  }

  lemma OCellInjective(oBase: int, strideO: int, row: int, col: int, row': int, col': int)
    requires strideO >= 64 && 0 <= col < 64 && 0 <= col' < 64
    requires OCell(oBase, strideO, row, col) == OCell(oBase, strideO, row', col')
    ensures row == row' && col == col'
  {
    assert strideO * (row - row') == row * strideO - row' * strideO;
    if row != row' {
      MultipleIsLarge(strideO, row - row');
      assert false;
    }
  }

  // ---- packing ----

  /** Output register q of a lane: 16 of the first accumulator, then 16 of the second. */
  function OutRegister(d0: array2<Flt>, d1: array2<Flt>, lane: int, q: int): Flt
    requires IsAcc(d0) && IsAcc(d1) && 0 <= lane < 64 && 0 <= q < 32
    reads d0, d1
  {
    if q < 16 then d0[lane, q] else d1[lane, q - 16]
  }

  /** Headdim of output register q of a lane. */
  function OutColumn(lane: int, q: int): int {
    8 * (q / 4) + 4 * (lane / 32) + q % 4
  }

  lemma OutRegisterHolds(d0: array2<Flt>, d1: array2<Flt>, out: Lanes, lane: int, q: int)
    requires OutputHolds(d0, d1, out) && 0 <= lane < 64 && 0 <= q < 32
    ensures OutRegister(d0, d1, lane, q) == Fin(out(lane % 32, OutColumn(lane, q)))
  {
    var r := q % 16;
    assert LaneReg(lane, r);
    if q < 16 {
      assert AccRow(lane, q) == OutColumn(lane, q);
    } else {
      assert 32 + AccRow(lane, q - 16) == OutColumn(lane, q);
    }
    hide AccRow, OutColumn;
  }

  /** The dword that holds registers 2i and 2i + 1 of a lane, normalised and truncated. */
  function PackedPair(bits: real -> bv32, out: Lanes, l: real, lane: int, i: int): bv32 {
    Pack(Stored(bits, out(lane % 32, OutColumn(lane, 2 * i)), l),
      Stored(bits, out(lane % 32, OutColumn(lane, 2 * i + 1)), l))
  }

  ghost predicate PackedUpTo(packed: array2<bv32>, bits: real -> bv32, out: Lanes, rsum: seq<real>, n: int)
    reads packed
  {
    && packed.Length0 == 64 && packed.Length1 == 16 && |rsum| == 64
    && forall lane, i :: 0 <= lane < 64 && 0 <= i < 16 && i < n ==>
         packed[lane, i] == PackedPair(bits, out, rsum[lane], lane, i)
  }

  /** Two registers times the inverse of the row sum, their high halves packed by v_perm. */
  function PermPair(bits: real -> bv32, v0: Flt, v1: Flt, inv: real): bv32 {
    if v0.Fin? && v1.Fin? then Perm(bits(Scaled(v1.v, inv)), bits(Scaled(v0.v, inv)), 7, 6, 3, 2) else 0
  }

  lemma NormaliseIsInverse(acc: real, l: real)
    ensures Scaled(acc, Inverse(l)) == Normalise(acc, l)
  {
  }

  lemma PairIsPacked(bits: real -> bv32, a0: real, a1: real, l: real)
    ensures PermPair(bits, Fin(a0), Fin(a1), Inverse(l)) == Pack(Stored(bits, a0, l), Stored(bits, a1, l))
  {
    NormaliseIsInverse(a0, l);
    NormaliseIsInverse(a1, l);
    hide Perm, Pack, High, Inverse, Normalise, Scaled;
    PermTruncates(bits(Scaled(a1, Inverse(l))), bits(Scaled(a0, Inverse(l))));
  }

  method PackRegister(packed: array2<bv32>, d0: array2<Flt>, d1: array2<Flt>, rsum: seq<real>, bits: real -> bv32,
                      i: int, ghost out: Lanes)
    requires OutputHolds(d0, d1, out) && 0 <= i < 16 && PackedUpTo(packed, bits, out, rsum, i)
    modifies packed
    ensures PackedUpTo(packed, bits, out, rsum, i + 1)
  {
    forall lane | 0 <= lane < 64
      ensures PermPair(bits, OutRegister(d0, d1, lane, 2 * i), OutRegister(d0, d1, lane, 2 * i + 1),
          Inverse(rsum[lane]))
           == PackedPair(bits, out, rsum[lane], lane, i) {
      hide PermPair, Inverse, OutRegister, Stored, OutputHolds, Pack;
      OutRegisterHolds(d0, d1, out, lane, 2 * i);
      OutRegisterHolds(d0, d1, out, lane, 2 * i + 1);
      PairIsPacked(bits, out(lane % 32, OutColumn(lane, 2 * i)), out(lane % 32, OutColumn(lane, 2 * i + 1)),
        rsum[lane]);
    }
    hide PermPair, Inverse, OutRegister, PackedPair;
    forall lane | 0 <= lane < 64 {
      packed[lane, i] :=
        PermPair(bits, OutRegister(d0, d1, lane, 2 * i), OutRegister(d0, d1, lane, 2 * i + 1), Inverse(rsum[lane]));
    }
  }

  /** The 32 outputs of a lane, as 16 dwords. */
  method PackOutput(d0: array2<Flt>, d1: array2<Flt>, rsum: seq<real>, bits: real -> bv32, ghost out: Lanes)
    returns (packed: array2<bv32>)
    requires OutputHolds(d0, d1, out) && |rsum| == 64
    ensures fresh(packed) && PackedUpTo(packed, bits, out, rsum, 16)
  {
    packed := new bv32[64, 16];
    hide PackedPair, OutputHolds;
    for i := 0 to 16
      invariant PackedUpTo(packed, bits, out, rsum, i)
    {
      PackRegister(packed, d0, d1, rsum, bits, i, out);
    }
  }

  // ---- stores ----

  lemma QuadElem(x0: bv16, x1: bv16, x2: bv16, x3: bv16, c: int)
    requires 0 <= c < 4
    ensures Elem(V2i(Pack(x0, x1), Pack(x2, x3)), c) == if c == 0 then x0 else if c == 1 then x1 else if c == 2 then x2
        else x3
  {
    PackParts(x0, x1);
    PackParts(x2, x3);
    hide Low, High, Pack;
  }

  lemma PairElems(bits: real -> bv32, out: Lanes, l: real, lane: int, s: int, c: int)
    requires 0 <= c < 4
    ensures Elem(V2i(PackedPair(bits, out, l, lane, 2 * s), PackedPair(bits, out, l, lane, 2 * s + 1)), c)
         == Stored(bits, out(lane % 32, OutColumn(lane, 4 * s + c)), l)
  {
    hide Elem, Stored, OutColumn, Pack;
    var m, q := lane % 32, 4 * s;
    QuadElem(Stored(bits, out(m, OutColumn(lane, q)), l), Stored(bits, out(m, OutColumn(lane, q + 1)), l),
             Stored(bits, out(m, OutColumn(lane, q + 2)), l), Stored(bits, out(m, OutColumn(lane, q + 3)), l), c);
  }

  /** The four elements of one dwordx2 store of a lane. */
  lemma PackedElems(packed: array2<bv32>, bits: real -> bv32, out: Lanes, rsum: seq<real>, lane: int, s: int, c: int)
    requires PackedUpTo(packed, bits, out, rsum, 16) && 0 <= lane < 64 && 0 <= s < 8 && 0 <= c < 4
    ensures Elem(V2i(packed[lane, 2 * s], packed[lane, 2 * s + 1]), c)
         == Stored(bits, out(lane % 32, 8 * s + 4 * (lane / 32) + c), rsum[lane])
  {
    hide Elem, Stored, OutColumn, PackedPair;
    assert packed[lane, 2 * s] == PackedPair(bits, out, rsum[lane], lane, 2 * s);
    assert packed[lane, 2 * s + 1] == PackedPair(bits, out, rsum[lane], lane, 2 * s + 1);
    PairElems(bits, out, rsum[lane], lane, s, c);
    StoreColumn(lane, s, c);
  }

  lemma StoreColumn(lane: int, s: int, c: int)
    requires 0 <= c < 4
    ensures OutColumn(lane, 4 * s + c) == 8 * s + 4 * (lane / 32) + c
  {
    DivMod(4 * s + c, 4, s, c);
  }

  /** Where a wave writes: 32 rows from rowBase, those before seqlenQ. */
  datatype Rows = Rows(oBase: int, strideO: int, rowBase: int, seqlenQ: int)

  function RowCell(at: Rows, l: int, d: int): int {
    OCell(at.oBase, at.strideO, at.rowBase + l, d)
  }

  predicate ValidRow(at: Rows, l: int) {
    0 <= l < 32 && at.rowBase + l < at.seqlenQ
  }

  ghost predicate RowsFit(at: Rows, n: int) {
    && at.strideO >= 64
    && forall l, d :: ValidRow(at, l) && 0 <= d < 64 ==> 0 <= RowCell(at, l, d) < n
  }

  ghost predicate WaveCell(at: Rows, i: int) {
    exists l, d :: ValidRow(at, l) && 0 <= d < 64 && i == RowCell(at, l, d)
  }

  /** The outputs marked done hold val, every other cell of memory is as it was. */
  ghost predicate Wrote(o: array<bv16>, was: seq<bv16>, at: Rows, val: (int, int) -> bv16, done: (int, int) -> bool)
    reads o
  {
    && |was| == o.Length && RowsFit(at, o.Length)
    && (forall l, d :: ValidRow(at, l) && 0 <= d < 64 ==>
          o[RowCell(at, l, d)] == if done(l, d) then val(l, d) else was[RowCell(at, l, d)])
    && (forall i :: 0 <= i < o.Length && !WaveCell(at, i) ==> o[i] == was[i])
  }

  lemma RowCellInjective(at: Rows, l: int, d: int, l': int, d': int)
    requires at.strideO >= 64 && 0 <= d < 64 && 0 <= d' < 64
    ensures RowCell(at, l, d) == RowCell(at, l', d') ==> l == l' && d == d'
  {
    if RowCell(at, l, d) == RowCell(at, l', d') {
      OCellInjective(at.oBase, at.strideO, at.rowBase + l, d, at.rowBase + l', d');
    }
  }

  lemma SameWrote(o: array<bv16>, was: seq<bv16>, at: Rows, val: (int, int) -> bv16,
                  done: (int, int) -> bool, done': (int, int) -> bool)
    requires Wrote(o, was, at, val, done)
    requires forall l, d :: 0 <= l < 32 && 0 <= d < 64 ==> done(l, d) == done'(l, d)
    ensures Wrote(o, was, at, val, done')
  {
    hide RowCell;
  }

  method PutElem(o: array<bv16>, cell: int, v: bv16, ghost was: seq<bv16>, ghost at: Rows,
                 ghost val: (int, int) -> bv16, ghost done: (int, int) -> bool, ghost l: int, ghost d: int)
    requires Wrote(o, was, at, val, done) && ValidRow(at, l) && 0 <= d < 64 && cell == RowCell(at, l, d)
        && v == val(l, d)
    modifies o
    ensures Wrote(o, was, at, val, (l', d') => done(l', d') || (l' == l && d' == d))
  {
    forall l', d' | 0 <= d' < 64 ensures RowCell(at, l', d') == cell ==> l' == l && d' == d {
      RowCellInjective(at, l', d', l, d);
    }
    hide RowCell;
    o[cell] := v;
  }

  /** One lane's dwordx2 store: four neighbouring columns of its row. */
  method StoreB64(o: array<bv16>, cell: int, data: V2i, ghost was: seq<bv16>, ghost at: Rows,
                  ghost val: (int, int) -> bv16, ghost done: (int, int) -> bool, ghost l: int, ghost first: int)
    requires Wrote(o, was, at, val, done) && ValidRow(at, l) && 0 <= first && first + 4 <= 64
        && cell == RowCell(at, l, first)
    requires forall c :: 0 <= c < 4 ==> Elem(data, c) == val(l, first + c)
    modifies o
    ensures Wrote(o, was, at, val, (l', d) => done(l', d) || (l' == l && first <= d < first + 4))
  {
    NextColumns(at, l, first);
    hide Elem, RowCell, Wrote;
    ghost var done1: (int, int) -> bool := (l', d) => done(l', d) || (l' == l && d == first);
    ghost var done2: (int, int) -> bool := (l', d) => done1(l', d) || (l' == l && d == first + 1);
    ghost var done3: (int, int) -> bool := (l', d) => done2(l', d) || (l' == l && d == first + 2);
    PutElem(o, cell, Elem(data, 0), was, at, val, done, l, first);
    PutElem(o, cell + 1, Elem(data, 1), was, at, val, done1, l, first + 1);
    PutElem(o, cell + 2, Elem(data, 2), was, at, val, done2, l, first + 2);
    PutElem(o, cell + 3, Elem(data, 3), was, at, val, done3, l, first + 3);
    SameWrote(o, was, at, val, (l', d) => done3(l', d) || (l' == l && d == first + 3),
      (l', d) => done(l', d) || (l' == l && first <= d < first + 4));
  }

  lemma NextColumns(at: Rows, l: int, first: int)
    ensures RowCell(at, l, first + 1) == RowCell(at, l, first) + 1
    ensures RowCell(at, l, first + 2) == RowCell(at, l, first) + 2
    ensures RowCell(at, l, first + 3) == RowCell(at, l, first) + 3
  {
  }

  /** What is stored once stores before s are complete and store s has been done by the lanes before lane. */
  function Done(s: int, lane: int): (int, int) -> bool {
    (l, d) => d / 8 < s || (d / 8 == s && l + 32 * ((d / 4) % 2) < lane)
  }

  lemma DoneStep(s: int, lane: int, l: int, d: int)
    requires 0 <= s < 8 && 0 <= lane < 64 && 0 <= l < 32 && 0 <= d < 64
    ensures var first := 8 * s + 4 * (lane / 32);
      Done(s, lane + 1)(l, d) <==> Done(s, lane)(l, d) || (l == lane % 32 && first <= d < first + 4)
  {
  }

  lemma StoreCell(at: Rows, lane: int, s: int)
    requires 0 <= lane < 64
    ensures at.oBase + (ElemIndex(at.strideO, at.rowBase + lane % 32, Swz((lane / 32) * 8)) * 2 + s * 16) / 2
         == RowCell(at, lane % 32, 8 * s + 4 * (lane / 32))
  {
    assert Swz((lane / 32) * 8) == 4 * (lane / 32);
    SameRow(at.strideO, at.rowBase + lane % 32, 4 * (lane / 32), 8 * s);
    hide ElemIndex, Swz;
  }

  lemma SameRow(stride: int, row: int, col: int, n: int)
    ensures ElemIndex(stride, row, n + col) == ElemIndex(stride, row, col) + n
  {
  }

  /** Store s of one lane: its column base is swz(k_sub * 8), its immediate s * 16 bytes. */
  method StoreLane(o: array<bv16>, packed: array2<bv32>, at: Rows, lane: int, s: int, ghost was: seq<bv16>,
                   ghost bits: real -> bv32, ghost out: Lanes, ghost rsum: seq<real>, ghost val: (int, int) -> bv16)
    requires 0 <= lane < 64 && 0 <= s < 8 && PackedUpTo(packed, bits, out, rsum, 16)
    requires forall d :: val(lane % 32, d) == Stored(bits, out(lane % 32, d), rsum[lane])
    requires Wrote(o, was, at, val, Done(s, lane))
    modifies o
    ensures Wrote(o, was, at, val, Done(s, lane + 1))
  {
    hide Wrote, Elem, Done, Swz, ElemIndex, RowCell, Stored, PackedPair;
    var row := at.rowBase + lane % 32;
    var data := V2i(packed[lane, 2 * s], packed[lane, 2 * s + 1]);
    ghost var first := 8 * s + 4 * (lane / 32);
    forall c | 0 <= c < 4 ensures Elem(data, c) == val(lane % 32, first + c) {
      PackedElems(packed, bits, out, rsum, lane, s, c);
    }
    hide PackedUpTo;
    if row < at.seqlenQ {
      var voffset := ElemIndex(at.strideO, row, Swz((lane / 32) * 8)) * 2;
      StoreCell(at, lane, s);
      StoreB64(o, at.oBase + (voffset + s * 16) / 2, data, was, at, val, Done(s, lane), lane % 32, first);
      LaneStored(o, was, at, val, s, lane);
    } else {
      LaneSkipped(o, was, at, val, s, lane);
    }
  }

  lemma LaneStored(o: array<bv16>, was: seq<bv16>, at: Rows, val: (int, int) -> bv16, s: int, lane: int)
    requires 0 <= s < 8 && 0 <= lane < 64
    requires var first := 8 * s + 4 * (lane / 32);
      Wrote(o, was, at, val, (l, d) => Done(s, lane)(l, d) || (l == lane % 32 && first <= d < first + 4))
    ensures Wrote(o, was, at, val, Done(s, lane + 1))
  {
    hide Wrote, Done;
    var first := 8 * s + 4 * (lane / 32);
    forall l, d | 0 <= l < 32 && 0 <= d < 64
      ensures (Done(s, lane)(l, d) || (l == lane % 32 && first <= d < first + 4)) == Done(s, lane + 1)(l, d) {
      DoneStep(s, lane, l, d);
    }
    SameWrote(o, was, at, val,
      (l, d) => Done(s, lane)(l, d) || (l == lane % 32 && first <= d < first + 4), Done(s, lane + 1));
  }

  lemma LaneSkipped(o: array<bv16>, was: seq<bv16>, at: Rows, val: (int, int) -> bv16, s: int, lane: int)
    requires 0 <= s < 8 && 0 <= lane < 64 && !ValidRow(at, lane % 32)
    requires Wrote(o, was, at, val, Done(s, lane))
    ensures Wrote(o, was, at, val, Done(s, lane + 1))
  {
    hide Wrote, Done;
    forall l, d | 0 <= l < 32 && 0 <= d < 64 && l != lane % 32 ensures Done(s, lane)(l, d) == Done(s, lane + 1)(l, d) {
      DoneStep(s, lane, l, d);
    }
    SkippedRow(o, was, at, val, Done(s, lane), Done(s, lane + 1), lane % 32);
  }

  lemma SkippedRow(o: array<bv16>, was: seq<bv16>, at: Rows, val: (int, int) -> bv16,
                   done: (int, int) -> bool, done': (int, int) -> bool, l0: int)
    requires Wrote(o, was, at, val, done) && !ValidRow(at, l0)
    requires forall l, d :: 0 <= l < 32 && 0 <= d < 64 && l != l0 ==> done(l, d) == done'(l, d)
    ensures Wrote(o, was, at, val, done')
  {
    hide RowCell;
  }

  function StoredRows(bits: real -> bv32, out: Lanes, rsum: seq<real>): (int, int) -> bv16 {
    (l, d) => Stored(bits, out(l, d), if 0 <= l < |rsum| then rsum[l] else 0.0)
  }

  lemma NextStore(o: array<bv16>, was: seq<bv16>, at: Rows, val: (int, int) -> bv16, s: int)
    requires Wrote(o, was, at, val, Done(s, 64))
    ensures Wrote(o, was, at, val, Done(s + 1, 0))
  {
    forall l, d | 0 <= l < 32 && 0 <= d < 64 ensures Done(s, 64)(l, d) == Done(s + 1, 0)(l, d) {
    }
    hide Wrote, Done;
    SameWrote(o, was, at, val, Done(s, 64), Done(s + 1, 0));
  }

  lemma NothingDone(o: array<bv16>, was: seq<bv16>, at: Rows, val: (int, int) -> bv16)
    requires was == o[..] && RowsFit(at, o.Length)
    ensures Wrote(o, was, at, val, Done(0, 0))
  {
    hide RowCell;
  }

  /** Eight stores per lane write each of the 64 columns of each valid row once, with the value of that headdim. */
  method StoreOutput(o: array<bv16>, packed: array2<bv32>, at: Rows, ghost bits: real -> bv32, ghost out: Lanes,
                     ghost rsum: seq<real>)
    requires RowsFit(at, o.Length) && PackedUpTo(packed, bits, out, rsum, 16) && PairsAgree(rsum)
    modifies o
    ensures Wrote(o, old(o[..]), at, StoredRows(bits, out, rsum), Done(8, 0))
  {
    ghost var was, val := o[..], StoredRows(bits, out, rsum);
    NothingDone(o, was, at, val);
    forall lane | 0 <= lane < 64
      ensures forall d :: val(lane % 32, d) == Stored(bits, out(lane % 32, d), rsum[lane]) {
      PairValue(rsum, lane);
    }
    hide Wrote, Done, StoredRows, Stored, PackedPair;
    for s := 0 to 8
      invariant PackedUpTo(packed, bits, out, rsum, 16)
      invariant Wrote(o, was, at, val, Done(s, 0))
    {
      for lane := 0 to 64
        invariant PackedUpTo(packed, bits, out, rsum, 16)
        invariant Wrote(o, was, at, val, Done(s, lane))
      {
        StoreLane(o, packed, at, lane, s, was, bits, out, rsum, val);
      }
      NextStore(o, was, at, val, s);
    }
  }

  // ---- log-sum-exp ----

  function LseOf(log2: real -> real, ln2: real, scale: real, l: real, m: Flt): Flt {
    if l > 0.0 && m.Fin? then Fin(Scaled(ln2, log2(l) + Scaled(scale, m.v))) else NegInf
  }

  /** The log-sum-exps of the wave's valid rows; only the lower half of the lanes writes. */
  method StoreLse(lse: array<Flt>, lseBase: int, at: Rows, rsum: seq<real>, rmax: seq<Flt>,
                  scale: real, log2: real -> real, ln2: real)
    requires |rsum| == |rmax| == 64
    requires forall lane :: 0 <= lane < 64 && rsum[lane] > 0.0 ==> rmax[lane].Fin?
    requires forall l :: ValidRow(at, l) ==> 0 <= lseBase + at.rowBase + l < lse.Length
    modifies lse
    ensures forall l :: ValidRow(at, l) ==>
              lse[lseBase + at.rowBase + l] == LseOf(log2, ln2, scale, rsum[l], rmax[l])
    ensures forall i :: 0 <= i < lse.Length && !ValidRow(at, i - (lseBase + at.rowBase)) ==> lse[i] == old(lse[i])
  {
    hide LseOf;
    var first := lseBase + at.rowBase;
    forall lane | 0 <= lane < 64 && lane / 32 == 0 && ValidRow(at, lane % 32) {
      lse[first + lane] := LseOf(log2, ln2, scale, rsum[lane], rmax[lane]);
    }
  }

  /** Two tensors that do not share memory. */
  ghost predicate Apart(a: object?, b: object?) {
    a != b
  }

  /** epilog_store: the wave's rows of O and, when asked for, their log-sum-exps. */
  method EpilogStore(d0: array2<Flt>, d1: array2<Flt>, rsum: seq<real>, rmax: seq<Flt>, scale: real, at: Rows,
                     lse: array?<Flt>, lseBase: int, o: array<bv16>, bits: real -> bv32, log2: real -> real, ln2: real,
                     ghost out: Lanes)
    requires OutputHolds(d0, d1, out) && PairsAgree(rsum) && |rmax| == 64 && Apart(o, lse)
    requires forall lane :: 0 <= lane < 64 && rsum[lane] > 0.0 ==> rmax[lane].Fin?
    requires RowsFit(at, o.Length)
    requires lse != null ==> forall l :: ValidRow(at, l) ==> 0 <= lseBase + at.rowBase + l < lse.Length
    modifies o, lse
    ensures forall l, d :: ValidRow(at, l) && 0 <= d < 64 ==> o[RowCell(at, l, d)] == Stored(bits, out(l, d), rsum[l])
    ensures forall i :: 0 <= i < o.Length && !WaveCell(at, i) ==> o[i] == old(o[i])
    ensures lse != null ==> forall l :: ValidRow(at, l) ==>
              lse[lseBase + at.rowBase + l] == LseOf(log2, ln2, scale, rsum[l], rmax[l])
    ensures lse != null ==> forall i :: 0 <= i < lse.Length && !ValidRow(at, i - (lseBase + at.rowBase)) ==>
              lse[i] == old(lse[i])
  {
    hide LseOf, Stored, RowCell, Wrote, OutputHolds, PackedUpTo;
    if lse != null {
      StoreLse(lse, lseBase, at, rsum, rmax, scale, log2, ln2);
    }
    var packed := PackOutput(d0, d1, rsum, bits, out);
    assert o[..] == old(o[..]);
    StoreOutput(o, packed, at, bits, out, rsum);
    AllStored(o, old(o[..]), at, bits, out, rsum);
  }

  lemma AllStored(o: array<bv16>, was: seq<bv16>, at: Rows, bits: real -> bv32, out: Lanes, rsum: seq<real>)
    requires |rsum| == 64 && Wrote(o, was, at, StoredRows(bits, out, rsum), Done(8, 0))
    ensures RowsFit(at, o.Length) && |was| == o.Length
    ensures forall l, d :: ValidRow(at, l) && 0 <= d < 64 ==> o[RowCell(at, l, d)] == Stored(bits, out(l, d), rsum[l])
    ensures forall i :: 0 <= i < o.Length && !WaveCell(at, i) ==> o[i] == was[i]
  {
    hide RowCell, Stored;
    forall l, d | ValidRow(at, l) && 0 <= d < 64 ensures Done(8, 0)(l, d) {
    }
  }
}
