/** The softmax steps on one tile of scores, as a wave of 64 lanes runs them.

    A lane holds 32 of a row's 64 columns, lane + 32 (or - 32) the others: cells(row, column) is the tile,
    row being the lane modulo 32. */
module SoftmaxOps {
  import opened Sums
  import opened Exponential
  import opened Floats
  import opened Layout
  import opened Mfma

  type Cells = (int, int) -> Flt

  /** The two accumulators hold the left and the right 32 columns of the tile. */
  ghost predicate TileHolds(n0: array2<Flt>, n1: array2<Flt>, cells: Cells)
    reads n0, n1
  {
    && n0 != n1 && IsAcc(n0) && IsAcc(n1)
    && forall lane, r :: LaneReg(lane, r) ==>
         n0[lane, r] == cells(lane % 32, Free(lane, r)) && n1[lane, r] == cells(lane % 32, 32 + Free(lane, r))
  }

  /** The lane that holds the row's other columns. */
  function Partner(lane: int): int {
    (lane + 32) % 64
  }

  ghost predicate PairsAgree(s: seq<real>) {
    |s| == 64 && forall lane :: 0 <= lane < 64 ==> s[lane] == s[Partner(lane)]
  }

  // ---- mask ----

  /** In bounds and, under the causal mask, not past the row's diagonal. */
  predicate Kept(causal: bool, seqlenK: int, maskShift: int, row: int, col: int) {
    col < seqlenK && (causal ==> col <= row + maskShift)
  }

  function MaskedCells(cells: Cells, causal: bool, seqlenK: int, maskShift: int, rowBase: int, kvOffset: int): Cells {
    (l, c) => if Kept(causal, seqlenK, maskShift, rowBase + l, kvOffset + c) then cells(l, c) else NegInf
  }

  /** The column offsets of a lane's registers, before the lane's half is added. */
  const OFFSETS: seq<int> := [0, 1, 2, 3, 4, 5, 6, 7, 16, 17, 18, 19, 20, 21, 22, 23]

  /** The first offset at which a lane's columns are masked. */
  function Limit(causal: bool, seqlenK: int, maskShift: int, row: int, colBase: int): int {
    var limit := seqlenK - colBase;
    var diagonal := row + maskShift - colBase + 1;
    if causal && diagonal < limit then diagonal else limit
  }

  function MaskOne(s: Flt, off: int, limit: int): Flt {
    if off >= limit then NegInf else s
  }

  /** One compare against the folded limit is both mask conditions. */
  lemma LimitIsMask(cells: Cells, causal: bool, seqlenK: int, maskShift: int, rowBase: int, kvOffset: int,
                    lane: int, i: int, half: int)
    requires LaneReg(lane, i) && 0 <= half < 2
    ensures var c := 32 * half + Free(lane, i);
      MaskOne(cells(lane % 32, c), OFFSETS[i] + 32 * half,
              Limit(causal, seqlenK, maskShift, rowBase + lane % 32, kvOffset + (lane / 32) * 8))
      == MaskedCells(cells, causal, seqlenK, maskShift, rowBase, kvOffset)(lane % 32, c)
  {
    OffsetIsFree(lane, i);
    hide Free;
  }

  lemma OffsetIsFree(lane: int, i: int)
    requires LaneReg(lane, i)
    ensures Free(lane, i) == (lane / 32) * 8 + OFFSETS[i]
  {
  }

  /** A tile that takes the fast path has nothing to mask. */
  lemma FastPathKeepsAll(causal: bool, seqlenK: int, maskShift: int, mTileBase: int, row: int, kvOffset: int, c: int)
    requires kvOffset + 64 <= seqlenK && (causal ==> kvOffset + 64 <= mTileBase + maskShift + 1)
    requires mTileBase <= row && c < 64
    ensures Kept(causal, seqlenK, maskShift, row, kvOffset + c)
  {
  }

  /** One register of every lane, compared against the lane's limit. */
  method MaskRegister(acc: array2<Flt>, i: int, off: int, limit: seq<int>)
    requires IsAcc(acc) && 0 <= i < 16 && |limit| == 64
    modifies acc
    ensures forall lane, r :: LaneReg(lane, r) ==>
              acc[lane, r] == if r == i then MaskOne(old(acc[lane, r]), off, limit[lane]) else old(acc[lane, r])
  {
    forall lane | 0 <= lane < 64 {
      acc[lane, i] := MaskOne(acc[lane, i], off, limit[lane]);
    }
  }

  /** The limits of the 64 lanes. */
  ghost predicate LimitsOf(limit: seq<int>, causal: bool, seqlenK: int, maskShift: int, rowBase: int, kvOffset: int) {
    && |limit| == 64
    && forall lane :: 0 <= lane < 64 ==>
         limit[lane] == Limit(causal, seqlenK, maskShift, rowBase + lane % 32, kvOffset + (lane / 32) * 8)
  }

  /** A half tile, its first i registers masked. */
  ghost predicate HalfMasked(acc: array2<Flt>, cells: Cells, masked: Cells, half: int, i: int)
    reads acc
  {
    && IsAcc(acc)
    && forall lane, r :: LaneReg(lane, r) ==>
         acc[lane, r] == if r < i then masked(lane % 32, 32 * half + Free(lane, r))
           else cells(lane % 32, 32 * half + Free(lane, r))
  }

  method MaskStep(acc: array2<Flt>, i: int, limit: seq<int>, ghost half: int, off: int, ghost cells: Cells,
                  ghost causal: bool, ghost seqlenK: int, ghost maskShift: int, ghost rowBase: int, ghost kvOffset: int)
    requires 0 <= i < 16 && 0 <= half < 2 && off == OFFSETS[i] + 32 * half
    requires LimitsOf(limit, causal, seqlenK, maskShift, rowBase, kvOffset)
    requires HalfMasked(acc, cells, MaskedCells(cells, causal, seqlenK, maskShift, rowBase, kvOffset), half, i)
    modifies acc
    ensures HalfMasked(acc, cells, MaskedCells(cells, causal, seqlenK, maskShift, rowBase, kvOffset), half, i + 1)
  {
    ghost var masked := MaskedCells(cells, causal, seqlenK, maskShift, rowBase, kvOffset);
    hide Limit, MaskOne, MaskedCells, Free;
    forall lane | 0 <= lane < 64
      ensures MaskOne(acc[lane, i], off, limit[lane]) == masked(lane % 32, 32 * half + Free(lane, i)) {
      assert LaneReg(lane, i);
      LimitIsMask(cells, causal, seqlenK, maskShift, rowBase, kvOffset, lane, i, half);
    }
    MaskRegister(acc, i, off, limit);
  }

  /** Lane rows are rowBase + lane % 32, none above the tile's first row. */
  method SoftmaxMask(n0: array2<Flt>, n1: array2<Flt>, causal: bool, seqlenK: int, kvOffset: int, rowBase: int,
                     maskShift: int, mTileBase: int, ghost cells: Cells)
    requires TileHolds(n0, n1, cells) && mTileBase <= rowBase
    modifies n0, n1
    ensures TileHolds(n0, n1, MaskedCells(cells, causal, seqlenK, maskShift, rowBase, kvOffset))
  {
    hide Free;
    if !causal {
      if kvOffset + 64 <= seqlenK {
        FastTile(n0, n1, causal, seqlenK, kvOffset, rowBase, maskShift, mTileBase, cells);
        return;
      }
    } else {
      if kvOffset + 64 <= mTileBase + maskShift + 1 && kvOffset + 64 <= seqlenK {
        FastTile(n0, n1, causal, seqlenK, kvOffset, rowBase, maskShift, mTileBase, cells);
        return;
      }
    }
    ghost var masked := MaskedCells(cells, causal, seqlenK, maskShift, rowBase, kvOffset);
    var limit := seq(64, lane => Limit(causal, seqlenK, maskShift, rowBase + lane % 32, kvOffset + (lane / 32) * 8));
    assert LimitsOf(limit, causal, seqlenK, maskShift, rowBase, kvOffset);
    assert HalfMasked(n0, cells, masked, 0, 0) && HalfMasked(n1, cells, masked, 1, 0);
    hide LimitsOf, MaskedCells, HalfMasked;
    for i := 0 to 16
      invariant HalfMasked(n0, cells, masked, 0, i) && HalfMasked(n1, cells, masked, 1, i)
    {
      var off := OFFSETS[i];
      MaskStep(n0, i, limit, 0, off, cells, causal, seqlenK, maskShift, rowBase, kvOffset);
      MaskStep(n1, i, limit, 1, off + 32, cells, causal, seqlenK, maskShift, rowBase, kvOffset);
    }
    BothMasked(n0, n1, cells, masked);
  }

  lemma BothMasked(n0: array2<Flt>, n1: array2<Flt>, cells: Cells, masked: Cells)
    requires n0 != n1 && HalfMasked(n0, cells, masked, 0, 16) && HalfMasked(n1, cells, masked, 1, 16)
    ensures TileHolds(n0, n1, masked)
  {
    hide Free;
  }

  lemma FastTile(n0: array2<Flt>, n1: array2<Flt>, causal: bool, seqlenK: int, kvOffset: int, rowBase: int,
                 maskShift: int, mTileBase: int, cells: Cells)
    requires TileHolds(n0, n1, cells) && mTileBase <= rowBase
    requires kvOffset + 64 <= seqlenK && (causal ==> kvOffset + 64 <= mTileBase + maskShift + 1)
    ensures TileHolds(n0, n1, MaskedCells(cells, causal, seqlenK, maskShift, rowBase, kvOffset))
  {
    hide Free, AccRow, Swz, Kept;
    ghost var masked := MaskedCells(cells, causal, seqlenK, maskShift, rowBase, kvOffset);
    forall lane, r | LaneReg(lane, r)
      ensures n0[lane, r] == masked(lane % 32, Free(lane, r)) && n1[lane, r] == masked(lane % 32, 32 + Free(lane, r)) {
      AccRowSwizzled(lane, r);
      FastPathKeepsAll(causal, seqlenK, maskShift, mTileBase, rowBase + lane % 32, kvOffset, Free(lane, r));
      FastPathKeepsAll(causal, seqlenK, maskShift, mTileBase, rowBase + lane % 32, kvOffset, 32 + Free(lane, r));
    }
  }

  // ---- row maximum ----

  /** m is the largest of start and the finite entries of a row of the tile. */
  ghost predicate IsTileMax(m: real, start: real, cells: Cells, l: int) {
    && m >= start
    && (forall c :: 0 <= c < 64 && cells(l, c).Fin? ==> cells(l, c).v <= m)
    && (m == start || exists c :: 0 <= c < 64 && cells(l, c) == Fin(m))
  }

  /** Every lane of m has the maximum of its whole row, on top of its start in rmax. */
  ghost predicate RowMaxes(m: seq<real>, rmax: seq<real>, cells: Cells) {
    && |m| == |rmax| == 64
    && forall lane :: 0 <= lane < 64 ==> IsTileMax(m[lane], rmax[lane], cells, lane % 32)
  }

  /** Column of register j of a lane, in the left (h = 0) or right (h = 1) half of the tile. */
  function LaneColumn(lane: int, j: int, h: int): int {
    32 * h + Free(lane, j)
  }

  /** m is the largest of start and the first i registers of a lane's two accumulators. */
  ghost predicate IsLaneMax(m: real, start: real, cells: Cells, lane: int, i: int) {
    && m >= start
    && (forall j, h :: 0 <= j < i && 0 <= h < 2 && cells(lane % 32, LaneColumn(lane, j, h)).Fin? ==>
          cells(lane % 32, LaneColumn(lane, j, h)).v <= m)
    && (m == start || exists j, h :: 0 <= j < i && 0 <= h < 2 && cells(lane % 32, LaneColumn(lane, j, h)) == Fin(m))
  }

  lemma LaneMaxStep(m: real, start: real, cells: Cells, lane: int, i: int)
    requires IsLaneMax(m, start, cells, lane, i) && 0 <= i
    ensures IsLaneMax(FMax(FMax(m, cells(lane % 32, LaneColumn(lane, i, 0))), cells(lane % 32, LaneColumn(lane, i, 1))),
              start, cells, lane, i + 1)
  {
    hide LaneColumn;
    var s0, s1 := cells(lane % 32, LaneColumn(lane, i, 0)), cells(lane % 32, LaneColumn(lane, i, 1));
    var m' := FMax(FMax(m, s0), s1);
    forall j, h | 0 <= j < i + 1 && 0 <= h < 2 && cells(lane % 32, LaneColumn(lane, j, h)).Fin?
      ensures cells(lane % 32, LaneColumn(lane, j, h)).v <= m' {
      assert j == i ==> h == 0 || h == 1;
    }
    if m' != start && m' == m {
      var j, h :| 0 <= j < i && 0 <= h < 2 && cells(lane % 32, LaneColumn(lane, j, h)) == Fin(m);
      assert 0 <= j < i + 1;
    }
  }

  /** Between them, a lane and its partner hold every column of the row. */
  lemma ColumnOwner(lane: int, c: int) returns (owner: int, j: int, h: int)
    requires 0 <= lane < 64 && 0 <= c < 64
    ensures owner == lane || owner == Partner(lane)
    ensures 0 <= owner < 64 && owner % 32 == lane % 32 && 0 <= j < 16 && 0 <= h < 2 && LaneColumn(owner, j, h) == c
  {
    h := c / 32;
    var n := c % 32;
    var k, l := (n / 8) % 2, lane % 32;
    j := (n / 16) * 8 + n % 8;
    owner := l + 32 * k;
    OwnerLane(lane, l, k);
    hide Free, Partner;
    ColumnDigits(n, owner, j);
    assert c == 32 * h + n;
  }

  lemma OwnerLane(lane: int, l: int, k: int)
    requires 0 <= lane < 64 && l == lane % 32 && 0 <= k < 2
    ensures var owner := l + 32 * k;
      (owner == lane || owner == Partner(lane)) && 0 <= owner < 64 && owner % 32 == l && owner / 32 == k
  {
    var q := lane / 32;
    DivMod(32 * k + l, 32, k, l);
    DivMod(lane + 32, 64, q, if q == 0 then 32 + l else l);
  }

  lemma ColumnDigits(n: int, owner: int, j: int)
    requires 0 <= n < 32 && 0 <= owner < 64 && owner / 32 == (n / 8) % 2 && j == (n / 16) * 8 + n % 8
    ensures 0 <= j < 16 && Free(owner, j) == n
  {
    FreeCoversOnce(n);
    assert LaneReg(owner, j);
    hide Free;
  }

  lemma ColumnInRange(lane: int, j: int, h: int)
    requires LaneReg(lane, j) && 0 <= h < 2
    ensures 0 <= LaneColumn(lane, j, h) < 64
  {
    AccRowSwizzled(lane, j);
  }

  /** Merging the maxima of both lanes gives the maximum of the row. */
  lemma PairMax(m: real, m': real, start: real, cells: Cells, lane: int)
    requires 0 <= lane < 64
    requires IsLaneMax(m, start, cells, lane, 16) && IsLaneMax(m', start, cells, Partner(lane), 16)
    ensures IsTileMax(FMax(m, Fin(m')), start, cells, lane % 32)
  {
    PartnerPartner(lane);
    hide Partner, LaneColumn, LaneReg;
    var top := FMax(m, Fin(m'));
    LaneTop(m, start, cells, lane, top);
    LaneTop(m', start, cells, Partner(lane), top);
    hide IsLaneMax;
    forall c | 0 <= c < 64 && cells(lane % 32, c).Fin? ensures cells(lane % 32, c).v <= top {
      var owner, j, h := ColumnOwner(lane, c);
      assert cells(owner % 32, LaneColumn(owner, j, h)).v <= top;
    }
  }

  /** One lane's share of the row: nothing above top, and its own maximum is the start or a column of the row. */
  lemma LaneTop(m: real, start: real, cells: Cells, lane: int, top: real)
    requires 0 <= lane < 64 && IsLaneMax(m, start, cells, lane, 16) && m <= top
    ensures start <= top
    ensures forall j, h :: 0 <= j < 16 && 0 <= h < 2 && cells(lane % 32, LaneColumn(lane, j, h)).Fin? ==>
              cells(lane % 32, LaneColumn(lane, j, h)).v <= top
    ensures m == start || exists c :: 0 <= c < 64 && cells(lane % 32, c) == Fin(m)
  {
    hide LaneColumn;
    if m != start {
      var j, h :| 0 <= j < 16 && 0 <= h < 2 && cells(lane % 32, LaneColumn(lane, j, h)) == Fin(m);
      ColumnInRange(lane, j, h);
    }
  }

  /** Every lane folds one register of each accumulator into its maximum. */
  method MaxStep(n0: array2<Flt>, n1: array2<Flt>, local: seq<real>, i: int, ghost rmax: seq<real>, ghost cells: Cells)
    returns (next: seq<real>)
    requires TileHolds(n0, n1, cells) && |local| == |rmax| == 64 && 0 <= i < 16
    requires forall lane :: 0 <= lane < 64 ==> IsLaneMax(local[lane], rmax[lane], cells, lane, i)
    ensures |next| == 64
    ensures forall lane :: 0 <= lane < 64 ==> IsLaneMax(next[lane], rmax[lane], cells, lane, i + 1)
  {
    hide IsLaneMax, Free, FMax;
    next := seq(64, lane requires 0 <= lane < 64 && IsAcc(n0) && IsAcc(n1) reads n0, n1 =>
              FMax(FMax(local[lane], n0[lane, i]), n1[lane, i]));
    forall lane | 0 <= lane < 64 ensures IsLaneMax(next[lane], rmax[lane], cells, lane, i + 1) {
      assert LaneReg(lane, i);
      LaneMaxStep(local[lane], rmax[lane], cells, lane, i);
    }
  }

  /** ds_bpermute from lane ^ 32: both lanes of a row end up with the maximum over both halves. */
  method MergeMax(local: seq<real>, ghost rmax: seq<real>, ghost cells: Cells) returns (m: seq<real>)
    requires |local| == 64 && PairsAgree(rmax)
    requires forall lane :: 0 <= lane < 64 ==> IsLaneMax(local[lane], rmax[lane], cells, lane, 16)
    ensures PairsAgree(m) && RowMaxes(m, rmax, cells)
  {
    hide IsLaneMax, IsTileMax;
    m := seq(64, lane requires 0 <= lane < 64 => FMax(local[lane], Fin(local[Partner(lane)])));
    forall lane | 0 <= lane < 64
      ensures m[lane] == m[Partner(lane)] && IsTileMax(m[lane], rmax[lane], cells, lane % 32) {
      PartnerPartner(lane);
      hide Partner;
      PairMax(local[lane], local[Partner(lane)], rmax[lane], cells, lane);
    }
  }

  lemma PartnerPartner(lane: int)
    requires 0 <= lane < 64
    ensures 0 <= Partner(lane) < 64 && Partner(Partner(lane)) == lane && Partner(lane) % 32 == lane % 32
  {
  }

  /** The running row maximum after this tile: both lanes of a row get the maximum of all 64 columns. */
  method SoftmaxRowMax(n0: array2<Flt>, n1: array2<Flt>, rmax: seq<real>, ghost cells: Cells) returns (m: seq<real>)
    requires TileHolds(n0, n1, cells) && PairsAgree(rmax)
    ensures PairsAgree(m) && RowMaxes(m, rmax, cells)
  {
    LaneMaxStart(rmax, cells);
    hide IsLaneMax, IsTileMax, TileHolds;
    var local := rmax;
    for i := 0 to 16
      invariant |local| == 64
      invariant forall lane :: 0 <= lane < 64 ==> IsLaneMax(local[lane], rmax[lane], cells, lane, i)
    {
      local := MaxStep(n0, n1, local, i, rmax, cells);
    }
    m := MergeMax(local, rmax, cells);
  }

  lemma LaneMaxStart(rmax: seq<real>, cells: Cells)
    ensures forall lane :: 0 <= lane < |rmax| ==> IsLaneMax(rmax[lane], rmax[lane], cells, lane, 0)
  {
  }

  // ---- exponential ----

  /** exp2(fma(scale, s, -scaleM)); a masked score gives 0. */
  function Exp2Of(exp2: real -> real, scale: real, scaleM: real, s: Flt): real {
    if s.Fin? then exp2(Scaled(scale, s.v) - scaleM) else 0.0
  }

  /** A row's probabilities: scaleM belongs to the row's lanes. */
  function ProbCells(cells: Cells, exp2: real -> real, scale: real, scaleM: seq<real>): Lanes {
    (l, c) => if 0 <= l < |scaleM| then Exp2Of(exp2, scale, scaleM[l], cells(l, c)) else 0.0
  }

  /** The probability tile as real values, left and right halves. */
  ghost predicate TileIs(n0: array2<Flt>, n1: array2<Flt>, p: Lanes)
    reads n0, n1
  {
    && n0 != n1 && IsAcc(n0) && IsAcc(n1)
    && forall lane, r :: LaneReg(lane, r) ==>
         n0[lane, r] == Fin(p(lane % 32, Free(lane, r))) && n1[lane, r] == Fin(p(lane % 32, 32 + Free(lane, r)))
  }

  /** The first i registers are exponentiated, the others still scores. */
  ghost predicate HalfExp(acc: array2<Flt>, cells: Cells, p: Lanes, half: int, i: int)
    reads acc
  {
    && IsAcc(acc)
    && forall lane, r :: LaneReg(lane, r) ==>
         acc[lane, r] == if r < i then Fin(p(lane % 32, LaneColumn(lane, r, half)))
           else cells(lane % 32, LaneColumn(lane, r, half))
  }

  method Exp2Register(acc: array2<Flt>, i: int, exp2: real -> real, scale: real, scaleM: seq<real>,
                      ghost half: int, ghost cells: Cells)
    requires 0 <= i < 16 && PairsAgree(scaleM)
    requires HalfExp(acc, cells, ProbCells(cells, exp2, scale, scaleM), half, i)
    modifies acc
    ensures HalfExp(acc, cells, ProbCells(cells, exp2, scale, scaleM), half, i + 1)
  {
    ghost var p := ProbCells(cells, exp2, scale, scaleM);
    forall lane | 0 <= lane < 64
      ensures Exp2Of(exp2, scale, scaleM[lane], acc[lane, i]) == p(lane % 32, LaneColumn(lane, i, half)) {
      assert LaneReg(lane, i);
      assert scaleM[lane] == scaleM[lane % 32] by {
        PairValue(scaleM, lane);
      }
    }
    hide ProbCells, Exp2Of, LaneColumn, PairsAgree;
    forall lane | 0 <= lane < 64 {
      acc[lane, i] := Fin(Exp2Of(exp2, scale, scaleM[lane], acc[lane, i]));
    }
  }

  lemma PairValue(s: seq<real>, lane: int)
    requires PairsAgree(s) && 0 <= lane < 64
    ensures s[lane] == s[lane % 32]
  {
    assert lane < 32 ==> lane % 32 == lane;
    assert lane >= 32 ==> Partner(lane) == lane % 32;
  }

  /** P = exp2(scale * S - scale * m), in place. */
  method SoftmaxExp2(n0: array2<Flt>, n1: array2<Flt>, exp2: real -> real, scale: real, scaleM: seq<real>,
                     ghost cells: Cells)
    requires TileHolds(n0, n1, cells) && PairsAgree(scaleM)
    modifies n0, n1
    ensures TileIs(n0, n1, ProbCells(cells, exp2, scale, scaleM))
  {
    ghost var p := ProbCells(cells, exp2, scale, scaleM);
    ExpStart(n0, n1, cells, p);
    hide HalfExp, ProbCells, PairsAgree, TileHolds;
    for i := 0 to 16
      invariant HalfExp(n0, cells, p, 0, i) && HalfExp(n1, cells, p, 1, i)
    {
      Exp2Register(n0, i, exp2, scale, scaleM, 0, cells);
      Exp2Register(n1, i, exp2, scale, scaleM, 1, cells);
    }
    ExpEnd(n0, n1, cells, p);
  }

  lemma ExpStart(n0: array2<Flt>, n1: array2<Flt>, cells: Cells, p: Lanes)
    requires TileHolds(n0, n1, cells)
    ensures HalfExp(n0, cells, p, 0, 0) && HalfExp(n1, cells, p, 1, 0) && n0 != n1
  {
    hide Free;
  }

  lemma ExpEnd(n0: array2<Flt>, n1: array2<Flt>, cells: Cells, p: Lanes)
    requires n0 != n1 && HalfExp(n0, cells, p, 0, 16) && HalfExp(n1, cells, p, 1, 16)
    ensures TileIs(n0, n1, p)
  {
    hide Free;
  }

  // ---- row sum ----

  function RowTerm(p: Lanes, l: int): int -> real {
    c => p(l, c)
  }

  /** Every lane has the sum of all 64 columns of its row. */
  ghost predicate RowSums(sum: seq<real>, p: Lanes) {
    && |sum| == 64
    && forall lane :: 0 <= lane < 64 ==> sum[lane] == Sum(RowTerm(p, lane % 32), 0, 64)
  }

  /** What a lane has added up after i registers of each accumulator. */
  function LaneSum(f: int -> real, lane: int, i: int): real
    decreases i
  {
    if i <= 0 then 0.0
    else LaneSum(f, lane, i - 1) + f(LaneColumn(lane, i - 1, 0)) + f(LaneColumn(lane, i - 1, 1))
  }

  /** The first eight registers are one block of columns in each half of the tile, the others the block 16 further
      on. */
  lemma {:induction false} FirstBlock(f: int -> real, lane: int, i: int)
    requires 0 <= lane < 64 && 0 <= i <= 8
    ensures var k := 8 * (lane / 32); LaneSum(f, lane, i) == Sum(f, k, k + i) + Sum(f, 32 + k, 32 + k + i)
    decreases i
  {
    if i > 0 {
      FirstBlock(f, lane, i - 1);
      BlockColumn(lane, i - 1);
      hide LaneColumn;
    }
  }

  lemma BlockColumn(lane: int, j: int)
    requires LaneReg(lane, j)
    ensures LaneColumn(lane, j, 0) == 8 * (lane / 32) + (if j < 8 then j else 8 + j)
    ensures LaneColumn(lane, j, 1) == 32 + LaneColumn(lane, j, 0)
  {
  }

  lemma {:induction false} SecondBlock(f: int -> real, lane: int, k: int, i: int)
    requires 0 <= lane < 64 && 0 <= i <= 8 && k == 8 * (lane / 32)
    ensures LaneSum(f, lane, 8 + i) == LaneSum(f, lane, 8) + Sum(f, 16 + k, 16 + k + i) + Sum(f, 48 + k, 48 + k + i)
    decreases i
  {
    hide LaneColumn, LaneSum;
    if i > 0 {
      SecondBlock(f, lane, k, i - 1);
      BlockColumn(lane, 7 + i);
      LaneSumLast(f, lane, 8 + i);
      SumLast(f, 16 + k, i);
      SumLast(f, 48 + k, i);
      hide Sum;
    }
  }

  lemma LaneSumLast(f: int -> real, lane: int, i: int)
    requires i > 0
    ensures LaneSum(f, lane, i)
         == LaneSum(f, lane, i - 1) + f(LaneColumn(lane, i - 1, 0)) + f(LaneColumn(lane, i - 1, 1))
  {
  }

  lemma SumLast(f: int -> real, lo: int, n: int)
    requires n > 0
    ensures Sum(f, lo, lo + n) == Sum(f, lo, lo + n - 1) + f(lo + n - 1)
  {
  }

  /** The eight blocks of eight columns. */
  lemma EightBlocks(f: int -> real)
    ensures Sum(f, 0, 64) == Sum(f, 0, 8) + Sum(f, 8, 16) + Sum(f, 16, 24) + Sum(f, 24, 32)
                           + Sum(f, 32, 40) + Sum(f, 40, 48) + Sum(f, 48, 56) + Sum(f, 56, 64)
  {
    hide Sum;
    SumSplit(f, 0, 8, 64);
    SumSplit(f, 8, 16, 64);
    SumSplit(f, 16, 24, 64);
    SumSplit(f, 24, 32, 64);
    SumSplit(f, 32, 40, 64);
    SumSplit(f, 40, 48, 64);
    SumSplit(f, 48, 56, 64);
  }

  /** The two lanes of a row add up all 64 columns, each once. */
  lemma PairSum(f: int -> real, lane: int)
    requires 0 <= lane < 64
    ensures LaneSum(f, lane, 16) + LaneSum(f, Partner(lane), 16) == Sum(f, 0, 64)
  {
    hide Sum, LaneSum;
    var other := Partner(lane);
    FirstBlock(f, lane, 8);
    SecondBlock(f, lane, 8 * (lane / 32), 8);
    FirstBlock(f, other, 8);
    SecondBlock(f, other, 8 * (other / 32), 8);
    EightBlocks(f);
    assert (lane / 32 == 0 && other / 32 == 1) || (lane / 32 == 1 && other / 32 == 0);
  }

  /** Every lane adds one register of each accumulator. */
  method SumStep(n0: array2<Flt>, n1: array2<Flt>, local: seq<real>, i: int, ghost p: Lanes) returns (next: seq<real>)
    requires TileIs(n0, n1, p) && |local| == 64 && 0 <= i < 16
    requires forall lane :: 0 <= lane < 64 ==> local[lane] == LaneSum(RowTerm(p, lane % 32), lane, i)
    ensures |next| == 64
    ensures forall lane :: 0 <= lane < 64 ==> next[lane] == LaneSum(RowTerm(p, lane % 32), lane, i + 1)
  {
    hide Free;
    assert forall lane :: 0 <= lane < 64 ==> LaneReg(lane, i);
    next := seq(64, lane requires 0 <= lane < 64 && IsAcc(n0) && IsAcc(n1) reads n0, n1 =>
              if n0[lane, i].Fin? && n1[lane, i].Fin? then local[lane] + n0[lane, i].v + n1[lane, i].v else 0.0);
  }

  /** ds_bpermute from lane ^ 32: the sums of both halves, added. */
  method MergeSum(local: seq<real>, ghost p: Lanes) returns (sum: seq<real>)
    requires |local| == 64
    requires forall lane :: 0 <= lane < 64 ==> local[lane] == LaneSum(RowTerm(p, lane % 32), lane, 16)
    ensures PairsAgree(sum) && RowSums(sum, p)
  {
    hide LaneSum, Sum, RowTerm;
    sum := seq(64, lane requires 0 <= lane < 64 => local[lane] + local[Partner(lane)]);
    forall lane | 0 <= lane < 64
      ensures sum[lane] == Sum(RowTerm(p, lane % 32), 0, 64) && sum[lane] == sum[Partner(lane)] {
      PartnerPartner(lane);
      hide Partner;
      PairSum(RowTerm(p, lane % 32), lane);
    }
  }

  /** The tile's share of the denominator: both lanes of a row get the sum of all 64 columns. */
  method SoftmaxRowSum(n0: array2<Flt>, n1: array2<Flt>, ghost p: Lanes) returns (sum: seq<real>)
    requires TileIs(n0, n1, p)
    ensures PairsAgree(sum) && RowSums(sum, p)
  {
    var local := seq(64, lane => 0.0);
    hide TileIs, RowTerm;
    for i := 0 to 16
      invariant |local| == 64
      invariant forall lane :: 0 <= lane < 64 ==> local[lane] == LaneSum(RowTerm(p, lane % 32), lane, i)
    {
      local := SumStep(n0, n1, local, i, p);
    }
    hide LaneSum;
    sum := MergeSum(local, p);
  }

  // ---- rescale ----

  function RescaledLanes(g: Lanes, factor: seq<real>): Lanes {
    (lane, r) => if 0 <= lane < |factor| then Scaled(factor[lane], g(lane, r)) else 0.0
  }

  /** The first i registers have been multiplied. */
  ghost predicate PartRescaled(acc: array2<Flt>, g: Lanes, factor: seq<real>, i: int)
    reads acc
  {
    && IsAcc(acc)
    && forall lane, r :: LaneReg(lane, r) ==>
         acc[lane, r] == Fin(if r < i then RescaledLanes(g, factor)(lane, r) else g(lane, r))
  }

  method RescaleRegister(acc: array2<Flt>, factor: seq<real>, i: int, ghost g: Lanes)
    requires |factor| == 64 && 0 <= i < 16 && PartRescaled(acc, g, factor, i)
    modifies acc
    ensures PartRescaled(acc, g, factor, i + 1)
  {
    forall lane | 0 <= lane < 64 ensures acc[lane, i] == Fin(g(lane, i)) {
      assert LaneReg(lane, i);
    }
    hide Scaled;
    forall lane | 0 <= lane < 64 {
      acc[lane, i] := Fin(Scaled(factor[lane], acc[lane, i].v));
    }
  }

  /** The carried numerator, scaled down for the new maximum. */
  method RescaleOAcc(d0: array2<Flt>, d1: array2<Flt>, factor: seq<real>, ghost g0: Lanes, ghost g1: Lanes)
    requires d0 != d1 && |factor| == 64 && Holds(d0, g0) && Holds(d1, g1)
    modifies d0, d1
    ensures Holds(d0, RescaledLanes(g0, factor)) && Holds(d1, RescaledLanes(g1, factor))
  {
    assert PartRescaled(d0, g0, factor, 0) && PartRescaled(d1, g1, factor, 0);
    hide PartRescaled;
    for i := 0 to 16
      invariant PartRescaled(d0, g0, factor, i) && PartRescaled(d1, g1, factor, i)
    {
      RescaleRegister(d0, factor, i, g0);
      RescaleRegister(d1, factor, i, g1);
    }
    AllRescaled(d0, g0, factor);
    AllRescaled(d1, g1, factor);
  }

  lemma AllRescaled(acc: array2<Flt>, g: Lanes, factor: seq<real>)
    requires PartRescaled(acc, g, factor, 16)
    ensures Holds(acc, RescaledLanes(g, factor))
  {
    hide Scaled;
  }
}
