/** The plain-loop references of both GEMMs, in thread-buffer order, and the kernel's accumulators against them. */
module GemmOracles {
  import opened Sums
  import opened Floats
  import opened Layout
  import opened Attention
  import opened Mfma
  import opened Gemm
  import opened SoftmaxOps
  import opened WaveSpec

  /** Query row of a thread, and key of its register r of 32. */
  function MRow(tid: int): int {
    (tid % 64) % 32 + 32 * (tid / 64)
  }

  function NCol(tid: int, r: int): int {
    (r / 8) * 16 + ((tid % 64) / 32) * 8 + r % 8
  }

  /** Headdim of register r of 32 of an output accumulator. */
  function DCol(tid: int, r: int): int {
    if NCol(tid, r) >= 0 then Swz(NCol(tid, r)) else 0
  }

  /** Where the reference finds P[m][n] in the thread buffer. */
  function GetPIndex(m: int, n: int): int {
    var warp, laneBase := m / 32, m % 32;
    var kSub := if n % 16 < 8 then 0 else 1;
    var rWithin := if n % 16 < 8 then n % 8 else (n - 8) % 8;
    var r := (n / 16) * 8 + rWithin;
    (warp * 64 + kSub * 32 + laneBase) * 32 + r
  }

  predicate ThreadReg(tid: int, r: int) {
    0 <= tid < 256 && 0 <= r < 32
  }

  /** get_p inverts the layout: it finds row m and key n in exactly the thread and register that hold them. */
  lemma GetPInverts(tid: int, r: int, m: int, n: int)
    requires ThreadReg(tid, r) && 0 <= m < 128 && 0 <= n < 64
    ensures GetPIndex(m, n) == tid * 32 + r <==> MRow(tid) == m && NCol(tid, r) == n
  {
    hide GetPIndex, MRow, NCol;
    var n8 := n / 8;
    assert n == 16 * (n8 / 2) + 8 * (n8 % 2) + n % 8;
    GetPDigitsInvert(tid / 64, (tid % 64) / 32, (tid % 64) % 32, r / 8, r % 8, m / 32, n8 % 2, m % 32, n8 / 2, n % 8);
  }

  lemma GetPDigitsInvert(w: int, k: int, l: int, e: int, b: int, w': int, k': int, l': int, e': int, b': int)
    requires 0 <= w < 4 && 0 <= k < 2 && 0 <= l < 32 && 0 <= e < 4 && 0 <= b < 8
    requires 0 <= w' < 4 && 0 <= k' < 2 && 0 <= l' < 32 && 0 <= e' < 4 && 0 <= b' < 8
    ensures var tid, r, m, n := 64 * w + 32 * k + l, 8 * e + b, 32 * w' + l', 16 * e' + 8 * k' + b';
      GetPIndex(m, n) == tid * 32 + r <==> MRow(tid) == m && NCol(tid, r) == n
  {
    hide GetPIndex, MRow, NCol;
    ThreadDigits(w, k, l, e, b);
    GetPDigits(w', l', e', k', b');
    var tid, tid' := 64 * w + 32 * k + l, 64 * w' + 32 * k' + l';
    if tid * 32 + (8 * e + b) == tid' * 32 + (8 * e' + b') {
      SameDigits(tid, 8 * e + b, tid', 8 * e' + b', 32);
      SameDigits(2 * w + k, l, 2 * w' + k', l', 32);
      SameDigits(w, k, w', k', 2);
      SameDigits(e, b, e', b', 8);
    }
    if 32 * w + l == 32 * w' + l' && 16 * e + 8 * k + b == 16 * e' + 8 * k' + b' {
      SameDigits(w, l, w', l', 32);
      SameDigits(2 * e + k, b, 2 * e' + k', b', 8);
      SameDigits(e, k, e', k', 2);
    }
  }

  lemma SameDigits(q: int, r: int, q': int, r': int, m: int)
    requires 0 <= r < m && 0 <= r' < m && m * q + r == m * q' + r'
    ensures q == q' && r == r'
  {
    DivMod(m * q + r, m, q, r);
    DivMod(m * q' + r', m, q', r');
  }

  /** The digits of a thread and register are those of its row and key. */
  lemma ThreadDigits(w: int, k: int, l: int, e: int, b: int)
    requires 0 <= w < 4 && 0 <= k < 2 && 0 <= l < 32 && 0 <= e < 4 && 0 <= b < 8
    ensures MRow(64 * w + 32 * k + l) == 32 * w + l
    ensures NCol(64 * w + 32 * k + l, 8 * e + b) == 16 * e + 8 * k + b
  {
    DivMod(64 * w + 32 * k + l, 64, w, 32 * k + l);
    DivMod(32 * k + l, 32, k, l);
    DivMod(8 * e + b, 8, e, b);
  }

  lemma GetPDigits(w: int, l: int, e: int, k: int, b: int)
    requires 0 <= w < 4 && 0 <= l < 32 && 0 <= e < 4 && 0 <= k < 2 && 0 <= b < 8
    ensures GetPIndex(32 * w + l, 16 * e + 8 * k + b) == (64 * w + 32 * k + l) * 32 + 8 * e + b
  {
    var n := 16 * e + 8 * k + b;
    DivMod(n, 16, e, 8 * k + b);
    DivMod(n, 8, 2 * e + k, b);
    DivMod(n - 8, 8, 2 * e + k - 1, b);
    DivMod(32 * w + l, 32, w, l);
  }

  // ---- ref_qk_gemm ----

  /** Entry of the score reference: a 64-term dot product, zero past either sequence. */
  function QkEntry(x: Inputs, tid: int, r: int): real {
    var m, n := MRow(tid), NCol(tid, r);
    if m < x.seqlenQ && n < x.seqlenK then Score(x, m, n) else 0.0
  }

  method RefQkGemm(x: Inputs, out: array<real>)
    requires out.Length == 8192
    modifies out
    ensures forall tid, r :: ThreadReg(tid, r) ==> out[tid * 32 + r] == QkEntry(x, tid, r)
  {
    hide MRow, NCol, Score;
    for tid := 0 to 256
      invariant forall i, r :: ThreadReg(i, r) && i < tid ==> out[i * 32 + r] == QkEntry(x, i, r)
    {
      var m := MRow(tid);
      for r := 0 to 32
        invariant forall i, c :: ThreadReg(i, c) && (i < tid || (i == tid && c < r)) ==>
            out[i * 32 + c] == QkEntry(x, i, c)
      {
        var n := NCol(tid, r);
        var acc := QkDot(x, m, n);
        out[tid * 32 + r] := acc;
      }
    }
  }

  method QkDot(x: Inputs, m: int, n: int) returns (acc: real)
    ensures acc == if m < x.seqlenQ && n < x.seqlenK then Score(x, m, n) else 0.0
  {
    acc := 0.0;
    if m < x.seqlenQ && n < x.seqlenK {
      for d := 0 to 64
        invariant acc == Sum(ScoreTerm(x, m, n), 0, d)
      {
        acc := acc + x.q(m, d) * x.k(n, d);
      }
    }
  }

  /** Thread, register and half of a wave's accumulators, in the reference's order. */
  lemma AccSlot(warp: int, lane: int, r: int, h: int)
    requires 0 <= warp < 4 && LaneReg(lane, r) && 0 <= h < 2
    ensures var tid := 64 * warp + lane;
      && ThreadReg(tid, 16 * h + r) && MRow(tid) == 32 * warp + lane % 32
      && NCol(tid, 16 * h + r) == 32 * h + Free(lane, r)
      && DCol(tid, 16 * h + r) == 32 * h + AccRow(lane, r)
  {
    var tid, q := 64 * warp + lane, 16 * h + r;
    DivMod(tid, 64, warp, lane);
    DivMod(q, 8, 2 * h + r / 8, r % 8);
    assert NCol(tid, q) == 32 * h + Free(lane, r);
    AccRowSwizzled(lane, r);
    SwzHigh(Free(lane, r), h);
    hide Free, AccRow, Swz;
  }

  /** The swizzle only moves bits 2 and 3. */
  lemma SwzHigh(x: nat, h: nat)
    requires x < 32 && h < 2
    ensures Swz(32 * h + x) == 32 * h + Swz(x)
  {
    hide Swz;
    var y := x / 4;
    var z := y / 2;
    var a, b, c, e := x % 4, y % 2, z % 2, z / 2;
    assert x == 4 * y + a && y == 2 * z + b && z == 2 * e + c;
    SwzDigits(a, b, c, e);
    SwzDigits(a, b, c, 2 * h + e);
  }

  lemma ScoreMatches(j: Job, out: array<real>, lane: int, r: int, h: int)
    requires j.mTile == 0 && j.warp < 4 && out.Length == 8192
    requires forall tid, r :: ThreadReg(tid, r) ==> out[tid * 32 + r] == QkEntry(InputsOf(j), tid, r)
    requires LaneReg(lane, r) && 0 <= h < 2 && 32 * h + Free(lane, r) < j.seqlenK
    ensures 0 <= (64 * j.warp + lane) * 32 + 16 * h + r < 8192
    ensures ScoreOf(j, 0, lane % 32, 32 * h + Free(lane, r)) == out[(64 * j.warp + lane) * 32 + 16 * h + r]
  {
    hide Free, AccRow, MRow, NCol, DCol, Score, InputsOf, LaneRow, QkEntry;
    var x, m, n := InputsOf(j), 32 * j.warp + lane % 32, 32 * h + Free(lane, r);
    var tid, q := 64 * j.warp + lane, 16 * h + r;
    AccSlot(j.warp, lane, r, h);
    InputLengths(j, lane % 32);
    assert out[tid * 32 + q] == QkEntry(x, tid, q);
    EntryIsScore(x, tid, q);
  }

  /** GEMM0's accumulators are the reference's thread buffer, for every key of the sequence. */
  lemma ScoresMatchReference(j: Job, n0: array2<Flt>, n1: array2<Flt>, out: array<real>, lane: int, r: int)
    requires j.mTile == 0 && j.warp < 4 && TileHolds(n0, n1, ScoreCells(j, 0)) && out.Length == 8192
    requires forall tid, r :: ThreadReg(tid, r) ==> out[tid * 32 + r] == QkEntry(InputsOf(j), tid, r)
    requires LaneReg(lane, r)
    ensures 0 <= (64 * j.warp + lane) * 32 + r < 8192 - 16
    ensures Free(lane, r) < j.seqlenK ==> n0[lane, r] == Fin(out[(64 * j.warp + lane) * 32 + r])
    ensures 32 + Free(lane, r) < j.seqlenK ==> n1[lane, r] == Fin(out[(64 * j.warp + lane) * 32 + 16 + r])
  {
    hide Free, ScoreOf, QkEntry, InputsOf;
    if Free(lane, r) < j.seqlenK {
      ScoreMatches(j, out, lane, r, 0);
    }
    if 32 + Free(lane, r) < j.seqlenK {
      ScoreMatches(j, out, lane, r, 1);
    }
  }

  /** An in-range key's entry is its score, whether or not the query row exists. */
  lemma EntryIsScore(x: Inputs, tid: int, r: int)
    requires NCol(tid, r) < x.seqlenK
    ensures QkEntry(x, tid, r) == Score(x, MRow(tid), NCol(tid, r))
  {
    hide MRow, NCol, Score;
    if MRow(tid) >= x.seqlenQ {
      PaddedScore(x, MRow(tid), NCol(tid, r));
    }
  }

  lemma InputLengths(j: Job, l: int)
    ensures InputsOf(j).seqlenK == j.seqlenK
    ensures j.mTile == 0 ==> LaneRow(j, l) == 32 * j.warp + l
  {
  }

  /** A padded query row scores zero everywhere. */
  lemma PaddedScore(x: Inputs, m: int, n: int)
    requires m >= x.seqlenQ
    ensures Score(x, m, n) == 0.0
  {
    forall d ensures ScoreTerm(x, m, n)(d) == 0.0 {
      assert QueryElem(x, m, d) == 0.0;
    }
    SumZero(ScoreTerm(x, m, n), 0, 64);
  }

  // ---- ref_pv_gemm ----

  function BufferAt(p: seq<real>, i: int): real {
    if 0 <= i < |p| then p[i] else 0.0
  }

  /** Logical P[m][n], read out of the thread buffer. */
  function GetP(p: seq<real>, m: int, n: int): real {
    BufferAt(p, GetPIndex(m, n))
  }

  function GuardedV(v: Lanes, seqlenK: int, n: int, d: int): real {
    if n < seqlenK then v(n, d) else 0.0
  }

  function PvRefTerm(p: seq<real>, v: Lanes, seqlenK: int, m: int, d: int): int -> real {
    n => GetP(p, m, n) * GuardedV(v, seqlenK, n, d)
  }

  /** Entry of the output reference: a 64-term product of a row of P and a column of V. */
  function PvEntry(p: seq<real>, v: Lanes, seqlenK: int, tid: int, r: int): real {
    Sum(PvRefTerm(p, v, seqlenK, MRow(tid), DCol(tid, r)), 0, 64)
  }

  method PvDot(p: seq<real>, v: Lanes, seqlenK: int, m: int, d: int) returns (acc: real)
    ensures acc == Sum(PvRefTerm(p, v, seqlenK, m, d), 0, 64)
  {
    hide GetP;
    acc := 0.0;
    for n := 0 to 64
      invariant acc == Sum(PvRefTerm(p, v, seqlenK, m, d), 0, n)
    {
      var pv := GetP(p, m, n);
      var vv := if n < seqlenK then v(n, d) else 0.0;
      acc := acc + pv * vv;
    }
  }

  method RefPvGemm(p: seq<real>, v: Lanes, seqlenK: int, out: array<real>)
    requires out.Length == 8192
    modifies out
    ensures forall tid, r :: ThreadReg(tid, r) ==> out[tid * 32 + r] == PvEntry(p, v, seqlenK, tid, r)
  {
    hide MRow, DCol, Sum, PvRefTerm;
    for tid := 0 to 256
      invariant forall i, r :: ThreadReg(i, r) && i < tid ==> out[i * 32 + r] == PvEntry(p, v, seqlenK, i, r)
    {
      var m := MRow(tid);
      for r := 0 to 32
        invariant forall i, c :: ThreadReg(i, c) && (i < tid || (i == tid && c < r)) ==>
          out[i * 32 + c] == PvEntry(p, v, seqlenK, i, c)
      {
        var acc := PvDot(p, v, seqlenK, m, DCol(tid, r));
        out[tid * 32 + r] := acc;
      }
    }
  }

  /** Half x of the keys, as the kernel's wave holds P and as LDS holds V. */
  function PRows(p: seq<real>, warp: int, x: int): Lanes {
    (l, c) => GetP(p, 32 * warp + l, 32 * x + c)
  }

  function VRows(v: Lanes, seqlenK: int, x: int): Lanes {
    (n, d) => GuardedV(v, seqlenK, 32 * x + n, d)
  }

  /** Register r of a lane's half-x accumulator is slot 16 x + r of its thread in the buffer. */
  lemma RegistersHoldP(p: seq<real>, warp: int, lane: int, r: int, x: int)
    requires 0 <= warp < 4 && LaneReg(lane, r) && 0 <= x < 2
    ensures PLanes(PRows(p, warp, x))(lane, r) == BufferAt(p, (64 * warp + lane) * 32 + (16 * x + r))
  {
    hide GetPIndex, MRow, NCol, DCol, Free, AccRow, BufferAt;
    var tid, q := 64 * warp + lane, 16 * x + r;
    FreeBelow(lane, r);
    AccSlot(warp, lane, r, x);
    var m, n := 32 * warp + lane % 32, 32 * x + Free(lane, r);
    GetPInverts(tid, q, m, n);
    assert GetPIndex(m, n) == tid * 32 + q;
    assert PLanes(PRows(p, warp, x))(lane, r) == PRows(p, warp, x)(lane % 32, Free(lane, r)) == GetP(p, m, n);
  }

  lemma FreeBelow(lane: int, r: int)
    requires LaneReg(lane, r)
    ensures 0 <= Free(lane, r) < 32
  {
    AccRowSwizzled(lane, r);
  }

  /** What both GEMM1 sub-tiles leave in a register, from a zero accumulator, is the reference's entry. */
  lemma ValuesMatchReference(p: seq<real>, v: Lanes, seqlenK: int, trunc: real -> real, warp: int, lane: int, r: int,
                             h: int)
    requires 0 <= warp < 4 && LaneReg(lane, r) && 0 <= h < 2
    requires forall i :: trunc(BufferAt(p, i)) == BufferAt(p, i)
    ensures ValuesPlus(ValuesPlus(ZeroLanes(), trunc, PRows(p, warp, 0), VRows(v, seqlenK, 0), 32 * h),
              trunc, PRows(p, warp, 1), VRows(v, seqlenK, 1), 32 * h)(lane, r)
         == PvEntry(p, v, seqlenK, 64 * warp + lane, 16 * h + r)
  {
    hide MRow, NCol, DCol, AccRow, Free, Sum, PvTerm, PvRefTerm, PRows, VRows, BufferAt;
    var l, d := lane % 32, 32 * h + AccRow(lane, r);
    AccSlot(warp, lane, r, h);
    var f := PvRefTerm(p, v, seqlenK, 32 * warp + l, d);
    var f0 := PvTerm(trunc, PRows(p, warp, 0), VRows(v, seqlenK, 0), l, d);
    var f1 := PvTerm(trunc, PRows(p, warp, 1), VRows(v, seqlenK, 1), l, d);
    forall n | 0 <= n < 32 ensures f0(n) == f(n) {
      PvTermMatches(p, v, seqlenK, trunc, warp, l, d, 0, n);
    }
    forall n | 0 <= n < 32 ensures f1(n) == f(n + 32) {
      PvTermMatches(p, v, seqlenK, trunc, warp, l, d, 1, n);
    }
    SumEqual(f0, f, 0, 32);
    SumShift(f1, 0, 32, f, 32);
    SumSplit(f, 0, 32, 64);
  }

  lemma PvTermMatches(p: seq<real>, v: Lanes, seqlenK: int, trunc: real -> real, warp: int, l: int, d: int, x: int,
                      n: int)
    requires forall i :: trunc(BufferAt(p, i)) == BufferAt(p, i)
    ensures PvTerm(trunc, PRows(p, warp, x), VRows(v, seqlenK, x), l, d)(n)
         == PvRefTerm(p, v, seqlenK, 32 * warp + l, d)(n + 32 * x)
  {
    hide GetPIndex, BufferAt, GuardedV;
    assert trunc(GetP(p, 32 * warp + l, 32 * x + n)) == GetP(p, 32 * warp + l, 32 * x + n);
    hide GetP;
    assert n + 32 * x == 32 * x + n;
  }
}
