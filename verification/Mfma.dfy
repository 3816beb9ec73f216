/** The 32x32x8 MFMA instruction by its meaning, and the two-pass k-step both GEMMs are made of.

    Registers are indexed (lane, register). Lane L supplies A[L%32][4*(L/32)+i] and B[4*(L/32)+i][L%32];
    register r of lane L accumulates C[AccRow(L, r)][L%32]. */
module Mfma {
  import opened Sums
  import opened Floats
  import opened Layout

  type Lanes = (int, int) -> real

  predicate IsAcc(acc: array2<Flt>) {
    acc.Length0 == 64 && acc.Length1 == 16
  }

  /** The accumulator holds the real values g. */
  ghost predicate Holds(acc: array2<Flt>, g: Lanes)
    reads acc
  {
    IsAcc(acc) && forall lane, r :: LaneReg(lane, r) ==> acc[lane, r] == Fin(g(lane, r))
  }

  function MfmaTerm(a: Lanes, b: Lanes, m: int, n: int): int -> real {
    k => a(m + 32 * (k / 4), k % 4) * b(n + 32 * (k / 4), k % 4)
  }

  /** Row m of A times column n of B. */
  function MfmaDot(a: Lanes, b: Lanes, m: int, n: int): real {
    Sum(MfmaTerm(a, b, m, n), 0, 8)
  }

  function PlusDot(g: Lanes, a: Lanes, b: Lanes): Lanes {
    (lane, r) => g(lane, r) + MfmaDot(a, b, AccRow(lane, r), lane % 32)
  }

  /** v_mfma_f32_32x32x8_bf16: C += A * B. */
  method MfmaInstruction(acc: array2<Flt>, a: Lanes, b: Lanes, ghost g: Lanes)
    requires Holds(acc, g)
    modifies acc
    ensures Holds(acc, PlusDot(g, a, b))
  {
    hide MfmaDot, AccRow;
    forall lane, r | 0 <= lane < 64 && 0 <= r < 16 {
      acc[lane, r] := Fin(acc[lane, r].v + MfmaDot(a, b, AccRow(lane, r), lane % 32));
    }
  }

  lemma SameHolds(acc: array2<Flt>, g: Lanes, h: Lanes)
    requires Holds(acc, g)
    requires forall lane, r :: LaneReg(lane, r) ==> g(lane, r) == h(lane, r)
    ensures Holds(acc, h)
  {
  }

  // ---- one k-step: 16 deep, in two passes of 8 ----

  /** The operand of a k-step, 8 values a lane, is the 16-deep slice of matrix A that starts at 16 * kstep. */
  ghost predicate Supplies(a: Lanes, A: Lanes, kstep: int) {
    forall lane, c :: 0 <= lane < 64 && 0 <= c < 8 ==> a(lane, c) == A(lane % 32, 16 * kstep + 8 * (lane / 32) + c)
  }

  /** The four values of a lane that one pass consumes. */
  function Pass(a: Lanes, p: int): Lanes {
    (lane, i) => a(lane, 4 * p + i)
  }

  function DotTerm(A: Lanes, B: Lanes, m: int, n: int): int -> real {
    x => A(m, x) * B(n, x)
  }

  /** g plus the first depth terms of the product of A and the transpose of B. */
  function Partial(g: Lanes, A: Lanes, B: Lanes, depth: int): Lanes {
    (lane, r) => g(lane, r) + Sum(DotTerm(A, B, AccRow(lane, r), lane % 32), 0, depth)
  }

  lemma LaneTerm(a: Lanes, A: Lanes, kstep: int, p: int, m: int, half: int, i: int)
    requires Supplies(a, A, kstep) && 0 <= p < 2 && 0 <= m < 32 && 0 <= half < 2 && 0 <= i < 4
    ensures Pass(a, p)(m + 32 * half, i) == A(m, 16 * kstep + 4 * p + 8 * half + i)
  {
    var lane := m + 32 * half;
    assert lane % 32 == m && lane / 32 == half;
    assert a(lane, 4 * p + i) == A(lane % 32, 16 * kstep + 8 * (lane / 32) + (4 * p + i));
  }

  lemma PassTerm(a: Lanes, b: Lanes, A: Lanes, B: Lanes, kstep: int, p: int, m: int, n: int, half: int, i: int)
    requires Supplies(a, A, kstep) && Supplies(b, B, kstep) && 0 <= p < 2 && 0 <= m < 32 && 0 <= n < 32
    requires 0 <= half < 2 && 0 <= i < 4
    ensures MfmaTerm(Pass(a, p), Pass(b, p), m, n)(4 * half + i)
         == DotTerm(A, B, m, n)(16 * kstep + 4 * p + 8 * half + i)
  {
    hide Pass, Supplies;
    var k, x := 4 * half + i, 16 * kstep + 4 * p + 8 * half + i;
    assert k / 4 == half && k % 4 == i;
    LaneTerm(a, A, kstep, p, m, half, i);
    LaneTerm(b, B, kstep, p, n, half, i);
    calc {
      MfmaTerm(Pass(a, p), Pass(b, p), m, n)(k);
      Pass(a, p)(m + 32 * (k / 4), k % 4) * Pass(b, p)(n + 32 * (k / 4), k % 4);
      { assert m + 32 * (k / 4) == m + 32 * half && n + 32 * (k / 4) == n + 32 * half; }
      A(m, x) * B(n, x);
      DotTerm(A, B, m, n)(x);
    }
  }

  /** A pass multiplies two quarters of the slice: four terms from the low lanes, four from the high ones. */
  lemma PassDot(a: Lanes, b: Lanes, A: Lanes, B: Lanes, kstep: int, p: int, m: int, n: int)
    requires Supplies(a, A, kstep) && Supplies(b, B, kstep) && 0 <= p < 2 && 0 <= m < 32 && 0 <= n < 32
    ensures var f, lo := DotTerm(A, B, m, n), 16 * kstep + 4 * p;
      MfmaDot(Pass(a, p), Pass(b, p), m, n) == Sum(f, lo, lo + 4) + Sum(f, lo + 8, lo + 12)
  {
    hide DotTerm, MfmaTerm, Pass, Supplies;
    var f, t, lo := DotTerm(A, B, m, n), MfmaTerm(Pass(a, p), Pass(b, p), m, n), 16 * kstep + 4 * p;
    forall k | 0 <= k < 4 ensures t(k) == f(k + lo) {
      PassTerm(a, b, A, B, kstep, p, m, n, 0, k);
    }
    forall k | 4 <= k < 8 ensures t(k) == f(k + (lo + 4)) {
      PassTerm(a, b, A, B, kstep, p, m, n, 1, k - 4);
    }
    hide Sum;
    SumSplit(t, 0, 4, 8);
    SumShift(t, 0, 4, f, lo);
    SumShift(t, 4, 8, f, lo + 4);
  }

  /** Two passes add exactly the 16 terms of the k-step. */
  lemma TwoPassesAdd(g: Lanes, a: Lanes, b: Lanes, A: Lanes, B: Lanes, kstep: int, lane: int, r: int)
    requires Supplies(a, A, kstep) && Supplies(b, B, kstep) && 0 <= kstep && LaneReg(lane, r)
    ensures PlusDot(PlusDot(Partial(g, A, B, 16 * kstep), Pass(a, 0), Pass(b, 0)), Pass(a, 1), Pass(b, 1))(lane, r)
         == Partial(g, A, B, 16 * kstep + 16)(lane, r)
  {
    hide AccRow, DotTerm, MfmaDot, Pass, Sum, Supplies;
    var m, n, lo := AccRow(lane, r), lane % 32, 16 * kstep;
    AccRowSwizzled(lane, r);
    SliceSum(a, b, A, B, kstep, m, n);
    assert Partial(g, A, B, lo)(lane, r) == g(lane, r) + Sum(DotTerm(A, B, m, n), 0, lo);
  }

  lemma SliceSum(a: Lanes, b: Lanes, A: Lanes, B: Lanes, kstep: int, m: int, n: int)
    requires Supplies(a, A, kstep) && Supplies(b, B, kstep) && 0 <= kstep && 0 <= m < 32 && 0 <= n < 32
    ensures Sum(DotTerm(A, B, m, n), 0, 16 * kstep)
          + MfmaDot(Pass(a, 0), Pass(b, 0), m, n) + MfmaDot(Pass(a, 1), Pass(b, 1), m, n)
         == Sum(DotTerm(A, B, m, n), 0, 16 * kstep + 16)
  {
    hide DotTerm, MfmaDot, Pass, Sum, Supplies;
    var f, lo := DotTerm(A, B, m, n), 16 * kstep;
    PassDot(a, b, A, B, kstep, 0, m, n);
    PassDot(a, b, A, B, kstep, 1, m, n);
    SumSplit(f, 0, lo, lo + 16);
    SumOfQuarters(f, lo);
  }

  /** The four MFMA of a k-step: two passes, each for two A operands that share B. */
  method KStep(acc0: array2<Flt>, acc1: array2<Flt>, a0: Lanes, a1: Lanes, b: Lanes,
               ghost g0: Lanes, ghost g1: Lanes, ghost A0: Lanes, ghost A1: Lanes, ghost B: Lanes, ghost kstep: nat)
    requires acc0 != acc1
    requires Holds(acc0, Partial(g0, A0, B, 16 * kstep)) && Holds(acc1, Partial(g1, A1, B, 16 * kstep))
    requires Supplies(a0, A0, kstep) && Supplies(a1, A1, kstep) && Supplies(b, B, kstep)
    modifies acc0, acc1
    ensures Holds(acc0, Partial(g0, A0, B, 16 * kstep + 16)) && Holds(acc1, Partial(g1, A1, B, 16 * kstep + 16))
  {
    ghost var p0, p1 := Partial(g0, A0, B, 16 * kstep), Partial(g1, A1, B, 16 * kstep);
    MfmaInstruction(acc0, Pass(a0, 0), Pass(b, 0), p0);
    MfmaInstruction(acc1, Pass(a1, 0), Pass(b, 0), p1);
    p0, p1 := PlusDot(p0, Pass(a0, 0), Pass(b, 0)), PlusDot(p1, Pass(a1, 0), Pass(b, 0));
    MfmaInstruction(acc0, Pass(a0, 1), Pass(b, 1), p0);
    MfmaInstruction(acc1, Pass(a1, 1), Pass(b, 1), p1);
    p0, p1 := PlusDot(p0, Pass(a0, 1), Pass(b, 1)), PlusDot(p1, Pass(a1, 1), Pass(b, 1));
    forall lane, r | LaneReg(lane, r)
      ensures p0(lane, r) == Partial(g0, A0, B, 16 * kstep + 16)(lane, r)
           && p1(lane, r) == Partial(g1, A1, B, 16 * kstep + 16)(lane, r) {
      TwoPassesAdd(g0, a0, b, A0, B, kstep, lane, r);
      TwoPassesAdd(g1, a1, b, A1, B, kstep, lane, r);
    }
    hide PlusDot, Partial, Supplies, Pass;
    SameHolds(acc0, p0, Partial(g0, A0, B, 16 * kstep + 16));
    SameHolds(acc1, p1, Partial(g1, A1, B, 16 * kstep + 16));
  }
}
