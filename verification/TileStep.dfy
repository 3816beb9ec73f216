/** One tile of the online recurrence for one row, from the tile's cells: maximum, sum, numerator. */
module TileStep {
  import opened Sums
  import opened Exponential
  import opened Floats
  import opened SoftmaxRow
  import opened OnlineSoftmax

  /** The tile's masked scores for the row. */
  ghost predicate IsTileOf(x: Row, t: int, cell: int -> Flt) {
    forall c :: 0 <= c < 64 ==> cell(c) == if x.seen(64 * t + c) then Fin(x.score(64 * t + c)) else NegInf
  }

  ghost predicate IsMaxOf(m: real, start: real, cell: int -> Flt) {
    && m >= start
    && (forall c :: 0 <= c < 64 && cell(c).Fin? ==> cell(c).v <= m)
    && (m == start || exists c :: 0 <= c < 64 && cell(c) == Fin(m))
  }

  /** Folding the tile into the running maximum is the next running maximum. */
  lemma NextMax(x: Row, seed: real, t: nat, cell: int -> Flt, m: real)
    requires IsTileOf(x, t, cell) && IsMaxOf(m, RunMax(x, seed, t), cell)
    ensures m == RunMax(x, seed, t + 1)
  {
    hide MaxOver;
    var lo, hi := 64 * t, 64 * t + 64;
    forall key | lo <= key < hi && x.seen(key) ensures x.score(key) <= m {
      assert cell(key - lo) == Fin(x.score(lo + (key - lo)));
    }
    if m != RunMax(x, seed, t) {
      var c :| 0 <= c < 64 && cell(c) == Fin(m);
      assert lo <= lo + c < hi && x.seen(lo + c) && x.score(lo + c) == m;
    }
    MaxOverUnique(x, seed, lo, hi, m);
  }

  /** A tile's share of the denominator. */
  lemma ShareOfSum(x: Row, c': real, lo: int, p: int -> real)
    requires forall c :: 0 <= c < 64 ==> p(c) == Weight(x, c', lo + c)
    ensures Sum(p, 0, 64) == Sum(WeightTerm(x, c'), lo, lo + 64)
  {
    hide Weight, WeightTerm, Sum;
    forall c | 0 <= c < 64 ensures p(c) == WeightTerm(x, c')(c + lo) {
      WeightAt(x, c', lo + c);
    }
    SumShift(p, 0, 64, WeightTerm(x, c'), lo);
  }

  lemma WeightAt(x: Row, c': real, key: int)
    ensures WeightTerm(x, c')(key) == Weight(x, c', key)
  {
  }

  lemma ScaledDifference(scale: real, a: real, b: real)
    ensures Scaled(scale, a - b) == Scaled(scale, a) - Scaled(scale, b)
  {
  }

  /** The factor by which the carried state shrinks when the maximum grows from a to b. */
  function Rescale(exp2: real -> real, scale: real, a: real, b: real): real {
    exp2(Scaled(scale, a - b))
  }

  lemma RescaleIsShift(x: Row, scale: real, seed: real, t: nat)
    ensures Rescale(x.exp, scale, RunMax(x, seed, t), RunMax(x, seed, t + 1))
         == x.exp(RunShift(x, scale, seed, t) - RunShift(x, scale, seed, t + 1))
  {
    hide RunMax, Scaled;
    ScaledDifference(scale, RunMax(x, seed, t), RunMax(x, seed, t + 1));
  }

  /** rescale * rsum + l_new is one step of the online recurrence. */
  lemma NextSum(x: Row, scale: real, seed: real, t: nat, l: real, share: real)
    requires l == RunSum(x, scale, seed, t)
    requires share == Sum(WeightTerm(x, RunShift(x, scale, seed, t + 1)), 64 * t, 64 * t + 64)
    ensures Scaled(Rescale(x.exp, scale, RunMax(x, seed, t), RunMax(x, seed, t + 1)), l) + share
         == RunSum(x, scale, seed, t + 1)
  {
    hide RunMax, RunShift, Weight, WeightTerm, Rescale;
    RescaleIsShift(x, scale, seed, t);
    var c, c' := RunShift(x, scale, seed, t), RunShift(x, scale, seed, t + 1);
    assert RunSum(x, scale, seed, t + 1) == AdvanceSum(x, c, c', 64 * t, 64 * t + 64, l);
  }

  /** The contribution of a key to a numerator, its probability truncated. */
  function TruncatedValue(x: Row, trunc: real -> real, c': real, d: int, key: int): real {
    trunc(Weight(x, c', key)) * x.value(key, d)
  }

  /** Two halves of GEMM1 add the tile's whole share of the numerator. */
  lemma ShareOfAcc(x: Row, trunc: real -> real, c': real, lo: int, d: int, f0: int -> real, f1: int -> real)
    requires forall key :: 0 <= key < 32 ==> f0(key) == TruncatedValue(x, trunc, c', d, lo + key)
    requires forall key :: 0 <= key < 32 ==> f1(key) == TruncatedValue(x, trunc, c', d, lo + 32 + key)
    ensures Sum(f0, 0, 32) + Sum(f1, 0, 32) == Sum(TruncTerm(x, trunc, c', d), lo, lo + 64)
  {
    hide TruncatedValue, TruncTerm, Sum;
    var f := TruncTerm(x, trunc, c', d);
    forall key | 0 <= key < 32 ensures f0(key) == f(key + lo) {
      TruncAt(x, trunc, c', d, lo + key);
    }
    forall key | 0 <= key < 32 ensures f1(key) == f(key + (lo + 32)) {
      TruncAt(x, trunc, c', d, lo + 32 + key);
    }
    SumShift(f0, 0, 32, f, lo);
    SumShift(f1, 0, 32, f, lo + 32);
    SumSplit(f, lo, lo + 32, lo + 64);
  }

  lemma TruncAt(x: Row, trunc: real -> real, c': real, d: int, key: int)
    ensures TruncTerm(x, trunc, c', d)(key) == TruncatedValue(x, trunc, c', d, key)
  {
  }

  /** Rescaling and both halves of GEMM1 are one step of the online recurrence. */
  lemma NextAcc(x: Row, scale: real, seed: real, trunc: real -> real, t: nat, d: int, acc: real, share: real)
    requires acc == RunAcc(x, scale, seed, trunc, t, d)
    requires share == Sum(TruncTerm(x, trunc, RunShift(x, scale, seed, t + 1), d), 64 * t, 64 * t + 64)
    ensures Scaled(Rescale(x.exp, scale, RunMax(x, seed, t), RunMax(x, seed, t + 1)), acc) + share
         == RunAcc(x, scale, seed, trunc, t + 1, d)
  {
    hide RunMax, RunShift, Weight, TruncTerm, Rescale, Sum, AdvanceAcc;
    var c, c' := RunShift(x, scale, seed, t), RunShift(x, scale, seed, t + 1);
    assert RunAcc(x, scale, seed, trunc, t + 1, d) == AdvanceAcc(x, trunc, c, c', d, 64 * t, 64 * t + 64, acc);
    hide RunAcc;
    RescaleIsShift(x, scale, seed, t);
    AccAdvances(x, trunc, c, c', d, 64 * t, 64 * t + 64, acc);
  }

  lemma AccAdvances(x: Row, trunc: real -> real, c: real, c': real, d: int, lo: int, hi: int, acc: real)
    ensures AdvanceAcc(x, trunc, c, c', d, lo, hi, acc)
         == Scaled(x.exp(c - c'), acc) + Sum(TruncTerm(x, trunc, c', d), lo, hi)
  {
    hide TruncTerm, Sum;
  }
}
