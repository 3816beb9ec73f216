/** The online recurrence of the fused kernel for one row, and what it computes.
    Tile t covers keys [64 t, 64 (t + 1)). */
module OnlineSoftmax {
  import opened Sums
  import opened Exponential
  import opened SoftmaxRow

  /** The first key of tile t, for tiles of kN0 = 64 keys. */
  function TileStart(t: nat): int {
    64 * t
  }

  /** Exact arithmetic: a probability keeps its value on the way to bf16. */
  ghost predicate Keeps(trunc: real -> real) {
    forall p :: trunc(p) == p
  }

  /** The running maximum of raw scores, started at seed. */
  function MaxOver(x: Row, seed: real, n: int): real
    decreases n
  {
    if n <= 0 then seed
    else
      var m := MaxOver(x, seed, n - 1);
      if x.seen(n - 1) && x.score(n - 1) > m then x.score(n - 1) else m
  }

  function RunMax(x: Row, seed: real, t: nat): real {
    MaxOver(x, seed, TileStart(t))
  }

  /** The shift the kernel subtracts from every logit once t tiles are in. */
  function RunShift(x: Row, scale: real, seed: real, t: nat): real {
    Scaled(scale, RunMax(x, seed, t))
  }

  /** One tile of the denominator: rescale what is carried from shift c to c', add the tile's weights. */
  function AdvanceSum(x: Row, c: real, c': real, lo: int, hi: int, l: real): real {
    x.exp(c - c') * l + Sum(WeightTerm(x, c'), lo, hi)
  }

  function RunSum(x: Row, scale: real, seed: real, t: nat): real {
    if t == 0 then 0.0
    else AdvanceSum(x, RunShift(x, scale, seed, t - 1), RunShift(x, scale, seed, t),
           TileStart(t - 1), TileStart(t), RunSum(x, scale, seed, t - 1))
  }

  function TruncTerm(x: Row, trunc: real -> real, c: real, d: int): int -> real {
    key => trunc(Weight(x, c, key)) * x.value(key, d)
  }

  /** One tile of the numerator, with every probability truncated before it meets its value. */
  function AdvanceAcc(x: Row, trunc: real -> real, c: real, c': real, d: int, lo: int, hi: int, acc: real): real {
    x.exp(c - c') * acc + Sum(TruncTerm(x, trunc, c', d), lo, hi)
  }

  function RunAcc(x: Row, scale: real, seed: real, trunc: real -> real, t: nat, d: int): real {
    if t == 0 then 0.0
    else AdvanceAcc(x, trunc, RunShift(x, scale, seed, t - 1), RunShift(x, scale, seed, t), d,
           TileStart(t - 1), TileStart(t), RunAcc(x, scale, seed, trunc, t - 1, d))
  }

  function Inverse(l: real): real {
    if l > 0.0 then 1.0 / l else 0.0
  }

  /** Division by the row sum; a row with nothing in it is zero. */
  function Normalise(acc: real, l: real): real {
    acc * Inverse(l)
  }

  /** What the epilogue hands to the final bf16 conversion after t tiles. */
  function FusedOutput(x: Row, scale: real, seed: real, trunc: real -> real, t: nat, d: int): real {
    Normalise(RunAcc(x, scale, seed, trunc, t, d), RunSum(x, scale, seed, t))
  }

  // ---- the running maximum ----

  lemma {:induction false} MaxOverIsMax(x: Row, seed: real, n: int)
    ensures MaxOver(x, seed, n) >= seed
    ensures forall key :: 0 <= key < n && x.seen(key) ==> x.score(key) <= MaxOver(x, seed, n)
    ensures MaxOver(x, seed, n) == seed
         || exists key :: 0 <= key < n && x.seen(key) && x.score(key) == MaxOver(x, seed, n)
    decreases n
  {
    if n > 0 {
      MaxOverIsMax(x, seed, n - 1);
    }
  }

  /** The maximum after more keys is the only value that bounds them and is reached. */
  lemma MaxOverUnique(x: Row, seed: real, lo: int, hi: int, m: real)
    requires 0 <= lo <= hi
    requires m >= MaxOver(x, seed, lo)
    requires forall key :: lo <= key < hi && x.seen(key) ==> x.score(key) <= m
    requires m == MaxOver(x, seed, lo) || exists key :: lo <= key < hi && x.seen(key) && x.score(key) == m
    ensures m == MaxOver(x, seed, hi)
  {
    MaxOverIsMax(x, seed, lo);
    MaxOverIsMax(x, seed, hi);
    MaxOverMonotone(x, seed, lo, hi);
  }

  lemma {:induction false} MaxOverMonotone(x: Row, seed: real, lo: int, hi: int)
    requires lo <= hi
    ensures MaxOver(x, seed, lo) <= MaxOver(x, seed, hi)
    decreases hi - lo
  {
    if lo < hi {
      MaxOverMonotone(x, seed, lo, hi - 1);
    }
  }

  // ---- the running sum ----

  lemma AdvanceSumIsDen(x: Row, c: real, c': real, lo: nat, hi: nat)
    requires IsExponential(x.exp) && lo <= hi
    ensures AdvanceSum(x, c, c', lo, hi, Den(x, c, lo)) == Den(x, c', hi)
  {
    DenShift(x, c, c', lo);
    SumSplit(WeightTerm(x, c'), 0, lo, hi);
  }

  /** After t tiles the running sum is the softmax denominator of all keys so far, under the current shift. */
  lemma {:induction false} RunSumIsDen(x: Row, scale: real, seed: real, t: nat)
    requires IsExponential(x.exp)
    ensures RunSum(x, scale, seed, t) == Den(x, RunShift(x, scale, seed, t), TileStart(t))
  {
    if t > 0 {
      RunSumIsDen(x, scale, seed, t - 1);
      AdvanceSumIsDen(x, RunShift(x, scale, seed, t - 1), RunShift(x, scale, seed, t), TileStart(t - 1), TileStart(t));
    }
  }

  // ---- the running numerator ----

  lemma AdvanceNum(x: Row, c: real, c': real, d: int, lo: nat, hi: nat)
    requires IsExponential(x.exp) && lo <= hi
    ensures Num(x, c', d, hi) == x.exp(c - c') * Num(x, c, d, lo) + Sum(ValueTerm(x, c', d), lo, hi)
  {
    NumShift(x, c, c', d, lo);
    SumSplit(ValueTerm(x, c', d), 0, lo, hi);
  }

  lemma KeptTerms(x: Row, trunc: real -> real, c: real, d: int, lo: int, hi: int)
    requires Keeps(trunc)
    ensures Sum(TruncTerm(x, trunc, c, d), lo, hi) == Sum(ValueTerm(x, c, d), lo, hi)
  {
    SumEqual(TruncTerm(x, trunc, c, d), ValueTerm(x, c, d), lo, hi);
  }

  /** In exact arithmetic the running numerator is the true one under the current shift, after any number of tiles. */
  lemma {:induction false} RunAccIsNum(x: Row, scale: real, seed: real, trunc: real -> real, t: nat, d: int)
    requires IsExponential(x.exp) && Keeps(trunc)
    ensures RunAcc(x, scale, seed, trunc, t, d) == Num(x, RunShift(x, scale, seed, t), d, TileStart(t))
  {
    hide RunShift, TruncTerm, ValueTerm, Keeps;
    if t > 0 {
      RunAccIsNum(x, scale, seed, trunc, t - 1, d);
      var c, c' := RunShift(x, scale, seed, t - 1), RunShift(x, scale, seed, t);
      KeptTerms(x, trunc, c', d, TileStart(t - 1), TileStart(t));
      AdvanceNum(x, c, c', d, TileStart(t - 1), TileStart(t));
    }
  }

  // ---- the output of a row ----

  lemma AdvanceNothing(x: Row, trunc: real -> real, c: real, c': real, d: int, lo: int, hi: int)
    requires trunc(0.0) == 0.0 && !SeesSome(x)
    ensures AdvanceSum(x, c, c', lo, hi, 0.0) == 0.0
    ensures AdvanceAcc(x, trunc, c, c', d, lo, hi, 0.0) == 0.0
  {
    SumZero(WeightTerm(x, c'), lo, hi);
    SumZero(TruncTerm(x, trunc, c', d), lo, hi);
  }

  /** A row that sees no key keeps sum and numerators at zero. */
  lemma {:induction false} NothingSeen(x: Row, trunc: real -> real, scale: real, seed: real, t: nat, d: int)
    requires trunc(0.0) == 0.0 && !SeesSome(x)
    ensures RunAcc(x, scale, seed, trunc, t, d) == 0.0 && RunSum(x, scale, seed, t) == 0.0
  {
    hide RunShift, AdvanceSum, AdvanceAcc;
    if t > 0 {
      NothingSeen(x, trunc, scale, seed, t - 1, d);
      AdvanceNothing(x, trunc, RunShift(x, scale, seed, t - 1), RunShift(x, scale, seed, t), d,
        TileStart(t - 1), TileStart(t));
    }
  }

  lemma DivideIsMultiply(a: real, l: real)
    requires l > 0.0
    ensures a / l == a * (1.0 / l)
    ensures 1.0 / l > 0.0
  {
  }

  /** In exact arithmetic the fused output is exact attention, for any seed, any scale of the running shift, and
      any number of tiles that covers the visible keys. */
  lemma FusedExact(x: Row, scale: real, seed: real, trunc: real -> real, t: nat, d: int, n: nat)
    requires IsExponential(x.exp) && Keeps(trunc)
    requires SeenWithin(x, TileStart(t)) && SeenWithin(x, n)
    ensures FusedOutput(x, scale, seed, trunc, t, d) == Exact(x, d, n)
  {
    var c, m := RunShift(x, scale, seed, t), TileStart(t);
    hide RunShift, Num, Den, Exact, IsExponential, RunAcc, RunSum, Keeps;
    ExactAnyShift(x, c, d, n);
    if SeesSome(x) {
      RunSumIsDen(x, scale, seed, t);
      RunAccIsNum(x, scale, seed, trunc, t, d);
      SumsStopAtSeen(x, c, d, m, n);
      hide SeenWithin, SeesSome;
      DivideIsMultiply(Num(x, c, d, n), Den(x, c, n));
    } else {
      assert trunc(0.0) == 0.0 by {
        KeepsZero(trunc);
      }
      NothingSeen(x, trunc, scale, seed, t, d);
    }
  }

  lemma KeepsZero(trunc: real -> real)
    requires Keeps(trunc)
    ensures trunc(0.0) == 0.0
  {
  }

  /** In exact arithmetic neither the seed, nor the scale of the running shift, nor the number of tiles shows. */
  lemma SeedAndTilingDoNotShow(x: Row, scale: real, seed: real, t: nat, scale': real, seed': real, t': nat, d: int)
    requires IsExponential(x.exp) && SeenWithin(x, TileStart(t)) && SeenWithin(x, TileStart(t'))
    ensures FusedOutput(x, scale, seed, p => p, t, d) == FusedOutput(x, scale', seed', p => p, t', d)
  {
    FusedExact(x, scale, seed, p => p, t, d, TileStart(t));
    FusedExact(x, scale', seed', p => p, t', d, TileStart(t));
  }
}

/** Further promises of the online recurrence: its log-sum-exp, and what it does not depend on. */
module OnlineConsequences {
  import opened Sums
  import opened Exponential
  import opened SoftmaxRow
  import opened OnlineSoftmax
  import opened Floats

  /** The value the epilogue writes: (log2(rsum) + scale * rmax) * ln 2, or -inf for an empty row. */
  function FusedLse(x: Row, scale: real, seed: real, log2: real -> real, ln2: real, t: nat): Flt {
    var l := RunSum(x, scale, seed, t);
    if l > 0.0 then Fin(Scaled(ln2, log2(l) + RunShift(x, scale, seed, t))) else NegInf
  }

  /** Adding the shift back to the log of a shifted denominator gives the log of the unshifted one. */
  lemma ShiftedLog(x: Row, log: real -> real, c: real, n: int)
    requires IsExponential(x.exp) && IsLogarithm(log, x.exp) && SeenWithin(x, n) && SeesSome(x)
    ensures Den(x, c, n) > 0.0 && Den(x, 0.0, n) > 0.0
    ensures log(Den(x, c, n)) + c == log(Den(x, 0.0, n))
  {
    DenPositive(x, c, n);
    DenPositive(x, 0.0, n);
    DenShift(x, c, 0.0, n);
    hide IsExponential, IsLogarithm, Den;
    LogOfProduct(log, x.exp, Den(x, c, n), c - 0.0, Den(x, 0.0, n));
  }

  /** The log-sum-exp is that of all visible keys, whatever the seed and the number of tiles;
      it is -inf exactly when the row sees no key. */
  lemma FusedLseIsLse(x: Row, scale: real, seed: real, log2: real -> real, ln2: real, t: nat, n: nat)
    requires IsExponential(x.exp) && IsLogarithm(log2, x.exp)
    requires SeenWithin(x, TileStart(t)) && SeenWithin(x, n)
    ensures FusedLse(x, scale, seed, log2, ln2, t)
         == if SeesSome(x) then Fin(Scaled(ln2, log2(Den(x, 0.0, n)))) else NegInf
  {
    var c := RunShift(x, scale, seed, t);
    RunSumIsDen(x, scale, seed, t);
    DenPositive(x, c, TileStart(t));
    hide RunShift, RunSum, IsExponential, IsLogarithm, Den, Scaled;
    if SeesSome(x) {
      ShiftedLog(x, log2, c, TileStart(t));
      SumsStopAtSeen(x, 0.0, 0, TileStart(t), n);
    }
  }

  /** Two rows that agree on what is seen, and on the score and value of every key seen. */
  ghost predicate AgreeOnSeen(x: Row, y: Row) {
    && x.exp == y.exp
    && (forall key :: x.seen(key) == y.seen(key))
    && (forall key :: x.seen(key) ==> x.score(key) == y.score(key) && x.logit(key) == y.logit(key))
    && (forall key, d :: x.seen(key) ==> x.value(key, d) == y.value(key, d))
  }

  lemma {:induction false} SameMax(x: Row, y: Row, seed: real, n: int)
    requires AgreeOnSeen(x, y)
    ensures MaxOver(x, seed, n) == MaxOver(y, seed, n)
    decreases n
  {
    if n > 0 {
      SameMax(x, y, seed, n - 1);
    }
  }

  lemma SameShift(x: Row, y: Row, scale: real, seed: real, t: nat)
    requires AgreeOnSeen(x, y)
    ensures RunShift(x, scale, seed, t) == RunShift(y, scale, seed, t)
  {
    SameMax(x, y, seed, TileStart(t));
  }

  lemma SameTerms(x: Row, y: Row, trunc: real -> real, c: real, d: int, key: int)
    requires AgreeOnSeen(x, y) && trunc(0.0) == 0.0
    ensures WeightTerm(x, c)(key) == WeightTerm(y, c)(key)
    ensures TruncTerm(x, trunc, c, d)(key) == TruncTerm(y, trunc, c, d)(key)
  {
    if !x.seen(key) {
      assert Weight(x, c, key) == 0.0 == Weight(y, c, key);
    }
  }

  lemma SameAdvance(x: Row, y: Row, trunc: real -> real, c': real, c: real, d: int, lo: int, hi: int)
    requires AgreeOnSeen(x, y) && trunc(0.0) == 0.0
    ensures forall l :: AdvanceSum(x, c', c, lo, hi, l) == AdvanceSum(y, c', c, lo, hi, l)
    ensures forall acc :: AdvanceAcc(x, trunc, c', c, d, lo, hi, acc) == AdvanceAcc(y, trunc, c', c, d, lo, hi, acc)
  {
    assert x.exp == y.exp;
    hide WeightTerm, TruncTerm, AgreeOnSeen, Weight, Sum;
    forall key ensures WeightTerm(x, c)(key) == WeightTerm(y, c)(key)
               ensures TruncTerm(x, trunc, c, d)(key) == TruncTerm(y, trunc, c, d)(key) {
      SameTerms(x, y, trunc, c, d, key);
    }
    SumEqual(WeightTerm(x, c), WeightTerm(y, c), lo, hi);
    SumEqual(TruncTerm(x, trunc, c, d), TruncTerm(y, trunc, c, d), lo, hi);
  }

  /** Keys and values the row does not see leave its whole online state unchanged, tile by tile. */
  lemma {:induction false} UnseenDoNotMatter(x: Row, y: Row, scale: real, seed: real, trunc: real -> real, t: nat,
                                             d: int)
    requires AgreeOnSeen(x, y) && trunc(0.0) == 0.0
    ensures RunShift(x, scale, seed, t) == RunShift(y, scale, seed, t)
    ensures RunSum(x, scale, seed, t) == RunSum(y, scale, seed, t)
    ensures RunAcc(x, scale, seed, trunc, t, d) == RunAcc(y, scale, seed, trunc, t, d)
  {
    hide RunShift, AdvanceSum, AdvanceAcc, AgreeOnSeen;
    SameShift(x, y, scale, seed, t);
    if t > 0 {
      UnseenDoNotMatter(x, y, scale, seed, trunc, t - 1, d);
      SameAdvance(x, y, trunc, RunShift(x, scale, seed, t - 1), RunShift(x, scale, seed, t), d, TileStart(t - 1),
        TileStart(t));
    }
  }
}