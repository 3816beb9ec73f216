/** A row's output is a weighted mean of what it sees: truncation or not, it never leaves the range of the values. */
module OutputSize {
  import opened Sums
  import opened Exponential
  import opened SoftmaxRow
  import opened OnlineSoftmax
  import opened TruncationBound
  import opened GpuRef

  lemma ProductSize(p: real, q: real, v: real, vmax: real)
    requires 0.0 <= q <= p && Abs(v) <= vmax
    ensures Abs(q * v) <= Scaled(vmax, p)
  {
    assert Abs(q * v) == q * Abs(v);
    Monotone(Abs(v), vmax, q);
    Monotone(q, p, vmax);
  }

  /** A truncated probability times its value is no larger than the probability times the largest value. */
  lemma TermSize(x: Row, trunc: real -> real, loss: Loss, c: real, d: int, key: int, vmax: real)
    requires IsExponential(x.exp) && TruncatesWithin(trunc, loss) && ValuesWithin(x, d, vmax)
    requires Weight(x, c, key) <= 1.0
    ensures Abs(TruncTerm(x, trunc, c, d)(key)) <= Scaled(vmax, WeightTerm(x, c)(key))
  {
    WeightNonneg(x, c, key);
    var p, v := Weight(x, c, key), x.value(key, d);
    assert TruncTerm(x, trunc, c, d)(key) == trunc(p) * v && WeightTerm(x, c)(key) == p;
    if x.seen(key) {
      hide Weight, Scaled;
      ProductSize(p, trunc(p), v, vmax);
    } else {
      assert trunc(p) == 0.0 == p;
    }
  }

  lemma SumSize(f: int -> real, w: int -> real, lo: int, hi: int, vmax: real)
    requires forall i :: lo <= i < hi ==> Abs(f(i)) <= Scaled(vmax, w(i))
    ensures Abs(Sum(f, lo, hi)) <= Scaled(vmax, Sum(w, lo, hi))
  {
    var none: int -> real, most: int -> real := i => 0.0, i => Scaled(vmax, w(i));
    SumZero(none, lo, hi);
    SumCombine(w, vmax, w, 0.0, most, lo, hi);
    hide Scaled;
    SumClose(f, none, most, lo, hi);
  }

  lemma ScaledParts(vmax: real, r: real, l: real, l': real)
    ensures Scaled(vmax, r * l + l') == r * Scaled(vmax, l) + Scaled(vmax, l')
  {
    Distribute(vmax, r * l, l');
    assert r * (vmax * l) == vmax * (r * l);
  }

  lemma RescaledSize(r: real, acc: real, l: real, acc': real, l': real, vmax: real)
    requires r >= 0.0 && Abs(acc) <= Scaled(vmax, l) && Abs(acc') <= Scaled(vmax, l')
    ensures Abs(r * acc + acc') <= Scaled(vmax, r * l + l')
  {
    ScaledParts(vmax, r, l, l');
    hide Scaled;
    Monotone(Abs(acc), Scaled(vmax, l), r);
    assert Abs(r * acc) == r * Abs(acc);
    assert Abs(r * acc + acc') <= Abs(r * acc) + Abs(acc');
  }

  lemma TileSize(x: Row, trunc: real -> real, loss: Loss, c: real, c': real, d: int, lo: int, hi: int, acc: real,
                 l: real, vmax: real)
    requires IsExponential(x.exp) && TruncatesWithin(trunc, loss) && ValuesWithin(x, d, vmax)
    requires forall key :: lo <= key < hi ==> Weight(x, c', key) <= 1.0
    requires Abs(acc) <= Scaled(vmax, l)
    ensures Abs(AdvanceAcc(x, trunc, c, c', d, lo, hi, acc)) <= Scaled(vmax, AdvanceSum(x, c, c', lo, hi, l))
  {
    hide TruncTerm, WeightTerm, Scaled, TruncatesWithin, ValuesWithin, Sum, IsExponential, Weight, Abs;
    FactorPositive(x.exp, c - c');
    forall key | lo <= key < hi ensures Abs(TruncTerm(x, trunc, c', d)(key)) <= Scaled(vmax, WeightTerm(x, c')(key)) {
      TermSize(x, trunc, loss, c', d, key, vmax);
    }
    SumSize(TruncTerm(x, trunc, c', d), WeightTerm(x, c'), lo, hi, vmax);
    var r, acc', l' := x.exp(c - c'), Sum(TruncTerm(x, trunc, c', d), lo, hi), Sum(WeightTerm(x, c'), lo, hi);
    assert AdvanceAcc(x, trunc, c, c', d, lo, hi, acc) == r * acc + acc';
    assert AdvanceSum(x, c, c', lo, hi, l) == r * l + l';
    hide AdvanceAcc, AdvanceSum;
    RescaledSize(r, acc, l, acc', l', vmax);
  }

  /** The accumulator stays within the row sum times the largest value, however often the two are rescaled. */
  lemma {:induction false} RunAccSize(x: Row, scale: real, seed: real, trunc: real -> real, loss: Loss, t: nat, d: int,
                                      vmax: real)
    requires Weighs(x, scale) && TruncatesWithin(trunc, loss) && ValuesWithin(x, d, vmax)
    ensures Abs(RunAcc(x, scale, seed, trunc, t, d)) <= Scaled(vmax, RunSum(x, scale, seed, t))
  {
    if t > 0 {
      RunAccSize(x, scale, seed, trunc, loss, t - 1, d, vmax);
      var c, c' := RunShift(x, scale, seed, t - 1), RunShift(x, scale, seed, t);
      forall key | TileStart(t - 1) <= key < TileStart(t) ensures Weight(x, c', key) <= 1.0 {
        WeightAtMostOne(x, scale, seed, t, key);
      }
      hide Scaled, RunShift, TruncatesWithin, ValuesWithin, AdvanceAcc, AdvanceSum, Abs, Weight;
      TileSize(x, trunc, loss, c, c', d, TileStart(t - 1), TileStart(t), RunAcc(x, scale, seed, trunc, t - 1, d),
        RunSum(x, scale, seed, t - 1), vmax);
    }
  }

  lemma NormalisedSize(acc: real, l: real, vmax: real)
    requires vmax >= 0.0 && Abs(acc) <= Scaled(vmax, l)
    ensures Abs(Normalise(acc, l)) <= vmax
  {
    if l > 0.0 {
      var i := 1.0 / l;
      assert Abs(acc * i) == Abs(acc) * i;
      Monotone(Abs(acc), Scaled(vmax, l), i);
      assert Scaled(vmax, l) * i == vmax * (l * i);
      assert l * i == 1.0;
    }
  }

  /** No output is larger than the largest value its row sees: also where the seed outweighs every score. */
  lemma FusedSize(x: Row, scale: real, seed: real, trunc: real -> real, loss: Loss, t: nat, d: int, vmax: real)
    requires Weighs(x, scale) && TruncatesWithin(trunc, loss) && ValuesWithin(x, d, vmax)
    ensures Abs(FusedOutput(x, scale, seed, trunc, t, d)) <= vmax
  {
    hide RunAcc, RunSum, Weighs, TruncatesWithin, Scaled, Normalise;
    RunAccSize(x, scale, seed, trunc, loss, t, d, vmax);
    NormalisedSize(RunAcc(x, scale, seed, trunc, t, d), RunSum(x, scale, seed, t), vmax);
  }

  // ---- the reference ----

  function ShareOf(x: Row, c: real, inv: real): int -> real {
    key => Share(Weight(x, c, key), inv)
  }

  /** The shares of a row add up to one, or to nothing. */
  lemma SharesAddUp(x: Row, c: real, n: int)
    requires IsExponential(x.exp)
    ensures 0.0 <= Sum(ShareOf(x, c, Inverse(Den(x, c, n))), 0, n) <= 1.0
  {
    var w, inv := WeightTerm(x, c), Inverse(Den(x, c, n));
    forall key ensures w(key) >= 0.0 {
      WeightNonneg(x, c, key);
    }
    SumNonneg(w, 0, n);
    hide Weight, IsExponential;
    SumCombine(w, inv, w, 0.0, ShareOf(x, c, inv), 0, n);
    assert Den(x, c, n) == Sum(w, 0, n);
  }

  lemma ShareTermSize(x: Row, trunc: real -> real, loss: Loss, c: real, n: nat, d: int, key: int, vmax: real)
    requires IsExponential(x.exp) && TruncatesWithin(trunc, loss) && ValuesWithin(x, d, vmax) && 0 <= key < n
    ensures var inv := Inverse(Den(x, c, n));
      Abs(RefTerm(x, trunc, c, inv, d)(key)) <= Scaled(vmax, ShareOf(x, c, inv)(key))
  {
    ShareAtMostOne(x, c, n, key);
    var inv := Inverse(Den(x, c, n));
    var p, v := Share(Weight(x, c, key), inv), x.value(key, d);
    assert RefTerm(x, trunc, c, inv, d)(key) == trunc(p) * v && ShareOf(x, c, inv)(key) == p;
    hide Den, Inverse, Share, Scaled;
    if x.seen(key) {
      hide Weight;
      ProductSize(p, trunc(p), v, vmax);
    } else {
      assert p == 0.0 == trunc(p) by {
        assert Weight(x, c, key) == 0.0;
        NoShare(inv);
      }
      ProductSize(0.0, 0.0, 0.0, vmax);
    }
  }

  lemma NoShare(inv: real)
    ensures Share(0.0, inv) == 0.0
  {
  }

  /** Nor does the reference's output leave that range. */
  lemma RefSize(x: Row, trunc: real -> real, loss: Loss, c: real, d: int, n: nat, vmax: real)
    requires IsExponential(x.exp) && TruncatesWithin(trunc, loss) && ValuesWithin(x, d, vmax)
    ensures Abs(RefOutput(x, trunc, c, d, n)) <= vmax
  {
    var inv := Inverse(Den(x, c, n));
    var f, w := RefTerm(x, trunc, c, inv, d), ShareOf(x, c, inv);
    SharesAddUp(x, c, n);
    hide RefTerm, ShareOf, Scaled, TruncatesWithin, IsExponential, Den, Inverse, Sum, Abs;
    forall key | 0 <= key < n ensures Abs(f(key)) <= Scaled(vmax, w(key)) {
      ShareTermSize(x, trunc, loss, c, n, d, key, vmax);
    }
    SumSize(f, w, 0, n, vmax);
    ScaledAtMost(vmax, Sum(w, 0, n));
  }

  lemma ScaledAtMost(vmax: real, l: real)
    requires vmax >= 0.0 && l <= 1.0
    ensures Scaled(vmax, l) <= vmax
  {
    Monotone(l, 1.0, vmax);
  }
}
