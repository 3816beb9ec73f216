/** Rows whose every visible score lies so far below the seed that truncation leaves no probability at all. */
module LostRows {
  import opened Sums
  import opened Exponential
  import opened SoftmaxRow
  import opened OnlineSoftmax
  import opened TruncationBound

  /** The probabilities that truncation takes to zero are those below least. */
  ghost predicate FlushesBelow(trunc: real -> real, least: real) {
    && 0.0 < least <= 1.0
    && forall p :: 0.0 <= p <= 1.0 ==> trunc(p) >= 0.0 && (trunc(p) == 0.0 <==> p < least)
  }

  function WithValues(x: Row, v: (int, int) -> real): Row {
    x.(value := v)
  }

  function Ones(): (int, int) -> real {
    (key, d) => 1.0
  }

  // ---- no key reaches the seed ----

  /** Nothing lifts the maximum above the seed. */
  lemma {:induction false} MaxStaysAtSeed(x: Row, scale: real, seed: real, w: real, n: int)
    requires Weighs(x, scale) && w <= 1.0 && !Reaches(x, scale, seed, w)
    ensures MaxOver(x, seed, n) == seed
    decreases n
  {
    if n > 0 {
      MaxStaysAtSeed(x, scale, seed, w, n - 1);
      if x.seen(n - 1) && x.score(n - 1) > seed {
        ScoreReaches(x, scale, seed, n - 1);
        assert false;
      }
    }
  }

  lemma FlushedTile(x: Row, scale: real, seed: real, trunc: real -> real, least: real, d: int, lo: int, hi: int)
    requires Weighs(x, scale) && FlushesBelow(trunc, least) && !Reaches(x, scale, seed, least)
    ensures Sum(TruncTerm(x, trunc, Scaled(scale, seed), d), lo, hi) == 0.0
  {
    var c := Scaled(scale, seed);
    forall key ensures TruncTerm(x, trunc, c, d)(key) == 0.0 {
      WeightNonneg(x, c, key);
      assert Weight(x, c, key) < least;
      assert trunc(Weight(x, c, key)) == 0.0;
    }
    hide TruncTerm;
    SumZero(TruncTerm(x, trunc, c, d), lo, hi);
  }

  lemma LeastAtMostOne(trunc: real -> real, least: real)
    requires FlushesBelow(trunc, least)
    ensures 0.0 < least <= 1.0
  {
  }

  lemma {:induction false} NothingKept(x: Row, scale: real, seed: real, trunc: real -> real, least: real, t: nat,
                                       d: int)
    requires Weighs(x, scale) && FlushesBelow(trunc, least) && !Reaches(x, scale, seed, least)
    ensures RunAcc(x, scale, seed, trunc, t, d) == 0.0
  {
    hide MaxOver, Weighs, FlushesBelow, Reaches, TruncTerm, Sum, Scaled;
    if t > 0 {
      NothingKept(x, scale, seed, trunc, least, t - 1, d);
      assert least <= 1.0 by {
        LeastAtMostOne(trunc, least);
      }
      MaxStaysAtSeed(x, scale, seed, least, TileStart(t));
      FlushedTile(x, scale, seed, trunc, least, d, TileStart(t - 1), TileStart(t));
    }
  }

  // ---- some key does ----

  /** The terms of one tile of a row of ones: none negative, and positive with the key that is kept. */
  lemma OnesTile(x: Row, scale: real, seed: real, trunc: real -> real, least: real, t: nat, d: int, key: int)
    requires Weighs(x, scale) && FlushesBelow(trunc, least) && x.value == Ones() && t > 0
    ensures var f := TruncTerm(x, trunc, RunShift(x, scale, seed, t), d);
      && Sum(f, TileStart(t - 1), TileStart(t)) >= 0.0
      && (TileStart(t - 1) <= key < TileStart(t) && Weight(x, RunShift(x, scale, seed, t), key) >= least ==>
            Sum(f, TileStart(t - 1), TileStart(t)) > 0.0)
  {
    var c := RunShift(x, scale, seed, t);
    var f := TruncTerm(x, trunc, c, d);
    forall k | 0 <= k < TileStart(t) ensures f(k) >= 0.0 && (f(k) > 0.0 <==> Weight(x, c, k) >= least) {
      WeightAtMostOne(x, scale, seed, t, k);
      assert f(k) == trunc(Weight(x, c, k)) * 1.0;
    }
    hide TruncTerm, Weight, RunShift, Weighs, FlushesBelow;
    SumNonneg(f, TileStart(t - 1), TileStart(t));
    if TileStart(t - 1) <= key < TileStart(t) {
      SumAtLeast(f, TileStart(t - 1), TileStart(t), key);
    }
  }

  /** Rescaling by a positive factor and adding what is not negative keeps a sign. */
  lemma PositiveStep(r: real, a: real, s: real, b: real)
    requires r > 0.0 && a >= 0.0 && s >= 0.0 && b == r * a + s
    ensures b >= 0.0 && (a > 0.0 || s > 0.0 ==> b > 0.0)
  {
  }

  /** The numerator of a row of ones is positive from the tile of a kept key on. */
  lemma {:induction false} OnesKept(x: Row, scale: real, seed: real, trunc: real -> real, least: real, t: nat, d: int,
                                    key: nat)
    requires Weighs(x, scale) && FlushesBelow(trunc, least) && x.value == Ones()
    ensures RunAcc(x, scale, seed, trunc, t, d) >= 0.0
    ensures TileEnd(key) <= t && Weight(x, RunShift(x, scale, seed, TileEnd(key)), key) >= least ==>
              RunAcc(x, scale, seed, trunc, t, d) > 0.0
  {
    hide RunShift, FlushesBelow, TruncTerm, Weight, IsExponential, Decays, ScaledLogits, Sum;
    if t > 0 {
      var c, c' := RunShift(x, scale, seed, t - 1), RunShift(x, scale, seed, t);
      OnesKept(x, scale, seed, trunc, least, t - 1, d, key);
      OnesTile(x, scale, seed, trunc, least, t, d, key);
      FactorPositive(x.exp, c - c');
      PositiveStep(x.exp(c - c'), RunAcc(x, scale, seed, trunc, t - 1, d),
        Sum(TruncTerm(x, trunc, c', d), TileStart(t - 1), TileStart(t)), RunAcc(x, scale, seed, trunc, t, d));
    }
  }

  lemma ReachesAnyValues(x: Row, v: (int, int) -> real, scale: real, seed: real, w: real, n: int)
    requires Weighs(x, scale)
    ensures Weighs(WithValues(x, v), scale)
    ensures Reaches(WithValues(x, v), scale, seed, w) <==> Reaches(x, scale, seed, w)
    ensures SeenWithin(WithValues(x, v), n) <==> SeenWithin(x, n)
  {
    var y := WithValues(x, v);
    assert y.seen == x.seen && y.score == x.score && y.logit == x.logit && y.exp == x.exp;
    assert forall key :: y.seen(key) == x.seen(key);
    assert forall key :: y.logit(key) == x.logit(key) && y.score(key) == x.score(key);
  }

  /** The fused output of a row of ones is positive once a key reaches least against the seed. */
  lemma OnesArePositive(x: Row, scale: real, seed: real, trunc: real -> real, least: real, t: nat, d: int)
    requires Weighs(x, scale) && FlushesBelow(trunc, least) && SeenWithin(x, TileStart(t)) && x.value == Ones()
    requires Reaches(x, scale, seed, least)
    ensures FusedOutput(x, scale, seed, trunc, t, d) > 0.0
  {
    hide RunAcc, RunSum, Normalise;
    assert 0.0 < least <= 1.0;
    var key := HeavyKey(x, scale, seed, least, t);
    MaxBetween(x, seed, key, t);
    OnesKept(x, scale, seed, trunc, least, t, d, key);
    SumReaches(x, scale, seed, least, t);
    hide RunAcc, RunSum, RunShift, Weighs, Reaches, Weight, FlushesBelow;
    hide Normalise;
    NormalisePositive(RunAcc(x, scale, seed, trunc, t, d), RunSum(x, scale, seed, t));
  }

  lemma NormalisePositive(acc: real, l: real)
    requires acc > 0.0 && l > 0.0
    ensures Normalise(acc, l) > 0.0
  {
    DivideIsMultiply(acc, l);
    PositiveStep(1.0 / l, acc, 0.0, Normalise(acc, l));
  }

  /** Whatever V holds, the fused output of a row is zero, exactly when no visible key has a weight of at least least
      against the seed: exp(scale * (score - seed)) < least for all of them. */
  lemma LostExactlyBelowSeed(x: Row, scale: real, seed: real, trunc: real -> real, least: real, t: nat, d: int)
    requires Weighs(x, scale) && FlushesBelow(trunc, least) && SeenWithin(x, TileStart(t))
    ensures (forall v :: FusedOutput(WithValues(x, v), scale, seed, trunc, t, d) == 0.0)
       <==> !Reaches(x, scale, seed, least)
  {
    if Reaches(x, scale, seed, least) {
      var y := WithValues(x, Ones());
      ReachesAnyValues(x, Ones(), scale, seed, least, TileStart(t));
      hide FusedOutput, Weighs, Reaches, FlushesBelow, SeenWithin;
      OnesArePositive(y, scale, seed, trunc, least, t, d);
    } else {
      forall v ensures FusedOutput(WithValues(x, v), scale, seed, trunc, t, d) == 0.0 {
        ReachesAnyValues(x, v, scale, seed, least, TileStart(t));
        hide WithValues, Weighs, Reaches, FlushesBelow;
        NothingKept(WithValues(x, v), scale, seed, trunc, least, t, d);
      }
    }
  }

  /** While exact attention of a row of ones is one. */
  lemma ExactOfOnes(x: Row, d: int, n: nat)
    requires IsExponential(x.exp) && SeenWithin(x, n) && SeesSome(x)
    requires forall key :: x.seen(key) ==> x.value(key, d) == 1.0
    ensures Exact(x, d, n) == 1.0
  {
    SumEqual(ValueTerm(x, 0.0, d), WeightTerm(x, 0.0), 0, n);
    DenPositive(x, 0.0, n);
    var l := Den(x, 0.0, n);
    assert Num(x, 0.0, d, n) == l > 0.0;
    hide Den, Num;
    SelfQuotient(l);
  }

  lemma SelfQuotient(l: real)
    requires l > 0.0
    ensures l / l == 1.0
  {
  }
}
