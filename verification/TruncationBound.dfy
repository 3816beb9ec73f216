/** What truncating the probabilities of a row can cost, whatever the tiling and the sequence of rescales. */
module TruncationBound {
  import opened Sums
  import opened Exponential
  import opened SoftmaxRow
  import opened OnlineSoftmax

  /** What rounding a probability towards zero may take away: a share eps of it, and anything of one below tiny. */
  datatype Loss = Loss(eps: real, tiny: real)

  /** Rounding towards zero of the numbers from 0 to 1. */
  ghost predicate TruncatesWithin(trunc: real -> real, loss: Loss) {
    && loss.eps >= 0.0 && loss.tiny >= 0.0
    && forall p :: 0.0 <= p <= 1.0 ==>
         0.0 <= trunc(p) <= p && (p >= loss.tiny ==> p - trunc(p) <= loss.eps * p)
  }

  /** What truncation may move: a share of a weighted size, and a fixed amount of an unweighted mass. */
  function Slack(loss: Loss, size: real, mass: real): real {
    loss.eps * size + loss.tiny * mass
  }

  ghost predicate Near(a: real, b: real, bound: real) {
    Abs(a - b) <= bound
  }

  /** The same row with absolute values. */
  function AbsRow(x: Row): Row {
    x.(value := (key, d) => Abs(x.value(key, d)))
  }

  function MassTerm(x: Row, d: int): int -> real {
    key => if x.seen(key) then Abs(x.value(key, d)) else 0.0
  }

  /** The absolute values that a row sees among the first n keys, unweighted. */
  function Mass(x: Row, d: int, n: int): real {
    Sum(MassTerm(x, d), 0, n)
  }

  /** acc is the numerator over the first n keys up to what truncation may cost. */
  ghost predicate AccNear(x: Row, loss: Loss, c: real, d: int, n: int, acc: real) {
    Near(acc, Num(x, c, d, n), Slack(loss, Num(AbsRow(x), c, d, n), Mass(x, d, n)))
  }

  /** A row's logits are its scores, scaled. */
  ghost predicate ScaledLogits(x: Row, scale: real) {
    forall key :: x.logit(key) == Scaled(scale, x.score(key))
  }

  /** The setting of the bound: an exponential that grows, logits scaled by a factor that is not negative. */
  ghost predicate Weighs(x: Row, scale: real) {
    IsExponential(x.exp) && Decays(x.exp) && scale >= 0.0 && ScaledLogits(x, scale)
  }

  // ---- products and sums of bounds ----

  lemma Monotone(a: real, b: real, c: real)
    requires a <= b && c >= 0.0
    ensures a * c <= b * c
  {
  }

  lemma ScaledGrows(scale: real, a: real, b: real)
    requires scale >= 0.0 && a <= b
    ensures Scaled(scale, a) <= Scaled(scale, b)
  {
    Monotone(a, b, scale);
  }

  lemma SlackAdds(loss: Loss, size: real, mass: real, size': real, mass': real)
    ensures Slack(loss, size, mass) + Slack(loss, size', mass') == Slack(loss, size + size', mass + mass')
  {
    Distribute(loss.eps, size, size');
    Distribute(loss.tiny, mass, mass');
  }

  lemma SlackScaled(loss: Loss, size: real, mass: real, r: real)
    ensures r * Slack(loss, size, mass) == Slack(loss, r * size, r * mass)
  {
    Distribute(r, loss.eps * size, loss.tiny * mass);
    assert r * (loss.eps * size) == loss.eps * (r * size);
    assert r * (loss.tiny * mass) == loss.tiny * (r * mass);
  }

  lemma SlackGrows(loss: Loss, size: real, mass: real, size': real, mass': real)
    requires loss.eps >= 0.0 && loss.tiny >= 0.0 && size <= size' && mass <= mass'
    ensures Slack(loss, size, mass) <= Slack(loss, size', mass')
  {
    Monotone(size, size', loss.eps);
    Monotone(mass, mass', loss.tiny);
  }

  lemma ScaledNear(r: real, a: real, b: real, bound: real)
    requires r >= 0.0 && Near(a, b, bound)
    ensures Near(r * a, r * b, r * bound)
  {
    assert r * a - r * b == r * (a - b);
    assert Abs(r * (a - b)) == r * Abs(a - b);
    Monotone(Abs(a - b), bound, r);
  }

  // ---- one key, and a range of keys ----

  /** Truncating one probability moves its product with a value by its share of the slack. */
  lemma ProductClose(trunc: real -> real, loss: Loss, p: real, v: real)
    requires TruncatesWithin(trunc, loss) && 0.0 <= p <= 1.0
    ensures Near(trunc(p) * v, p * v, Slack(loss, p * Abs(v), Abs(v)))
  {
    var lost := p - trunc(p);
    assert 0.0 <= lost <= loss.eps * p + loss.tiny by {
      if p >= loss.tiny {
        assert lost <= loss.eps * p;
      } else {
        Monotone(0.0, p, loss.eps);
      }
    }
    hide TruncatesWithin;
    assert trunc(p) * v - p * v == -(lost * v);
    assert Abs(lost * v) == lost * Abs(v);
    Monotone(lost, loss.eps * p + loss.tiny, Abs(v));
    assert (loss.eps * p + loss.tiny) * Abs(v) == loss.eps * (p * Abs(v)) + loss.tiny * Abs(v);
  }

  function SlackTerm(x: Row, loss: Loss, c: real, d: int): int -> real {
    key => Slack(loss, ValueTerm(AbsRow(x), c, d)(key), MassTerm(x, d)(key))
  }

  /** The terms of one key, in its weight and its value. */
  lemma TermsOf(x: Row, trunc: real -> real, loss: Loss, c: real, d: int, key: int)
    ensures var w, v := Weight(x, c, key), x.value(key, d);
      && TruncTerm(x, trunc, c, d)(key) == trunc(w) * v && ValueTerm(x, c, d)(key) == w * v
      && SlackTerm(x, loss, c, d)(key) == Slack(loss, w * Abs(v), if x.seen(key) then Abs(v) else 0.0)
  {
    var w, v := Weight(x, c, key), x.value(key, d);
    assert Weight(AbsRow(x), c, key) == w;
    hide Slack, Weight, Abs;
    assert ValueTerm(AbsRow(x), c, d)(key) == w * Abs(v);
    assert MassTerm(x, d)(key) == if x.seen(key) then Abs(v) else 0.0;
  }

  lemma TruncTermClose(x: Row, trunc: real -> real, loss: Loss, c: real, d: int, key: int)
    requires IsExponential(x.exp) && TruncatesWithin(trunc, loss) && Weight(x, c, key) <= 1.0
    ensures Abs(TruncTerm(x, trunc, c, d)(key) - ValueTerm(x, c, d)(key)) <= SlackTerm(x, loss, c, d)(key)
  {
    WeightNonneg(x, c, key);
    TermsOf(x, trunc, loss, c, d, key);
    hide TruncTerm, ValueTerm, SlackTerm, IsExponential;
    if x.seen(key) {
      hide Weight;
      ProductClose(trunc, loss, Weight(x, c, key), x.value(key, d));
      hide TruncatesWithin, Slack;
    } else {
      assert Weight(x, c, key) == 0.0 == trunc(0.0);
      hide TruncatesWithin, Weight;
    }
  }

  lemma SlackSum(x: Row, loss: Loss, c: real, d: int, lo: int, hi: int)
    ensures Sum(SlackTerm(x, loss, c, d), lo, hi)
         == Slack(loss, Sum(ValueTerm(AbsRow(x), c, d), lo, hi), Sum(MassTerm(x, d), lo, hi))
  {
    hide ValueTerm, MassTerm, AbsRow;
    SumCombine(ValueTerm(AbsRow(x), c, d), loss.eps, MassTerm(x, d), loss.tiny, SlackTerm(x, loss, c, d), lo, hi);
  }

  /** Truncating the probabilities of a range of keys moves their contribution by at most their slack. */
  lemma TruncSumClose(x: Row, trunc: real -> real, loss: Loss, c: real, d: int, lo: int, hi: int)
    requires IsExponential(x.exp) && TruncatesWithin(trunc, loss)
    requires forall key :: lo <= key < hi ==> Weight(x, c, key) <= 1.0
    ensures Near(Sum(TruncTerm(x, trunc, c, d), lo, hi), Sum(ValueTerm(x, c, d), lo, hi),
              Slack(loss, Sum(ValueTerm(AbsRow(x), c, d), lo, hi), Sum(MassTerm(x, d), lo, hi)))
  {
    SlackSum(x, loss, c, d, lo, hi);
    hide TruncTerm, ValueTerm, SlackTerm, MassTerm, AbsRow, TruncatesWithin, IsExponential, Weight, Slack;
    var f, g, h := TruncTerm(x, trunc, c, d), ValueTerm(x, c, d), SlackTerm(x, loss, c, d);
    forall key | lo <= key < hi ensures Abs(f(key) - g(key)) <= h(key) {
      TruncTermClose(x, trunc, loss, c, d, key);
    }
    SumClose(f, g, h, lo, hi);
  }

  // ---- tile by tile ----

  lemma ShiftGrows(x: Row, scale: real, seed: real, t: nat)
    requires scale >= 0.0
    ensures RunShift(x, scale, seed, t) <= RunShift(x, scale, seed, t + 1)
  {
    hide MaxOver, Scaled;
    MaxOverMonotone(x, seed, TileStart(t), TileStart(t + 1));
    ScaledGrows(scale, RunMax(x, seed, t), RunMax(x, seed, t + 1));
  }

  /** No weight under the current shift exceeds 1, so none leaves the range that truncation is bounded on. */
  lemma WeightAtMostOne(x: Row, scale: real, seed: real, t: nat, key: int)
    requires Weighs(x, scale) && 0 <= key < TileStart(t)
    ensures 0.0 <= Weight(x, RunShift(x, scale, seed, t), key) <= 1.0
  {
    WeightNonneg(x, RunShift(x, scale, seed, t), key);
    if x.seen(key) {
      MaxOverIsMax(x, seed, TileStart(t));
      hide MaxOver, Scaled;
      ScaledGrows(scale, x.score(key), RunMax(x, seed, t));
      assert x.logit(key) == Scaled(scale, x.score(key));
      assert x.logit(key) - RunShift(x, scale, seed, t) <= 0.0;
    }
  }

  lemma AbsRowExp(x: Row)
    ensures AbsRow(x).exp == x.exp
  {
  }

  lemma MassNonneg(x: Row, d: int, n: int)
    ensures Mass(x, d, n) >= 0.0
  {
    forall key ensures MassTerm(x, d)(key) >= 0.0 {
      assert Abs(x.value(key, d)) >= 0.0;
    }
    SumNonneg(MassTerm(x, d), 0, n);
  }

  /** Rescaling both sides by at most 1 and adding a near increment keeps them near. */
  lemma RescaledNear(r: real, loss: Loss, acc: real, num: real, size: real, mass: real,
                     acc': real, num': real, size': real, mass': real,
                     acc1: real, num1: real, size1: real, mass1: real)
    requires acc1 == r * acc + acc' && num1 == r * num + num' && size1 == r * size + size' && mass1 == mass + mass'
    requires 0.0 <= r <= 1.0 && loss.eps >= 0.0 && loss.tiny >= 0.0 && mass >= 0.0
    requires Near(acc, num, Slack(loss, size, mass)) && Near(acc', num', Slack(loss, size', mass'))
    ensures Near(acc1, num1, Slack(loss, size1, mass1))
  {
    ScaledNear(r, acc, num, Slack(loss, size, mass));
    SlackScaled(loss, size, mass, r);
    Monotone(r, 1.0, mass);
    SlackGrows(loss, r * size, r * mass, r * size, mass);
    SlackAdds(loss, r * size, mass, size', mass');
    hide Slack;
  }

  lemma LossNonneg(trunc: real -> real, loss: Loss)
    requires TruncatesWithin(trunc, loss)
    ensures loss.eps >= 0.0 && loss.tiny >= 0.0 && trunc(0.0) == 0.0
  {
  }

  lemma FactorPositive(f: real -> real, a: real)
    requires IsExponential(f)
    ensures f(a) > 0.0
  {
  }

  /** One tile keeps an accumulator near the numerator it stands for. */
  lemma TileKeepsNear(x: Row, trunc: real -> real, loss: Loss, c: real, c': real, d: int, lo: nat, hi: nat, acc: real)
    requires IsExponential(x.exp) && TruncatesWithin(trunc, loss) && lo <= hi
    requires x.exp(c - c') <= 1.0 && forall key :: lo <= key < hi ==> Weight(x, c', key) <= 1.0
    requires AccNear(x, loss, c, d, lo, acc)
    ensures AccNear(x, loss, c', d, hi, AdvanceAcc(x, trunc, c, c', d, lo, hi, acc))
  {
    hide TruncTerm, ValueTerm, MassTerm, Num, TruncatesWithin, Near, Slack, AbsRow, Sum, Weight, IsExponential;
    LossNonneg(trunc, loss);
    FactorPositive(x.exp, c - c');
    TruncSumClose(x, trunc, loss, c', d, lo, hi);
    AbsRowExp(x);
    AdvanceNum(x, c, c', d, lo, hi);
    AdvanceNum(AbsRow(x), c, c', d, lo, hi);
    SumSplit(MassTerm(x, d), 0, lo, hi);
    MassNonneg(x, d, lo);
    var r, acc' := x.exp(c - c'), Sum(TruncTerm(x, trunc, c', d), lo, hi);
    var num, num', num1 := Num(x, c, d, lo), Sum(ValueTerm(x, c', d), lo, hi), Num(x, c', d, hi);
    var size, size', size1 := Num(AbsRow(x), c, d, lo), Sum(ValueTerm(AbsRow(x), c', d), lo, hi),
      Num(AbsRow(x), c', d, hi);
    var mass, mass', mass1 := Mass(x, d, lo), Sum(MassTerm(x, d), lo, hi), Mass(x, d, hi);
    RescaledNear(r, loss, acc, num, size, mass, acc', num', size', mass',
      AdvanceAcc(x, trunc, c, c', d, lo, hi, acc), num1, size1, mass1);
  }

  /** However often the state was rescaled, the accumulator is as near to the true numerator as one rounding allows. */
  lemma {:induction false} RunAccNear(x: Row, scale: real, seed: real, trunc: real -> real, loss: Loss, t: nat, d: int)
    requires Weighs(x, scale) && TruncatesWithin(trunc, loss)
    ensures AccNear(x, loss, RunShift(x, scale, seed, t), d, TileStart(t), RunAcc(x, scale, seed, trunc, t, d))
  {
    if t == 0 {
      assert Num(x, RunShift(x, scale, seed, 0), d, 0) == 0.0;
    } else {
      RunAccNear(x, scale, seed, trunc, loss, t - 1, d);
      var c, c', acc := RunShift(x, scale, seed, t - 1), RunShift(x, scale, seed, t),
        RunAcc(x, scale, seed, trunc, t - 1, d);
      ShiftGrows(x, scale, seed, t - 1);
      forall key | TileStart(t - 1) <= key < TileStart(t) ensures Weight(x, c', key) <= 1.0 {
        WeightAtMostOne(x, scale, seed, t, key);
      }
      hide RunShift, AccNear, TruncatesWithin;
      TileKeepsNear(x, trunc, loss, c, c', d, TileStart(t - 1), TileStart(t), acc);
    }
  }

  // ---- the row sum, once a key carries weight ----

  /** Some key the row sees weighs at least w against the seed; with w = 1, some visible score reaches the seed. */
  ghost predicate Reaches(x: Row, scale: real, seed: real, w: real) {
    exists key :: x.seen(key) && x.exp(x.logit(key) - Scaled(scale, seed)) >= w
  }

  lemma ScoreReaches(x: Row, scale: real, seed: real, key: int)
    requires Weighs(x, scale) && x.seen(key) && x.score(key) >= seed
    ensures Reaches(x, scale, seed, 1.0)
  {
    hide Scaled;
    ScaledGrows(scale, seed, x.score(key));
    assert x.logit(key) == Scaled(scale, x.score(key));
    GrowsToTheRight(x.exp, x.logit(key) - Scaled(scale, seed));
  }

  /** The tile that key lies in is in once this many tiles are. */
  function TileEnd(key: nat): nat {
    key / 64 + 1
  }

  lemma MaxBetween(x: Row, seed: real, key: nat, t: nat)
    requires key < TileStart(t)
    ensures key < TileStart(TileEnd(key)) && TileEnd(key) <= t
    ensures seed <= RunMax(x, seed, TileEnd(key)) <= RunMax(x, seed, t)
    ensures x.seen(key) ==> x.score(key) <= RunMax(x, seed, TileEnd(key))
  {
    MaxOverIsMax(x, seed, TileStart(TileEnd(key)));
    MaxOverMonotone(x, seed, TileStart(TileEnd(key)), TileStart(t));
    hide MaxOver;
  }

  /** A key that carries weight w against the seed, or the key that lifts the maximum above it, has weight w already
      in its own tile, under the shift that is never changed again. */
  lemma HeavyKey(x: Row, scale: real, seed: real, w: real, t: nat) returns (key: nat)
    requires Weighs(x, scale) && w <= 1.0 && Reaches(x, scale, seed, w) && SeenWithin(x, TileStart(t))
    ensures x.seen(key) && key < TileStart(t)
    ensures RunShift(x, scale, seed, TileEnd(key)) == RunShift(x, scale, seed, t)
    ensures Weight(x, RunShift(x, scale, seed, t), key) >= w
  {
    MaxOverIsMax(x, seed, TileStart(t));
    hide MaxOver;
    if RunMax(x, seed, t) == seed {
      var k :| x.seen(k) && x.exp(x.logit(k) - Scaled(scale, seed)) >= w;
      key := k;
      MaxBetween(x, seed, key, t);
    } else {
      var k :| 0 <= k < TileStart(t) && x.seen(k) && x.score(k) == RunMax(x, seed, t);
      key := k;
      MaxBetween(x, seed, key, t);
      assert x.logit(key) - RunShift(x, scale, seed, t) == 0.0;
    }
  }

  /** Then the row sum is at least w. */
  lemma SumReaches(x: Row, scale: real, seed: real, w: real, t: nat)
    requires Weighs(x, scale) && w <= 1.0 && Reaches(x, scale, seed, w) && SeenWithin(x, TileStart(t))
    ensures RunSum(x, scale, seed, t) >= w
  {
    var key := HeavyKey(x, scale, seed, w, t);
    var c := RunShift(x, scale, seed, t);
    RunSumIsDen(x, scale, seed, t);
    forall k ensures WeightTerm(x, c)(k) >= 0.0 {
      WeightNonneg(x, c, k);
    }
    hide Weight, RunShift, RunSum, Reaches;
    SumAtLeast(WeightTerm(x, c), 0, TileStart(t), key);
  }

  // ---- the output of a row ----

  /** A loss measured after division by a row sum of at least w. */
  function Amplified(loss: Loss, w: real): Loss
    requires w > 0.0
  {
    Loss(loss.eps, loss.tiny / w)
  }

  lemma DividedSlack(loss: Loss, size: real, mass: real, l: real, w: real)
    requires 0.0 < w <= l && mass >= 0.0 && loss.tiny >= 0.0
    ensures Scaled(1.0 / l, Slack(loss, size, mass)) <= Slack(Amplified(loss, w), size / l, mass)
  {
    var i, i0, tm := 1.0 / l, 1.0 / w, loss.tiny * mass;
    SmallerInverse(l, w);
    DivideIsMultiply(size, l);
    DivideIsMultiply(loss.tiny, w);
    Monotone(0.0, loss.tiny, mass);
    Monotone(i, i0, tm);
    assert (loss.eps * size + tm) * i == loss.eps * (size * i) + tm * i;
    assert (loss.tiny * i0) * mass == tm * i0;
  }

  lemma SmallerInverse(l: real, w: real)
    requires 0.0 < w <= l
    ensures 0.0 < 1.0 / l <= 1.0 / w
  {
  }

  lemma DividedNear(acc: real, num: real, loss: Loss, size: real, mass: real, l: real, w: real)
    requires 0.0 < w <= l && mass >= 0.0 && loss.tiny >= 0.0
    requires Near(acc, num, Slack(loss, size, mass))
    ensures Near(Normalise(acc, l), num / l, Slack(Amplified(loss, w), size / l, mass))
  {
    hide Slack, Near, Normalise, Scaled;
    DividedSlack(loss, size, mass, l, w);
    InverseTimes(acc, num, l, Slack(loss, size, mass));
    NearGrows(Normalise(acc, l), num / l, Scaled(1.0 / l, Slack(loss, size, mass)),
      Slack(Amplified(loss, w), size / l, mass));
  }

  lemma InverseTimes(acc: real, num: real, l: real, bound: real)
    requires l > 0.0 && Near(acc, num, bound)
    ensures Near(Normalise(acc, l), num / l, Scaled(1.0 / l, bound))
  {
    var i := 1.0 / l;
    DivideIsMultiply(num, l);
    assert Normalise(acc, l) == i * acc && num / l == i * num;
    ScaledNear(i, acc, num, bound);
  }

  lemma NearGrows(a: real, b: real, p: real, q: real)
    requires Near(a, b, p) && p <= q
    ensures Near(a, b, q)
  {
  }

  lemma {:induction false} AbsRowWeights(x: Row, c: real, n: int)
    ensures Den(AbsRow(x), c, n) == Den(x, c, n)
  {
    SumEqual(WeightTerm(AbsRow(x), c), WeightTerm(x, c), 0, n);
  }

  lemma MassStopsAtSeen(x: Row, d: int, n: int, n': int)
    requires 0 <= n && 0 <= n' && SeenWithin(x, n) && SeenWithin(x, n')
    ensures Mass(x, d, n) == Mass(x, d, n')
  {
    if n <= n' {
      SumSplit(MassTerm(x, d), 0, n, n');
      SumZero(MassTerm(x, d), n, n');
    } else {
      MassStopsAtSeen(x, d, n', n);
    }
  }

  lemma AbsRowSees(x: Row)
    ensures SeesSome(AbsRow(x)) <==> SeesSome(x)
    ensures forall n :: SeenWithin(AbsRow(x), n) <==> SeenWithin(x, n)
  {
    assert forall key :: AbsRow(x).seen(key) == x.seen(key);
  }

  /** An accumulator close to the numerator gives, once divided, an output close to exact attention. */
  lemma NormalisedNear(x: Row, loss: Loss, w: real, c: real, d: int, m: nat, n: nat, acc: real)
    requires IsExponential(x.exp) && SeenWithin(x, m) && SeenWithin(x, n) && SeesSome(x)
    requires 0.0 < w <= Den(x, c, m) && loss.tiny >= 0.0 && AccNear(x, loss, c, d, m, acc)
    ensures Near(Normalise(acc, Den(x, c, m)), Exact(x, d, n),
              Slack(Amplified(loss, w), Exact(AbsRow(x), d, n), Mass(x, d, n)))
  {
    var y := AbsRow(x);
    AbsRowSees(x);
    AbsRowExp(x);
    hide SeenWithin, SeesSome, IsExponential, Num, Den, Mass, AbsRow, Near, Slack, Exact;
    AbsRowWeights(x, c, m);
    AbsRowWeights(x, c, n);
    SumsStopAtSeen(x, c, d, m, n);
    SumsStopAtSeen(y, c, d, m, n);
    MassStopsAtSeen(x, d, m, n);
    ExactAnyShift(x, c, d, n);
    ExactAnyShift(y, c, d, n);
    MassNonneg(x, d, m);
    DividedNear(acc, Num(x, c, d, m), loss, Num(y, c, d, m), Mass(x, d, m), Den(x, c, m), w);
  }

  /** Rows with a key of weight w against the seed: the fused output is exact attention up to eps of its absolute size
      and tiny / w of the absolute values seen, for any number of tiles that covers the visible keys and any sequence
      of rescales. Rows that see no key are exactly zero. */
  lemma FusedNear(x: Row, scale: real, seed: real, trunc: real -> real, loss: Loss, w: real, t: nat, d: int, n: nat)
    requires Weighs(x, scale) && TruncatesWithin(trunc, loss) && 0.0 < w <= 1.0
    requires SeenWithin(x, TileStart(t)) && SeenWithin(x, n)
    ensures Reaches(x, scale, seed, w) ==>
              Near(FusedOutput(x, scale, seed, trunc, t, d), Exact(x, d, n),
                Slack(Amplified(loss, w), Exact(AbsRow(x), d, n), Mass(x, d, n)))
    ensures !SeesSome(x) ==> FusedOutput(x, scale, seed, trunc, t, d) == 0.0 == Exact(x, d, n)
  {
    LossNonneg(trunc, loss);
    hide TruncatesWithin;
    if Reaches(x, scale, seed, w) {
      assert SeesSome(x);
      SumReaches(x, scale, seed, w, t);
      RunSumIsDen(x, scale, seed, t);
      RunAccNear(x, scale, seed, trunc, loss, t, d);
      hide Reaches, RunShift, RunSum, RunAcc, Den, Exact, AccNear, Near, Slack, SeenWithin, SeesSome, Mass;
      NormalisedNear(x, loss, w, RunShift(x, scale, seed, t), d, TileStart(t), n, RunAcc(x, scale, seed, trunc, t, d));
    }
    if !SeesSome(x) {
      NothingSeen(x, trunc, scale, seed, t, d);
      ExactAnyShift(x, 0.0, d, n);
    }
  }

  // ---- bounds by the largest value ----

  /** No value that the row sees is larger than vmax. */
  ghost predicate ValuesWithin(x: Row, d: int, vmax: real) {
    vmax >= 0.0 && forall key :: x.seen(key) ==> Abs(x.value(key, d)) <= vmax
  }

  /** An average of absolute values is at most their bound. */
  lemma AverageBound(x: Row, d: int, n: nat, vmax: real)
    requires IsExponential(x.exp) && SeenWithin(x, n) && ValuesWithin(x, d, vmax)
    ensures Exact(AbsRow(x), d, n) <= vmax
  {
    var y := AbsRow(x);
    DenPositive(y, 0.0, n);
    AverageBelow(x, d, n, vmax);
    if Den(y, 0.0, n) > 0.0 {
      QuotientBelow(Num(y, 0.0, d, n), vmax, Den(y, 0.0, n));
    }
  }

  lemma QuotientBelow(a: real, b: real, l: real)
    requires l > 0.0 && a <= b * l
    ensures a / l <= b
  {
    DivideIsMultiply(a, l);
    Monotone(a, b * l, 1.0 / l);
    Reassociate(b, l, 1.0 / l);
  }

  lemma {:induction false} AverageBelow(x: Row, d: int, n: int, vmax: real)
    requires IsExponential(x.exp) && ValuesWithin(x, d, vmax)
    ensures Num(AbsRow(x), 0.0, d, n) <= vmax * Den(AbsRow(x), 0.0, n)
    decreases n
  {
    if n > 0 {
      var w, v, den := Weight(AbsRow(x), 0.0, n - 1), AbsRow(x).value(n - 1, d), Den(AbsRow(x), 0.0, n - 1);
      AverageBelow(x, d, n - 1, vmax);
      if x.seen(n - 1) {
        Monotone(v, vmax, w);
      }
      Distribute(vmax, den, w);
    }
  }

  lemma MassBound(x: Row, d: int, n: nat, vmax: real)
    requires ValuesWithin(x, d, vmax)
    ensures Mass(x, d, n) <= n as real * vmax
  {
    var most: int -> real := key => vmax;
    forall key ensures MassTerm(x, d)(key) <= most(key) {
      assert MassTerm(x, d)(key) == if x.seen(key) then Abs(x.value(key, d)) else 0.0;
    }
    SumAtMost(MassTerm(x, d), most, 0, n);
    SumConstant(most, vmax, n);
  }

  /** The slack of a row of n keys whose values are no larger than vmax. */
  function WorstLoss(loss: Loss, n: nat, vmax: real): real {
    (loss.eps + n as real * loss.tiny) * vmax
  }

  /** Nearness, in the largest absolute value. */
  lemma NearPerUnit(x: Row, loss: Loss, d: int, n: nat, vmax: real, a: real, b: real)
    requires IsExponential(x.exp) && SeenWithin(x, n) && ValuesWithin(x, d, vmax)
    requires loss.eps >= 0.0 && loss.tiny >= 0.0
    requires Near(a, b, Slack(loss, Exact(AbsRow(x), d, n), Mass(x, d, n)))
    ensures Near(a, b, WorstLoss(loss, n, vmax))
  {
    hide Exact, Mass, IsExponential, SeenWithin, ValuesWithin, AbsRow, Slack;
    AverageBound(x, d, n, vmax);
    MassBound(x, d, n, vmax);
    SlackGrows(loss, Exact(AbsRow(x), d, n), Mass(x, d, n), vmax, n as real * vmax);
    SlackPerUnit(loss, n, vmax);
    hide WorstLoss;
  }

  lemma SlackPerUnit(loss: Loss, n: nat, vmax: real)
    ensures Slack(loss, vmax, n as real * vmax) == WorstLoss(loss, n, vmax)
  {
    assert loss.tiny * (n as real * vmax) == (n as real * loss.tiny) * vmax;
  }
}
