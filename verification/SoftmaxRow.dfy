/** One row of attention over reals: which keys it sees, its scores, its softmax weights, its exact output. */
module SoftmaxRow {
  import opened Sums
  import opened Exponential

  /** `score` is the raw dot product, `logit` the scaled score that is exponentiated. */
  datatype Row = Row(
    seen: int -> bool,
    score: int -> real,
    logit: int -> real,
    value: (int, int) -> real,
    exp: real -> real)

  /** The softmax weight of a key under shift c; a masked key weighs nothing. */
  function Weight(x: Row, c: real, key: int): real {
    if x.seen(key) then x.exp(x.logit(key) - c) else 0.0
  }

  function WeightTerm(x: Row, c: real): int -> real {
    key => Weight(x, c, key)
  }

  function ValueTerm(x: Row, c: real, d: int): int -> real {
    key => Weight(x, c, key) * x.value(key, d)
  }

  /** Denominator and numerator of the softmax over the first n keys, under shift c. */
  function Den(x: Row, c: real, n: int): real {
    Sum(WeightTerm(x, c), 0, n)
  }

  function Num(x: Row, c: real, d: int, n: int): real {
    Sum(ValueTerm(x, c, d), 0, n)
  }

  /** The keys a row sees all lie in [0, n). */
  ghost predicate SeenWithin(x: Row, n: int) {
    forall key :: x.seen(key) ==> 0 <= key < n
  }

  ghost predicate SeesSome(x: Row) {
    exists key :: x.seen(key)
  }

  /** The attention output, with no shift at all; a row that sees no key is zero. */
  function Exact(x: Row, d: int, n: int): real {
    if Den(x, 0.0, n) > 0.0 then Num(x, 0.0, d, n) / Den(x, 0.0, n) else 0.0
  }

  lemma WeightNonneg(x: Row, c: real, key: int)
    requires IsExponential(x.exp)
    ensures Weight(x, c, key) >= 0.0
    ensures x.seen(key) <==> Weight(x, c, key) > 0.0
  {
  }

  /** The denominator is positive exactly when the row sees a key at all. */
  lemma DenPositive(x: Row, c: real, n: int)
    requires IsExponential(x.exp) && SeenWithin(x, n)
    ensures Den(x, c, n) >= 0.0
    ensures Den(x, c, n) > 0.0 <==> SeesSome(x)
  {
    var w := WeightTerm(x, c);
    forall key ensures w(key) >= 0.0 && (w(key) > 0.0 <==> x.seen(key)) {
      WeightNonneg(x, c, key);
    }
    SumNonneg(w, 0, n);
    if key :| x.seen(key) {
      SumAtLeast(w, 0, n, key);
    } else {
      SumZero(w, 0, n);
    }
  }

  lemma WeightShift(x: Row, c: real, c': real, key: int)
    requires IsExponential(x.exp)
    ensures Weight(x, c', key) == x.exp(c - c') * Weight(x, c, key)
  {
    ShiftChange(x.exp, x.logit(key), c, c');
  }

  /** Changing the shift rescales the denominator and every numerator by one common factor. */
  lemma {:induction false} DenShift(x: Row, c: real, c': real, n: int)
    requires IsExponential(x.exp)
    ensures Den(x, c', n) == x.exp(c - c') * Den(x, c, n)
    decreases n
  {
    if n > 0 {
      DenShift(x, c, c', n - 1);
      WeightShift(x, c, c', n - 1);
      Distribute(x.exp(c - c'), Den(x, c, n - 1), Weight(x, c, n - 1));
    }
  }

  lemma {:induction false} NumShift(x: Row, c: real, c': real, d: int, n: int)
    requires IsExponential(x.exp)
    ensures Num(x, c', d, n) == x.exp(c - c') * Num(x, c, d, n)
    decreases n
  {
    if n > 0 {
      var r, w, v := x.exp(c - c'), Weight(x, c, n - 1), x.value(n - 1, d);
      NumShift(x, c, c', d, n - 1);
      WeightShift(x, c, c', n - 1);
      Reassociate(r, w, v);
      Distribute(r, Num(x, c, d, n - 1), w * v);
    }
  }

  lemma Distribute(a: real, b: real, c: real)
    ensures a * (b + c) == a * b + a * c
  {
  }

  lemma Reassociate(a: real, b: real, c: real)
    ensures (a * b) * c == a * (b * c)
  {
  }

  /** Softmax does not depend on the shift: any shift gives the exact output. */
  lemma ExactAnyShift(x: Row, c: real, d: int, n: int)
    requires IsExponential(x.exp) && SeenWithin(x, n)
    ensures Den(x, c, n) > 0.0 <==> SeesSome(x)
    ensures SeesSome(x) ==> Num(x, c, d, n) / Den(x, c, n) == Exact(x, d, n)
    ensures !SeesSome(x) ==> Exact(x, d, n) == 0.0
  {
    DenPositive(x, c, n);
    DenPositive(x, 0.0, n);
    if SeesSome(x) {
      DenShift(x, 0.0, c, n);
      NumShift(x, 0.0, c, d, n);
      CancelFactor(x.exp(0.0 - c), Num(x, 0.0, d, n), Den(x, 0.0, n), Num(x, c, d, n), Den(x, c, n));
    }
  }

  lemma CancelFactor(r: real, a: real, b: real, ra: real, rb: real)
    requires b > 0.0 && rb > 0.0
    requires ra == r * a && rb == r * b
    ensures ra / rb == a / b
  {
    var y := a / b;
    assert a == y * b;
    assert ra == y * rb by {
      Reassociate(r, y, b);
      Reassociate(y, r, b);
    }
  }

  /** Keys the row does not see change neither sum. */
  lemma SumsStopAtSeen(x: Row, c: real, d: int, n: int, n': int)
    requires 0 <= n && 0 <= n' && SeenWithin(x, n) && SeenWithin(x, n')
    ensures Den(x, c, n) == Den(x, c, n')
    ensures Num(x, c, d, n) == Num(x, c, d, n')
  {
    if n <= n' {
      SumSplit(WeightTerm(x, c), 0, n, n');
      SumSplit(ValueTerm(x, c, d), 0, n, n');
      SumZero(WeightTerm(x, c), n, n');
      SumZero(ValueTerm(x, c, d), n, n');
    } else {
      SumsStopAtSeen(x, c, d, n', n);
    }
  }
}
