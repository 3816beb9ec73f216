/** Problems with the same elements, lengths and mask have the same attention, whatever functions give the elements. */
module Agreement {
  import opened Sums
  import opened Exponential
  import opened Floats
  import opened SoftmaxRow
  import opened OnlineSoftmax
  import opened TruncationBound
  import opened Attention
  import opened GpuRef

  ghost predicate SameInputs(x: Inputs, y: Inputs) {
    && x.seqlenQ == y.seqlenQ && x.seqlenK == y.seqlenK && x.causal == y.causal
    && (forall row, d :: x.q(row, d) == y.q(row, d))
    && (forall row, d :: x.k(row, d) == y.k(row, d))
    && (forall row, d :: x.v(row, d) == y.v(row, d))
  }

  ghost predicate AgreeingRows(a: Row, b: Row) {
    && a.exp == b.exp
    && (forall key :: a.seen(key) == b.seen(key))
    && (forall key :: a.score(key) == b.score(key))
    && (forall key :: a.logit(key) == b.logit(key))
    && (forall key, d :: a.value(key, d) == b.value(key, d))
  }

  lemma AgreeingScore(x: Inputs, y: Inputs, row: int, key: int)
    requires SameInputs(x, y)
    ensures Score(x, row, key) == Score(y, row, key)
  {
    var f, g := ScoreTerm(x, row, key), ScoreTerm(y, row, key);
    forall d ensures f(d) == g(d) {
      assert QueryElem(x, row, d) == QueryElem(y, row, d);
      hide QueryElem;
      assert x.k(key, d) == y.k(key, d);
    }
    hide ScoreTerm, SameInputs;
    SumEqual(f, g, 0, 64);
  }

  lemma AgreeingInputs(x: Inputs, y: Inputs, scale: real, exp: real -> real, row: int)
    requires SameInputs(x, y)
    ensures AgreeingRows(RowOf(x, scale, exp, row), RowOf(y, scale, exp, row))
  {
    hide Score;
    forall key ensures Score(x, row, key) == Score(y, row, key) {
      AgreeingScore(x, y, row, key);
    }
  }

  lemma SameSums(a: Row, b: Row, c: real, d: int, n: int)
    requires AgreeingRows(a, b)
    ensures Den(a, c, n) == Den(b, c, n) && Num(a, c, d, n) == Num(b, c, d, n)
  {
    SumEqual(WeightTerm(a, c), WeightTerm(b, c), 0, n);
    SumEqual(ValueTerm(a, c, d), ValueTerm(b, c, d), 0, n);
  }

  /** The same attention, over the same keys and values. */
  lemma SameAttention(a: Row, b: Row, d: int, n: int, vmax: real)
    requires AgreeingRows(a, b)
    ensures Exact(a, d, n) == Exact(b, d, n) && Den(a, 0.0, n) == Den(b, 0.0, n)
    ensures (SeesSome(a) <==> SeesSome(b)) && (ValuesWithin(a, d, vmax) <==> ValuesWithin(b, d, vmax))
  {
    SameSums(a, b, 0.0, d, n);
    assert SeesSome(a) <==> SeesSome(b) by {
      if key :| a.seen(key) {
        assert b.seen(key);
      }
      if key :| b.seen(key) {
        assert a.seen(key);
      }
    }
    hide Den, Num;
  }

  /** The same results of the reference. */
  lemma SameReference(a: Row, b: Row, trunc: real -> real, log: real -> real, c: real, d: int, n: int)
    requires AgreeingRows(a, b)
    ensures RefOutput(a, trunc, c, d, n) == RefOutput(b, trunc, c, d, n) && RefLse(a, log, c, n) == RefLse(b, log, c, n)
  {
    SameSums(a, b, c, d, n);
    var inv := Inverse(Den(a, c, n));
    SumEqual(RefTerm(a, trunc, c, inv, d), RefTerm(b, trunc, c, inv, d), 0, n);
    hide Den;
  }

  /** The same row maximum, so the same shift. */
  lemma SameRowMax(x: Inputs, y: Inputs, scalar: real, row: int, m: Flt)
    requires SameInputs(x, y)
    ensures IsRowMax(x, scalar, row, m) <==> IsRowMax(y, scalar, row, m)
  {
    hide Score, Scaled;
    forall key ensures Visible(x, row, key) == Visible(y, row, key) && Logit(x, scalar, row, key)
                    == Logit(y, scalar, row, key) {
      AgreeingScore(x, y, row, key);
    }
    hide Visible, Logit;
  }
}
