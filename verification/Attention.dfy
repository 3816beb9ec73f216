/** One (batch, head) attention problem: matrices, causal mask, and the softmax row of each query. */
module Attention {
  import opened Sums
  import opened Exponential
  import opened SoftmaxRow

  /** Real matrices indexed (row, headdim); the head dimension is 64. */
  datatype Inputs = Inputs(
    q: (int, int) -> real,
    k: (int, int) -> real,
    v: (int, int) -> real,
    seqlenQ: nat,
    seqlenK: nat,
    causal: bool)

  /** Right-aligned causal diagonal: the last query attends the last key. */
  function MaskShift(x: Inputs): int {
    x.seqlenK - x.seqlenQ
  }

  predicate Visible(x: Inputs, row: int, key: int) {
    0 <= key < x.seqlenK && (x.causal ==> key <= row + MaskShift(x))
  }

  /** The query row as a lane holds it: rows past the sequence are loaded as zeros. */
  function QueryElem(x: Inputs, row: int, d: int): real {
    if row < x.seqlenQ then x.q(row, d) else 0.0
  }

  function ScoreTerm(x: Inputs, row: int, key: int): int -> real {
    d => QueryElem(x, row, d) * x.k(key, d)
  }

  /** The raw (unscaled) score of a key for a query row. */
  function Score(x: Inputs, row: int, key: int): real {
    Sum(ScoreTerm(x, row, key), 0, 64)
  }

  function Logit(x: Inputs, scale: real, row: int, key: int): real {
    Scaled(scale, Score(x, row, key))
  }

  function RowOf(x: Inputs, scale: real, exp: real -> real, row: int): Row {
    Row(key => Visible(x, row, key), key => Score(x, row, key), key => Logit(x, scale, row, key), x.v, exp)
  }

  lemma RowSeesWithin(x: Inputs, scale: real, exp: real -> real, row: int)
    ensures SeenWithin(RowOf(x, scale, exp, row), x.seqlenK)
  {
  }

  /** exp(y) = exp2(log2e * y), with log2e folded into the kernel's scale. */
  ghost predicate SameBase(exp2: real -> real, exp: real -> real, scale: real, scalar: real) {
    forall s :: exp2(Scaled(scale, s)) == exp(Scaled(scalar, s))
  }

  /** Base 2 with the folded scale and base e with the plain one define the same attention. */
  lemma ExactSameBase(x: Inputs, scale: real, exp2: real -> real, scalar: real, exp: real -> real, row: int, d: int)
    requires SameBase(exp2, exp, scale, scalar)
    ensures Exact(RowOf(x, scale, exp2, row), d, x.seqlenK) == Exact(RowOf(x, scalar, exp, row), d, x.seqlenK)
  {
    var a, b := RowOf(x, scale, exp2, row), RowOf(x, scalar, exp, row);
    hide Scaled, Score;
    forall key ensures Weight(a, 0.0, key) == Weight(b, 0.0, key) {
      assert exp2(Scaled(scale, Score(x, row, key))) == exp(Scaled(scalar, Score(x, row, key)));
      assert a.logit(key) - 0.0 == Scaled(scale, Score(x, row, key));
      assert b.logit(key) - 0.0 == Scaled(scalar, Score(x, row, key));
    }
    SumEqual(WeightTerm(a, 0.0), WeightTerm(b, 0.0), 0, x.seqlenK);
    SumEqual(ValueTerm(a, 0.0, d), ValueTerm(b, 0.0, d), 0, x.seqlenK);
  }
}
