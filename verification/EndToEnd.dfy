/** The kernel against exact attention and against the three-pass reference. */
module EndToEnd {
  import opened Sums
  import opened Exponential
  import opened Floats
  import opened SoftmaxRow
  import opened OnlineSoftmax
  import opened OnlineConsequences
  import opened Attention
  import opened GpuRef
  import opened CausalBound
  import opened WaveSpec
  import opened Pipeline
  import opened Staging

  /** A query row that exists. */
  predicate OwnsRow(j: Job, l: int) {
    j.warp < 4 && 0 <= l < 32 && LaneRow(j, l) < j.seqlenQ
  }

  /** The tiles a wave walks cover every key that any of its rows sees. */
  lemma TilesCoverRow(j: Job, l: int)
    requires OwnsRow(j, l)
    ensures SeenWithin(WaveRow(j, l), TileStart(TilesOf(j))) && SeenWithin(WaveRow(j, l), j.seqlenK)
  {
    var x, row := InputsOf(j), LaneRow(j, l);
    RowSeesWithin(x, j.scale, j.exp2, row);
    assert TileRow(x, j.mTile, row);
    forall key | WaveRow(j, l).seen(key) ensures 0 <= key < TileStart(TilesOf(j)) {
      assert Visible(x, row, key);
      hide Visible, NumTotalLoop, TileRow;
      VisibleKeysAreWalked(x, j.mTile, row, key);
    }
  }

  /** What the kernel hands to the final conversion. */
  function PreStore(j: Job, l: int, d: int): real {
    FusedOutput(WaveRow(j, l), j.scale, SEED, TruncOf(j), TilesOf(j), d)
  }

  /** Exact attention for a row of the wave. */
  function ExactOf(j: Job, l: int, d: int): real {
    Exact(WaveRow(j, l), d, j.seqlenK)
  }

  lemma ExactKeeps(j: Job)
    requires j.exact
    ensures Keeps(TruncOf(j))
  {
  }

  /** With truncation taken as the identity, the kernel's output is exact attention, for every length, mask mode and
      input; exactly zero for a row that sees no key. */
  lemma KernelIsExact(j: Job, l: int, d: int)
    requires OwnsRow(j, l) && IsExponential(j.exp2) && j.exact
    ensures PreStore(j, l, d) == ExactOf(j, l, d)
    ensures !SeesSome(WaveRow(j, l)) ==> PreStore(j, l, d) == 0.0
  {
    ExactKeeps(j);
    TilesCoverRow(j, l);
    assert WaveRow(j, l).exp == j.exp2;
    hide WaveRow, TilesOf, FusedOutput, Exact, IsExponential, SeenWithin, Keeps, TruncOf;
    FusedExact(WaveRow(j, l), j.scale, SEED, TruncOf(j), TilesOf(j), d, j.seqlenK);
    ExactAnyShift(WaveRow(j, l), 0.0, d, j.seqlenK);
  }

  /** The row as the reference sees it: base e and the plain softmax scale. */
  function RefRow(j: Job, scalar: real, exp: real -> real, l: int): Row {
    RowOf(InputsOf(j), scalar, exp, LaneRow(j, l))
  }

  /** What the reference hands to its final conversion; c is the row maximum it subtracts. */
  function RefPreStore(j: Job, scalar: real, exp: real -> real, c: real, l: int, d: int): real {
    RefOutput(RefRow(j, scalar, exp, l), TruncOf(j), c, d, j.seqlenK)
  }

  /** Both see the same keys and the same values. */
  lemma SameRow(j: Job, scalar: real, exp: real -> real, l: int, d: int)
    requires SameBase(j.exp2, exp, j.scale, scalar)
    ensures SeesSome(RefRow(j, scalar, exp, l)) <==> SeesSome(WaveRow(j, l))
    ensures Exact(RefRow(j, scalar, exp, l), d, j.seqlenK) == ExactOf(j, l, d)
    ensures SeenWithin(RefRow(j, scalar, exp, l), j.seqlenK)
  {
    ExactSameBase(InputsOf(j), j.scale, j.exp2, scalar, exp, LaneRow(j, l), d);
    RowSeesWithin(InputsOf(j), scalar, exp, LaneRow(j, l));
    assert forall key :: RefRow(j, scalar, exp, l).seen(key) == WaveRow(j, l).seen(key);
    hide Exact, Visible, SameBase;
  }

  /** In exact arithmetic the kernel refines the reference: the same output for every row and headdim. */
  lemma KernelRefinesReference(j: Job, scalar: real, exp: real -> real, c: real, l: int, d: int)
    requires OwnsRow(j, l) && SameBase(j.exp2, exp, j.scale, scalar) && IsExponential(j.exp2) && IsExponential(exp)
    requires j.exact
    ensures PreStore(j, l, d) == RefPreStore(j, scalar, exp, c, l, d)
  {
    KernelIsExact(j, l, d);
    SameRow(j, scalar, exp, l, d);
    ExactKeeps(j);
    var x := RefRow(j, scalar, exp, l);
    assert x.exp == exp;
    hide WaveRow, RefRow, Exact, IsExponential, SeenWithin, RefOutput, SameBase, PreStore, Keeps, TruncOf;
    RefExact(x, TruncOf(j), c, d, j.seqlenK);
  }

  // ---- log-sum-exp ----

  /** log is log2 in another base. */
  ghost predicate SameLog(log2: real -> real, ln2: real, log: real -> real) {
    forall y :: y > 0.0 ==> Scaled(ln2, log2(y)) == log(y)
  }

  /** The kernel's log-sum-exp is the log of the sum of exponentials over all visible keys, -inf for none. */
  lemma KernelLse(j: Job, log2: real -> real, ln2: real, l: int)
    requires OwnsRow(j, l) && IsExponential(j.exp2) && IsLogarithm(log2, j.exp2)
    ensures LseOfRow(j, log2, ln2, l)
         == if SeesSome(WaveRow(j, l)) then Fin(Scaled(ln2, log2(Den(WaveRow(j, l), 0.0, j.seqlenK)))) else NegInf
  {
    TilesCoverRow(j, l);
    assert WaveRow(j, l).exp == j.exp2;
    hide WaveRow, TilesOf, FusedLse, Den, IsExponential, IsLogarithm, SeenWithin, SeesSome, Scaled;
    FusedLseIsLse(WaveRow(j, l), j.scale, SEED, log2, ln2, TilesOf(j), j.seqlenK);
  }

  /** The same denominator in both bases. */
  lemma SameDen(j: Job, scalar: real, exp: real -> real, l: int)
    requires SameBase(j.exp2, exp, j.scale, scalar)
    ensures Den(RefRow(j, scalar, exp, l), 0.0, j.seqlenK) == Den(WaveRow(j, l), 0.0, j.seqlenK)
  {
    forall key ensures Weight(RefRow(j, scalar, exp, l), 0.0, key) == Weight(WaveRow(j, l), 0.0, key) {
      SameWeight(j, scalar, exp, l, key);
    }
    hide Weight, WaveRow, RefRow, Sum;
    SumEqual(WeightTerm(RefRow(j, scalar, exp, l), 0.0), WeightTerm(WaveRow(j, l), 0.0), 0, j.seqlenK);
  }

  lemma SameWeight(j: Job, scalar: real, exp: real -> real, l: int, key: int)
    requires SameBase(j.exp2, exp, j.scale, scalar)
    ensures Weight(RefRow(j, scalar, exp, l), 0.0, key) == Weight(WaveRow(j, l), 0.0, key)
  {
    hide Score, Scaled;
    var s := Score(InputsOf(j), LaneRow(j, l), key);
    assert j.exp2(Scaled(j.scale, s)) == exp(Scaled(scalar, s));
    assert WaveRow(j, l).logit(key) - 0.0 == Scaled(j.scale, s);
    assert RefRow(j, scalar, exp, l).logit(key) - 0.0 == Scaled(scalar, s);
  }

  /** Kernel and reference compute the same log-sum-exp, each in its own base and from its own maximum. */
  lemma KernelLseIsReference(j: Job, log2: real -> real, ln2: real, scalar: real, exp: real -> real, log: real -> real,
                             c: real, l: int)
    requires OwnsRow(j, l) && SameBase(j.exp2, exp, j.scale, scalar) && SameLog(log2, ln2, log)
    requires IsExponential(j.exp2) && IsLogarithm(log2, j.exp2) && IsExponential(exp) && IsLogarithm(log, exp)
    ensures LseOfRow(j, log2, ln2, l) == RefLse(RefRow(j, scalar, exp, l), log, c, j.seqlenK)
  {
    var x, n := RefRow(j, scalar, exp, l), j.seqlenK;
    assert x.exp == exp;
    KernelLse(j, log2, ln2, l);
    SameRow(j, scalar, exp, l, 0);
    SameDen(j, scalar, exp, l);
    hide WaveRow, RefRow, LseOfRow, Den, IsExponential, IsLogarithm, SeenWithin, SameBase, Exact, ExactOf, Scaled,
      RefLse;
    RefLseOf(x, log, c, n);
  }

  lemma RefLseOf(x: Row, log: real -> real, c: real, n: nat)
    requires IsExponential(x.exp) && IsLogarithm(log, x.exp) && SeenWithin(x, n)
    ensures SeesSome(x) ==> Den(x, 0.0, n) > 0.0
    ensures RefLse(x, log, c, n) == if SeesSome(x) then Fin(log(Den(x, 0.0, n))) else NegInf
  {
    DenPositive(x, c, n);
    hide Den, IsLogarithm;
    if SeesSome(x) {
      ShiftedLog(x, log, c, n);
    }
  }

  // ---- non-interference ----

  /** Two jobs that differ only in K and V rows that row l does not see. */
  ghost predicate AgreeWhereVisible(j: Job, j': Job, l: int) {
    && j' == j.(k := j'.k, v := j'.v)
    && forall key, d :: Visible(InputsOf(j), LaneRow(j, l), key) ==>
         && InputsOf(j).k(key, d) == InputsOf(j').k(key, d)
         && InputsOf(j).v(key, d) == InputsOf(j').v(key, d)
  }

  lemma SameScore(j: Job, j': Job, l: int, key: int)
    requires AgreeWhereVisible(j, j', l) && Visible(InputsOf(j), LaneRow(j, l), key)
    ensures Score(InputsOf(j), LaneRow(j, l), key) == Score(InputsOf(j'), LaneRow(j', l), key)
  {
    var f, g := ScoreTerm(InputsOf(j), LaneRow(j, l), key), ScoreTerm(InputsOf(j'), LaneRow(j', l), key);
    forall d ensures f(d) == g(d) {
      assert QueryElem(InputsOf(j), LaneRow(j, l), d) == QueryElem(InputsOf(j'), LaneRow(j', l), d);
      assert InputsOf(j).k(key, d) == InputsOf(j').k(key, d);
      hide QueryElem;
    }
    hide ScoreTerm;
    SumEqual(f, g, 0, 64);
  }

  lemma SameSeen(j: Job, j': Job, l: int)
    requires AgreeWhereVisible(j, j', l)
    ensures AgreeOnSeen(WaveRow(j, l), WaveRow(j', l))
  {
    var x, y := WaveRow(j, l), WaveRow(j', l);
    hide Score;
    forall key ensures x.seen(key) == y.seen(key) {
    }
    forall key | x.seen(key) ensures x.score(key) == y.score(key) && x.logit(key) == y.logit(key) {
      SameScore(j, j', l, key);
    }
    forall key, d | x.seen(key) ensures x.value(key, d) == y.value(key, d) {
      assert Visible(InputsOf(j), LaneRow(j, l), key);
    }
  }

  /** K and V rows past the sequence, or in a query's causal future, leave its output and its log-sum-exp unchanged,
      although the kernel stages and multiplies them. */
  lemma UnseenRowsDoNotMatter(j: Job, j': Job, l: int, d: int, log2: real -> real, ln2: real)
    requires AgreeWhereVisible(j, j', l) && TruncOf(j)(0.0) == 0.0
    ensures OutputOf(j, l, d) == OutputOf(j', l, d)
    ensures LseOfRow(j, log2, ln2, l) == LseOfRow(j', log2, ln2, l)
  {
    hide AgreeWhereVisible, AgreeOnSeen, WaveRow, TilesOf, RunShift, RunSum, RunAcc, Normalise, Scaled, High, TruncOf;
    SameSeen(j, j', l);
    SameTiles(j, j', l);
    UnseenDoNotMatter(WaveRow(j, l), WaveRow(j', l), j.scale, SEED, TruncOf(j), TilesOf(j), d);
  }

  lemma SameTiles(j: Job, j': Job, l: int)
    requires AgreeWhereVisible(j, j', l)
    ensures TilesOf(j) == TilesOf(j') && TruncOf(j) == TruncOf(j') && j.bits == j'.bits && j.scale == j'.scale
  {
    hide Visible;
  }
}
