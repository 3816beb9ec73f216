/** The naive reference: one thread, one query row, three passes over the keys. */
module GpuRef {
  import opened Sums
  import opened Exponential
  import opened SoftmaxRow
  import opened OnlineSoftmax
  import opened TruncationBound
  import opened Attention
  import opened Floats

  /** A weight's share of the denominator, whose inverse is inv. */
  function Share(w: real, inv: real): real {
    w * inv
  }

  /** Probabilities are normalised before they are truncated, unlike in the fused kernel. */
  function RefTerm(x: Row, trunc: real -> real, c: real, inv: real, d: int): int -> real {
    key => trunc(Share(Weight(x, c, key), inv)) * x.value(key, d)
  }

  function RefOutput(x: Row, trunc: real -> real, c: real, d: int, n: int): real {
    Sum(RefTerm(x, trunc, c, Inverse(Den(x, c, n)), d), 0, n)
  }

  function RefLse(x: Row, log: real -> real, c: real, n: int): Flt {
    if Den(x, c, n) > 0.0 then Fin(log(Den(x, c, n)) + c) else NegInf
  }

  /** The normalised probability times the value, before any truncation. */
  function ShareTerm(x: Row, c: real, inv: real, d: int): int -> real {
    key => Share(Weight(x, c, key), inv) * x.value(key, d)
  }

  lemma {:induction false} SharesSum(x: Row, c: real, inv: real, d: int, n: int)
    ensures Sum(ShareTerm(x, c, inv, d), 0, n) == Num(x, c, d, n) * inv
    decreases n
  {
    if n > 0 {
      var w, v, num := Weight(x, c, n - 1), x.value(n - 1, d), Num(x, c, d, n - 1);
      SharesSum(x, c, inv, d, n - 1);
      hide Weight;
      assert (num + w * v) * inv == num * inv + (w * inv) * v;
    }
  }

  /** A normalised probability is a share of the whole. */
  lemma ShareAtMostOne(x: Row, c: real, n: nat, key: int)
    requires IsExponential(x.exp) && 0 <= key < n
    ensures 0.0 <= Share(Weight(x, c, key), Inverse(Den(x, c, n))) <= 1.0
  {
    var w, l := WeightTerm(x, c), Den(x, c, n);
    forall k ensures w(k) >= 0.0 {
      WeightNonneg(x, c, k);
    }
    SumAtLeast(w, 0, n, key);
    hide Den, IsExponential, Weight;
    if l > 0.0 {
      Monotone(0.0, w(key), 1.0 / l);
      Monotone(w(key), l, 1.0 / l);
    }
  }

  function ShareSlack(x: Row, loss: Loss, c: real, inv: real, d: int): int -> real {
    key => Slack(loss, ShareTerm(AbsRow(x), c, inv, d)(key), MassTerm(x, d)(key))
  }

  /** The terms of one key, in its share and its value. */
  lemma ShareTermsOf(x: Row, trunc: real -> real, loss: Loss, c: real, inv: real, d: int, key: int)
    ensures var p, v := Share(Weight(x, c, key), inv), x.value(key, d);
      && RefTerm(x, trunc, c, inv, d)(key) == trunc(p) * v && ShareTerm(x, c, inv, d)(key) == p * v
      && ShareSlack(x, loss, c, inv, d)(key) == Slack(loss, p * Abs(v), if x.seen(key) then Abs(v) else 0.0)
  {
    var p, v := Share(Weight(x, c, key), inv), x.value(key, d);
    assert Weight(AbsRow(x), c, key) == Weight(x, c, key);
    hide Slack, Weight, Abs, Share;
    assert ShareTerm(AbsRow(x), c, inv, d)(key) == p * Abs(v);
    assert MassTerm(x, d)(key) == if x.seen(key) then Abs(v) else 0.0;
  }

  lemma RefTermClose(x: Row, trunc: real -> real, loss: Loss, c: real, inv: real, d: int, key: int)
    requires TruncatesWithin(trunc, loss) && 0.0 <= Share(Weight(x, c, key), inv) <= 1.0
    ensures Abs(RefTerm(x, trunc, c, inv, d)(key) - ShareTerm(x, c, inv, d)(key)) <= ShareSlack(x, loss, c, inv, d)(key)
  {
    ShareTermsOf(x, trunc, loss, c, inv, d, key);
    hide RefTerm, ShareTerm, ShareSlack;
    if x.seen(key) {
      hide Weight, Share;
      ProductClose(trunc, loss, Share(Weight(x, c, key), inv), x.value(key, d));
      hide TruncatesWithin, Slack;
    } else {
      assert Share(Weight(x, c, key), inv) == 0.0 == trunc(0.0);
      hide TruncatesWithin, Weight, Share;
    }
  }

  lemma ShareSlackSum(x: Row, loss: Loss, c: real, inv: real, d: int, n: int)
    ensures Sum(ShareSlack(x, loss, c, inv, d), 0, n)
         == Slack(loss, Sum(ShareTerm(AbsRow(x), c, inv, d), 0, n), Mass(x, d, n))
  {
    hide ShareTerm, MassTerm, AbsRow;
    SumCombine(ShareTerm(AbsRow(x), c, inv, d), loss.eps, MassTerm(x, d), loss.tiny,
      ShareSlack(x, loss, c, inv, d), 0, n);
  }

  lemma SharesAreExact(x: Row, c: real, d: int, n: nat, inv: real)
    requires IsExponential(x.exp) && SeenWithin(x, n) && SeesSome(x) && inv == Inverse(Den(x, c, n))
    ensures Sum(ShareTerm(x, c, inv, d), 0, n) == Exact(x, d, n)
  {
    ExactAnyShift(x, c, d, n);
    SharesSum(x, c, inv, d, n);
    hide IsExponential, Num, Den, Exact, ShareTerm;
    DivideIsMultiply(Num(x, c, d, n), Den(x, c, n));
  }

  /** The reference output, too, is near exact attention; no score is too low for it, since its shares add up to one. */
  lemma RefNear(x: Row, trunc: real -> real, loss: Loss, c: real, d: int, n: nat)
    requires IsExponential(x.exp) && TruncatesWithin(trunc, loss) && SeenWithin(x, n) && SeesSome(x)
    ensures Near(RefOutput(x, trunc, c, d, n), Exact(x, d, n), Slack(loss, Exact(AbsRow(x), d, n), Mass(x, d, n)))
  {
    var y, inv := AbsRow(x), Inverse(Den(x, c, n));
    AbsRowSees(x);
    AbsRowExp(x);
    AbsRowWeights(x, c, n);
    hide IsExponential, TruncatesWithin, Slack, Num, Den, Exact, Inverse, RefTerm, ShareTerm, ShareSlack, Mass, AbsRow,
      Weight, Share, SeesSome, SeenWithin;
    SharesAreExact(x, c, d, n, inv);
    SharesAreExact(y, c, d, n, inv);
    ShareSlackSum(x, loss, c, inv, d, n);
    forall key | 0 <= key < n
      ensures Abs(RefTerm(x, trunc, c, inv, d)(key) - ShareTerm(x, c, inv, d)(key))
           <= ShareSlack(x, loss, c, inv, d)(key) {
      ShareAtMostOne(x, c, n, key);
      RefTermClose(x, trunc, loss, c, inv, d, key);
    }
    SumClose(RefTerm(x, trunc, c, inv, d), ShareTerm(x, c, inv, d), ShareSlack(x, loss, c, inv, d), 0, n);
  }

  lemma RefNothing(x: Row, trunc: real -> real, c: real, d: int, n: nat)
    requires trunc(0.0) == 0.0 && !SeesSome(x)
    ensures RefOutput(x, trunc, c, d, n) == 0.0
  {
    var f := RefTerm(x, trunc, c, Inverse(Den(x, c, n)), d);
    forall key ensures f(key) == 0.0 {
      assert Share(Weight(x, c, key), Inverse(Den(x, c, n))) == 0.0;
    }
    SumZero(f, 0, n);
  }

  /** In exact arithmetic the reference output is exact attention, whatever it subtracts before the exponential. */
  lemma RefExact(x: Row, trunc: real -> real, c: real, d: int, n: nat)
    requires IsExponential(x.exp) && Keeps(trunc) && SeenWithin(x, n)
    ensures RefOutput(x, trunc, c, d, n) == Exact(x, d, n)
  {
    var inv := Inverse(Den(x, c, n));
    hide IsExponential, Den, Exact, Inverse, Weight;
    if SeesSome(x) {
      SharesAreExact(x, c, d, n, inv);
      SumEqual(RefTerm(x, trunc, c, inv, d), ShareTerm(x, c, inv, d), 0, n);
    } else {
      KeepsZero(trunc);
      RefNothing(x, trunc, c, d, n);
      ExactAnyShift(x, 0.0, d, n);
    }
  }

  /** The raw dot product of a query row and a key. */
  method DotProduct(x: Inputs, row: int, j: int) returns (acc: real)
    requires 0 <= row < x.seqlenQ
    ensures acc == Score(x, row, j)
  {
    acc := 0.0;
    for d := 0 to 64
      invariant acc == Sum(ScoreTerm(x, row, j), 0, d)
    {
      acc := acc + x.q(row, d) * x.k(j, d);
    }
  }

  /** The dot product, recomputed for every key in every pass, then scaled and masked. */
  method ScaledScore(x: Inputs, scalar: real, row: int, j: int) returns (s: Flt)
    requires 0 <= row < x.seqlenQ && 0 <= j < x.seqlenK
    ensures s == if Visible(x, row, j) then Fin(Logit(x, scalar, row, j)) else NegInf
  {
    hide Score;
    var acc := DotProduct(x, row, j);
    s := Fin(scalar * acc);
    if x.causal && j > row + (x.seqlenK - x.seqlenQ) {
      s := NegInf;
    }
  }

  /** maxS is the largest scaled score that the row sees, minus infinity if it sees none. */
  ghost predicate IsRowMax(x: Inputs, scalar: real, row: int, maxS: Flt) {
    && (maxS.Fin? <==> exists key :: Visible(x, row, key))
    && (forall key :: Visible(x, row, key) ==> maxS.Fin? && Logit(x, scalar, row, key) <= maxS.v)
    && (maxS.Fin? ==> exists key :: Visible(x, row, key) && Logit(x, scalar, row, key) == maxS.v)
  }

  /** maxS is finite as soon as the row sees a key. */
  ghost predicate CoversSeen(x: Inputs, row: int, maxS: Flt) {
    forall key :: Visible(x, row, key) ==> maxS.Fin?
  }

  function ShiftOf(maxS: Flt): real {
    if maxS.Fin? then maxS.v else 0.0
  }

  lemma RowMaxIsUnique(x: Inputs, scalar: real, row: int, m: Flt, m': Flt)
    requires IsRowMax(x, scalar, row, m) && IsRowMax(x, scalar, row, m')
    ensures m == m'
  {
    hide Visible, Logit;
  }

  /** The shift that goes with the row maximum. */
  ghost function RowShift(x: Inputs, scalar: real, row: int): real {
    if exists m :: IsRowMax(x, scalar, row, m) then var m :| IsRowMax(x, scalar, row, m); ShiftOf(m) else 0.0
  }

  /** Pass 2: the softmax denominator. */
  method RowSumPass(x: Inputs, scalar: real, exp: real -> real, row: int, maxS: Flt) returns (sumExp: real)
    requires 0 <= row < x.seqlenQ && CoversSeen(x, row, maxS)
    ensures sumExp == Den(RowOf(x, scalar, exp, row), ShiftOf(maxS), x.seqlenK)
  {
    hide Logit, Score;
    ghost var r, c := RowOf(x, scalar, exp, row), ShiftOf(maxS);
    sumExp := 0.0;
    for j := 0 to x.seqlenK
      invariant sumExp == Sum(WeightTerm(r, c), 0, j)
    {
      var s := ScaledScore(x, scalar, row, j);
      var e := if s.NegInf? then 0.0 else exp(s.v - maxS.v);
      assert e == Weight(r, c, j);
      sumExp := sumExp + e;
    }
  }

  /** Pass 3: the output, from normalised and then truncated probabilities. */
  method OutputPass(x: Inputs, scalar: real, exp: real -> real, trunc: real -> real, row: int, maxS: Flt,
                    invSum: real, o: array<real>)
    requires 0 <= row < x.seqlenQ && CoversSeen(x, row, maxS) && o.Length == 64
    modifies o
    ensures forall d :: 0 <= d < 64 ==>
              o[d] == Sum(RefTerm(RowOf(x, scalar, exp, row), trunc, ShiftOf(maxS), invSum, d), 0, x.seqlenK)
  {
    hide Logit, Score;
    ghost var r, c := RowOf(x, scalar, exp, row), ShiftOf(maxS);
    forall d | 0 <= d < 64 {
      o[d] := 0.0;
    }
    for j := 0 to x.seqlenK
      invariant forall d :: 0 <= d < 64 ==> o[d] == Sum(RefTerm(r, trunc, c, invSum, d), 0, j)
    {
      var s := ScaledScore(x, scalar, row, j);
      var e := if s.NegInf? then 0.0 else exp(s.v - maxS.v);
      assert e == Weight(r, c, j);
      AddValueRow(x, trunc, invSum, j, trunc(Share(e, invSum)), o, r, c);
    }
  }

  /** O_acc += p * V[j]. */
  method AddValueRow(x: Inputs, ghost trunc: real -> real, ghost inv: real, j: nat, p: real, o: array<real>,
                     ghost r: Row, ghost c: real)
    requires r.value == x.v && p == trunc(Share(Weight(r, c, j), inv)) && o.Length == 64
    requires forall d :: 0 <= d < 64 ==> o[d] == Sum(RefTerm(r, trunc, c, inv, d), 0, j)
    modifies o
    ensures forall d :: 0 <= d < 64 ==> o[d] == Sum(RefTerm(r, trunc, c, inv, d), 0, j + 1)
  {
    forall d {
      RefSumStep(r, trunc, c, inv, d, j, p);
    }
    hide *;
    forall d | 0 <= d < 64 {
      o[d] := o[d] + p * x.v(j, d);
    }
  }

  lemma RefSumStep(r: Row, trunc: real -> real, c: real, inv: real, d: int, j: nat, p: real)
    requires p == trunc(Share(Weight(r, c, j), inv))
    ensures Sum(RefTerm(r, trunc, c, inv, d), 0, j + 1) == Sum(RefTerm(r, trunc, c, inv, d), 0, j) + p * r.value(j, d)
  {
  }

  /** Pass 1: the row maximum. */
  method RowMaxPass(x: Inputs, scalar: real, row: int) returns (maxS: Flt)
    requires 0 <= row < x.seqlenQ
    ensures IsRowMax(x, scalar, row, maxS)
  {
    hide Logit;
    maxS := NegInf;
    for j := 0 to x.seqlenK
      invariant maxS.Fin? <==> exists key :: 0 <= key < j && Visible(x, row, key)
      invariant forall key :: 0 <= key < j && Visible(x, row, key) ==> maxS.Fin? && Logit(x, scalar, row, key) <= maxS.v
      invariant maxS.Fin? ==> exists key :: 0 <= key < j && Visible(x, row, key) && Logit(x, scalar, row, key) == maxS.v
    {
      var s := ScaledScore(x, scalar, row, j);
      if s.Fin? && (maxS.NegInf? || s.v > maxS.v) {
        maxS := s;
      }
    }
  }

  /** The three passes for one row. o holds the row's 64 outputs, pack is the final bf16 conversion; both outputs are
      relative to the row maximum that pass 1 found. */
  method ReferenceRow(x: Inputs, scalar: real, exp: real -> real, log: real -> real,
                      trunc: real -> real, pack: real -> bv16, row: int, acc: array<real>, o: array<bv16>)
    returns (lse: Flt, maxS: Flt)
    requires 0 <= row < x.seqlenQ && acc.Length == 64 && o.Length == 64
    modifies acc, o
    ensures IsRowMax(x, scalar, row, maxS)
    ensures forall d :: 0 <= d < 64 ==>
              o[d] == pack(RefOutput(RowOf(x, scalar, exp, row), trunc, ShiftOf(maxS), d, x.seqlenK))
    ensures lse == RefLse(RowOf(x, scalar, exp, row), log, ShiftOf(maxS), x.seqlenK)
  {
    maxS := RowMaxPass(x, scalar, row);
    var sumExp := RowSumPass(x, scalar, exp, row, maxS);
    var invSum := if sumExp > 0.0 then 1.0 / sumExp else 0.0;
    OutputPass(x, scalar, exp, trunc, row, maxS, invSum, acc);
    forall d | 0 <= d < 64 {
      o[d] := pack(acc[d]);
    }
    if sumExp > 0.0 {
      assert maxS.Fin? by {
        if maxS.NegInf? {
          SumZero(WeightTerm(RowOf(x, scalar, exp, row), ShiftOf(maxS)), 0, x.seqlenK);
        }
      }
      lse := Fin(log(sumExp) + maxS.v);
    } else {
      lse := NegInf;
    }
  }
}
