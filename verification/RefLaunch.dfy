/** A whole launch of the reference: its flat grid of one thread per row, and the arrays it fills. */
module RefLaunch {
  import opened Exponential
  import opened Floats
  import opened Attention
  import opened GpuRef
  import opened Staging
  import opened Epilogue
  import opened Gemm
  import opened Grid
  import opened TensorLayouts
  import opened LaunchGrid
  import opened LaunchSpec
  import opened Agreement
  import opened LaunchResults
  import opened EndToEnd

  /** The number of the thread that owns a row. */
  function ThreadOf(g: Launch, at: Spot): int {
    Number(at.batch, g.heads, at.head, g.seqLen, at.row)
  }

  ghost function ShiftAt(s: Setup, scalar: real): Spot -> real {
    (at: Spot) => RowShift(ProblemOf(s, at.batch, at.head), scalar, at.row)
  }

  /** What a row's thread stores for headdim d. */
  ghost function RefBf16(s: Setup, scalar: real, exp: real -> real, at: Spot, d: int): bv16 {
    High(s.bits(RefNumber(s, scalar, exp, ShiftAt(s, scalar)(at), at, d)))
  }

  ghost function RefLogSum(s: Setup, scalar: real, exp: real -> real, log: real -> real, at: Spot): Flt {
    RefLseAt(s, scalar, exp, log, ShiftAt(s, scalar)(at), at)
  }

  /** The rows of the threads before tid hold their outputs; the cells are where the kernel's are, too. */
  ghost predicate RefDone(o: array<bv16>, s: Setup, scalar: real, exp: real -> real, tid: int)
    reads o
  {
    forall at, d :: IsSpot(s.g, at) && 0 <= d < 64 && ThreadOf(s.g, at) < tid ==>
      var i := ElementAt(s.g, at, d); 0 <= i < o.Length && o[i] == RefBf16(s, scalar, exp, at, d)
  }

  ghost predicate RefLseDone(lse: array?<Flt>, s: Setup, scalar: real, exp: real -> real, log: real -> real, tid: int)
    reads lse
  {
    lse != null ==> forall at :: IsSpot(s.g, at) && ThreadOf(s.g, at) < tid ==>
      var i := RefLseIndex(s.strideQ, s.g, at); 0 <= i < lse.Length && lse[i] == RefLogSum(s, scalar, exp, log, at)
  }

  /** The reference's cells are distinct, and there. */
  ghost predicate RefLseApart(s: Setup, n: int) {
    && (forall at :: IsSpot(s.g, at) ==> 0 <= RefLseIndex(s.strideQ, s.g, at) < n)
    && forall at, at' :: IsSpot(s.g, at) && IsSpot(s.g, at') && at != at' ==>
         RefLseIndex(s.strideQ, s.g, at) != RefLseIndex(s.strideQ, s.g, at')
  }

  /** Threads that pass the guards, one for each row. */
  lemma ThreadSpot(s: Setup, tid: int, at: Spot)
    requires HasLengths(s.g) && 0 <= tid < s.g.batch * s.g.heads * s.g.seqLen
    ensures IsSpot(s.g, at) && ThreadOf(s.g, at) == tid
       <==> RefSpot(s.g, tid).row < SeqlenQ(s.g, RefSpot(s.g, tid).batch) && at == RefSpot(s.g, tid)
    ensures IsSpot(s.g, at) ==> 0 <= ThreadOf(s.g, at) < s.g.batch * s.g.heads * s.g.seqLen
  {
    RefThreadOwnsRow(s.g, at, tid);
    RefThreadOwnsRow(s.g, at, ThreadOf(s.g, at));
    hide HasLengths, IsSpot, RefSpot, SeqlenQ;
  }

  lemma ShiftIs(s: Setup, scalar: real, at: Spot, maxS: Flt)
    requires IsRowMax(ProblemOf(s, at.batch, at.head), scalar, at.row, maxS)
    ensures ShiftAt(s, scalar)(at) == ShiftOf(maxS)
  {
    var x := ProblemOf(s, at.batch, at.head);
    hide IsRowMax, ProblemOf;
    var m :| IsRowMax(x, scalar, at.row, m) && RowShift(x, scalar, at.row) == ShiftOf(m);
    RowMaxIsUnique(x, scalar, at.row, m, maxS);
  }

  // ---- the problem as the reference reads it ----

  /** First element of the keys of a sequence: all three strides, and the running row offset of packed tensors. */
  function RefKeyBase(st: Strides, start: int, b: int, head: int): int {
    b * st.batch + head * st.head + start * st.row
  }

  /** gqa query heads share one K/V head. */
  function RefKeyHead(s: Setup, h: int): int {
    var gqa := if s.kvHeads > 0 then s.g.heads / s.kvHeads else 0;
    if gqa > 0 then h / gqa else 0
  }

  function RefInputs(s: Setup, b: int, h: int): Inputs {
    var first := if s.g.varlen then OffsetQ(KeyLayout(s), b) else 0;
    Inputs(
      (row, d) => s.val(s.q(RefRowStart(s.strideQ, s.g, Spot(b, h, row)) + d)),
      (key, d) => s.val(s.k(RefKeyBase(s.strideK, first, b, RefKeyHead(s, h)) + key * s.strideK.row + d)),
      (key, d) => s.val(s.v(RefKeyBase(s.strideV, first, b, RefKeyHead(s, h)) + key * s.strideV.row + d)),
      if SeqlenQ(s.g, b) > 0 then SeqlenQ(s.g, b) else 0, SeqlenK(s, b), s.g.causal)
  }

  /** Packed tensors have no stride from sequence to sequence; the reference adds it, the kernel does not. */
  predicate PackedStrides(s: Setup) {
    s.g.varlen ==> s.strideQ.batch == s.strideK.batch == s.strideV.batch == s.g.o.batch == 0
  }

  lemma RefElement(m: Dram, st: Strides, packed: bool, start: int, b: int, head: int, row: int, d: int)
    requires packed ==> st.batch == 0
    ensures m(b * st.batch + head * st.head + (if packed then start + row else row) * st.row + d)
         == Element(m, st, packed, start, b, head, row, d)
    ensures m(RefKeyBase(st, if packed then start else 0, b, head) + row * st.row + d)
         == Element(m, st, packed, start, b, head, row, d)
  {
    assert packed ==> (start + row) * st.row == start * st.row + row * st.row;
    assert packed ==> b * st.batch == 0;
  }

  lemma RefLengths(s: Setup, b: int, h: int)
    ensures var x := RefInputs(s, b, h);
      x.seqlenQ == QueryLength(s, b) && x.seqlenK == KeyLength(s, b) && x.causal == s.g.causal
  {
  }

  lemma RefElements(s: Setup, b: int, h: int, row: int, d: int)
    requires PackedStrides(s)
    ensures var x, p := RefInputs(s, b, h), ProblemOf(s, b, h);
      x.q(row, d) == p.q(row, d) && x.k(row, d) == p.k(row, d) && x.v(row, d) == p.v(row, d)
  {
    RefElement(s.q, s.strideQ, s.g.varlen, Entry(s.g.offsets, b), b, h, row, d);
    RefElement(s.k, s.strideK, s.g.varlen, Entry(s.offsetsK, b), b, SharedHead(s, h), row, d);
    RefElement(s.v, s.strideV, s.g.varlen, Entry(s.offsetsK, b), b, SharedHead(s, h), row, d);
    assert RefKeyHead(s, h) == SharedHead(s, h);
    hide SharedHead, RefKeyHead, Element, RefKeyBase, SeqlenQ, SeqlenK, QueryLength, KeyLength;
  }

  /** The reference reads the problem of the launch: the same shared head, lengths, mask and elements. */
  lemma RefPosesProblem(s: Setup, b: int, h: int)
    requires PackedStrides(s)
    ensures SameInputs(RefInputs(s, b, h), ProblemOf(s, b, h))
  {
    RefLengths(s, b, h);
    hide RefInputs, ProblemOf;
    forall row, d
      ensures var x, p := RefInputs(s, b, h), ProblemOf(s, b, h);
        x.q(row, d) == p.q(row, d) && x.k(row, d) == p.k(row, d) && x.v(row, d) == p.v(row, d) {
      RefElements(s, b, h, row, d);
    }
    ProblemLengths(s, b, h);
  }

  lemma ProblemLengths(s: Setup, b: int, h: int)
    ensures var x := ProblemOf(s, b, h);
      x.seqlenQ == QueryLength(s, b) && x.seqlenK == KeyLength(s, b) && x.causal == s.g.causal
  {
    hide QueryLength, KeyLength;
  }

  lemma RowExists(s: Setup, at: Spot)
    requires IsSpot(s.g, at)
    ensures 0 <= at.row < RefInputs(s, at.batch, at.head).seqlenQ
    ensures RefInputs(s, at.batch, at.head).seqlenK == KeyLength(s, at.batch)
  {
    RefLengths(s, at.batch, at.head);
    hide KeyLength, RefKeyHead;
  }

  /** What the three passes leave is what the row is to hold. */
  lemma RowIsRef(s: Setup, scalar: real, exp: real -> real, log: real -> real, at: Spot, maxS: Flt, d: int)
    requires PackedStrides(s) && IsRowMax(RefInputs(s, at.batch, at.head), scalar, at.row, maxS)
    ensures var x := RowOf(RefInputs(s, at.batch, at.head), scalar, exp, at.row);
      && High(s.bits(RefOutput(x, Narrowed(NarrowIn(s), s.val), ShiftOf(maxS), d, KeyLength(s, at.batch))))
         == RefBf16(s, scalar, exp, at, d)
      && RefLse(x, log, ShiftOf(maxS), KeyLength(s, at.batch)) == RefLogSum(s, scalar, exp, log, at)
  {
    hide IsRowMax, ProblemOf, RefInputs, KeyLength, RefOutput, RefLse, High, ShiftAt, RowOf, Narrowed, SameInputs,
      PackedStrides, AgreeingRows;
    var x, p := RefInputs(s, at.batch, at.head), ProblemOf(s, at.batch, at.head);
    RefPosesProblem(s, at.batch, at.head);
    SameRowMax(x, p, scalar, at.row, maxS);
    ShiftIs(s, scalar, at, maxS);
    AgreeingInputs(x, p, scalar, exp, at.row);
    SameReference(RowOf(x, scalar, exp, at.row), RowOf(p, scalar, exp, at.row), Narrowed(NarrowIn(s), s.val), log,
      ShiftOf(maxS), d, KeyLength(s, at.batch));
  }

  /** The row as its thread computes it. */
  method RefRowOf(s: Setup, scalar: real, exp: real -> real, log: real -> real, at: Spot)
    returns (row: array<bv16>, lse: Flt)
    requires IsSpot(s.g, at) && PackedStrides(s)
    ensures fresh(row) && row.Length == 64
    ensures forall d :: 0 <= d < 64 ==> row[d] == RefBf16(s, scalar, exp, at, d)
    ensures lse == RefLogSum(s, scalar, exp, log, at)
  {
    var x := RefInputs(s, at.batch, at.head);
    RowExists(s, at);
    hide IsSpot, IsRowMax, RefInputs, KeyLength, RefOutput, RefLse, High, RefBf16, RefLogSum, RowOf, Narrowed,
      PackedStrides;
    var acc, maxS := new real[64], NegInf;
    row := new bv16[64];
    lse, maxS := ReferenceRow(x, scalar, exp, log, Narrowed(NarrowIn(s), s.val), v => High(s.bits(v)), at.row, acc,
      row);
    RowIsRef(s, scalar, exp, log, at, maxS, 0);
    forall d | 0 <= d < 64 ensures row[d] == RefBf16(s, scalar, exp, at, d) {
      RowIsRef(s, scalar, exp, log, at, maxS, d);
    }
  }

  lemma RefWindow(s: Setup, at: Spot, n: int)
    requires IsSpot(s.g, at) && Fits(s.g, n) && PackedStrides(s)
    ensures 0 <= RefRowStart(s.g.o, s.g, at) == ElementAt(s.g, at, 0) && ElementAt(s.g, at, 0) + 64 <= n
  {
    RefRowAgrees(s.g.o, s.g, at);
    hide IsSpot, RefRowStart, RowStart;
  }

  /** One thread: its row of O, and its log-sum-exp. */
  method RefThread(s: Setup, scalar: real, exp: real -> real, log: real -> real, at: Spot, o: array<bv16>,
                   lse: array?<Flt>)
    requires IsSpot(s.g, at) && Fits(s.g, o.Length) && PackedStrides(s) && Apart(o, lse)
    requires lse != null ==> RefLseApart(s, lse.Length)
    modifies o, lse
    ensures var first := ElementAt(s.g, at, 0);
      && 0 <= first && first + 64 <= o.Length
      && (forall d :: 0 <= d < 64 ==> o[first + d] == RefBf16(s, scalar, exp, at, d))
      && forall i :: 0 <= i < o.Length && !(first <= i < first + 64) ==> o[i] == old(o[i])
    ensures lse != null ==>
      var cell := RefLseIndex(s.strideQ, s.g, at);
      && 0 <= cell < lse.Length && lse[cell] == RefLogSum(s, scalar, exp, log, at)
      && forall i :: 0 <= i < lse.Length && i != cell ==> lse[i] == old(lse[i])
  {
    hide IsSpot, RefBf16, RefLogSum, RefRowStart, ElementAt, RefLseIndex, Fits;
    RefWindow(s, at, o.Length);
    var row, lseVal := RefRowOf(s, scalar, exp, log, at);
    var first := RefRowStart(s.g.o, s.g, at);
    forall d | 0 <= d < 64 {
      o[first + d] := row[d];
    }
    if lse != null {
      lse[RefLseIndex(s.strideQ, s.g, at)] := lseVal;
    }
  }

  /** The next row joins those done, the others lie elsewhere. */
  lemma RowJoins(o: array<bv16>, before: seq<bv16>, s: Setup, scalar: real, exp: real -> real, at: Spot, tid: int)
    requires IsLaunch(s.g) && IsSpot(s.g, at) && tid == ThreadOf(s.g, at) && Fits(s.g, o.Length) && |before| == o.Length
    requires forall at', d :: IsSpot(s.g, at') && 0 <= d < 64 && ThreadOf(s.g, at') < tid ==>
      var i := ElementAt(s.g, at', d); 0 <= i < |before| && before[i] == RefBf16(s, scalar, exp, at', d)
    requires forall at' :: IsSpot(s.g, at') && ThreadOf(s.g, at') == tid ==> at' == at
    requires var first := ElementAt(s.g, at, 0);
      && 0 <= first && first + 64 <= o.Length
      && (forall d :: 0 <= d < 64 ==> o[first + d] == RefBf16(s, scalar, exp, at, d))
      && forall i :: 0 <= i < o.Length && !(first <= i < first + 64) ==> o[i] == before[i]
    ensures RefDone(o, s, scalar, exp, tid + 1)
  {
    hide RefBf16, ThreadOf, IsLaunch, IsSpot, ElementAt, Fits;
    var first := ElementAt(s.g, at, 0);
    forall at', d | IsSpot(s.g, at') && 0 <= d < 64 && ThreadOf(s.g, at') < tid + 1
      ensures var i := ElementAt(s.g, at', d); 0 <= i < o.Length && o[i] == RefBf16(s, scalar, exp, at', d) {
      Windows(s.g, at, at', d);
      if at' != at {
        assert before[ElementAt(s.g, at', d)] == RefBf16(s, scalar, exp, at', d);
      }
    }
  }

  /** An element of another row lies outside a row's window. */
  lemma Windows(g: Launch, at: Spot, at': Spot, d: int)
    requires IsLaunch(g) && IsSpot(g, at) && IsSpot(g, at') && 0 <= d < 64
    ensures at' == at ==> ElementAt(g, at', d) == ElementAt(g, at, 0) + d
    ensures at' != at ==> !(ElementAt(g, at, 0) <= ElementAt(g, at', d) < ElementAt(g, at, 0) + 64)
  {
    hide HasLengths, IsSpot, RowStart;
  }

  lemma LseJoinsRef(lse: array<Flt>, before: seq<Flt>, s: Setup, scalar: real, exp: real -> real, log: real -> real,
                    at: Spot, tid: int)
    requires RefLseApart(s, lse.Length) && IsSpot(s.g, at) && tid == ThreadOf(s.g, at) && |before| == lse.Length
    requires forall at' :: IsSpot(s.g, at') && ThreadOf(s.g, at') < tid ==>
      var i := RefLseIndex(s.strideQ, s.g, at'); 0 <= i < |before| && before[i] == RefLogSum(s, scalar, exp, log, at')
    requires forall at' :: IsSpot(s.g, at') && ThreadOf(s.g, at') == tid ==> at' == at
    requires var cell := RefLseIndex(s.strideQ, s.g, at);
      && 0 <= cell < lse.Length && lse[cell] == RefLogSum(s, scalar, exp, log, at)
      && forall i :: 0 <= i < lse.Length && i != cell ==> lse[i] == before[i]
    ensures RefLseDone(lse, s, scalar, exp, log, tid + 1)
  {
    hide RefLogSum, ThreadOf, IsSpot, RefLseIndex;
  }

  /** The thread of a number below the grid's size runs for at most one row. */
  lemma OneRow(s: Setup, tid: int)
    requires HasLengths(s.g) && 0 <= tid < s.g.batch * s.g.heads * s.g.seqLen
    ensures var at := RefSpot(s.g, tid);
      if at.row < SeqlenQ(s.g, at.batch)
      then IsSpot(s.g, at) && ThreadOf(s.g, at) == tid
           && forall at' :: IsSpot(s.g, at') && ThreadOf(s.g, at') == tid ==> at' == at
      else forall at' :: IsSpot(s.g, at') ==> ThreadOf(s.g, at') != tid
  {
    hide HasLengths, IsSpot, RefSpot, SeqlenQ, ThreadOf;
    ThreadSpot(s, tid, RefSpot(s.g, tid));
    forall at' ensures IsSpot(s.g, at') && ThreadOf(s.g, at') == tid
                  <==> RefSpot(s.g, tid).row < SeqlenQ(s.g, RefSpot(s.g, tid).batch) && at' == RefSpot(s.g, tid) {
      ThreadSpot(s, tid, at');
    }
  }

  /** A thread past a short sequence does nothing, and no row was its own. */
  lemma NoRowJoins(o: array<bv16>, lse: array?<Flt>, s: Setup, scalar: real, exp: real -> real, log: real -> real,
                   tid: int)
    requires RefDone(o, s, scalar, exp, tid) && RefLseDone(lse, s, scalar, exp, log, tid)
    requires forall at :: IsSpot(s.g, at) ==> ThreadOf(s.g, at) != tid
    ensures RefDone(o, s, scalar, exp, tid + 1) && RefLseDone(lse, s, scalar, exp, log, tid + 1)
  {
    hide RefBf16, RefLogSum, ThreadOf, IsSpot, ElementAt, RefLseIndex;
  }

  lemma ThreadsOfRows(s: Setup, at: Spot)
    requires HasLengths(s.g) && IsSpot(s.g, at)
    ensures 0 <= ThreadOf(s.g, at) < s.g.batch * s.g.heads * s.g.seqLen
  {
    RefThreadOwnsRow(s.g, at, ThreadOf(s.g, at));
    hide HasLengths, IsSpot, RefSpot, SeqlenQ;
  }

  lemma NoThread(o: array<bv16>, lse: array?<Flt>, s: Setup, scalar: real, exp: real -> real, log: real -> real)
    requires HasLengths(s.g)
    ensures RefDone(o, s, scalar, exp, 0) && RefLseDone(lse, s, scalar, exp, log, 0)
  {
    hide RefBf16, RefLogSum, ThreadOf, IsSpot, ElementAt, RefLseIndex, HasLengths;
    forall at | IsSpot(s.g, at) ensures ThreadOf(s.g, at) >= 0 {
      ThreadsOfRows(s, at);
    }
  }

  lemma RowIsDone(o: array<bv16>, s: Setup, scalar: real, exp: real -> real, at: Spot, d: int)
    requires HasLengths(s.g) && PackedStrides(s) && IsSpot(s.g, at) && 0 <= d < 64
    requires RefDone(o, s, scalar, exp, s.g.batch * s.g.heads * s.g.seqLen)
    ensures var i := RefRowStart(s.g.o, s.g, at) + d;
      0 <= i < o.Length && o[i] == High(s.bits(RefNumber(s, scalar, exp, ShiftAt(s, scalar)(at), at, d)))
  {
    hide ThreadOf, IsSpot, RowStart, RefRowStart, HasLengths, RefNumber, High, ShiftAt;
    ThreadsOfRows(s, at);
    RefRowAgrees(s.g.o, s.g, at);
    assert RefRowStart(s.g.o, s.g, at) + d == ElementAt(s.g, at, d);
    assert o[ElementAt(s.g, at, d)] == RefBf16(s, scalar, exp, at, d);
  }

  lemma AllThreads(o: array<bv16>, lse: array?<Flt>, s: Setup, scalar: real, exp: real -> real, log: real -> real)
    requires HasLengths(s.g) && PackedStrides(s)
    requires RefDone(o, s, scalar, exp, s.g.batch * s.g.heads * s.g.seqLen)
    requires RefLseDone(lse, s, scalar, exp, log, s.g.batch * s.g.heads * s.g.seqLen)
    ensures RefComplete(o[..], s, scalar, exp, ShiftAt(s, scalar))
    ensures lse != null ==> forall at :: IsSpot(s.g, at) ==>
              var i := RefLseIndex(s.strideQ, s.g, at);
              0 <= i < lse.Length && lse[i] == RefLogSum(s, scalar, exp, log, at)
  {
    hide RefLogSum, ThreadOf, IsSpot, RefRowStart, RefLseIndex, HasLengths, RefNumber, High, ShiftAt, RefDone;
    forall at | IsSpot(s.g, at) ensures ThreadOf(s.g, at) < s.g.batch * s.g.heads * s.g.seqLen {
      ThreadsOfRows(s, at);
    }
    var ref, shift := o[..], ShiftAt(s, scalar);
    forall at, d | IsSpot(s.g, at) && 0 <= d < 64
      ensures var i := RefRowStart(s.g.o, s.g, at) + d;
        0 <= i < |ref| && ref[i] == High(s.bits(RefNumber(s, scalar, exp, shift(at), at, d))) {
      RowIsDone(o, s, scalar, exp, at, d);
    }
    assert RefComplete(ref, s, scalar, exp, shift);
  }

  /** The whole grid: afterwards every row of O and every log-sum-exp is the reference's. */
  method RunReference(s: Setup, scalar: real, exp: real -> real, log: real -> real, o: array<bv16>, lse: array?<Flt>)
    requires IsLaunch(s.g) && Fits(s.g, o.Length) && PackedStrides(s) && Apart(o, lse)
    requires lse != null ==> RefLseApart(s, lse.Length)
    modifies o, lse
    ensures RefComplete(o[..], s, scalar, exp, ShiftAt(s, scalar))
    ensures lse != null ==> forall at :: IsSpot(s.g, at) ==>
              var i := RefLseIndex(s.strideQ, s.g, at);
              0 <= i < lse.Length && lse[i] == RefLogSum(s, scalar, exp, log, at)
  {
    assert HasLengths(s.g);
    hide HasLengths, IsLaunch, RefBf16, RefLogSum, IsSpot, RefSpot, SeqlenQ, Fits, RefLseApart, ElementAt, RefLseIndex,
      RefComplete, ThreadOf;
    NoThread(o, lse, s, scalar, exp, log);
    for tid := 0 to s.g.batch * s.g.heads * s.g.seqLen
      invariant RefDone(o, s, scalar, exp, tid) && RefLseDone(lse, s, scalar, exp, log, tid)
    {
      OneRow(s, tid);
      var at := RefSpot(s.g, tid);
      if at.row < SeqlenQ(s.g, at.batch) {
        ghost var before := o[..];
        ghost var beforeLse := if lse != null then lse[..] else [];
        RefThread(s, scalar, exp, log, at, o, lse);
        RowJoins(o, before, s, scalar, exp, at, tid);
        if lse != null {
          LseJoinsRef(lse, beforeLse, s, scalar, exp, log, at, tid);
        }
      } else {
        NoRowJoins(o, lse, s, scalar, exp, log, tid);
      }
    }
    AllThreads(o, lse, s, scalar, exp, log);
  }

  /** Kernel and reference, run on the same tensors in exact arithmetic, fill O with the same bits, in every layout
      whose rows fill it; and their log-sum-exps are the same wherever the reference's index is the kernel's. */
  method RunBoth(s: Setup, scalar: real, exp: real -> real, log2: real -> real, ln2: real, log: real -> real,
                 o: array<bv16>, lse: array<Flt>, refO: array<bv16>, refLse: array<Flt>)
    requires IsSetup(s) && ExactBases(s, scalar, exp) && SameLog(log2, ln2, log) && PackedStrides(s)
    requires IsLogarithm(log2, s.exp2) && IsLogarithm(log, exp)
    requires o != refO && lse != refLse && Apart(o, lse) && Apart(refO, refLse) && Apart(o, refLse) && Apart(refO, lse)
    requires o.Length == refO.Length && lse.Length == refLse.Length && Covers(s.g, o.Length)
    requires LseApart(s.strideQ, s.g, lse.Length)
    requires forall at :: IsSpot(s.g, at) ==> RefLseIndex(s.strideQ, s.g, at) == LseCell(s.strideQ, s.g, at)
    modifies o, lse, refO, refLse
    ensures o[..] == refO[..]
    ensures forall at :: IsSpot(s.g, at) ==>
              var i := LseCell(s.strideQ, s.g, at); 0 <= i < lse.Length && lse[i] == refLse[i]
  {
    hide IsSetup, ExactBases, SameLog, IsLogarithm, Covers, IsSpot, RefLseIndex, LseCell, RefLogSum, ShiftAt, OComplete,
      LseComplete, RefComplete;
    BothApart(s, lse.Length, o.Length);
    ghost var was, wasLse := o[..], lse[..];
    RunLaunch(s, lse, o, log2, ln2);
    ghost var filled, filledLse := o[..], lse[..];
    RunReference(s, scalar, exp, log, refO, refLse);
    assert o[..] == filled && lse[..] == filledLse;
    SameResults(s, scalar, exp, log2, ln2, log, o, was, lse, wasLse, refO, refLse);
  }

  lemma SameResults(s: Setup, scalar: real, exp: real -> real, log2: real -> real, ln2: real, log: real -> real,
                    o: array<bv16>, was: seq<bv16>, lse: array<Flt>, wasLse: seq<Flt>, refO: array<bv16>,
                    refLse: array<Flt>)
    requires IsSetup(s) && ExactBases(s, scalar, exp) && SameLog(log2, ln2, log) && PackedStrides(s)
    requires IsLogarithm(log2, s.exp2) && IsLogarithm(log, exp)
    requires o.Length == refO.Length && lse.Length == refLse.Length && Covers(s.g, o.Length)
    requires OComplete(o, was, s) && LseComplete(lse, wasLse, s, log2, ln2)
    requires RefComplete(refO[..], s, scalar, exp, ShiftAt(s, scalar))
    requires forall at :: IsSpot(s.g, at) ==>
      var i := RefLseIndex(s.strideQ, s.g, at);
      0 <= i < refLse.Length && refLse[i] == RefLogSum(s, scalar, exp, log, at)
    requires forall at :: IsSpot(s.g, at) ==> RefLseIndex(s.strideQ, s.g, at) == LseCell(s.strideQ, s.g, at)
    ensures o[..] == refO[..]
    ensures forall at :: IsSpot(s.g, at) ==>
              var i := LseCell(s.strideQ, s.g, at); 0 <= i < lse.Length && lse[i] == refLse[i]
  {
    assert SameBase(s.exp2, exp, s.scale, scalar) && IsExponential(s.exp2) && IsExponential(exp);
    hide IsSetup, ExactBases, SameBase, SameLog, IsExponential, IsLogarithm, Covers, IsSpot, RefLseIndex, LseCell,
      ShiftAt, OComplete, LseComplete, RefComplete, RefLseAt;
    ArraysAreEqual(o, was, refO[..], s, scalar, exp, ShiftAt(s, scalar));
    forall at | IsSpot(s.g, at)
      ensures var i := LseCell(s.strideQ, s.g, at); 0 <= i < lse.Length && lse[i] == refLse[i] {
      LseCellsAreEqual(lse, wasLse, refLse[..], s, scalar, exp, log2, ln2, log, ShiftAt(s, scalar), at);
    }
  }

  lemma BothApart(s: Setup, n: int, m: int)
    requires IsSetup(s) && LseApart(s.strideQ, s.g, n) && Covers(s.g, m)
    requires forall at :: IsSpot(s.g, at) ==> RefLseIndex(s.strideQ, s.g, at) == LseCell(s.strideQ, s.g, at)
    ensures RefLseApart(s, n) && IsLaunch(s.g) && Fits(s.g, m)
  {
    hide IsSpot, RefLseIndex, LseCell, RowStart;
  }
}
