/** The attention problem of a (batch, head), in the launch's own fields: no waves, tiles or base pointers. */
module LaunchSpec {
  import opened Attention
  import opened Agreement
  import opened Staging
  import opened WaveSpec
  import opened EndToEnd
  import opened Grid
  import opened LaunchGrid

  /** Entry b of a table of offsets. */
  function Entry(offsets: seq<int>, b: int): int {
    if 0 <= b < |offsets| then offsets[b] else 0
  }

  /** How many queries and keys a sequence has: the gap to the next offset in packed tensors. */
  function QueryLength(s: Setup, b: int): nat {
    var n := if s.g.varlen then Entry(s.g.offsets, b + 1) - Entry(s.g.offsets, b) else s.g.seqLen;
    if n > 0 then n else 0
  }

  function KeyLength(s: Setup, b: int): nat {
    var n := if s.g.varlen then Entry(s.offsetsK, b + 1) - Entry(s.offsetsK, b) else s.kvSeqLen;
    if n > 0 then n else 0
  }

  /** The K/V head that heads / kvHeads query heads share. */
  function SharedHead(s: Setup, h: int): int {
    if s.kvHeads > 0 && s.g.heads / s.kvHeads > 0 then h / (s.g.heads / s.kvHeads) else 0
  }

  /** Element d of a row: packed rows are counted from the start of their sequence, dense ones from their batch. */
  function Element(m: Dram, st: Strides, packed: bool, start: int, b: int, head: int, row: int, d: int): bv16 {
    m(if packed then head * st.head + (start + row) * st.row + d else b * st.batch + head * st.head + row * st.row + d)
  }

  /** Queries of this head, keys and values of the shared one. */
  function ProblemOf(s: Setup, b: int, h: int): Inputs {
    Inputs(
      (row, d) => s.val(Element(s.q, s.strideQ, s.g.varlen, Entry(s.g.offsets, b), b, h, row, d)),
      (row, d) => s.val(Element(s.k, s.strideK, s.g.varlen, Entry(s.offsetsK, b), b, SharedHead(s, h), row, d)),
      (row, d) => s.val(Element(s.v, s.strideV, s.g.varlen, Entry(s.offsetsK, b), b, SharedHead(s, h), row, d)),
      QueryLength(s, b), KeyLength(s, b), s.g.causal)
  }

  /** The problem written out: which keys a query sees, and where its elements lie. */
  lemma ProblemIs(s: Setup, b: int, h: int, row: int, key: int, d: int)
    requires IsSetup(s) && 0 <= b < s.g.batch && 0 <= h < s.g.heads && (s.g.varlen ==> |s.offsetsK| == s.g.batch + 1)
    ensures var lengthQ := if s.g.varlen then s.g.offsets[b + 1] - s.g.offsets[b] else s.g.seqLen;
      var lengthK := if s.g.varlen then s.offsetsK[b + 1] - s.offsetsK[b] else s.kvSeqLen;
      Visible(ProblemOf(s, b, h), row, key)
      <==> 0 <= key < lengthK && (s.g.causal ==> key <= row + lengthK - lengthQ)
    ensures s.g.heads / s.kvHeads > 0
    ensures ProblemOf(s, b, h).q(row, d)
         == s.val(s.q(if s.g.varlen then h * s.strideQ.head + (s.g.offsets[b] + row) * s.strideQ.row + d
                      else b * s.strideQ.batch + h * s.strideQ.head + row * s.strideQ.row + d))
    ensures var kv := h / (s.g.heads / s.kvHeads);
      ProblemOf(s, b, h).k(row, d)
      == s.val(s.k(if s.g.varlen then kv * s.strideK.head + (s.offsetsK[b] + row) * s.strideK.row + d
                   else b * s.strideK.batch + kv * s.strideK.head + row * s.strideK.row + d))
    ensures var kv := h / (s.g.heads / s.kvHeads);
      ProblemOf(s, b, h).v(row, d)
      == s.val(s.v(if s.g.varlen then kv * s.strideV.head + (s.offsetsK[b] + row) * s.strideV.row + d
                   else b * s.strideV.batch + kv * s.strideV.head + row * s.strideV.row + d))
  {
    assert HasLengths(s.g);
    assert s.g.varlen ==> 0 <= SeqlenQ(s.g, b);
    RatioPositive(s, h);
    var x, kv := ProblemOf(s, b, h), h / (s.g.heads / s.kvHeads);
    assert kv == SharedHead(s, h);
    hide RowsApart, HasLengths, SharedHead;
    assert x.v(row, d) == s.val(Element(s.v, s.strideV, s.g.varlen, Entry(s.offsetsK, b), b, kv, row, d));
    assert x.k(row, d) == s.val(Element(s.k, s.strideK, s.g.varlen, Entry(s.offsetsK, b), b, kv, row, d));
  }

  lemma RatioPositive(s: Setup, h: int)
    requires IsSetup(s) && 0 <= h < s.g.heads
    ensures s.g.heads / s.kvHeads > 0
  {
    KvHeadInRange(s, h);
    var ratio := s.g.heads / s.kvHeads;
    if ratio <= 0 {
      assert false;
    }
  }

  // ---- the job of a wave poses this problem ----

  lemma FromRow(m: Dram, st: Strides, g: Launch, b: int, h: int, row: int, d: int, start: int)
    requires g.varlen ==> start == OffsetQ(g, b)
    ensures At(From(m, Base(st, g, b, h)), st.row, row, d) == Element(m, st, g.varlen, start, b, h, row, d)
  {
    assert g.varlen ==> (start + row) * st.row == start * st.row + row * st.row;
  }

  lemma JobLengths(s: Setup, b: int, h: int, y: int, warp: int)
    ensures var j := JobOf(s, b, h, y, warp);
      j.seqlenQ == QueryLength(s, b) && j.seqlenK == KeyLength(s, b) && j.causal == s.g.causal
  {
    hide Base, KvHead, MTileIdx;
  }

  lemma JobElements(s: Setup, b: int, h: int, y: int, warp: int, row: int, d: int)
    ensures var x, p := InputsOf(JobOf(s, b, h, y, warp)), ProblemOf(s, b, h);
      x.q(row, d) == p.q(row, d) && x.k(row, d) == p.k(row, d) && x.v(row, d) == p.v(row, d)
  {
    assert KvHead(s, h) == SharedHead(s, h);
    FromRow(s.q, s.strideQ, s.g, b, h, row, d, Entry(s.g.offsets, b));
    FromRow(s.k, s.strideK, KeyLayout(s), b, KvHead(s, h), row, d, Entry(s.offsetsK, b));
    FromRow(s.v, s.strideV, KeyLayout(s), b, KvHead(s, h), row, d, Entry(s.offsetsK, b));
    hide Base, KvHead, SharedHead, SeqlenK, SeqlenQ, MTileIdx, At, Element, QueryLength, KeyLength, From, Entry;
  }

  /** The job of a wave that owns a row poses the spot's problem and has it as a valid row. */
  lemma JobIsProblem(s: Setup, b: int, h: int, y: int, warp: int, l: int, row: int)
    requires IsSetup(s) && InGrid(s.g, b, h, y, warp) && 0 <= l < 32
    requires row == MTileIdx(s.g, y) * 128 + l + 32 * warp && row < SeqlenQ(s.g, b)
    ensures var j := JobOf(s, b, h, y, warp);
      && OwnsRow(j, l) && LaneRow(j, l) == row && SameInputs(InputsOf(j), ProblemOf(s, b, h))
      && j.scale == s.scale && j.exp2 == s.exp2 && j.val == s.val && j.bits == s.bits && j.exact == s.exact
      && j.seqlenK == KeyLength(s, b)
  {
    TileNonneg(s.g, y);
    JobLengths(s, b, h, y, warp);
    forall row, d ensures var x, p := InputsOf(JobOf(s, b, h, y, warp)), ProblemOf(s, b, h);
        x.q(row, d) == p.q(row, d) && x.k(row, d) == p.k(row, d) && x.v(row, d) == p.v(row, d) {
      JobElements(s, b, h, y, warp, row, d);
    }
    hide MTileIdx, SeqlenQ, Base, KvHead, SeqlenK, IsSetup, At, From, Element, QueryLength, KeyLength, Entry,
      SharedHead;
  }
}
