/** A whole launch: every wave of every block, and what ends up in O and LSE. */
module LaunchGrid {
  import opened Floats
  import opened Staging
  import opened Epilogue
  import opened WaveSpec
  import opened Pipeline
  import opened Grid
  import opened TensorLayouts

  /** The launch with its tensors, each with its own strides; queries and keys may differ in length, heads may share K
      and V. */
  datatype Setup = Setup(
    g: Launch, kvHeads: nat, kvSeqLen: nat, offsetsK: seq<int>,
    q: Dram, strideQ: Strides, k: Dram, strideK: Strides, v: Dram, strideV: Strides,
    val: bv16 -> real, bits: real -> bv32, exact: bool, exp2: real -> real, scale: real)

  ghost predicate IsSetup(s: Setup) {
    && IsLaunch(s.g) && s.val(0) == 0.0
    && s.kvHeads > 0 && s.g.heads % s.kvHeads == 0
  }

  /** K and V have their own heads, lengths and offsets. */
  function KeyLayout(s: Setup): Launch {
    Launch(s.kvHeads, s.g.batch, s.kvSeqLen, s.g.causal, s.g.varlen, s.offsetsK, s.strideK)
  }

  function SeqlenK(s: Setup, b: int): nat {
    if SeqlenQ(KeyLayout(s), b) > 0 then SeqlenQ(KeyLayout(s), b) else 0
  }

  /** Several query heads share one K/V head. */
  function KvHead(s: Setup, h: int): int {
    var ratio := if s.kvHeads > 0 then s.g.heads / s.kvHeads else 0;
    if ratio > 0 then h / ratio else 0
  }

  /** Every query head has a K/V head, shared by heads / kvHeads consecutive query heads. */
  lemma KvHeadInRange(s: Setup, h: int)
    requires IsSetup(s) && 0 <= h < s.g.heads
    ensures 0 <= KvHead(s, h) < s.kvHeads
    ensures KvHead(s, h) * (s.g.heads / s.kvHeads) <= h < (KvHead(s, h) + 1) * (s.g.heads / s.kvHeads)
  {
    var ratio := s.g.heads / s.kvHeads;
    assert s.g.heads == s.kvHeads * ratio;
    if ratio <= 0 {
      MulAtMost(ratio, 0, s.kvHeads);
      assert false;
    }
    Compose(h, ratio);
    Digits(h / ratio, ratio, h % ratio, s.kvHeads);
  }

  /** A tensor seen from a base pointer. */
  function From(m: Dram, base: int): Dram {
    i => m(base + i)
  }

  function OBase(g: Launch, b: int, h: int): int {
    Base(g.o, g, b, h)
  }

  /** One wave of one block: base pointers by head and sequence, rows by row strides. */
  function JobOf(s: Setup, b: int, h: int, y: int, warp: int): Job {
    var kv := KvHead(s, h);
    Job(From(s.q, Base(s.strideQ, s.g, b, h)), s.strideQ.row,
      From(s.k, Base(s.strideK, KeyLayout(s), b, kv)), s.strideK.row,
      From(s.v, Base(s.strideV, KeyLayout(s), b, kv)), s.strideV.row,
      if SeqlenQ(s.g, b) > 0 then SeqlenQ(s.g, b) else 0, SeqlenK(s, b), s.g.causal,
      if MTileIdx(s.g, y) > 0 then MTileIdx(s.g, y) else 0, if warp > 0 then warp else 0,
      s.val, s.bits, s.exact, s.exp2, s.scale)
  }

  function RowsAt(s: Setup, b: int, h: int, y: int, warp: int): Rows {
    RowsOf(JobOf(s, b, h, y, warp), OBase(s.g, b, h), s.g.o.row)
  }

  /** The lane that stores headdim d of row l of a wave. */
  function WriterAt(b: int, h: int, y: int, warp: int, l: int, d: int): Writer {
    Writer(h, y, b, warp, l + 32 * ((d / 4) % 2), d / 8, d % 4)
  }

  predicate InGrid(g: Launch, b: int, h: int, y: int, warp: int) {
    0 <= b < g.batch && 0 <= h < g.heads && 0 <= y < MTiles(g) && 0 <= warp < 4
  }

  /** The spot of row l of a wave. */
  function SpotAt(s: Setup, b: int, h: int, y: int, warp: int, l: int): Spot {
    Spot(b, h, MTileIdx(s.g, y) * 128 + l + 32 * warp)
  }

  lemma TileNonneg(g: Launch, y: int)
    requires 0 <= y < MTiles(g)
    ensures 0 <= MTileIdx(g, y) < MTiles(g)
  {
  }

  lemma LengthNonneg(g: Launch, b: int)
    requires HasLengths(g) && 0 <= b < g.batch
    ensures 0 <= SeqlenQ(g, b) <= g.seqLen
  {
  }

  /** A wave's valid rows are those its lanes store, at the addresses they compute. */
  lemma WaveStores(s: Setup, b: int, h: int, y: int, warp: int, l: int, d: int)
    requires IsLaunch(s.g) && InGrid(s.g, b, h, y, warp) && 0 <= l < 32 && 0 <= d < 64
    ensures ValidRow(RowsAt(s, b, h, y, warp), l) <==> Stores(s.g, WriterAt(b, h, y, warp, l, d))
    ensures ValidRow(RowsAt(s, b, h, y, warp), l) <==> IsSpot(s.g, SpotAt(s, b, h, y, warp, l))
    ensures RowCell(RowsAt(s, b, h, y, warp), l, d) == ElementAt(s.g, SpotAt(s, b, h, y, warp, l), d)
    ensures IsSpot(s.g, SpotAt(s, b, h, y, warp, l)) ==>
              WriterFor(s.g, SpotAt(s, b, h, y, warp, l), d) == WriterAt(b, h, y, warp, l, d)
  {
    var w := WriterAt(b, h, y, warp, l, d);
    hide IsLaunch, HasLengths, Base, SeqlenQ, MTileIdx, JobOf, RowsAt, Stores, IsSpot, WriterFor;
    assert HasLengths(s.g) by {
      LengthsOf(s.g);
    }
    assert w.lane % 32 == l && w.lane / 32 == (d / 4) % 2;
    ColumnDigits(w, d);
    RowsAtSpot(s, b, h, y, warp, l);
    SpotStores(s.g, w);
    assert SpotAt(s, b, h, y, warp, l) == WriterSpot(s.g, w);
    if Stores(s.g, w) {
      WriterOfStore(s.g, w);
    }
  }

  lemma LengthsOf(g: Launch)
    requires IsLaunch(g)
    ensures HasLengths(g)
  {
  }

  /** A wave's rows in terms of spots. */
  lemma RowsAtSpot(s: Setup, b: int, h: int, y: int, warp: int, l: int)
    requires HasLengths(s.g) && InGrid(s.g, b, h, y, warp)
    ensures var rows := RowsAt(s, b, h, y, warp);
      && rows.oBase == Base(s.g.o, s.g, b, h) && rows.strideO == s.g.o.row && rows.seqlenQ == SeqlenQ(s.g, b)
      && rows.rowBase + l == SpotAt(s, b, h, y, warp, l).row >= l
  {
    TileNonneg(s.g, y);
    LengthNonneg(s.g, b);
    hide HasLengths, Base, SeqlenQ, MTileIdx, KvHead, SeqlenK, MTiles;
  }

  /** A lane of an existing wave stores exactly if its row exists. */
  lemma SpotStores(g: Launch, w: Writer)
    requires InGrid(g, w.batch, w.head, w.y, w.warp) && 0 <= w.lane < 64 && 0 <= w.store < 8 && 0 <= w.c < 4
    ensures Stores(g, w) <==> WriterRow(g, w) < SeqlenQ(g, w.batch)
    ensures IsSpot(g, WriterSpot(g, w)) <==> WriterRow(g, w) < SeqlenQ(g, w.batch)
  {
    TileNonneg(g, w.y);
    hide SeqlenQ, MTileIdx, MTiles;
  }

  // ---- what a launch leaves behind ----

  predicate IsWave(w: Writer, b: int, h: int, y: int, warp: int) {
    w.batch == b && w.head == h && w.y == y && w.warp == warp
  }

  /** The bf16 that element d of a row of O is to hold: the fused output of its row and headdim. */
  function ExpectedO(s: Setup, at: Spot, d: int): bv16 {
    var w := WriterFor(s.g, at, d);
    OutputOf(JobOf(s, w.batch, w.head, w.y, w.warp), w.lane % 32, d)
  }

  lemma WriterLanes(s: Setup, at: Spot, d: int)
    requires HasLengths(s.g) && IsSpot(s.g, at) && 0 <= d < 64
    ensures var w := WriterFor(s.g, at, d);
      && 0 <= w.lane % 32 < 32 && InGrid(s.g, w.batch, w.head, w.y, w.warp)
      && at == SpotAt(s, w.batch, w.head, w.y, w.warp, w.lane % 32)
  {
    EveryElementIsStored(s.g, at, d);
    hide HasLengths, SeqlenQ, ElementAt, Address, MTiles;
  }

  /** An element is written by the wave of its writer, with the value of its row, and by no other wave. */
  lemma WaveOfElement(s: Setup, b: int, h: int, y: int, warp: int, at: Spot, d: int)
    requires IsLaunch(s.g) && InGrid(s.g, b, h, y, warp) && IsSpot(s.g, at) && 0 <= d < 64
    ensures var w, l := WriterFor(s.g, at, d), WriterFor(s.g, at, d).lane % 32;
      && (IsWave(w, b, h, y, warp) ==>
            && ValidRow(RowsAt(s, b, h, y, warp), l) && RowCell(RowsAt(s, b, h, y, warp), l, d) == ElementAt(s.g, at, d)
            && ExpectedO(s, at, d) == OutputOf(JobOf(s, b, h, y, warp), l, d))
      && (!IsWave(w, b, h, y, warp) ==> !WaveCell(RowsAt(s, b, h, y, warp), ElementAt(s.g, at, d)))
  {
    var w := WriterFor(s.g, at, d);
    var l := w.lane % 32;
    WriterLanes(s, at, d);
    assert RowsApart(s.g);
    hide IsLaunch, ElementAt, WriterFor, OutputOf, JobOf, RowsAt, RowCell, Stores, SpotAt, IsSpot, InGrid,
      RowsApart, ValidRow;
    if IsWave(w, b, h, y, warp) {
      WaveStores(s, b, h, y, warp, l, d);
    } else {
      forall l', d' | 0 <= l' < 32 && ValidRow(RowsAt(s, b, h, y, warp), l') && 0 <= d' < 64
        ensures ElementAt(s.g, at, d) != RowCell(RowsAt(s, b, h, y, warp), l', d') {
        WaveStores(s, b, h, y, warp, l', d');
        ElementsApart(s.g, SpotAt(s, b, h, y, warp, l'), d', at, d);
      }
      NotWaveCell(RowsAt(s, b, h, y, warp), ElementAt(s.g, at, d));
    }
  }

  lemma NotWaveCell(at: Rows, i: int)
    requires forall l, d :: 0 <= l < 32 && ValidRow(at, l) && 0 <= d < 64 ==> i != RowCell(at, l, d)
    ensures !WaveCell(at, i)
  {
    hide RowCell;
  }

  /** A wave stores elements of rows only. */
  lemma WaveCellIsElement(s: Setup, b: int, h: int, y: int, warp: int, i: int)
    requires IsLaunch(s.g) && InGrid(s.g, b, h, y, warp) && WaveCell(RowsAt(s, b, h, y, warp), i)
    ensures IsElement(s.g, i)
  {
    hide IsLaunch, ElementAt, RowsAt, RowCell, Stores, SpotAt, IsSpot, InGrid;
    var l, d :| ValidRow(RowsAt(s, b, h, y, warp), l) && 0 <= d < 64 && i == RowCell(RowsAt(s, b, h, y, warp), l, d);
    WaveStores(s, b, h, y, warp, l, d);
  }

  /** All that a wave stores lies inside O. */
  lemma WaveFits(s: Setup, b: int, h: int, y: int, warp: int, n: int)
    requires IsLaunch(s.g) && InGrid(s.g, b, h, y, warp) && Fits(s.g, n)
    ensures RowsFit(RowsAt(s, b, h, y, warp), n)
  {
    assert RowsAt(s, b, h, y, warp).strideO >= 64;
    hide IsLaunch, RowsAt, RowCell, Stores, InGrid, RowStart, SpotAt, IsSpot;
    forall l, d | ValidRow(RowsAt(s, b, h, y, warp), l) && 0 <= d < 64
      ensures 0 <= RowCell(RowsAt(s, b, h, y, warp), l, d) < n {
      WaveStores(s, b, h, y, warp, l, d);
    }
  }

  // ---- log-sum-exp ----

  function ExpectedLse(s: Setup, log2: real -> real, ln2: real, at: Spot): Flt {
    var w := WriterFor(s.g, at, 0);
    LseOfRow(JobOf(s, w.batch, w.head, w.y, w.warp), log2, ln2, w.lane % 32)
  }

  /** Where a wave's log-sum-exps start. */
  function LseFirst(s: Setup, b: int, h: int, y: int, warp: int): int {
    LseBase(s.strideQ, s.g, b, h) + LaneRow(JobOf(s, b, h, y, warp), 0)
  }

  lemma LseOfWave(s: Setup, b: int, h: int, y: int, warp: int, l: int)
    requires InGrid(s.g, b, h, y, warp)
    ensures LseFirst(s, b, h, y, warp) + l == LseCell(s.strideQ, s.g, SpotAt(s, b, h, y, warp, l))
  {
    TileNonneg(s.g, y);
    hide LseBase, KvHead, MTiles, SeqlenQ, SeqlenK, MTileIdx, Base;
  }

  /** A row's log-sum-exp is written by the wave that owns the row, and by no other. */
  lemma WaveOfRow(s: Setup, log2: real -> real, ln2: real, b: int, h: int, y: int, warp: int, at: Spot, n: int)
    requires IsLaunch(s.g) && InGrid(s.g, b, h, y, warp) && IsSpot(s.g, at) && LseApart(s.strideQ, s.g, n)
    ensures var w, l, i := WriterFor(s.g, at, 0), WriterFor(s.g, at, 0).lane % 32, LseCell(s.strideQ, s.g, at);
      && (IsWave(w, b, h, y, warp) ==>
            && ValidRow(RowsAt(s, b, h, y, warp), l) && LseFirst(s, b, h, y, warp) + l == i
            && ExpectedLse(s, log2, ln2, at) == LseOfRow(JobOf(s, b, h, y, warp), log2, ln2, l))
      && (ValidRow(RowsAt(s, b, h, y, warp), i - LseFirst(s, b, h, y, warp)) ==> IsWave(w, b, h, y, warp))
  {
    var w, l' := WriterFor(s.g, at, 0), LseCell(s.strideQ, s.g, at) - LseFirst(s, b, h, y, warp);
    var l := w.lane % 32;
    WriterLanes(s, at, 0);
    hide IsLaunch, LseOfRow, LseCell, LseFirst, JobOf, RowsAt, RowCell, ElementAt, WriterFor, SpotAt, IsSpot,
      InGrid, Stores;
    if IsWave(w, b, h, y, warp) {
      WaveStores(s, b, h, y, warp, l, 0);
      LseOfWave(s, b, h, y, warp, l);
    }
    if ValidRow(RowsAt(s, b, h, y, warp), l') {
      WaveStores(s, b, h, y, warp, l', 0);
      LseOfWave(s, b, h, y, warp, l');
      assert SpotAt(s, b, h, y, warp, l') == at;
    }
  }

  lemma LseFits(s: Setup, b: int, h: int, y: int, warp: int, n: int)
    requires IsLaunch(s.g) && InGrid(s.g, b, h, y, warp) && LseApart(s.strideQ, s.g, n)
    ensures forall l :: ValidRow(RowsAt(s, b, h, y, warp), l) ==> 0 <= LseFirst(s, b, h, y, warp) + l < n
  {
    hide IsLaunch, InGrid, RowCell, RowsAt, LseFirst, LseCell, IsSpot, SpotAt, ElementAt, Stores;
    forall l | ValidRow(RowsAt(s, b, h, y, warp), l) ensures 0 <= LseFirst(s, b, h, y, warp) + l < n {
      WaveStores(s, b, h, y, warp, l, 0);
      LseOfWave(s, b, h, y, warp, l);
    }
  }

  /** Some row has its log-sum-exp here. */
  ghost predicate IsLseCell(s: Setup, i: int) {
    exists at :: IsSpot(s.g, at) && i == LseCell(s.strideQ, s.g, at)
  }

  lemma WaveLseIsCell(s: Setup, b: int, h: int, y: int, warp: int, l: int)
    requires IsLaunch(s.g) && InGrid(s.g, b, h, y, warp) && ValidRow(RowsAt(s, b, h, y, warp), l)
    ensures IsLseCell(s, LseFirst(s, b, h, y, warp) + l)
  {
    hide IsLaunch, InGrid, RowCell, RowsAt, LseFirst, LseCell, IsSpot, SpotAt, ElementAt, Stores;
    WaveStores(s, b, h, y, warp, l, 0);
    LseOfWave(s, b, h, y, warp, l);
  }

  // ---- running all of it ----

  /** A position in the launch: the waves before it have run. */
  datatype Point = Point(batch: int, y: int, head: int, warp: int)

  predicate Before(w: Writer, p: Point) {
    if w.batch != p.batch then w.batch < p.batch
    else if w.y != p.y then w.y < p.y
    else if w.head != p.head then w.head < p.head
    else w.warp < p.warp
  }

  /** O so far: expected where the writer has run, untouched elsewhere and between the rows. */
  ghost predicate ODone(o: array<bv16>, was: seq<bv16>, s: Setup, p: Point)
    reads o
  {
    && o.Length == |was| && Fits(s.g, o.Length)
    && (forall at, d :: IsSpot(s.g, at) && 0 <= d < 64 ==>
          var i := ElementAt(s.g, at, d);
          0 <= i < o.Length && o[i] == if Before(WriterFor(s.g, at, d), p) then ExpectedO(s, at, d) else was[i])
    && forall i :: 0 <= i < o.Length && !IsElement(s.g, i) ==> o[i] == was[i]
  }

  ghost predicate LseDone(lse: array?<Flt>, was: seq<Flt>, s: Setup, log2: real -> real, ln2: real, p: Point)
    reads lse
  {
    lse != null ==>
      && lse.Length == |was| && LseApart(s.strideQ, s.g, lse.Length)
      && (forall at :: IsSpot(s.g, at) ==>
            var i := LseCell(s.strideQ, s.g, at);
            0 <= i < lse.Length && lse[i] == if Before(WriterFor(s.g, at, 0), p) then ExpectedLse(s, log2, ln2, at)
              else was[i])
      && forall i :: 0 <= i < lse.Length && !IsLseCell(s, i) ==> lse[i] == was[i]
  }

  /** No writer lies between the last position of a level and the first of the next. */
  lemma NextPoint(g: Launch, at: Spot, d: int, p: Point, p': Point)
    requires HasLengths(g) && IsSpot(g, at) && 0 <= d < 64
    requires || p' == p
             || (p.warp == 4 && p' == p.(warp := 0, head := p.head + 1))
             || (p.warp == 0 && p.head == g.heads && p' == p.(head := 0, y := p.y + 1))
             || (p.warp == 0 && p.head == 0 && p.y == MTiles(g) && p' == p.(y := 0, batch := p.batch + 1))
    ensures Before(WriterFor(g, at, d), p) == Before(WriterFor(g, at, d), p')
  {
    EveryElementIsStored(g, at, d);
    hide HasLengths, WriterFor, Address;
  }

  lemma SkipTo(o: array<bv16>, was: seq<bv16>, lse: array?<Flt>, wasLse: seq<Flt>, s: Setup, log2: real -> real,
               ln2: real, p: Point, p': Point)
    requires HasLengths(s.g) && ODone(o, was, s, p) && LseDone(lse, wasLse, s, log2, ln2, p)
    requires || (p.warp == 4 && p' == p.(warp := 0, head := p.head + 1))
             || (p.warp == 0 && p.head == s.g.heads && p' == p.(head := 0, y := p.y + 1))
             || (p.warp == 0 && p.head == 0 && p.y == MTiles(s.g) && p' == p.(y := 0, batch := p.batch + 1))
    ensures ODone(o, was, s, p') && LseDone(lse, wasLse, s, log2, ln2, p')
  {
    hide HasLengths, Before, ExpectedO, ExpectedLse, WriterFor, MTiles, IsSpot, ElementAt, LseCell, Fits, LseApart,
      IsElement, IsLseCell;
    forall at, d | IsSpot(s.g, at) && 0 <= d < 64
      ensures Before(WriterFor(s.g, at, d), p) == Before(WriterFor(s.g, at, d), p') {
      NextPoint(s.g, at, d, p, p');
    }
  }

  /** The elements of one wave join those done. */
  lemma WaveJoins(o: array<bv16>, before: seq<bv16>, was: seq<bv16>, s: Setup, b: int, h: int, y: int, warp: int)
    requires IsLaunch(s.g) && InGrid(s.g, b, h, y, warp) && Fits(s.g, o.Length) && o.Length == |before| == |was|
    requires forall at, d :: IsSpot(s.g, at) && 0 <= d < 64 ==>
      var i := ElementAt(s.g, at, d);
      0 <= i < o.Length
      && before[i] == if Before(WriterFor(s.g, at, d), Point(b, y, h, warp)) then ExpectedO(s, at, d) else was[i]
    requires forall i :: 0 <= i < o.Length && !IsElement(s.g, i) ==> before[i] == was[i]
    requires forall l, d :: ValidRow(RowsAt(s, b, h, y, warp), l) && 0 <= d < 64 ==>
      0 <= RowCell(RowsAt(s, b, h, y, warp), l, d) < o.Length
      && o[RowCell(RowsAt(s, b, h, y, warp), l, d)] == OutputOf(JobOf(s, b, h, y, warp), l, d)
    requires forall i :: 0 <= i < o.Length && !WaveCell(RowsAt(s, b, h, y, warp), i) ==> o[i] == before[i]
    ensures ODone(o, was, s, Point(b, y, h, warp + 1))
  {
    hide IsLaunch, InGrid, ExpectedO, OutputOf, JobOf, RowsAt, RowCell, WaveCell, WriterFor, ValidRow, IsSpot,
      ElementAt, IsElement, Fits;
    forall at, d | IsSpot(s.g, at) && 0 <= d < 64
      ensures var i := ElementAt(s.g, at, d);
        o[i] == if Before(WriterFor(s.g, at, d), Point(b, y, h, warp + 1)) then ExpectedO(s, at, d) else was[i] {
      WaveOfElement(s, b, h, y, warp, at, d);
    }
    forall i | 0 <= i < o.Length && !IsElement(s.g, i) ensures o[i] == was[i] {
      if WaveCell(RowsAt(s, b, h, y, warp), i) {
        WaveCellIsElement(s, b, h, y, warp, i);
      }
    }
  }

  lemma LseJoins(lse: array<Flt>, before: seq<Flt>, was: seq<Flt>, s: Setup, log2: real -> real, ln2: real,
                 b: int, h: int, y: int, warp: int)
    requires IsLaunch(s.g) && InGrid(s.g, b, h, y, warp)
    requires LseApart(s.strideQ, s.g, lse.Length) && lse.Length == |before| == |was|
    requires forall at :: IsSpot(s.g, at) ==>
      var i := LseCell(s.strideQ, s.g, at);
      0 <= i < lse.Length
      && before[i] == if Before(WriterFor(s.g, at, 0), Point(b, y, h, warp)) then ExpectedLse(s, log2, ln2, at)
        else was[i]
    requires forall i :: 0 <= i < lse.Length && !IsLseCell(s, i) ==> before[i] == was[i]
    requires var first := LseFirst(s, b, h, y, warp);
      && (forall l :: ValidRow(RowsAt(s, b, h, y, warp), l) ==>
            0 <= first + l < lse.Length && lse[first + l] == LseOfRow(JobOf(s, b, h, y, warp), log2, ln2, l))
      && (forall i :: 0 <= i < lse.Length && !ValidRow(RowsAt(s, b, h, y, warp), i - first) ==> lse[i] == before[i])
    ensures LseDone(lse, was, s, log2, ln2, Point(b, y, h, warp + 1))
  {
    hide IsLaunch, InGrid, ExpectedLse, LseOfRow, JobOf, RowsAt, WriterFor, ValidRow, IsSpot, LseCell, LseFirst,
      IsLseCell, LseApart;
    forall at | IsSpot(s.g, at)
      ensures var i := LseCell(s.strideQ, s.g, at);
        lse[i] == if Before(WriterFor(s.g, at, 0), Point(b, y, h, warp + 1)) then ExpectedLse(s, log2, ln2, at)
          else was[i] {
      WaveOfRow(s, log2, ln2, b, h, y, warp, at, lse.Length);
    }
    forall i | 0 <= i < lse.Length && !IsLseCell(s, i) ensures lse[i] == was[i] {
      if ValidRow(RowsAt(s, b, h, y, warp), i - LseFirst(s, b, h, y, warp)) {
        WaveLseIsCell(s, b, h, y, warp, i - LseFirst(s, b, h, y, warp));
      }
    }
  }

  /** A tile that starts past the end of a short sequence has no row to store. */
  lemma EarlyReturnStoresNothing(s: Setup, b: int, h: int, y: int, warp: int, l: int)
    requires InGrid(s.g, b, h, y, warp) && MTileIdx(s.g, y) * 128 >= SeqlenQ(s.g, b)
    ensures !ValidRow(RowsAt(s, b, h, y, warp), l)
  {
    TileNonneg(s.g, y);
    hide MTileIdx, SeqlenQ, Base, KvHead, SeqlenK;
  }

  lemma JobFacts(s: Setup, b: int, h: int, y: int, warp: int)
    requires InGrid(s.g, b, h, y, warp)
    ensures JobOf(s, b, h, y, warp).warp < 4 && JobOf(s, b, h, y, warp).val == s.val
  {
  }

  /** A block that returns early changes nothing, and nothing was to change. */
  lemma SkippedWave(s: Setup, b: int, h: int, y: int, warp: int, lse: array?<Flt>, o: array<bv16>,
                    log2: real -> real, ln2: real, was: seq<bv16>, wasLse: seq<Flt>)
    requires IsSetup(s) && InGrid(s.g, b, h, y, warp) && MTileIdx(s.g, y) * 128 >= SeqlenQ(s.g, b)
    requires ODone(o, was, s, Point(b, y, h, warp)) && LseDone(lse, wasLse, s, log2, ln2, Point(b, y, h, warp))
    ensures ODone(o, was, s, Point(b, y, h, warp + 1)) && LseDone(lse, wasLse, s, log2, ln2, Point(b, y, h, warp + 1))
  {
    hide ExpectedO, ExpectedLse, OutputOf, LseOfRow, RowCell, LaneRow, RowsAt, JobOf, WriterFor, LseFirst, LseCell,
      IsLaunch, ValidRow, Before, IsSpot, ElementAt, IsElement, IsLseCell, Fits, LseApart;
    forall l ensures !ValidRow(RowsAt(s, b, h, y, warp), l) {
      EarlyReturnStoresNothing(s, b, h, y, warp, l);
    }
    hide InGrid, MTileIdx, SeqlenQ;
    WaveJoins(o, o[..], was, s, b, h, y, warp);
    if lse != null {
      LseJoins(lse, lse[..], wasLse, s, log2, ln2, b, h, y, warp);
    }
  }

  /** One wave of a block that has rows. */
  method LiveWave(s: Setup, b: int, h: int, y: int, warp: int, lds: array<bv16>, lse: array?<Flt>, o: array<bv16>,
                  log2: real -> real, ln2: real, ghost was: seq<bv16>, ghost wasLse: seq<Flt>)
    requires IsSetup(s) && InGrid(s.g, b, h, y, warp) && IsLds(lds)
    requires Apart(o, lse) && Apart(o, lds) && Apart(lds, lse)
    requires ODone(o, was, s, Point(b, y, h, warp)) && LseDone(lse, wasLse, s, log2, ln2, Point(b, y, h, warp))
    modifies lds, o, lse
    ensures ODone(o, was, s, Point(b, y, h, warp + 1)) && LseDone(lse, wasLse, s, log2, ln2, Point(b, y, h, warp + 1))
  {
    hide ExpectedO, ExpectedLse, OutputOf, LseOfRow, RowCell, LaneRow, RowsOf, JobOf, WriterFor, Base, LseBase,
      LseCell, InGrid, IsLaunch, ValidRow, Before, WaveCell, MTileIdx, SeqlenQ, IsSpot, ElementAt, IsElement,
      IsLseCell, Fits, LseApart;
    var job := JobOf(s, b, h, y, warp);
    var oBase, lseBase := OBase(s.g, b, h), LseBase(s.strideQ, s.g, b, h);
    JobFacts(s, b, h, y, warp);
    WaveFits(s, b, h, y, warp, o.Length);
    if lse != null {
      LseFits(s, b, h, y, warp, lse.Length);
    }
    ghost var before := o[..];
    ghost var beforeLse := if lse != null then lse[..] else [];
    FmhaWave(job, lds, lse, lseBase, o, oBase, s.g.o.row, log2, ln2);
    WaveJoins(o, before, was, s, b, h, y, warp);
    if lse != null {
      LseJoins(lse, beforeLse, wasLse, s, log2, ln2, b, h, y, warp);
    }
  }

  /** One wave of one block; varlen blocks past a short sequence return at once. */
  method RunWave(s: Setup, b: int, h: int, y: int, warp: int, lds: array<bv16>, lse: array?<Flt>, o: array<bv16>,
                 log2: real -> real, ln2: real, ghost was: seq<bv16>, ghost wasLse: seq<Flt>)
    requires IsSetup(s) && InGrid(s.g, b, h, y, warp) && IsLds(lds)
    requires Apart(o, lse) && Apart(o, lds) && Apart(lds, lse)
    requires ODone(o, was, s, Point(b, y, h, warp)) && LseDone(lse, wasLse, s, log2, ln2, Point(b, y, h, warp))
    modifies lds, o, lse
    ensures ODone(o, was, s, Point(b, y, h, warp + 1)) && LseDone(lse, wasLse, s, log2, ln2, Point(b, y, h, warp + 1))
  {
    hide ODone, LseDone, InGrid, IsSetup;
    if s.g.varlen && MTileIdx(s.g, y) * 128 >= SeqlenQ(s.g, b) {
      SkippedWave(s, b, h, y, warp, lse, o, log2, ln2, was, wasLse);
    } else {
      LiveWave(s, b, h, y, warp, lds, lse, o, log2, ln2, was, wasLse);
    }
  }

  lemma NothingRun(o: array<bv16>, lse: array?<Flt>, s: Setup, log2: real -> real, ln2: real)
    requires HasLengths(s.g) && Fits(s.g, o.Length) && (lse != null ==> LseApart(s.strideQ, s.g, lse.Length))
    ensures ODone(o, o[..], s, Point(0, 0, 0, 0))
    ensures LseDone(lse, if lse != null then lse[..] else [], s, log2, ln2, Point(0, 0, 0, 0))
  {
    hide HasLengths, WriterFor, ExpectedO, ExpectedLse, LseCell, IsSpot, RowStart;
    forall at, d | IsSpot(s.g, at) && 0 <= d < 64 ensures !Before(WriterFor(s.g, at, d), Point(0, 0, 0, 0)) {
      EveryElementIsStored(s.g, at, d);
    }
    hide Before;
  }

  /** O holds the expected value in every row, and what it held in between. */
  ghost predicate OComplete(o: array<bv16>, was: seq<bv16>, s: Setup)
    reads o
  {
    && o.Length == |was|
    && (forall at, d :: IsSpot(s.g, at) && 0 <= d < 64 ==>
          0 <= ElementAt(s.g, at, d) < o.Length && o[ElementAt(s.g, at, d)] == ExpectedO(s, at, d))
    && forall i :: 0 <= i < o.Length && !IsElement(s.g, i) ==> o[i] == was[i]
  }

  ghost predicate LseComplete(lse: array<Flt>, was: seq<Flt>, s: Setup, log2: real -> real, ln2: real)
    reads lse
  {
    && lse.Length == |was|
    && (forall at :: IsSpot(s.g, at) ==>
          0 <= LseCell(s.strideQ, s.g, at) < lse.Length
          && lse[LseCell(s.strideQ, s.g, at)] == ExpectedLse(s, log2, ln2, at))
    && forall i :: 0 <= i < lse.Length && !IsLseCell(s, i) ==> lse[i] == was[i]
  }

  lemma AllRun(o: array<bv16>, was: seq<bv16>, lse: array?<Flt>, wasLse: seq<Flt>, s: Setup, log2: real -> real,
               ln2: real)
    requires HasLengths(s.g)
    requires ODone(o, was, s, Point(s.g.batch, 0, 0, 0))
        && LseDone(lse, wasLse, s, log2, ln2, Point(s.g.batch, 0, 0, 0))
    ensures OComplete(o, was, s) && (lse != null ==> LseComplete(lse, wasLse, s, log2, ln2))
  {
    hide HasLengths, WriterFor, ExpectedO, ExpectedLse, LseCell, IsSpot, ElementAt, IsElement, IsLseCell, Fits,
      LseApart;
    forall at, d | IsSpot(s.g, at) && 0 <= d < 64 ensures Before(WriterFor(s.g, at, d), Point(s.g.batch, 0, 0, 0)) {
      EveryElementIsStored(s.g, at, d);
    }
    hide Before;
  }

  /** One block: its four waves. */
  method RunBlock(s: Setup, b: int, h: int, y: int, lds: array<bv16>, lse: array?<Flt>, o: array<bv16>,
                  log2: real -> real, ln2: real, ghost was: seq<bv16>, ghost wasLse: seq<Flt>)
    requires IsSetup(s) && 0 <= b < s.g.batch && 0 <= h < s.g.heads && 0 <= y < MTiles(s.g) && IsLds(lds)
    requires Apart(o, lse) && Apart(o, lds) && Apart(lds, lse)
    requires ODone(o, was, s, Point(b, y, h, 0)) && LseDone(lse, wasLse, s, log2, ln2, Point(b, y, h, 0))
    modifies lds, o, lse
    ensures ODone(o, was, s, Point(b, y, h + 1, 0)) && LseDone(lse, wasLse, s, log2, ln2, Point(b, y, h + 1, 0))
  {
    assert HasLengths(s.g);
    hide ODone, LseDone, IsSetup, HasLengths, IsLaunch, MTiles, Apart, IsLds;
    for warp := 0 to 4
      invariant ODone(o, was, s, Point(b, y, h, warp))
      invariant LseDone(lse, wasLse, s, log2, ln2, Point(b, y, h, warp))
    {
      RunWave(s, b, h, y, warp, lds, lse, o, log2, ln2, was, wasLse);
    }
    SkipTo(o, was, lse, wasLse, s, log2, ln2, Point(b, y, h, 4), Point(b, y, h + 1, 0));
  }

  /** The blocks of one query tile, over the heads. */
  method RunTile(s: Setup, b: int, y: int, lds: array<bv16>, lse: array?<Flt>, o: array<bv16>,
                 log2: real -> real, ln2: real, ghost was: seq<bv16>, ghost wasLse: seq<Flt>)
    requires IsSetup(s) && 0 <= b < s.g.batch && 0 <= y < MTiles(s.g) && IsLds(lds)
    requires Apart(o, lse) && Apart(o, lds) && Apart(lds, lse)
    requires ODone(o, was, s, Point(b, y, 0, 0)) && LseDone(lse, wasLse, s, log2, ln2, Point(b, y, 0, 0))
    modifies lds, o, lse
    ensures ODone(o, was, s, Point(b, y + 1, 0, 0)) && LseDone(lse, wasLse, s, log2, ln2, Point(b, y + 1, 0, 0))
  {
    assert HasLengths(s.g);
    hide ODone, LseDone, IsSetup, HasLengths, IsLaunch, MTiles, Apart, IsLds;
    for head := 0 to s.g.heads
      invariant ODone(o, was, s, Point(b, y, head, 0)) && LseDone(lse, wasLse, s, log2, ln2, Point(b, y, head, 0))
    {
      RunBlock(s, b, head, y, lds, lse, o, log2, ln2, was, wasLse);
    }
    SkipTo(o, was, lse, wasLse, s, log2, ln2, Point(b, y, s.g.heads, 0), Point(b, y + 1, 0, 0));
  }

  /** A whole launch, its blocks and waves in some order: every row of O and every log-sum-exp gets its value, and
      nothing else is written. */
  method RunLaunch(s: Setup, lse: array?<Flt>, o: array<bv16>, log2: real -> real, ln2: real)
    requires IsSetup(s) && Fits(s.g, o.Length) && (lse != null ==> LseApart(s.strideQ, s.g, lse.Length))
        && Apart(o, lse)
    modifies o, lse
    ensures OComplete(o, old(o[..]), s)
    ensures lse != null ==> LseComplete(lse, old(lse[..]), s, log2, ln2)
  {
    var lds := new bv16[6912](_ => 0);
    ghost var was := o[..];
    ghost var wasLse := if lse != null then lse[..] else [];
    assert HasLengths(s.g);
    hide ODone, LseDone, OComplete, LseComplete, IsSetup, HasLengths, IsLaunch, MTiles, Fits, LseApart;
    NothingRun(o, lse, s, log2, ln2);
    for batch := 0 to s.g.batch
      invariant ODone(o, was, s, Point(batch, 0, 0, 0)) && LseDone(lse, wasLse, s, log2, ln2, Point(batch, 0, 0, 0))
    {
      for y := 0 to MTiles(s.g)
        invariant ODone(o, was, s, Point(batch, y, 0, 0)) && LseDone(lse, wasLse, s, log2, ln2, Point(batch, y, 0, 0))
      {
        RunTile(s, batch, y, lds, lse, o, log2, ln2, was, wasLse);
      }
      SkipTo(o, was, lse, wasLse, s, log2, ln2, Point(batch, MTiles(s.g), 0, 0), Point(batch + 1, 0, 0, 0));
    }
    AllRun(o, was, lse, wasLse, s, log2, ln2);
  }

  /** Where the rows fill O, as in both dense layouts and in packed sequences, all of it has been written. */
  lemma NothingIsLeft(o: array<bv16>, was: seq<bv16>, s: Setup, i: int)
    requires OComplete(o, was, s) && Covers(s.g, o.Length) && 0 <= i < o.Length
    ensures exists at, d :: IsSpot(s.g, at) && 0 <= d < 64 && i == ElementAt(s.g, at, d) && o[i] == ExpectedO(s, at, d)
  {
    assert IsElement(s.g, i);
    hide ElementAt, ExpectedO, IsSpot, Fits;
    var at, d :| IsSpot(s.g, at) && 0 <= d < 64 && i == ElementAt(s.g, at, d);
    assert o[ElementAt(s.g, at, d)] == ExpectedO(s, at, d);
  }
}
