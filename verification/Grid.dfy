/** The launch: which block, wave, lane and store writes which element of O, dense or varlen, causal or not, for
    whatever strides keep the rows of O apart. */
module Grid {
  import opened Layout

  /** Strides of a tensor in elements: from row to row, head to head, sequence to sequence. */
  datatype Strides = Strides(row: int, head: int, batch: int)

  /** Dense: batch sequences of seqLen rows per head, offsets unused. Varlen: sequences of their own lengths, offsets[b]
      the running row offset, the grid sized for seqLen rows. O lies where its strides say. */
  datatype Launch =
    Launch(heads: nat, batch: nat, seqLen: nat, causal: bool, varlen: bool, offsets: seq<int>, o: Strides)

  function OffsetQ(g: Launch, b: int): int {
    if g.varlen && 0 <= b < |g.offsets| then g.offsets[b] else 0
  }

  function SeqlenQ(g: Launch, b: int): int {
    if g.varlen then OffsetQ(g, b + 1) - OffsetQ(g, b) else g.seqLen
  }

  /** Offsets are the running sums of some lengths, none above seqLen. */
  ghost predicate HasLengths(g: Launch) {
    g.varlen ==>
      && |g.offsets| == g.batch + 1 && g.offsets[0] == 0
      && forall b :: 0 <= b < g.batch ==> 0 <= SeqlenQ(g, b) <= g.seqLen
  }

  /** A row of some (batch, head). */
  datatype Spot = Spot(batch: int, head: int, row: int)

  predicate IsSpot(g: Launch, s: Spot) {
    0 <= s.batch < g.batch && 0 <= s.head < g.heads && 0 <= s.row < SeqlenQ(g, s.batch)
  }

  /** Element index of the first row of a (batch, head): a varlen tensor has no batch stride, its rows are packed. */
  function Base(st: Strides, g: Launch, b: int, h: int): int {
    if g.varlen then h * st.head + OffsetQ(g, b) * st.row else b * st.batch + h * st.head
  }

  function RowStart(st: Strides, g: Launch, at: Spot): int {
    Base(st, g, at.batch, at.head) + at.row * st.row
  }

  /** Element d of a row of O. */
  function ElementAt(g: Launch, at: Spot, d: int): int {
    RowStart(g.o, g, at) + d
  }

  /** Different rows occupy different windows of 64 elements. */
  ghost predicate RowsApart(g: Launch) {
    forall s, s' :: IsSpot(g, s) && IsSpot(g, s') && s != s' ==>
      RowStart(g.o, g, s) + 64 <= RowStart(g.o, g, s') || RowStart(g.o, g, s') + 64 <= RowStart(g.o, g, s)
  }

  ghost predicate IsLaunch(g: Launch) {
    HasLengths(g) && g.o.row >= 64 && RowsApart(g)
  }

  /** O has room for every row. */
  ghost predicate Fits(g: Launch, n: int) {
    forall s :: IsSpot(g, s) ==> 0 <= RowStart(g.o, g, s) && RowStart(g.o, g, s) + 64 <= n
  }

  /** Some row has an element here; what lies between the rows belongs to none. */
  ghost predicate IsElement(g: Launch, i: int) {
    exists at, d :: IsSpot(g, at) && 0 <= d < 64 && i == ElementAt(g, at, d)
  }

  lemma ElementsApart(g: Launch, s: Spot, d: int, s': Spot, d': int)
    requires RowsApart(g) && IsSpot(g, s) && IsSpot(g, s') && 0 <= d < 64 && 0 <= d' < 64
    ensures ElementAt(g, s, d) == ElementAt(g, s', d') ==> s == s' && d == d'
  {
    hide RowStart, IsSpot;
  }

  lemma SpotInLaunch(g: Launch, s: Spot)
    requires HasLengths(g) && IsSpot(g, s)
    ensures 0 <= s.row < g.seqLen
  {
    assert 0 <= SeqlenQ(g, s.batch) <= g.seqLen;
  }

  // ---- tiles, waves, lanes, stores ----

  function MTiles(g: Launch): nat {
    (g.seqLen + 127) / 128
  }

  /** Causal launches walk the tiles from the heavy end. */
  function MTileIdx(g: Launch, y: int): int {
    if g.causal then MTiles(g) - 1 - y else y
  }

  /** One element written by one lane: element c of its dwordx2 store. */
  datatype Writer = Writer(head: int, y: int, batch: int, warp: int, lane: int, store: int, c: int)

  function WriterRow(g: Launch, w: Writer): int {
    MTileIdx(g, w.y) * 128 + w.lane % 32 + 32 * w.warp
  }

  /** The lane exists, its block does not return early, and its row is in bounds. */
  predicate Stores(g: Launch, w: Writer) {
    && 0 <= w.head < g.heads && 0 <= w.y < MTiles(g) && 0 <= w.batch < g.batch
    && 0 <= w.warp < 4 && 0 <= w.lane < 64 && 0 <= w.store < 8 && 0 <= w.c < 4
    && MTileIdx(g, w.y) * 128 < SeqlenQ(g, w.batch)
    && WriterRow(g, w) < SeqlenQ(g, w.batch)
  }

  /** The address that the lane computes. */
  function Address(g: Launch, w: Writer): int {
    Base(g.o, g, w.batch, w.head) + WriterRow(g, w) * g.o.row + Swz((w.lane / 32) % 2 * 8) + 8 * w.store + w.c
  }

  function WriterSpot(g: Launch, w: Writer): Spot {
    Spot(w.batch, w.head, WriterRow(g, w))
  }

  function WriterColumn(w: Writer): int {
    8 * w.store + 4 * ((w.lane / 32) % 2) + w.c
  }

  /** The one writer of element d of a row. */
  function WriterFor(g: Launch, at: Spot, d: int): Writer {
    var mTile := at.row / 128;
    Writer(at.head, if g.causal then MTiles(g) - 1 - mTile else mTile, at.batch,
      (at.row % 128) / 32, at.row % 32 + 32 * ((d / 4) % 2), d / 8, d % 4)
  }

  lemma ColumnBase(k: int)
    requires 0 <= k < 2
    ensures Swz(k * 8) == 4 * k
  {
  }

  /** The address a lane computes is that of its row and column, whatever the strides. */
  lemma AddressIsRowAndColumn(g: Launch, w: Writer)
    ensures Address(g, w) == ElementAt(g, WriterSpot(g, w), WriterColumn(w))
  {
    ColumnBase((w.lane / 32) % 2);
    hide Base, WriterRow, Swz;
  }

  lemma ColumnDigits(w: Writer, d: int)
    requires 0 <= w.lane < 64 && 0 <= w.store < 8 && 0 <= w.c < 4
    ensures 0 <= WriterColumn(w) < 64
    ensures WriterColumn(w) == d <==> 0 <= d < 64 && w.store == d / 8 && w.lane / 32 == (d / 4) % 2 && w.c == d % 4
  {
  }

  /** Tile, wave and lane are the digits of a query row. */
  lemma RowDigits(g: Launch, w: Writer, row: int)
    requires 0 <= w.warp < 4 && 0 <= w.lane < 64
    ensures WriterRow(g, w) == row
       <==> MTileIdx(g, w.y) == row / 128 && w.warp == (row % 128) / 32 && w.lane % 32 == row % 32
  {
    var m, l := MTileIdx(g, w.y), w.lane % 32;
    if WriterRow(g, w) == row {
      DivMod(row, 128, m, 32 * w.warp + l);
      DivMod(row, 32, 4 * m + w.warp, l);
    } else if m == row / 128 && w.warp == (row % 128) / 32 && l == row % 32 {
      DivMod(row, 32, 4 * m + w.warp, (row % 128) % 32);
      assert false;
    }
  }

  lemma TileInGrid(g: Launch, row: int)
    requires 0 <= row < g.seqLen
    ensures 0 <= row / 128 < MTiles(g) && (row / 128) * 128 <= row
  {
  }

  lemma StoredRowIsSpot(g: Launch, w: Writer)
    requires Stores(g, w)
    ensures IsSpot(g, WriterSpot(g, w))
  {
  }

  lemma WriterOfStore(g: Launch, w: Writer)
    requires Stores(g, w)
    ensures WriterFor(g, WriterSpot(g, w), WriterColumn(w)) == w
  {
    ColumnDigits(w, WriterColumn(w));
    RowDigits(g, w, WriterRow(g, w));
    hide WriterColumn, WriterRow;
    assert w.lane == w.lane % 32 + 32 * (w.lane / 32);
  }

  /** Nothing is stored outside O or between its rows, and the storing lane is the writer of its row and column. */
  lemma StoresStayInside(g: Launch, w: Writer, n: int)
    requires Stores(g, w) && Fits(g, n)
    ensures IsSpot(g, WriterSpot(g, w)) && 0 <= WriterColumn(w) < 64
    ensures Address(g, w) == ElementAt(g, WriterSpot(g, w), WriterColumn(w)) && 0 <= Address(g, w) < n
    ensures WriterFor(g, WriterSpot(g, w), WriterColumn(w)) == w
  {
    StoredRowIsSpot(g, w);
    WriterOfStore(g, w);
    AddressIsRowAndColumn(g, w);
    ColumnDigits(w, WriterColumn(w));
    hide Address, RowStart, IsSpot, WriterColumn, WriterRow, WriterFor;
  }

  /** Every element of every row is stored, by the writer that WriterFor names. */
  lemma EveryElementIsStored(g: Launch, at: Spot, d: int)
    requires HasLengths(g) && IsSpot(g, at) && 0 <= d < 64
    ensures var w := WriterFor(g, at, d);
      Stores(g, w) && Address(g, w) == ElementAt(g, at, d) && WriterSpot(g, w) == at && WriterColumn(w) == d
  {
    var w := WriterFor(g, at, d);
    SpotInLaunch(g, at);
    TileInGrid(g, at.row);
    assert w.lane % 32 == at.row % 32 && w.lane / 32 == (d / 4) % 2;
    hide HasLengths, SeqlenQ, RowStart;
    RowDigits(g, w, at.row);
    ColumnDigits(w, d);
    AddressIsRowAndColumn(g, w);
    hide Address, WriterRow, WriterColumn;
  }

  /** Write-once: over all blocks, waves, lanes and stores, an element of O has exactly one writer. */
  lemma WrittenExactlyOnce(g: Launch, w: Writer, at: Spot, d: int)
    requires IsLaunch(g) && IsSpot(g, at) && 0 <= d < 64
    ensures Stores(g, w) && Address(g, w) == ElementAt(g, at, d) <==> w == WriterFor(g, at, d)
  {
    EveryElementIsStored(g, at, d);
    if Stores(g, w) && Address(g, w) == ElementAt(g, at, d) {
      StoredRowIsSpot(g, w);
      AddressIsRowAndColumn(g, w);
      hide Address, WriterFor, IsSpot, ElementAt;
      ColumnDigits(w, WriterColumn(w));
      ElementsApart(g, WriterSpot(g, w), WriterColumn(w), at, d);
      WriterOfStore(g, w);
    }
  }
}
