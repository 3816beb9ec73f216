/** How many 64-key tiles a 128-row query tile walks, and that it is neither too few nor too many. */
module CausalBound {
  import opened Attention

  /** C++ integer division: towards zero. */
  function TruncDiv(a: int, b: int): (q: int)
    requires b > 0
    ensures a >= 0 ==> b * q <= a < b * q + b
    ensures a < 0 ==> b * q - b < a <= b * q
  {
    if a >= 0 then a / b else -((-a) / b)
  }

  /** The last query row of the tile that exists. */
  function LastRow(x: Inputs, mTile: int): int {
    var last := mTile * 128 + 127;
    if last >= x.seqlenQ then x.seqlenQ - 1 else last
  }

  function SeqlenKEnd(x: Inputs, mTile: int): int {
    if !x.causal then x.seqlenK
    else
      var rawEnd := LastRow(x, mTile) + MaskShift(x) + 1;
      var clamped := if rawEnd > x.seqlenK then x.seqlenK else rawEnd;
      var end := TruncDiv(clamped + 63, 64) * 64;
      if end > x.seqlenK then x.seqlenK else end
  }

  function NumTotalLoop(x: Inputs, mTile: int): int {
    TruncDiv(SeqlenKEnd(x, mTile) + 63, 64)
  }

  predicate TileRow(x: Inputs, mTile: int, row: int) {
    mTile * 128 <= row < mTile * 128 + 128 && row < x.seqlenQ
  }

  /** One past the last key any row of the tile sees, or at most 0. */
  function VisibleEnd(x: Inputs, mTile: int): int {
    if x.causal && LastRow(x, mTile) + MaskShift(x) + 1 < x.seqlenK then LastRow(x, mTile) + MaskShift(x) + 1
      else x.seqlenK
  }

  /** The number of walked tiles is the visible end rounded up to tiles, for every sign and size of the mask shift. */
  lemma LoopCoversEnd(x: Inputs, mTile: int)
    ensures var n, end := NumTotalLoop(x, mTile), VisibleEnd(x, mTile);
      && (end <= 0 <==> n <= 0)
      && (end > 0 ==> 64 * (n - 1) < end <= 64 * n)
  {
  }

  lemma EndIsSeen(x: Inputs, mTile: int)
    requires 0 <= mTile && mTile * 128 < x.seqlenQ
    ensures TileRow(x, mTile, LastRow(x, mTile))
    ensures VisibleEnd(x, mTile) > 0 ==> Visible(x, LastRow(x, mTile), VisibleEnd(x, mTile) - 1)
    ensures forall row, key :: TileRow(x, mTile, row) && Visible(x, row, key) ==> key < VisibleEnd(x, mTile)
  {
  }

  /** Sound: every key that a row of the tile sees lies in a walked tile. */
  lemma VisibleKeysAreWalked(x: Inputs, mTile: int, row: int, key: int)
    requires 0 <= mTile && mTile * 128 < x.seqlenQ
    requires TileRow(x, mTile, row) && Visible(x, row, key)
    ensures 0 <= key < 64 * NumTotalLoop(x, mTile)
  {
    EndIsSeen(x, mTile);
    LoopCoversEnd(x, mTile);
  }

  /** Tight: the last walked tile holds a key that some row sees; nothing is walked exactly when no row sees a key. */
  lemma LastTileIsNeeded(x: Inputs, mTile: int)
    requires 0 <= mTile && mTile * 128 < x.seqlenQ
    ensures NumTotalLoop(x, mTile) <= 0 <==> forall row, key :: TileRow(x, mTile, row) ==> !Visible(x, row, key)
    ensures NumTotalLoop(x, mTile) > 0 ==>
      exists row, key :: TileRow(x, mTile, row) && Visible(x, row, key) && 64 * (NumTotalLoop(x, mTile) - 1) <= key
  {
    EndIsSeen(x, mTile);
    LoopCoversEnd(x, mTile);
    var row, key := LastRow(x, mTile), VisibleEnd(x, mTile) - 1;
    hide NumTotalLoop, VisibleEnd, LastRow;
    if key >= 0 {
      assert TileRow(x, mTile, row) && Visible(x, row, key);
    }
  }

  /** On a square causal problem tile i walks two KV tiles per query tile up to the diagonal, since a query tile
      is twice as tall as a KV tile is wide; a last tile that is not full walks the tiles of the whole sequence. */
  lemma SquareCausalTiles(x: Inputs, mTile: int)
    requires x.causal && x.seqlenQ == x.seqlenK && 0 <= mTile && mTile * 128 < x.seqlenQ
    ensures NumTotalLoop(x, mTile) == if 128 * (mTile + 1) <= x.seqlenQ then 2 * (mTile + 1) else (x.seqlenQ + 63) / 64
  {
    LoopCoversEnd(x, mTile);
    assert VisibleEnd(x, mTile) == if 128 * (mTile + 1) <= x.seqlenQ then 128 * (mTile + 1) else x.seqlenQ;
    hide NumTotalLoop, VisibleEnd;
  }
}
