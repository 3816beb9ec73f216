/** The index maps of the kernel: register layout, swizzle, LDS offsets and their inverses. */
module Layout {

  /** Euclidean division has one answer. */
  lemma DivMod(x: int, m: int, q: int, r: int)
    requires m > 0 && 0 <= r < m && x == m * q + r
    ensures x / m == q && x % m == r
  {
    var q', r' := x / m, x % m;
    assert x == m * q' + r';
    assert m * (q - q') == m * q - m * q';
    if q != q' {
      MultipleIsLarge(m, q - q');
      assert false;
    }
  }

  lemma MultipleIsLarge(m: int, k: int)
    requires m > 0 && k != 0
    ensures m * k >= m || m * k <= -m
  {
    if k >= 1 {
      assert m * k >= m * 1;
    } else {
      assert m * k <= m * -1;
    }
  }

  /** Swaps bits 2 and 3 of x. */
  function Swz(x: nat): nat {
    x - 4 * ((x / 4) % 2) - 8 * ((x / 8) % 2) + 8 * ((x / 4) % 2) + 4 * ((x / 8) % 2)
  }

  /** The row of an accumulator element, as the MFMA unit lays it out over lane and register. */
  function AccRow(lane: int, r: int): int {
    (r / 4) * 8 + (lane / 32) * 4 + r % 4
  }

  /** The free dimension of register r once the A operand was read swizzled. */
  function Free(lane: int, r: int): int {
    (r / 8) * 16 + (lane / 32) * 8 + r % 8
  }

  /** LDS element offset of K element (row j, headdim d) within one buffer holding 32 headdims. */
  function LdsElemOffset(j: int, d: int): int {
    (j % 4) * 136 + ((j / 4) % 4) * 32 + (j / 16) * 544 + d % 32 + (d / 32) * 2304
  }

  /** LDS element offset of V element (row n, headdim d) within one buffer holding 32 rows. */
  function VLdsElemOffset(n: int, d: int): int {
    ((n % 32) / 8) * 576 + (d / 8) * 72 + (d % 8) * 8 + (n % 32) % 8
  }

  function BufBase(buf: int): int {
    buf * 2304
  }

  predicate LaneReg(lane: int, r: int) {
    0 <= lane < 64 && 0 <= r < 16
  }

  /** The swizzle is its own inverse, and takes an accumulator row to the register's free dimension. */
  lemma SwzInverse(x: nat)
    requires x < 32
    ensures Swz(x) < 32 && Swz(Swz(x)) == x
  {
    hide Swz;
    var y := x / 4;
    var z := y / 2;
    var a, b, c, e := x % 4, y % 2, z % 2, z / 2;
    assert x == 4 * y + a && y == 2 * z + b && z == 2 * e + c;
    SwzDigits(a, b, c, e);
    SwzDigits(a, c, b, e);
  }

  lemma SwzDigits(a: nat, b: nat, c: nat, e: nat)
    requires a < 4 && b < 2 && c < 2
    ensures Swz(16 * e + 8 * c + 4 * b + a) == 16 * e + 8 * b + 4 * c + a
  {
    var x := 16 * e + 8 * c + 4 * b + a;
    DivMod(x, 4, 4 * e + 2 * c + b, a);
    DivMod(x, 8, 2 * e + c, 4 * b + a);
    DivMod(x / 4, 2, 2 * e + c, b);
    DivMod(x / 8, 2, e, c);
  }

  lemma AccRowSwizzled(lane: int, r: int)
    requires LaneReg(lane, r)
    ensures 0 <= AccRow(lane, r) < 32 && 0 <= Free(lane, r) < 32
    ensures Swz(AccRow(lane, r)) == Free(lane, r)
    ensures Swz(Free(lane, r)) == AccRow(lane, r)
  {
    var a, b, e, k := r % 4, (r / 4) % 2, r / 8, lane / 32;
    assert r == 8 * e + 4 * b + a && 0 <= k < 2 && 0 <= e < 2;
    DivMod(r, 4, 2 * e + b, a);
    DivMod(r, 8, e, 4 * b + a);
    assert AccRow(lane, r) == 16 * e + 8 * b + 4 * k + a;
    assert Free(lane, r) == 16 * e + 8 * k + 4 * b + a;
    hide Swz, AccRow, Free;
    SwzDigits(a, k, b, e);
    SwzDigits(a, b, k, e);
  }

  /** The lanes of one half hold 32 columns between them, each in one register, and the other half the rest. */
  lemma FreeCoversOnce(n: int)
    requires 0 <= n < 32
    ensures forall lane, r :: LaneReg(lane, r) ==>
              (Free(lane, r) == n <==> lane / 32 == (n / 8) % 2 && r == (n / 16) * 8 + n % 8)
  {
  }

  // ---- inverse of the K layout ----

  /** A cell that holds data rather than padding. */
  predicate KUsed(e: int) {
    0 <= e < 2176 && e % 136 < 128
  }

  function KCellWarp(e: int): int {
    (e % 544) / 136
  }

  function KCellIssue(e: int): int {
    e / 544
  }

  function KCellLane(e: int): int {
    (e % 136) / 2
  }

  /** Row and headdim (within the half) whose element the cell holds. */
  function KCellRow(e: int): int {
    KCellIssue(e) * 16 + (KCellLane(e) / 16) * 4 + KCellWarp(e)
  }

  function KCellCol(e: int): int {
    (KCellLane(e) % 16) * 2 + e % 2
  }

  lemma KOffsetInverse(j: int, d: int)
    requires 0 <= j < 64 && 0 <= d < 32
    ensures var e := LdsElemOffset(j, d);
      KUsed(e) && KCellRow(e) == j && KCellCol(e) == d && KCellWarp(e) == j % 4 && KCellIssue(e) == j / 16
  {
    hide LdsElemOffset, KUsed, KCellRow, KCellCol, KCellWarp, KCellIssue, KCellLane;
    var w, m, i := j % 4, (j / 4) % 4, j / 16;
    assert j == 16 * i + 4 * m + w;
    KCellAt(i, w, m, d);
    KCellOf(i, w, 32 * m + d);
  }

  /** Slab, warp and place within the warp's 136 elements are the digits of a cell. */
  lemma KCellOf(i: int, w: int, x: int)
    requires 0 <= i < 4 && 0 <= w < 4 && 0 <= x < 128
    ensures var e := 544 * i + 136 * w + x;
      KUsed(e) && KCellWarp(e) == w && KCellIssue(e) == i && KCellLane(e) == x / 2 && e % 2 == x % 2
  {
    var e := 544 * i + 136 * w + x;
    DivMod(e, 544, i, 136 * w + x);
    DivMod(e % 544, 136, w, x);
    DivMod(e, 136, 4 * i + w, x);
    DivMod(e, 2, 272 * i + 68 * w + x / 2, x % 2);
  }

  /** The cell that a lane's dword of one issue starts at, in elements from the buffer base: m0 plus 4 bytes a lane. */
  function KSlabCell(warp: int, issue: int, lane: int): int {
    136 * warp + 544 * issue + 2 * lane
  }

  lemma KCellDecomposes(e: int)
    requires KUsed(e)
    ensures e == KSlabCell(KCellWarp(e), KCellIssue(e), KCellLane(e)) + e % 2
    ensures 0 <= KCellWarp(e) < 4 && 0 <= KCellIssue(e) < 4 && 0 <= KCellLane(e) < 64
    ensures 0 <= KCellRow(e) < 64 && 0 <= KCellCol(e) < 32
    ensures LdsElemOffset(KCellRow(e), KCellCol(e)) == e
  {
    hide LdsElemOffset, KUsed, KCellRow, KCellCol, KCellWarp, KCellIssue, KCellLane;
    var i, w, x := KSlabDigits(e);
    KCellFromDigits(i, w, x);
  }

  lemma KCellFromDigits(i: int, w: int, x: int)
    requires 0 <= i < 4 && 0 <= w < 4 && 0 <= x < 128
    ensures var e := 544 * i + 136 * w + x;
      && e == KSlabCell(KCellWarp(e), KCellIssue(e), KCellLane(e)) + e % 2
      && 0 <= KCellWarp(e) < 4 && 0 <= KCellIssue(e) < 4 && 0 <= KCellLane(e) < 64
      && 0 <= KCellRow(e) < 64 && 0 <= KCellCol(e) < 32
      && LdsElemOffset(KCellRow(e), KCellCol(e)) == e
  {
    hide LdsElemOffset, KUsed, KCellRow, KCellCol, KCellWarp, KCellIssue, KCellLane;
    var m, d := x / 32, x % 32;
    assert x == 32 * m + d;
    KCellOf(i, w, x);
    KCellAt(i, w, m, d);
  }

  lemma KSlabDigits(e: int) returns (i: int, w: int, x: int)
    requires KUsed(e)
    ensures e == 544 * i + 136 * w + x && 0 <= i < 4 && 0 <= w < 4 && 0 <= x < 128
  {
    i, w, x := e / 544, (e % 544) / 136, e % 136;
    DivMod(e, 136, 4 * i + w, (e % 544) % 136);
  }

  lemma KCellAt(i: int, w: int, m: int, d: int)
    requires 0 <= i < 4 && 0 <= w < 4 && 0 <= m < 4 && 0 <= d < 32
    ensures LdsElemOffset(16 * i + 4 * m + w, d) == 544 * i + 136 * w + 32 * m + d
    ensures var e := 544 * i + 136 * w + 32 * m + d; KCellRow(e) == 16 * i + 4 * m + w && KCellCol(e) == d
  {
    hide LdsElemOffset, KUsed, KCellWarp, KCellIssue, KCellLane;
    KOffsetAt(i, w, m, d);
    KCellOf(i, w, 32 * m + d);
    var e, half := 544 * i + 136 * w + 32 * m + d, d / 2;
    assert e == 544 * i + 136 * w + (32 * m + d);
    DivMod(32 * m + d, 2, 16 * m + half, d % 2);
    DivMod(16 * m + half, 16, m, half);
    assert KCellLane(e) == 16 * m + half && e % 2 == d % 2;
  }

  lemma KOffsetAt(i: int, w: int, m: int, d: int)
    requires 0 <= i < 4 && 0 <= w < 4 && 0 <= m < 4 && 0 <= d < 32
    ensures LdsElemOffset(16 * i + 4 * m + w, d) == 544 * i + 136 * w + 32 * m + d
  {
    var j := 16 * i + 4 * m + w;
    DivMod(j, 4, 4 * i + m, w);
    DivMod(4 * i + m, 4, i, m);
    DivMod(j, 16, i, 4 * m + w);
    assert d % 32 == d && d / 32 == 0;
  }

  // ---- inverse of the V layout ----

  predicate VUsed(e: int) {
    0 <= e < 2304 && e % 72 < 64
  }

  function VCellRow(e: int): int {
    (e / 576) * 8 + e % 8
  }

  function VCellCol(e: int): int {
    ((e % 576) / 72) * 8 + (e % 72) / 8
  }

  lemma VOffsetInverse(n: int, d: int)
    requires 0 <= n < 32 && 0 <= d < 64
    ensures var e := VLdsElemOffset(n, d);
      VUsed(e) && VCellRow(e) == n && VCellCol(e) == d
  {
    hide VUsed, VCellRow, VCellCol, VLdsElemOffset;
    assert n == 8 * (n / 8) + n % 8 && d == 8 * (d / 8) + d % 8;
    VCellAt(n / 8, n % 8, d / 8, d % 8);
  }

  lemma VCellAt(k: int, m: int, a: int, b: int)
    requires 0 <= k < 4 && 0 <= m < 8 && 0 <= a < 8 && 0 <= b < 8
    ensures VLdsElemOffset(8 * k + m, 8 * a + b) == 576 * k + 72 * a + 8 * b + m
    ensures var e := 576 * k + 72 * a + 8 * b + m;
      VUsed(e) && VCellRow(e) == 8 * k + m && VCellCol(e) == 8 * a + b
  {
    var n, d, e := 8 * k + m, 8 * a + b, 576 * k + 72 * a + 8 * b + m;
    assert n % 32 == n;
    DivMod(n, 8, k, m);
    DivMod(d, 8, a, b);
    DivMod(e, 576, k, 72 * a + 8 * b + m);
    DivMod(e % 576, 72, a, 8 * b + m);
    DivMod(e, 72, 8 * k + a, 8 * b + m);
    DivMod(e, 8, 72 * k + 9 * a + b, m);
    DivMod(e % 72, 8, b, m);
  }

  lemma VCellDecomposes(e: int)
    requires VUsed(e)
    ensures 0 <= VCellRow(e) < 32 && 0 <= VCellCol(e) < 64
    ensures VLdsElemOffset(VCellRow(e), VCellCol(e)) == e
  {
    hide VUsed, VCellRow, VCellCol, VLdsElemOffset;
    var k, a, x := VSlabDigits(e);
    VCellFromDigits(k, a, x);
  }

  lemma VCellFromDigits(k: int, a: int, x: int)
    requires 0 <= k < 4 && 0 <= a < 8 && 0 <= x < 64
    ensures var e := 576 * k + 72 * a + x;
      0 <= VCellRow(e) < 32 && 0 <= VCellCol(e) < 64 && VLdsElemOffset(VCellRow(e), VCellCol(e)) == e
  {
    hide VUsed, VCellRow, VCellCol, VLdsElemOffset;
    var b, m := x / 8, x % 8;
    assert x == 8 * b + m;
    VCellAt(k, m, a, b);
  }

  lemma VSlabDigits(e: int) returns (k: int, a: int, x: int)
    requires VUsed(e)
    ensures e == 576 * k + 72 * a + x && 0 <= k < 4 && 0 <= a < 8 && 0 <= x < 64
  {
    k, a, x := e / 576, (e % 576) / 72, e % 72;
    DivMod(e, 72, 8 * k + a, (e % 576) % 72);
  }

  /** Eight consecutive headdims of a K row, and eight consecutive rows of a V column, lie side by side. */
  lemma OctetContiguous(j: int, d: int, n: int, h: int, c: int)
    requires 0 <= j < 64 && 0 <= d < 32 && d % 8 == 0 && 0 <= n < 32 && n % 8 == 0 && 0 <= h < 64 && 0 <= c < 8
    ensures LdsElemOffset(j, d + c) == LdsElemOffset(j, d) + c
    ensures VLdsElemOffset(n + c, h) == VLdsElemOffset(n, h) + c
  {
    KRowOctet(d, c);
    VRowOctet(n, c);
  }

  lemma KRowOctet(d: int, c: int)
    requires 0 <= d < 32 && d % 8 == 0 && 0 <= c < 8
    ensures (d + c) % 32 + ((d + c) / 32) * 2304 == d % 32 + (d / 32) * 2304 + c
  {
  }

  lemma VRowOctet(n: int, c: int)
    requires 0 <= n < 32 && n % 8 == 0 && 0 <= c < 8
    ensures ((n + c) % 32) / 8 == (n % 32) / 8 && ((n + c) % 32) % 8 == (n % 32) % 8 + c
  {
    assert (n + c) % 32 == n + c && n % 32 == n;
    DivMod(n + c, 8, n / 8, c);
  }
}
