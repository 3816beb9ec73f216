/** The layouts that tensors come in: [batch, head, row, 64], [batch, row, head, 64], and sequences packed back to back
    per head. Each satisfies what a launch asks for and is filled by its rows without a gap. */
module TensorLayouts {
  import opened Layout
  import opened Grid
  import opened CausalBound

  /** Rows per head over all sequences. */
  function TotalRows(g: Launch): int {
    if g.varlen then OffsetQ(g, g.batch) else g.seqLen
  }

  /** Rows of the whole tensor. */
  function ORows(g: Launch): int {
    if g.varlen then g.heads * TotalRows(g) else g.batch * g.heads * g.seqLen
  }

  /** Heads apart: [batch, head, row, 64], or [head, packed row, 64]. */
  function HeadMajor(g: Launch): Strides {
    Strides(64, TotalRows(g) * 64, if g.varlen then 0 else g.heads * (g.seqLen * 64))
  }

  /** Heads interleaved: [batch, row, head, 64], or [packed row, head, 64]. */
  function RowMajor(g: Launch): Strides {
    Strides(g.heads * 64, 64, if g.varlen then 0 else g.seqLen * (g.heads * 64))
  }

  /** The rows fill n elements: each element belongs to a row. */
  ghost predicate Covers(g: Launch, n: int) {
    Fits(g, n) && forall i :: 0 <= i < n ==> IsElement(g, i)
  }

  // ---- numbers of rows ----

  /** Digit r of base m and the rest q: q * m + r stays below n * m exactly when q stays below n. */
  lemma Digits(q: int, m: int, r: int, n: int)
    requires m > 0 && 0 <= r < m
    ensures (q * m + r) / m == q && (q * m + r) % m == r
    ensures 0 <= q < n <==> 0 <= q * m + r < n * m
  {
    assert q * m == m * q;
    DivMod(q * m + r, m, q, r);
    DigitsInRange(q, m, q * m, r, n, n * m);
  }

  lemma DigitsInRange(q: int, m: int, qm: int, r: int, n: int, nm: int)
    requires m > 0 && 0 <= r < m && qm == q * m && nm == n * m
    ensures 0 <= q < n <==> 0 <= qm + r < nm
  {
    if q < 0 {
      MulAtMost(q, -1, m);
    } else if q < n {
      MulAtMost(0, q, m);
      MulAtMost(q + 1, n, m);
    } else {
      MulAtMost(n, q, m);
    }
  }

  lemma MulAtMost(a: int, b: int, m: int)
    requires a <= b && m > 0
    ensures a * m <= b * m
  {
  }

  lemma Compose(i: int, m: int)
    requires m > 0
    ensures i == (i / m) * m + i % m && 0 <= i % m < m
  {
  }

  /** i as x * (m * n) + y * n + z, written with three digits. */
  function Number(x: int, m: int, y: int, n: int, z: int): int {
    (x * m + y) * n + z
  }

  lemma NumberDigits(x: int, m: int, y: int, n: int, z: int, count: int)
    requires m > 0 && n > 0 && 0 <= y < m && 0 <= z < n
    ensures var i := Number(x, m, y, n, z); (i / n) / m == x && (i / n) % m == y && i % n == z
    ensures 0 <= x < count <==> 0 <= Number(x, m, y, n, z) < count * m * n
  {
    Digits(x, m, y, count);
    Digits(x * m + y, n, z, count * m);
  }

  lemma NumberOfDigits(i: int, m: int, n: int, count: int)
    requires m > 0 && n > 0
    ensures Number((i / n) / m, m, (i / n) % m, n, i % n) == i
    ensures 0 <= i < count * m * n <==> 0 <= (i / n) / m < count
  {
    Compose(i, n);
    Compose(i / n, m);
    NumberDigits((i / n) / m, m, (i / n) % m, n, i % n, count);
  }

  // ---- packed sequences ----

  /** The sequence that packed row p belongs to, among the first n. */
  function SequenceOf(g: Launch, p: int, n: nat): int {
    if n == 0 then 0 else if OffsetQ(g, n - 1) <= p then n - 1 else SequenceOf(g, p, n - 1)
  }

  lemma {:induction false} OffsetsGrow(g: Launch, a: int, b: int)
    requires HasLengths(g) && g.varlen && 0 <= a <= b <= g.batch
    ensures 0 <= OffsetQ(g, a) <= OffsetQ(g, b)
    decreases b
  {
    if b == 0 {
    } else if a == b {
      OffsetsGrow(g, b - 1, b - 1);
      assert 0 <= SeqlenQ(g, b - 1);
    } else {
      OffsetsGrow(g, a, b - 1);
      assert 0 <= SeqlenQ(g, b - 1);
    }
  }

  /** A packed row lies in exactly one sequence, empty sequences included. */
  lemma {:induction false} SequenceIsUnique(g: Launch, p: int, n: nat, b: int)
    requires HasLengths(g) && g.varlen && n <= g.batch && 0 <= p < OffsetQ(g, n)
    ensures var s := SequenceOf(g, p, n); 0 <= s < n && OffsetQ(g, s) <= p < OffsetQ(g, s + 1)
    ensures 0 <= b < n && OffsetQ(g, b) <= p < OffsetQ(g, b + 1) ==> b == SequenceOf(g, p, n)
    decreases n
  {
    assert OffsetQ(g, 0) == 0;
    if OffsetQ(g, n - 1) <= p {
      if 0 <= b < n - 1 {
        OffsetsGrow(g, b + 1, n - 1);
      }
    } else {
      SequenceIsUnique(g, p, n - 1, b);
    }
  }

  /** The packed row of a spot, and back. */
  lemma PackedRow(g: Launch, at: Spot, p: int)
    requires HasLengths(g) && g.varlen && 0 <= at.batch < g.batch
    ensures 0 <= at.row < SeqlenQ(g, at.batch) && p == OffsetQ(g, at.batch) + at.row
       <==> 0 <= p < TotalRows(g) && at.batch == SequenceOf(g, p, g.batch) && at.row == p - OffsetQ(g, at.batch)
  {
    if 0 <= at.row < SeqlenQ(g, at.batch) && p == OffsetQ(g, at.batch) + at.row {
      OffsetsGrow(g, 0, at.batch);
      OffsetsGrow(g, at.batch + 1, g.batch);
      hide HasLengths, OffsetQ;
      SequenceIsUnique(g, p, g.batch, at.batch);
    }
    if 0 <= p < TotalRows(g) && at.batch == SequenceOf(g, p, g.batch) && at.row == p - OffsetQ(g, at.batch) {
      hide HasLengths, OffsetQ;
      SequenceIsUnique(g, p, g.batch, at.batch);
    }
  }

  // ---- heads apart ----

  /** The number of a row in a head-major tensor. */
  function RowIndex(g: Launch, at: Spot): int {
    if g.varlen then at.head * TotalRows(g) + (OffsetQ(g, at.batch) + at.row)
    else Number(at.batch, g.heads, at.head, g.seqLen, at.row)
  }

  function SpotOf(g: Launch, i: int): Spot {
    if g.varlen then
      var total := if TotalRows(g) > 0 then TotalRows(g) else 1;
      var b := SequenceOf(g, i % total, g.batch);
      Spot(b, i / total, i % total - OffsetQ(g, b))
    else
      var len, heads := if g.seqLen > 0 then g.seqLen else 1, if g.heads > 0 then g.heads else 1;
      Spot((i / len) / heads, (i / len) % heads, i % len)
  }

  lemma DenseRows(g: Launch, at: Spot, i: int)
    requires HasLengths(g) && !g.varlen
    ensures IsSpot(g, at) && i == RowIndex(g, at) <==> 0 <= i < ORows(g) && at == SpotOf(g, i)
  {
    if g.heads == 0 || g.seqLen == 0 {
      assert ORows(g) == 0;
    } else {
      NumberOfDigits(i, g.heads, g.seqLen, g.batch);
      if IsSpot(g, at) && i == RowIndex(g, at) {
        NumberDigits(at.batch, g.heads, at.head, g.seqLen, at.row, g.batch);
      }
      if 0 <= i < ORows(g) && at == SpotOf(g, i) {
        Compose(i, g.seqLen);
        Compose(i / g.seqLen, g.heads);
      }
    }
  }

  lemma PackedRows(g: Launch, at: Spot, i: int)
    requires HasLengths(g) && g.varlen
    ensures IsSpot(g, at) && i == RowIndex(g, at) <==> 0 <= i < ORows(g) && at == SpotOf(g, i)
  {
    OffsetsGrow(g, 0, g.batch);
    var total := TotalRows(g);
    hide HasLengths, OffsetQ;
    if IsSpot(g, at) && i == RowIndex(g, at) {
      var p := OffsetQ(g, at.batch) + at.row;
      PackedRow(g, at, p);
      Digits(at.head, total, p, g.heads);
    }
    if 0 <= i < ORows(g) && at == SpotOf(g, i) {
      if total == 0 {
        assert false;
      }
      Compose(i, total);
      Digits(i / total, total, i % total, g.heads);
      SequenceIsUnique(g, i % total, g.batch, 0);
      PackedRow(g, at, i % total);
    }
  }

  /** The rows are numbered once each by (batch, head, row), dense and packed. */
  lemma RowsAreNumberedOnce(g: Launch, at: Spot, i: int)
    requires HasLengths(g)
    ensures IsSpot(g, at) && i == RowIndex(g, at) <==> 0 <= i < ORows(g) && at == SpotOf(g, i)
  {
    hide HasLengths, IsSpot, SpotOf, ORows, RowIndex;
    if g.varlen {
      PackedRows(g, at, i);
    } else {
      DenseRows(g, at, i);
    }
  }

  /** Strides of a head-major tensor put a row where its number says. */
  lemma HeadMajorRow(g: Launch, at: Spot)
    ensures RowStart(HeadMajor(g), g, at) == 64 * RowIndex(g, at)
  {
    if g.varlen {
      assert at.head * (TotalRows(g) * 64) == (at.head * TotalRows(g)) * 64;
    } else {
      assert at.batch * (g.heads * (g.seqLen * 64)) == (at.batch * g.heads) * g.seqLen * 64;
      assert at.head * (g.seqLen * 64) == at.head * g.seqLen * 64;
      assert (at.batch * g.heads + at.head) * g.seqLen == (at.batch * g.heads) * g.seqLen + at.head * g.seqLen;
    }
  }

  // ---- heads interleaved ----

  /** The number of a row in a row-major tensor. */
  function RowMajorIndex(g: Launch, at: Spot): int {
    if g.varlen then (OffsetQ(g, at.batch) + at.row) * g.heads + at.head
    else Number(at.batch, g.seqLen, at.row, g.heads, at.head)
  }

  function RowMajorSpot(g: Launch, i: int): Spot {
    var len, heads := if g.seqLen > 0 then g.seqLen else 1, if g.heads > 0 then g.heads else 1;
    if g.varlen then
      var b := SequenceOf(g, i / heads, g.batch);
      Spot(b, i % heads, i / heads - OffsetQ(g, b))
    else Spot((i / heads) / len, i % heads, (i / heads) % len)
  }

  /** Rows of the whole tensor, counted row by row. */
  function RowMajorRows(g: Launch): int {
    if g.varlen then TotalRows(g) * g.heads else g.batch * g.seqLen * g.heads
  }

  lemma DenseRowMajor(g: Launch, at: Spot, i: int)
    requires !g.varlen
    ensures IsSpot(g, at) && i == RowMajorIndex(g, at) <==> 0 <= i < RowMajorRows(g) && at == RowMajorSpot(g, i)
  {
    if g.heads == 0 || g.seqLen == 0 {
      assert g.batch * g.seqLen * g.heads == 0;
    } else {
      NumberOfDigits(i, g.seqLen, g.heads, g.batch);
      if IsSpot(g, at) && i == RowMajorIndex(g, at) {
        NumberDigits(at.batch, g.seqLen, at.row, g.heads, at.head, g.batch);
      }
      if 0 <= i < RowMajorRows(g) && at == RowMajorSpot(g, i) {
        Compose(i, g.heads);
        Compose(i / g.heads, g.seqLen);
      }
    }
  }

  lemma PackedRowMajor(g: Launch, at: Spot, i: int)
    requires HasLengths(g) && g.varlen && g.heads > 0
    ensures IsSpot(g, at) && i == RowMajorIndex(g, at) <==> 0 <= i < RowMajorRows(g) && at == RowMajorSpot(g, i)
  {
    OffsetsGrow(g, 0, g.batch);
    hide HasLengths, OffsetQ;
    if IsSpot(g, at) && i == RowMajorIndex(g, at) {
      var p := OffsetQ(g, at.batch) + at.row;
      PackedRow(g, at, p);
      Digits(p, g.heads, at.head, TotalRows(g));
    }
    if 0 <= i < RowMajorRows(g) && at == RowMajorSpot(g, i) {
      Compose(i, g.heads);
      Digits(i / g.heads, g.heads, i % g.heads, TotalRows(g));
      SequenceIsUnique(g, i / g.heads, g.batch, 0);
      PackedRow(g, at, i / g.heads);
    }
  }

  lemma RowMajorRow(g: Launch, at: Spot)
    ensures RowStart(RowMajor(g), g, at) == 64 * RowMajorIndex(g, at)
  {
    if g.varlen {
      var p, q := OffsetQ(g, at.batch), at.row;
      assert p * (g.heads * 64) == (p * g.heads) * 64 && q * (g.heads * 64) == (q * g.heads) * 64;
      assert (p + q) * g.heads == p * g.heads + q * g.heads;
    } else {
      assert at.batch * (g.seqLen * (g.heads * 64)) == ((at.batch * g.seqLen) * g.heads) * 64;
      assert at.row * (g.heads * 64) == (at.row * g.heads) * 64;
      assert (at.batch * g.seqLen + at.row) * g.heads == (at.batch * g.seqLen) * g.heads + at.row * g.heads;
    }
  }

  // ---- a numbering makes a launch ----

  /** Rows that start at 64 times numbers which they and 0 .. rows determine mutually lie apart and leave no gap. */
  lemma NumberedIsLaunch(g: Launch, number: Spot -> int, spot: int -> Spot, rows: int)
    requires HasLengths(g) && g.o.row >= 64
    requires forall at :: RowStart(g.o, g, at) == 64 * number(at)
    requires forall at, i :: IsSpot(g, at) && i == number(at) <==> 0 <= i < rows && at == spot(i)
    ensures IsLaunch(g) && Covers(g, 64 * rows)
  {
    hide RowStart, IsSpot, HasLengths;
    forall s, s' | IsSpot(g, s) && IsSpot(g, s') && s != s'
      ensures RowStart(g.o, g, s) + 64 <= RowStart(g.o, g, s') || RowStart(g.o, g, s') + 64 <= RowStart(g.o, g, s) {
      assert s == spot(number(s)) && s' == spot(number(s'));
    }
    forall s | IsSpot(g, s) ensures 0 <= RowStart(g.o, g, s) && RowStart(g.o, g, s) + 64 <= 64 * rows {
      assert s == spot(number(s)) && 0 <= number(s) < rows;
    }
    forall i | 0 <= i < 64 * rows ensures IsElement(g, i) {
      var n, d := i / 64, i % 64;
      assert IsSpot(g, spot(n)) && n == number(spot(n));
      assert i == ElementAt(g, spot(n), d);
    }
  }

  /** [batch, head, row, 64] tensors and packed sequences are launches, and every element of O belongs to a row. */
  lemma HeadMajorIsLaunch(g: Launch)
    requires HasLengths(g) && g.o == HeadMajor(g)
    ensures IsLaunch(g) && Covers(g, 64 * ORows(g))
  {
    assert g.o.row == 64;
    hide HasLengths, RowStart, IsSpot, RowIndex, SpotOf, ORows, HeadMajor, IsLaunch, Covers;
    forall at ensures RowStart(g.o, g, at) == 64 * RowIndex(g, at) {
      HeadMajorRow(g, at);
    }
    forall at, i ensures IsSpot(g, at) && i == RowIndex(g, at) <==> 0 <= i < ORows(g) && at == SpotOf(g, i) {
      RowsAreNumberedOnce(g, at, i);
    }
    NumberedIsLaunch(g, at => RowIndex(g, at), i => SpotOf(g, i), ORows(g));
  }

  /** So are tensors whose heads are interleaved, [batch, row, head, 64] and [packed row, head, 64]. */
  lemma RowMajorIsLaunch(g: Launch)
    requires HasLengths(g) && g.heads > 0 && g.o == RowMajor(g)
    ensures IsLaunch(g) && Covers(g, 64 * RowMajorRows(g))
  {
    assert g.o.row >= 64;
    hide HasLengths, RowStart, IsSpot, RowMajorIndex, RowMajorSpot, RowMajorRows, RowMajor, IsLaunch, Covers;
    forall at ensures RowStart(g.o, g, at) == 64 * RowMajorIndex(g, at) {
      RowMajorRow(g, at);
    }
    forall at, i ensures IsSpot(g, at) && i == RowMajorIndex(g, at)
                    <==> 0 <= i < RowMajorRows(g) && at == RowMajorSpot(g, i) {
      if g.varlen {
        PackedRowMajor(g, at, i);
      } else {
        DenseRowMajor(g, at, i);
      }
    }
    NumberedIsLaunch(g, at => RowMajorIndex(g, at), i => RowMajorSpot(g, i), RowMajorRows(g));
  }

  // ---- the reference's flat grid ----

  /** The row that a reference thread decodes from its flat number. */
  function RefSpot(g: Launch, tid: int): Spot {
    var len, heads := if g.seqLen > 0 then g.seqLen else 1, if g.heads > 0 then g.heads else 1;
    Spot(tid / (heads * len), (tid / len) % heads, tid % len)
  }

  /** The thread is in the grid and does not return early, as those past a short sequence do. */
  predicate RefRuns(g: Launch, tid: int) {
    0 <= tid < g.batch * g.heads * g.seqLen && RefSpot(g, tid).row < SeqlenQ(g, RefSpot(g, tid).batch)
  }

  lemma TwoDivisions(tid: int, m: int, n: int)
    requires m > 0 && n > 0
    ensures tid / (m * n) == (tid / n) / m
  {
    var x, y, z := (tid / n) / m, (tid / n) % m, tid % n;
    NumberOfDigits(tid, m, n, 0);
    Digits(y, n, z, m);
    MulAtMost(1, m, n);
    assert (x * m + y) * n + z == (m * n) * x + (y * n + z) by {
      assert (x * m + y) * n == (m * n) * x + y * n;
    }
    DivMod(tid, m * n, x, y * n + z);
  }

  /** Each row has one reference thread, dense and varlen: the thread's number is that of the row in a grid of
      seqLen rows per (batch, head). */
  lemma RefThreadOwnsRow(g: Launch, at: Spot, tid: int)
    requires HasLengths(g)
    ensures IsSpot(g, at) && tid == Number(at.batch, g.heads, at.head, g.seqLen, at.row)
       <==> RefRuns(g, tid) && at == RefSpot(g, tid)
  {
    if g.heads == 0 || g.seqLen == 0 {
      assert g.batch * g.heads * g.seqLen == 0;
      if IsSpot(g, at) {
        SpotInLaunch(g, at);
      }
    } else {
      TwoDivisions(tid, g.heads, g.seqLen);
      NumberOfDigits(tid, g.heads, g.seqLen, g.batch);
      Compose(tid, g.seqLen);
      Compose(tid / g.seqLen, g.heads);
      if IsSpot(g, at) {
        SpotInLaunch(g, at);
        hide HasLengths;
        NumberDigits(at.batch, g.heads, at.head, g.seqLen, at.row, g.batch);
      }
    }
  }

  /** The reference addresses a row by all three strides; the kernel leaves the batch stride out of packed tensors,
      where it is zero. */
  function RefRowStart(st: Strides, g: Launch, at: Spot): int {
    at.batch * st.batch + at.head * st.head + (if g.varlen then OffsetQ(g, at.batch) + at.row else at.row) * st.row
  }

  lemma RefRowAgrees(st: Strides, g: Launch, at: Spot)
    requires g.varlen ==> st.batch == 0
    ensures RefRowStart(st, g, at) == RowStart(st, g, at)
  {
    assert (OffsetQ(g, at.batch) + at.row) * st.row == OffsetQ(g, at.batch) * st.row + at.row * st.row;
  }

  // ---- log-sum-exp ----

  /** A stride of Q in rows, by C++ division. */
  function InRows(q: Strides, stride: int): int {
    if q.row > 0 then TruncDiv(stride, q.row) else 0
  }

  /** Index of the first log-sum-exp of a (batch, head). */
  function LseBase(q: Strides, g: Launch, b: int, h: int): int {
    if g.varlen then h * InRows(q, q.head) + OffsetQ(g, b) else b * (g.heads * g.seqLen) + h * g.seqLen
  }

  function LseCell(q: Strides, g: Launch, at: Spot): int {
    LseBase(q, g, at.batch, at.head) + at.row
  }

  /** Different rows have different cells, all of them among the first n. */
  ghost predicate LseApart(q: Strides, g: Launch, n: int) {
    && (forall s :: IsSpot(g, s) ==> 0 <= LseCell(q, g, s) < n)
    && forall s, s' :: IsSpot(g, s) && IsSpot(g, s') && s != s' ==> LseCell(q, g, s) != LseCell(q, g, s')
  }

  /** The cell is the row's number: in every dense launch whatever its strides, and in a packed one whose Q is
      head-major for some row stride. */
  lemma LseCellIsRowIndex(q: Strides, g: Launch, at: Spot)
    requires g.varlen ==> InRows(q, q.head) == TotalRows(g)
    ensures LseCell(q, g, at) == RowIndex(g, at)
  {
    if !g.varlen {
      assert at.batch * (g.heads * g.seqLen) == (at.batch * g.heads) * g.seqLen;
      assert (at.batch * g.heads + at.head) * g.seqLen == (at.batch * g.heads) * g.seqLen + at.head * g.seqLen;
    }
  }

  lemma LseRowsApart(q: Strides, g: Launch)
    requires HasLengths(g) && (g.varlen ==> InRows(q, q.head) == TotalRows(g))
    ensures LseApart(q, g, ORows(g))
  {
    hide HasLengths, LseCell, RowIndex, IsSpot, ORows, SpotOf, TotalRows;
    forall s | IsSpot(g, s) ensures 0 <= LseCell(q, g, s) < ORows(g) && s == SpotOf(g, LseCell(q, g, s)) {
      LseCellIsRowIndex(q, g, s);
      RowsAreNumberedOnce(g, s, RowIndex(g, s));
    }
  }

  /** The reference's index, from the quotients of Q's strides. */
  function RefLseIndex(q: Strides, g: Launch, at: Spot): int {
    at.batch * InRows(q, q.batch) + at.head * InRows(q, q.head)
      + (if g.varlen then OffsetQ(g, at.batch) + at.row else at.row)
  }

  /** Reference and kernel put a row's log-sum-exp at the same place exactly when Q's strides are those of the
      log-sum-exp tensor times the row stride: always for packed tensors; for dense ones the head stride has to be
      seqLen rows and the batch stride heads * seqLen rows, unless there is only one of them. */
  lemma LseIndexAgrees(q: Strides, g: Launch)
    requires HasLengths(g) && q.row > 0 && (g.varlen ==> q.batch == 0) && g.seqLen > 0 && g.heads > 0
    ensures (forall at :: IsSpot(g, at) ==> RefLseIndex(q, g, at) == LseCell(q, g, at))
       <==> g.varlen || g.batch == 0 || (
              && (g.heads == 1 || InRows(q, q.head) == g.seqLen)
              && (g.batch == 1 || InRows(q, q.batch) == g.heads * g.seqLen))
  {
    if g.varlen {
      assert InRows(q, q.batch) == 0;
    } else {
      var agree := forall at :: IsSpot(g, at) ==> RefLseIndex(q, g, at) == LseCell(q, g, at);
      if agree && g.batch > 0 {
        if g.heads > 1 {
          assert IsSpot(g, Spot(0, 1, 0));
          assert RefLseIndex(q, g, Spot(0, 1, 0)) == LseCell(q, g, Spot(0, 1, 0));
        }
        if g.batch > 1 {
          assert IsSpot(g, Spot(1, 0, 0));
          assert RefLseIndex(q, g, Spot(1, 0, 0)) == LseCell(q, g, Spot(1, 0, 0));
        }
      }
    }
  }

  lemma SmallQuotient(a: int, b: int)
    requires 0 <= a < b
    ensures TruncDiv(a, b) == 0
  {
    var q := TruncDiv(a, b);
    hide TruncDiv;
    if q >= 1 {
      MulAtMost(1, q, b);
    } else if q <= -1 {
      MulAtMost(q, -1, b);
    }
  }

  lemma InterleavedHeadStride(g: Launch)
    requires g.heads > 1
    ensures InRows(RowMajor(g), RowMajor(g).head) == 0
  {
    SmallQuotient(64, g.heads * 64);
  }

  /** Interleaved heads are a dense layout where they do not: two heads share a cell of the reference. */
  lemma InterleavedRefCollides(g: Launch)
    requires !g.varlen && g.heads > 1 && g.batch > 0 && g.seqLen > 0
    ensures RefLseIndex(RowMajor(g), g, Spot(0, 0, 0)) == RefLseIndex(RowMajor(g), g, Spot(0, 1, 0))
    ensures LseCell(RowMajor(g), g, Spot(0, 0, 0)) != LseCell(RowMajor(g), g, Spot(0, 1, 0))
  {
    InterleavedHeadStride(g);
    hide InRows;
  }

  /** In packed tensors with interleaved heads the kernel's own cells collide, too: the head does not enter. */
  lemma PackedInterleavedCollides(g: Launch, at: Spot, head: int)
    requires g.varlen && g.heads > 1 && IsSpot(g, at) && 0 <= head < g.heads
    ensures IsSpot(g, at.(head := head)) && LseCell(RowMajor(g), g, at.(head := head)) == LseCell(RowMajor(g), g, at)
  {
    InterleavedHeadStride(g);
    hide InRows;
  }
}
