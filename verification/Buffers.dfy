/** Host-side sizes, strides and packed-sequence offsets. */
module Buffers {
  import opened Grid
  import opened TensorLayouts
  import opened CausalBound

  /** Rows of the first n sequences. */
  function RowsBefore(seqs: seq<nat>, n: int): nat {
    if n <= 0 || n > |seqs| then 0 else RowsBefore(seqs, n - 1) + seqs[n - 1]
  }

  method SumLengths(seqs: seq<nat>) returns (total: nat)
    ensures total == RowsBefore(seqs, |seqs|)
  {
    total := 0;
    for i := 0 to |seqs|
      invariant total == RowsBefore(seqs, i)
    {
      total := total + seqs[i];
    }
  }

  lemma EmptyPrefix(seqs: seq<nat>)
    ensures RowsBefore(seqs, 0) == 0
  {
  }

  lemma NextPrefix(seqs: seq<nat>, i: nat)
    requires i < |seqs|
    ensures RowsBefore(seqs, i + 1) == RowsBefore(seqs, i) + seqs[i]
  {
  }

  /** A table of running row offsets. */
  ghost predicate IsPrefixTable(offsets: seq<int>, seqs: seq<nat>) {
    |offsets| == |seqs| + 1 && forall i :: 0 <= i <= |seqs| ==> offsets[i] == RowsBefore(seqs, i)
  }

  method PrefixOffsets(seqs: seq<nat>) returns (offsets: seq<int>)
    ensures IsPrefixTable(offsets, seqs)
  {
    var table := new int[|seqs| + 1](_ => 0);
    hide RowsBefore;
    EmptyPrefix(seqs);
    for i := 0 to |seqs|
      invariant forall n :: 0 <= n <= i ==> table[n] == RowsBefore(seqs, n)
    {
      NextPrefix(seqs, i);
      table[i + 1] := table[i] + seqs[i];
    }
    offsets := table[..];
  }

  /** Sizes in elements, strides in bytes, offsets only for packed sequences. */
  class FmhaBuffers {
    var totalSeqlen: int
    var szQ: int
    var szK: int
    var szV: int
    var szO: int
    var szLse: int
    var strideQSeq: int
    var strideQTg: int
    var strideQHead: int
    var strideQBatch: int
    var strideKSeq: int
    var strideKHead: int
    var strideKBatch: int
    var offsets: seq<int>

    constructor (batch: nat, qHeads: nat, kvHeads: nat, seqLen: nat, kvSeqLen: nat, subQ: nat, varlenSeqs: seq<nat>)
      ensures totalSeqlen == RowsBefore(varlenSeqs, |varlenSeqs|)
      ensures strideQSeq == strideKSeq == 128 && strideQTg == subQ * 128
      ensures szQ == szO && szK == szV && szO == 64 * szLse
      ensures varlenSeqs == [] ==> offsets == []
      ensures varlenSeqs == [] ==>
        && szLse == batch * qHeads * seqLen && szK == 64 * (batch * kvHeads * kvSeqLen)
        && strideQHead == seqLen * 128 && strideQBatch == qHeads * (seqLen * 128)
        && strideKHead == kvSeqLen * 128 && strideKBatch == kvHeads * (kvSeqLen * 128)
      ensures varlenSeqs != [] ==> IsPrefixTable(offsets, varlenSeqs)
      ensures varlenSeqs != [] ==>
        && szLse == qHeads * totalSeqlen && szK == 64 * (kvHeads * totalSeqlen)
        && strideQHead == strideKHead == totalSeqlen * 128 && strideQBatch == strideKBatch == 0
    {
      var varlenMode := varlenSeqs != [];
      var total := SumLengths(varlenSeqs);
      totalSeqlen := total;
      szQ := if varlenMode then qHeads * total * 64 else batch * qHeads * seqLen * 64;
      szK := if varlenMode then kvHeads * total * 64 else batch * kvHeads * kvSeqLen * 64;
      szV := if varlenMode then kvHeads * total * 64 else batch * kvHeads * kvSeqLen * 64;
      szO := if varlenMode then qHeads * total * 64 else batch * qHeads * seqLen * 64;
      szLse := if varlenMode then qHeads * total else batch * qHeads * seqLen;
      strideQSeq := 64 * 2;
      strideQTg := subQ * (64 * 2);
      strideQHead := if varlenMode then total * (64 * 2) else seqLen * (64 * 2);
      strideQBatch := if varlenMode then 0 else qHeads * (seqLen * (64 * 2));
      strideKSeq := 64 * 2;
      strideKHead := if varlenMode then total * (64 * 2) else kvSeqLen * (64 * 2);
      strideKBatch := if varlenMode then 0 else kvHeads * (kvSeqLen * (64 * 2));
      var prefix := PrefixOffsets(varlenSeqs);
      offsets := if varlenMode then prefix else [];
    }

    /** The launch these buffers are for: strides in elements, Q and O alike. */
    function LaunchOf(batch: nat, qHeads: nat, seqLen: nat, causal: bool): Launch
      reads this
    {
      Launch(qHeads, batch, seqLen, causal, offsets != [], offsets,
        Strides(strideQSeq / 2, strideQHead / 2, strideQBatch / 2))
    }

    /** K and V of that launch. */
    function KeysOf(batch: nat, kvHeads: nat, kvSeqLen: nat, causal: bool): Launch
      reads this
    {
      Launch(kvHeads, batch, kvSeqLen, causal, offsets != [], offsets,
        Strides(strideKSeq / 2, strideKHead / 2, strideKBatch / 2))
    }
  }

  /** Such a table gives each sequence its length. */
  lemma OffsetsMakeLengths(g: Launch, seqs: seq<nat>)
    requires g.varlen && g.batch == |seqs| && IsPrefixTable(g.offsets, seqs)
    requires forall i :: 0 <= i < |seqs| ==> seqs[i] <= g.seqLen
    ensures HasLengths(g) && TotalRows(g) == RowsBefore(seqs, |seqs|)
    ensures forall b :: 0 <= b < |seqs| ==> SeqlenQ(g, b) == seqs[b]
  {
    forall b | 0 <= b < |seqs| ensures SeqlenQ(g, b) == seqs[b] {
      NextPrefix(seqs, b);
      assert g.offsets[b + 1] == RowsBefore(seqs, b + 1) && g.offsets[b] == RowsBefore(seqs, b);
    }
    EmptyPrefix(seqs);
    assert g.offsets[0] == RowsBefore(seqs, 0);
  }

  /** Halved byte strides are those of head-major tensors, dense or packed. */
  lemma StridesAgree(g: Launch, seqStride: int, headStride: int, batchStride: int)
    requires seqStride == 128 && headStride == TotalRows(g) * 128
    requires batchStride == if g.varlen then 0 else g.heads * (g.seqLen * 128)
    ensures Strides(seqStride / 2, headStride / 2, batchStride / 2) == HeadMajor(g)
  {
    assert g.heads * (g.seqLen * 128) == 2 * (g.heads * (g.seqLen * 64));
  }

  /** What the constructor builds is a launch: the rows of O lie apart and fill it, one log-sum-exp for each, and K
      has room for all its rows. Packed: the grid is sized for the longest sequence. */
  method BuildLaunch(batch: nat, qHeads: nat, kvHeads: nat, seqLen: nat, kvSeqLen: nat, subQ: nat, seqs: seq<nat>,
                     causal: bool)
    returns (g: Launch, keys: Launch, szO: int, szK: int, szLse: int)
    requires seqs != [] ==> batch == |seqs| && forall i :: 0 <= i < |seqs| ==> seqs[i] <= seqLen && seqs[i] <= kvSeqLen
    ensures g.heads == qHeads && g.batch == batch && g.seqLen == seqLen && g.causal == causal
        && g.varlen == (seqs != [])
    ensures IsLaunch(g) && Covers(g, szO) && szO == 64 * ORows(g) && LseApart(g.o, g, szLse) && szLse == ORows(g)
    ensures keys.heads == kvHeads && IsLaunch(keys) && Covers(keys, szK)
    ensures g.varlen ==> g.o.batch == keys.o.batch == 0
    ensures forall at :: IsSpot(g, at) ==> RefLseIndex(g.o, g, at) == LseCell(g.o, g, at)
    ensures seqs != [] ==> forall b :: 0 <= b < batch ==> SeqlenQ(g, b) == SeqlenQ(keys, b) == seqs[b]
  {
    var bufs := new FmhaBuffers(batch, qHeads, kvHeads, seqLen, kvSeqLen, subQ, seqs);
    g, keys := bufs.LaunchOf(batch, qHeads, seqLen, causal), bufs.KeysOf(batch, kvHeads, kvSeqLen, causal);
    szO, szK, szLse := bufs.szO, bufs.szK, bufs.szLse;
    if seqs != [] {
      OffsetsMakeLengths(g, seqs);
      OffsetsMakeLengths(keys, seqs);
    }
    StridesAgree(g, bufs.strideQSeq, bufs.strideQHead, bufs.strideQBatch);
    StridesAgree(keys, bufs.strideKSeq, bufs.strideKHead, bufs.strideKBatch);
    hide RowStart, Covers, LseApart, RowsBefore;
    HeadMajorIsLaunch(g);
    HeadMajorIsLaunch(keys);
    HeadStrideInRows(g);
    LseRowsApart(g.o, g);
    hide LseCell, RefLseIndex, IsSpot, HeadMajor, IsLaunch, InRows;
    forall at | IsSpot(g, at) ensures RefLseIndex(g.o, g, at) == LseCell(g.o, g, at) {
      HeadMajorIndex(g, at);
    }
  }

  lemma WholeRows(n: int)
    ensures TruncDiv(n * 64, 64) == n
  {
  }

  lemma HeadStrideInRows(g: Launch)
    requires g.o == HeadMajor(g)
    ensures InRows(g.o, g.o.head) == TotalRows(g)
    ensures InRows(g.o, g.o.batch) == if g.varlen then 0 else g.heads * g.seqLen
  {
    var n, m := TotalRows(g), g.heads * g.seqLen;
    hide TotalRows, TruncDiv;
    WholeRows(n);
    WholeRows(m);
    WholeRows(0);
    assert g.heads * (g.seqLen * 64) == m * 64;
  }

  /** On the host's buffers the reference's log-sum-exp index is the kernel's. */
  lemma HeadMajorIndex(g: Launch, at: Spot)
    requires g.o == HeadMajor(g)
    ensures RefLseIndex(g.o, g, at) == LseCell(g.o, g, at)
  {
    HeadStrideInRows(g);
    hide InRows, HeadMajor;
    if !g.varlen {
      assert TotalRows(g) == g.seqLen;
    }
  }
}
