/** What the invariant of the LDS protocol gives: intact reads, no races, no deadlock, and an end to every run. */
module LdsSafety {
  import opened LdsProtocol

  // ---- every read finds its tile ----

  /** While some warp multiplies with a K half, every warp has all four of its copies of that half behind it. */
  lemma KPeers(numTiles: int, p: Pos, p': Pos, issue: int)
    requires PosOk(numTiles, p) && PosOk(numTiles, p') && Segment(numTiles, p) == Segment(numTiles, p')
    ensures p.pc.Gemm00? ==>
              K0Claim(numTiles, p') == Claim(p.tile, 4) && CopyK(p.tile, 0, issue) !in Outstanding(numTiles, p')
    ensures p.pc.Gemm01? ==> K1Claim(p') == Claim(p.tile, 4) && CopyK(p.tile, 1, issue) !in Outstanding(numTiles, p')
  {
    hide V0Claim, V1Claim, Reg0Claim, Reg1Claim, Ds0Claim, Ds1Claim;
  }

  lemma VPeers(numTiles: int, p: Pos, p': Pos)
    requires PosOk(numTiles, p) && PosOk(numTiles, p') && Segment(numTiles, p) == Segment(numTiles, p')
    ensures p.pc.Gemm10? ==> V0Claim(numTiles, p') == Claim(p.tile, 2) && Ds0Claim(p').n == 0
    ensures p.pc.Gemm11? ==> V1Claim(p') == Claim(p.tile, 2) && Ds1Claim(p').n == 0
  {
    hide Outstanding, K0Claim, K1Claim, Reg0Claim, Reg1Claim;
  }

  /** As long as a warp is in a GEMM0 sub-tile, every cell of the K half it reads holds the current tile,
      whichever warp copied it. */
  lemma KReadIsIntact(g: Geometry, numTiles: int, s: State, w: int, w': int, e: int)
    requires Inv(g, numTiles, s) && 0 <= w < WARPS && 0 <= w' < WARPS
    requires g.k(e).KSlot? && g.k(e).warp == w' && 0 <= g.k(e).issue < 4
    ensures var p := s.warps[w].at;
      && (p.pc.Gemm00? ==> s.lds(LDS_SEQ[0], e) == KTag(p.tile, 0))
      && (p.pc.Gemm01? ==> s.lds(LDS_SEQ[1], e) == KTag(p.tile, 1))
  {
    var u := s.warps[w'];
    assert WarpOk(numTiles, s.warps[w]) && WarpOk(numTiles, u) && Claims(g, numTiles, s.lds, w', u);
    assert Segment(numTiles, s.warps[w].at) == Segment(numTiles, u.at);
    KPeers(numTiles, s.warps[w].at, u.at, g.k(e).issue);
    hide PosOk, Outstanding, K0Claim, K1Claim, V0Claim, V1Claim, Segment, VHolds, RegsHold, DsOk, Inv;
    assert u.flying <= Elements(Outstanding(numTiles, u.at));
  }

  /** The same for the V half a GEMM1 sub-tile reads. */
  lemma VReadIsIntact(g: Geometry, numTiles: int, s: State, w: int, w': int, e: int)
    requires Inv(g, numTiles, s) && 0 <= w < WARPS && 0 <= w' < WARPS
    requires g.v(e).VSlot? && g.v(e).warp == w' && 0 <= g.v(e).write < 2 && 0 <= g.v(e).k3 < 2
    ensures var p := s.warps[w].at;
      && (p.pc.Gemm10? ==> s.lds(LDS_SEQ[2], e) == VTag(p.tile, 0))
      && (p.pc.Gemm11? ==> s.lds(LDS_SEQ[3], e) == VTag(p.tile, 1))
  {
    var u := s.warps[w'];
    assert WarpOk(numTiles, s.warps[w]) && WarpOk(numTiles, u) && Claims(g, numTiles, s.lds, w', u);
    assert Segment(numTiles, s.warps[w].at) == Segment(numTiles, u.at);
    VPeers(numTiles, s.warps[w].at, u.at);
    hide PosOk, Outstanding, K0Claim, K1Claim, V0Claim, V1Claim, Ds0Claim, Ds1Claim, Segment, KHolds, RegsHold,
      QueueOk, Inv;
  }

  // ---- no races ----

  /** The buffers a warp reads between the barrier behind it and the one ahead. */
  function SegmentReads(numTiles: int, p: Pos): set<int> {
    match p.pc
    case Gemm00 | Fence0 | BarB => {LDS_SEQ[0]}
    case LoadV0 | Gemm01 | FenceV0 | StoreV0 | LoadV1 | LgkmA | BarC => {LDS_SEQ[1]}
    case Gemm10 | FenceV1 | StoreV1 | BarD => {LDS_SEQ[2]}
    case LgkmB | BarE => if LastTile(numTiles, p) then {LDS_SEQ[2]} else {}
    case Gemm11 | Done => {LDS_SEQ[3]}
    case CopyK1 | Fence4 | BarA => if p.tile > 0 then {LDS_SEQ[3]} else {}
    case Prologue | CopyK0 => {}
  }

  /** A sub-tile's buffer counts as read from the sub-tile on, until the warp is past its next barrier. */
  lemma ReadsAreTracked(numTiles: int, p: Pos)
    requires PosOk(numTiles, p)
    ensures p.pc.Gemm00? || p.pc.Gemm10? ==> 1 in SegmentReads(numTiles, p)
    ensures p.pc.Gemm01? ==> 2 in SegmentReads(numTiles, p)
    ensures p.pc.Gemm11? ==> 0 in SegmentReads(numTiles, p)
    ensures !AtBarrier(p.pc) && !p.pc.Done? ==>
              SegmentReads(numTiles, p) <= SegmentReads(numTiles, NextPos(numTiles, p))
  {
    hide Outstanding, K0Claim, K1Claim, V0Claim, V1Claim, Reg0Claim, Reg1Claim, Ds0Claim, Ds1Claim;
  }

  lemma ReadSegments(numTiles: int, p: Pos)
    requires PosOk(numTiles, p)
    ensures forall b :: b in SegmentReads(numTiles, p) ==>
              || (b == 0 && Segment(numTiles, p) % 5 == 0)
              || (b == 1 && Segment(numTiles, p) % 5 in {1, 3})
              || (b == 2 && Segment(numTiles, p) % 5 == 2)
  {
    hide Outstanding, K0Claim, K1Claim, V0Claim, V1Claim, Reg0Claim, Reg1Claim, Ds0Claim, Ds1Claim;
  }

  lemma FillSegments(numTiles: int, p: Pos, op: VmOp)
    requires PosOk(numTiles, p)
    ensures op in Outstanding(numTiles, p) && op.CopyK? && op.half == 1 ==> Segment(numTiles, p) % 5 in {0, 1}
    ensures Ds1Claim(p).n > 0 ==> Segment(numTiles, p) % 5 in {3, 4}
  {
    hide K0Claim, K1Claim, V0Claim, V1Claim, Reg0Claim, Reg1Claim, Ds0Claim;
  }

  lemma CopyMissesReads(numTiles: int, p: Pos, p': Pos, op: VmOp)
    requires PosOk(numTiles, p) && PosOk(numTiles, p') && Segment(numTiles, p) == Segment(numTiles, p')
    requires op in Outstanding(numTiles, p) && op.CopyK?
    ensures KBuf(op.half) !in SegmentReads(numTiles, p')
  {
    OutstandingOps(numTiles, p, op);
    FillSegments(numTiles, p, op);
    ReadSegments(numTiles, p');
    hide PosOk, Outstanding, Segment, SegmentReads, K0Claim, K1Claim, Reg0Claim, Reg1Claim, Ds1Claim;
  }

  lemma WriteMissesReads(numTiles: int, p: Pos, p': Pos)
    requires PosOk(numTiles, p) && PosOk(numTiles, p') && Segment(numTiles, p) == Segment(numTiles, p')
    ensures Ds0Claim(p).n > 0 ==> VBuf(0) !in SegmentReads(numTiles, p')
    ensures Ds1Claim(p).n > 0 ==> VBuf(1) !in SegmentReads(numTiles, p')
  {
    ClaimSegments(numTiles, p);
    FillSegments(numTiles, p, LoadQ(0));
    ReadSegments(numTiles, p');
    hide PosOk, Outstanding, Segment, SegmentReads, K0Claim, V0Claim, V1Claim, Ds0Claim, Ds1Claim;
  }

  /** Nothing on its way to LDS targets a buffer that any warp still reads in its barrier segment. */
  lemma NoRace(g: Geometry, numTiles: int, s: State, w: int, w': int)
    requires Inv(g, numTiles, s) && 0 <= w < WARPS && 0 <= w' < WARPS
    ensures forall op :: op in s.warps[w].flying && op.CopyK? ==>
              KBuf(op.half) !in SegmentReads(numTiles, s.warps[w'].at)
    ensures forall d :: d in s.warps[w].ds ==> VBuf(d.half) !in SegmentReads(numTiles, s.warps[w'].at)
  {
    hide Outstanding, Ds0Claim, Ds1Claim, Segment, SegmentReads, RegsHold, Claims, KBuf, VBuf, IsSuffix;
    var u, p, p' := s.warps[w], s.warps[w].at, s.warps[w'].at;
    assert WarpOk(numTiles, u) && WarpOk(numTiles, s.warps[w']);
    assert p.k >= 0;
    hide PosOk;
    assert Segment(numTiles, p) == Segment(numTiles, p');
    hide Inv;
    forall op | op in u.flying && op.CopyK? ensures KBuf(op.half) !in SegmentReads(numTiles, p') {
      FlyingIsOutstanding(numTiles, u, op);
      CopyMissesReads(numTiles, p, p', op);
    }
    WriteMissesReads(numTiles, p, p');
    assert DsOk(u);
    hide WarpOk;
  }

  lemma FlyingIsOutstanding(numTiles: int, u: Warp, op: VmOp)
    requires u.at.k >= 0 && QueueOk(numTiles, u) && op in u.flying
    ensures op in Outstanding(numTiles, u.at)
  {
    hide Outstanding;
  }

  /** Warps are never a barrier apart, and a release finds all of them at the same barrier statement. */
  lemma BarriersMatch(g: Geometry, numTiles: int, s: State, w: int, w': int)
    requires Inv(g, numTiles, s) && 0 <= w < WARPS && 0 <= w' < WARPS
    ensures Segment(numTiles, s.warps[w].at) == Segment(numTiles, s.warps[w'].at)
    ensures s.warps[w].waiting && s.warps[w'].waiting ==> s.warps[w].at == s.warps[w'].at
  {
    assert WarpOk(numTiles, s.warps[w]) && WarpOk(numTiles, s.warps[w']);
    assert Segment(numTiles, s.warps[w].at) == Segment(numTiles, s.warps[w'].at);
    if s.warps[w].waiting && s.warps[w'].waiting {
      ReleaseSegment(numTiles, s.warps[w].at, s.warps[w'].at);
    }
  }

  // ---- progress ----

  ghost predicate Finished(s: State) {
    forall w :: 0 <= w < |s.warps| ==> s.warps[w].at.pc.Done?
  }

  lemma DoneIsNotBarrier(numTiles: int, p: Pos, p': Pos)
    requires PosOk(numTiles, p) && PosOk(numTiles, p') && Segment(numTiles, p) == Segment(numTiles, p')
    requires p.pc.Done?
    ensures !AtBarrier(p'.pc)
  {
    hide Outstanding, K0Claim, K1Claim, V0Claim, V1Claim, Reg0Claim, Reg1Claim, Ds0Claim, Ds1Claim;
  }

  /** A warp with work to do and nothing under way can move on or is held at a barrier. */
  lemma WarpMoves(numTiles: int, s: State, w: int) returns (step: Step)
    requires 0 <= w < |s.warps| && WarpOk(numTiles, s.warps[w])
    requires !s.warps[w].waiting && !s.warps[w].at.pc.Done?
    ensures Enabled(s, step)
  {
    var u := s.warps[w];
    hide PosOk, Outstanding, RegsHold, DsOk;
    if op :| op in u.flying {
      step := Land(w, op);
    } else if |u.vm| > 0 {
      step := Retire(w);
    } else if d :| d in u.ds {
      step := Write(w, d);
    } else {
      step := Advance(w);
    }
  }

  /** No reachable state is stuck before every warp is done. */
  lemma NoDeadlock(g: Geometry, numTiles: int, s: State) returns (step: Step)
    requires Inv(g, numTiles, s) && !Finished(s)
    ensures Enabled(s, step)
  {
    hide PosOk, Segment, Claims, QueueOk, RegsHold, DsOk;
    var w :| 0 <= w < |s.warps| && !s.warps[w].at.pc.Done?;
    if v :| 0 <= v < |s.warps| && !s.warps[v].waiting && !s.warps[v].at.pc.Done? {
      step := WarpMoves(numTiles, s, v);
    } else {
      assert s.warps[w].waiting;
      forall v | 0 <= v < |s.warps| ensures s.warps[v].waiting {
        if s.warps[v].at.pc.Done? {
          DoneIsNotBarrier(numTiles, s.warps[v].at, s.warps[w].at);
        }
      }
      step := Release;
    }
  }

  // ---- every run ends ----

  function PcRank(pc: Pc): int {
    match pc
    case Prologue => 0 case CopyK1 => 1 case Fence4 => 2 case BarA => 3 case Gemm00 => 4 case Fence0 => 5
    case BarB => 6 case LoadV0 => 7 case Gemm01 => 8 case FenceV0 => 9 case StoreV0 => 10 case LoadV1 => 11
    case LgkmA => 12 case BarC => 13 case Gemm10 => 14 case FenceV1 => 15 case StoreV1 => 16 case BarD => 17
    case CopyK0 => 18 case LgkmB => 19 case BarE => 20 case Gemm11 => 21 case Done => 22
  }

  /** Steps of its own that a warp has ahead of it, at most. */
  function Remaining(numTiles: int, p: Pos, waiting: bool): int {
    100 * (numTiles - p.tile) - 4 * PcRank(p.pc) - p.k - (if waiting then 1 else 0)
  }

  function WarpMeasure(numTiles: int, u: Warp): int {
    3 * Remaining(numTiles, u.at, u.waiting) + |u.vm| + |u.flying| + |u.ds|
  }

  function Measure(numTiles: int, s: State): int
    requires |s.warps| == WARPS
  {
    WarpMeasure(numTiles, s.warps[0]) + WarpMeasure(numTiles, s.warps[1])
    + WarpMeasure(numTiles, s.warps[2]) + WarpMeasure(numTiles, s.warps[3])
  }

  lemma RemainingNonneg(numTiles: int, p: Pos, waiting: bool)
    requires PosOk(numTiles, p)
    ensures 0 <= Remaining(numTiles, p, waiting) <= 100 * numTiles
  {
  }

  lemma AdvanceShortens(numTiles: int, p: Pos)
    requires PosOk(numTiles, p) && !p.pc.Done?
    ensures Remaining(numTiles, NextPos(numTiles, p), false) < Remaining(numTiles, p, false)
    ensures AtBarrier(p.pc) ==> Remaining(numTiles, After(numTiles, p), false) < Remaining(numTiles, p, true)
  {
  }

  lemma UnionSize<T>(a: set<T>, b: set<T>)
    ensures |a + b| <= |a| + |b|
  {
    assert a + b == a + (b - a);
    assert |a + (b - a)| == |a| + |b - a|;
    assert |b| == |b - a| + |b * a|;
  }

  /** One step queues at most two operations, and none at a barrier. */
  lemma QueuesGrow(numTiles: int, u: Warp)
    ensures var v := AdvanceWarp(numTiles, u);
      |v.vm| + |v.flying| + |v.ds| <= |u.vm| + |u.flying| + |u.ds| + if AtBarrier(u.at.pc) then 0 else 2
  {
    hide NextPos, NextOp;
    UnionSize(u.flying, {NextOp(u.at)});
    UnionSize(u.ds, StoredV(u, 0));
    UnionSize(u.ds, StoredV(u, 1));
  }

  lemma WarpShortens(numTiles: int, u: Warp)
    requires WarpOk(numTiles, u) && CanAdvance(u)
    ensures WarpMeasure(numTiles, AdvanceWarp(numTiles, u)) < WarpMeasure(numTiles, u)
  {
    hide NextPos, NextOp, After, PcRank, QueueOk, RegsHold, DsOk;
    AdvanceShortens(numTiles, u.at);
    hide PosOk;
    QueuesGrow(numTiles, u);
    var v := AdvanceWarp(numTiles, u);
    assert v.at == if AtBarrier(u.at.pc) then u.at else NextPos(numTiles, u.at);
    assert !u.waiting && v.waiting == AtBarrier(u.at.pc);
    hide AdvanceWarp, CanAdvance, WarpOk;
    if AtBarrier(u.at.pc) {
      assert Remaining(numTiles, v.at, true) == Remaining(numTiles, u.at, false) - 1;
    }
    hide Remaining;
  }

  lemma OneShorter(numTiles: int, ws: seq<Warp>, lds: (int, int) -> Tag, lds': (int, int) -> Tag, w: int, u: Warp)
    requires |ws| == WARPS && 0 <= w < WARPS
    requires WarpMeasure(numTiles, u) < WarpMeasure(numTiles, ws[w])
    ensures Measure(numTiles, State(ws[w := u], lds')) < Measure(numTiles, State(ws, lds))
  {
    hide WarpMeasure;
  }

  lemma LandShortens(numTiles: int, u: Warp, op: VmOp)
    requires op in u.flying
    ensures WarpMeasure(numTiles, LandWarp(u, op)) < WarpMeasure(numTiles, u)
  {
    hide Remaining;
    assert |u.flying - {op}| < |u.flying|;
  }

  lemma WriteShortens(numTiles: int, u: Warp, d: DsWrite)
    requires d in u.ds
    ensures WarpMeasure(numTiles, u.(ds := u.ds - {d})) < WarpMeasure(numTiles, u)
  {
    hide Remaining;
    assert |u.ds - {d}| < |u.ds|;
  }

  lemma RetireShortens(numTiles: int, u: Warp)
    requires |u.vm| > 0
    ensures WarpMeasure(numTiles, RetireWarp(u)) < WarpMeasure(numTiles, u)
  {
    hide Remaining;
  }

  lemma AllShorter(g: Geometry, numTiles: int, s: State)
    requires Inv(g, numTiles, s) && Enabled(s, Release)
    ensures |Apply(g, numTiles, s, Release).warps| == WARPS
    ensures Measure(numTiles, Apply(g, numTiles, s, Release)) < Measure(numTiles, s)
  {
    hide Claims, SameSegment, After, WarpMeasure, ReleaseWarp, WarpOk;
    forall w | 0 <= w < WARPS
      ensures WarpMeasure(numTiles, ReleaseWarp(numTiles, s.warps[w])) < WarpMeasure(numTiles, s.warps[w]) {
      assert WarpOk(numTiles, s.warps[w]);
      ReleaseShortens(numTiles, s.warps[w]);
    }
  }

  /** The measure falls with every step of a reachable state, and never below zero. */
  lemma StepShortens(g: Geometry, numTiles: int, s: State, step: Step)
    requires Inv(g, numTiles, s) && Enabled(s, step)
    ensures |Apply(g, numTiles, s, step).warps| == WARPS
    ensures 0 <= Measure(numTiles, Apply(g, numTiles, s, step)) < Measure(numTiles, s)
  {
    StepKeeps(g, numTiles, s, step);
    MeasureNonneg(g, numTiles, Apply(g, numTiles, s, step));
    hide Claims, SameSegment, After, AdvanceWarp, LandIn, LandWarp, RetireWarp, ReleaseWarp, WriteIn, CanAdvance,
      Measure, WarpMeasure, WarpOk;
    match step
    case Land(w, op) =>
      LandShortens(numTiles, s.warps[w], op);
      OneShorter(numTiles, s.warps, s.lds, LandIn(g, s.lds, w, op), w, LandWarp(s.warps[w], op));
    case Retire(w) =>
      RetireShortens(numTiles, s.warps[w]);
      OneShorter(numTiles, s.warps, s.lds, s.lds, w, RetireWarp(s.warps[w]));
    case Write(w, d) =>
      WriteShortens(numTiles, s.warps[w], d);
      OneShorter(numTiles, s.warps, s.lds, WriteIn(g, s.lds, w, d), w, s.warps[w].(ds := s.warps[w].ds - {d}));
    case Advance(w) =>
      WarpShortens(numTiles, s.warps[w]);
      OneShorter(numTiles, s.warps, s.lds, s.lds, w, AdvanceWarp(numTiles, s.warps[w]));
    case Release =>
      AllShorter(g, numTiles, s);
  }

  lemma ReleaseShortens(numTiles: int, u: Warp)
    requires WarpOk(numTiles, u) && u.waiting
    ensures WarpMeasure(numTiles, ReleaseWarp(numTiles, u)) < WarpMeasure(numTiles, u)
  {
    AdvanceShortens(numTiles, u.at);
    hide PosOk, After, PcRank, Remaining, QueueOk, RegsHold, DsOk;
  }

  lemma MeasureNonneg(g: Geometry, numTiles: int, s: State)
    requires Inv(g, numTiles, s)
    ensures Measure(numTiles, s) >= 0
  {
    forall w | 0 <= w < WARPS ensures WarpMeasure(numTiles, s.warps[w]) >= 0 {
      assert WarpOk(numTiles, s.warps[w]);
      RemainingNonneg(numTiles, s.warps[w].at, s.warps[w].waiting);
      hide WarpOk, Remaining;
    }
    hide WarpMeasure, WarpOk;
  }

  lemma InitialMeasure(numTiles: int, s: State)
    requires Init(s)
    ensures Measure(numTiles, s) <= 1200 * numTiles + 32
  {
    forall w | 0 <= w < WARPS ensures WarpMeasure(numTiles, s.warps[w]) <= 300 * numTiles + 8 {
      assert InitWarp(s.warps[w]);
      var u := s.warps[w];
      ElementsSize(u.vm);
      SubsetSize(u.flying, Elements(u.vm));
    }
    hide WarpMeasure;
  }

  lemma {:induction false} ElementsSize(q: seq<VmOp>)
    ensures |Elements(q)| <= |q|
  {
    if |q| > 0 {
      ElementsSize(q[1..]);
      assert Elements(q) == {q[0]} + Elements(q[1..]);
      UnionSize({q[0]}, Elements(q[1..]));
    }
  }

  lemma SubsetSize<T>(a: set<T>, b: set<T>)
    requires a <= b
    ensures |a| <= |b|
  {
    assert b == a + (b - a);
  }

  /** Every run is finite: it takes at most 1200 numTiles + 32 steps. */
  lemma {:induction false} RunLength(g: Geometry, numTiles: int, run: seq<State>, i: nat)
    requires numTiles > 0 && IsRun(g, numTiles, run) && i < |run|
    ensures |run[i].warps| == WARPS && Measure(numTiles, run[i]) >= 0
    ensures i + Measure(numTiles, run[i]) <= 1200 * numTiles + 32
  {
    hide Measure, Apply, Enabled, WarpOk, Claims, SameSegment, InitWarp;
    RunInv(g, numTiles, run, i);
    MeasureNonneg(g, numTiles, run[i]);
    if i == 0 {
      InitialMeasure(numTiles, run[0]);
    } else {
      RunLength(g, numTiles, run, i - 1);
      RunInv(g, numTiles, run, i - 1);
      assert Next(g, numTiles, run[i - 1], run[i - 1 + 1]);
      hide Inv, IsRun;
      var step :| Enabled(run[i - 1], step) && run[i] == Apply(g, numTiles, run[i - 1], step);
      StepShortens(g, numTiles, run[i - 1], step);
    }
  }

  ghost predicate Stuck(s: State) {
    forall step :: !Enabled(s, step)
  }

  /** A run that cannot go on has finished in all four warps, within the bound. */
  lemma RunsEndFinished(g: Geometry, numTiles: int, run: seq<State>)
    requires numTiles > 0 && IsRun(g, numTiles, run) && Stuck(run[|run| - 1])
    ensures Finished(run[|run| - 1])
    ensures |run| <= 1200 * numTiles + 33
  {
    var last := run[|run| - 1];
    RunInv(g, numTiles, run, |run| - 1);
    RunLength(g, numTiles, run, |run| - 1);
    hide Inv, IsRun, Enabled, Measure;
    if !Finished(last) {
      var step := NoDeadlock(g, numTiles, last);
      assert false;
    }
  }
}
