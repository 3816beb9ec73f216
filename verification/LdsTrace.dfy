/** What a warp has executed in a run: every GEMM sub-tile of every tile, once each and in order. */
module LdsTrace {
  import opened LdsProtocol
  import opened LdsSafety

  /** A GEMM sub-tile of a tile: headdim half of Q K^T, key half of P V. */
  datatype Subtile = Scores(tile: int, half: int) | Values(tile: int, half: int)

  /** The sub-tile that a statement multiplies, if it is one. */
  function SubtileAt(p: Pos): seq<Subtile> {
    match p.pc
    case Gemm00 => [Scores(p.tile, 0)]
    case Gemm01 => [Scores(p.tile, 1)]
    case Gemm10 => [Values(p.tile, 0)]
    case Gemm11 => [Values(p.tile, 1)]
    case _ => []
  }

  ghost predicate HasWarps(run: seq<State>) {
    forall k :: 0 <= k < |run| ==> |run[k].warps| == WARPS
  }

  /** The sub-tiles that warp w has behind it in state i of a run: those of the statements it has left. */
  ghost function Multiplied(run: seq<State>, w: int, i: nat): seq<Subtile>
    requires i < |run| && HasWarps(run) && 0 <= w < WARPS
  {
    if i == 0 then []
    else Multiplied(run, w, i - 1)
         + if run[i].warps[w].at == run[i - 1].warps[w].at then [] else SubtileAt(run[i - 1].warps[w].at)
  }

  /** The order of the algorithm: per tile both halves of the scores, then both halves of the values. */
  function ScheduleAt(i: int): Subtile {
    match i % 4
    case 0 => Scores(i / 4, 0)
    case 1 => Scores(i / 4, 1)
    case 2 => Values(i / 4, 0)
    case _ => Values(i / 4, 1)
  }

  function Schedule(n: nat): seq<Subtile> {
    seq(n, i => ScheduleAt(i))
  }

  /** How many sub-tiles lie behind a program point. */
  function Behind(p: Pos): int {
    4 * p.tile +
    match p.pc
    case Prologue | CopyK1 | Fence4 | BarA | Gemm00 => 0
    case Fence0 | BarB | LoadV0 | Gemm01 => 1
    case FenceV0 | StoreV0 | LoadV1 | LgkmA | BarC | Gemm10 => 2
    case FenceV1 | StoreV1 | BarD | CopyK0 | LgkmB | BarE | Gemm11 => 3
    case Done => 4
  }

  lemma ScheduleGrows(n: nat)
    ensures Schedule(n + 1) == Schedule(n) + [ScheduleAt(n)]
  {
  }

  /** Moving on adds the sub-tile of the statement that is left, the next one of the schedule. */
  lemma NextBehind(numTiles: int, p: Pos)
    requires PosOk(numTiles, p) && !p.pc.Done?
    ensures Behind(p) >= 0 && NextPos(numTiles, p) != p && After(numTiles, p) != p
    ensures Schedule(Behind(p)) + SubtileAt(p) == Schedule(Behind(p) + |SubtileAt(p)|)
    ensures Behind(NextPos(numTiles, p)) == Behind(p) + |SubtileAt(p)|
    ensures AtBarrier(p.pc) ==> Behind(After(numTiles, p)) == Behind(p) + |SubtileAt(p)|
  {
    if |SubtileAt(p)| == 1 {
      ScheduleGrows(Behind(p));
      assert Behind(p) / 4 == p.tile;
    }
  }

  /** A step leaves a warp where it is, or moves it on from a statement that is not a barrier, or releases it. */
  lemma StepMoves(g: Geometry, numTiles: int, s: State, step: Step, w: int)
    requires Inv(g, numTiles, s) && Enabled(s, step) && 0 <= w < WARPS
    ensures var u, p' := s.warps[w], Apply(g, numTiles, s, step).warps[w].at;
      || p' == u.at
      || (!u.at.pc.Done? && p' == NextPos(numTiles, u.at))
      || (AtBarrier(u.at.pc) && p' == After(numTiles, u.at))
  {
    assert WarpOk(numTiles, s.warps[w]);
    var u := s.warps[w];
    assert u.waiting ==> AtBarrier(u.at.pc);
    hide Inv, WarpOk, After, NextPos, NextOp, LandIn, WriteIn, StoredV, Claims, AdvanceWarp, LandWarp, LandReg,
      CanAdvance;
    match step
    case Advance(w') => AdvanceMoves(numTiles, s.warps[w']);
    case Land(w', op) => assert LandWarp(s.warps[w'], op).at == s.warps[w'].at by {
      LandStays(s.warps[w'], op);
    }
    case _ =>
  }

  lemma AdvanceMoves(numTiles: int, u: Warp)
    requires CanAdvance(u)
    ensures !u.at.pc.Done?
    ensures AdvanceWarp(numTiles, u).at == if AtBarrier(u.at.pc) then u.at else NextPos(numTiles, u.at)
  {
    hide NextPos, NextOp, StoredV;
  }

  lemma LandStays(u: Warp, op: VmOp)
    ensures LandWarp(u, op).at == u.at
  {
    hide LandReg;
  }

  lemma RunWarps(g: Geometry, numTiles: int, run: seq<State>)
    requires numTiles > 0 && IsRun(g, numTiles, run)
    ensures HasWarps(run)
  {
    hide Inv, IsRun;
    forall k | 0 <= k < |run| ensures |run[k].warps| == WARPS {
      RunInv(g, numTiles, run, k);
      WarpsOf(g, numTiles, run[k]);
    }
  }

  lemma WarpsOf(g: Geometry, numTiles: int, s: State)
    requires Inv(g, numTiles, s)
    ensures |s.warps| == WARPS && forall w :: 0 <= w < WARPS ==> PosOk(numTiles, s.warps[w].at)
  {
    hide PosOk, Claims, SameSegment;
    forall w | 0 <= w < WARPS ensures PosOk(numTiles, s.warps[w].at) {
      assert WarpOk(numTiles, s.warps[w]);
    }
  }

  lemma StepMultiplies(g: Geometry, numTiles: int, s: State, step: Step, w: int)
    requires Inv(g, numTiles, s) && Enabled(s, step) && 0 <= w < WARPS
    ensures |Apply(g, numTiles, s, step).warps| == WARPS
    ensures var p, p' := s.warps[w].at, Apply(g, numTiles, s, step).warps[w].at;
      Behind(p) >= 0 && Behind(p') >= 0
      && Schedule(Behind(p')) == Schedule(Behind(p)) + if p' == p then [] else SubtileAt(p)
  {
    StepMoves(g, numTiles, s, step, w);
    StepKeeps(g, numTiles, s, step);
    assert WarpOk(numTiles, s.warps[w]);
    var p := s.warps[w].at;
    hide Inv, WarpOk, Apply, Enabled, Schedule, SubtileAt, NextPos, After, Behind;
    if p.pc.Done? {
      DoneBehind(numTiles, p);
    } else {
      NextBehind(numTiles, p);
    }
  }

  lemma DoneBehind(numTiles: int, p: Pos)
    requires PosOk(numTiles, p) && p.pc.Done?
    ensures Behind(p) == 4 * numTiles && !AtBarrier(p.pc)
  {
  }

  lemma {:induction false} MultipliedSoFar(g: Geometry, numTiles: int, run: seq<State>, w: int, i: nat)
    requires numTiles > 0 && IsRun(g, numTiles, run) && i < |run| && 0 <= w < WARPS
    requires HasWarps(run)
    ensures Behind(run[i].warps[w].at) >= 0
    ensures Multiplied(run, w, i) == Schedule(Behind(run[i].warps[w].at))
  {
    if i == 0 {
      assert InitWarp(run[0].warps[w]);
      assert Schedule(0) == [];
    } else {
      hide Inv, Apply, Enabled, Init, SubtileAt, Behind, Schedule;
      MultipliedSoFar(g, numTiles, run, w, i - 1);
      RunInv(g, numTiles, run, i - 1);
      assert Next(g, numTiles, run[i - 1], run[i - 1 + 1]);
      var step :| Enabled(run[i - 1], step) && run[i] == Apply(g, numTiles, run[i - 1], step);
      StepMultiplies(g, numTiles, run[i - 1], step, w);
    }
  }

  lemma ScheduleIs(n: nat)
    ensures Schedule(n) == seq(n, i => if i % 4 < 2 then Scores(i / 4, i % 4) else Values(i / 4, i % 4 - 2))
  {
    var steps := seq(n, i => if i % 4 < 2 then Scores(i / 4, i % 4) else Values(i / 4, i % 4 - 2));
    forall i | 0 <= i < n ensures Schedule(n)[i] == steps[i] {
    }
  }

  /** In a run that has come to its end every warp has multiplied exactly the four sub-tiles of tile 0, of tile 1, and
      so on to the last tile, each once and in this order. */
  lemma RunsMultiplyAll(g: Geometry, numTiles: int, run: seq<State>, w: int)
    requires numTiles > 0 && IsRun(g, numTiles, run) && Stuck(run[|run| - 1]) && 0 <= w < WARPS
    ensures HasWarps(run)
    ensures Multiplied(run, w, |run| - 1)
         == seq(4 * numTiles, i => if i % 4 < 2 then Scores(i / 4, i % 4) else Values(i / 4, i % 4 - 2))
  {
    var last := run[|run| - 1];
    hide IsRun, Inv, Stuck, HasWarps, Multiplied, Behind, PosOk, Schedule;
    RunWarps(g, numTiles, run);
    RunsEndFinished(g, numTiles, run);
    MultipliedSoFar(g, numTiles, run, w, |run| - 1);
    RunInv(g, numTiles, run, |run| - 1);
    WarpsOf(g, numTiles, last);
    DoneBehind(numTiles, last.warps[w].at);
    ScheduleIs(4 * numTiles);
  }

  // ---- what the model lets happen ----

  /** What holds a warp back: the fence of a tile's start lets through exactly the four copies issued last, landed or
      not, the others wait for all loads or all LDS writes, a barrier for its release; nothing else does. */
  lemma WhatHoldsAWarp(numTiles: int, u: Warp)
    requires WarpOk(numTiles, u)
    ensures CanAdvance(u) <==>
            match u.at.pc
            case Fence4 => IsSuffix(u.vm, KSeq(u.at.tile, 1, 4))
            case Fence0 | FenceV0 | FenceV1 => u.vm == []
            case LgkmA | LgkmB => u.ds == {}
            case BarA | BarB | BarC | BarD | BarE => !u.waiting
            case Done => false
            case _ => true
  {
    hide RegsHold, DsOk, PosOk, Before;
    if u.at.pc.Fence4? && |u.vm| <= 4 {
      SuffixShort(u.vm, Before(u.at.tile), KSeq(u.at.tile, 1, 4));
    }
  }

  /** Whatever is under way may come next: any copy or load may land, in any order, any LDS write, and a landed
      operation at the head of the queue may retire. */
  lemma AnythingMayHappen(s: State, w: int)
    requires 0 <= w < |s.warps|
    ensures forall op :: op in s.warps[w].flying ==> Enabled(s, Land(w, op))
    ensures forall d :: d in s.warps[w].ds ==> Enabled(s, Write(w, d))
    ensures |s.warps[w].vm| > 0 && s.warps[w].vm[0] !in s.warps[w].flying ==> Enabled(s, Retire(w))
    ensures (forall v :: 0 <= v < |s.warps| ==> s.warps[v].waiting) ==> Enabled(s, Release)
  {
  }

  /** A run may start with any of the Q loads still outstanding, landed or not, and anything in LDS and registers. */
  lemma StartsAnywhere(s: State)
    requires |s.warps| == 4
    requires forall w :: 0 <= w < 4 ==>
      && s.warps[w].at == Pos(Prologue, 0, 0) && !s.warps[w].waiting && s.warps[w].ds == {}
      && IsSuffix(s.warps[w].vm, [LoadQ(0), LoadQ(1), LoadQ(2), LoadQ(3)])
      && forall op :: op in s.warps[w].flying ==> op in s.warps[w].vm
    ensures Init(s)
  {
  }
}
