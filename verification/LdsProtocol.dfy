/** The triple-buffered LDS protocol of one block as a transition system.

    Four warps run the same program over numTiles KV tiles. Copies to LDS and loads to registers are
    asynchronous: they land at any time after their issue, in any order, and leave the vmcnt queue in issue order.
    LDS writes land at any time before the lgkmcnt drain. Warps interleave freely between barriers. */
module LdsProtocol {

  const WARPS: int := 4

  /** What an LDS cell or a V register was last filled with. */
  datatype Tag = Junk | KTag(tile: int, half: int) | VTag(tile: int, half: int)

  /** The physical buffers of K half 0, K half 1, V half 0 and V half 1. */
  const LDS_SEQ: seq<int> := [1, 2, 1, 0]

  function KBuf(half: int): int {
    if half == 0 then LDS_SEQ[0] else LDS_SEQ[1]
  }

  function VBuf(half: int): int {
    if half == 0 then LDS_SEQ[2] else LDS_SEQ[3]
  }

  /** Which copy fills a cell of a K buffer, and which write fills a cell of a V buffer.
      A cell of padding is filled by none. */
  datatype KSlot = NoK | KSlot(warp: int, issue: int)
  datatype VSlot = NoV | VSlot(warp: int, write: int, k3: int)
  datatype Geometry = Geometry(k: int -> KSlot, v: int -> VSlot)

  /** Vector-memory operations counted by vmcnt. */
  datatype VmOp =
    | LoadQ(index: int)
    | CopyK(tile: int, half: int, issue: int)
    | LoadV(tile: int, half: int, k3: int)

  /** One ds_write2 instruction, with the register contents it took along. */
  datatype DsWrite = DsWrite(half: int, write: int, low: Tag, high: Tag)

  datatype Pc =
    | Prologue | CopyK1 | Fence4 | BarA | Gemm00 | Fence0 | BarB
    | LoadV0 | Gemm01 | FenceV0 | StoreV0 | LoadV1 | LgkmA | BarC
    | Gemm10 | FenceV1 | StoreV1 | BarD | CopyK0 | LgkmB | BarE | Gemm11 | Done

  /** A program point: a statement, the tile it works on, and how many issues of it are done. */
  datatype Pos = Pos(pc: Pc, tile: int, k: int)

  /** vm is the vmcnt queue, oldest first; flying holds those of its operations that have not landed yet.
      ds holds the LDS writes that have not landed yet. */
  datatype Warp = Warp(
    at: Pos, waiting: bool,
    vm: seq<VmOp>, flying: set<VmOp>, ds: set<DsWrite>,
    regs: (int, int) -> Tag)

  datatype State = State(warps: seq<Warp>, lds: (int, int) -> Tag)

  datatype Step =
    | Land(w: int, op: VmOp)
    | Retire(w: int)
    | Write(w: int, d: DsWrite)
    | Advance(w: int)
    | Release

  // ---- the program of a warp ----

  predicate AtBarrier(pc: Pc) {
    pc.BarA? || pc.BarB? || pc.BarC? || pc.BarD? || pc.BarE?
  }

  predicate Issues(pc: Pc) {
    pc.Prologue? || pc.CopyK1? || pc.LoadV0? || pc.LoadV1? || pc.CopyK0?
  }

  function IssueCount(pc: Pc): int {
    if pc.LoadV0? || pc.LoadV1? then 2 else 4
  }

  /** The operation a multi-issue statement issues next. */
  function NextOp(p: Pos): VmOp {
    match p.pc
    case Prologue => CopyK(0, 0, p.k)
    case CopyK1 => CopyK(p.tile, 1, p.k)
    case LoadV0 => LoadV(p.tile, 0, p.k)
    case LoadV1 => LoadV(p.tile, 1, p.k)
    case _ => CopyK(p.tile + 1, 0, p.k)
  }

  /** The statement that follows; the barrier before the next tile's K copy is skipped on the last tile. */
  function FollowingPc(last: bool, pc: Pc): Pc {
    match pc
    case Prologue => CopyK1
    case CopyK1 => Fence4
    case Fence4 => BarA
    case BarA => Gemm00
    case Gemm00 => Fence0
    case Fence0 => BarB
    case BarB => LoadV0
    case LoadV0 => Gemm01
    case Gemm01 => FenceV0
    case FenceV0 => StoreV0
    case StoreV0 => LoadV1
    case LoadV1 => LgkmA
    case LgkmA => BarC
    case BarC => Gemm10
    case Gemm10 => FenceV1
    case FenceV1 => StoreV1
    case StoreV1 => if last then LgkmB else BarD
    case BarD => CopyK0
    case CopyK0 => LgkmB
    case LgkmB => BarE
    case BarE => Gemm11
    case Gemm11 => if last then Done else CopyK1
    case Done => Done
  }

  predicate LastTile(numTiles: int, p: Pos) {
    p.tile + 1 >= numTiles
  }

  function After(numTiles: int, p: Pos): Pos {
    Pos(FollowingPc(LastTile(numTiles, p), p.pc),
        if p.pc.Gemm11? && !LastTile(numTiles, p) then p.tile + 1 else p.tile,
        0)
  }

  /** A statement with issues left is repeated; any other one is followed by the next. */
  function NextPos(numTiles: int, p: Pos): Pos {
    if Issues(p.pc) && p.k + 1 < IssueCount(p.pc) then p.(k := p.k + 1) else After(numTiles, p)
  }

  predicate CanAdvance(u: Warp) {
    match u.at.pc
    case Fence4 => |u.vm| <= 4
    case Fence0 | FenceV0 | FenceV1 => |u.vm| == 0
    case LgkmA | LgkmB => u.ds == {}
    case BarA | BarB | BarC | BarD | BarE => !u.waiting
    case Done => false
    case _ => true
  }

  /** The ds_write2 pair that stores one V half. */
  function StoredV(u: Warp, half: int): set<DsWrite> {
    {DsWrite(half, 0, u.regs(half, 0), u.regs(half, 1)), DsWrite(half, 1, u.regs(half, 0), u.regs(half, 1))}
  }

  function AdvanceWarp(numTiles: int, u: Warp): Warp {
    var next := NextPos(numTiles, u.at);
    if Issues(u.at.pc) then u.(at := next, vm := u.vm + [NextOp(u.at)], flying := u.flying + {NextOp(u.at)})
    else if AtBarrier(u.at.pc) then u.(waiting := true)
    else if u.at.pc.StoreV0? then u.(at := next, ds := u.ds + StoredV(u, 0))
    else if u.at.pc.StoreV1? then u.(at := next, ds := u.ds + StoredV(u, 1))
    else u.(at := next)
  }

  // ---- the transition relation ----

  predicate Enabled(s: State, step: Step) {
    match step
    case Land(w, op) => 0 <= w < |s.warps| && op in s.warps[w].flying
    case Retire(w) => 0 <= w < |s.warps| && |s.warps[w].vm| > 0 && s.warps[w].vm[0] !in s.warps[w].flying
    case Write(w, d) => 0 <= w < |s.warps| && d in s.warps[w].ds
    case Advance(w) => 0 <= w < |s.warps| && CanAdvance(s.warps[w])
    case Release => forall w :: 0 <= w < |s.warps| ==> s.warps[w].waiting
  }

  /** A K copy lands in the cells of its slab; a V load lands in its register. */
  function LandIn(g: Geometry, lds: (int, int) -> Tag, w: int, op: VmOp): (int, int) -> Tag {
    if op.CopyK? then
      (b, e) => if b == KBuf(op.half) && g.k(e) == KSlot(w, op.issue) then KTag(op.tile, op.half) else lds(b, e)
    else lds
  }

  function LandReg(regs: (int, int) -> Tag, op: VmOp): (int, int) -> Tag {
    if op.LoadV? then
      (h, k3) => if h == op.half && k3 == op.k3 then VTag(op.tile, op.half) else regs(h, k3)
    else regs
  }

  function LandWarp(u: Warp, op: VmOp): Warp {
    u.(flying := u.flying - {op}, regs := LandReg(u.regs, op))
  }

  function WriteIn(g: Geometry, lds: (int, int) -> Tag, w: int, d: DsWrite): (int, int) -> Tag {
    (b, e) =>
      if b == VBuf(d.half) && g.v(e) == VSlot(w, d.write, 0) then d.low
      else if b == VBuf(d.half) && g.v(e) == VSlot(w, d.write, 1) then d.high
      else lds(b, e)
  }

  function RetireWarp(u: Warp): Warp
    requires |u.vm| > 0
  {
    u.(vm := u.vm[1..])
  }

  function ReleaseWarp(numTiles: int, u: Warp): Warp {
    u.(at := After(numTiles, u.at), waiting := false)
  }

  function Apply(g: Geometry, numTiles: int, s: State, step: Step): State
    requires Enabled(s, step)
  {
    match step
    case Land(w, op) => State(s.warps[w := LandWarp(s.warps[w], op)], LandIn(g, s.lds, w, op))
    case Retire(w) => s.(warps := s.warps[w := RetireWarp(s.warps[w])])
    case Write(w, d) => State(s.warps[w := s.warps[w].(ds := s.warps[w].ds - {d})], WriteIn(g, s.lds, w, d))
    case Advance(w) => s.(warps := s.warps[w := AdvanceWarp(numTiles, s.warps[w])])
    case Release => s.(warps := seq(|s.warps|, w requires 0 <= w < |s.warps| => ReleaseWarp(numTiles, s.warps[w])))
  }

  /** The Q loads may still be under way when the prologue starts; LDS and registers hold anything. */
  ghost predicate InitWarp(u: Warp) {
    && u.at == Pos(Prologue, 0, 0) && !u.waiting && u.ds == {}
    && IsSuffix(u.vm, QSeq()) && u.flying <= Elements(u.vm)
  }

  ghost predicate Init(s: State) {
    && |s.warps| == WARPS
    && forall w :: 0 <= w < WARPS ==> InitWarp(s.warps[w])
  }

  ghost predicate Next(g: Geometry, numTiles: int, s: State, s': State) {
    exists step :: Enabled(s, step) && s' == Apply(g, numTiles, s, step)
  }

  /** A run: the states passed through, in order. */
  ghost predicate IsRun(g: Geometry, numTiles: int, run: seq<State>) {
    && |run| > 0 && Init(run[0])
    && forall i :: 0 <= i < |run| - 1 ==> Next(g, numTiles, run[i], run[i + 1])
  }

  // ---- what each warp has issued ----

  predicate IsSuffix(a: seq<VmOp>, b: seq<VmOp>) {
    |a| <= |b| && a == b[|b| - |a|..]
  }

  function Elements(q: seq<VmOp>): set<VmOp> {
    set op | op in q
  }

  function QSeq(): seq<VmOp> {
    [LoadQ(0), LoadQ(1), LoadQ(2), LoadQ(3)]
  }

  function KSeq(tile: int, half: int, n: nat): seq<VmOp> {
    seq(n, i => CopyK(tile, half, i))
  }

  function VSeq(tile: int, half: int, n: nat): seq<VmOp> {
    seq(n, i => LoadV(tile, half, i))
  }

  predicate PosOk(numTiles: int, p: Pos) {
    && 0 <= p.tile < numTiles
    && 0 <= p.k && (if Issues(p.pc) then p.k < IssueCount(p.pc) else p.k == 0)
    && (p.pc.Prologue? ==> p.tile == 0)
    && (p.pc.BarD? || p.pc.CopyK0? ==> !LastTile(numTiles, p))
    && (p.pc.Done? ==> LastTile(numTiles, p))
  }

  /** Everything that may still be in the vmcnt queue at a program point. */
  function Outstanding(numTiles: int, p: Pos): seq<VmOp>
    requires p.k >= 0
  {
    var t := p.tile;
    match p.pc
    case Prologue => QSeq() + KSeq(0, 0, p.k)
    case CopyK1 => Before(t) + KSeq(t, 1, p.k)
    case Fence4 => Before(t) + KSeq(t, 1, 4)
    case BarA | Gemm00 | Fence0 => KSeq(t, 1, 4)
    case LoadV0 => VSeq(t, 0, p.k)
    case Gemm01 | FenceV0 => VSeq(t, 0, 2)
    case LoadV1 => VSeq(t, 1, p.k)
    case LgkmA | BarC | Gemm10 | FenceV1 => VSeq(t, 1, 2)
    case CopyK0 => KSeq(t + 1, 0, p.k)
    case LgkmB | BarE | Gemm11 => if LastTile(numTiles, p) then [] else KSeq(t + 1, 0, 4)
    case BarB | StoreV0 | StoreV1 | BarD | Done => []
  }

  /** What was issued before the K half 1 copies of a tile. */
  function Before(tile: int): seq<VmOp> {
    (if tile == 0 then QSeq() else []) + KSeq(tile, 0, 4)
  }

  // ---- the invariant ----

  /** A filling that a warp answers for: its first n parts, for one tile. */
  datatype Claim = Claim(tile: int, n: int)

  function K0Claim(numTiles: int, p: Pos): Claim {
    match p.pc
    case Prologue => Claim(0, p.k)
    case CopyK1 | Fence4 | BarA | Gemm00 | Fence0 | BarB => Claim(p.tile, 4)
    case CopyK0 => Claim(p.tile + 1, p.k)
    case LgkmB | BarE | Gemm11 => Claim(p.tile + 1, if LastTile(numTiles, p) then 0 else 4)
    case _ => Claim(0, 0)
  }

  function K1Claim(p: Pos): Claim {
    match p.pc
    case CopyK1 => Claim(p.tile, p.k)
    case Fence4 | BarA | Gemm00 | Fence0 | BarB | LoadV0 | Gemm01 | FenceV0 | StoreV0 | LoadV1 | LgkmA | BarC =>
      Claim(p.tile, 4)
    case _ => Claim(0, 0)
  }

  function V0Claim(numTiles: int, p: Pos): Claim {
    match p.pc
    case LoadV1 | LgkmA | BarC | Gemm10 | FenceV1 | StoreV1 | BarD => Claim(p.tile, 2)
    case LgkmB | BarE => Claim(p.tile, if LastTile(numTiles, p) then 2 else 0)
    case _ => Claim(0, 0)
  }

  function V1Claim(p: Pos): Claim {
    match p.pc
    case BarD | CopyK0 | LgkmB | BarE | Gemm11 | Done => Claim(p.tile, 2)
    case CopyK1 | Fence4 | BarA => Claim(p.tile - 1, if p.tile > 0 then 2 else 0)
    case _ => Claim(0, 0)
  }

  /** The V registers of each half that are loaded for a tile and not yet stored. */
  function Reg0Claim(p: Pos): Claim {
    match p.pc
    case LoadV0 => Claim(p.tile, p.k)
    case Gemm01 | FenceV0 | StoreV0 => Claim(p.tile, 2)
    case _ => Claim(0, 0)
  }

  function Reg1Claim(p: Pos): Claim {
    match p.pc
    case LoadV1 => Claim(p.tile, p.k)
    case LgkmA | BarC | Gemm10 | FenceV1 | StoreV1 => Claim(p.tile, 2)
    case _ => Claim(0, 0)
  }

  /** The tile and half of the LDS writes that may be under way, with n = 2 when there may be any. */
  function Ds0Claim(p: Pos): Claim {
    match p.pc
    case LoadV1 | LgkmA => Claim(p.tile, 2)
    case _ => Claim(0, 0)
  }

  function Ds1Claim(p: Pos): Claim {
    match p.pc
    case BarD | CopyK0 | LgkmB => Claim(p.tile, 2)
    case _ => Claim(0, 0)
  }

  ghost predicate KHolds(g: Geometry, lds: (int, int) -> Tag, w: int, flying: set<VmOp>, c: Claim, half: int) {
    forall e :: (
        g.k(e).KSlot? && g.k(e).warp == w && 0 <= g.k(e).issue < c.n && CopyK(c.tile, half, g.k(e).issue) !in flying
      ) ==> lds(KBuf(half), e) == KTag(c.tile, half)
  }

  function FullWrite(tile: int, half: int, write: int): DsWrite {
    DsWrite(half, write, VTag(tile, half), VTag(tile, half))
  }

  ghost predicate VHolds(g: Geometry, lds: (int, int) -> Tag, w: int, ds: set<DsWrite>, c: Claim, half: int) {
    forall e :: (
        g.v(e).VSlot? && g.v(e).warp == w && 0 <= g.v(e).write < c.n && 0 <= g.v(e).k3 <= 1
        && FullWrite(c.tile, half, g.v(e).write) !in ds
      ) ==> lds(VBuf(half), e) == VTag(c.tile, half)
  }

  ghost predicate RegsHold(u: Warp, c: Claim, half: int) {
    forall k3 :: 0 <= k3 < c.n && LoadV(c.tile, half, k3) !in u.flying ==> u.regs(half, k3) == VTag(c.tile, half)
  }

  ghost predicate Claims(g: Geometry, numTiles: int, lds: (int, int) -> Tag, w: int, u: Warp) {
    && KHolds(g, lds, w, u.flying, K0Claim(numTiles, u.at), 0)
    && KHolds(g, lds, w, u.flying, K1Claim(u.at), 1)
    && VHolds(g, lds, w, u.ds, V0Claim(numTiles, u.at), 0)
    && VHolds(g, lds, w, u.ds, V1Claim(u.at), 1)
  }

  /** LDS writes under way are those of the half just stored, and carry its data. */
  ghost predicate DsOk(u: Warp) {
    forall d :: d in u.ds ==>
      (0 <= d.write < Ds0Claim(u.at).n && d == FullWrite(Ds0Claim(u.at).tile, 0, d.write))
      || (0 <= d.write < Ds1Claim(u.at).n && d == FullWrite(Ds1Claim(u.at).tile, 1, d.write))
  }

  ghost predicate QueueOk(numTiles: int, u: Warp)
    requires u.at.k >= 0
  {
    IsSuffix(u.vm, Outstanding(numTiles, u.at)) && u.flying <= Elements(u.vm)
  }

  ghost predicate WarpOk(numTiles: int, u: Warp) {
    && PosOk(numTiles, u.at)
    && (u.waiting ==> AtBarrier(u.at.pc))
    && QueueOk(numTiles, u)
    && RegsHold(u, Reg0Claim(u.at), 0)
    && RegsHold(u, Reg1Claim(u.at), 1)
    && DsOk(u)
  }

  /** How many barriers lie behind a program point, counting five a tile. */
  function Segment(numTiles: int, p: Pos): int {
    5 * p.tile +
    match p.pc
    case Prologue | CopyK1 | Fence4 | BarA => 0
    case Gemm00 | Fence0 | BarB => 1
    case LoadV0 | Gemm01 | FenceV0 | StoreV0 | LoadV1 | LgkmA | BarC => 2
    case Gemm10 | FenceV1 | StoreV1 | BarD => 3
    case CopyK0 => 4
    case LgkmB | BarE => if LastTile(numTiles, p) then 3 else 4
    case Gemm11 | Done => 5
  }

  ghost predicate SameSegment(numTiles: int, s: State) {
    forall w, w' :: 0 <= w < |s.warps| && 0 <= w' < |s.warps| ==>
      Segment(numTiles, s.warps[w].at) == Segment(numTiles, s.warps[w'].at)
  }

  ghost predicate Inv(g: Geometry, numTiles: int, s: State) {
    && |s.warps| == WARPS
    && (forall w :: 0 <= w < WARPS ==> WarpOk(numTiles, s.warps[w]))
    && (forall w :: 0 <= w < WARPS ==> Claims(g, numTiles, s.lds, w, s.warps[w]))
    && SameSegment(numTiles, s)
  }

  // ---- each kind of step keeps the invariant ----

  lemma InitInv(g: Geometry, numTiles: int, s: State)
    requires numTiles > 0 && Init(s)
    ensures Inv(g, numTiles, s)
  {
    forall w | 0 <= w < WARPS ensures WarpOk(numTiles, s.warps[w]) && Claims(g, numTiles, s.lds, w, s.warps[w]) {
      assert InitWarp(s.warps[w]);
      assert QSeq() + KSeq(0, 0, 0) == QSeq();
    }
  }

  /** A step of one warp that leaves LDS alone only has to keep that warp's part. */
  lemma OneWarpKeeps(g: Geometry, numTiles: int, s: State, w: int, u: Warp)
    requires Inv(g, numTiles, s) && 0 <= w < WARPS
    requires WarpOk(numTiles, u) && Claims(g, numTiles, s.lds, w, u)
    requires Segment(numTiles, u.at) == Segment(numTiles, s.warps[w].at)
    ensures Inv(g, numTiles, s.(warps := s.warps[w := u]))
  {
    hide WarpOk, Claims, Segment;
  }

  lemma RetireQueue(vm: seq<VmOp>, flying: set<VmOp>, q: seq<VmOp>)
    requires IsSuffix(vm, q) && flying <= Elements(vm) && |vm| > 0 && vm[0] !in flying
    ensures IsSuffix(vm[1..], q) && flying <= Elements(vm[1..])
  {
    assert vm[1..] == q[|q| - |vm[1..]|..];
    assert forall op :: op in vm && op != vm[0] ==> op in vm[1..];
  }

  lemma RetireStep(g: Geometry, numTiles: int, lds: (int, int) -> Tag, w: int, u: Warp)
    requires WarpOk(numTiles, u) && Claims(g, numTiles, lds, w, u) && |u.vm| > 0 && u.vm[0] !in u.flying
    ensures WarpOk(numTiles, RetireWarp(u)) && Claims(g, numTiles, lds, w, RetireWarp(u))
  {
    hide Outstanding, K0Claim, K1Claim, V0Claim, V1Claim, Reg0Claim, Reg1Claim, Ds0Claim, Ds1Claim, Segment,
      KHolds, VHolds, IsSuffix, Elements;
    assert u.at.k >= 0;
    hide PosOk;
    RetireQueue(u.vm, u.flying, Outstanding(numTiles, u.at));
  }

  lemma RetireKeeps(g: Geometry, numTiles: int, s: State, w: int)
    requires Inv(g, numTiles, s) && Enabled(s, Retire(w))
    ensures Inv(g, numTiles, Apply(g, numTiles, s, Retire(w)))
  {
    hide WarpOk, Claims, SameSegment, Segment;
    RetireStep(g, numTiles, s.lds, w, s.warps[w]);
    OneWarpKeeps(g, numTiles, s, w, RetireWarp(s.warps[w]));
  }

  /** A claim that promises no more than another one. */
  predicate Weaker(c: Claim, c': Claim) {
    c.n <= 0 || (c.tile == c'.tile && c.n <= c'.n)
  }

  predicate AllWeaker(numTiles: int, p: Pos, p': Pos) {
    && Weaker(K0Claim(numTiles, p), K0Claim(numTiles, p')) && Weaker(K1Claim(p), K1Claim(p'))
    && Weaker(V0Claim(numTiles, p), V0Claim(numTiles, p')) && Weaker(V1Claim(p), V1Claim(p'))
    && Weaker(Reg0Claim(p), Reg0Claim(p')) && Weaker(Reg1Claim(p), Reg1Claim(p'))
  }

  predicate IsFence(pc: Pc) {
    pc.Fence4? || pc.Fence0? || pc.FenceV0? || pc.FenceV1?
  }

  predicate IsPlain(pc: Pc) {
    !Issues(pc) && !AtBarrier(pc) && !pc.StoreV0? && !pc.StoreV1? && !pc.Done?
  }

  /** Statements that neither issue nor store anything make no new claims. */
  lemma PlainPos(numTiles: int, p: Pos)
    requires PosOk(numTiles, p) && IsPlain(p.pc)
    ensures PosOk(numTiles, After(numTiles, p))
    ensures Segment(numTiles, After(numTiles, p)) == Segment(numTiles, p)
    ensures AllWeaker(numTiles, After(numTiles, p), p)
    ensures !p.pc.LgkmA? && !p.pc.LgkmB? ==>
              Ds0Claim(After(numTiles, p)) == Ds0Claim(p) && Ds1Claim(After(numTiles, p)) == Ds1Claim(p)
  {
    hide Outstanding;
  }

  lemma PlainQueue(numTiles: int, p: Pos)
    requires PosOk(numTiles, p) && IsPlain(p.pc) && !IsFence(p.pc)
    ensures Outstanding(numTiles, After(numTiles, p)) == Outstanding(numTiles, p)
  {
    hide K0Claim, K1Claim, V0Claim, V1Claim, Reg0Claim, Reg1Claim, Ds0Claim, Ds1Claim, Segment;
    if p.pc.Gemm11? && !LastTile(numTiles, p) {
      assert Before(p.tile + 1) + KSeq(p.tile + 1, 1, 0) == KSeq(p.tile + 1, 0, 4);
    }
  }

  /** A fence that lets at most n operations stay in flight leaves only the n issued last. */
  lemma SuffixShort(a: seq<VmOp>, b: seq<VmOp>, c: seq<VmOp>)
    requires IsSuffix(a, b + c) && |a| <= |c|
    ensures IsSuffix(a, c)
  {
  }

  lemma FenceQueue(numTiles: int, u: Warp)
    requires PosOk(numTiles, u.at) && IsFence(u.at.pc) && CanAdvance(u)
    requires IsSuffix(u.vm, Outstanding(numTiles, u.at))
    ensures After(numTiles, u.at).k >= 0 && IsSuffix(u.vm, Outstanding(numTiles, After(numTiles, u.at)))
  {
    hide K0Claim, K1Claim, V0Claim, V1Claim, Reg0Claim, Reg1Claim, Ds0Claim, Ds1Claim, Segment;
    if u.at.pc.Fence4? {
      hide Before;
      SuffixShort(u.vm, Before(u.at.tile), KSeq(u.at.tile, 1, 4));
    }
  }

  lemma WeakerKeeps(g: Geometry, numTiles: int, lds: (int, int) -> Tag, w: int, u: Warp, p: Pos)
    requires Claims(g, numTiles, lds, w, u) && AllWeaker(numTiles, p, u.at)
    requires RegsHold(u, Reg0Claim(u.at), 0) && RegsHold(u, Reg1Claim(u.at), 1)
    ensures Claims(g, numTiles, lds, w, u.(at := p))
    ensures RegsHold(u.(at := p), Reg0Claim(p), 0) && RegsHold(u.(at := p), Reg1Claim(p), 1)
  {
    hide K0Claim, K1Claim, V0Claim, V1Claim, Reg0Claim, Reg1Claim;
  }

  lemma PlainStep(g: Geometry, numTiles: int, lds: (int, int) -> Tag, w: int, u: Warp)
    requires WarpOk(numTiles, u) && Claims(g, numTiles, lds, w, u) && IsPlain(u.at.pc) && CanAdvance(u)
    ensures WarpOk(numTiles, AdvanceWarp(numTiles, u)) && Claims(g, numTiles, lds, w, AdvanceWarp(numTiles, u))
    ensures Segment(numTiles, AdvanceWarp(numTiles, u).at) == Segment(numTiles, u.at)
  {
    var p := After(numTiles, u.at);
    PlainPos(numTiles, u.at);
    if IsFence(u.at.pc) {
      FenceQueue(numTiles, u);
    } else {
      PlainQueue(numTiles, u.at);
    }
    assert AdvanceWarp(numTiles, u) == u.(at := p);
    assert u.at.pc.LgkmA? || u.at.pc.LgkmB? ==> u.ds == {};
    assert !u.waiting;
    WeakerKeeps(g, numTiles, lds, w, u, p);
    hide After, NextPos, PosOk, Outstanding, K0Claim, K1Claim, V0Claim, V1Claim, Reg0Claim, Reg1Claim, Ds0Claim,
      Ds1Claim, Segment, AllWeaker, CanAdvance, Claims, AdvanceWarp;
  }

  // ---- issuing ----

  /** The claim grew by one part, and that part is the operation just issued. */
  predicate Grows(c: Claim, c': Claim, part: VmOp, op: VmOp) {
    part == op && Weaker(Claim(c.tile, c.n - 1), c')
  }

  lemma IssuePos(numTiles: int, p: Pos)
    requires PosOk(numTiles, p) && Issues(p.pc)
    ensures PosOk(numTiles, NextPos(numTiles, p)) && !AtBarrier(NextPos(numTiles, p).pc)
    ensures Segment(numTiles, NextPos(numTiles, p)) == Segment(numTiles, p)
    ensures Ds0Claim(NextPos(numTiles, p)) == Ds0Claim(p) && Ds1Claim(NextPos(numTiles, p)) == Ds1Claim(p)
    ensures Weaker(V0Claim(numTiles, NextPos(numTiles, p)), V0Claim(numTiles, p))
    ensures Weaker(V1Claim(NextPos(numTiles, p)), V1Claim(p))
  {
    hide Outstanding, K0Claim, K1Claim, Reg0Claim, Reg1Claim;
  }

  lemma IssueClaims(numTiles: int, p: Pos)
    requires PosOk(numTiles, p) && Issues(p.pc)
    ensures var c := K0Claim(numTiles, NextPos(numTiles, p));
      Weaker(c, K0Claim(numTiles, p)) || Grows(c, K0Claim(numTiles, p), CopyK(c.tile, 0, c.n - 1), NextOp(p))
    ensures var c := K1Claim(NextPos(numTiles, p));
      Weaker(c, K1Claim(p)) || Grows(c, K1Claim(p), CopyK(c.tile, 1, c.n - 1), NextOp(p))
    ensures var c := Reg0Claim(NextPos(numTiles, p));
      Weaker(c, Reg0Claim(p)) || Grows(c, Reg0Claim(p), LoadV(c.tile, 0, c.n - 1), NextOp(p))
    ensures var c := Reg1Claim(NextPos(numTiles, p));
      Weaker(c, Reg1Claim(p)) || Grows(c, Reg1Claim(p), LoadV(c.tile, 1, c.n - 1), NextOp(p))
  {
    hide Outstanding, V0Claim, V1Claim, Ds0Claim, Ds1Claim, Segment;
  }

  lemma KSeqGrows(tile: int, half: int, n: nat)
    ensures KSeq(tile, half, n + 1) == KSeq(tile, half, n) + [CopyK(tile, half, n)]
    ensures VSeq(tile, half, n + 1) == VSeq(tile, half, n) + [LoadV(tile, half, n)]
    ensures KSeq(tile, half, 0) == [] && VSeq(tile, half, 0) == []
  {
  }

  lemma IssueQueue(numTiles: int, p: Pos)
    requires PosOk(numTiles, p) && Issues(p.pc)
    ensures NextPos(numTiles, p).k >= 0
    ensures Outstanding(numTiles, NextPos(numTiles, p)) == Outstanding(numTiles, p) + [NextOp(p)]
  {
    KSeqGrows(p.tile, 1, p.k);
    KSeqGrows(p.tile + 1, 0, p.k);
    KSeqGrows(0, 0, p.k);
    KSeqGrows(p.tile, 0, p.k);
    KSeqGrows(0, 1, 0);
    var q, q' := Outstanding(numTiles, p), Outstanding(numTiles, NextPos(numTiles, p));
    hide KSeq, VSeq, QSeq;
    if p.pc.Prologue? {
      assert q + [NextOp(p)] == QSeq() + KSeq(0, 0, p.k + 1);
      if p.k == 3 {
        assert q' == QSeq() + KSeq(0, 0, 4) + [];
      }
    } else if p.pc.CopyK1? {
      assert q + [NextOp(p)] == Before(p.tile) + KSeq(p.tile, 1, p.k + 1);
    }
  }

  lemma KHoldsGrow(g: Geometry, lds: (int, int) -> Tag, w: int, flying: set<VmOp>, op: VmOp, c: Claim, c': Claim,
                   half: int)
    requires KHolds(g, lds, w, flying, c', half)
    requires Weaker(c, c') || Grows(c, c', CopyK(c.tile, half, c.n - 1), op)
    ensures KHolds(g, lds, w, flying + {op}, c, half)
  {
  }

  lemma VHoldsWeaker(g: Geometry, lds: (int, int) -> Tag, w: int, ds: set<DsWrite>, c: Claim, c': Claim, half: int)
    requires VHolds(g, lds, w, ds, c', half) && Weaker(c, c')
    ensures VHolds(g, lds, w, ds, c, half)
  {
  }

  lemma RegsGrow(u: Warp, v: Warp, op: VmOp, c: Claim, c': Claim, half: int)
    requires RegsHold(u, c', half) && v.regs == u.regs && v.flying == u.flying + {op}
    requires Weaker(c, c') || Grows(c, c', LoadV(c.tile, half, c.n - 1), op)
    ensures RegsHold(v, c, half)
  {
  }

  lemma IssueStep(g: Geometry, numTiles: int, lds: (int, int) -> Tag, w: int, u: Warp)
    requires WarpOk(numTiles, u) && Claims(g, numTiles, lds, w, u) && Issues(u.at.pc)
    ensures WarpOk(numTiles, AdvanceWarp(numTiles, u)) && Claims(g, numTiles, lds, w, AdvanceWarp(numTiles, u))
    ensures Segment(numTiles, AdvanceWarp(numTiles, u).at) == Segment(numTiles, u.at)
  {
    hide After, NextPos, NextOp, PosOk, Outstanding, K0Claim, K1Claim, V0Claim, V1Claim, Reg0Claim, Reg1Claim,
      Ds0Claim, Ds1Claim, Segment;
    var v := AdvanceWarp(numTiles, u);
    assert v == u.(at := NextPos(numTiles, u.at), vm := u.vm + [NextOp(u.at)], flying := u.flying + {NextOp(u.at)});
    assert !u.waiting;
    hide AdvanceWarp;
    IssueKeepsClaims(g, numTiles, lds, w, u, v);
    hide Claims;
    IssueKeepsWarp(numTiles, u, v);
    IssuePos(numTiles, u.at);
  }

  lemma IssueKeepsClaims(g: Geometry, numTiles: int, lds: (int, int) -> Tag, w: int, u: Warp, v: Warp)
    requires PosOk(numTiles, u.at) && Claims(g, numTiles, lds, w, u) && Issues(u.at.pc)
    requires v.at == NextPos(numTiles, u.at) && v.flying == u.flying + {NextOp(u.at)} && v.ds == u.ds
    ensures Claims(g, numTiles, lds, w, v)
  {
    var p, q, op := u.at, v.at, NextOp(u.at);
    IssuePos(numTiles, p);
    IssueClaims(numTiles, p);
    hide NextPos, NextOp, PosOk, K0Claim, K1Claim, V0Claim, V1Claim, Reg0Claim, Reg1Claim,
      Ds0Claim, Ds1Claim, Segment, KHolds, VHolds, Weaker, Grows;
    KHoldsGrow(g, lds, w, u.flying, op, K0Claim(numTiles, q), K0Claim(numTiles, p), 0);
    KHoldsGrow(g, lds, w, u.flying, op, K1Claim(q), K1Claim(p), 1);
    VHoldsWeaker(g, lds, w, u.ds, V0Claim(numTiles, q), V0Claim(numTiles, p), 0);
    VHoldsWeaker(g, lds, w, u.ds, V1Claim(q), V1Claim(p), 1);
  }

  lemma IssueGrowsQueue(vm: seq<VmOp>, flying: set<VmOp>, q: seq<VmOp>, op: VmOp)
    requires IsSuffix(vm, q) && flying <= Elements(vm)
    ensures IsSuffix(vm + [op], q + [op]) && flying + {op} <= Elements(vm + [op])
  {
    assert forall x :: x in vm ==> x in vm + [op];
  }

  lemma SameDs(u: Warp, v: Warp)
    requires DsOk(u) && v.ds == u.ds && Ds0Claim(v.at) == Ds0Claim(u.at) && Ds1Claim(v.at) == Ds1Claim(u.at)
    ensures DsOk(v)
  {
    hide Ds0Claim, Ds1Claim;
  }

  lemma IssueKeepsWarp(numTiles: int, u: Warp, v: Warp)
    requires WarpOk(numTiles, u) && Issues(u.at.pc)
    requires v == u.(at := NextPos(numTiles, u.at), vm := u.vm + [NextOp(u.at)], flying := u.flying + {NextOp(u.at)})
    requires !u.waiting
    ensures WarpOk(numTiles, v)
  {
    hide NextPos, NextOp, Outstanding, K0Claim, K1Claim, V0Claim, V1Claim, Reg0Claim, Reg1Claim,
      Ds0Claim, Ds1Claim, Segment, RegsHold, Weaker, Grows, DsOk, IsSuffix, Elements;
    var p, q, op := u.at, v.at, NextOp(u.at);
    IssuePos(numTiles, p);
    hide PosOk;
    IssueQueue(numTiles, p);
    IssueGrowsQueue(u.vm, u.flying, Outstanding(numTiles, p), op);
    SameDs(u, v);
    IssueClaims(numTiles, p);
    RegsGrow(u, v, op, Reg0Claim(q), Reg0Claim(p), 0);
    RegsGrow(u, v, op, Reg1Claim(q), Reg1Claim(p), 1);
  }

  // ---- storing a V half ----

  lemma StorePos(numTiles: int, p: Pos)
    requires PosOk(numTiles, p) && (p.pc.StoreV0? || p.pc.StoreV1?)
    ensures PosOk(numTiles, After(numTiles, p)) && Segment(numTiles, After(numTiles, p)) == Segment(numTiles, p)
    ensures Outstanding(numTiles, After(numTiles, p)) == [] == Outstanding(numTiles, p)
    ensures Reg0Claim(p) == if p.pc.StoreV0? then Claim(p.tile, 2) else Claim(0, 0)
    ensures Reg1Claim(p) == if p.pc.StoreV1? then Claim(p.tile, 2) else Claim(0, 0)
    ensures Ds0Claim(p) == Ds1Claim(p) == Claim(0, 0)
    ensures Ds0Claim(After(numTiles, p)) == V0Claim(numTiles, After(numTiles, p)) == Claim(p.tile, 2) || p.pc.StoreV1?
    ensures Ds1Claim(After(numTiles, p)) == V1Claim(After(numTiles, p)) == Claim(p.tile, 2) || p.pc.StoreV0?
  {
    KSeqGrows(p.tile, 1, 0);
  }

  lemma StoreClaims(numTiles: int, p: Pos)
    requires PosOk(numTiles, p) && (p.pc.StoreV0? || p.pc.StoreV1?)
    ensures Weaker(K0Claim(numTiles, After(numTiles, p)), K0Claim(numTiles, p))
    ensures Weaker(K1Claim(After(numTiles, p)), K1Claim(p))
    ensures Reg0Claim(After(numTiles, p)).n == 0 == Reg1Claim(After(numTiles, p)).n
    ensures p.pc.StoreV1? ==> Weaker(V0Claim(numTiles, After(numTiles, p)), V0Claim(numTiles, p))
    ensures p.pc.StoreV0? ==> Weaker(V1Claim(After(numTiles, p)), V1Claim(p))
  {
    hide Outstanding, Segment;
  }

  /** Past its fence, a warp's V registers hold the half it is about to store. */
  lemma StoreStep(g: Geometry, numTiles: int, lds: (int, int) -> Tag, w: int, u: Warp)
    requires WarpOk(numTiles, u) && Claims(g, numTiles, lds, w, u) && (u.at.pc.StoreV0? || u.at.pc.StoreV1?)
    ensures WarpOk(numTiles, AdvanceWarp(numTiles, u)) && Claims(g, numTiles, lds, w, AdvanceWarp(numTiles, u))
    ensures Segment(numTiles, AdvanceWarp(numTiles, u).at) == Segment(numTiles, u.at)
  {
    var p, q, half := u.at, After(numTiles, u.at), if u.at.pc.StoreV0? then 0 else 1;
    var v := AdvanceWarp(numTiles, u);
    assert v == u.(at := q, ds := u.ds + StoredV(u, half));
    assert !u.waiting;
    StorePos(numTiles, p);
    StoreClaims(numTiles, p);
    hide After, NextPos, PosOk, Outstanding, K0Claim, K1Claim, V0Claim, V1Claim, Reg0Claim, Reg1Claim,
      Ds0Claim, Ds1Claim, Segment, AdvanceWarp;
    assert u.vm == [] && u.flying == {} && u.ds == {};
    assert u.regs(half, 0) == u.regs(half, 1) == VTag(p.tile, half);
    assert v.ds == {FullWrite(p.tile, half, 0), FullWrite(p.tile, half, 1)};
    hide RegsHold;
    assert RegsHold(v, Reg0Claim(q), 0) && RegsHold(v, Reg1Claim(q), 1) by {
      NoRegs(v, Reg0Claim(q), 0);
      NoRegs(v, Reg1Claim(q), 1);
    }
    assert DsOk(v);
    assert QueueOk(numTiles, v);
    assert Claims(g, numTiles, lds, w, v) by {
      hide DsOk, QueueOk, WarpOk;
    }
  }

  lemma NoRegs(u: Warp, c: Claim, half: int)
    requires c.n <= 0
    ensures RegsHold(u, c, half)
  {
  }

  // ---- barriers ----

  lemma ReleasePos(numTiles: int, p: Pos)
    requires PosOk(numTiles, p) && AtBarrier(p.pc)
    ensures PosOk(numTiles, After(numTiles, p))
    ensures AllWeaker(numTiles, After(numTiles, p), p)
    ensures Ds0Claim(After(numTiles, p)) == Ds0Claim(p) || p.pc.BarA?
    ensures Ds1Claim(After(numTiles, p)) == Ds1Claim(p)
    ensures Ds0Claim(p) == Claim(0, 0)
  {
    hide Outstanding, Segment;
  }

  lemma ReleaseQueue(numTiles: int, p: Pos)
    requires PosOk(numTiles, p) && AtBarrier(p.pc)
    ensures After(numTiles, p).k >= 0 && Outstanding(numTiles, After(numTiles, p)) == Outstanding(numTiles, p)
  {
    hide K0Claim, K1Claim, V0Claim, V1Claim, Reg0Claim, Reg1Claim, Ds0Claim, Ds1Claim, Segment;
    KSeqGrows(p.tile, 0, 0);
    KSeqGrows(p.tile + 1, 0, 0);
  }

  /** Warps held at a barrier in the same segment are held at the same barrier, and enter the same segment. */
  lemma ReleaseSegment(numTiles: int, p: Pos, p': Pos)
    requires PosOk(numTiles, p) && AtBarrier(p.pc) && PosOk(numTiles, p') && AtBarrier(p'.pc)
    requires Segment(numTiles, p) == Segment(numTiles, p')
    ensures p == p'
  {
    hide Outstanding, K0Claim, K1Claim, V0Claim, V1Claim, Reg0Claim, Reg1Claim, Ds0Claim, Ds1Claim;
  }

  lemma ReleaseStep(g: Geometry, numTiles: int, lds: (int, int) -> Tag, w: int, u: Warp)
    requires WarpOk(numTiles, u) && Claims(g, numTiles, lds, w, u) && u.waiting
    ensures WarpOk(numTiles, ReleaseWarp(numTiles, u)) && Claims(g, numTiles, lds, w, ReleaseWarp(numTiles, u))
  {
    var p := After(numTiles, u.at);
    ReleasePos(numTiles, u.at);
    ReleaseQueue(numTiles, u.at);
    WeakerKeeps(g, numTiles, lds, w, u, p);
    hide After, NextPos, PosOk, Outstanding, K0Claim, K1Claim, V0Claim, V1Claim, Reg0Claim, Reg1Claim, Ds0Claim,
      Ds1Claim, Segment, AllWeaker;
  }

  lemma ReleaseKeeps(g: Geometry, numTiles: int, s: State)
    requires Inv(g, numTiles, s) && Enabled(s, Release)
    ensures Inv(g, numTiles, Apply(g, numTiles, s, Release))
  {
    var s' := Apply(g, numTiles, s, Release);
    hide Claims, Segment, PosOk, QueueOk, RegsHold, DsOk, After;
    forall w | 0 <= w < WARPS
      ensures WarpOk(numTiles, s'.warps[w]) && Claims(g, numTiles, s'.lds, w, s'.warps[w])
      ensures s'.warps[w].at == After(numTiles, s.warps[w].at) && s.warps[w].at == s.warps[0].at
    {
      ReleaseStep(g, numTiles, s.lds, w, s.warps[w]);
      ReleaseSegment(numTiles, s.warps[w].at, s.warps[0].at);
    }
  }

  lemma AdvanceKeeps(g: Geometry, numTiles: int, s: State, w: int)
    requires Inv(g, numTiles, s) && Enabled(s, Advance(w))
    ensures Inv(g, numTiles, Apply(g, numTiles, s, Advance(w)))
  {
    var u := s.warps[w];
    var v := AdvanceWarp(numTiles, u);
    assert WarpOk(numTiles, u) && Claims(g, numTiles, s.lds, w, u);
    if Issues(u.at.pc) {
      IssueStep(g, numTiles, s.lds, w, u);
    } else if AtBarrier(u.at.pc) {
      assert v == u.(waiting := true);
      hide PosOk, Claims, Segment, Outstanding, AdvanceWarp, K0Claim, K1Claim, V0Claim, V1Claim, Inv;
      ArriveStep(g, numTiles, s.lds, w, u);
    } else if u.at.pc.StoreV0? || u.at.pc.StoreV1? {
      StoreStep(g, numTiles, s.lds, w, u);
    } else {
      PlainStep(g, numTiles, s.lds, w, u);
    }
    hide WarpOk, Claims, Segment, AdvanceWarp, CanAdvance, Inv;
    OneWarpKeeps(g, numTiles, s, w, v);
  }

  lemma ArriveStep(g: Geometry, numTiles: int, lds: (int, int) -> Tag, w: int, u: Warp)
    requires WarpOk(numTiles, u) && Claims(g, numTiles, lds, w, u) && AtBarrier(u.at.pc)
    ensures WarpOk(numTiles, u.(waiting := true)) && Claims(g, numTiles, lds, w, u.(waiting := true))
  {
    hide PosOk, Outstanding, K0Claim, K1Claim, V0Claim, V1Claim, Reg0Claim, Reg1Claim, Ds0Claim, Ds1Claim;
  }

  // ---- landing ----

  /** K half 0 copies are under way only in segments where no V half 0 is held in their buffer. */
  lemma OutstandingOps(numTiles: int, p: Pos, op: VmOp)
    requires PosOk(numTiles, p) && op in Outstanding(numTiles, p)
    ensures op.CopyK? && op.half == 0 ==> op.tile == K0Claim(numTiles, p).tile && Segment(numTiles, p) % 5 in {0, 4}
    ensures op.CopyK? && op.half != 0 ==> op.tile == K1Claim(p).tile && op.half == 1
    ensures op.LoadV? && op.half == 0 ==> op.tile == Reg0Claim(p).tile
    ensures op.LoadV? && op.half != 0 ==> op.tile == Reg1Claim(p).tile && op.half == 1
  {
    hide V0Claim, V1Claim, Ds0Claim, Ds1Claim;
  }

  /** When each buffer holds what. */
  lemma ClaimSegments(numTiles: int, p: Pos)
    requires PosOk(numTiles, p)
    ensures K0Claim(numTiles, p).n > 0 ==> Segment(numTiles, p) % 5 in {0, 1, 4}
    ensures V0Claim(numTiles, p).n > 0 ==> Segment(numTiles, p) % 5 in {2, 3}
    ensures Ds0Claim(p).n > 0 ==> Segment(numTiles, p) % 5 == 2 && V0Claim(numTiles, p).tile == Ds0Claim(p).tile
    ensures Ds1Claim(p).n > 0 ==> V1Claim(p).tile == Ds1Claim(p).tile
  {
    hide Outstanding, K1Claim, Reg0Claim, Reg1Claim;
  }

  lemma KHoldsLand(g: Geometry, lds: (int, int) -> Tag, w: int, op: VmOp, w': int, flying: set<VmOp>, c: Claim,
                   half: int)
    requires KHolds(g, lds, w', flying, c, half) && 0 <= half <= 1
    requires op.CopyK? ==> 0 <= op.half <= 1
    requires w' == w && op.CopyK? && op.half == half ==> op.tile == c.tile
    ensures KHolds(g, LandIn(g, lds, w, op), w', if w' == w then flying - {op} else flying, c, half)
  {
  }

  lemma VHoldsLand(g: Geometry, lds: (int, int) -> Tag, w: int, op: VmOp, w': int, ds: set<DsWrite>, c: Claim,
                   half: int)
    requires VHolds(g, lds, w', ds, c, half)
    requires op.CopyK? && KBuf(op.half) == VBuf(half) ==> c.n <= 0
    ensures VHolds(g, LandIn(g, lds, w, op), w', ds, c, half)
  {
  }

  lemma RegsLand(u: Warp, op: VmOp, c: Claim, half: int)
    requires RegsHold(u, c, half)
    requires op.LoadV? && op.half == half ==> op.tile == c.tile
    ensures RegsHold(LandWarp(u, op), c, half)
  {
  }

  lemma LandClaims(g: Geometry, numTiles: int, s: State, w: int, op: VmOp, w': int)
    requires Inv(g, numTiles, s) && Enabled(s, Land(w, op)) && 0 <= w' < WARPS
    ensures Claims(g, numTiles, LandIn(g, s.lds, w, op), w', if w' == w then LandWarp(s.warps[w], op) else s.warps[w'])
  {
    var p, p', u := s.warps[w].at, s.warps[w'].at, s.warps[w'];
    assert WarpOk(numTiles, s.warps[w]) && WarpOk(numTiles, u) && Claims(g, numTiles, s.lds, w', u);
    assert Segment(numTiles, p) == Segment(numTiles, p');
    assert op in Outstanding(numTiles, p);
    OutstandingOps(numTiles, p, op);
    ClaimSegments(numTiles, p');
    hide PosOk, Outstanding, K0Claim, K1Claim, V0Claim, V1Claim, Reg0Claim, Reg1Claim, Ds0Claim, Ds1Claim, Segment,
      KHolds, VHolds, Inv, WarpOk, LandIn;
    KHoldsLand(g, s.lds, w, op, w', u.flying, K0Claim(numTiles, p'), 0);
    KHoldsLand(g, s.lds, w, op, w', u.flying, K1Claim(p'), 1);
    VHoldsLand(g, s.lds, w, op, w', u.ds, V0Claim(numTiles, p'), 0);
    VHoldsLand(g, s.lds, w, op, w', u.ds, V1Claim(p'), 1);
  }

  lemma LandKeepsWarp(numTiles: int, u: Warp, op: VmOp)
    requires WarpOk(numTiles, u) && op in u.flying
    ensures WarpOk(numTiles, LandWarp(u, op))
  {
    assert op in Outstanding(numTiles, u.at);
    OutstandingOps(numTiles, u.at, op);
    hide PosOk, Outstanding, K0Claim, K1Claim, V0Claim, V1Claim, Reg0Claim, Reg1Claim, Ds0Claim, Ds1Claim, Segment,
      RegsHold;
    RegsLand(u, op, Reg0Claim(u.at), 0);
    RegsLand(u, op, Reg1Claim(u.at), 1);
  }

  lemma LandKeeps(g: Geometry, numTiles: int, s: State, w: int, op: VmOp)
    requires Inv(g, numTiles, s) && Enabled(s, Land(w, op))
    ensures Inv(g, numTiles, Apply(g, numTiles, s, Land(w, op)))
  {
    var s' := Apply(g, numTiles, s, Land(w, op));
    hide WarpOk, Claims, Segment, LandIn;
    LandKeepsWarp(numTiles, s.warps[w], op);
    forall w' | 0 <= w' < WARPS ensures Claims(g, numTiles, s'.lds, w', s'.warps[w']) {
      LandClaims(g, numTiles, s, w, op, w');
    }
  }

  // ---- LDS writes ----

  lemma VHoldsWrite(g: Geometry, lds: (int, int) -> Tag, w: int, d: DsWrite, w': int, ds: set<DsWrite>, c: Claim,
                    half: int)
    requires VHolds(g, lds, w', ds, c, half) && 0 <= half <= 1 && 0 <= d.half <= 1
    requires w' == w && d.half == half ==> d == FullWrite(c.tile, half, d.write)
    ensures VHolds(g, WriteIn(g, lds, w, d), w', if w' == w then ds - {d} else ds, c, half)
  {
  }

  lemma KHoldsWrite(g: Geometry, lds: (int, int) -> Tag, w: int, d: DsWrite, w': int, flying: set<VmOp>, c: Claim,
                    half: int)
    requires KHolds(g, lds, w', flying, c, half)
    requires VBuf(d.half) == KBuf(half) ==> c.n <= 0
    ensures KHolds(g, WriteIn(g, lds, w, d), w', flying, c, half)
  {
  }

  lemma WriteClaims(g: Geometry, numTiles: int, s: State, w: int, d: DsWrite, w': int)
    requires Inv(g, numTiles, s) && Enabled(s, Write(w, d)) && 0 <= w' < WARPS
    ensures Claims(g, numTiles, WriteIn(g, s.lds, w, d), w',
              if w' == w then s.warps[w].(ds := s.warps[w].ds - {d}) else s.warps[w'])
  {
    var p, p', u := s.warps[w].at, s.warps[w'].at, s.warps[w'];
    assert WarpOk(numTiles, s.warps[w]) && WarpOk(numTiles, u) && Claims(g, numTiles, s.lds, w', u);
    assert Segment(numTiles, p) == Segment(numTiles, p');
    assert DsOk(s.warps[w]);
    ClaimSegments(numTiles, p);
    ClaimSegments(numTiles, p');
    hide PosOk, Outstanding, K0Claim, K1Claim, V0Claim, V1Claim, Reg0Claim, Reg1Claim, Ds0Claim, Ds1Claim, Segment,
      KHolds, VHolds, Inv, WarpOk, WriteIn;
    VHoldsWrite(g, s.lds, w, d, w', u.ds, V0Claim(numTiles, p'), 0);
    VHoldsWrite(g, s.lds, w, d, w', u.ds, V1Claim(p'), 1);
    KHoldsWrite(g, s.lds, w, d, w', u.flying, K0Claim(numTiles, p'), 0);
    KHoldsWrite(g, s.lds, w, d, w', u.flying, K1Claim(p'), 1);
  }

  lemma WriteKeeps(g: Geometry, numTiles: int, s: State, w: int, d: DsWrite)
    requires Inv(g, numTiles, s) && Enabled(s, Write(w, d))
    ensures Inv(g, numTiles, Apply(g, numTiles, s, Write(w, d)))
  {
    var s' := Apply(g, numTiles, s, Write(w, d));
    hide PosOk, QueueOk, Claims, Segment, WriteIn, Reg0Claim, Reg1Claim, Ds0Claim, Ds1Claim;
    assert WarpOk(numTiles, s'.warps[w]) by {
      assert WarpOk(numTiles, s.warps[w]);
      WriteKeepsWarp(numTiles, s.warps[w], d);
    }
    hide WarpOk;
    forall w' | 0 <= w' < WARPS ensures Claims(g, numTiles, s'.lds, w', s'.warps[w']) {
      WriteClaims(g, numTiles, s, w, d, w');
    }
  }

  lemma WriteKeepsWarp(numTiles: int, u: Warp, d: DsWrite)
    requires WarpOk(numTiles, u)
    ensures WarpOk(numTiles, u.(ds := u.ds - {d}))
  {
    hide PosOk, Outstanding, Reg0Claim, Reg1Claim, Ds0Claim, Ds1Claim;
  }

  // ---- every reachable state ----

  lemma StepKeeps(g: Geometry, numTiles: int, s: State, step: Step)
    requires Inv(g, numTiles, s) && Enabled(s, step)
    ensures Inv(g, numTiles, Apply(g, numTiles, s, step))
  {
    hide Inv, Apply, Enabled;
    match step
    case Land(w, op) => LandKeeps(g, numTiles, s, w, op);
    case Retire(w) => RetireKeeps(g, numTiles, s, w);
    case Write(w, d) => WriteKeeps(g, numTiles, s, w, d);
    case Advance(w) => AdvanceKeeps(g, numTiles, s, w);
    case Release => ReleaseKeeps(g, numTiles, s);
  }

  /** The invariant holds in every state of every run. */
  lemma {:induction false} RunInv(g: Geometry, numTiles: int, run: seq<State>, i: nat)
    requires numTiles > 0 && IsRun(g, numTiles, run) && i < |run|
    ensures Inv(g, numTiles, run[i])
  {
    hide Inv, Apply, Enabled, Init;
    if i == 0 {
      InitInv(g, numTiles, run[0]);
    } else {
      RunInv(g, numTiles, run, i - 1);
      assert Next(g, numTiles, run[i - 1], run[i - 1 + 1]);
      var step :| Enabled(run[i - 1], step) && run[i] == Apply(g, numTiles, run[i - 1], step);
      StepKeeps(g, numTiles, run[i - 1], step);
    }
  }
}
