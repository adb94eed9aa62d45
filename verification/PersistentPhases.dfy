/** The launches of a persistent leaf: preload, stages and writeback.  Each one, stepped in any
    order, brings exactly the cells it is meant to change to their values. */
module PersistentPhases {
  import opened Complexes
  import opened DivMod
  import opened Fourier
  import opened Memories
  import opened Batches
  import opened Chunking
  import opened StageRuns
  import opened PieceWrites
  import opened Workers
  import opened BulkCopy
  import opened Phases
  import opened PersistentLeaf
  import opened PersistentStages
  import Kernels

  // -------- what a microthread does

  /** How many groups have a block left in a round. */
  function ActiveGroups(l: Leaf, round: nat): int {
    Min(l.groups, l.blocks - round * l.groups)
  }

  function RoundOf(l: Leaf, m: Memory, id: nat): nat
    requires l.lanes > 0
  {
    AsNat(Read(m, RoundCell(id / l.lanes, id % l.lanes)))
  }

  function WaveOf(l: Leaf, m: Memory, id: nat): nat
    requires l.lanes > 0
  {
    AsNat(Read(m, WaveCell(id / l.lanes, id % l.lanes)))
  }

  function CopyJobs(indices: seq<nat>, from: Bank, fromBase: int, to: Bank, toBase: int): (jobs: seq<Job>)
    ensures |jobs| == |indices|
  {
    seq(|indices|, k requires 0 <= k < |indices| => CopyCell(Cell(from, fromBase + indices[k]), Cell(to, toBase + indices[k])))
  }

  function IndicesFor(l: Leaf, lane: nat): seq<nat>
    requires l.lanes > 0
  {
    CopyIndices(l.copy, Points(l), l.lanes, lane)
  }

  function PreloadJobs(l: Leaf, g: nat, lane: nat, round: nat): seq<Job>
    requires l.lanes > 0
  {
    if g >= ActiveGroups(l, round) then []
    else CopyJobs(IndicesFor(l, lane), Input, (round * l.groups + g) * Points(l), BankOf(g, 0), 0)
  }

  function PreloadWork(l: Leaf): Work
    requires l.lanes > 0
  {
    (id: nat, m: Memory) => PreloadJobs(l, id / l.lanes, id % l.lanes, RoundOf(l, m, id))
  }

  function ChunkJobs(l: Leaf, s: nat, batches: seq<Batch>): seq<Job>
    requires Valid(l) && s < |l.radices|
  {
    var pieces := StagePieces(batches, l.simdLanes, l.widths[s]);
    seq(|pieces|, i requires 0 <= i < |pieces| => RunChunk(StageAt(l, s), pieces[i]))
  }

  /** A stage is launched once for each wave, and counts the waves, only in this case. */
  predicate Waved(l: Leaf)
    requires l.lanes > 0
  {
    l.mode == Wave && Waves(l.workers, l.lanes) > 1
  }

  function StageJobs(l: Leaf, s: nat, g: nat, lane: nat, round: nat, wave: nat): seq<Job>
    requires Valid(l) && s < |l.radices|
  {
    if g >= ActiveGroups(l, round) then []
    else if Waved(l) then
      ChunkJobs(l, s, OrderOf(l, WaveBody(AssignmentAt(l, g, s), l.lanes, lane, wave)))
      + [SetCell(WaveCell(g, lane), FromInt((wave + 1) % Waves(l.workers, l.lanes)))]
    else ChunkJobs(l, s, LaneOrder(l, g, s, lane))
  }

  function StageWork(l: Leaf, s: nat): Work
    requires Valid(l) && s < |l.radices|
  {
    (id: nat, m: Memory) => StageJobs(l, s, id / l.lanes, id % l.lanes, RoundOf(l, m, id), WaveOf(l, m, id))
  }

  function WritebackJobs(l: Leaf, g: nat, lane: nat, round: nat): seq<Job>
    requires l.lanes > 0
  {
    if g >= ActiveGroups(l, round) then []
    else
      CopyJobs(IndicesFor(l, lane), BankOf(g, |l.radices|), 0, Output, (round * l.groups + g) * Points(l))
      + [SetCell(RoundCell(g, lane), FromInt(round + 1))]
  }

  function WritebackWork(l: Leaf): Work
    requires l.lanes > 0
  {
    (id: nat, m: Memory) => WritebackJobs(l, id / l.lanes, id % l.lanes, RoundOf(l, m, id))
  }

  // -------- what each launch is meant to achieve

  /** One signal of the right length for every block. */
  ghost predicate Blocks(l: Leaf, x: seq<seq<Complex>>) {
    |x| == l.blocks && forall b :: 0 <= b < |x| ==> |x[b]| == Points(l)
  }

  /** In round r, bank s of every active unit gets its block's signal before stage s. */
  function BankGoal(l: Leaf, x: seq<seq<Complex>>, r: nat, s: nat, c: Cell): Option<Complex>
    requires Kernels.Valid(KernelOf(l)) && s <= |l.radices|
  {
    if c.bank.Local? && c.bank == BankOf(c.bank.unit, s) && c.bank.unit < ActiveGroups(l, r)
       && r * l.groups + c.bank.unit < |x| && 0 <= c.offset < |x[r * l.groups + c.bank.unit]|
    then Some(Signal(l, x[r * l.groups + c.bank.unit], s)[c.offset])
    else None
  }

  function PreloadGoal(l: Leaf, x: seq<seq<Complex>>, r: nat): Goal
    requires Kernels.Valid(KernelOf(l))
  {
    c => BankGoal(l, x, r, 0, c)
  }

  function StageTarget(l: Leaf, x: seq<seq<Complex>>, r: nat, s: nat, wave: nat, c: Cell): Option<Complex>
    requires Valid(l) && s < |l.radices|
  {
    if Waved(l) && c.bank.Local? && 0 <= c.offset < l.lanes && c == WaveCell(c.bank.unit, c.offset) && c.bank.unit < ActiveGroups(l, r)
    then Some(FromInt((wave + 1) % Waves(l.workers, l.lanes)))
    else BankGoal(l, x, r, s + 1, c)
  }

  function StageGoal(l: Leaf, x: seq<seq<Complex>>, r: nat, s: nat, wave: nat): Goal
    requires Valid(l) && s < |l.radices|
  {
    c => StageTarget(l, x, r, s, wave, c)
  }

  function WritebackTarget(l: Leaf, x: seq<seq<Complex>>, r: nat, c: Cell): Option<Complex>
    requires Kernels.Valid(KernelOf(l)) && Points(l) > 0
  {
    if c.bank.Local? && 0 <= c.offset < l.lanes && c == RoundCell(c.bank.unit, c.offset) && c.bank.unit < ActiveGroups(l, r)
    then Some(FromInt(r + 1))
    else if c.bank.Output? && c.offset >= 0 && r * l.groups <= c.offset / Points(l) < r * l.groups + ActiveGroups(l, r)
            && c.offset / Points(l) < |x| && c.offset % Points(l) < |x[c.offset / Points(l)]|
    then Some(Signal(l, x[c.offset / Points(l)], |l.radices|)[c.offset % Points(l)])
    else None
  }

  function WritebackGoal(l: Leaf, x: seq<seq<Complex>>, r: nat): Goal
    requires Kernels.Valid(KernelOf(l)) && Points(l) > 0
  {
    c => WritebackTarget(l, x, r, c)
  }

  /** The microthread whose counter a cell is. */
  function CounterOwner(l: Leaf, c: Cell): Option<nat>
    requires l.lanes > 0
  {
    if c.bank.Local? && 0 <= c.offset < l.lanes && (c == RoundCell(c.bank.unit, c.offset) || c == WaveCell(c.bank.unit, c.offset))
    then Some(c.offset + l.lanes * c.bank.unit)
    else None
  }

  function Owners(l: Leaf): Owner
    requires l.lanes > 0
  {
    c => CounterOwner(l, c)
  }

  // -------- the state between launches

  ghost predicate InputHolds(l: Leaf, x: seq<seq<Complex>>, m: Memory) {
    forall b: nat, i: nat :: b < |x| && i < |x[b]| ==> InputAt(l, x, m, b, i)
  }

  ghost predicate InputAt(l: Leaf, x: seq<seq<Complex>>, m: Memory, b: nat, i: nat)
    requires b < |x| && i < |x[b]|
  {
    Read(m, Cell(Input, b * Points(l) + i)) == x[b][i]
  }

  /** Every microthread's private round counter says r, as long as there is a round r. */
  ghost predicate RoundsAt(l: Leaf, m: Memory, r: nat) {
    r * l.groups < l.blocks ==> forall g: nat, lane: nat :: g < l.groups && lane < l.lanes ==> RoundAt(m, g, lane, r)
  }

  ghost predicate RoundAt(m: Memory, g: nat, lane: nat, r: nat) {
    Read(m, RoundCell(g, lane)) == FromInt(r)
  }

  /** Every active microthread's private wave counter says v. */
  ghost predicate WavesAt(l: Leaf, m: Memory, r: nat, v: nat) {
    forall g: nat, lane: nat :: g < ActiveGroups(l, r) && lane < l.lanes ==> WaveAt(m, g, lane, v)
  }

  ghost predicate WaveAt(m: Memory, g: nat, lane: nat, v: nat) {
    Read(m, WaveCell(g, lane)) == FromInt(v)
  }

  /** The blocks before n have been transformed into the output. */
  ghost predicate OutputDone(l: Leaf, x: seq<seq<Complex>>, m: Memory, n: nat) {
    forall b: nat, i: nat :: b < n && b < |x| && i < |x[b]| ==> OutputAt(l, x, m, b, i)
  }

  ghost predicate OutputAt(l: Leaf, x: seq<seq<Complex>>, m: Memory, b: nat, i: nat)
    requires b < |x| && i < |x[b]|
  {
    Read(m, Cell(Output, b * Points(l) + i)) == Scaled(l.scale, Dft(l.constants.turn, l.inverse, x[b], i))
  }

  /** Every active unit's bank s holds its block's signal before stage s. */
  ghost predicate BanksHold(l: Leaf, x: seq<seq<Complex>>, m: Memory, r: nat, s: nat)
    requires Kernels.Valid(KernelOf(l)) && s <= |l.radices|
  {
    forall g: nat :: g < ActiveGroups(l, r) ==> UnitHolds(l, x, m, r, g, s)
  }

  ghost predicate UnitHolds(l: Leaf, x: seq<seq<Complex>>, m: Memory, r: nat, g: nat, s: nat)
    requires Kernels.Valid(KernelOf(l)) && s <= |l.radices|
  {
    r * l.groups + g < |x| ==> BankHolds(l, x[r * l.groups + g], m, g, s)
  }

  /** Between launches of round r: the input is intact, the counters agree, the output is done up to here. */
  ghost predicate Between(l: Leaf, x: seq<seq<Complex>>, m: Memory, r: nat, v: nat) {
    InputHolds(l, x, m) && RoundsAt(l, m, r) && WavesAt(l, m, r, v) && OutputDone(l, x, m, r * l.groups)
  }

  ghost predicate Setting(l: Leaf, x: seq<seq<Complex>>, r: nat) {
    Valid(l) && Blocks(l, x) && r * l.groups < l.blocks
  }

  lemma ActiveBlock(l: Leaf, x: seq<seq<Complex>>, r: nat, g: nat)
    requires Setting(l, x, r) && g < ActiveGroups(l, r)
    ensures g < l.groups && r * l.groups + g < |x| && |x[r * l.groups + g]| == Points(l) && Points(l) > 0
  {
    Kernels.ValidIsPositive(KernelOf(l));
    assert l.radices[..|l.radices|] == l.radices;
  }

  lemma ThreadOfLane(l: Leaf, g: nat, lane: nat)
    requires g < l.groups && lane < l.lanes
    ensures lane + l.lanes * g < l.groups * l.lanes && (lane + l.lanes * g) / l.lanes == g && (lane + l.lanes * g) % l.lanes == lane
  {
    InRange(l.lanes, l.groups, lane, g);
    Decode(l.lanes, g, lane);
    assert l.lanes * l.groups == l.groups * l.lanes;
  }

  lemma LaneOfThread(l: Leaf, id: nat)
    requires l.lanes > 0 && id < l.groups * l.lanes
    ensures id / l.lanes < l.groups && id % l.lanes < l.lanes && id == id % l.lanes + l.lanes * (id / l.lanes)
  {
    Recompose(id, l.lanes);
    Below(id, l.lanes, l.groups);
    assert l.lanes * l.groups == l.groups * l.lanes;
  }

  /** A cell no one was to write reads as before. */
  lemma CellKept(goal: Goal, m0: Memory, m: Memory, c: Cell)
    requires OldOrGoal(goal, m0, m) && goal(c) == None
    ensures Read(m, c) == Read(m0, c)
  {
  }

  /** A cell that read as it was meant to still does. */
  lemma CellStays(goal: Goal, m0: Memory, m: Memory, c: Cell)
    requires OldOrGoal(goal, m0, m) && goal(c) == Some(Read(m0, c))
    ensures Read(m, c) == Read(m0, c)
  {
  }

  lemma CopyJobIn(indices: seq<nat>, from: Bank, fromBase: int, to: Bank, toBase: int, i: nat)
    requires i in indices
    ensures CopyCell(Cell(from, fromBase + i), Cell(to, toBase + i)) in CopyJobs(indices, from, fromBase, to, toBase)
  {
    var k :| 0 <= k < |indices| && indices[k] == i;
    assert CopyJobs(indices, from, fromBase, to, toBase)[k] == CopyCell(Cell(from, fromBase + i), Cell(to, toBase + i));
  }

  lemma CopyJobIs(indices: seq<nat>, from: Bank, fromBase: int, to: Bank, toBase: int, job: Job) returns (i: nat)
    requires job in CopyJobs(indices, from, fromBase, to, toBase)
    ensures i in indices && job == CopyCell(Cell(from, fromBase + i), Cell(to, toBase + i))
  {
    var k :| 0 <= k < |indices| && CopyJobs(indices, from, fromBase, to, toBase)[k] == job;
    i := indices[k];
  }

  /** A copy that takes its goal's value from a cell no one writes. */
  lemma CopyIsDisciplined(goal: Goal, owner: Owner, id: nat, m0: Memory, from: Cell, to: Cell)
    requires goal(from) == None && goal(to) == Some(Read(m0, from)) && owner(to) == None
    ensures JobIsStable(goal, m0, CopyCell(from, to)) && JobIsRightful(goal, owner, id, m0, CopyCell(from, to))
  {
  }

  lemma SetIsDisciplined(goal: Goal, owner: Owner, id: nat, m0: Memory, c: Cell, v: Complex)
    requires goal(c) == Some(v) && owner(c) == Some(id)
    ensures JobIsStable(goal, m0, SetCell(c, v)) && JobIsRightful(goal, owner, id, m0, SetCell(c, v))
  {
  }

  lemma CountersOwned(l: Leaf, g: nat, lane: nat)
    requires lane < l.lanes
    ensures Owners(l)(RoundCell(g, lane)) == Owners(l)(WaveCell(g, lane)) == Some(lane + l.lanes * g)
  {
  }

  /** A thread whose own cells are untouched reads the same counters. */
  lemma OwnCountersKept(l: Leaf, id: nat, m0: Memory, m: Memory)
    requires l.lanes > 0 && id < l.groups * l.lanes && KeepsOwn(Owners(l), id, m0, m)
    ensures RoundOf(l, m, id) == RoundOf(l, m0, id) && WaveOf(l, m, id) == WaveOf(l, m0, id)
  {
    hide Owners, RoundCell, WaveCell;
    LaneOfThread(l, id);
    CountersOwned(l, id / l.lanes, id % l.lanes);
  }

  lemma DataUnowned(l: Leaf, g: nat, s: nat, i: int)
    requires l.lanes > 0
    ensures Owners(l)(Cell(BankOf(g, s), i)) == None && Owners(l)(Cell(Output, i)) == None
  {
    if 0 <= i {
      BanksDiffer(g, g, s, i, i);
    }
  }
}
