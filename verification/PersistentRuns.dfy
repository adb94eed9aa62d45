/** The writeback of a persistent leaf, and its whole run: round after round of preload, stages
    and writeback, each microthread stepping whenever it likes within a launch. */
module PersistentRuns {
  import opened Complexes
  import opened DivMod
  import opened Fourier
  import opened Memories
  import opened Batches
  import opened BulkCopy
  import opened Workers
  import opened Phases
  import opened PersistentLeaf
  import opened PersistentStages
  import opened PersistentPhases
  import opened PersistentLaunches
  import opened StageLaunches
  import Kernels
  import Stockham

  // -------- writeback

  lemma PointsPositive(l: Leaf)
    requires Kernels.Valid(KernelOf(l))
    ensures Points(l) > 0
  {
    Kernels.ValidIsPositive(KernelOf(l));
    assert l.radices[..|l.radices|] == l.radices;
  }

  lemma WritebackTargets(l: Leaf, x: seq<seq<Complex>>, r: nat, c: Cell)
    requires Kernels.Valid(KernelOf(l)) && Points(l) > 0
    ensures c.bank.Input? || c.bank.Buffer? ==> WritebackTarget(l, x, r, c) == None
    ensures c.bank.Local? && !(0 <= c.offset && c == RoundCell(c.bank.unit, c.offset)) ==> WritebackTarget(l, x, r, c) == None
  {
    hide Signal;
  }

  lemma WritebackSpares(l: Leaf, x: seq<seq<Complex>>, r: nat)
    requires Kernels.Valid(KernelOf(l)) && Points(l) > 0
    ensures SparesBank(WritebackGoal(l, x, r), Input) && SparesWaves(WritebackGoal(l, x, r))
  {
    hide WritebackTarget;
    forall i: int ensures WritebackGoal(l, x, r)(Cell(Input, i)) == None {
      WritebackTargets(l, x, r, Cell(Input, i));
    }
    forall g: nat, lane: nat ensures WritebackGoal(l, x, r)(WaveCell(g, lane)) == None {
      BanksDiffer(g, g, 0, 0, lane);
      WritebackTargets(l, x, r, WaveCell(g, lane));
    }
  }

  lemma BankSpared(l: Leaf, x: seq<seq<Complex>>, r: nat, g: nat, s: nat, i: int)
    requires Kernels.Valid(KernelOf(l)) && Points(l) > 0
    ensures WritebackGoal(l, x, r)(Cell(BankOf(g, s), i)) == None
  {
    hide WritebackTarget;
    if i >= 0 {
      BanksDiffer(g, g, s, i, i);
    }
    WritebackTargets(l, x, r, Cell(BankOf(g, s), i));
  }

  /** The cell of an output element names its block and its place in the block. */
  lemma OutputGoal(l: Leaf, x: seq<seq<Complex>>, r: nat, b: nat, i: nat)
    requires Setting(l, x, r) && Kernels.Valid(KernelOf(l)) && Points(l) > 0 && b < |x| && i < Points(l)
    ensures |x[b]| == Points(l)
    ensures WritebackGoal(l, x, r)(Cell(Output, b * Points(l) + i))
            == if r * l.groups <= b < r * l.groups + ActiveGroups(l, r) then Some(Signal(l, x[b], |l.radices|)[i]) else None
  {
    hide Signal, Valid, Kernels.Valid;
    Decode(Points(l), b, i);
    assert b * Points(l) + i == i + Points(l) * b;
  }

  lemma RoundGoal(l: Leaf, x: seq<seq<Complex>>, r: nat, g: nat, lane: nat)
    requires Kernels.Valid(KernelOf(l)) && Points(l) > 0 && lane < l.lanes && g < ActiveGroups(l, r)
    ensures WritebackGoal(l, x, r)(RoundCell(g, lane)) == Some(FromInt(r + 1))
  {
    hide Signal;
  }

  ghost predicate WritebackSetting(l: Leaf, x: seq<seq<Complex>>, m: Memory, r: nat) {
    Setting(l, x, r) && Between(l, x, m, r, 0) && BanksHold(l, x, m, r, |l.radices|)
  }

  lemma WritebackJob(l: Leaf, x: seq<seq<Complex>>, m0: Memory, r: nat, id: nat, g: nat, lane: nat, job: Job)
    requires WritebackSetting(l, x, m0, r) && lane < l.lanes && id == lane + l.lanes * g && job in WritebackJobs(l, g, lane, r)
    requires Kernels.Valid(KernelOf(l)) && Points(l) > 0
    ensures JobIsStable(WritebackGoal(l, x, r), m0, job) && JobIsRightful(WritebackGoal(l, x, r), Owners(l), id, m0, job)
  {
    hide Valid, Kernels.Valid, JobIsStable, JobIsRightful, CopyJobs, Points, Signal, IndicesFor, WritebackGoal, Between, Owners;
    ActiveBlock(l, x, r, g);
    var b := r * l.groups + g;
    if job in CopyJobs(IndicesFor(l, lane), BankOf(g, |l.radices|), 0, Output, b * Points(l)) {
      var i := CopyJobIs(IndicesFor(l, lane), BankOf(g, |l.radices|), 0, Output, b * Points(l), job);
      IndexInside(l, lane, i);
      assert UnitHolds(l, x, m0, r, g, |l.radices|);
      assert BankAt(l, x[b], m0, g, |l.radices|, i);
      BankSpared(l, x, r, g, |l.radices|, i);
      OutputGoal(l, x, r, b, i);
      DataUnowned(l, g, 0, b * Points(l) + i);
      CopyIsDisciplined(WritebackGoal(l, x, r), Owners(l), id, m0, job.from, job.to);
    } else {
      CountersOwned(l, g, lane);
      RoundGoal(l, x, r, g, lane);
      SetIsDisciplined(WritebackGoal(l, x, r), Owners(l), id, m0, RoundCell(g, lane), FromInt(r + 1));
    }
  }

  lemma WritebackThread(l: Leaf, x: seq<seq<Complex>>, m0: Memory, r: nat, id: nat)
    requires WritebackSetting(l, x, m0, r) && id < l.groups * l.lanes && Kernels.Valid(KernelOf(l)) && Points(l) > 0
    ensures ThreadIsDisciplined(WritebackWork(l), WritebackGoal(l, x, r), Owners(l), id, m0)
  {
    hide Valid, Kernels.Valid, JobIsStable, JobIsRightful, Points, WritebackGoal, BanksHold, WritebackJobs, Owners, RoundCell;
    ValidKernel(l);
    LaneOfThread(l, id);
    BetweenParts(l, x, m0, r, 0);
    ReadsRound(l, m0, r, id);
    CountersOwned(l, id / l.lanes, id % l.lanes);
    forall job | job in WritebackWork(l)(id, m0)
      ensures JobIsStable(WritebackGoal(l, x, r), m0, job) && JobIsRightful(WritebackGoal(l, x, r), Owners(l), id, m0, job)
    {
      WritebackJob(l, x, m0, r, id, id / l.lanes, id % l.lanes, job);
    }
  }

  /** After the writeback the round's blocks are in the output and every counter has moved on. */
  lemma WritebackEffect(l: Leaf, x: seq<seq<Complex>>, m0: Memory, m: Memory, r: nat)
    requires WritebackSetting(l, x, m0, r) && Kernels.Valid(KernelOf(l)) && Points(l) > 0
    requires Settled(WritebackWork(l), WritebackGoal(l, x, r), l.groups * l.lanes, m0, m)
    ensures Between(l, x, m, r + 1, 0)
  {
    hide Valid, Kernels.Valid, Points, WritebackGoal, BanksHold, WritebackWork, InputHolds, OutputDone, RoundsAt, WavesAt, Settled, Between;
    ValidKernel(l);
    BetweenParts(l, x, m0, r, 0);
    SettledIsOldOrGoal(WritebackWork(l), WritebackGoal(l, x, r), l.groups * l.lanes, m0, m);
    WritebackSpares(l, x, r);
    InputKept(l, x, WritebackGoal(l, x, r), m0, m);
    WavesKept(l, WritebackGoal(l, x, r), m0, m, r, 0);
    FewerActive(l, m, r);
    RoundsMove(l, x, m0, m, r);
    BlocksWritten(l, x, m0, m, r);
    BetweenFrom(l, x, m, r + 1, 0);
  }

  lemma FewerActive(l: Leaf, m: Memory, r: nat)
    requires WavesAt(l, m, r, 0)
    ensures WavesAt(l, m, r + 1, 0)
  {
    assert (r + 1) * l.groups == r * l.groups + l.groups;
  }

  lemma RoundsMove(l: Leaf, x: seq<seq<Complex>>, m0: Memory, m: Memory, r: nat)
    requires WritebackSetting(l, x, m0, r) && Kernels.Valid(KernelOf(l)) && Points(l) > 0
    requires Settled(WritebackWork(l), WritebackGoal(l, x, r), l.groups * l.lanes, m0, m)
    ensures RoundsAt(l, m, r + 1)
  {
    hide Valid, Kernels.Valid, Points, WritebackGoal, BanksHold, Settled, RoundCell, WritebackJobs;
    ValidKernel(l);
    BetweenParts(l, x, m0, r, 0);
    var next := r + 1;
    assert next * l.groups == r * l.groups + l.groups;
    forall g: nat, lane: nat | next * l.groups < l.blocks && g < l.groups && lane < l.lanes ensures RoundAt(m, g, lane, next) {
      ThreadOfLane(l, g, lane);
      ReadsRound(l, m0, r, lane + l.lanes * g);
      BumpIsLast(l, g, lane, r);
      var w := Write(RoundCell(g, lane), FromInt(next));
      Lands(WritebackWork(l), WritebackGoal(l, x, r), l.groups * l.lanes, m0, m, lane + l.lanes * g, SetCell(w.cell, w.value), w);
    }
  }

  lemma BumpIsLast(l: Leaf, g: nat, lane: nat, r: nat)
    requires l.lanes > 0 && g < ActiveGroups(l, r)
    ensures SetCell(RoundCell(g, lane), FromInt(r + 1)) in WritebackJobs(l, g, lane, r)
  {
    hide CopyJobs;
    var jobs := WritebackJobs(l, g, lane, r);
    assert jobs[|jobs| - 1] == SetCell(RoundCell(g, lane), FromInt(r + 1));
  }

  lemma BlocksWritten(l: Leaf, x: seq<seq<Complex>>, m0: Memory, m: Memory, r: nat)
    requires WritebackSetting(l, x, m0, r) && Kernels.Valid(KernelOf(l)) && Points(l) > 0
    requires Settled(WritebackWork(l), WritebackGoal(l, x, r), l.groups * l.lanes, m0, m)
    ensures OutputDone(l, x, m, (r + 1) * l.groups)
  {
    hide Valid, Kernels.Valid, Points, WritebackGoal, WritebackWork, Settled, BanksHold, OutputAt;
    var next := (r + 1) * l.groups;
    assert next == r * l.groups + l.groups;
    forall b: nat, i: nat | b < next && b < |x| && i < |x[b]| ensures OutputAt(l, x, m, b, i) {
      if b < r * l.groups {
        assert OutputAt(l, x, m0, b, i);
        EarlierBlock(l, x, m0, m, r, b, i);
      } else {
        ThisBlock(l, x, m0, m, r, b - r * l.groups, i);
      }
    }
  }

  lemma EarlierBlock(l: Leaf, x: seq<seq<Complex>>, m0: Memory, m: Memory, r: nat, b: nat, i: nat)
    requires Setting(l, x, r) && Kernels.Valid(KernelOf(l)) && Points(l) > 0
    requires Settled(WritebackWork(l), WritebackGoal(l, x, r), l.groups * l.lanes, m0, m)
    requires b < r * l.groups && b < |x| && i < |x[b]| && OutputAt(l, x, m0, b, i)
    ensures OutputAt(l, x, m, b, i)
  {
    hide Valid, Kernels.Valid, Points, WritebackGoal, WritebackWork, Settled, Dft;
    ValidKernel(l);
    SettledIsOldOrGoal(WritebackWork(l), WritebackGoal(l, x, r), l.groups * l.lanes, m0, m);
    OutputGoal(l, x, r, b, i);
    CellKept(WritebackGoal(l, x, r), m0, m, Cell(Output, b * Points(l) + i));
  }

  /** The lane that copies element i of a block has it among its jobs. */
  lemma CopiesBack(l: Leaf, m0: Memory, r: nat, g: nat, lane: nat, id: nat, i: nat, job: Job)
    requires l.lanes > 0 && i < Points(l) && lane == CopyOwner(l.copy, Points(l), l.lanes, i) && lane < l.lanes && g < ActiveGroups(l, r)
    requires id / l.lanes == g && id % l.lanes == lane && RoundOf(l, m0, id) == r
    requires job == CopyCell(Cell(BankOf(g, |l.radices|), i), Cell(Output, (r * l.groups + g) * Points(l) + i))
    ensures job in WritebackWork(l)(id, m0)
  {
    hide Points, IndicesFor, CopyJobs, RoundOf, CopyOwner;
    IndexInside(l, lane, i);
    CopyJobIn(IndicesFor(l, lane), BankOf(g, |l.radices|), 0, Output, (r * l.groups + g) * Points(l), i);
    assert 0 + i == i;
  }

  lemma ThisBlock(l: Leaf, x: seq<seq<Complex>>, m0: Memory, m: Memory, r: nat, g: nat, i: nat)
    requires WritebackSetting(l, x, m0, r) && Kernels.Valid(KernelOf(l)) && Points(l) > 0
    requires Settled(WritebackWork(l), WritebackGoal(l, x, r), l.groups * l.lanes, m0, m)
    requires g < ActiveGroups(l, r) && r * l.groups + g < |x| && i < |x[r * l.groups + g]|
    ensures OutputAt(l, x, m, r * l.groups + g, i)
  {
    hide Valid, Kernels.Valid, Points, WritebackGoal, WritebackWork, Settled, Dft, Signal, IndicesFor, CopyJobs, Between, RoundOf, CopyOwner;
    ValidKernel(l);
    ActiveBlock(l, x, r, g);
    var b := r * l.groups + g;
    var lane := CopyOwner(l.copy, Points(l), l.lanes, i);
    IndexInside(l, 0, i);
    ThreadOfLane(l, g, lane);
    var id := lane + l.lanes * g;
    BetweenParts(l, x, m0, r, 0);
    ReadsRound(l, m0, r, id);
    var job := CopyCell(Cell(BankOf(g, |l.radices|), i), Cell(Output, b * Points(l) + i));
    CopiesBack(l, m0, r, g, lane, id, i, job);
    Lands(WritebackWork(l), WritebackGoal(l, x, r), l.groups * l.lanes, m0, m, id, job, Write(job.to, Read(m0, job.from)));
    assert UnitHolds(l, x, m0, r, g, |l.radices|);
    assert BankAt(l, x[b], m0, g, |l.radices|, i);
    SignalEnds(l, x[b], i);
  }

  // -------- the whole run

  /** ceil(blocks / groups) */
  function Rounds(l: Leaf): nat
    requires l.groups > 0
  {
    (l.blocks + l.groups - 1) / l.groups
  }

  lemma RoundsCover(l: Leaf, r: nat)
    requires l.groups > 0
    ensures r < Rounds(l) <==> r * l.groups < l.blocks
  {
    var n := Rounds(l);
    Recompose(l.blocks + l.groups - 1, l.groups);
    if r < n {
      assert r * l.groups <= (n - 1) * l.groups;
      assert (n - 1) * l.groups == n * l.groups - l.groups;
    } else {
      assert r * l.groups >= n * l.groups;
    }
  }

  /** The input in place, and every scratchpad cell still zero. */
  ghost predicate Fresh(l: Leaf, x: seq<seq<Complex>>, m: Memory) {
    InputHolds(l, x, m) && forall c: Cell :: c.bank.Local? ==> Read(m, c) == ZERO
  }

  lemma FreshIsBetween(l: Leaf, x: seq<seq<Complex>>, m: Memory)
    requires Fresh(l, x, m)
    ensures Between(l, x, m, 0, 0)
  {
    hide Dft;
    CountersReadBack(0);
    forall g: nat, lane: nat ensures Read(m, RoundCell(g, lane)) == ZERO && Read(m, WaveCell(g, lane)) == ZERO {
    }
  }

  lemma PreloadLaunch(l: Leaf, x: seq<seq<Complex>>, m0: Memory, r: nat)
    requires Setting(l, x, r) && Between(l, x, m0, r, 0) && Kernels.Valid(KernelOf(l)) && l.lanes > 0
    ensures Disciplined(PreloadWork(l), PreloadGoal(l, x, r), Owners(l), l.groups * l.lanes, m0)
  {
    hide Setting, Between, Kernels.Valid, ThreadIsDisciplined, PreloadWork, PreloadGoal, Owners;
    forall id: nat | id < l.groups * l.lanes ensures ThreadIsDisciplined(PreloadWork(l), PreloadGoal(l, x, r), Owners(l), id, m0) {
      PreloadThread(l, x, m0, r, id);
    }
  }

  lemma StageLaunch(l: Leaf, x: seq<seq<Complex>>, m0: Memory, r: nat, s: nat, v: nat)
    requires StageSetting(l, x, m0, r, s, v) && Valid(l)
    ensures Disciplined(StageWork(l, s), StageGoal(l, x, r, s, v), Owners(l), l.groups * l.lanes, m0)
  {
    hide Between, BanksHold, Kernels.Valid, DealtAt, ThreadIsDisciplined, StageWork, StageGoal, Owners;
    forall id: nat | id < l.groups * l.lanes ensures ThreadIsDisciplined(StageWork(l, s), StageGoal(l, x, r, s, v), Owners(l), id, m0) {
      StageThread(l, x, m0, r, s, v, id);
    }
  }

  lemma WritebackLaunch(l: Leaf, x: seq<seq<Complex>>, m0: Memory, r: nat)
    requires WritebackSetting(l, x, m0, r) && Kernels.Valid(KernelOf(l)) && Points(l) > 0 && l.lanes > 0
    ensures Disciplined(WritebackWork(l), WritebackGoal(l, x, r), Owners(l), l.groups * l.lanes, m0)
  {
    hide WritebackSetting, Kernels.Valid, ThreadIsDisciplined, WritebackWork, WritebackGoal, Owners, Points;
    forall id: nat | id < l.groups * l.lanes ensures ThreadIsDisciplined(WritebackWork(l), WritebackGoal(l, x, r), Owners(l), id, m0) {
      WritebackThread(l, x, m0, r, id);
    }
  }

  /** One stage of one round: a single launch, or one for each wave. */
  method RunStageOfRound(l: Leaf, x: seq<seq<Complex>>, device: Device, r: nat, s: nat)
    requires Setting(l, x, r) && s < |l.radices| && Between(l, x, device.memory, r, 0) && BanksHold(l, x, device.memory, r, s)
    modifies device
    ensures Between(l, x, device.memory, r, 0) && BanksHold(l, x, device.memory, r, s + 1)
  {
    hide Between, BanksHold, Valid, StageWork, StageGoal, Owners, Settled, Disciplined, ElementsDone, Waves, Kernels.Valid;
    ValidKernel(l);
    WaveCount(l.workers, l.lanes);
    var v := 0;
    NoElements(l, x, device.memory, r, s);
    while v < Launches(l)
      invariant 0 <= v <= Launches(l)
      invariant Between(l, x, device.memory, r, if v == Launches(l) then 0 else v) && BanksHold(l, x, device.memory, r, s)
      invariant ElementsDone(l, x, device.memory, r, s, v)
    {
      ghost var m0 := device.memory;
      StageLaunch(l, x, m0, r, s, v);
      device.Launch(StageWork(l, s), StageGoal(l, x, r, s, v), Owners(l), l.groups * l.lanes);
      NextElements(l, x, m0, device.memory, r, s, v);
      StageLaunchKeeps(l, x, m0, device.memory, r, s, v);
      v := v + 1;
    }
    AllElements(l, x, device.memory, r, s);
  }

  /** The whole leaf.  For any number of blocks, groups, lanes and logical workers, any lowering
      and copy mode, and any order of steps within each launch, every block is transformed. */
  method RunLeaf(l: Leaf, x: seq<seq<Complex>>, device: Device)
    requires Valid(l) && Blocks(l, x) && Fresh(l, x, device.memory)
    modifies device
    ensures forall b: nat, i: nat :: b < |x| && i < |x[b]| ==> OutputAt(l, x, device.memory, b, i)
  {
    hide Between, BanksHold, Valid, PreloadWork, PreloadGoal, WritebackWork, WritebackGoal, Owners, Settled, Disciplined, Fresh, OutputAt, Points, Rounds, Kernels.Valid;
    ValidKernel(l);
    PointsPositive(l);
    FreshIsBetween(l, x, device.memory);
    var r := 0;
    RoundsCover(l, 0);
    while r < Rounds(l)
      invariant 0 <= r <= Rounds(l)
      invariant Between(l, x, device.memory, r, 0)
    {
      RoundsCover(l, r);
      ghost var m0 := device.memory;
      PreloadLaunch(l, x, m0, r);
      device.Launch(PreloadWork(l), PreloadGoal(l, x, r), Owners(l), l.groups * l.lanes);
      PreloadEffect(l, x, m0, device.memory, r);
      var s := 0;
      while s < |l.radices|
        invariant 0 <= s <= |l.radices|
        invariant Between(l, x, device.memory, r, 0) && BanksHold(l, x, device.memory, r, s)
      {
        RunStageOfRound(l, x, device, r, s);
        s := s + 1;
      }
      ghost var m1 := device.memory;
      WritebackLaunch(l, x, m1, r);
      device.Launch(WritebackWork(l), WritebackGoal(l, x, r), Owners(l), l.groups * l.lanes);
      WritebackEffect(l, x, m1, device.memory, r);
      r := r + 1;
    }
    RoundsCover(l, r);
    BetweenParts(l, x, device.memory, r, 0);
  }
}
