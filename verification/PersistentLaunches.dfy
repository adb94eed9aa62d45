/** Each launch of a persistent leaf obeys the discipline under which the order of its
    microthreads does not matter, and does what it is meant to do. */
module PersistentLaunches {
  import opened Complexes
  import opened DivMod
  import opened Fourier
  import opened Memories
  import opened Batches
  import opened Chunking
  import opened StageRuns
  import opened PieceWrites
  import opened Workers
  import opened BulkCopy
  import opened Phases
  import opened PersistentLeaf
  import opened PersistentStages
  import opened PersistentPhases
  import Kernels

  // -------- what no launch disturbs

  ghost predicate SparesBank(goal: Goal, bank: Bank) {
    forall i: int :: goal(Cell(bank, i)) == None
  }

  ghost predicate SparesRounds(goal: Goal) {
    forall g: nat, lane: nat :: goal(RoundCell(g, lane)) == None
  }

  ghost predicate SparesWaves(goal: Goal) {
    forall g: nat, lane: nat :: goal(WaveCell(g, lane)) == None
  }

  /** A launch whose goal leaves a kind of cell alone leaves what is known of it. */
  lemma InputKept(l: Leaf, x: seq<seq<Complex>>, goal: Goal, m0: Memory, m: Memory)
    requires InputHolds(l, x, m0) && OldOrGoal(goal, m0, m) && SparesBank(goal, Input)
    ensures InputHolds(l, x, m)
  {
    forall b: nat, i: nat | b < |x| && i < |x[b]| ensures InputAt(l, x, m, b, i) {
      assert InputAt(l, x, m0, b, i);
      CellKept(goal, m0, m, Cell(Input, b * Points(l) + i));
    }
  }

  lemma RoundsKept(l: Leaf, goal: Goal, m0: Memory, m: Memory, r: nat)
    requires RoundsAt(l, m0, r) && OldOrGoal(goal, m0, m) && SparesRounds(goal)
    ensures RoundsAt(l, m, r)
  {
    hide RoundCell;
    forall g: nat, lane: nat | r * l.groups < l.blocks && g < l.groups && lane < l.lanes ensures RoundAt(m, g, lane, r) {
      assert RoundAt(m0, g, lane, r);
      CellKept(goal, m0, m, RoundCell(g, lane));
    }
  }

  lemma WavesKept(l: Leaf, goal: Goal, m0: Memory, m: Memory, r: nat, v: nat)
    requires WavesAt(l, m0, r, v) && OldOrGoal(goal, m0, m) && SparesWaves(goal)
    ensures WavesAt(l, m, r, v)
  {
    hide WaveCell;
    forall g: nat, lane: nat | g < ActiveGroups(l, r) && lane < l.lanes ensures WaveAt(m, g, lane, v) {
      assert WaveAt(m0, g, lane, v);
      CellKept(goal, m0, m, WaveCell(g, lane));
    }
  }

  lemma OutputKept(l: Leaf, x: seq<seq<Complex>>, goal: Goal, m0: Memory, m: Memory, n: nat)
    requires OutputDone(l, x, m0, n) && OldOrGoal(goal, m0, m)
    requires forall b: nat, i: nat :: b < n && b < |x| && i < |x[b]| ==> LeavesOutput(l, goal, b, i)
    ensures OutputDone(l, x, m, n)
  {
    hide Dft;
    forall b: nat, i: nat | b < n && b < |x| && i < |x[b]| ensures OutputAt(l, x, m, b, i) {
      assert OutputAt(l, x, m0, b, i) && LeavesOutput(l, goal, b, i);
      CellKept(goal, m0, m, Cell(Output, b * Points(l) + i));
    }
  }

  ghost predicate LeavesOutput(l: Leaf, goal: Goal, b: nat, i: nat) {
    goal(Cell(Output, b * Points(l) + i)) == None
  }

  /** The first counter read by a microthread of an undisturbed group. */
  lemma ReadsRound(l: Leaf, m: Memory, r: nat, id: nat)
    requires l.lanes > 0 && RoundsAt(l, m, r) && r * l.groups < l.blocks && id < l.groups * l.lanes
    ensures RoundOf(l, m, id) == r
  {
    LaneOfThread(l, id);
    assert RoundAt(m, id / l.lanes, id % l.lanes, r);
    CountersReadBack(r);
  }

  lemma ReadsWave(l: Leaf, m: Memory, r: nat, v: nat, id: nat)
    requires l.lanes > 0 && WavesAt(l, m, r, v) && id < l.groups * l.lanes && id / l.lanes < ActiveGroups(l, r)
    ensures WaveOf(l, m, id) == v
  {
    LaneOfThread(l, id);
    assert WaveAt(m, id / l.lanes, id % l.lanes, v);
    CountersReadBack(v);
  }

  // -------- preload

  /** The bank goals leave the ends of the kernel and every counter alone. */
  lemma BankGoalSpares(l: Leaf, x: seq<seq<Complex>>, r: nat, s: nat, c: Cell)
    requires Kernels.Valid(KernelOf(l)) && s <= |l.radices|
    requires !c.bank.Local? || (c.offset >= 0 && (c == RoundCell(c.bank.unit, c.offset) || c == WaveCell(c.bank.unit, c.offset)))
    ensures BankGoal(l, x, r, s, c) == None
  {
    hide Signal;
    if c.bank.Local? {
      BanksDiffer(c.bank.unit, c.bank.unit, s, c.offset, c.offset);
    }
  }

  lemma PreloadSpares(l: Leaf, x: seq<seq<Complex>>, r: nat)
    requires Kernels.Valid(KernelOf(l))
    ensures SparesBank(PreloadGoal(l, x, r), Input) && SparesBank(PreloadGoal(l, x, r), Output)
    ensures SparesRounds(PreloadGoal(l, x, r)) && SparesWaves(PreloadGoal(l, x, r))
  {
    hide BankGoal;
    forall c: Cell | !c.bank.Local? || (c.offset >= 0 && (c == RoundCell(c.bank.unit, c.offset) || c == WaveCell(c.bank.unit, c.offset)))
      ensures BankGoal(l, x, r, 0, c) == None
    {
      BankGoalSpares(l, x, r, 0, c);
    }
  }

  lemma PreloadThread(l: Leaf, x: seq<seq<Complex>>, m0: Memory, r: nat, id: nat)
    requires Setting(l, x, r) && Between(l, x, m0, r, 0) && id < l.groups * l.lanes
    ensures ThreadIsDisciplined(PreloadWork(l), PreloadGoal(l, x, r), Owners(l), id, m0)
  {
    hide Valid, BankOf, RoundOf, InputHolds, OutputDone, RoundsAt, WavesAt, JobIsStable, JobIsRightful, PreloadJobs, PreloadGoal, Owners, KeepsRest, KeepsOwn;
    ValidKernel(l);
    var work, goal := PreloadWork(l), PreloadGoal(l, x, r);
    LaneOfThread(l, id);
    ReadsRound(l, m0, r, id);
    var g, lane := id / l.lanes, id % l.lanes;
    forall m: Memory | KeepsRest(goal, m0, m) && KeepsOwn(Owners(l), id, m0, m) ensures work(id, m) == work(id, m0) {
      OwnCountersKept(l, id, m0, m);
    }
    forall job | job in work(id, m0) ensures JobIsStable(goal, m0, job) && JobIsRightful(goal, Owners(l), id, m0, job) {
      PreloadJob(l, x, m0, r, id, g, lane, job);
    }
  }

  lemma ValidKernel(l: Leaf)
    requires Valid(l)
    ensures Kernels.Valid(KernelOf(l)) && l.lanes > 0 && l.groups > 0 && l.workers > 0 && l.simdLanes > 0 && l.radices != []
    ensures |l.widths| == |l.radices| && forall s :: 0 <= s < |l.widths| ==> l.widths[s] > 0
  {
  }

  lemma PreloadJob(l: Leaf, x: seq<seq<Complex>>, m0: Memory, r: nat, id: nat, g: nat, lane: nat, job: Job)
    requires Setting(l, x, r) && InputHolds(l, x, m0) && lane < l.lanes && job in PreloadJobs(l, g, lane, r)
    ensures JobIsStable(PreloadGoal(l, x, r), m0, job) && JobIsRightful(PreloadGoal(l, x, r), Owners(l), id, m0, job)
  {
    hide Valid, InputHolds, JobIsStable, JobIsRightful, CopyJobs, Points, Signal, IndicesFor;
    ValidKernel(l);
    ActiveBlock(l, x, r, g);
    var i := CopyJobIs(IndicesFor(l, lane), Input, (r * l.groups + g) * Points(l), BankOf(g, 0), 0, job);
    IndexInside(l, lane, i);
    InputRead(l, x, m0, r * l.groups + g, i);
    SignalStarts(l, x[r * l.groups + g]);
    DataUnowned(l, g, 0, i);
    CopyIsDisciplined(PreloadGoal(l, x, r), Owners(l), id, m0, job.from, job.to);
  }

  lemma IndexInside(l: Leaf, lane: nat, i: nat)
    requires lane < l.lanes
    ensures i in IndicesFor(l, lane) <==> i < Points(l) && CopyOwner(l.copy, Points(l), l.lanes, i) == lane
    ensures i < Points(l) ==> CopyOwner(l.copy, Points(l), l.lanes, i) < l.lanes
  {
    EachCopiedOnce(l.copy, Points(l), l.lanes, lane, i);
  }

  lemma InputRead(l: Leaf, x: seq<seq<Complex>>, m: Memory, b: nat, i: nat)
    requires InputHolds(l, x, m) && b < |x| && i < |x[b]|
    ensures Read(m, Cell(Input, b * Points(l) + i)) == x[b][i]
  {
    assert InputAt(l, x, m, b, i);
  }

  /** After the preload every active unit's first bank holds its block. */
  lemma PreloadEffect(l: Leaf, x: seq<seq<Complex>>, m0: Memory, m: Memory, r: nat)
    requires Setting(l, x, r) && Between(l, x, m0, r, 0)
    requires Settled(PreloadWork(l), PreloadGoal(l, x, r), l.groups * l.lanes, m0, m)
    ensures Between(l, x, m, r, 0) && BanksHold(l, x, m, r, 0)
  {
    hide Valid, BankOf, RoundCell, WaveCell, InputHolds, OutputDone, WavesAt, RoundsAt, Signal, PreloadWork, PreloadGoal, BankHolds, Points, Settled, ActiveGroups;
    ValidKernel(l);
    var goal := PreloadGoal(l, x, r);
    SettledIsOldOrGoal(PreloadWork(l), goal, l.groups * l.lanes, m0, m);
    PreloadSpares(l, x, r);
    InputKept(l, x, goal, m0, m);
    RoundsKept(l, goal, m0, m, r);
    WavesKept(l, goal, m0, m, r, 0);
    OutputKept(l, x, goal, m0, m, r * l.groups);
    forall g: nat | g < ActiveGroups(l, r) ensures UnitHolds(l, x, m, r, g, 0) {
      UnitPreloaded(l, x, m0, m, r, g);
    }
  }

  lemma SettledIsOldOrGoal(work: Work, goal: Goal, count: nat, m0: Memory, m: Memory)
    requires Settled(work, goal, count, m0, m)
    ensures OldOrGoal(goal, m0, m)
  {
  }

  lemma Lands(work: Work, goal: Goal, count: nat, m0: Memory, m: Memory, id: nat, job: Job, w: Write)
    requires Settled(work, goal, count, m0, m) && id < count && job in work(id, m0) && w in JobWrites(m0, job)
    ensures Read(m, w.cell) == w.value
  {
    assert Landed(m, w);
  }

  lemma UnitPreloaded(l: Leaf, x: seq<seq<Complex>>, m0: Memory, m: Memory, r: nat, g: nat)
    requires Setting(l, x, r) && Between(l, x, m0, r, 0) && g < ActiveGroups(l, r)
    requires Settled(PreloadWork(l), PreloadGoal(l, x, r), l.groups * l.lanes, m0, m)
    ensures UnitHolds(l, x, m, r, g, 0)
  {
    hide Valid, BankOf, RoundCell, WaveCell, InputHolds, OutputDone, WavesAt, RoundsAt, Signal, Settled, Points, IndicesFor, CopyJobs, ActiveGroups;
    ValidKernel(l);
    ActiveBlock(l, x, r, g);
    var b := r * l.groups + g;
    forall i: nat | i < |x[b]| ensures BankAt(l, x[b], m, g, 0, i) {
      var lane := CopyOwner(l.copy, Points(l), l.lanes, i);
      IndexInside(l, 0, i);
      IndexInside(l, lane, i);
      ThreadOfLane(l, g, lane);
      var id := lane + l.lanes * g;
      ReadsRound(l, m0, r, id);
      CopyJobIn(IndicesFor(l, lane), Input, b * Points(l), BankOf(g, 0), 0, i);
      var job := CopyCell(Cell(Input, b * Points(l) + i), Cell(BankOf(g, 0), i));
      assert job in PreloadWork(l)(id, m0);
      InputRead(l, x, m0, b, i);
      Lands(PreloadWork(l), PreloadGoal(l, x, r), l.groups * l.lanes, m0, m, id, job, Write(job.to, Read(m0, job.from)));
      SignalStarts(l, x[b]);
    }
  }
}
