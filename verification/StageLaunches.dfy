/** The stage launches of a persistent leaf, one for each stage or one for each wave of it. */
module StageLaunches {
  import opened Complexes
  import opened DivMod
  import opened Fourier
  import opened Memories
  import opened Batches
  import opened Chunking
  import opened StageRuns
  import opened StagePlans
  import opened PieceWrites
  import opened Workers
  import opened Phases
  import opened PersistentLeaf
  import opened PersistentStages
  import opened PersistentPhases
  import opened PersistentLaunches
  import Kernels

  /** The waves of a stage that is launched once for each; otherwise one launch does it all. */
  function Launches(l: Leaf): nat
    requires l.lanes > 0
  {
    if Waved(l) then Waves(l.workers, l.lanes) else 1
  }

  /** A stage is launched once for each wave in wave mode, and once in the other modes. */
  lemma LaunchCount(l: Leaf)
    requires l.lanes > 0 && l.workers > 0
    ensures l.mode.Wave? ==> (Launches(l) - 1) * l.lanes < l.workers <= Launches(l) * l.lanes
    ensures !l.mode.Wave? ==> Launches(l) == 1
  {
    hide Waves;
    WaveCount(l.workers, l.lanes);
  }

  /** Between launch v and launch v + 1 of stage s. */
  ghost predicate StageSetting(l: Leaf, x: seq<seq<Complex>>, m: Memory, r: nat, s: nat, v: nat) {
    Setting(l, x, r) && s < |l.radices| && v < Launches(l) && Between(l, x, m, r, v) && BanksHold(l, x, m, r, s)
  }

  // -------- what the launch leaves alone

  lemma StageTargetIs(l: Leaf, x: seq<seq<Complex>>, r: nat, s: nat, v: nat, c: Cell)
    requires Valid(l) && s < |l.radices|
    ensures !c.bank.Local? ==> StageTarget(l, x, r, s, v, c) == None
    ensures c.bank.Local? && c.offset >= 0 && c == RoundCell(c.bank.unit, c.offset) ==> StageTarget(l, x, r, s, v, c) == None
    ensures c.bank.Local? && c.offset >= 0 && c == WaveCell(c.bank.unit, c.offset) && !Waved(l) ==> StageTarget(l, x, r, s, v, c) == None
    ensures (c.bank.Local? && (c.bank == BankOf(c.bank.unit, s) || c.bank == BankOf(c.bank.unit, s + 1)))
              ==> StageTarget(l, x, r, s, v, c) == BankGoal(l, x, r, s + 1, c)
  {
    hide Signal, Valid, BankGoal, ActiveGroups;
    ValidKernel(l);
    if !c.bank.Local? {
      BankGoalSpares(l, x, r, s + 1, c);
    } else if c.offset >= 0 {
      BanksDiffer(c.bank.unit, c.bank.unit, s, c.offset, c.offset);
      BanksDiffer(c.bank.unit, c.bank.unit, s + 1, c.offset, c.offset);
      if c == RoundCell(c.bank.unit, c.offset) || (c == WaveCell(c.bank.unit, c.offset) && !Waved(l)) {
        BankGoalSpares(l, x, r, s + 1, c);
      }
    }
  }

  lemma SourceSpared(l: Leaf, x: seq<seq<Complex>>, r: nat, s: nat, v: nat, g: nat, i: int)
    requires Valid(l) && s < |l.radices|
    ensures StageGoal(l, x, r, s, v)(Cell(BankOf(g, s), i)) == None
  {
    hide Valid, StageTarget;
    ValidKernel(l);
    StageTargetIs(l, x, r, s, v, Cell(BankOf(g, s), i));
    BanksDiffer(g, g, s, i, 0);
  }

  lemma StageSpares(l: Leaf, x: seq<seq<Complex>>, r: nat, s: nat, v: nat)
    requires Valid(l) && s < |l.radices|
    ensures SparesBank(StageGoal(l, x, r, s, v), Input) && SparesBank(StageGoal(l, x, r, s, v), Output)
    ensures SparesRounds(StageGoal(l, x, r, s, v)) && (!Waved(l) ==> SparesWaves(StageGoal(l, x, r, s, v)))
  {
    hide StageTarget, Valid;
    ValidKernel(l);
    forall c: Cell
      ensures !c.bank.Local? ==> StageTarget(l, x, r, s, v, c) == None
      ensures c.bank.Local? && c.offset >= 0 && c == RoundCell(c.bank.unit, c.offset) ==> StageTarget(l, x, r, s, v, c) == None
      ensures c.bank.Local? && c.offset >= 0 && c == WaveCell(c.bank.unit, c.offset) && !Waved(l) ==> StageTarget(l, x, r, s, v, c) == None
    {
      StageTargetIs(l, x, r, s, v, c);
    }
  }

  /** The goal of an element of the next signal is its value. */
  lemma ElementGoal(l: Leaf, x: seq<seq<Complex>>, r: nat, s: nat, v: nat, g: nat, a: nat)
    requires Setting(l, x, r) && s < |l.radices| && g < ActiveGroups(l, r) && a < Points(l)
    ensures r * l.groups + g < |x| && a < |x[r * l.groups + g]|
    ensures var w := ElementWrite(l, x[r * l.groups + g], g, s, a);
            StageGoal(l, x, r, s, v)(w.cell) == Some(w.value) && Owners(l)(w.cell) == None
  {
    hide Valid, Signal, StageTarget, CounterOwner, Points, ActiveGroups;
    ValidKernel(l);
    ActiveBlock(l, x, r, g);
    var c := Cell(BankOf(g, s + 1), a);
    StageTargetIs(l, x, r, s, v, c);
    DataUnowned(l, g, s + 1, a);
  }

  // -------- discipline

  lemma BatchWellFormed(l: Leaf, g: nat, s: nat, b: Batch)
    requires Kernels.Valid(KernelOf(l)) && s < |l.radices| && b in BatchesAt(l, g, s)
    ensures WellFormed(b, l.simdLanes) && l.simdLanes > 0
  {
    hide SpecAt, BatchesAt, MakeBatch, Kernels.StageAt, Lowers, WellFormed, NoOverlap, OneWriter, Separate;
    SpecIsLowered(l, g, s);
    var it := PlannedBatch(l, g, s, b);
    LoweredShape(SpecAt(l, g, s), Points(l), l.radices[s], Before(l, s), After(l, s));
    PlannedChunkable(SpecAt(l, g, s), Points(l), l.radices[s], Before(l, s), After(l, s), it);
  }

  /** What a microthread runs in this launch. */
  function LaunchBatches(l: Leaf, s: nat, g: nat, lane: nat, v: nat): seq<Batch>
    requires Valid(l) && s < |l.radices|
  {
    if Waved(l) then OrderOf(l, WaveBody(AssignmentAt(l, g, s), l.lanes, lane, v)) else LaneOrder(l, g, s, lane)
  }

  /** In whatever order, a launch runs what was dealt to it. */
  lemma LaunchRuns(l: Leaf, s: nat, g: nat, lane: nat, v: nat, b: Batch)
    requires Valid(l) && s < |l.radices| && lane < l.lanes
    ensures b in LaunchBatches(l, s, g, lane, v)
            <==> b in if Waved(l) then WaveBody(AssignmentAt(l, g, s), l.lanes, lane, v) else LaneBatches(l, g, s, lane)
  {
    hide Valid, AssignmentAt, OrderOf, LaneOrder, LaneBatches, WaveBody;
    var runs := LaunchBatches(l, s, g, lane, v);
    if Waved(l) {
      assert multiset(runs) == multiset(WaveBody(AssignmentAt(l, g, s), l.lanes, lane, v));
      assert b in runs <==> b in multiset(runs);
    } else {
      LaneRunsItsBatches(l, g, s, lane);
      assert b in runs <==> b in multiset(runs);
      assert b in LaneBatches(l, g, s, lane) <==> b in multiset(LaneBatches(l, g, s, lane));
    }
  }

  lemma LaunchBatchesArePlanned(l: Leaf, s: nat, g: nat, lane: nat, v: nat, b: Batch)
    requires Valid(l) && s < |l.radices| && lane < l.lanes && b in LaunchBatches(l, s, g, lane, v)
    ensures b in BatchesAt(l, g, s)
  {
    hide AssignmentAt, BatchesAt, LaneBatches, LaneOrder, OrderOf, LaunchBatches, WorkerBody, Kernels.Valid, DealtAt;
    AssignmentSize(l, g, s);
    var a := AssignmentAt(l, g, s);
    WorkersRunTheStage(l, g, s, b);
    LaunchRuns(l, s, g, lane, v, b);
    if Waved(l) {
      assert b in Bodies(a)(v * l.lanes + lane);
    } else {
      LoweringsAgree(l, g, s, lane);
      InLaneWork(Bodies(a), l.workers, l.lanes, lane, b);
    }
  }

  lemma PieceJob(l: Leaf, x: seq<seq<Complex>>, m0: Memory, r: nat, s: nat, v: nat, id: nat, g: nat, b: Batch, p: Piece)
    requires StageSetting(l, x, m0, r, s, v) && g < ActiveGroups(l, r)
    requires b in BatchesAt(l, g, s) && p in ChunkBatch(b, l.simdLanes, l.widths[s])
    ensures JobIsStable(StageGoal(l, x, r, s, v), m0, RunChunk(StageAt(l, s), p))
    ensures JobIsRightful(StageGoal(l, x, r, s, v), Owners(l), id, m0, RunChunk(StageAt(l, s), p))
  {
    hide Valid, BatchesAt, ChunkBatch, StageAt, BatchWrites, Signal, StageGoal, BankHolds, Owners, Between, BankOf, ActiveGroups;
    ValidKernel(l);
    var goal, job := StageGoal(l, x, r, s, v), RunChunk(StageAt(l, s), p);
    forall m: Memory | KeepsRest(goal, m0, m) ensures JobWrites(m, job) == JobWrites(m0, job) {
      forall i: int ensures Read(m, Cell(BankOf(g, s), i)) == Read(m0, Cell(BankOf(g, s), i)) {
        SourceSpared(l, x, r, s, v, g, i);
      }
      PieceReadsBank(l, g, s, m, m0, b, l.widths[s], p);
    }
    ActiveBlock(l, x, r, g);
    assert UnitHolds(l, x, m0, r, g, s);
    forall w | w in JobWrites(m0, job) ensures Rightful(goal, Owners(l), id, w) {
      var a := PieceStoresElement(l, x[r * l.groups + g], g, s, m0, b, l.widths[s], p, w);
      ElementGoal(l, x, r, s, v, g, a);
    }
  }

  lemma StageJob(l: Leaf, x: seq<seq<Complex>>, m0: Memory, r: nat, s: nat, v: nat, id: nat, g: nat, lane: nat, job: Job)
    requires StageSetting(l, x, m0, r, s, v) && lane < l.lanes && id == lane + l.lanes * g && job in StageJobs(l, s, g, lane, r, v)
    ensures JobIsStable(StageGoal(l, x, r, s, v), m0, job) && JobIsRightful(StageGoal(l, x, r, s, v), Owners(l), id, m0, job)
  {
    hide Valid, BatchesAt, ChunkBatch, StageAt, Between, BanksHold, JobIsStable, JobIsRightful, LaneOrder, OrderOf, WaveBody, AssignmentAt, StagePieces, ActiveGroups;
    ValidKernel(l);
    var batches := LaunchBatches(l, s, g, lane, v);
    if job.RunChunk? {
      assert job in ChunkJobs(l, s, batches);
      var i: nat :| i < |ChunkJobs(l, s, batches)| && ChunkJobs(l, s, batches)[i] == job;
      InStagePieces(batches, l.simdLanes, l.widths[s], job.piece);
      var b :| b in batches && job.piece in ChunkBatch(b, l.simdLanes, l.widths[s]);
      LaunchBatchesArePlanned(l, s, g, lane, v, b);
      PieceJob(l, x, m0, r, s, v, id, g, b, job.piece);
    } else {
      CountersOwned(l, g, lane);
      SetIsDisciplined(StageGoal(l, x, r, s, v), Owners(l), id, m0, WaveCell(g, lane), FromInt((v + 1) % Waves(l.workers, l.lanes)));
    }
  }

  lemma StageStart(l: Leaf, x: seq<seq<Complex>>, m0: Memory, r: nat, s: nat, v: nat, id: nat)
    requires StageSetting(l, x, m0, r, s, v) && id < l.groups * l.lanes
    ensures StartIsStable(StageWork(l, s), StageGoal(l, x, r, s, v), Owners(l), id, m0)
    ensures RoundOf(l, m0, id) == r && (id / l.lanes < ActiveGroups(l, r) ==> WaveOf(l, m0, id) == v)
  {
    hide Valid, StageJobs, Between, BanksHold, StageGoal, Owners, KeepsRest, KeepsOwn, RoundOf, WaveOf, RoundsAt, WavesAt, ActiveGroups;
    ValidKernel(l);
    LaneOfThread(l, id);
    BetweenParts(l, x, m0, r, v);
    ReadsRound(l, m0, r, id);
    if id / l.lanes < ActiveGroups(l, r) {
      ReadsWave(l, m0, r, v, id);
    }
    forall m: Memory | KeepsRest(StageGoal(l, x, r, s, v), m0, m) && KeepsOwn(Owners(l), id, m0, m)
      ensures StageWork(l, s)(id, m) == StageWork(l, s)(id, m0)
    {
      OwnCountersKept(l, id, m0, m);
    }
  }

  lemma BetweenParts(l: Leaf, x: seq<seq<Complex>>, m: Memory, r: nat, v: nat)
    requires Between(l, x, m, r, v)
    ensures InputHolds(l, x, m) && RoundsAt(l, m, r) && WavesAt(l, m, r, v) && OutputDone(l, x, m, r * l.groups)
  {
  }

  lemma StageThread(l: Leaf, x: seq<seq<Complex>>, m0: Memory, r: nat, s: nat, v: nat, id: nat)
    requires StageSetting(l, x, m0, r, s, v) && id < l.groups * l.lanes
    ensures ThreadIsDisciplined(StageWork(l, s), StageGoal(l, x, r, s, v), Owners(l), id, m0)
  {
    hide Valid, StageJobs, Between, BanksHold, StartIsStable, JobIsStable, JobIsRightful, StageGoal, Owners, RoundOf, WaveOf;
    ValidKernel(l);
    LaneOfThread(l, id);
    StageStart(l, x, m0, r, s, v, id);
    var g, lane := id / l.lanes, id % l.lanes;
    IdleStage(l, s, g, lane, r, WaveOf(l, m0, id), v);
    forall job | job in StageWork(l, s)(id, m0)
      ensures JobIsStable(StageGoal(l, x, r, s, v), m0, job) && JobIsRightful(StageGoal(l, x, r, s, v), Owners(l), id, m0, job)
    {
      StageJob(l, x, m0, r, s, v, id, g, lane, job);
    }
  }

  // An idle group does nothing, whatever its wave counters say.
  lemma IdleStage(l: Leaf, s: nat, g: nat, lane: nat, r: nat, wave: nat, v: nat)
    requires Valid(l) && s < |l.radices| && (g < ActiveGroups(l, r) ==> wave == v)
    ensures StageJobs(l, s, g, lane, r, wave) == StageJobs(l, s, g, lane, r, v)
  {
  }

  // -------- effect

  /** Worker j runs the batch that stores element a. */
  ghost predicate Runs(l: Leaf, g: nat, s: nat, j: nat, a: nat)
    requires Valid(l) && s < |l.radices|
  {
    a < Points(l) && j < l.workers && BatchFor(l, g, s, a) in WorkerBody(AssignmentAt(l, g, s), j)
  }

  lemma SomeoneRuns(l: Leaf, g: nat, s: nat, a: nat) returns (j: nat)
    requires Valid(l) && s < |l.radices| && a < Points(l)
    ensures Runs(l, g, s, j, a)
  {
    hide AssignmentAt, BatchesAt, BatchFor, WorkerBody, Kernels.Valid, DealtAt, Points;
    BatchForIsPlanned(l, g, s, a);
    WorkersRunTheStage(l, g, s, BatchFor(l, g, s, a));
    j :| j < l.workers && BatchFor(l, g, s, a) in Bodies(AssignmentAt(l, g, s))(j);
  }

  /** The elements of the workers of the first v launches are in place. */
  ghost predicate ElementsDone(l: Leaf, x: seq<seq<Complex>>, m: Memory, r: nat, s: nat, v: nat)
    requires Valid(l) && s < |l.radices|
  {
    forall g: nat, j: nat, a: nat :: g < ActiveGroups(l, r) && Runs(l, g, s, j, a) && LaunchedBefore(l, j, v) ==> ElementDone(l, x, m, r, s, g, a)
  }

  /** Worker j belongs to one of the first v launches of a stage. */
  predicate LaunchedBefore(l: Leaf, j: nat, v: nat)
    requires l.lanes > 0
  {
    if Waved(l) then j < v * l.lanes else v > 0
  }

  ghost predicate ElementDone(l: Leaf, x: seq<seq<Complex>>, m: Memory, r: nat, s: nat, g: nat, a: nat)
    requires Valid(l) && s < |l.radices|
  {
    r * l.groups + g < |x| && a < |x[r * l.groups + g]| ==> BankAt(l, x[r * l.groups + g], m, g, s + 1, a)
  }

  /** The element of a batch that some microthread runs in this launch lands. */
  lemma ElementLands(l: Leaf, x: seq<seq<Complex>>, m0: Memory, m: Memory, r: nat, s: nat, v: nat, g: nat, lane: nat, a: nat)
    requires StageSetting(l, x, m0, r, s, v) && g < ActiveGroups(l, r) && lane < l.lanes && a < Points(l)
    requires Settled(StageWork(l, s), StageGoal(l, x, r, s, v), l.groups * l.lanes, m0, m)
    requires BatchFor(l, g, s, a) in LaunchBatches(l, s, g, lane, v)
    ensures ElementDone(l, x, m, r, s, g, a)
  {
    hide Valid, BatchesAt, BatchFor, ChunkBatch, StageAt, BatchWrites, Signal, StageGoal, BankHolds, Between, BankOf, LaunchBatches, WellFormed, StagePieces, Points, Settled, StageJobs, ActiveGroups, RoundOf, WaveOf;
    ValidKernel(l);
    ActiveBlock(l, x, r, g);
    ThreadOfLane(l, g, lane);
    var id := lane + l.lanes * g;
    StageStart(l, x, m0, r, s, v, id);
    var block, b, batches := x[r * l.groups + g], BatchFor(l, g, s, a), LaunchBatches(l, s, g, lane, v);
    assert UnitHolds(l, x, m0, r, g, s);
    BatchForIsPlanned(l, g, s, a);
    BatchWellFormed(l, g, s, b);
    BatchForStores(l, block, g, s, m0, a);
    var p := WriteInPiece(StageAt(l, s), m0, b, l.simdLanes, l.widths[s], ElementWrite(l, block, g, s, a));
    InStagePieces(batches, l.simdLanes, l.widths[s], p);
    PieceIsJob(l, s, g, lane, r, v, p);
    Lands(StageWork(l, s), StageGoal(l, x, r, s, v), l.groups * l.lanes, m0, m, id, RunChunk(StageAt(l, s), p), ElementWrite(l, block, g, s, a));
  }

  lemma PieceIsJob(l: Leaf, s: nat, g: nat, lane: nat, r: nat, v: nat, p: Piece)
    requires Valid(l) && s < |l.radices| && g < ActiveGroups(l, r) && l.widths[s] > 0
    requires p in StagePieces(LaunchBatches(l, s, g, lane, v), l.simdLanes, l.widths[s])
    ensures RunChunk(StageAt(l, s), p) in StageJobs(l, s, g, lane, r, v)
  {
    hide StageAt, StagePieces, LaneOrder, OrderOf, WaveBody, AssignmentAt;
    var pieces := StagePieces(LaunchBatches(l, s, g, lane, v), l.simdLanes, l.widths[s]);
    var i: nat :| i < |pieces| && pieces[i] == p;
    assert ChunkJobs(l, s, LaunchBatches(l, s, g, lane, v))[i] == RunChunk(StageAt(l, s), p);
  }

  /** Worker j's batches are run in launch j / lanes when there is one for each wave, else in the only one. */
  lemma RunInLaunch(l: Leaf, s: nat, g: nat, j: nat, v: nat, b: Batch) returns (lane: nat)
    requires Valid(l) && s < |l.radices| && j < l.workers && b in WorkerBody(AssignmentAt(l, g, s), j)
    requires Waved(l) ==> v * l.lanes <= j < (v + 1) * l.lanes
    ensures lane < l.lanes && b in LaunchBatches(l, s, g, lane, v)
  {
    hide AssignmentAt, LaneBatches, LaneOrder, OrderOf, LaunchBatches, WorkerBody, Kernels.Valid, DealtAt, BatchesAt;
    var a := AssignmentAt(l, g, s);
    AssignmentSize(l, g, s);
    lane := j % l.lanes;
    LaunchRuns(l, s, g, lane, v, b);
    if Waved(l) {
      assert (v + 1) * l.lanes == v * l.lanes + l.lanes;
      InWave(j, l.lanes, v);
    } else {
      LoweringsAgree(l, g, s, lane);
      assert b in Bodies(a)(j);
      InLaneWork(Bodies(a), l.workers, l.lanes, lane, b);
    }
  }

  lemma NextElements(l: Leaf, x: seq<seq<Complex>>, m0: Memory, m: Memory, r: nat, s: nat, v: nat)
    requires StageSetting(l, x, m0, r, s, v) && ElementsDone(l, x, m0, r, s, v)
    requires Settled(StageWork(l, s), StageGoal(l, x, r, s, v), l.groups * l.lanes, m0, m)
    ensures ElementsDone(l, x, m, r, s, v + 1)
  {
    hide Valid, BatchFor, StageGoal, Between, BanksHold, LaunchBatches, Points, Settled, ActiveGroups, StageWork, ElementDone, AssignmentAt, WorkerBody;
    ValidKernel(l);
    SettledIsOldOrGoal(StageWork(l, s), StageGoal(l, x, r, s, v), l.groups * l.lanes, m0, m);
    forall g: nat, j: nat, a: nat | g < ActiveGroups(l, r) && Runs(l, g, s, j, a) && LaunchedBefore(l, j, v + 1)
      ensures ElementDone(l, x, m, r, s, g, a)
    {
      if !Waved(l) || j >= v * l.lanes {
        var lane := RunInLaunch(l, s, g, j, v, BatchFor(l, g, s, a));
        ElementLands(l, x, m0, m, r, s, v, g, lane, a);
      } else {
        assert ElementDone(l, x, m0, r, s, g, a);
        ElementStays(l, x, m0, m, r, s, v, g, a);
      }
    }
  }

  lemma ElementStays(l: Leaf, x: seq<seq<Complex>>, m0: Memory, m: Memory, r: nat, s: nat, v: nat, g: nat, a: nat)
    requires Setting(l, x, r) && s < |l.radices| && g < ActiveGroups(l, r) && a < Points(l)
    requires OldOrGoal(StageGoal(l, x, r, s, v), m0, m) && ElementDone(l, x, m0, r, s, g, a)
    ensures ElementDone(l, x, m, r, s, g, a)
  {
    hide Valid, Signal, StageGoal, ActiveGroups, Points, BankOf;
    ValidKernel(l);
    ActiveBlock(l, x, r, g);
    ElementGoal(l, x, r, s, v, g, a);
    CellStays(StageGoal(l, x, r, s, v), m0, m, Cell(BankOf(g, s + 1), a));
  }

  /** The first launch of a stage has nothing behind it. */
  lemma NoElements(l: Leaf, x: seq<seq<Complex>>, m: Memory, r: nat, s: nat)
    requires Valid(l) && s < |l.radices|
    ensures ElementsDone(l, x, m, r, s, 0)
  {
  }

  /** After the last launch of a stage every active unit holds the next signal. */
  lemma AllElements(l: Leaf, x: seq<seq<Complex>>, m: Memory, r: nat, s: nat)
    requires Setting(l, x, r) && s < |l.radices| && ElementsDone(l, x, m, r, s, Launches(l))
    ensures BanksHold(l, x, m, r, s + 1)
  {
    hide Valid, Signal, ActiveGroups, Points, BankOf, Runs, BankAt;
    ValidKernel(l);
    WaveCount(l.workers, l.lanes);
    var next := s + 1;
    forall g: nat | g < ActiveGroups(l, r) ensures UnitHolds(l, x, m, r, g, next) {
      ActiveBlock(l, x, r, g);
      var block := x[r * l.groups + g];
      forall a: nat | a < |block| ensures BankAt(l, block, m, g, next, a) {
        var j := SomeoneRuns(l, g, s, a);
        RunnerExists(l, g, s, j, a);
        assert ElementDone(l, x, m, r, s, g, a);
      }
    }
  }

  lemma RunnerExists(l: Leaf, g: nat, s: nat, j: nat, a: nat)
    requires Valid(l) && s < |l.radices| && Runs(l, g, s, j, a)
    ensures j < l.workers
  {
  }

  /** What a launch of a stage leaves besides the elements. */
  lemma StageLaunchKeeps(l: Leaf, x: seq<seq<Complex>>, m0: Memory, m: Memory, r: nat, s: nat, v: nat)
    requires StageSetting(l, x, m0, r, s, v)
    requires Settled(StageWork(l, s), StageGoal(l, x, r, s, v), l.groups * l.lanes, m0, m)
    ensures Between(l, x, m, r, if v + 1 == Launches(l) then 0 else v + 1) && BanksHold(l, x, m, r, s)
  {
    hide Valid, BankOf, InputHolds, OutputDone, WavesAt, RoundsAt, Signal, StageWork, StageGoal, BankHolds, BanksHold, Points, Settled, ActiveGroups, Launches, Between;
    ValidKernel(l);
    var goal := StageGoal(l, x, r, s, v);
    SettledIsOldOrGoal(StageWork(l, s), goal, l.groups * l.lanes, m0, m);
    StageSpares(l, x, r, s, v);
    BetweenParts(l, x, m0, r, v);
    InputKept(l, x, goal, m0, m);
    RoundsKept(l, goal, m0, m, r);
    OutputKept(l, x, goal, m0, m, r * l.groups);
    WavesStep(l, x, m0, m, r, s, v);
    SourceKept(l, x, m0, m, r, s, v);
    BetweenFrom(l, x, m, r, if v + 1 == Launches(l) then 0 else v + 1);
  }

  lemma BetweenFrom(l: Leaf, x: seq<seq<Complex>>, m: Memory, r: nat, v: nat)
    requires InputHolds(l, x, m) && RoundsAt(l, m, r) && WavesAt(l, m, r, v) && OutputDone(l, x, m, r * l.groups)
    ensures Between(l, x, m, r, v)
  {
  }

  lemma WavesStep(l: Leaf, x: seq<seq<Complex>>, m0: Memory, m: Memory, r: nat, s: nat, v: nat)
    requires StageSetting(l, x, m0, r, s, v)
    requires Settled(StageWork(l, s), StageGoal(l, x, r, s, v), l.groups * l.lanes, m0, m)
    ensures WavesAt(l, m, r, if v + 1 == Launches(l) then 0 else v + 1)
  {
    hide Valid, StageGoal, BanksHold, Settled, ActiveGroups, Between, StageJobs, RoundOf, WaveOf, WaveCell;
    ValidKernel(l);
    if !Waved(l) {
      StageSpares(l, x, r, s, v);
      BetweenParts(l, x, m0, r, v);
      SettledIsOldOrGoal(StageWork(l, s), StageGoal(l, x, r, s, v), l.groups * l.lanes, m0, m);
      WavesKept(l, StageGoal(l, x, r, s, v), m0, m, r, 0);
    } else {
      NextWave(v, Waves(l.workers, l.lanes));
      var next := (v + 1) % Waves(l.workers, l.lanes);
      forall g: nat, lane: nat | g < ActiveGroups(l, r) && lane < l.lanes ensures WaveAt(m, g, lane, next) {
        ActiveBlock(l, x, r, g);
        ThreadOfLane(l, g, lane);
        StageStart(l, x, m0, r, s, v, lane + l.lanes * g);
        BumpIsJob(l, s, g, lane, r, v);
        var job := SetCell(WaveCell(g, lane), FromInt((v + 1) % Waves(l.workers, l.lanes)));
        Lands(StageWork(l, s), StageGoal(l, x, r, s, v), l.groups * l.lanes, m0, m, lane + l.lanes * g, job, Write(job.cell, job.value));
      }
    }
  }

  lemma NextWave(v: nat, waves: nat)
    requires v < waves
    ensures (v + 1) % waves == if v + 1 == waves then 0 else v + 1
  {
    if v + 1 == waves {
      Decode(waves, 1, 0);
    } else {
      Decode(waves, 0, v + 1);
    }
  }

  lemma BumpIsJob(l: Leaf, s: nat, g: nat, lane: nat, r: nat, v: nat)
    requires Valid(l) && s < |l.radices| && g < ActiveGroups(l, r) && Waved(l)
    ensures SetCell(WaveCell(g, lane), FromInt((v + 1) % Waves(l.workers, l.lanes))) in StageJobs(l, s, g, lane, r, v)
  {
    hide ChunkJobs, WaveBody, AssignmentAt, Kernels.Valid, DealtAt;
    var jobs := StageJobs(l, s, g, lane, r, v);
    assert jobs[|jobs| - 1] == SetCell(WaveCell(g, lane), FromInt((v + 1) % Waves(l.workers, l.lanes)));
  }

  lemma SourceKept(l: Leaf, x: seq<seq<Complex>>, m0: Memory, m: Memory, r: nat, s: nat, v: nat)
    requires StageSetting(l, x, m0, r, s, v) && OldOrGoal(StageGoal(l, x, r, s, v), m0, m)
    ensures BanksHold(l, x, m, r, s)
  {
    hide Valid, BankOf, Signal, StageGoal, ActiveGroups, Between, OldOrGoal;
    ValidKernel(l);
    forall g: nat | g < ActiveGroups(l, r) ensures UnitHolds(l, x, m, r, g, s) {
      ActiveBlock(l, x, r, g);
      assert UnitHolds(l, x, m0, r, g, s);
      var block := x[r * l.groups + g];
      forall i: nat | i < |block| ensures BankAt(l, block, m, g, s, i) {
        assert BankAt(l, block, m0, g, s, i);
        SourceSpared(l, x, r, s, v, g, i);
        CellKept(StageGoal(l, x, r, s, v), m0, m, Cell(BankOf(g, s), i));
      }
    }
  }
}
