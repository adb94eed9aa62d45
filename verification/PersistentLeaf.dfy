/** A persistent leaf: one group of microthreads on each physical unit transforms block after
    block through two scratchpad banks, guided by counters that only their owner writes. */
module PersistentLeaf {
  import opened Complexes
  import opened DivMod
  import opened Fourier
  import opened Memories
  import opened Batches
  import opened Chunking
  import opened LoopStages
  import opened StageRuns
  import opened PieceWrites
  import opened RolledLanes
  import opened Reroll
  import opened Stockham
  import opened StagePlans
  import opened StageEffects
  import opened Workers
  import opened BulkCopy
  import opened Phases
  import SmallButterflies
  import Kernels

  datatype Mode = Wave | Fused | Physical

  /** A leaf's plan; rolls tells which of the lists that are dealt out the emitter makes a loop of. */
  datatype Leaf = Leaf(constants: SmallButterflies.Constants, inverse: bool, radices: seq<nat>, simdLanes: nat, scale: Option<real>,
                       blocks: nat, groups: nat, lanes: nat, workers: nat, reserved: bool,
                       mode: Mode, copy: CopyMode, widths: seq<nat>, rolls: seq<Batch> -> bool)

  /** The same stages as a kernel of one microthread. */
  function KernelOf(l: Leaf): Kernels.Kernel {
    Kernels.Kernel(l.constants, l.inverse, l.radices, l.simdLanes, true, 1, 1, false, l.scale, (_: int) => ONE)
  }

  function Points(l: Leaf): nat {
    Product(l.radices)
  }

  // -------- banks and counters

  /** Stage s reads bank s and writes bank s + 1. */
  function BankOf(g: nat, s: nat): Bank {
    Local(g, if s % 2 == 0 then "buf_a" else "buf_b")
  }

  function RoundCell(g: nat, lane: nat): Cell {
    Cell(Local(g, "round_tracker"), lane)
  }

  function WaveCell(g: nat, lane: nat): Cell {
    Cell(Local(g, "wave_tracker"), lane)
  }

  lemma BanksDiffer(g: nat, h: nat, s: nat, c: int, lane: nat)
    ensures BankOf(g, s) != BankOf(h, s + 1)
    ensures Cell(BankOf(g, s), c) != RoundCell(h, lane) && Cell(BankOf(g, s), c) != WaveCell(h, lane)
    ensures RoundCell(g, lane) != WaveCell(h, lane)
  {
    assert |"buf_a"| == |"buf_b"| == 5 && |"round_tracker"| == 13 && |"wave_tracker"| == 12;
    assert "buf_a"[4] != "buf_b"[4];
  }

  /** Counters are kept as numbers in float cells. */
  function FromInt(n: int): Complex {
    Complex(n as real, 0.0)
  }

  function AsNat(v: Complex): nat {
    if v.re.Floor < 0 then 0 else v.re.Floor
  }

  lemma CountersReadBack(n: nat)
    ensures AsNat(FromInt(n)) == n && FromInt(0) == ZERO
  {
  }

  // -------- stages

  ghost predicate Valid(l: Leaf) {
    && Kernels.Valid(KernelOf(l)) && l.blocks > 0 && l.groups > 0 && l.lanes > 0 && l.workers > 0
    && |l.widths| == |l.radices| && (forall s :: 0 <= s < |l.widths| ==> l.widths[s] > 0)
    && (forall g: nat, s: nat :: s < |l.radices| ==> DealtAt(l, g, s))
    && (forall batches: seq<Batch> :: l.rolls(batches) ==> Loopable(SortById(batches), l.simdLanes, LOOP_MIN_FULL_BATCHES))
  }

  ghost predicate DealtAt(l: Leaf, g: nat, s: nat)
    requires Kernels.Valid(KernelOf(l)) && s < |l.radices|
  {
    Partition(BatchesAt(l, g, s), l.workers, l.simdLanes, l.reserved).Dealt?
  }

  function SpecAt(l: Leaf, g: nat, s: nat): Spec
    requires Kernels.Valid(KernelOf(l)) && s < |l.radices|
  {
    Kernels.ValidIsPositive(KernelOf(l));
    Kernels.SpecAt(KernelOf(l), s).(forced := true, readBuffer := BankOf(g, s), writeBuffer := BankOf(g, s + 1))
  }

  function BatchesAt(l: Leaf, g: nat, s: nat): seq<Batch>
    requires Kernels.Valid(KernelOf(l)) && s < |l.radices|
  {
    SpecIsLowered(l, g, s);
    LowerStage(SpecAt(l, g, s))
  }

  function StageAt(l: Leaf, s: nat): Stage
    requires Kernels.Valid(KernelOf(l)) && s < |l.radices|
  {
    Kernels.StageAt(KernelOf(l), s)
  }

  function Before(l: Leaf, s: nat): nat
    requires s <= |l.radices|
  {
    Product(l.radices[..s])
  }

  function After(l: Leaf, s: nat): nat
    requires s < |l.radices|
  {
    Product(l.radices[s + 1..])
  }

  lemma SpecIsLowered(l: Leaf, g: nat, s: nat)
    requires Kernels.Valid(KernelOf(l)) && s < |l.radices|
    ensures l.radices[s] > 0 && Before(l, s) > 0
    ensures Lowers(SpecAt(l, g, s), Points(l), l.radices[s], Before(l, s), After(l, s)) && Separate(SpecAt(l, g, s))
    ensures SpecAt(l, g, s).layout.laneDivisor > 0 && SpecAt(l, g, s).simdLanes == l.simdLanes
    ensures ComputesDft(StageAt(l, s), l.constants.turn, l.inverse, l.radices[s])
  {
    hide IsTurn, LayoutFor, Kernels.StageAt, ComputesDft;
    Kernels.SpecLowers(KernelOf(l), s);
    Kernels.StageComputesDft(KernelOf(l), s);
    BanksDiffer(g, g, s, 0, 0);
  }

  /** The signal of a block before stage s; after the last stage it is scaled. */
  function Signal(l: Leaf, x: seq<Complex>, s: nat): (y: seq<Complex>)
    requires Kernels.Valid(KernelOf(l)) && s <= |l.radices|
    ensures |y| == |x|
  {
    Kernels.ValidIsPositive(KernelOf(l));
    var y := Staged(l.constants.turn, l.inverse, x, l.radices[..s]);
    if s == |l.radices| then seq(|x|, i requires 0 <= i < |x| => Scaled(l.scale, y[i])) else y
  }

  lemma SignalStarts(l: Leaf, x: seq<Complex>)
    requires Kernels.Valid(KernelOf(l))
    ensures Signal(l, x, 0) == x
  {
    assert l.radices[..0] == [];
  }

  /** Stage s takes a block's signal to the next one. */
  lemma SignalSteps(l: Leaf, x: seq<Complex>, g: nat, s: nat, a: nat)
    requires Kernels.Valid(KernelOf(l)) && s < |l.radices| && a < |x|
    ensures l.radices[s] > 0 && Before(l, s) > 0
    ensures Outgoing(SpecAt(l, g, s), StageAt(l, s), StageOf(l.constants.turn, l.inverse, Signal(l, x, s), l.radices[s], Before(l, s))[a], a)
            == Signal(l, x, s + 1)[a]
  {
    hide StageOf, Kernels.StageAt, LayoutFor;
    Kernels.ValidIsPositive(KernelOf(l));
    assert l.radices[..s + 1][..s] == l.radices[..s];
  }

  /** The last signal of a block is its transform, scaled. */
  lemma SignalEnds(l: Leaf, x: seq<Complex>, i: nat)
    requires Kernels.Valid(KernelOf(l)) && |x| == Points(l) && i < |x|
    ensures Signal(l, x, |l.radices|)[i] == Scaled(l.scale, Dft(l.constants.turn, l.inverse, x, i))
  {
    hide Staged, Dft;
    Kernels.ValidIsPositive(KernelOf(l));
    assert l.radices[..|l.radices|] == l.radices;
    StagesTransform(l.constants.turn, l.inverse, x, l.radices, i);
  }

  // -------- who runs which batch

  /** A stage can be dealt out exactly when there are two workers, or one and no tail to keep it
      from the full batches. */
  lemma DealtExactly(l: Leaf, g: nat, s: nat)
    requires Kernels.Valid(KernelOf(l)) && s < |l.radices|
    ensures DealtAt(l, g, s) <==> l.workers >= 2 || (l.workers == 1 && !l.reserved && Partial(BatchesAt(l, g, s), l.simdLanes) == [])
  {
    hide Kernels.Valid, Partial, LowerStage;
    SpecIsLowered(l, g, s);
    PositiveLanes(l);
    PlannedTail(SpecAt(l, g, s));
  }

  lemma PositiveLanes(l: Leaf)
    requires Kernels.Valid(KernelOf(l))
    ensures l.simdLanes > 0
  {
  }

  function AssignmentAt(l: Leaf, g: nat, s: nat): Assignment
    requires Valid(l) && s < |l.radices|
  {
    assert DealtAt(l, g, s);
    Partition(BatchesAt(l, g, s), l.workers, l.simdLanes, l.reserved).assignment
  }

  /** A list as it is dealt, or as it is run when it is rolled. */
  function OrderOf(l: Leaf, batches: seq<Batch>): (r: seq<Batch>)
    ensures multiset(r) == multiset(batches)
  {
    RolledPermutes(batches, l.simdLanes);
    if l.rolls(batches) then RolledOrder(batches, l.simdLanes) else batches
  }

  /** A rolled list has three full batches or more, which run in the order of their ids, and its
      partial batch, if it has one, runs last; a list that is not rolled runs as it is dealt. */
  lemma RolledListsRunSorted(l: Leaf, batches: seq<Batch>)
    requires Valid(l)
    ensures !l.rolls(batches) ==> OrderOf(l, batches) == batches
    ensures l.rolls(batches) ==>
              var order := OrderOf(l, batches);
              && TailIsLast(order, l.simdLanes) && RolledLanes.Ascending(Full(order, l.simdLanes))
              && |Full(order, l.simdLanes)| >= 3 && |Partial(order, l.simdLanes)| <= 1
  {
    hide Full, Partial, SortById, TailIsLast, Kernels.Valid, AllFit, AllSeqs;
    if l.rolls(batches) {
      RolledIsOrdered(batches, l.simdLanes);
      SortSorts(batches);
      FullAscends(SortById(batches), l.simdLanes);
    }
  }

  /** Any list of batches of the stage may be rolled: they all load from the stage's one bank. */
  lemma StageListsRoll(l: Leaf, g: nat, s: nat, batches: seq<Batch>)
    requires Kernels.Valid(KernelOf(l)) && s < |l.radices| && forall b :: b in batches ==> b in BatchesAt(l, g, s)
    ensures OneLoadBank(Full(SortById(batches), l.simdLanes))
  {
    hide Kernels.Valid, LowerStage, SortById, Full, SourceBank;
    SpecIsLowered(l, g, s);
    PositiveLanes(l);
    var full := Full(SortById(batches), l.simdLanes);
    forall b, j | 0 <= b < |full| && 0 <= j < |full[b].loads| && j < |full[0].loads| ensures full[b].loads[j].bank == full[0].loads[j].bank {
      InSorted(batches, full[b], l.simdLanes);
      InSorted(batches, full[0], l.simdLanes);
      LoadBank(SpecAt(l, g, s), full[b], j);
      LoadBank(SpecAt(l, g, s), full[0], j);
    }
  }

  lemma InSorted(batches: seq<Batch>, b: Batch, simdLanes: nat)
    requires b in Full(SortById(batches), simdLanes)
    ensures b in batches
  {
    hide Full, SortById;
    assert b in multiset(SortById(batches));
  }

  /** The lists of the logical workers as they are run. */
  function OrderedBodies(l: Leaf, a: Assignment): nat -> seq<Batch> {
    (w: nat) => OrderOf(l, WorkerBody(a, w))
  }

  /** The batches of a lane in the order it runs them: each list that is dispatched on its own
      may be rolled on its own. */
  function LaneOrder(l: Leaf, g: nat, s: nat, lane: nat): seq<Batch>
    requires Valid(l) && s < |l.radices|
  {
    AssignmentSize(l, g, s);
    var a := AssignmentAt(l, g, s);
    if Waves(l.workers, l.lanes) <= 1 then (if lane < l.workers then OrderOf(l, WorkerBody(a, lane)) else [])
    else if l.mode == Physical then OrderOf(l, Flatten(a, l.lanes, lane))
    else LaneWork(OrderedBodies(l, a), l.workers, l.lanes, lane)
  }

  /** Rolled or not, a lane runs what it was dealt, each batch as often. */
  lemma LaneRunsItsBatches(l: Leaf, g: nat, s: nat, lane: nat)
    requires Valid(l) && s < |l.radices| && lane < l.lanes
    ensures multiset(LaneOrder(l, g, s, lane)) == multiset(LaneBatches(l, g, s, lane))
  {
    hide Valid, AssignmentAt, OrderOf, LaneWork, Waves;
    SameWork(OrderedBodies(l, AssignmentAt(l, g, s)), Bodies(AssignmentAt(l, g, s)), l.workers, l.lanes, lane);
  }

  lemma {:induction false} SameWork(f: nat -> seq<Batch>, h: nat -> seq<Batch>, workers: nat, lanes: nat, lane: nat)
    requires lanes > 0 && forall w: nat :: multiset(f(w)) == multiset(h(w))
    ensures multiset(LaneWork(f, workers, lanes, lane)) == multiset(LaneWork(h, workers, lanes, lane))
  {
    if workers > 0 {
      SameWork(f, h, workers - 1, lanes, lane);
      assert multiset(f(workers - 1)) == multiset(h(workers - 1));
    }
  }

  /** What lane `lane` is dealt in a stage that is launched once. */
  function LaneBatches(l: Leaf, g: nat, s: nat, lane: nat): seq<Batch>
    requires Valid(l) && s < |l.radices|
  {
    AssignmentSize(l, g, s);
    var a := AssignmentAt(l, g, s);
    if Waves(l.workers, l.lanes) <= 1 then (if lane < l.workers then WorkerBody(a, lane) else [])
    else if l.mode == Physical then Flatten(a, l.lanes, lane)
    else LaneWork(Bodies(a), l.workers, l.lanes, lane)
  }

  lemma AssignmentSize(l: Leaf, g: nat, s: nat)
    requires Valid(l) && s < |l.radices|
    ensures |AssignmentAt(l, g, s).buckets| == l.workers && LastIsFree(AssignmentAt(l, g, s))
    ensures Together(Bodies(AssignmentAt(l, g, s)), l.workers) == multiset(BatchesAt(l, g, s))
  {
    hide Kernels.Valid, BatchesAt, Partition;
    assert DealtAt(l, g, s);
    PartitionCovers(BatchesAt(l, g, s), l.workers, l.simdLanes, l.reserved);
  }

  /** All three lowerings give a lane the same batches in the same order. */
  lemma LoweringsAgree(l: Leaf, g: nat, s: nat, lane: nat)
    requires Valid(l) && s < |l.radices| && lane < l.lanes
    ensures LaneBatches(l, g, s, lane) == LaneWork(Bodies(AssignmentAt(l, g, s)), l.workers, l.lanes, lane)
    ensures FirstWaves(AssignmentAt(l, g, s), l.lanes, lane, Waves(l.workers, l.lanes)) == LaneBatches(l, g, s, lane)
  {
    hide Valid, AssignmentAt, LaneWork, Flatten, Bodies, LastIsFree, Kernels.Valid, Waves;
    var a := AssignmentAt(l, g, s);
    PositiveWorkers(l);
    AssignmentSize(l, g, s);
    FlattenAgrees(a, l.lanes);
    WavesAgree(a, l.lanes, lane);
    if Waves(l.workers, l.lanes) <= 1 {
      WaveCount(l.workers, l.lanes);
      OneWaveIsBody(a, l.lanes, lane);
    }
  }

  lemma PositiveWorkers(l: Leaf)
    requires Valid(l)
    ensures l.workers > 0 && l.lanes > 0 && l.simdLanes > 0
  {
  }

  lemma OneWaveIsBody(a: Assignment, lanes: nat, lane: nat)
    ensures FirstWaves(a, lanes, lane, 1) == if lane < |a.buckets| then WorkerBody(a, lane) else []
  {
    assert FirstWaves(a, lanes, lane, 0) == [];
    assert 0 * lanes + lane == lane;
  }

  lemma {:induction false} InLaneWork(body: nat -> seq<Batch>, workers: nat, lanes: nat, lane: nat, b: Batch)
    requires lanes > 0
    ensures b in LaneWork(body, workers, lanes, lane) <==> exists j: nat :: j < workers && j % lanes == lane && b in body(j)
  {
    if workers > 0 {
      InLaneWork(body, workers - 1, lanes, lane, b);
    }
  }

  /** A batch of the stage is run by some logical worker, and workers run nothing else. */
  lemma WorkersRunTheStage(l: Leaf, g: nat, s: nat, b: Batch)
    requires Valid(l) && s < |l.radices|
    ensures b in BatchesAt(l, g, s) <==> exists j: nat :: j < l.workers && b in Bodies(AssignmentAt(l, g, s))(j)
  {
    hide AssignmentAt, BatchesAt, Bodies, Kernels.Valid, DealtAt;
    AssignmentSize(l, g, s);
    var a := AssignmentAt(l, g, s);
    if b in BatchesAt(l, g, s) {
      assert b in multiset(BatchesAt(l, g, s));
      InTogether(Bodies(a), l.workers, b);
    }
    if j: nat :| j < l.workers && b in Bodies(a)(j) {
      OfTogether(Bodies(a), l.workers, j, b);
      assert b in multiset(BatchesAt(l, g, s));
    }
  }
}
