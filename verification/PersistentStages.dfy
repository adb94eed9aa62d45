/** What the batches of one stage do to one unit's banks, whoever runs them. */
module PersistentStages {
  import opened Complexes
  import opened DivMod
  import opened Fourier
  import opened Memories
  import opened Batches
  import opened Chunking
  import opened StageRuns
  import opened PieceWrites
  import opened Stockham
  import opened StagePlans
  import opened StageEffects
  import opened PersistentLeaf
  import Kernels

  /** Unit g's bank s holds a block's signal before stage s. */
  ghost predicate BankHolds(l: Leaf, x: seq<Complex>, m: Memory, g: nat, s: nat)
    requires Kernels.Valid(KernelOf(l)) && s <= |l.radices|
  {
    forall i: nat :: i < |x| ==> BankAt(l, x, m, g, s, i)
  }

  ghost predicate BankAt(l: Leaf, x: seq<Complex>, m: Memory, g: nat, s: nat, i: nat)
    requires Kernels.Valid(KernelOf(l)) && s <= |l.radices| && i < |x|
  {
    Read(m, Cell(BankOf(g, s), i)) == Signal(l, x, s)[i]
  }

  /** The write that puts element a of the next signal in its place. */
  function ElementWrite(l: Leaf, x: seq<Complex>, g: nat, s: nat, a: nat): Write
    requires Kernels.Valid(KernelOf(l)) && s < |l.radices| && a < |x|
  {
    Write(Cell(BankOf(g, s + 1), a), Signal(l, x, s + 1)[a])
  }

  lemma SourceIsBank(l: Leaf, g: nat, s: nat, i: int)
    requires Kernels.Valid(KernelOf(l)) && s < |l.radices|
    ensures Source(SpecAt(l, g, s), i) == Cell(BankOf(g, s), i) && Target(SpecAt(l, g, s), i) == Cell(BankOf(g, s + 1), i)
    ensures SourceBank(SpecAt(l, g, s)) == BankOf(g, s) && TargetBank(SpecAt(l, g, s)) == BankOf(g, s + 1)
  {
    hide LayoutFor, BankOf, Kernels.BufferOf;
    Kernels.ValidIsPositive(KernelOf(l));
  }

  lemma BankIsHolding(l: Leaf, x: seq<Complex>, m: Memory, g: nat, s: nat)
    requires Kernels.Valid(KernelOf(l)) && s < |l.radices| && BankHolds(l, x, m, g, s)
    ensures Holding(SpecAt(l, g, s), m, Signal(l, x, s))
  {
    hide SpecAt, Signal;
    forall i: nat | i < |x| ensures HoldsAt(SpecAt(l, g, s), m, Signal(l, x, s), i) {
      assert BankAt(l, x, m, g, s, i);
      SourceIsBank(l, g, s, i);
    }
  }

  /** The batch that stores element a. */
  function BatchFor(l: Leaf, g: nat, s: nat, a: nat): Batch
    requires Kernels.Valid(KernelOf(l)) && s < |l.radices| && a < Points(l)
  {
    hide SpecAt, FromBfly, MakeBatch, Lowers, Separate, ComputesDft, Kernels.StageAt, Product;
    SpecIsLowered(l, g, s);
    IterationOf(l, g, s, a);
    MakeBatch(SpecAt(l, g, s), FromBfly(l.radices[s], Before(l, s), a) / l.simdLanes)
  }

  lemma IterationOf(l: Leaf, g: nat, s: nat, a: nat)
    requires Kernels.Valid(KernelOf(l)) && s < |l.radices| && a < Points(l)
    ensures l.radices[s] > 0 && Before(l, s) > 0 && l.simdLanes > 0 && SpecAt(l, g, s).simdLanes == l.simdLanes
    ensures var bfly := FromBfly(l.radices[s], Before(l, s), a);
            bfly < SpecAt(l, g, s).layout.butterflies && (bfly / l.simdLanes) * SpecAt(l, g, s).simdLanes <= bfly
  {
    hide SpecAt, FromBfly, FromOutput, Destination, Product, Separate, ComputesDft, Kernels.StageAt, LayoutFor, IsTurn;
    SpecIsLowered(l, g, s);
    var r, p, m := l.radices[s], Before(l, s), After(l, s);
    var bfly := FromBfly(r, p, a);
    LoweredShape(SpecAt(l, g, s), Points(l), r, p, m);
    DestinationReaches(r, p, a);
    DestinationFits(r, p, m, bfly, FromOutput(r, p, a));
    Recompose(bfly, l.simdLanes);
    Butterflies(SpecAt(l, g, s), Points(l), r, p, m);
  }

  lemma LoweredShape(s: Spec, n: nat, r: nat, p: nat, m: nat)
    requires Lowers(s, n, r, p, m)
    ensures n == p * (r * m) && s.simdLanes > 0 && r > 0 && p > 0
  {
  }

  lemma BatchForIsPlanned(l: Leaf, g: nat, s: nat, a: nat)
    requires Kernels.Valid(KernelOf(l)) && s < |l.radices| && a < Points(l)
    ensures BatchFor(l, g, s, a) in BatchesAt(l, g, s)
  {
    hide SpecAt, FromBfly, MakeBatch, Product, Separate, ComputesDft, Kernels.StageAt, Lowers;
    SpecIsLowered(l, g, s);
    IterationOf(l, g, s, a);
    var spec := SpecAt(l, g, s);
    var it := FromBfly(l.radices[s], Before(l, s), a) / l.simdLanes;
    BeforeTheEnd(spec, it);
    FirstBatchesAre(spec, Iterations(spec), it);
    assert LowerStage(spec)[it] == MakeBatch(spec, it);
  }

  lemma BeforeTheEnd(s: Spec, it: nat)
    requires s.simdLanes > 0 && it * s.simdLanes < s.layout.butterflies
    ensures it < Iterations(s)
  {
    AllStarted(s);
    Decode(s.simdLanes, it, 0);
    Below(it * s.simdLanes, s.simdLanes, Iterations(s));
    assert s.simdLanes * Iterations(s) == Iterations(s) * s.simdLanes;
  }

  /** Loading from a memory that holds the signal, that batch stores element a of the next. */
  lemma BatchForStores(l: Leaf, x: seq<Complex>, g: nat, s: nat, m: Memory, a: nat)
    requires Kernels.Valid(KernelOf(l)) && s < |l.radices| && |x| == Points(l) && a < |x| && BankHolds(l, x, m, g, s)
    ensures ElementWrite(l, x, g, s, a) in BatchWrites(StageAt(l, s), m, BatchFor(l, g, s, a), l.simdLanes, |StageAt(l, s).order|)
  {
    hide SpecAt, FromBfly, FromOutput, Destination, MakeBatch, Product, Signal, Kernels.StageAt, BatchWrites, StageValue, Outgoing, ComputesDft, Lowers, Separate, Target, BankHolds, Holding, Kernels.Valid, BankOf;
    SpecIsLowered(l, g, s);
    IterationOf(l, g, s, a);
    BankIsHolding(l, x, m, g, s);
    var spec, r, p, n := SpecAt(l, g, s), l.radices[s], Before(l, s), Points(l);
    var bfly, k := FromBfly(r, p, a), FromOutput(r, p, a);
    var it, lane := bfly / l.simdLanes, bfly % l.simdLanes;
    Recompose(bfly, l.simdLanes);
    LaneIsValid(spec, it, lane);
    TurnOf(l, g, s);
    BatchStores(spec, n, r, p, After(l, s), StageAt(l, s), m, Signal(l, x, s), it, k, lane);
    DestinationReaches(r, p, a);
    SourceIsBank(l, g, s, a);
    SignalSteps(l, x, g, s, a);
  }

  lemma LaneIsValid(s: Spec, it: nat, lane: nat)
    requires s.layout.laneDivisor > 0 && lane < s.simdLanes && it * s.simdLanes + lane < s.layout.butterflies
    ensures lane < MakeBatch(s, it).valid
  {
    hide MakeLoad, MakeOutput;
  }

  lemma TurnOf(l: Leaf, g: nat, s: nat)
    requires Kernels.Valid(KernelOf(l)) && s < |l.radices|
    ensures SpecAt(l, g, s).turn == l.constants.turn && SpecAt(l, g, s).inverse == l.inverse
  {
    hide LayoutFor;
    Kernels.ValidIsPositive(KernelOf(l));
  }

  lemma PlannedBatch(l: Leaf, g: nat, s: nat, b: Batch) returns (it: nat)
    requires Kernels.Valid(KernelOf(l)) && s < |l.radices| && b in BatchesAt(l, g, s)
    ensures SpecAt(l, g, s).layout.laneDivisor > 0
    ensures it * SpecAt(l, g, s).simdLanes < SpecAt(l, g, s).layout.butterflies && b == MakeBatch(SpecAt(l, g, s), it)
  {
    hide SpecAt, MakeBatch, Product, Separate, ComputesDft, Kernels.StageAt, Lowers;
    SpecIsLowered(l, g, s);
    var spec := SpecAt(l, g, s);
    var i: nat :| i < |LowerStage(spec)| && LowerStage(spec)[i] == b;
    it := i;
    FirstBatchesAre(spec, Iterations(spec), it);
  }

  /** Every piece of every batch of the stage stores elements of the next signal, in place. */
  lemma PieceStoresElement(l: Leaf, x: seq<Complex>, g: nat, s: nat, m: Memory, b: Batch, width: nat, p: Piece, w: Write) returns (a: nat)
    requires Kernels.Valid(KernelOf(l)) && s < |l.radices| && |x| == Points(l) && BankHolds(l, x, m, g, s)
    requires b in BatchesAt(l, g, s) && width > 0 && p in ChunkBatch(b, l.simdLanes, width) && w in WritesOf(StageAt(l, s), m, p)
    ensures a < |x| && w == ElementWrite(l, x, g, s, a)
  {
    hide SpecAt, BatchesAt, MakeBatch, Destination, Product, Signal, Kernels.StageAt, BatchWrites, StageValue, StageOf, Outgoing, ComputesDft, Lowers, Separate, Target, ChunkBatch, WellFormed, BankHolds, Holding, NoOverlap, OneWriter, Agrees;
    SpecIsLowered(l, g, s);
    var spec, r, pr, n, st := SpecAt(l, g, s), l.radices[s], Before(l, s), Points(l), StageAt(l, s);
    var it := PlannedBatch(l, g, s, b);
    LoweredShape(spec, n, r, pr, After(l, s));
    PlannedChunkable(spec, n, r, pr, After(l, s), it);
    PieceWithin(st, m, b, l.simdLanes, width, p, w);
    BankIsHolding(l, x, m, g, s);
    TurnOf(l, g, s);
    a := BatchStoresElement(spec, n, r, pr, After(l, s), st, m, Signal(l, x, s), it, w);
    SourceIsBank(l, g, s, a);
    SignalSteps(l, x, g, s, a);
  }

  lemma BatchStoresElement(spec: Spec, n: nat, r: nat, p: nat, m: nat, stage: Stage, mem: Memory, x: seq<Complex>, it: nat, w: Write)
    returns (a: nat)
    requires Lowers(spec, n, r, p, m) && spec.layout.laneDivisor > 0 && it * spec.simdLanes < spec.layout.butterflies && r > 0 && p > 0
    requires |x| == n && Holding(spec, mem, x) && ComputesDft(stage, spec.turn, spec.inverse, r)
    requires w in BatchWrites(stage, mem, MakeBatch(spec, it), spec.simdLanes, |stage.order|)
    ensures a < n && w == Write(Target(spec, a), Outgoing(spec, stage, StageOf(spec.turn, spec.inverse, x, r, p)[a], a))
  {
    hide MakeBatch, Destination, BatchWrites, StageValue, Outgoing, ComputesDft, Lowers, Target, Holding, FromBfly, FromOutput, OneWriter;
    var k, lane := BatchOnlyStores(spec, n, r, p, m, stage, mem, it, w);
    var bfly := it * spec.simdLanes + lane;
    a := Destination(r, p, bfly, k);
    BatchStores(spec, n, r, p, m, stage, mem, x, it, k, lane);
    PlannedWritesOnce(spec, n, r, p, m, it);
    BatchAgrees(stage, mem, MakeBatch(spec, it), spec.simdLanes);
    BatchShape(spec, it);
    Butterflies(spec, n, r, p, m);
    LoweredShape(spec, n, r, p, m);
    DestinationInverts(r, p, bfly, k);
    DestinationFits(r, p, m, bfly, k);
  }

  /** What a piece of the stage loads is in the bank the stage reads. */
  lemma PieceReadsBank(l: Leaf, g: nat, s: nat, m: Memory, m': Memory, b: Batch, width: nat, p: Piece)
    requires Kernels.Valid(KernelOf(l)) && s < |l.radices| && b in BatchesAt(l, g, s) && width > 0 && p in ChunkBatch(b, l.simdLanes, width)
    requires forall i: int :: Read(m, Cell(BankOf(g, s), i)) == Read(m', Cell(BankOf(g, s), i))
    ensures WritesOf(StageAt(l, s), m, p) == WritesOf(StageAt(l, s), m', p)
  {
    hide SpecAt, BatchesAt, MakeBatch, Kernels.StageAt, BatchWrites, ComputesDft, Lowers, ChunkBatch, WellFormed, BankOf, NoOverlap, OneWriter, Loads, Separate, Product;
    SpecIsLowered(l, g, s);
    var spec := SpecAt(l, g, s);
    var it := PlannedBatch(l, g, s, b);
    LoweredShape(spec, Points(l), l.radices[s], Before(l, s), After(l, s));
    PlannedChunkable(spec, Points(l), l.radices[s], Before(l, s), After(l, s), it);
    SourceIsBank(l, g, s, 0);
    forall c | Loads(b, c) ensures Read(m, c) == Read(m', c) {
      LoadsFrom(spec, it, c);
      assert c == Cell(BankOf(g, s), c.offset);
    }
    PieceLooksAlike(StageAt(l, s), m, m', b, l.simdLanes, width, p);
  }
}
