/** A whole kernel: the planned stages, each run with the emitted butterfly, split and rolled
    as the emitter chooses, leave the transform of the input in the output. */
module Kernels {
  import opened Complexes
  import opened DivMod
  import opened Fourier
  import opened Memories
  import opened Permutations
  import opened Batches
  import opened Chunking
  import opened LoopStages
  import opened Reroll
  import opened StageRuns
  import opened Stockham
  import opened StagePlans
  import opened StageEffects
  import SL = StraightLine
  import SmallButterflies
  import FactorizedButterflies
  import SymmetricButterflies
  import Butterflies
  import Inversion

  datatype Kernel = Kernel(constants: SmallButterflies.Constants, inverse: bool, radices: seq<nat>, simdLanes: nat,
                           pingPong: bool, inStride: int, outStride: int, large: bool, scale: Option<real>, table: int -> Complex)

  // -------- buffers

  /** The buffer a stage other than the last writes. */
  function BufferOf(k: Kernel, stage: int): Bank {
    Buffer("scratchpad", if !k.pingPong then "buf" else if stage % 2 == 0 then "buf_a" else "buf_b")
  }

  function Points(k: Kernel): nat {
    Product(k.radices)
  }

  ghost predicate Valid(k: Kernel) {
    && k.constants.Valid() && |k.radices| > 0 && k.simdLanes > 0 && k.inStride != 0 && k.outStride != 0
    && forall i :: 0 <= i < |k.radices| ==> 2 <= k.radices[i] <= 17
  }

  lemma ValidIsPositive(k: Kernel)
    requires Valid(k)
    ensures AllPositive(k.radices) && forall i :: 0 <= i <= |k.radices| ==> AllPositive(k.radices[..i]) && Product(k.radices[..i]) > 0
  {
    forall i | 0 <= i <= |k.radices| ensures AllPositive(k.radices[..i]) && Product(k.radices[..i]) > 0 {
      ProductPositive(k.radices[..i]);
    }
  }

  /** The product of the radices before stage i. */
  function Before(k: Kernel, i: nat): nat
    requires i <= |k.radices|
  {
    Product(k.radices[..i])
  }

  function SpecAt(k: Kernel, i: nat): Spec
    requires i < |k.radices| && k.radices[i] > 0 && Before(k, i) > 0
  {
    var last := i == |k.radices| - 1;
    Spec(k.constants.turn, k.inverse, k.simdLanes, LayoutFor(Points(k), k.radices[i], Before(k, i), last, k.simdLanes), i == 0, last, false,
         BufferOf(k, i - 1), BufferOf(k, i), k.inStride, k.outStride, k.large, k.scale)
  }

  /** A stage that reads and writes buffers needs two of them: exactly the kernels of up to two
      stages, and those with ping-pong buffers, never read a bank they write. */
  lemma BanksAreSeparate(k: Kernel)
    requires Valid(k)
    ensures forall i :: 0 <= i < |k.radices| ==> k.radices[i] > 0 && Before(k, i) > 0
    ensures (forall i: nat :: i < |k.radices| ==> Separate(SpecAt(k, i))) <==> |k.radices| <= 2 || k.pingPong
  {
    ValidIsPositive(k);
    forall i: nat | i < |k.radices| && (|k.radices| <= 2 || k.pingPong) ensures Separate(SpecAt(k, i)) {
      StageIsSeparate(k, i);
    }
    if |k.radices| > 2 && !k.pingPong {
      OneBufferClashes(k);
    }
  }

  lemma StageIsSeparate(k: Kernel, i: nat)
    requires i < |k.radices| && k.radices[i] > 0 && Before(k, i) > 0 && (|k.radices| <= 2 || k.pingPong)
    ensures Separate(SpecAt(k, i))
  {
    hide LayoutFor, Product;
    if 0 < i < |k.radices| - 1 {
      NamesAlternate(k, i);
    }
  }

  lemma NamesAlternate(k: Kernel, i: nat)
    requires k.pingPong && i > 0
    ensures BufferOf(k, i - 1) != BufferOf(k, i)
  {
    assert "buf_a"[4] != "buf_b"[4];
  }

  lemma OneBufferClashes(k: Kernel)
    requires |k.radices| > 2 && !k.pingPong && k.radices[1] > 0 && Before(k, 1) > 0
    ensures !Separate(SpecAt(k, 1))
  {
    hide LayoutFor, Product;
  }

  lemma {:induction false} ProductSplits(radices: seq<nat>, i: nat)
    requires i <= |radices|
    ensures Product(radices) == Product(radices[..i]) * Product(radices[i..])
  {
    if i == |radices| {
      assert radices[..i] == radices && radices[i..] == [];
    } else {
      var n := |radices| - 1;
      var front := radices[..n];
      ProductSplits(front, i);
      assert front[..i] == radices[..i] && radices[i..][..n - i] == front[i..];
      assert Product(radices) == Product(front) * radices[n];
      assert Product(radices[i..]) == Product(front[i..]) * radices[n];
    }
  }

  /** What is left to do after stage i. */
  function After(k: Kernel, i: nat): nat
    requires i < |k.radices|
  {
    Product(k.radices[i + 1..])
  }

  lemma SpecLowers(k: Kernel, i: nat)
    requires Valid(k) && i < |k.radices|
    ensures k.radices[i] > 0 && Before(k, i) > 0
    ensures Lowers(SpecAt(k, i), Points(k), k.radices[i], Before(k, i), After(k, i))
    ensures SpecAt(k, i).layout.laneDivisor > 0
    ensures Before(k, i + 1) == Before(k, i) * k.radices[i]
  {
    hide IsTurn;
    ValidIsPositive(k);
    ProductSplits(k.radices, i);
    ProductPositive(k.radices[i + 1..]);
    FirstFactor(k.radices[i..]);
    assert k.radices[i..][1..] == k.radices[i + 1..];
    assert k.radices[..i + 1][..i] == k.radices[..i];
    if i == |k.radices| - 1 {
      assert k.radices[i + 1..] == [];
    }
  }

  lemma {:induction false} FirstFactor(radices: seq<nat>)
    requires radices != []
    ensures Product(radices) == radices[0] * Product(radices[1..])
  {
    if |radices| == 1 {
      assert radices[..0] == [] && radices[1..] == [];
    } else {
      var n := |radices| - 1;
      FirstFactor(radices[..n]);
      assert radices[..n][1..] == radices[1..][..n - 1];
    }
  }

  // -------- the butterfly as emitted

  /** The operands in their variables, and nothing else. */
  function Start(x: seq<Complex>): (st: SL.State)
    ensures st.ok && FactorizedButterflies.OperandsOnly(st.env, x)
  {
    SL.State(map r: SL.Ref | r in (set j | 0 <= j < |x| :: SL.Ref(SL.Operand, SL.Out, j)) :: x[r.k], [], true)
  }

  function Quiet(): SL.Caller {
    (k, v) => v
  }

  /** What the emitted program leaves in output i when started on x. */
  function Emitted(c: SmallButterflies.Constants, radix: nat, inverse: bool, x: seq<Complex>, i: nat): Complex
    requires !Butterflies.FormOf(radix).Rejected?
  {
    SL.Get(SL.Run(Butterflies.Program(c, radix, inverse, false), Start(x), Quiet()).env, SL.Ref(SL.Result, SL.Out, i))
  }

  function StageAt(k: Kernel, i: nat): Stage
    requires i < |k.radices| && !Butterflies.FormOf(k.radices[i]).Rejected?
  {
    var r := k.radices[i];
    Stage((x: seq<Complex>, o: nat) => Emitted(k.constants, r, k.inverse, x, o), Butterflies.CompletionOrder(r), k.table)
  }

  lemma EmittedIsDft(c: SmallButterflies.Constants, radix: nat, inverse: bool, x: seq<Complex>, i: nat)
    requires !Butterflies.FormOf(radix).Rejected? && c.Valid() && |x| == radix && i < radix
    ensures Emitted(c, radix, inverse, x, i) == Dft(c.turn, inverse, x, i)
  {
    hide SL.Run, Butterflies.Program, Butterflies.CompletionOrder, Dft, Start;
    Butterflies.ButterflyTransforms(c, radix, inverse, false, x, Start(x), Quiet());
    assert i in Butterflies.CompletionOrder(radix);
  }

  lemma StageComputesDft(k: Kernel, i: nat)
    requires Valid(k) && i < |k.radices|
    ensures ComputesDft(StageAt(k, i), k.constants.turn, k.inverse, k.radices[i])
  {
    hide Dft, Emitted, Butterflies.CompletionOrder;
    var r := k.radices[i];
    Butterflies.OrderPermutes(r);
    forall x: seq<Complex>, o: nat | |x| == r && o < r ensures OutputIsDft(StageAt(k, i), k.constants.turn, k.inverse, x, o) {
      EmittedIsDft(k.constants, r, k.inverse, x, o);
    }
  }

  // -------- stage after stage

  /** After i stages, the signal stands where stage i reads it. */
  ghost predicate Reached(k: Kernel, m: Memory, x: seq<Complex>, i: nat)
    requires Valid(k) && i < |k.radices|
  {
    ValidIsPositive(k);
    Holding(SpecAt(k, i), m, Staged(k.constants.turn, k.inverse, x, k.radices[..i]))
  }

  /** The output holds the transform, scaled and turned as the kernel asks. */
  ghost predicate Transformed(k: Kernel, m: Memory, x: seq<Complex>) {
    forall a: nat :: a < |x| ==> TransformedAt(k, m, x, a)
  }

  ghost predicate TransformedAt(k: Kernel, m: Memory, x: seq<Complex>, a: nat) {
    Read(m, Cell(Output, a * k.outStride)) == Finished(k, Dft(k.constants.turn, k.inverse, x, a), a * k.outStride)
  }

  function Finished(k: Kernel, v: Complex, offset: int): Complex {
    var scaled := Scaled(k.scale, v);
    if k.large then Mul(scaled, k.table(offset)) else scaled
  }

  lemma StagedNext(k: Kernel, x: seq<Complex>, i: nat)
    requires Valid(k) && i < |k.radices| && AllPositive(k.radices[..i]) && AllPositive(k.radices[..i + 1]) && Before(k, i) > 0
    ensures Staged(k.constants.turn, k.inverse, x, k.radices[..i + 1])
            == StageOf(k.constants.turn, k.inverse, Staged(k.constants.turn, k.inverse, x, k.radices[..i]), k.radices[i], Before(k, i))
  {
    assert k.radices[..i + 1][..i] == k.radices[..i];
  }

  lemma MiddleStage(k: Kernel, m: Memory, x: seq<Complex>, i: nat)
    requires Valid(k) && (|k.radices| <= 2 || k.pingPong) && i < |k.radices| - 1 && |x| == Points(k) && Reached(k, m, x, i)
    ensures k.radices[i] > 0 && Before(k, i) > 0 && SpecAt(k, i).layout.laneDivisor > 0
    ensures Reached(k, RunBatches(StageAt(k, i), m, LowerStage(SpecAt(k, i)), k.simdLanes), x, i + 1)
  {
    hide RunBatches, LowerStage, StageAt, StageOf, Staged, Lowers, ComputesDft, LayoutFor, IsTurn;
    ValidIsPositive(k);
    SpecLowers(k, i);
    BanksAreSeparate(k);
    StageComputesDft(k, i);
    var s := SpecAt(k, i);
    var y := Staged(k.constants.turn, k.inverse, x, k.radices[..i]);
    var m' := RunBatches(StageAt(k, i), m, LowerStage(s), k.simdLanes);
    StageEffect(s, Points(k), k.radices[i], Before(k, i), After(k, i), StageAt(k, i), m, y);
    StagedNext(k, x, i);
    SpecLowers(k, i + 1);
    var y' := Staged(k.constants.turn, k.inverse, x, k.radices[..i + 1]);
    var next := SpecAt(k, i + 1);
    forall a: nat | a < |y'| ensures HoldsAt(next, m', y', a) {
      assert Read(m', Target(s, a)) == Outgoing(s, StageAt(k, i), y'[a], a);
    }
  }

  lemma LastStage(k: Kernel, m: Memory, x: seq<Complex>)
    requires Valid(k) && (|k.radices| <= 2 || k.pingPong) && |x| == Points(k) && Reached(k, m, x, |k.radices| - 1)
    ensures var i := |k.radices| - 1;
            && k.radices[i] > 0 && Before(k, i) > 0 && SpecAt(k, i).layout.laneDivisor > 0
            && Transformed(k, RunBatches(StageAt(k, i), m, LowerStage(SpecAt(k, i)), k.simdLanes), x)
  {
    hide RunBatches, LowerStage, StageOf, Staged, Lowers, ComputesDft, LayoutFor, IsTurn, Dft, Emitted, Butterflies.CompletionOrder, Mul, Scaled;
    var i := |k.radices| - 1;
    ValidIsPositive(k);
    SpecLowers(k, i);
    BanksAreSeparate(k);
    StageComputesDft(k, i);
    var s := SpecAt(k, i);
    var y := Staged(k.constants.turn, k.inverse, x, k.radices[..i]);
    StageEffect(s, Points(k), k.radices[i], Before(k, i), After(k, i), StageAt(k, i), m, y);
    StagedNext(k, x, i);
    assert k.radices[..i + 1] == k.radices;
    var m' := RunBatches(StageAt(k, i), m, LowerStage(s), k.simdLanes);
    forall a: nat | a < |x| ensures TransformedAt(k, m', x, a) {
      StagesTransform(k.constants.turn, k.inverse, x, k.radices, a);
      assert Target(s, a) == Cell(Output, a * k.outStride);
    }
  }

  /** The planned stage as emitted, split at any width, leaves the memory of its whole batches. */
  lemma SplitStage(k: Kernel, m: Memory, i: nat, computeLanes: nat)
    requires Valid(k) && (|k.radices| <= 2 || k.pingPong) && i < |k.radices| && computeLanes > 0
    requires k.radices[i] > 0 && Before(k, i) > 0 && SpecAt(k, i).layout.laneDivisor > 0
    ensures RunPieces(StageAt(k, i), m, StagePieces(LowerStage(SpecAt(k, i)), k.simdLanes, computeLanes))
            == RunBatches(StageAt(k, i), m, LowerStage(SpecAt(k, i)), k.simdLanes)
  {
    hide StageAt, Lowers, MakeBatch, Chunkable, Separate, Iterations;
    var s := SpecAt(k, i);
    SpecLowers(k, i);
    BanksAreSeparate(k);
    forall b | b in LowerStage(s) ensures Chunkable(b, k.simdLanes) {
      var it: nat :| it < |LowerStage(s)| && LowerStage(s)[it] == b;
      FirstBatchesAre(s, Iterations(s), it);
      PlannedChunkable(s, Points(k), k.radices[i], Before(k, i), After(k, i), it);
    }
    StageChunkingPreserves(StageAt(k, i), m, LowerStage(s), k.simdLanes, computeLanes);
  }

  /** Every stage planned so far has its rows in the table. */
  ghost predicate AllPlanned(k: Kernel, plans: seq<Outcome>, rows: seq<Complex>)
    requires Valid(k)
  {
    ValidIsPositive(k);
    |plans| <= |k.radices| && forall i: nat :: i < |plans| ==> StagePlanned(k, plans, rows, i)
  }

  ghost predicate StagePlanned(k: Kernel, plans: seq<Outcome>, rows: seq<Complex>, i: nat)
    requires i < |plans| && i < |k.radices| && k.radices[i] > 0 && Before(k, i) > 0
  {
    SpecAt(k, i).layout.laneDivisor > 0 && SpecAt(k, i).simdLanes > 0 && !plans[i].Raised? && PlannedAs(plans[i], LowerStage(SpecAt(k, i)), k.simdLanes, rows)
  }

  lemma StageIsPlanned(k: Kernel, plans: seq<Outcome>, rows: seq<Complex>, i: nat)
    requires Valid(k) && AllPlanned(k, plans, rows) && i < |plans|
    ensures i < |k.radices| && k.radices[i] > 0 && Before(k, i) > 0 && StagePlanned(k, plans, rows, i)
  {
    hide StagePlanned;
    ValidIsPositive(k);
  }

  lemma OneMorePlanned(k: Kernel, plans: seq<Outcome>, r: Outcome, rows: seq<Complex>, later: seq<Complex>)
    requires Valid(k) && AllPlanned(k, plans, rows) && |plans| < |k.radices| && rows <= later && !r.Raised?
    requires var i := |plans|; k.radices[i] > 0 && Before(k, i) > 0 && SpecAt(k, i).layout.laneDivisor > 0 && SpecAt(k, i).simdLanes > 0
                               && PlannedAs(r, LowerStage(SpecAt(k, i)), k.simdLanes, later)
    ensures AllPlanned(k, plans + [r], later)
  {
    hide LowerStage, SpecAt, PlannedAs, Product;
    ValidIsPositive(k);
    forall i: nat | i < |plans| + 1 ensures StagePlanned(k, plans + [r], later, i) {
      if i < |plans| {
        assert StagePlanned(k, plans, rows, i);
        OutcomeSurvives(plans[i], LowerStage(SpecAt(k, i)), k.simdLanes, rows, later);
      }
    }
  }

  /** Stage i is looped when its batches can be, and not otherwise. */
  ghost predicate LoopedWhenItCan(k: Kernel, r: Outcome, minFull: int, i: nat) {
    && i < |k.radices| && k.radices[i] > 0 && Before(k, i) > 0
    && SpecAt(k, i).layout.laneDivisor > 0 && SpecAt(k, i).simdLanes > 0
    && (r.Looped? <==> Loopable(LowerStage(SpecAt(k, i)), k.simdLanes, minFull))
  }

  ghost predicate AllLooped(k: Kernel, plans: seq<Outcome>, minFull: int) {
    forall i: nat :: i < |plans| ==> LoopedWhenItCan(k, plans[i], minFull, i)
  }

  lemma OneMoreLooped(k: Kernel, plans: seq<Outcome>, r: Outcome, minFull: int)
    requires AllLooped(k, plans, minFull) && |plans| < |k.radices| && k.radices[|plans|] > 0 && Before(k, |plans|) > 0
    requires SpecAt(k, |plans|).layout.laneDivisor > 0 && SpecAt(k, |plans|).simdLanes > 0
    requires r.Looped? <==> Loopable(LowerStage(SpecAt(k, |plans|)), k.simdLanes, minFull)
    ensures AllLooped(k, plans + [r], minFull)
  {
    hide SpecAt, LowerStage, Loopable, Product;
  }

  lemma NothingPlanned(k: Kernel, rows: seq<Complex>, minFull: int)
    requires Valid(k)
    ensures AllPlanned(k, [], rows) && AllLooped(k, [], minFull)
  {
    ValidIsPositive(k);
  }

  /** Plans every stage of the kernel, the table growing from one to the next; all of them hold
      against the table as the last one leaves it. */
  method PlanKernel(k: Kernel, table: TwiddleTable, minFull: int) returns (plans: seq<Outcome>)
    requires Valid(k) && minFull > 0
    modifies table
    ensures |plans| == |k.radices| && AllPlanned(k, plans, table.rows)
    ensures AllLooped(k, plans, minFull)
    ensures old(table.rows) <= table.rows
  {
    hide AllLooped, SpecAt, LowerStage, Loopable, Lowers, PlannedAs, AllPlanned, Product;
    plans := [];
    NothingPlanned(k, table.rows, minFull);
    while |plans| < |k.radices|
      invariant |plans| <= |k.radices| && AllPlanned(k, plans, table.rows) && old(table.rows) <= table.rows
      invariant AllLooped(k, plans, minFull)
      decreases |k.radices| - |plans|
    {
      SpecLowers(k, |plans|);
      SimdOf(k, |plans|);
      ghost var rows := table.rows;
      var r := PlanStage(LowerStage(SpecAt(k, |plans|)), k.simdLanes, minFull, table);
      OneMorePlanned(k, plans, r, rows, table.rows);
      OneMoreLooped(k, plans, r, minFull);
      plans := plans + [r];
    }
  }

  /** One microthread runs the kernel, with the table its last stage leaves.  Whatever widths the stages are emitted at, and whichever
      of them are rolled, the output ends up holding the transform of the input. */
  method RunKernel(k: Kernel, x: seq<Complex>, machine: Machine, table: TwiddleTable, widths: seq<nat>, minFull: int, compact: bool)
    requires Valid(k) && (|k.radices| <= 2 || k.pingPong) && |x| == Points(k)
    requires |widths| == |k.radices| && (forall i :: 0 <= i < |widths| ==> widths[i] > 0) && minFull > 0
    requires forall a: nat :: a < |x| ==> Read(machine.memory, Cell(Input, a * k.inStride)) == x[a]
    modifies machine, table
    ensures Transformed(k, machine.memory, x)
  {
    hide RunPieces, RunBatches, StagePieces, LowerStage, Staged, StageAt, SpecAt, Transformed, OneLoadBank, TailIsLast, Loopable, Reached, Lowers, Product, AllPlanned;
    var plans := PlanKernel(k, table, minFull);
    var rows := table.rows;
    var i := 0;
    FirstReached(k, machine.memory, x);
    while i < |k.radices|
      invariant 0 <= i <= |k.radices|
      invariant i < |k.radices| ==> Reached(k, machine.memory, x, i)
      invariant i == |k.radices| ==> Transformed(k, machine.memory, x)
    {
      SpecLowers(k, i);
      var s := SpecAt(k, i);
      SimdOf(k, i);
      PlannedTail(s);
      PlannedLoadBank(s);
      ghost var before := machine.memory;
      StageIsPlanned(k, plans, rows, i);
      machine.RunStage(StageAt(k, i), LowerStage(s), k.simdLanes, widths[i], plans[i], rows, compact);
      SplitStage(k, before, i, widths[i]);
      if i < |k.radices| - 1 {
        MiddleStage(k, before, x, i);
      } else {
        LastStage(k, before, x);
      }
      i := i + 1;
    }
  }

  lemma SimdOf(k: Kernel, i: nat)
    requires i < |k.radices| && k.radices[i] > 0 && Before(k, i) > 0
    ensures SpecAt(k, i).simdLanes == k.simdLanes
  {
  }

  lemma FirstReached(k: Kernel, m: Memory, x: seq<Complex>)
    requires Valid(k) && forall a: nat :: a < |x| ==> Read(m, Cell(Input, a * k.inStride)) == x[a]
    ensures Reached(k, m, x, 0)
  {
    ValidIsPositive(k);
    assert k.radices[..0] == [];
    forall a: nat | a < |x| ensures HoldsAt(SpecAt(k, 0), m, x, a) {
      assert Source(SpecAt(k, 0), a) == Cell(Input, a * k.inStride);
    }
  }

  // -------- there and back

  /** The inverse kernel of the planner's own scale, fed with the output of the forward kernel
      of any other radices of the same product, gives the input back. */
  lemma KernelsInvert(forward: Kernel, inverse: Kernel, x: seq<Complex>, m: Memory, m': Memory, a: nat)
    requires Valid(forward) && Valid(inverse) && forward.constants.turn == inverse.constants.turn
    requires !forward.inverse && inverse.inverse && !forward.large && !inverse.large && |x| == Points(forward) == Points(inverse)
    requires a < |x| && forward.scale == None && inverse.scale == Some(1.0 / (|x| as real))
    requires Transformed(forward, m, x)
    requires Transformed(inverse, m', OutputOf(forward, m, |x|))
    ensures Read(m', Cell(Output, a * inverse.outStride)) == x[a]
  {
    hide Dft, Transformed;
    var t := forward.constants.turn;
    ValidIsPositive(forward);
    assert forward.radices[..|forward.radices|] == forward.radices;
    OutputIsTransform(forward, m, x);
    var y := OutputOf(forward, m, |x|);
    Inversion.InverseUndoes(t, false, x, a);
    TransformedIs(inverse, m', y, a);
    ScaleCancels(x[a], |x|);
  }

  /** The signal in the output. */
  function OutputOf(k: Kernel, m: Memory, n: nat): (y: seq<Complex>)
    ensures |y| == n
  {
    seq(n, a requires 0 <= a < n => Read(m, Cell(Output, a * k.outStride)))
  }

  lemma OutputIsTransform(k: Kernel, m: Memory, x: seq<Complex>)
    requires Transformed(k, m, x) && k.scale == None && !k.large
    ensures OutputOf(k, m, |x|) == Inversion.Transform(k.constants.turn, k.inverse, x)
  {
    hide Dft;
    forall a: nat | a < |x| ensures OutputOf(k, m, |x|)[a] == Inversion.Transform(k.constants.turn, k.inverse, x)[a] {
      assert TransformedAt(k, m, x, a);
    }
  }

  lemma TransformedIs(k: Kernel, m: Memory, x: seq<Complex>, a: nat)
    requires Transformed(k, m, x) && a < |x|
    ensures Read(m, Cell(Output, a * k.outStride)) == Finished(k, Dft(k.constants.turn, k.inverse, x, a), a * k.outStride)
  {
    hide Dft;
    assert TransformedAt(k, m, x, a);
  }

  lemma ScaleCancels(v: Complex, n: nat)
    requires n > 0
    ensures Scaled(Some(1.0 / (n as real)), Mul(v, Complex(n as real, 0.0))) == v
  {
    var d := n as real;
    assert v.re * d * (1.0 / d) == v.re && v.im * d * (1.0 / d) == v.im by {
      assert d * (1.0 / d) == 1.0;
    }
  }
}
