/** Running the planned batches of a stage is one stage of the staged transform. */
module StageEffects {
  import opened Complexes
  import opened DivMod
  import opened Fourier
  import opened Memories
  import opened Permutations
  import opened Batches
  import opened Chunking
  import opened LoopStages
  import opened StageRuns
  import opened Stockham
  import opened StagePlans

  /** The stage's butterfly is the r-point transform, and every output is completed. */
  ghost predicate ComputesDft(stage: Stage, t: Turn, inverse: bool, r: nat) {
    Permutes(stage.order, r)
    && forall x: seq<Complex>, k: nat :: |x| == r && k < r ==> OutputIsDft(stage, t, inverse, x, k)
  }

  ghost predicate OutputIsDft(stage: Stage, t: Turn, inverse: bool, x: seq<Complex>, k: nat) {
    stage.butterfly(x, k) == Dft(t, inverse, x, k)
  }

  /** The signal x stands where the stage reads it. */
  ghost predicate Holding(s: Spec, m: Memory, x: seq<Complex>) {
    forall i: nat :: i < |x| ==> HoldsAt(s, m, x, i)
  }

  ghost predicate HoldsAt(s: Spec, m: Memory, x: seq<Complex>, i: nat)
    requires i < |x|
  {
    Read(m, Source(s, i)) == x[i]
  }

  /** What the stage stores at element a for the value v: the last one scales and turns it. */
  function Outgoing(s: Spec, stage: Stage, v: Complex, a: nat): Complex {
    var scaled := Scaled(if s.last then s.scale else None, v);
    if s.last && s.large then Mul(scaled, stage.table(Target(s, a).offset)) else scaled
  }

  // -------- one lane

  /** The butterfly a lane of a batch computes. */
  function BflyAt(s: Spec, it: nat, lane: nat): nat {
    it * s.simdLanes + lane
  }

  lemma LaneOperands(s: Spec, n: nat, r: nat, p: nat, m: nat, mem: Memory, x: seq<Complex>, it: nat, lane: nat)
    requires Lowers(s, n, r, p, m) && s.layout.laneDivisor > 0 && it * s.simdLanes < s.layout.butterflies
    requires |x| == n && Holding(s, mem, x) && lane < MakeBatch(s, it).valid
    ensures Operands(mem, MakeBatch(s, it).loads, lane) == OperandsOf(x, r, it * s.simdLanes + lane)
  {
    hide IsTurn, MakeBatch, Source, LoadCell, Holding, LaneValue, Operand;
    Butterflies(s, n, r, p, m);
    BatchShape(s, it);
    forall j | 0 <= j < r ensures LaneValue(mem, MakeBatch(s, it).loads[j], lane) == Operand(x, r, it * s.simdLanes + lane, j) {
      LaneOperand(s, n, r, p, m, mem, x, it, j, lane);
    }
  }

  lemma LaneOperand(s: Spec, n: nat, r: nat, p: nat, m: nat, mem: Memory, x: seq<Complex>, it: nat, j: nat, lane: nat)
    requires Lowers(s, n, r, p, m) && s.layout.laneDivisor > 0 && it * s.simdLanes < s.layout.butterflies && j < r
    requires |x| == n && Holding(s, mem, x) && lane < MakeBatch(s, it).valid && j < |MakeBatch(s, it).loads|
    ensures LaneValue(mem, MakeBatch(s, it).loads[j], lane) == Operand(x, r, BflyAt(s, it, lane), j)
  {
    hide IsTurn, MakeBatch, Source, LoadCell, LayoutFor, Lowers, Holding;
    var bfly := it * s.simdLanes + lane;
    Butterflies(s, n, r, p, m);
    BatchShape(s, it);
    LoadAt(s, n, r, p, m, it, j, lane);
    OperandInside(p * m, r, bfly, j);
    HeldAt(s, mem, x, bfly + j * (p * m));
  }

  lemma HeldAt(s: Spec, mem: Memory, x: seq<Complex>, i: nat)
    requires Holding(s, mem, x) && i < |x|
    ensures Read(mem, Source(s, i)) == x[i]
  {
    assert HoldsAt(s, mem, x, i);
  }

  lemma BatchShape(s: Spec, it: nat)
    requires s.layout.laneDivisor > 0 && it * s.simdLanes < s.layout.butterflies
    ensures |MakeBatch(s, it).loads| == s.layout.radix && |MakeBatch(s, it).outputs| == s.layout.radix
    ensures it * s.simdLanes + MakeBatch(s, it).valid <= s.layout.butterflies && MakeBatch(s, it).valid <= s.simdLanes
    ensures MakeBatch(s, it).valid < s.simdLanes ==> it * s.simdLanes + MakeBatch(s, it).valid == s.layout.butterflies
    ensures forall k :: 0 <= k < s.layout.radix ==> MakeBatch(s, it).outputs[k].output == k
  {
    hide MakeLoad, MakeTwiddle, MakeStore;
  }

  lemma OperandInside(q: nat, r: nat, bfly: nat, j: nat)
    requires bfly < q && j < r
    ensures bfly + j * q < r * q
  {
    InRange(q, r, bfly, j);
  }

  /** The twiddle the planner gives a lane is the one of the staged transform. */
  lemma LaneTwiddle(s: Spec, n: nat, r: nat, p: nat, m: nat, it: nat, k: nat, lane: nat, v: Complex)
    requires Lowers(s, n, r, p, m) && s.layout.laneDivisor > 0 && k < r && it * s.simdLanes + lane < s.layout.butterflies
    requires lane < s.simdLanes
    ensures var valid := Min(s.simdLanes, s.layout.butterflies - it * s.simdLanes);
            var w := MakeTwiddle(s.turn, s.inverse, s.simdLanes, valid, it * s.simdLanes, k, s.layout);
            (if w.Some? && lane < |w.value| then Twiddled(w.value, lane, v) else v)
            == Mul(v, Rot(s.turn, s.inverse, ((it * s.simdLanes + lane) / p) * k, n / p))
  {
    hide Twiddled, IsTurn, Mul;
    var bfly := it * s.simdLanes + lane;
    var valid := Min(s.simdLanes, s.layout.butterflies - it * s.simdLanes);
    var w := MakeTwiddle(s.turn, s.inverse, s.simdLanes, valid, it * s.simdLanes, k, s.layout);
    Butterflies(s, n, r, p, m);
    if w.Some? {
      TwiddledMultiplies(w.value, lane, v);
      assert (bfly / p) * k * 1 == (bfly / p) * k;
    } else {
      if s.last {
        Decode(p, 0, bfly);
      }
      assert (bfly / p) * k == 0;
      NoTurn(s.turn, s.inverse, n / p, v);
    }
  }

  lemma NoTurn(t: Turn, inverse: bool, n: nat, v: Complex)
    requires IsTurn(t) && n > 0
    ensures Mul(v, Rot(t, inverse, 0, n)) == v
  {
    hide IsTurn;
    ClosesAt(t, n);
  }

  lemma LaneResult(s: Spec, n: nat, r: nat, p: nat, m: nat, stage: Stage, mem: Memory, x: seq<Complex>, it: nat, k: nat, lane: nat)
    requires Lowers(s, n, r, p, m) && s.layout.laneDivisor > 0 && it * s.simdLanes < s.layout.butterflies && k < r
    requires |x| == n && Holding(s, mem, x) && lane < MakeBatch(s, it).valid && ComputesDft(stage, s.turn, s.inverse, r)
    ensures k < |MakeBatch(s, it).outputs|
    ensures var b := MakeBatch(s, it); var bfly := it * s.simdLanes + lane;
            Result(stage, Operands(mem, b.loads, lane), b.outputs[k], lane)
            == Outgoing(s, stage, StageValue(s.turn, s.inverse, x, r, p, bfly, k), Destination(r, p, bfly, k))
  {
    hide IsTurn, Dft, Holding, MakeTwiddle, MakeStore, MakeLoad, Twiddled, Destination, Operands, OperandsOf, StoreOffset, StoreCell, Target, Mul, Scaled, LayoutFor;
    var b, bfly := MakeBatch(s, it), it * s.simdLanes + lane;
    Butterflies(s, n, r, p, m);
    BatchShape(s, it);
    LaneOperands(s, n, r, p, m, mem, x, it, lane);
    assert OutputIsDft(stage, s.turn, s.inverse, OperandsOf(x, r, bfly), k);
    LaneTwiddle(s, n, r, p, m, it, k, lane, stage.butterfly(OperandsOf(x, r, bfly), k));
    StoreAt(s, n, r, p, m, it, k, lane);
    CellOffset(b.outputs[k].store, lane);
  }

  lemma CellOffset(store: Store, lane: nat)
    ensures StoreCell(store, lane).offset == StoreOffset(store, lane)
  {
  }

  // -------- one batch

  /** The first count butterflies have stored their outputs. */
  ghost predicate Stored(s: Spec, stage: Stage, r: nat, p: nat, x: seq<Complex>, mem: Memory, count: int)
    requires r > 0 && p > 0
  {
    forall bfly: nat, k: nat :: bfly < count && k < r ==> StoredAt(s, stage, r, p, x, mem, bfly, k)
  }

  ghost predicate StoredAt(s: Spec, stage: Stage, r: nat, p: nat, x: seq<Complex>, mem: Memory, bfly: nat, k: nat)
    requires r > 0 && p > 0
  {
    Read(mem, Target(s, Destination(r, p, bfly, k)))
    == Outgoing(s, stage, StageValue(s.turn, s.inverse, x, r, p, bfly, k), Destination(r, p, bfly, k))
  }

  /** No other bank is touched. */
  ghost predicate OnlyWrites(m: Memory, m': Memory, bank: Bank) {
    forall c: Cell :: c.bank != bank ==> Read(m', c) == Read(m, c)
  }

  lemma {:induction false} PlannedLookup(outputs: seq<OutputPlan>, k: nat)
    requires k < |outputs| && forall i :: 0 <= i < |outputs| ==> outputs[i].output == i
    ensures Lookup(outputs, k) == Some(outputs[k])
  {
    if k < |outputs| - 1 {
      PlannedLookup(outputs[..|outputs| - 1], k);
    }
  }

  /** Each valid lane of each output is among the batch's writes. */
  lemma BatchStores(s: Spec, n: nat, r: nat, p: nat, m: nat, stage: Stage, mem: Memory, x: seq<Complex>, it: nat, k: nat, lane: nat)
    requires Lowers(s, n, r, p, m) && s.layout.laneDivisor > 0 && it * s.simdLanes < s.layout.butterflies && k < r
    requires |x| == n && Holding(s, mem, x) && lane < MakeBatch(s, it).valid && ComputesDft(stage, s.turn, s.inverse, r)
    ensures var bfly := it * s.simdLanes + lane; var a := Destination(r, p, bfly, k);
            Write(Target(s, a), Outgoing(s, stage, StageValue(s.turn, s.inverse, x, r, p, bfly, k), a))
            in BatchWrites(stage, mem, MakeBatch(s, it), s.simdLanes, |stage.order|)
  {
    hide IsTurn, Dft, Holding, MakeBatch, Destination, Operands, StoreCell, Target, Outgoing, StageValue, Result, LayoutFor, BatchWrites, OutputIsDft;
    var b, bfly := MakeBatch(s, it), it * s.simdLanes + lane;
    Butterflies(s, n, r, p, m);
    BatchShape(s, it);
    StoredCount(s, it, k);
    LaneResult(s, n, r, p, m, stage, mem, x, it, k, lane);
    StoreAt(s, n, r, p, m, it, k, lane);
    PlannedLookup(b.outputs, k);
    var w := Write(StoreCell(b.outputs[k].store, lane), Result(stage, Operands(mem, b.loads, lane), b.outputs[k], lane));
    assert k in stage.order;
    var i: nat :| i < |stage.order| && stage.order[i] == k;
    assert AtLane(WritesFor(stage, mem, b, s.simdLanes, stage.order[i]), lane, w);
    BatchMembers(stage, mem, b, s.simdLanes, |stage.order|, w);
  }

  /** Conversely, every write of the batch is an output of one of its butterflies. */
  lemma BatchOnlyStores(s: Spec, n: nat, r: nat, p: nat, m: nat, stage: Stage, mem: Memory, it: nat, w: Write)
    returns (k: nat, lane: nat)
    requires Lowers(s, n, r, p, m) && s.layout.laneDivisor > 0 && it * s.simdLanes < s.layout.butterflies
    requires w in BatchWrites(stage, mem, MakeBatch(s, it), s.simdLanes, |stage.order|)
    ensures k < r && lane < MakeBatch(s, it).valid && w.cell == Target(s, Destination(r, p, BflyAt(s, it, lane), k))
    ensures w.cell.bank == TargetBank(s)
  {
    hide IsTurn, MakeBatch, Destination, StoreCell, Target, LayoutFor, BatchWrites, WritesFor;
    var b := MakeBatch(s, it);
    Butterflies(s, n, r, p, m);
    BatchShape(s, it);
    BatchMembers(stage, mem, b, s.simdLanes, |stage.order|, w);
    var i: nat, l: nat :| i < |stage.order| && AtLane(WritesFor(stage, mem, b, s.simdLanes, stage.order[i]), l, w);
    lane := l;
    WriteIsStore(stage, mem, b, s.simdLanes, stage.order[i], lane, w);
    var o := Lookup(b.outputs, stage.order[i]).value;
    k :| k < |b.outputs| && b.outputs[k] == o;
    StoredCount(s, it, k);
    StoreAt(s, n, r, p, m, it, k, lane);
    CellBank(o.store, lane);
  }

  lemma CellBank(store: Store, lane: nat)
    ensures StoreCell(store, lane).bank == store.bank
  {
  }

  lemma BatchEffect(s: Spec, n: nat, r: nat, p: nat, m: nat, stage: Stage, mem: Memory, x: seq<Complex>, it: nat)
    requires Lowers(s, n, r, p, m) && Separate(s) && s.layout.laneDivisor > 0 && it * s.simdLanes < s.layout.butterflies
    requires |x| == n && Holding(s, mem, x) && ComputesDft(stage, s.turn, s.inverse, r)
    requires Stored(s, stage, r, p, x, mem, it * s.simdLanes)
    ensures var b := MakeBatch(s, it); var mem' := RunBatch(stage, mem, b, s.simdLanes);
            && Stored(s, stage, r, p, x, mem', it * s.simdLanes + b.valid)
            && OnlyWrites(mem, mem', TargetBank(s))
  {
    hide IsTurn, Dft, Holding, MakeBatch, Destination, Target, Outgoing, StageValue, LayoutFor, BatchWrites, ComputesDft, Apply;
    var b := MakeBatch(s, it);
    var ws := BatchWrites(stage, mem, b, s.simdLanes, |stage.order|);
    PlannedWritesOnce(s, n, r, p, m, it);
    BatchAgrees(stage, mem, b, s.simdLanes);
    forall c: Cell | c.bank != TargetBank(s) ensures Read(Apply(mem, ws), c) == Read(mem, c) {
      OtherBankKept(s, n, r, p, m, stage, mem, it, c);
    }
    forall bfly: nat, k: nat | bfly < it * s.simdLanes + b.valid && k < r ensures StoredAt(s, stage, r, p, x, Apply(mem, ws), bfly, k) {
      if bfly < it * s.simdLanes {
        assert StoredAt(s, stage, r, p, x, mem, bfly, k);
        EarlierKept(s, n, r, p, m, stage, mem, it, bfly, k);
      } else {
        BatchStores(s, n, r, p, m, stage, mem, x, it, k, bfly - it * s.simdLanes);
        ApplyWritten(mem, ws, Write(Target(s, Destination(r, p, bfly, k)),
                                    Outgoing(s, stage, StageValue(s.turn, s.inverse, x, r, p, bfly, k), Destination(r, p, bfly, k))));
      }
    }
  }

  lemma OtherBankKept(s: Spec, n: nat, r: nat, p: nat, m: nat, stage: Stage, mem: Memory, it: nat, c: Cell)
    requires Lowers(s, n, r, p, m) && s.layout.laneDivisor > 0 && it * s.simdLanes < s.layout.butterflies && c.bank != TargetBank(s)
    ensures Read(Apply(mem, BatchWrites(stage, mem, MakeBatch(s, it), s.simdLanes, |stage.order|)), c) == Read(mem, c)
  {
    hide MakeBatch, Destination, Target, BatchWrites, Lowers, Apply;
    var ws := BatchWrites(stage, mem, MakeBatch(s, it), s.simdLanes, |stage.order|);
    if Writes(ws, c) {
      var w :| w in ws && w.cell == c;
      var k, lane := BatchOnlyStores(s, n, r, p, m, stage, mem, it, w);
      assert false;
    }
    ReadUnwritten(mem, ws, c);
  }

  lemma EarlierKept(s: Spec, n: nat, r: nat, p: nat, m: nat, stage: Stage, mem: Memory, it: nat, bfly: nat, k: nat)
    requires Lowers(s, n, r, p, m) && s.layout.laneDivisor > 0 && it * s.simdLanes < s.layout.butterflies && bfly < it * s.simdLanes && k < r
    ensures var c := Target(s, Destination(r, p, bfly, k));
            Read(Apply(mem, BatchWrites(stage, mem, MakeBatch(s, it), s.simdLanes, |stage.order|)), c) == Read(mem, c)
  {
    hide IsTurn, MakeBatch, Destination, Target, BatchWrites, Apply, LayoutFor;
    var c := Target(s, Destination(r, p, bfly, k));
    var ws := BatchWrites(stage, mem, MakeBatch(s, it), s.simdLanes, |stage.order|);
    if Writes(ws, c) {
      var w :| w in ws && w.cell == c;
      var k', lane := BatchOnlyStores(s, n, r, p, m, stage, mem, it, w);
      TargetsDiffer(s, Destination(r, p, bfly, k), Destination(r, p, it * s.simdLanes + lane, k'));
      DestinationInverts(r, p, bfly, k);
      DestinationInverts(r, p, it * s.simdLanes + lane, k');
    }
    ReadUnwritten(mem, ws, c);
  }

  // -------- the whole stage

  lemma HoldingKept(s: Spec, mem: Memory, mem': Memory, x: seq<Complex>)
    requires Separate(s) && Holding(s, mem, x) && OnlyWrites(mem, mem', TargetBank(s))
    ensures Holding(s, mem', x)
  {
    forall i: nat | i < |x| ensures HoldsAt(s, mem', x, i) {
      assert HoldsAt(s, mem, x, i);
    }
  }

  /** The first batches of the stage are done. */
  ghost predicate Underway(s: Spec, stage: Stage, r: nat, p: nat, mem: Memory, mem': Memory, x: seq<Complex>, it: nat)
    requires r > 0 && p > 0
  {
    && Stored(s, stage, r, p, x, mem', Min(it * s.simdLanes, s.layout.butterflies))
    && OnlyWrites(mem, mem', TargetBank(s))
  }

  lemma {:induction false} BatchesRun(s: Spec, n: nat, r: nat, p: nat, m: nat, stage: Stage, mem: Memory, x: seq<Complex>, it: nat)
    requires Lowers(s, n, r, p, m) && Separate(s) && s.layout.laneDivisor > 0 && it <= Iterations(s)
    requires |x| == n && Holding(s, mem, x) && ComputesDft(stage, s.turn, s.inverse, r)
    ensures Underway(s, stage, r, p, mem, RunBatches(stage, mem, FirstBatches(s, it), s.simdLanes), x, it)
    decreases it
  {
    hide IsTurn, Holding, MakeBatch, LayoutFor, ComputesDft, RunBatch, Iterations, Separate, StoredAt;
    if it > 0 {
      BatchesRun(s, n, r, p, m, stage, mem, x, it - 1);
      var front := FirstBatches(s, it - 1);
      var mid := RunBatches(stage, mem, front, s.simdLanes);
      Started(s, it - 1);
      HoldingKept(s, mem, mid, x);
      assert (it - 1) * s.simdLanes < s.layout.butterflies;
      BatchEffect(s, n, r, p, m, stage, mid, x, it - 1);
      BatchShape(s, it - 1);
      assert it * s.simdLanes == (it - 1) * s.simdLanes + s.simdLanes;
      assert FirstBatches(s, it) == front + [MakeBatch(s, it - 1)];
      assert FirstBatches(s, it)[..it - 1] == front;
    }
  }

  lemma AllStarted(s: Spec)
    requires s.simdLanes > 0
    ensures Iterations(s) * s.simdLanes >= s.layout.butterflies
  {
    Recompose(s.layout.butterflies + s.simdLanes - 1, s.simdLanes);
  }

  /** From a memory that holds the signal where the stage reads, the planned batches leave the
      next signal where the stage writes, and change no other bank. */
  lemma StageEffect(s: Spec, n: nat, r: nat, p: nat, m: nat, stage: Stage, mem: Memory, x: seq<Complex>)
    requires Lowers(s, n, r, p, m) && Separate(s) && s.layout.laneDivisor > 0
    requires |x| == n && Holding(s, mem, x) && ComputesDft(stage, s.turn, s.inverse, r)
    ensures var mem' := RunBatches(stage, mem, LowerStage(s), s.simdLanes);
            && (forall a: nat :: a < n ==> Read(mem', Target(s, a)) == Outgoing(s, stage, StageOf(s.turn, s.inverse, x, r, p)[a], a))
            && OnlyWrites(mem, mem', TargetBank(s))
  {
    hide IsTurn, Holding, LayoutFor, ComputesDft, RunBatches, Iterations, Separate, Destination, Target, Outgoing, StageValue, FirstBatches;
    var mem' := RunBatches(stage, mem, LowerStage(s), s.simdLanes);
    BatchesRun(s, n, r, p, m, stage, mem, x, Iterations(s));
    AllStarted(s);
    Butterflies(s, n, r, p, m);
    forall a: nat | a < n ensures Read(mem', Target(s, a)) == Outgoing(s, stage, StageOf(s.turn, s.inverse, x, r, p)[a], a) {
      var bfly, k := FromBfly(r, p, a), FromOutput(r, p, a);
      DestinationReaches(r, p, a);
      DestinationFits(r, p, m, bfly, k);
      assert StoredAt(s, stage, r, p, x, mem', bfly, k);
    }
  }
}
