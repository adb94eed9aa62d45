/** What a planned loop does when it runs, and that it leaves the memory of the batches it replaced. */
module Reroll {
  import opened Complexes
  import opened DivMod
  import opened Memories
  import opened Batches
  import opened Periods
  import opened LoopStages
  import opened Chunking
  import opened Residues

  // -------- addresses in the loop

  /** A residue's base in round q: from the table of residues, or by the runtime formula. */
  function BaseAt(at: Progression, r: nat, offset: int, compact: bool): int
    requires r < |at.bases|
  {
    var p := FirstPattern(at.bases, 1);
    if compact && p.Some? then CompactBase(at.bases[0], p.value, r, offset) else at.bases[r] + offset
  }

  function LoopOffset(at: Progression, r: nat, q: nat, offset: int, compact: bool): int
    requires r < |at.bases|
  {
    BaseAt(at, r, offset, compact) + q * at.stride
  }

  lemma LoopOffsetIs(at: Progression, s: seq<int>, r: nat, q: nat, offset: int, compact: bool)
    requires r < |at.bases| && Reproduces(at, s) && r + |at.bases| * q < |s|
    ensures LoopOffset(at, r, q, offset, compact) == s[r + |at.bases| * q] + offset
  {
    Decode(|at.bases|, q, r);
    var p := FirstPattern(at.bases, 1);
    if compact && p.Some? {
      CompactIsExact(at.bases, p.value, r, offset);
    }
    assert s[r + |at.bases| * q] == OffsetAt(at, r + |at.bases| * q);
  }

  // -------- one chunk of the loop body

  function LoopOperands(m: Memory, plan: LoopPlan, r: nat, q: nat, from: nat, i: nat, compact: bool): (x: seq<Complex>)
    ensures |x| == |plan.loads|
  {
    seq(|plan.loads|, j requires 0 <= j < |plan.loads| => LoopLoaded(m, plan.loads[j], r, q, from, i, compact))
  }

  function LoopLoaded(m: Memory, l: LoopLoad, r: nat, q: nat, from: nat, i: nat, compact: bool): Complex {
    if r < |l.at.bases| then Read(m, Cell(l.bank, LoopOffset(l.at, r, q, from, compact) + i)) else ZERO
  }

  /** The lanes of this slice sit side by side at residue r. */
  predicate SideBySide(lanes: seq<Progression>, from: nat, width: nat, r: nat)
    requires from + width <= |lanes|
  {
    forall l :: from < l < from + width ==>
      r < |lanes[from].bases| && r < |lanes[l].bases| && lanes[l].bases[r] == lanes[from].bases[r] + l - from
  }

  predicate OneStride(lanes: seq<Progression>, from: nat, width: nat)
    requires from + width <= |lanes|
  {
    forall l :: from < l < from + width ==> lanes[l].stride == lanes[from].stride
  }

  /** A lane store of the loop becomes a vector store when the slice's lanes stay side by
      side; the runtime residue loop asks it of every residue at once. */
  predicate Promoted(lanes: seq<Progression>, from: nat, width: nat, r: nat, compact: bool)
    requires from + width <= |lanes| && width > 0
  {
    OneStride(lanes, from, width)
    && if compact then forall r' :: 0 <= r' < |lanes[from].bases| ==> SideBySide(lanes, from, width, r')
       else SideBySide(lanes, from, width, r)
  }

  function LoopStoreOffset(s: LoopStore, r: nat, q: nat, from: nat, width: nat, i: nat, compact: bool): int
    requires i < width
  {
    match s
    case LoopVector(_, at) => if r < |at.bases| then LoopOffset(at, r, q, from, compact) + i else 0
    case LoopLanes(_, lanes) =>
      if from + width <= |lanes| && r < |lanes[from].bases| && r < |lanes[from + i].bases| then
        if Promoted(lanes, from, width, r, compact) then LoopOffset(lanes[from], r, q, 0, compact) + i
        else LoopOffset(lanes[from + i], r, q, 0, compact)
      else 0
  }

  /** Lane i of the slice is stored i places after its first lane. */
  ghost predicate StoresBeside(lanes: seq<Progression>, from: nat, r: nat, q: nat, i: nat, compact: bool)
    requires from + i < |lanes| && r < |lanes[from].bases| && r < |lanes[from + i].bases|
  {
    LoopOffset(lanes[from + i], r, q, 0, compact) == LoopOffset(lanes[from], r, q, 0, compact) + i
  }

  /** A slice becomes a vector store exactly when its lanes go side by side in every round: at this
      residue, or, in the runtime residue loop, at all of them. */
  lemma PromotedExactly(lanes: seq<Progression>, from: nat, width: nat, period: nat, r: nat, compact: bool)
    requires width > 0 && from + width <= |lanes| && r < period
    requires forall l :: from <= l < from + width ==> |lanes[l].bases| == period
    ensures Promoted(lanes, from, width, r, compact) <==>
              forall r': nat, q: nat, i: nat :: (r' == r || (compact && r' < period)) && i < width ==> StoresBeside(lanes, from, r', q, i, compact)
  {
    hide LoopOffset;
    if Promoted(lanes, from, width, r, compact) {
      forall r': nat, q: nat, i: nat | (r' == r || (compact && r' < period)) && i < width ensures StoresBeside(lanes, from, r', q, i, compact) {
        LaneBeside(lanes, from, width, r', q, i, compact);
      }
    }
    if forall r': nat, q: nat, i: nat :: (r' == r || (compact && r' < period)) && i < width ==> StoresBeside(lanes, from, r', q, i, compact) {
      forall l | from < l < from + width ensures lanes[l].stride == lanes[from].stride {
        BesideTwice(lanes, from, r, l - from, compact);
      }
      forall r': nat | r' == r || (compact && r' < period) ensures SideBySide(lanes, from, width, r') {
        forall l | from < l < from + width ensures lanes[l].bases[r'] == lanes[from].bases[r'] + l - from {
          BesideTwice(lanes, from, r', l - from, compact);
        }
      }
    }
  }

  lemma LaneBeside(lanes: seq<Progression>, from: nat, width: nat, r: nat, q: nat, i: nat, compact: bool)
    requires from + width <= |lanes| && i < width && r < |lanes[from].bases| && r < |lanes[from + i].bases|
    requires OneStride(lanes, from, width) && SideBySide(lanes, from, width, r)
    ensures StoresBeside(lanes, from, r, q, i, compact)
  {
    hide LoopOffset;
    OffsetParts(lanes[from], r, q, compact);
    OffsetParts(lanes[from + i], r, q, compact);
    if i > 0 {
      var l := from + i;
      assert lanes[l].bases[r] == lanes[from].bases[r] + l - from && lanes[l].stride == lanes[from].stride;
    }
  }

  lemma OffsetParts(at: Progression, r: nat, q: nat, compact: bool)
    requires r < |at.bases|
    ensures LoopOffset(at, r, q, 0, compact) == at.bases[r] + q * at.stride
  {
    BaseIs(at, r, compact);
  }

  lemma BesideTwice(lanes: seq<Progression>, from: nat, r: nat, i: nat, compact: bool)
    requires from + i < |lanes| && r < |lanes[from].bases| && r < |lanes[from + i].bases|
    requires StoresBeside(lanes, from, r, 0, i, compact) && StoresBeside(lanes, from, r, 1, i, compact)
    ensures lanes[from + i].bases[r] == lanes[from].bases[r] + i && lanes[from + i].stride == lanes[from].stride
  {
    hide LoopOffset;
    OffsetParts(lanes[from], r, 0, compact);
    OffsetParts(lanes[from + i], r, 0, compact);
    OffsetParts(lanes[from], r, 1, compact);
    OffsetParts(lanes[from + i], r, 1, compact);
  }

  lemma PromotedOffset(lanes: seq<Progression>, r: nat, q: nat, from: nat, width: nat, i: nat, compact: bool)
    requires i < width && from + width <= |lanes| && Promoted(lanes, from, width, r, compact)
    requires r < |lanes[from].bases| && r < |lanes[from + i].bases|
    ensures LoopOffset(lanes[from], r, q, 0, compact) + i == LoopOffset(lanes[from + i], r, q, 0, compact)
  {
    BaseIs(lanes[from], r, compact);
    BaseIs(lanes[from + i], r, compact);
    assert SideBySide(lanes, from, width, r);
  }

  lemma BaseIs(at: Progression, r: nat, compact: bool)
    requires r < |at.bases|
    ensures BaseAt(at, r, 0, compact) == at.bases[r]
  {
    var p := FirstPattern(at.bases, 1);
    if compact && p.Some? {
      CompactIsExact(at.bases, p.value, r, 0);
    }
  }

  /** The factor a lane loads from the shared table. */
  function LoopFactor(plan: LoopPlan, table: seq<Complex>, simdLanes: nat, k: nat, r: nat, q: nat, lane: nat): Complex {
    if k in plan.rows then
      var row := plan.rows[k] + r * simdLanes + lane + q * (plan.period * simdLanes);
      if row < |table| then table[row] else ONE
    else ONE
  }

  function LoopWrite(stage: Stage, m: Memory, plan: LoopPlan, table: seq<Complex>, simdLanes: nat, k: nat,
                           r: nat, q: nat, from: nat, width: nat, i: nat, compact: bool): Write
    requires k < |plan.stores| == |plan.scales| && i < width
  {
    var v := stage.butterfly(LoopOperands(m, plan, r, q, from, i, compact), k);
    var turned := if k in plan.rows then Mul(v, LoopFactor(plan, table, simdLanes, k, r, q, from + i)) else v;
    Write(Cell(plan.stores[k].bank, LoopStoreOffset(plan.stores[k], r, q, from, width, i, compact)), Scaled(plan.scales[k], turned))
  }

  function LoopWritesFor(stage: Stage, m: Memory, plan: LoopPlan, table: seq<Complex>, simdLanes: nat, k: nat,
                               r: nat, q: nat, from: nat, width: nat, compact: bool): seq<Write> {
    if k < |plan.stores| == |plan.scales| then
      seq(width, i requires 0 <= i < width => LoopWrite(stage, m, plan, table, simdLanes, k, r, q, from, width, i, compact))
    else []
  }

  /** What one chunk at residue r of round q writes, for the first n completed outputs. */
  function LoopWrites(stage: Stage, m: Memory, plan: LoopPlan, table: seq<Complex>, simdLanes: nat,
                            r: nat, q: nat, from: nat, width: nat, compact: bool, n: nat): seq<Write>
    requires n <= |stage.order|
  {
    if n == 0 then []
    else LoopWrites(stage, m, plan, table, simdLanes, r, q, from, width, compact, n - 1)
         + LoopWritesFor(stage, m, plan, table, simdLanes, stage.order[n - 1], r, q, from, width, compact)
  }

  // -------- the loop body does what the batch does

  /** Every full batch loads operand j from the bank the first one loads it from. */
  ghost predicate OneLoadBank(full: seq<Batch>) {
    forall b, j :: 0 <= b < |full| && 0 <= j < |full[b].loads| && j < |full[0].loads| ==> full[b].loads[j].bank == full[0].loads[j].bank
  }

  /** plan was made for these batches, and its twiddles are in the table. */
  ghost predicate Rolled(full: seq<Batch>, partial: seq<Batch>, simdLanes: nat, plan: LoopPlan, table: seq<Complex>) {
    && |full| > 0 && plan.period > 0 && |full| % plan.period == 0 && AllFit(full, simdLanes)
    && (forall b :: b in full ==> b.valid == simdLanes)
    && IsPlan(plan, full, partial, simdLanes, plan.period, table)
  }

  lemma FittingIsWellFormed(full: seq<Batch>, simdLanes: nat, b: nat)
    requires b < |full| && AllFit(full, simdLanes) && full[b].valid == simdLanes
    ensures WellFormed(full[b], simdLanes)
  {
    assert full[b] in full;
    forall o | o in full[b].outputs ensures WellFormedOutput(o, simdLanes, simdLanes) {
      var k :| 0 <= k < |full[b].outputs| && full[b].outputs[k] == o;
      assert OutputFits(full[0].outputs[k], full[b].outputs[k], k, simdLanes);
    }
  }

  lemma {:induction false} LookupInOrder(outputs: seq<OutputPlan>, k: nat)
    requires forall i :: 0 <= i < |outputs| ==> outputs[i].output == i
    ensures Lookup(outputs, k) == if k < |outputs| then Some(outputs[k]) else None
  {
    if outputs != [] {
      LookupInOrder(outputs[..|outputs| - 1], k);
    }
  }

  lemma LoopReads(m: Memory, full: seq<Batch>, partial: seq<Batch>, simdLanes: nat, plan: LoopPlan, table: seq<Complex>,
                  b: nat, r: nat, q: nat, from: nat, i: nat, compact: bool)
    requires Rolled(full, partial, simdLanes, plan, table) && OneLoadBank(full)
    requires b < |full| && r < plan.period && b == r + plan.period * q
    ensures LoopOperands(m, plan, r, q, from, i, compact) == Operands(m, full[b].loads, from + i)
  {
    hide IsPlan, OutputsFit, LoopOffset;
    PlannedLoads(full, partial, simdLanes, plan, table);
    assert full[b] in full;
    forall j | 0 <= j < |plan.loads|
      ensures LoopLoaded(m, plan.loads[j], r, q, from, i, compact) == LaneValue(m, full[b].loads[j], from + i)
    {
      assert LoadPlanned(plan.loads[j], full, j, plan.period);
      LoopOffsetIs(plan.loads[j].at, LoadOffsets(full, j), r, q, from, compact);
    }
  }

  lemma PlannedLoads(full: seq<Batch>, partial: seq<Batch>, simdLanes: nat, plan: LoopPlan, table: seq<Complex>)
    requires Rolled(full, partial, simdLanes, plan, table)
    ensures |plan.loads| == |full[0].loads|
    ensures forall j: nat :: j < |plan.loads| ==> LoadPlanned(plan.loads[j], full, j, plan.period)
  {
  }

  lemma PlannedOutput(full: seq<Batch>, partial: seq<Batch>, simdLanes: nat, plan: LoopPlan, table: seq<Complex>, k: nat)
    requires Rolled(full, partial, simdLanes, plan, table) && k < |full[0].outputs|
    ensures |plan.stores| == |plan.scales| == |full[0].outputs|
    ensures StorePlanned(plan.stores[k], full, k, simdLanes, plan.period) && plan.scales[k] == full[0].outputs[k].scale
    ensures k in plan.rows <==> full[0].outputs[k].twiddle.Some?
    ensures k in plan.rows ==> TableHolds(table, plan.rows[k], full, k, simdLanes)
  {
    hide StorePlanned, TableHolds, AllFit, LoadPlanned;
  }

  lemma BatchOutput(full: seq<Batch>, simdLanes: nat, b: nat, k: nat)
    requires b < |full| && AllFit(full, simdLanes) && k < |full[0].outputs|
    ensures |full[b].outputs| == |full[0].outputs| && OutputFits(full[0].outputs[k], full[b].outputs[k], k, simdLanes)
  {
    assert full[b] in full;
  }

  lemma LoopStores(full: seq<Batch>, simdLanes: nat, period: nat, s: LoopStore, b: nat, k: nat,
                   r: nat, q: nat, from: nat, width: nat, i: nat, compact: bool)
    requires b < |full| && period > 0 && k < |full[0].outputs| && k < |full[b].outputs| && StorePlanned(s, full, k, simdLanes, period)
    requires OutputFits(full[0].outputs[k], full[b].outputs[k], k, simdLanes)
    requires r < period && b == r + period * q && i < width && from + width <= simdLanes
    ensures Cell(s.bank, LoopStoreOffset(s, r, q, from, width, i, compact)) == StoreCell(full[b].outputs[k].store, from + i)
  {
    hide LoopOffset, Promoted, Reproduces;
    match s
    case LoopVector(_, at) =>
      LoopOffsetIs(at, StoreOffsets(full, k, 0), r, q, from, compact);
    case LoopLanes(_, lanes) =>
      assert LanePlanned(lanes[from], full, k, from, period) && LanePlanned(lanes[from + i], full, k, from + i, period);
      LoopOffsetIs(lanes[from + i], StoreOffsets(full, k, from + i), r, q, 0, compact);
      if Promoted(lanes, from, width, r, compact) {
        PromotedOffset(lanes, r, q, from, width, i, compact);
      }
  }

  lemma LoopFactorIs(full: seq<Batch>, simdLanes: nat, plan: LoopPlan, table: seq<Complex>, b: nat, k: nat, r: nat, q: nat, lane: nat)
    requires k in plan.rows && TableHolds(table, plan.rows[k], full, k, simdLanes)
    requires b < |full| && b == r + plan.period * q && lane < simdLanes
    ensures LoopFactor(plan, table, simdLanes, k, r, q, lane) == Factor(full, k, b, lane)
  {
    assert RowAt(table, plan.rows[k], full, k, simdLanes, b, lane);
    TableRow(plan.rows[k], simdLanes, plan.period, r, q, lane);
  }

  lemma TableRow(start: nat, simdLanes: nat, period: nat, r: nat, q: nat, lane: nat)
    ensures start + r * simdLanes + lane + q * (period * simdLanes) == start + (lane + simdLanes * (r + period * q))
  {
    assert simdLanes * (r + period * q) == simdLanes * r + simdLanes * (period * q);
    assert simdLanes * (period * q) == q * (period * simdLanes);
  }

  lemma LoopWriteIs(stage: Stage, m: Memory, full: seq<Batch>, partial: seq<Batch>, simdLanes: nat, plan: LoopPlan, table: seq<Complex>,
                    b: nat, k: nat, r: nat, q: nat, from: nat, width: nat, i: nat, compact: bool)
    requires Rolled(full, partial, simdLanes, plan, table) && OneLoadBank(full) && k < |full[0].outputs|
    requires b < |full| && r < plan.period && b == r + plan.period * q && i < width && from + width <= simdLanes
    ensures k < |plan.stores| == |plan.scales| && k < |full[b].outputs|
    ensures var o := full[b].outputs[k];
            LoopWrite(stage, m, plan, table, simdLanes, k, r, q, from, width, i, compact)
            == Write(StoreCell(o.store, from + i), Result(stage, Operands(m, full[b].loads, from + i), o, from + i))
  {
    hide LoopStoreOffset, StorePlanned, TableHolds, LoopFactor, LoopOperands, Operands, Rolled, OneLoadBank, Twiddled;
    PlannedOutput(full, partial, simdLanes, plan, table, k);
    RolledFits(full, partial, simdLanes, plan, table);
    BatchOutput(full, simdLanes, b, k);
    LoopReads(m, full, partial, simdLanes, plan, table, b, r, q, from, i, compact);
    LoopStores(full, simdLanes, plan.period, plan.stores[k], b, k, r, q, from, width, i, compact);
    var o := full[b].outputs[k];
    if o.twiddle.Some? {
      LoopFactorIs(full, simdLanes, plan, table, b, k, r, q, from + i);
      TwiddledMultiplies(o.twiddle.value, from + i, stage.butterfly(Operands(m, full[b].loads, from + i), k));
    }
  }

  lemma RolledFits(full: seq<Batch>, partial: seq<Batch>, simdLanes: nat, plan: LoopPlan, table: seq<Complex>)
    requires Rolled(full, partial, simdLanes, plan, table)
    ensures AllFit(full, simdLanes)
  {
  }

  lemma LoopWritesForIs(stage: Stage, m: Memory, full: seq<Batch>, partial: seq<Batch>, simdLanes: nat, plan: LoopPlan, table: seq<Complex>,
                        b: nat, k: nat, r: nat, q: nat, from: nat, width: nat, compact: bool)
    requires Rolled(full, partial, simdLanes, plan, table) && OneLoadBank(full)
    requires b < |full| && r < plan.period && b == r + plan.period * q && from + width <= simdLanes
    ensures LoopWritesFor(stage, m, plan, table, simdLanes, k, r, q, from, width, compact)
            == Slice(WritesFor(stage, m, full[b], simdLanes, k), from, width)
  {
    hide LoopWrite, Rolled, OneLoadBank, Result, StoreCell, OutputFits;
    RolledFits(full, partial, simdLanes, plan, table);
    OutputsInOrder(full, simdLanes, b);
    LookupInOrder(full[b].outputs, k);
    OutputCount(full, partial, simdLanes, plan, table);
    if k < |full[0].outputs| {
      BatchOutput(full, simdLanes, b, k);
      StoresEveryLane(full[0].outputs[k], full[b].outputs[k], k, simdLanes);
      var ws := Slice(WritesFor(stage, m, full[b], simdLanes, k), from, width);
      forall i | 0 <= i < width
        ensures LoopWritesFor(stage, m, plan, table, simdLanes, k, r, q, from, width, compact)[i] == ws[i]
      {
        LoopWriteIs(stage, m, full, partial, simdLanes, plan, table, b, k, r, q, from, width, i, compact);
      }
    }
  }

  lemma OutputCount(full: seq<Batch>, partial: seq<Batch>, simdLanes: nat, plan: LoopPlan, table: seq<Complex>)
    requires Rolled(full, partial, simdLanes, plan, table)
    ensures |plan.stores| == |plan.scales| == |full[0].outputs|
  {
  }

  lemma StoresEveryLane(first: OutputPlan, o: OutputPlan, k: nat, simdLanes: nat)
    requires OutputFits(first, o, k, simdLanes)
    ensures StoredLanes(o.store, simdLanes) == simdLanes
  {
  }

  lemma OutputsInOrder(full: seq<Batch>, simdLanes: nat, b: nat)
    requires b < |full| && AllFit(full, simdLanes)
    ensures |full[b].outputs| == |full[0].outputs| && forall i :: 0 <= i < |full[b].outputs| ==> full[b].outputs[i].output == i
  {
    assert full[b] in full;
    forall i | 0 <= i < |full[b].outputs| ensures full[b].outputs[i].output == i {
      assert OutputFits(full[0].outputs[i], full[b].outputs[i], i, simdLanes);
    }
  }

  lemma {:induction false} LoopWritesIs(stage: Stage, m: Memory, full: seq<Batch>, partial: seq<Batch>, simdLanes: nat, plan: LoopPlan,
                                        table: seq<Complex>, b: nat, r: nat, q: nat, from: nat, width: nat, compact: bool, n: nat)
    requires Rolled(full, partial, simdLanes, plan, table) && OneLoadBank(full) && n <= |stage.order|
    requires b < |full| && r < plan.period && b == r + plan.period * q && from + width <= simdLanes
    ensures LoopWrites(stage, m, plan, table, simdLanes, r, q, from, width, compact, n)
            == SlicedWrites(stage, m, full[b], simdLanes, from, width, n)
    decreases n
  {
    hide LoopWritesFor, WritesFor, Rolled, OneLoadBank;
    if n > 0 {
      LoopWritesIs(stage, m, full, partial, simdLanes, plan, table, b, r, q, from, width, compact, n - 1);
      LoopWritesForIs(stage, m, full, partial, simdLanes, plan, table, b, stage.order[n - 1], r, q, from, width, compact);
    }
  }
}
