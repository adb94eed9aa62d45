/** The decision whether a stage's batches can run as one loop, and the plan of that loop. */
module LoopStages {
  import opened Complexes
  import opened DivMod
  import opened Memories
  import opened Batches
  import opened Periods

  const LOOP_MAX_PERIOD: nat := 64

  datatype LoopLoad = LoopLoad(bank: Bank, at: Progression)

  datatype LoopStore = LoopVector(bank: Bank, at: Progression) | LoopLanes(bank: Bank, lanes: seq<Progression>)

  /** rows tells where the twiddles of an output start in the shared table. */
  datatype LoopPlan = LoopPlan(period: nat, outerIters: nat, loads: seq<LoopLoad>, stores: seq<LoopStore>,
                               rows: map<nat, nat>, scales: seq<Option<real>>, tail: Option<Batch>)

  /** Raised: a caller that allows no full batch at all is answered by an index error. */
  datatype Outcome = Looped(plan: LoopPlan) | Unrolled | Raised

  /** The batches with a valid value in every lane, in order. */
  function Full(batches: seq<Batch>, simdLanes: nat): (r: seq<Batch>)
    ensures forall b :: b in r ==> b.valid == simdLanes && b in batches
  {
    if batches == [] then []
    else
      var last := batches[|batches| - 1];
      Full(batches[..|batches| - 1], simdLanes) + if last.valid == simdLanes then [last] else []
  }

  function Partial(batches: seq<Batch>, simdLanes: nat): (r: seq<Batch>)
    ensures forall b :: b in r ==> b.valid != simdLanes && b in batches
  {
    if batches == [] then []
    else
      var last := batches[|batches| - 1];
      Partial(batches[..|batches| - 1], simdLanes) + if last.valid != simdLanes then [last] else []
  }

  lemma FullFirst(b: seq<Batch>, last: Batch, simdLanes: nat)
    ensures Full(b + [last], simdLanes) == Full(b, simdLanes) + if last.valid == simdLanes then [last] else []
    ensures Partial(b + [last], simdLanes) == Partial(b, simdLanes) + if last.valid != simdLanes then [last] else []
  {
    assert (b + [last])[..|b|] == b;
  }

  lemma NoneFull(simdLanes: nat)
    ensures Full([], simdLanes) == [] && Partial([], simdLanes) == []
  {
  }

  /** Both lists keep the order of the batches. */
  lemma {:induction false} InOrderOf(a: seq<Batch>, b: seq<Batch>, simdLanes: nat)
    ensures Full(a + b, simdLanes) == Full(a, simdLanes) + Full(b, simdLanes)
    ensures Partial(a + b, simdLanes) == Partial(a, simdLanes) + Partial(b, simdLanes)
  {
    hide Full, Partial;
    if b == [] {
      assert a + b == a;
      NoneFull(simdLanes);
    } else {
      var front, last := b[..|b| - 1], b[|b| - 1];
      InOrderOf(a, front, simdLanes);
      assert a + b == (a + front) + [last] && b == front + [last];
      FullFirst(a + front, last, simdLanes);
      FullFirst(front, last, simdLanes);
    }
  }

  // -------- the shape every full batch must share with the first

  predicate LoadsFit(first: Batch, b: Batch) {
    |b.loads| == |first.loads| && forall j :: 0 <= j < |b.loads| ==> b.loads[j].VectorLoad?
  }

  predicate OutputFits(first: OutputPlan, o: OutputPlan, k: nat, simdLanes: nat) {
    && o.output == k && !o.large && o.scale == first.scale
    && o.store.VectorStore? == first.store.VectorStore? && o.store.bank == first.store.bank
    && (o.store.LaneStore? ==> |o.store.lanes| == simdLanes)
    && o.twiddle.Some? == first.twiddle.Some?
    && (o.twiddle.Some? ==> |o.twiddle.value| == simdLanes)
  }

  predicate OutputsFit(first: Batch, b: Batch, simdLanes: nat) {
    |b.outputs| == |first.outputs| && forall k :: 0 <= k < |b.outputs| ==> OutputFits(first.outputs[k], b.outputs[k], k, simdLanes)
  }

  predicate AllFit(full: seq<Batch>, simdLanes: nat) {
    forall b :: b in full ==> LoadsFit(full[0], b) && OutputsFit(full[0], b, simdLanes)
  }

  // -------- the offsets the loop must reproduce

  function LoadOffsets(full: seq<Batch>, j: nat): (s: seq<int>)
    ensures |s| == |full|
  {
    seq(|full|, b requires 0 <= b < |full| => LoadBase(full[b], j))
  }

  function LoadBase(b: Batch, j: nat): int {
    if j < |b.loads| && b.loads[j].VectorLoad? then b.loads[j].base else 0
  }

  /** The offset lane `lane` of output k goes to, batch by batch. */
  function StoreOffsets(full: seq<Batch>, k: nat, lane: nat): (s: seq<int>)
    ensures |s| == |full|
  {
    seq(|full|, b requires 0 <= b < |full| => StoreBase(full[b], k, lane))
  }

  function StoreBase(b: Batch, k: nat, lane: nat): int {
    if k < |b.outputs| then StoreOffset(b.outputs[k].store, lane) else 0
  }

  /** One list for a vector store, one for each lane of a lane store. */
  function OutputSeqs(full: seq<Batch>, k: nat, simdLanes: nat): seq<seq<int>>
    requires |full| > 0 && k < |full[0].outputs|
  {
    if full[0].outputs[k].store.VectorStore? then [StoreOffsets(full, k, 0)] else LaneSeqs(full, k, simdLanes)
  }

  function LaneSeqs(full: seq<Batch>, k: nat, lanes: nat): seq<seq<int>> {
    if lanes == 0 then [] else LaneSeqs(full, k, lanes - 1) + [StoreOffsets(full, k, lanes - 1)]
  }

  function LoadSeqs(full: seq<Batch>, n: nat): seq<seq<int>> {
    if n == 0 then [] else LoadSeqs(full, n - 1) + [LoadOffsets(full, n - 1)]
  }

  function StoreSeqs(full: seq<Batch>, n: nat, simdLanes: nat): seq<seq<int>>
    requires |full| > 0 && n <= |full[0].outputs|
  {
    if n == 0 then [] else StoreSeqs(full, n - 1, simdLanes) + OutputSeqs(full, n - 1, simdLanes)
  }

  function AllSeqs(full: seq<Batch>, simdLanes: nat): seq<seq<int>>
    requires |full| > 0
  {
    LoadSeqs(full, |full[0].loads|) + StoreSeqs(full, |full[0].outputs|, simdLanes)
  }

  lemma {:induction false} LoadSeqsMembers(full: seq<Batch>, n: nat)
    ensures forall s :: s in LoadSeqs(full, n) ==> |s| == |full|
    ensures forall j: nat :: j < n ==> LoadOffsets(full, j) in LoadSeqs(full, n)
  {
    if n > 0 {
      LoadSeqsMembers(full, n - 1);
    }
  }

  lemma {:induction false} LaneSeqsMembers(full: seq<Batch>, k: nat, lanes: nat)
    ensures forall s :: s in LaneSeqs(full, k, lanes) ==> |s| == |full|
    ensures forall lane: nat :: lane < lanes ==> StoreOffsets(full, k, lane) in LaneSeqs(full, k, lanes)
  {
    if lanes > 0 {
      LaneSeqsMembers(full, k, lanes - 1);
    }
  }

  lemma {:induction false} StoreSeqsMembers(full: seq<Batch>, n: nat, simdLanes: nat)
    requires |full| > 0 && n <= |full[0].outputs|
    ensures forall s :: s in StoreSeqs(full, n, simdLanes) ==> |s| == |full|
    ensures forall k: nat, s :: k < n && s in OutputSeqs(full, k, simdLanes) ==> s in StoreSeqs(full, n, simdLanes)
  {
    hide StoreOffsets, LaneSeqs;
    if n > 0 {
      StoreSeqsMembers(full, n - 1, simdLanes);
      LaneSeqsMembers(full, n - 1, simdLanes);
    }
  }

  lemma AllSeqsLength(full: seq<Batch>, simdLanes: nat)
    requires |full| > 0
    ensures forall s :: s in AllSeqs(full, simdLanes) ==> |s| == |full|
  {
    LoadSeqsMembers(full, |full[0].loads|);
    StoreSeqsMembers(full, |full[0].outputs|, simdLanes);
  }

  // -------- the period

  /** Every list steps evenly at this period, which divides their length. */
  ghost predicate Admissible(seqs: seq<seq<int>>, n: nat, period: nat) {
    period > 0 && n % period == 0 && forall s :: s in seqs ==> Periodic(s, period)
  }

  function MaxPeriod(n: nat): nat {
    Min(LOOP_MAX_PERIOD, n / 2)
  }

  /** period is the least admissible one; it is at most 64 and leaves two rounds. */
  ghost predicate IsLeast(seqs: seq<seq<int>>, n: nat, period: nat) {
    && 0 < period <= 64 && 2 * period <= n && Admissible(seqs, n, period)
    && forall p: nat :: 0 < p < period ==> !Admissible(seqs, n, p)
  }

  ghost predicate Loopable(batches: seq<Batch>, simdLanes: nat, minFull: int) {
    var full := Full(batches, simdLanes);
    && 0 < |full| && minFull <= |full| && |Partial(batches, simdLanes)| <= 1
    && AllFit(full, simdLanes)
    && exists p: nat :: 0 < p <= 64 && 2 * p <= |full| && Admissible(AllSeqs(full, simdLanes), |full|, p)
  }

  method AllPeriodic(seqs: seq<seq<int>>, n: nat, period: nat) returns (r: bool)
    requires 0 < period <= MaxPeriod(n) && n % period == 0
    requires forall s :: s in seqs ==> |s| == n
    ensures r <==> Admissible(seqs, n, period)
  {
    var i := 0;
    while i < |seqs|
      invariant 0 <= i <= |seqs|
      invariant forall j :: 0 <= j < i ==> Periodic(seqs[j], period)
    {
      var p := PeriodicStride(seqs[i], period);
      if p.None? {
        assert seqs[i] in seqs;
        return false;
      }
      i := i + 1;
    }
    return true;
  }

  method FindPeriod(seqs: seq<seq<int>>, n: nat) returns (r: Option<nat>)
    requires forall s :: s in seqs ==> |s| == n
    ensures r.Some? ==> IsLeast(seqs, n, r.value)
    ensures r.None? ==> forall p: nat :: 0 < p <= 64 && 2 * p <= n ==> !Admissible(seqs, n, p)
  {
    var p := 1;
    while p <= MaxPeriod(n)
      invariant 1 <= p <= MaxPeriod(n) + 1
      invariant forall q: nat :: 0 < q < p ==> !Admissible(seqs, n, q)
    {
      if n % p == 0 {
        var ok := AllPeriodic(seqs, n, p);
        if ok {
          return Some(p);
        }
      }
      p := p + 1;
    }
    return None;
  }

  // -------- what a plan must say

  ghost predicate LoadPlanned(l: LoopLoad, full: seq<Batch>, j: nat, period: nat)
    requires |full| > 0 && j < |full[0].loads|
  {
    l.bank == full[0].loads[j].bank && |l.at.bases| == period && Reproduces(l.at, LoadOffsets(full, j))
  }

  ghost predicate StorePlanned(s: LoopStore, full: seq<Batch>, k: nat, simdLanes: nat, period: nat)
    requires |full| > 0 && k < |full[0].outputs|
  {
    && s.bank == full[0].outputs[k].store.bank
    && s.LoopVector? == full[0].outputs[k].store.VectorStore?
    && match s
       case LoopVector(_, at) => |at.bases| == period && Reproduces(at, StoreOffsets(full, k, 0))
       case LoopLanes(_, lanes) =>
         |lanes| == simdLanes && forall lane: nat :: lane < simdLanes ==> LanePlanned(lanes[lane], full, k, lane, period)
  }

  ghost predicate LanePlanned(at: Progression, full: seq<Batch>, k: nat, lane: nat, period: nat) {
    |at.bases| == period && Reproduces(at, StoreOffsets(full, k, lane))
  }

  /** The factor of lane `lane` of batch b for output k. */
  function Factor(full: seq<Batch>, k: nat, b: nat, lane: nat): Complex {
    if b < |full| && k < |full[b].outputs| && full[b].outputs[k].twiddle.Some? && lane < |full[b].outputs[k].twiddle.value|
    then full[b].outputs[k].twiddle.value[lane] else ONE
  }

  ghost predicate RowAt(table: seq<Complex>, start: nat, full: seq<Batch>, k: nat, simdLanes: nat, b: nat, lane: nat) {
    start + (lane + simdLanes * b) < |table| && table[start + (lane + simdLanes * b)] == Factor(full, k, b, lane)
  }

  /** From start on the table holds the factors of output k, batch after batch. */
  ghost predicate TableHolds(table: seq<Complex>, start: nat, full: seq<Batch>, k: nat, simdLanes: nat) {
    forall b: nat, lane: nat :: b < |full| && lane < simdLanes ==> RowAt(table, start, full, k, simdLanes, b, lane)
  }

  ghost predicate IsPlan(plan: LoopPlan, full: seq<Batch>, partial: seq<Batch>, simdLanes: nat, period: nat, table: seq<Complex>)
    requires |full| > 0 && period > 0
  {
    && plan.period == period && plan.outerIters == |full| / period
    && plan.tail == (if partial == [] then None else Some(partial[0]))
    && |plan.loads| == |full[0].loads|
    && (forall j: nat :: j < |full[0].loads| ==> LoadPlanned(plan.loads[j], full, j, period))
    && OutputsPlanned(plan.stores, plan.scales, plan.rows, table, full, simdLanes, period, |full[0].outputs|)
  }

  // -------- building it

  method CheckLoads(full: seq<Batch>) returns (ok: bool)
    requires |full| > 0
    ensures ok <==> forall b :: b in full ==> LoadsFit(full[0], b)
  {
    var i := 0;
    while i < |full|
      invariant 0 <= i <= |full| && forall h :: 0 <= h < i ==> |full[h].loads| == |full[0].loads|
    {
      if |full[i].loads| != |full[0].loads| {
        assert full[i] in full;
        return false;
      }
      i := i + 1;
    }
    var j := 0;
    while j < |full[0].loads|
      invariant 0 <= j <= |full[0].loads|
      invariant forall h, g :: 0 <= h < |full| && 0 <= g < j ==> full[h].loads[g].VectorLoad?
    {
      i := 0;
      while i < |full|
        invariant 0 <= i <= |full| && forall h :: 0 <= h < i ==> full[h].loads[j].VectorLoad?
      {
        if full[i].loads[j].PackedLoad? {
          assert full[i] in full;
          return false;
        }
        i := i + 1;
      }
      j := j + 1;
    }
    return true;
  }

  method CheckOutputs(full: seq<Batch>, simdLanes: nat) returns (ok: bool)
    requires |full| > 0
    ensures ok <==> forall b :: b in full ==> OutputsFit(full[0], b, simdLanes)
  {
    var i := 0;
    while i < |full|
      invariant 0 <= i <= |full| && forall h :: 0 <= h < i ==> |full[h].outputs| == |full[0].outputs|
    {
      if |full[i].outputs| != |full[0].outputs| {
        assert full[i] in full;
        return false;
      }
      i := i + 1;
    }
    var k := 0;
    while k < |full[0].outputs|
      invariant 0 <= k <= |full[0].outputs|
      invariant forall h, g :: 0 <= h < |full| && 0 <= g < k ==> OutputFits(full[0].outputs[g], full[h].outputs[g], g, simdLanes)
    {
      i := 0;
      while i < |full|
        invariant 0 <= i <= |full| && forall h :: 0 <= h < i ==> OutputFits(full[0].outputs[k], full[h].outputs[k], k, simdLanes)
      {
        var first, o := full[0].outputs[k], full[i].outputs[k];
        var storeDiffers := o.store.VectorStore? != first.store.VectorStore? || o.store.bank != first.store.bank;
        var lanesMiss := o.store.LaneStore? && |o.store.lanes| != simdLanes;
        var twiddleDiffers := o.twiddle.Some? != first.twiddle.Some? || (o.twiddle.Some? && |o.twiddle.value| != simdLanes);
        if o.output != k || o.large || o.scale != first.scale || storeDiffers || lanesMiss || twiddleDiffers {
          assert full[i] in full;
          return false;
        }
        i := i + 1;
      }
      k := k + 1;
    }
    return true;
  }

  method PlanLoads(full: seq<Batch>, simdLanes: nat, period: nat) returns (loads: seq<LoopLoad>)
    requires |full| > 0 && 0 < period <= MaxPeriod(|full|) && Admissible(AllSeqs(full, simdLanes), |full|, period)
    ensures |loads| == |full[0].loads| && forall j: nat :: j < |full[0].loads| ==> LoadPlanned(loads[j], full, j, period)
  {
    loads := [];
    var j := 0;
    while j < |full[0].loads|
      invariant 0 <= j <= |full[0].loads| && |loads| == j
      invariant forall h: nat :: h < j ==> LoadPlanned(loads[h], full, h, period)
    {
      LoadSeqsMembers(full, |full[0].loads|);
      assert LoadOffsets(full, j) in AllSeqs(full, simdLanes);
      var at := PeriodicStride(LoadOffsets(full, j), period);
      loads := loads + [LoopLoad(full[0].loads[j].bank, at.value)];
      j := j + 1;
    }
  }

  lemma StorePeriodic(full: seq<Batch>, simdLanes: nat, period: nat, k: nat, lane: nat)
    requires |full| > 0 && Admissible(AllSeqs(full, simdLanes), |full|, period) && k < |full[0].outputs|
    requires lane < if full[0].outputs[k].store.VectorStore? then 1 else simdLanes
    ensures Periodic(StoreOffsets(full, k, lane), period) && |StoreOffsets(full, k, lane)| == |full|
  {
    hide Periodic, StoreOffsets;
    StoreSeqsMembers(full, |full[0].outputs|, simdLanes);
    LaneSeqsMembers(full, k, simdLanes);
    AllSeqsLength(full, simdLanes);
    assert StoreOffsets(full, k, lane) in OutputSeqs(full, k, simdLanes);
    assert StoreOffsets(full, k, lane) in AllSeqs(full, simdLanes);
  }

  lemma DividesFull(full: seq<Batch>, simdLanes: nat, period: nat)
    requires |full| > 0 && 0 < period <= MaxPeriod(|full|) && Admissible(AllSeqs(full, simdLanes), |full|, period)
    ensures |full| % period == 0 && |full| >= 2 * period
  {
    hide AllSeqs, Periodic;
  }

  method PlanStore(full: seq<Batch>, simdLanes: nat, period: nat, k: nat) returns (s: LoopStore)
    requires |full| > 0 && 0 < period <= MaxPeriod(|full|) && Admissible(AllSeqs(full, simdLanes), |full|, period)
    requires k < |full[0].outputs|
    ensures StorePlanned(s, full, k, simdLanes, period)
  {
    hide AllSeqs, Periodic, Reproduces, StoreOffsets, Admissible;
    var bank := full[0].outputs[k].store.bank;
    DividesFull(full, simdLanes, period);
    if full[0].outputs[k].store.VectorStore? {
      StorePeriodic(full, simdLanes, period, k, 0);
      var at := PeriodicStride(StoreOffsets(full, k, 0), period);
      s := LoopVector(bank, at.value);
    } else {
      var lanes: seq<Progression> := [];
      var lane := 0;
      while lane < simdLanes
        invariant 0 <= lane <= simdLanes && |lanes| == lane
        invariant forall l: nat :: l < lane ==> LanePlanned(lanes[l], full, k, l, period)
      {
        StorePeriodic(full, simdLanes, period, k, lane);
        var at := PeriodicStride(StoreOffsets(full, k, lane), period);
        lanes := lanes + [at.value];
        lane := lane + 1;
      }
      s := LoopLanes(bank, lanes);
    }
  }

  /** The first batches' factors of output k are in place. */
  ghost predicate RowsUpTo(rows: seq<Complex>, full: seq<Batch>, k: nat, simdLanes: nat, batches: nat) {
    && |rows| == simdLanes * batches
    && forall b: nat, lane: nat :: b < batches && lane < simdLanes ==> RowAt(rows, 0, full, k, simdLanes, b, lane)
  }

  lemma RowsGrow(rows: seq<Complex>, more: seq<Complex>, full: seq<Batch>, k: nat, simdLanes: nat, b: nat)
    requires RowsUpTo(rows, full, k, simdLanes, b) && |more| == simdLanes
    requires forall lane: nat :: lane < simdLanes ==> more[lane] == Factor(full, k, b, lane)
    ensures RowsUpTo(rows + more, full, k, simdLanes, b + 1)
  {
    assert simdLanes * (b + 1) == simdLanes * b + simdLanes;
    forall h: nat, lane: nat | h < b + 1 && lane < simdLanes ensures RowAt(rows + more, 0, full, k, simdLanes, h, lane) {
      if h < b {
        assert RowAt(rows, 0, full, k, simdLanes, h, lane);
      }
    }
  }

  /** The factors of output k, batch after batch and lane after lane. */
  method TwiddleRows(full: seq<Batch>, simdLanes: nat, k: nat) returns (rows: seq<Complex>)
    requires |full| > 0 && k < |full[0].outputs| && full[0].outputs[k].twiddle.Some?
    requires forall b :: b in full ==> OutputsFit(full[0], b, simdLanes)
    ensures TableHolds(rows, 0, full, k, simdLanes) && |rows| == |full| * simdLanes
  {
    hide RowAt;
    rows := [];
    var b := 0;
    while b < |full|
      invariant 0 <= b <= |full| && RowsUpTo(rows, full, k, simdLanes, b)
    {
      assert full[b] in full && OutputFits(full[0].outputs[k], full[b].outputs[k], k, simdLanes);
      ghost var before := rows;
      var lane := 0;
      while lane < simdLanes
        invariant 0 <= lane <= simdLanes && rows == before + full[b].outputs[k].twiddle.value[..lane]
      {
        rows := rows + [full[b].outputs[k].twiddle.value[lane]];
        lane := lane + 1;
      }
      RowsGrow(before, full[b].outputs[k].twiddle.value, full, k, simdLanes, b);
      assert rows == before + full[b].outputs[k].twiddle.value;
      b := b + 1;
    }
  }

  /** The rows of n outputs, one for each lane of each batch. */
  function RowsOf(n: nat, batches: nat, simdLanes: nat): nat {
    Times(n, Times(batches, simdLanes))
  }

  lemma MoreRows(n: nat, batches: nat, simdLanes: nat)
    ensures RowsOf(n + 1, batches, simdLanes) == RowsOf(n, batches, simdLanes) + batches * simdLanes
  {
    var each := batches * simdLanes;
    assert (n + 1) * each == n * each + each;
  }

  lemma NoRowsYet(batches: nat, simdLanes: nat)
    ensures RowsOf(0, batches, simdLanes) == 0
  {
  }

  lemma TableExtends(table: seq<Complex>, more: seq<Complex>, start: nat, full: seq<Batch>, k: nat, simdLanes: nat)
    requires TableHolds(table, start, full, k, simdLanes)
    ensures TableHolds(table + more, start, full, k, simdLanes)
  {
    forall b: nat, lane: nat | b < |full| && lane < simdLanes ensures RowAt(table + more, start, full, k, simdLanes, b, lane) {
      assert RowAt(table, start, full, k, simdLanes, b, lane);
    }
  }

  lemma TableMoves(table: seq<Complex>, before: seq<Complex>, full: seq<Batch>, k: nat, simdLanes: nat)
    requires TableHolds(table, 0, full, k, simdLanes)
    ensures TableHolds(before + table, |before|, full, k, simdLanes)
  {
    forall b: nat, lane: nat | b < |full| && lane < simdLanes ensures RowAt(before + table, |before|, full, k, simdLanes, b, lane) {
      assert RowAt(table, 0, full, k, simdLanes, b, lane);
    }
  }

  /** The table of twiddle factors that all looped stages of a kernel share. */
  class TwiddleTable {
    var rows: seq<Complex>

    constructor ()
      ensures rows == []
    {
      rows := [];
    }

    /** Plans a loop when there is one at some period up to the bound, at the least such
        period, and adds its twiddles to the table; otherwise leaves the table alone. */
    method TryBuildLoopStage(batches: seq<Batch>, simdLanes: nat, minFull: int) returns (r: Outcome)
      modifies this
      ensures r.Raised? <==> Full(batches, simdLanes) == [] && minFull <= 0 && |Partial(batches, simdLanes)| <= 1
      ensures r.Looped? <==> Loopable(batches, simdLanes, minFull)
      ensures r.Looped? <==>
                var full := Full(batches, simdLanes);
                && 0 < |full| && minFull <= |full| && |Partial(batches, simdLanes)| <= 1 && AllFit(full, simdLanes)
                && exists p: nat :: 0 < p <= 64 && 2 * p <= |full| && Admissible(AllSeqs(full, simdLanes), |full|, p)
      ensures r.Looped? ==> |rows| == |old(rows)| + |r.plan.rows| * (|Full(batches, simdLanes)| * simdLanes)
      ensures !r.Looped? ==> rows == old(rows)
      ensures r.Looped? ==>
                var full := Full(batches, simdLanes);
                && IsLeast(AllSeqs(full, simdLanes), |full|, r.plan.period)
                && IsPlan(r.plan, full, Partial(batches, simdLanes), simdLanes, r.plan.period, rows)
                && r.plan.outerIters >= 2
      ensures old(rows) <= rows
    {
      hide OutputsPlanned, Periodic, AllSeqs, LoadPlanned, OutputsFit, LoadsFit, Full, Partial;
      var full := Full(batches, simdLanes);
      var partial := Partial(batches, simdLanes);
      if |full| < minFull || |partial| > 1 {
        return Unrolled;
      }
      if |full| == 0 {
        return Raised;
      }
      var loadsOk := CheckLoads(full);
      if !loadsOk {
        return Unrolled;
      }
      var outputsOk := CheckOutputs(full, simdLanes);
      if !outputsOk {
        return Unrolled;
      }
      AllSeqsLength(full, simdLanes);
      var period := FindPeriod(AllSeqs(full, simdLanes), |full|);
      if period.None? {
        return Unrolled;
      }
      var outerIters := |full| / period.value;
      TwoRows(|full|, period.value);
      if outerIters < 2 {
        assert false;
        return Unrolled;
      }
      var loads := PlanLoads(full, simdLanes, period.value);
      var stores, scales, starts, local := PlanOutputs(full, simdLanes, period.value);
      rows := rows + local;
      r := Looped(LoopPlan(period.value, outerIters, loads, stores, starts, scales, if partial == [] then None else Some(partial[0])));
    }

    /** Plans every output's store, scale and twiddle rows; local is to follow the table's rows. */
    method PlanOutputs(full: seq<Batch>, simdLanes: nat, period: nat)
      returns (stores: seq<LoopStore>, scales: seq<Option<real>>, starts: map<nat, nat>, local: seq<Complex>)
      requires |full| > 0 && 0 < period <= MaxPeriod(|full|) && Admissible(AllSeqs(full, simdLanes), |full|, period)
      requires forall b :: b in full ==> OutputsFit(full[0], b, simdLanes)
      ensures OutputsPlanned(stores, scales, starts, rows + local, full, simdLanes, period, |full[0].outputs|)
      ensures |local| == RowsOf(|starts|, |full|, simdLanes)
    {
      hide StorePlanned, TableHolds, Admissible, OutputsFit, AllSeqs, RowsOf, OutputsPlanned;
      NoRowsYet(|full|, simdLanes);
      stores, local, starts, scales := [], [], map[], [];
      NoOutputYet(rows, full, simdLanes, period);
      assert rows + local == rows;
      var k := 0;
      while k < |full[0].outputs|
        invariant 0 <= k <= |full[0].outputs|
        invariant OutputsPlanned(stores, scales, starts, rows + local, full, simdLanes, period, k)
        invariant |local| == RowsOf(|starts|, |full|, simdLanes)
      {
        ghost var starts0, local0 := starts, local;
        var s := PlanStore(full, simdLanes, period, k);
        if full[0].outputs[k].twiddle.Some? {
          var more := TwiddleRows(full, simdLanes, k);
          StartsSoFar(stores, scales, starts, rows + local, full, simdLanes, period, k);
          starts, local := AddRows(full, simdLanes, k, starts, local, more);
        }
        NextOutput(stores, scales, starts0, rows + local0, s, starts, rows + local, full, simdLanes, period, k);
        stores := stores + [s];
        scales := scales + [full[0].outputs[k].scale];
        k := k + 1;
      }
    }

    method AddRows(full: seq<Batch>, simdLanes: nat, k: nat, starts: map<nat, nat>, local: seq<Complex>, more: seq<Complex>)
      returns (starts': map<nat, nat>, local': seq<Complex>)
      requires TableHolds(more, 0, full, k, simdLanes) && |more| == |full| * simdLanes && k !in starts
      requires |local| == RowsOf(|starts|, |full|, simdLanes)
      requires forall h: nat :: h in starts ==> TableHolds(rows + local, starts[h], full, h, simdLanes)
      ensures |local'| == RowsOf(|starts'|, |full|, simdLanes)
      ensures starts' == starts[k := |rows| + |local|] && local' == local + more
      ensures forall h: nat :: h in starts' ==> TableHolds(rows + local', starts'[h], full, h, simdLanes)
    {
      hide TableHolds, RowsOf;
      MoreRows(|starts|, |full|, simdLanes);
      starts', local' := starts[k := |rows| + |local|], local + more;
      assert rows + local' == (rows + local) + more;
      TableMoves(more, rows + local, full, k, simdLanes);
      forall h: nat | h in starts ensures TableHolds(rows + local', starts[h], full, h, simdLanes) {
        TableExtends(rows + local, more, starts[h], full, h, simdLanes);
      }
    }
  }

  /** The first n outputs are planned. */
  ghost predicate OutputsPlanned(stores: seq<LoopStore>, scales: seq<Option<real>>, starts: map<nat, nat>, table: seq<Complex>,
                                 full: seq<Batch>, simdLanes: nat, period: nat, n: nat)
    requires |full| > 0 && n <= |full[0].outputs|
  {
    && |stores| == |scales| == n
    && (forall k: nat :: k < n ==> StorePlanned(stores[k], full, k, simdLanes, period))
    && (forall k: nat :: k < n ==> scales[k] == full[0].outputs[k].scale)
    && (forall k: nat :: k in starts <==> k < n && full[0].outputs[k].twiddle.Some?)
    && (forall k: nat :: k in starts ==> TableHolds(table, starts[k], full, k, simdLanes))
  }

  lemma NoOutputYet(table: seq<Complex>, full: seq<Batch>, simdLanes: nat, period: nat)
    requires |full| > 0
    ensures OutputsPlanned([], [], map[], table, full, simdLanes, period, 0)
  {
  }

  lemma StartsSoFar(stores: seq<LoopStore>, scales: seq<Option<real>>, starts: map<nat, nat>, table: seq<Complex>,
                    full: seq<Batch>, simdLanes: nat, period: nat, k: nat)
    requires |full| > 0 && k < |full[0].outputs| && OutputsPlanned(stores, scales, starts, table, full, simdLanes, period, k)
    ensures k !in starts && forall h: nat :: h in starts ==> TableHolds(table, starts[h], full, h, simdLanes)
  {
  }

  lemma NextOutput(stores: seq<LoopStore>, scales: seq<Option<real>>, starts: map<nat, nat>, table: seq<Complex>,
                   s: LoopStore, starts': map<nat, nat>, table': seq<Complex>, full: seq<Batch>, simdLanes: nat, period: nat, k: nat)
    requires |full| > 0 && k < |full[0].outputs| && OutputsPlanned(stores, scales, starts, table, full, simdLanes, period, k)
    requires StorePlanned(s, full, k, simdLanes, period)
    requires full[0].outputs[k].twiddle.None? ==> starts' == starts && table' == table
    requires full[0].outputs[k].twiddle.Some? ==>
               && (forall h: nat :: h in starts' <==> h == k || h in starts)
               && forall h: nat :: h in starts' ==> TableHolds(table', starts'[h], full, h, simdLanes)
    ensures OutputsPlanned(stores + [s], scales + [full[0].outputs[k].scale], starts', table', full, simdLanes, period, k + 1)
  {
    hide StorePlanned, TableHolds;
  }

  /** The period search never proposes a loop of a single round. */
  lemma TwoRows(n: nat, period: nat)
    requires 0 < period <= n / 2 && n % period == 0
    ensures n / period >= 2
  {
    Recompose(n, period);
    Below(n, period, 2);
  }
}
