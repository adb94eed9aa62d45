/** How the planner lowers one stage of the staged transform to SIMD batches, and that the
    batches meet every condition under which they may be split and rolled. */
module StagePlans {
  import opened Complexes
  import opened DivMod
  import opened Fourier
  import opened Memories
  import opened Batches
  import opened Chunking
  import opened LoopStages
  import opened Reroll
  import opened StageRuns
  import opened Stockham

  datatype Layout = Layout(radix: nat, butterflies: nat, inputBatchWidth: nat, inputStride: nat,
                           outputBatchWidth: nat, outputStride: nat, modulus: Option<nat>, twiddleStride: nat, laneDivisor: nat)

  /** The layout of a stage of an n-point kernel, p being the product of the radices before. */
  function LayoutFor(n: nat, r: nat, p: nat, last: bool, simdLanes: nat): Layout
    requires r > 0 && p > 0
  {
    Layout(r, n / r, simdLanes, n / r, simdLanes, if last then p else 1, if last then None else Some(n / p), 1, if last then 1 else p)
  }

  /** A stage to lower: where it reads and writes, and what the last stage adds.  A forced
      stage keeps to its buffers even where it is the first or the last. */
  datatype Spec = Spec(turn: Turn, inverse: bool, simdLanes: nat, layout: Layout, first: bool, last: bool, forced: bool,
                       readBuffer: Bank, writeBuffer: Bank, inStride: int, outStride: int, large: bool, scale: Option<real>)

  function MakeLoad(first: bool, forced: bool, readBuffer: Bank, base: int, valid: nat, simdLanes: nat, dramStride: int): Load {
    var fromInput := first && !forced;
    var bank := if fromInput then Input else readBuffer;
    if valid == simdLanes && !(fromInput && dramStride != 1) then VectorLoad(bank, base)
    else
      PackedLoad(bank, seq(simdLanes, lane requires 0 <= lane < simdLanes =>
        if lane < valid then Some((base + lane) * if fromInput then dramStride else 1) else None))
  }

  function MakeTwiddle(turn: Turn, inverse: bool, simdLanes: nat, valid: nat, firstBfly: nat, output: nat, layout: Layout): (w: Option<seq<Complex>>)
    requires layout.laneDivisor > 0
    ensures w.Some? ==> |w.value| == simdLanes
  {
    if layout.modulus.None? || output == 0 then None
    else
      Some(seq(simdLanes, lane requires 0 <= lane < simdLanes =>
        if lane >= valid then ONE
        else Rot(turn, inverse, ((firstBfly + lane) / layout.laneDivisor) * output * layout.twiddleStride, layout.modulus.value)))
  }

  function MakeStore(last: bool, forced: bool, writeBuffer: Bank, layout: Layout, simdIt: nat, output: nat, valid: nat, simdLanes: nat,
                     dramStride: int): Store
    requires layout.laneDivisor > 0
  {
    if last then
      var base := (simdIt * layout.outputBatchWidth + output * layout.outputStride) * dramStride;
      var bank := if forced then writeBuffer else Output;
      if valid == simdLanes && (forced || dramStride == 1) then VectorStore(bank, base)
      else LaneStore(bank, seq(valid, lane requires 0 <= lane < valid => base + lane * dramStride))
    else
      var offsets := seq(valid, lane requires 0 <= lane < valid => Destination(layout.radix, layout.laneDivisor, simdIt * simdLanes + lane, output));
      if valid == simdLanes && valid > 0 && Consecutive(offsets) then VectorStore(writeBuffer, offsets[0])
      else LaneStore(writeBuffer, offsets)
  }

  function Iterations(s: Spec): nat
    requires s.simdLanes > 0
  {
    (s.layout.butterflies + s.simdLanes - 1) / s.simdLanes
  }

  function MakeBatch(s: Spec, it: nat): Batch
    requires s.layout.laneDivisor > 0 && it * s.simdLanes <= s.layout.butterflies
  {
    var firstBfly := it * s.simdLanes;
    var valid := Min(s.simdLanes, s.layout.butterflies - firstBfly);
    Batch(it, valid,
          seq(s.layout.radix, j requires 0 <= j < s.layout.radix =>
            MakeLoad(s.first, s.forced, s.readBuffer, it * s.layout.inputBatchWidth + j * s.layout.inputStride, valid, s.simdLanes, s.inStride)),
          seq(s.layout.radix, k requires 0 <= k < s.layout.radix => MakeOutput(s, it, firstBfly, valid, k)))
  }

  function MakeOutput(s: Spec, it: nat, firstBfly: nat, valid: nat, k: nat): OutputPlan
    requires s.layout.laneDivisor > 0
  {
    OutputPlan(k, MakeTwiddle(s.turn, s.inverse, s.simdLanes, valid, firstBfly, k, s.layout), if s.last then s.scale else None,
               s.last && s.large, MakeStore(s.last, s.forced, s.writeBuffer, s.layout, it, k, valid, s.simdLanes, s.outStride))
  }

  lemma Started(s: Spec, it: nat)
    requires s.simdLanes > 0 && it < Iterations(s)
    ensures it * s.simdLanes < s.layout.butterflies
  {
    assert it * s.simdLanes <= (Iterations(s) - 1) * s.simdLanes;
  }

  /** The first n batches of the stage. */
  function FirstBatches(s: Spec, n: nat): (r: seq<Batch>)
    requires s.layout.laneDivisor > 0 && s.simdLanes > 0 && n <= Iterations(s)
    ensures |r| == n
  {
    if n == 0 then []
    else
      Started(s, n - 1);
      FirstBatches(s, n - 1) + [MakeBatch(s, n - 1)]
  }

  function LowerStage(s: Spec): seq<Batch>
    requires s.layout.laneDivisor > 0 && s.simdLanes > 0
  {
    FirstBatches(s, Iterations(s))
  }

  // -------- a stage of the staged transform

  function Source(s: Spec, i: int): Cell {
    if s.first && !s.forced then Cell(Input, i * s.inStride) else Cell(s.readBuffer, i)
  }

  function Target(s: Spec, a: int): Cell {
    if s.last then Cell(TargetBank(s), a * s.outStride) else Cell(s.writeBuffer, a)
  }

  function SourceBank(s: Spec): Bank {
    if s.first && !s.forced then Input else s.readBuffer
  }

  function TargetBank(s: Spec): Bank {
    if s.last && !s.forced then Output else s.writeBuffer
  }

  /** s lowers the stage of radix r after product p, with m still to come, of a kernel of p * (r * m) points. */
  ghost predicate Lowers(s: Spec, n: nat, r: nat, p: nat, m: nat) {
    && IsTurn(s.turn) && s.simdLanes > 0 && r > 0 && p > 0 && m > 0 && n == p * (r * m)
    && (s.last ==> m == 1)
    && s.layout == LayoutFor(n, r, p, s.last, s.simdLanes)
    && s.inStride != 0 && s.outStride != 0 && (s.forced ==> s.inStride == 1 && s.outStride == 1)
  }

  lemma Butterflies(s: Spec, n: nat, r: nat, p: nat, m: nat)
    requires Lowers(s, n, r, p, m)
    ensures s.layout.radix == r && s.layout.butterflies == p * m == n / r && s.layout.inputStride == p * m
    ensures n / p == r * m && n == r * (p * m) && s.layout.laneDivisor > 0
  {
    hide IsTurn;
    assert n == r * (p * m);
    Decode(r, p * m, 0);
    Decode(p, r * m, 0);
  }

  lemma LoadAt(s: Spec, n: nat, r: nat, p: nat, m: nat, it: nat, j: nat, lane: nat)
    requires Lowers(s, n, r, p, m) && s.layout.laneDivisor > 0 && it * s.simdLanes < s.layout.butterflies && j < s.layout.radix
    requires lane < MakeBatch(s, it).valid
    ensures LoadCell(MakeBatch(s, it).loads[j], lane) == Some(Source(s, it * s.simdLanes + lane + j * s.layout.inputStride))
  {
  }

  /** When a planned load or store is a vector, and when an output is twiddled: a full batch whose
      neighbouring lanes are neighbouring cells is loaded and stored whole, and every output but
      the first is turned, save in the last stage.  A lane that is not valid loads nothing and is
      not turned. */
  lemma PlannedForms(s: Spec, n: nat, r: nat, p: nat, m: nat, it: nat, k: nat)
    requires Lowers(s, n, r, p, m) && s.layout.laneDivisor > 0 && it * s.simdLanes < s.layout.butterflies && k < r
    ensures s.layout.radix == r
    ensures var b := MakeBatch(s, it);
            && b.id == it && |b.loads| == |b.outputs| == r && b.outputs[k].output == k
            && (b.loads[k].VectorLoad? <==> b.valid == s.simdLanes && Source(s, 1).offset == Source(s, 0).offset + 1)
            && (b.outputs[k].store.VectorStore? <==> b.valid == s.simdLanes && StoresSideBySide(s, it, k))
            && (b.outputs[k].twiddle.Some? <==> !s.last && k > 0)
            && (forall lane: nat :: b.valid <= lane < s.simdLanes ==> LoadCell(b.loads[k], lane) == None)
            && (b.outputs[k].twiddle.Some? ==> forall lane: nat :: b.valid <= lane < s.simdLanes ==> b.outputs[k].twiddle.value[lane] == ONE)
            && (b.outputs[k].scale == if s.last then s.scale else None) && (b.outputs[k].large <==> s.last && s.large)
  {
    hide IsTurn, Destination, MakeLoad, MakeStore, MakeTwiddle, StoresSideBySide;
    Butterflies(s, n, r, p, m);
    LoadForm(s, n, r, p, m, it, k);
    StoreForm(s, n, r, p, m, it, k);
    TwiddleForm(s, n, r, p, m, it, k);
  }

  lemma LoadForm(s: Spec, n: nat, r: nat, p: nat, m: nat, it: nat, k: nat)
    requires Lowers(s, n, r, p, m) && s.layout.laneDivisor > 0 && it * s.simdLanes < s.layout.butterflies && k < s.layout.radix
    ensures var b := MakeBatch(s, it);
            && (b.loads[k].VectorLoad? <==> b.valid == s.simdLanes && Source(s, 1).offset == Source(s, 0).offset + 1)
            && (forall lane: nat :: b.valid <= lane < s.simdLanes ==> LoadCell(b.loads[k], lane) == None)
  {
    hide IsTurn, MakeOutput;
  }

  lemma TwiddleForm(s: Spec, n: nat, r: nat, p: nat, m: nat, it: nat, k: nat)
    requires Lowers(s, n, r, p, m) && s.layout.laneDivisor > 0 && it * s.simdLanes < s.layout.butterflies && k < s.layout.radix
    ensures var b := MakeBatch(s, it);
            && (b.outputs[k].twiddle.Some? <==> !s.last && k > 0)
            && (b.outputs[k].twiddle.Some? ==> forall lane: nat :: b.valid <= lane < s.simdLanes ==> b.outputs[k].twiddle.value[lane] == ONE)
  {
    hide IsTurn, MakeLoad, MakeStore, Rot;
  }

  lemma StoreForm(s: Spec, n: nat, r: nat, p: nat, m: nat, it: nat, k: nat)
    requires Lowers(s, n, r, p, m) && s.layout.laneDivisor > 0 && it * s.simdLanes < s.layout.butterflies && k < s.layout.radix
    ensures var b := MakeBatch(s, it); b.outputs[k].store.VectorStore? <==> b.valid == s.simdLanes && StoresSideBySide(s, it, k)
  {
    hide IsTurn, Destination, MakeLoad, MakeTwiddle;
    if !s.last {
      var valid := MakeBatch(s, it).valid;
      var offsets := seq(valid, l requires 0 <= l < valid => Destination(s.layout.radix, s.layout.laneDivisor, it * s.simdLanes + l, k));
      OffsetsRun(s, it, k, valid, offsets);
    }
  }

  /** In the last stage neighbouring elements are neighbouring cells; in another the lanes of this
      batch go to consecutive cells. */
  ghost predicate StoresSideBySide(s: Spec, it: nat, k: nat)
    requires s.layout.laneDivisor > 0 && it * s.simdLanes <= s.layout.butterflies
  {
    if s.last then Target(s, 1).offset == Target(s, 0).offset + 1
    else forall lane: nat :: lane < MakeBatch(s, it).valid ==> GoesNext(s, it, k, lane)
  }

  ghost predicate GoesNext(s: Spec, it: nat, k: nat, lane: nat)
    requires s.layout.laneDivisor > 0
  {
    Destination(s.layout.radix, s.layout.laneDivisor, it * s.simdLanes + lane, k) == Destination(s.layout.radix, s.layout.laneDivisor, it * s.simdLanes, k) + lane
  }

  lemma OffsetsRun(s: Spec, it: nat, k: nat, valid: nat, offsets: seq<int>)
    requires s.layout.laneDivisor > 0 && it * s.simdLanes < s.layout.butterflies && |offsets| == valid == MakeBatch(s, it).valid && valid > 0
    requires forall l: nat :: l < valid ==> offsets[l] == Destination(s.layout.radix, s.layout.laneDivisor, it * s.simdLanes + l, k)
    ensures Consecutive(offsets) <==> forall lane: nat :: lane < valid ==> GoesNext(s, it, k, lane)
  {
    hide Destination, MakeBatch;
    assert it * s.simdLanes + 0 == it * s.simdLanes;
    if forall lane: nat :: lane < valid ==> GoesNext(s, it, k, lane) {
      forall i | 0 < i < |offsets| ensures offsets[i] == offsets[0] + i {
        assert GoesNext(s, it, k, i);
      }
    }
    if Consecutive(offsets) {
      forall lane: nat | lane < valid ensures GoesNext(s, it, k, lane) {
        assert offsets[lane] == offsets[0] + lane;
      }
    }
  }

  lemma LoadsFrom(s: Spec, it: nat, c: Cell)
    requires s.layout.laneDivisor > 0 && it * s.simdLanes <= s.layout.butterflies
    requires Loads(MakeBatch(s, it), c)
    ensures c.bank == SourceBank(s)
  {
  }

  /** Of the last stage, whose butterflies are fewer than the product before it, the plain
      formula is the general one. */
  lemma LastDestination(r: nat, p: nat, bfly: nat, k: nat)
    requires p > 0 && bfly < p
    ensures Destination(r, p, bfly, k) == bfly + k * p
  {
    Decode(p, 0, bfly);
    assert 0 * (r * p) == 0;
  }

  lemma MakeStoreAt(last: bool, forced: bool, writeBuffer: Bank, layout: Layout, simdIt: nat, k: nat, valid: nat, simdLanes: nat,
                    stride: int, lane: nat)
    requires layout.laneDivisor > 0 && lane < valid && (forced ==> stride == 1)
    ensures StoreOffset(MakeStore(last, forced, writeBuffer, layout, simdIt, k, valid, simdLanes, stride), lane)
            == if last then (simdIt * layout.outputBatchWidth + k * layout.outputStride) * stride + lane * stride
               else Destination(layout.radix, layout.laneDivisor, simdIt * simdLanes + lane, k)
  {
    hide Destination;
    if !last {
      var offsets := seq(valid, l requires 0 <= l < valid => Destination(layout.radix, layout.laneDivisor, simdIt * simdLanes + l, k));
      assert offsets[lane] == Destination(layout.radix, layout.laneDivisor, simdIt * simdLanes + lane, k);
      assert Consecutive(offsets) ==> offsets[lane] == offsets[0] + lane;
      var store := MakeStore(last, forced, writeBuffer, layout, simdIt, k, valid, simdLanes, stride);
      assert store == if valid == simdLanes && valid > 0 && Consecutive(offsets) then VectorStore(writeBuffer, offsets[0]) else LaneStore(writeBuffer, offsets);
    }
  }

  lemma StoreAt(s: Spec, n: nat, r: nat, p: nat, m: nat, it: nat, k: nat, lane: nat)
    requires Lowers(s, n, r, p, m) && s.layout.laneDivisor > 0 && it * s.simdLanes < s.layout.butterflies && k < s.layout.radix
    requires lane < MakeBatch(s, it).valid
    ensures StoreCell(MakeBatch(s, it).outputs[k].store, lane) == Target(s, Destination(r, p, it * s.simdLanes + lane, k))
  {
    hide IsTurn, MakeTwiddle, MakeStore, StoreOffset, MakeLoad, Destination;
    var valid := MakeBatch(s, it).valid;
    StoredCount(s, it, k);
    MakeStoreAt(s.last, s.forced, s.writeBuffer, s.layout, it, k, valid, s.simdLanes, s.outStride, lane);
    TargetOf(s, n, r, p, m, it, k, lane);
  }

  lemma TargetOf(s: Spec, n: nat, r: nat, p: nat, m: nat, it: nat, k: nat, lane: nat)
    requires Lowers(s, n, r, p, m) && it * s.simdLanes + lane < s.layout.butterflies
    ensures s.last ==> (it * s.layout.outputBatchWidth + k * s.layout.outputStride) * s.outStride + lane * s.outStride
                       == Destination(r, p, it * s.simdLanes + lane, k) * s.outStride
    ensures !s.last ==> s.layout.radix == r && s.layout.laneDivisor == p
  {
    hide IsTurn, Destination;
    Butterflies(s, n, r, p, m);
    if s.last {
      LastDestination(r, p, it * s.simdLanes + lane, k);
      Distributes(it * s.simdLanes, k * p, lane, s.outStride);
    }
  }

  lemma Distributes(a: int, b: int, c: int, d: int)
    ensures (a + b) * d + c * d == (a + c + b) * d
  {
  }

  lemma StoredCount(s: Spec, it: nat, k: nat)
    requires s.layout.laneDivisor > 0 && it * s.simdLanes <= s.layout.butterflies && k < s.layout.radix
    ensures var b := MakeBatch(s, it); StoredLanes(b.outputs[k].store, s.simdLanes) == b.valid && b.outputs[k].store.bank == TargetBank(s)
    ensures var b := MakeBatch(s, it); WellFormedOutput(b.outputs[k], b.valid, s.simdLanes)
  {
  }

  // -------- the batches may be split and rolled

  /** The stage reads one bank and writes another. */
  predicate Separate(s: Spec) {
    SourceBank(s) != TargetBank(s)
  }

  lemma TargetsDiffer(s: Spec, a: int, a': int)
    requires s.outStride != 0 && Target(s, a) == Target(s, a')
    ensures a == a'
  {
    if s.last {
      assert (a - a') * s.outStride == 0;
    }
  }

  lemma PlannedWritesOnce(s: Spec, n: nat, r: nat, p: nat, m: nat, it: nat)
    requires Lowers(s, n, r, p, m) && s.layout.laneDivisor > 0 && it * s.simdLanes < s.layout.butterflies
    ensures OneWriter(MakeBatch(s, it), s.simdLanes)
  {
    var b := MakeBatch(s, it);
    forall o, o', lane: nat, lane': nat
      | (&& o in b.outputs && o' in b.outputs
         && lane < StoredLanes(o.store, s.simdLanes) && lane' < StoredLanes(o'.store, s.simdLanes)
         && StoreCell(o.store, lane) == StoreCell(o'.store, lane'))
      ensures o == o' && lane == lane'
    {
      var k: nat :| k < |b.outputs| && b.outputs[k] == o;
      var k': nat :| k' < |b.outputs| && b.outputs[k'] == o';
      SameTarget(s, n, r, p, m, it, k, lane, k', lane');
    }
  }

  lemma SameTarget(s: Spec, n: nat, r: nat, p: nat, m: nat, it: nat, k: nat, lane: nat, k': nat, lane': nat)
    requires Lowers(s, n, r, p, m) && s.layout.laneDivisor > 0 && it * s.simdLanes < s.layout.butterflies && k < s.layout.radix && k' < s.layout.radix
    requires var b := MakeBatch(s, it);
             && lane < StoredLanes(b.outputs[k].store, s.simdLanes) && lane' < StoredLanes(b.outputs[k'].store, s.simdLanes)
             && StoreCell(b.outputs[k].store, lane) == StoreCell(b.outputs[k'].store, lane')
    ensures k == k' && lane == lane'
  {
    hide MakeBatch, IsTurn, Destination, Target, StoreCell, StoredLanes, FromBfly, FromOutput;
    StoredCount(s, it, k);
    StoredCount(s, it, k');
    StoreAt(s, n, r, p, m, it, k, lane);
    StoreAt(s, n, r, p, m, it, k', lane');
    Butterflies(s, n, r, p, m);
    TargetsDiffer(s, Destination(r, p, it * s.simdLanes + lane, k), Destination(r, p, it * s.simdLanes + lane', k'));
    DestinationInverts(r, p, it * s.simdLanes + lane, k);
    DestinationInverts(r, p, it * s.simdLanes + lane', k');
  }

  lemma StoresTo(s: Spec, it: nat, c: Cell)
    requires s.layout.laneDivisor > 0 && it * s.simdLanes <= s.layout.butterflies
    requires Stores(MakeBatch(s, it), s.simdLanes, c)
    ensures c.bank == TargetBank(s)
  {
    var b := MakeBatch(s, it);
    var o, lane: nat :| o in b.outputs && lane < StoredLanes(o.store, s.simdLanes) && StoreCell(o.store, lane) == c;
    var k: nat :| k < |b.outputs| && b.outputs[k] == o;
    StoredCount(s, it, k);
  }

  lemma PlannedSeparate(s: Spec, it: nat)
    requires s.layout.laneDivisor > 0 && it * s.simdLanes <= s.layout.butterflies && Separate(s)
    ensures NoOverlap(MakeBatch(s, it), s.simdLanes)
  {
    hide MakeBatch, Loads, Stores;
    forall c | Loads(MakeBatch(s, it), c) ensures !Stores(MakeBatch(s, it), s.simdLanes, c) {
      LoadsFrom(s, it, c);
      if Stores(MakeBatch(s, it), s.simdLanes, c) {
        StoresTo(s, it, c);
      }
    }
  }

  /** Every planned batch may be split at any width. */
  lemma PlannedChunkable(s: Spec, n: nat, r: nat, p: nat, m: nat, it: nat)
    requires Lowers(s, n, r, p, m) && s.layout.laneDivisor > 0 && it * s.simdLanes < s.layout.butterflies && Separate(s)
    ensures Chunkable(MakeBatch(s, it), s.simdLanes)
  {
    hide OneWriter, NoOverlap, WellFormedOutput;
    PlannedWritesOnce(s, n, r, p, m, it);
    PlannedSeparate(s, it);
    var b := MakeBatch(s, it);
    forall o | o in b.outputs ensures WellFormedOutput(o, b.valid, s.simdLanes) {
      var k: nat :| k < |b.outputs| && b.outputs[k] == o;
      StoredCount(s, it, k);
    }
  }

  lemma {:induction false} FirstBatchesAre(s: Spec, n: nat, it: nat)
    requires s.layout.laneDivisor > 0 && s.simdLanes > 0 && it < n <= Iterations(s)
    ensures it * s.simdLanes < s.layout.butterflies && FirstBatches(s, n)[it] == MakeBatch(s, it)
  {
    Started(s, it);
    if it < n - 1 {
      FirstBatchesAre(s, n - 1, it);
    }
  }

  /** Only the last batch of a stage can have an invalid lane. */
  lemma {:induction false} PlannedFull(s: Spec, n: nat)
    requires s.layout.laneDivisor > 0 && s.simdLanes > 0 && n < Iterations(s)
    ensures Full(FirstBatches(s, n), s.simdLanes) == FirstBatches(s, n) && Partial(FirstBatches(s, n), s.simdLanes) == []
  {
    hide Full, Partial, Iterations, MakeLoad, MakeOutput;
    if n == 0 {
      NoneFull(s.simdLanes);
    } else {
      PlannedFull(s, n - 1);
      Started(s, n);
      Started(s, n - 1);
      assert n * s.simdLanes == (n - 1) * s.simdLanes + s.simdLanes;
      FullFirst(FirstBatches(s, n - 1), MakeBatch(s, n - 1), s.simdLanes);
    }
  }

  /** The one partial batch of a stage, if there is one, comes last. */
  lemma PlannedTail(s: Spec)
    requires s.layout.laneDivisor > 0 && s.simdLanes > 0
    ensures TailIsLast(LowerStage(s), s.simdLanes) && |Partial(LowerStage(s), s.simdLanes)| <= 1
  {
    hide Full, Partial, Iterations, MakeBatch;
    var n := Iterations(s);
    if n == 0 {
      NoneFull(s.simdLanes);
    } else {
      PlannedFull(s, n - 1);
      Started(s, n - 1);
      FullFirst(FirstBatches(s, n - 1), MakeBatch(s, n - 1), s.simdLanes);
    }
  }

  /** Every load of a planned stage reads the stage's one source bank. */
  lemma PlannedLoadBank(s: Spec)
    requires s.layout.laneDivisor > 0 && s.simdLanes > 0
    ensures OneLoadBank(Full(LowerStage(s), s.simdLanes))
  {
    var full := Full(LowerStage(s), s.simdLanes);
    forall b, j | 0 <= b < |full| && 0 <= j < |full[b].loads| && j < |full[0].loads| ensures full[b].loads[j].bank == full[0].loads[j].bank {
      assert full[b] in full && full[0] in full;
      LoadBank(s, full[b], j);
      LoadBank(s, full[0], j);
    }
  }

  lemma LoadBank(s: Spec, b: Batch, j: nat)
    requires s.layout.laneDivisor > 0 && s.simdLanes > 0 && b in LowerStage(s) && j < |b.loads|
    ensures b.loads[j].bank == SourceBank(s)
  {
    var it: nat :| it < |LowerStage(s)| && LowerStage(s)[it] == b;
    FirstBatchesAre(s, Iterations(s), it);
  }
}
