/** Splitting a batch into narrower chunks, widening what became consecutive, and dropping
    chunks without a valid lane, leaves the same memory as running the batch whole. */
module Chunking {
  import opened DivMod
  import opened Complexes
  import opened Memories
  import opened Batches
  import opened ChunkShapes

  // -------- what the planner promises of a batch

  /** Packed loads and twiddles have an entry for each lane, lane stores one for each valid
      lane, and only a full batch is stored as a vector. */
  ghost predicate WellFormed(batch: Batch, simdLanes: nat) {
    && batch.valid <= simdLanes
    && (forall o :: o in batch.outputs ==> WellFormedOutput(o, batch.valid, simdLanes))
  }

  ghost predicate WellFormedOutput(o: OutputPlan, valid: nat, simdLanes: nat) {
    && (o.twiddle.Some? ==> |o.twiddle.value| == simdLanes)
    && (match o.store
        case VectorStore(_, _) => valid == simdLanes
        case LaneStore(_, lanes) => |lanes| == valid)
  }

  ghost predicate Loads(batch: Batch, c: Cell) {
    exists load, lane: nat :: load in batch.loads && LoadCell(load, lane) == Some(c)
  }

  ghost predicate Stores(batch: Batch, simdLanes: nat, c: Cell) {
    exists o, lane: nat :: o in batch.outputs && lane < StoredLanes(o.store, simdLanes) && StoreCell(o.store, lane) == c
  }

  /** The batch stores to no cell it loads. */
  ghost predicate NoOverlap(batch: Batch, simdLanes: nat) {
    forall c :: Loads(batch, c) ==> !Stores(batch, simdLanes, c)
  }

  /** No two stored lanes of the batch go to one cell. */
  ghost predicate OneWriter(batch: Batch, simdLanes: nat) {
    forall o, o', lane: nat, lane': nat ::
      (&& o in batch.outputs && o' in batch.outputs
       && lane < StoredLanes(o.store, simdLanes) && lane' < StoredLanes(o'.store, simdLanes)
       && StoreCell(o.store, lane) == StoreCell(o'.store, lane')) ==> o == o' && lane == lane'
  }

  ghost predicate Chunkable(batch: Batch, simdLanes: nat) {
    WellFormed(batch, simdLanes) && NoOverlap(batch, simdLanes) && OneWriter(batch, simdLanes)
  }

  // -------- one chunk, lane by lane

  lemma ChunkLoadCell(load: Load, from: nat, width: nat, lane: nat)
    requires lane < width
    ensures LoadCell(ChunkLoad(load, from, width), lane) == LoadCell(load, from + lane)
  {
    if load.PackedLoad? {
      var sliced := Slice(load.lanes, from, width);
      assert lane < |sliced| <==> from + lane < |load.lanes|;
    }
  }

  lemma ChunkOperands(m: Memory, batch: Batch, from: nat, width: nat, lane: nat)
    requires lane < width
    ensures Operands(m, Chunk(batch, from, width).loads, lane) == Operands(m, batch.loads, from + lane)
  {
    forall j | 0 <= j < |batch.loads|
      ensures Operands(m, Chunk(batch, from, width).loads, lane)[j] == Operands(m, batch.loads, from + lane)[j]
    {
      ChunkLoadCell(batch.loads[j], from, width, lane);
    }
  }

  lemma ChunkStoreLanes(store: Store, from: nat, width: nat)
    requires width > 0
    ensures StoredLanes(ChunkStore(store, from, width), width)
            == match store { case VectorStore(_, _) => width case LaneStore(_, lanes) => |Slice(lanes, from, width)| }
    ensures ChunkStore(store, from, width).bank == store.bank
    ensures forall lane: nat :: lane < StoredLanes(ChunkStore(store, from, width), width)
              ==> StoreOffset(ChunkStore(store, from, width), lane) == StoreOffset(store, from + lane)
  {
  }

  lemma ChunkResult(stage: Stage, x: seq<Complex>, o: OutputPlan, from: nat, width: nat, lane: nat)
    requires width > 0 && lane < StoredLanes(ChunkStore(o.store, from, width), width)
    requires o.twiddle.Some? ==> from + width <= |o.twiddle.value|
    ensures lane < width && Result(stage, x, ChunkOutput(o, from, width), lane) == Result(stage, x, o, from + lane)
  {
    ChunkStoreLanes(o.store, from, width);
    if o.twiddle.Some? {
      TwiddledMultiplies(o.twiddle.value, from + lane, stage.butterfly(x, o.output));
      TwiddledMultiplies(Slice(o.twiddle.value, from, width), lane, stage.butterfly(x, o.output));
    }
  }

  /** A chunk's writes for one output are a slice of the batch's. */
  lemma ChunkOutputWrites(stage: Stage, m: Memory, batch: Batch, o: OutputPlan, simdLanes: nat, from: nat, width: nat)
    requires width > 0 && from + width <= simdLanes && WellFormedOutput(o, batch.valid, simdLanes) && batch.valid <= simdLanes
    ensures OutputWrites(stage, m, Chunk(batch, from, width).loads, ChunkOutput(o, from, width), width)
            == Slice(OutputWrites(stage, m, batch.loads, o, simdLanes), from, width)
  {
    var a := OutputWrites(stage, m, Chunk(batch, from, width).loads, ChunkOutput(o, from, width), width);
    var b := Slice(OutputWrites(stage, m, batch.loads, o, simdLanes), from, width);
    ChunkStoreLanes(o.store, from, width);
    assert |a| == |b|;
    forall lane | 0 <= lane < |a| ensures a[lane] == b[lane] {
      ChunkResult(stage, Operands(m, batch.loads, from + lane), o, from, width, lane);
      ChunkOperands(m, batch, from, width, lane);
    }
  }

  lemma {:induction false} ChunkLookup(outputs: seq<OutputPlan>, from: nat, width: nat, k: nat)
    requires width > 0
    ensures Lookup(ChunkOutputs(outputs, from, width), k)
            == match Lookup(outputs, k) { case None => None case Some(o) => Some(ChunkOutput(o, from, width)) }
  {
    if outputs != [] {
      ChunkLookup(outputs[..|outputs| - 1], from, width, k);
      assert ChunkOutputs(outputs[..|outputs| - 1], from, width) == ChunkOutputs(outputs, from, width)[..|outputs| - 1];
    }
  }

  lemma ChunkWritesFor(stage: Stage, m: Memory, batch: Batch, simdLanes: nat, from: nat, width: nat, k: nat)
    requires width > 0 && from + width <= simdLanes && WellFormed(batch, simdLanes)
    ensures WritesFor(stage, m, Chunk(batch, from, width), width, k) == Slice(WritesFor(stage, m, batch, simdLanes, k), from, width)
  {
    hide OutputWrites, ChunkOutput, Lookup;
    ChunkLookup(batch.outputs, from, width, k);
    var o := Lookup(batch.outputs, k);
    if o.Some? {
      ChunkOutputWrites(stage, m, batch, o.value, simdLanes, from, width);
    }
  }

  /** Lanes from, ..., from + width - 1 of what the first n completed outputs write. */
  function SlicedWrites(stage: Stage, m: Memory, batch: Batch, simdLanes: nat, from: nat, width: nat, n: nat): seq<Write>
    requires n <= |stage.order|
  {
    if n == 0 then []
    else SlicedWrites(stage, m, batch, simdLanes, from, width, n - 1)
         + Slice(WritesFor(stage, m, batch, simdLanes, stage.order[n - 1]), from, width)
  }

  lemma {:induction false} ChunkWrites(stage: Stage, m: Memory, batch: Batch, simdLanes: nat, from: nat, width: nat, n: nat)
    requires n <= |stage.order| && width > 0 && from + width <= simdLanes && WellFormed(batch, simdLanes)
    ensures BatchWrites(stage, m, Chunk(batch, from, width), width, n) == SlicedWrites(stage, m, batch, simdLanes, from, width, n)
  {
    hide WritesFor, Chunk, WellFormed;
    if n > 0 {
      ChunkWrites(stage, m, batch, simdLanes, from, width, n - 1);
      ChunkWritesFor(stage, m, batch, simdLanes, from, width, stage.order[n - 1]);
    }
  }

  // -------- which writes the batch does

  /** w is what the batch stores from some lane below limit. */
  ghost predicate WrittenBelow(stage: Stage, m: Memory, batch: Batch, simdLanes: nat, limit: int, w: Write) {
    exists i: nat, lane: nat :: i < |stage.order| && lane < limit && AtLane(WritesFor(stage, m, batch, simdLanes, stage.order[i]), lane, w)
  }

  predicate AtLane(ws: seq<Write>, lane: nat, w: Write) {
    lane < |ws| && ws[lane] == w
  }

  lemma {:induction false} BatchMembers(stage: Stage, m: Memory, batch: Batch, simdLanes: nat, n: nat, w: Write)
    requires n <= |stage.order|
    ensures w in BatchWrites(stage, m, batch, simdLanes, n)
            <==> exists i: nat, lane: nat :: i < n && AtLane(WritesFor(stage, m, batch, simdLanes, stage.order[i]), lane, w)
  {
    hide WritesFor;
    if n > 0 {
      BatchMembers(stage, m, batch, simdLanes, n - 1, w);
      var ws := WritesFor(stage, m, batch, simdLanes, stage.order[n - 1]);
      assert w in ws ==> exists lane: nat :: AtLane(ws, lane, w) by {
        if w in ws {
          var lane: nat :| lane < |ws| && ws[lane] == w;
          assert AtLane(ws, lane, w);
        }
      }
    }
  }

  lemma {:induction false} SlicedMembers(stage: Stage, m: Memory, batch: Batch, simdLanes: nat, from: nat, width: nat, n: nat, w: Write)
    requires n <= |stage.order|
    ensures w in SlicedWrites(stage, m, batch, simdLanes, from, width, n)
            <==> exists i: nat, lane: nat :: i < n && from <= lane < from + width && AtLane(WritesFor(stage, m, batch, simdLanes, stage.order[i]), lane, w)
  {
    hide WritesFor, SlicedWrites;
    SlicedHits(stage, m, batch, simdLanes, from, width, n, w);
    if i: nat :| i < n && Hits(WritesFor(stage, m, batch, simdLanes, stage.order[i]), from, width, w) {
      var lane: nat :| from <= lane < from + width && AtLane(WritesFor(stage, m, batch, simdLanes, stage.order[i]), lane, w);
    }
    if i: nat, lane: nat :| i < n && from <= lane < from + width && AtLane(WritesFor(stage, m, batch, simdLanes, stage.order[i]), lane, w) {
      assert Hits(WritesFor(stage, m, batch, simdLanes, stage.order[i]), from, width, w);
    }
  }

  /** w is written by one of the lanes of the slice. */
  ghost predicate Hits(ws: seq<Write>, from: nat, width: nat, w: Write) {
    exists lane: nat :: from <= lane < from + width && AtLane(ws, lane, w)
  }

  lemma {:induction false} SlicedHits(stage: Stage, m: Memory, batch: Batch, simdLanes: nat, from: nat, width: nat, n: nat, w: Write)
    requires n <= |stage.order|
    ensures w in SlicedWrites(stage, m, batch, simdLanes, from, width, n)
            <==> exists i: nat :: i < n && Hits(WritesFor(stage, m, batch, simdLanes, stage.order[i]), from, width, w)
  {
    hide WritesFor, Hits, Slice;
    if n > 0 {
      SlicedHits(stage, m, batch, simdLanes, from, width, n - 1, w);
      SliceMembers(WritesFor(stage, m, batch, simdLanes, stage.order[n - 1]), from, width, w);
    }
  }

  lemma SliceMembers(ws: seq<Write>, from: nat, width: nat, w: Write)
    ensures w in Slice(ws, from, width) <==> Hits(ws, from, width, w)
  {
    var s := Slice(ws, from, width);
    if w in s {
      var i :| 0 <= i < |s| && s[i] == w;
      assert AtLane(ws, from + i, w);
    }
    if lane: nat :| from <= lane < from + width && AtLane(ws, lane, w) {
      assert s[lane - from] == w;
    }
  }

  /** Every write of the batch goes to a cell it stores, and comes from one output and lane. */
  lemma WriteIsStore(stage: Stage, m: Memory, batch: Batch, simdLanes: nat, k: nat, lane: nat, w: Write)
    requires AtLane(WritesFor(stage, m, batch, simdLanes, k), lane, w)
    ensures Lookup(batch.outputs, k).Some?
    ensures var o := Lookup(batch.outputs, k).value;
            o in batch.outputs && lane < StoredLanes(o.store, simdLanes) && StoreCell(o.store, lane) == w.cell
    ensures Stores(batch, simdLanes, w.cell)
  {
  }

  lemma BatchAgrees(stage: Stage, m: Memory, batch: Batch, simdLanes: nat)
    requires OneWriter(batch, simdLanes)
    ensures Agrees(BatchWrites(stage, m, batch, simdLanes, |stage.order|))
  {
    hide WritesFor, BatchWrites;
    var n := |stage.order|;
    var ws := BatchWrites(stage, m, batch, simdLanes, n);
    forall w, w' | w in ws && w' in ws && w.cell == w'.cell ensures w == w' {
      BatchMembers(stage, m, batch, simdLanes, n, w);
      BatchMembers(stage, m, batch, simdLanes, n, w');
      var i: nat, lane: nat :| i < n && AtLane(WritesFor(stage, m, batch, simdLanes, stage.order[i]), lane, w);
      var i': nat, lane': nat :| i' < n && AtLane(WritesFor(stage, m, batch, simdLanes, stage.order[i']), lane', w');
      WriteIsStore(stage, m, batch, simdLanes, stage.order[i], lane, w);
      WriteIsStore(stage, m, batch, simdLanes, stage.order[i'], lane', w');
    }
  }

  // -------- the batch reads the same however far its own chunks have got

  /** Two memories agree on everything the batch loads. */
  ghost predicate LooksAlike(batch: Batch, m: Memory, m': Memory) {
    forall c :: Loads(batch, c) ==> Read(m, c) == Read(m', c)
  }

  lemma SameOperands(batch: Batch, m: Memory, m': Memory, lane: nat)
    requires LooksAlike(batch, m, m')
    ensures Operands(m, batch.loads, lane) == Operands(m', batch.loads, lane)
  {
    forall j | 0 <= j < |batch.loads| ensures LaneValue(m, batch.loads[j], lane) == LaneValue(m', batch.loads[j], lane) {
      var c := LoadCell(batch.loads[j], lane);
      assert c.Some? ==> Loads(batch, c.value);
    }
  }

  lemma SameWritesFor(stage: Stage, batch: Batch, simdLanes: nat, m: Memory, m': Memory, k: nat)
    requires LooksAlike(batch, m, m')
    ensures WritesFor(stage, m, batch, simdLanes, k) == WritesFor(stage, m', batch, simdLanes, k)
  {
    hide Operands, LooksAlike, Result;
    forall lane: nat ensures Operands(m, batch.loads, lane) == Operands(m', batch.loads, lane) {
      SameOperands(batch, m, m', lane);
    }
  }

  lemma {:induction false} SameSlices(stage: Stage, batch: Batch, simdLanes: nat, m: Memory, m': Memory, from: nat, width: nat, n: nat)
    requires LooksAlike(batch, m, m') && n <= |stage.order|
    ensures SlicedWrites(stage, m, batch, simdLanes, from, width, n) == SlicedWrites(stage, m', batch, simdLanes, from, width, n)
  {
    hide WritesFor, LooksAlike;
    if n > 0 {
      SameSlices(stage, batch, simdLanes, m, m', from, width, n - 1);
      SameWritesFor(stage, batch, simdLanes, m, m', stage.order[n - 1]);
    }
  }

  // -------- all the chunks

  /** What the first n chunks write, all from the same memory. */
  function TiledWrites(stage: Stage, m: Memory, batch: Batch, simdLanes: nat, computeLanes: nat, n: nat): seq<Write>
  {
    if n == 0 then []
    else TiledWrites(stage, m, batch, simdLanes, computeLanes, n - 1)
         + SlicedWrites(stage, m, batch, simdLanes, (n - 1) * computeLanes, computeLanes, |stage.order|)
  }

  lemma {:induction false} TiledMembers(stage: Stage, m: Memory, batch: Batch, simdLanes: nat, computeLanes: nat, n: nat, w: Write)
    ensures w in TiledWrites(stage, m, batch, simdLanes, computeLanes, n)
            <==> WrittenBelow(stage, m, batch, simdLanes, n * computeLanes, w)
  {
    hide WritesFor, SlicedWrites;
    if n > 0 {
      TiledMembers(stage, m, batch, simdLanes, computeLanes, n - 1, w);
      SlicedMembers(stage, m, batch, simdLanes, (n - 1) * computeLanes, computeLanes, |stage.order|, w);
      assert n * computeLanes == (n - 1) * computeLanes + computeLanes;
    }
  }

  lemma TiledKeepsLoads(stage: Stage, m: Memory, batch: Batch, simdLanes: nat, computeLanes: nat, n: nat)
    requires NoOverlap(batch, simdLanes)
    ensures LooksAlike(batch, m, Apply(m, TiledWrites(stage, m, batch, simdLanes, computeLanes, n)))
  {
    hide WritesFor, TiledWrites;
    var ws := TiledWrites(stage, m, batch, simdLanes, computeLanes, n);
    forall c | Loads(batch, c) ensures Read(m, c) == Read(Apply(m, ws), c) {
      if Writes(ws, c) {
        var w :| w in ws && w.cell == c;
        TiledMembers(stage, m, batch, simdLanes, computeLanes, n, w);
        var i: nat, lane: nat :| i < |stage.order| && AtLane(WritesFor(stage, m, batch, simdLanes, stage.order[i]), lane, w);
        WriteIsStore(stage, m, batch, simdLanes, stage.order[i], lane, w);
        assert false;
      }
      ReadUnwritten(m, ws, c);
    }
  }

  /** A slice that reaches past the last lane is the slice up to it. */
  lemma {:induction false} SlicesEnd(stage: Stage, m: Memory, batch: Batch, simdLanes: nat, from: nat, width: nat, width': nat, n: nat)
    requires n <= |stage.order| && WellFormed(batch, simdLanes)
    requires width == width' || (from + width >= simdLanes && from + width' >= simdLanes)
    ensures SlicedWrites(stage, m, batch, simdLanes, from, width, n) == SlicedWrites(stage, m, batch, simdLanes, from, width', n)
  {
    hide WritesFor, WellFormed;
    if n > 0 {
      SlicesEnd(stage, m, batch, simdLanes, from, width, width', n - 1);
      var ws := WritesFor(stage, m, batch, simdLanes, stage.order[n - 1]);
      WritesFit(stage, m, batch, simdLanes, stage.order[n - 1]);
      assert Slice(ws, from, width) == Slice(ws, from, width');
    }
  }

  lemma WritesFit(stage: Stage, m: Memory, batch: Batch, simdLanes: nat, k: nat)
    requires WellFormed(batch, simdLanes)
    ensures |WritesFor(stage, m, batch, simdLanes, k)| <= simdLanes
  {
  }

  lemma {:induction false} ChunksRun(stage: Stage, m: Memory, batch: Batch, simdLanes: nat, computeLanes: nat, n: nat)
    requires Chunkable(batch, simdLanes) && computeLanes > 0 && (n > 0 ==> (n - 1) * computeLanes < simdLanes)
    ensures RunPieces(stage, m, FirstChunks(batch, simdLanes, computeLanes, n))
            == Apply(m, TiledWrites(stage, m, batch, simdLanes, computeLanes, n))
  {
    hide BatchWrites, SlicedWrites, Chunk, Chunkable, RunPiece, RunPieces, Apply;
    if n == 0 {
      NothingRuns(stage, m);
    } else {
      var from := (n - 1) * computeLanes;
      var width := Min(computeLanes, simdLanes - from);
      assert n > 1 ==> (n - 2) * computeLanes <= from;
      ChunksRun(stage, m, batch, simdLanes, computeLanes, n - 1);
      var mid := Apply(m, TiledWrites(stage, m, batch, simdLanes, computeLanes, n - 1));
      LastPiece(stage, m, FirstChunks(batch, simdLanes, computeLanes, n - 1), Piece(width, Chunk(batch, from, width)));
      ChunkRuns(stage, m, mid, batch, simdLanes, computeLanes, from, width, n - 1);
    }
  }

  lemma NothingRuns(stage: Stage, m: Memory)
    ensures RunPieces(stage, m, []) == m == Apply(m, [])
  {
  }

  lemma LastPiece(stage: Stage, m: Memory, pieces: seq<Piece>, p: Piece)
    ensures RunPieces(stage, m, pieces + [p]) == RunPiece(stage, RunPieces(stage, m, pieces), p)
  {
    assert (pieces + [p])[..|pieces|] == pieces;
  }

  lemma ChunkRuns(stage: Stage, m: Memory, mid: Memory, batch: Batch, simdLanes: nat, computeLanes: nat, from: nat, width: nat, n: nat)
    requires Chunkable(batch, simdLanes) && computeLanes > 0 && from < simdLanes && width == Min(computeLanes, simdLanes - from)
    requires mid == Apply(m, TiledWrites(stage, m, batch, simdLanes, computeLanes, n))
    ensures RunPiece(stage, mid, Piece(width, Chunk(batch, from, width)))
            == Apply(m, TiledWrites(stage, m, batch, simdLanes, computeLanes, n) + SlicedWrites(stage, m, batch, simdLanes, from, computeLanes, |stage.order|))
  {
    hide BatchWrites, SlicedWrites, Chunk, TiledWrites, WellFormed, NoOverlap, OneWriter, LooksAlike, Apply;
    var before := TiledWrites(stage, m, batch, simdLanes, computeLanes, n);
    TiledKeepsLoads(stage, m, batch, simdLanes, computeLanes, n);
    ChunkWrites(stage, mid, batch, simdLanes, from, width, |stage.order|);
    SameSlices(stage, batch, simdLanes, m, mid, from, width, |stage.order|);
    SlicesEnd(stage, m, batch, simdLanes, from, width, computeLanes, |stage.order|);
    ApplyAppend(m, before, SlicedWrites(stage, m, batch, simdLanes, from, computeLanes, |stage.order|));
  }

  /** Enough chunks to cover every lane write what the batch writes. */
  lemma TiledIsBatch(stage: Stage, m: Memory, batch: Batch, simdLanes: nat, computeLanes: nat, n: nat)
    requires Chunkable(batch, simdLanes) && n * computeLanes >= simdLanes
    ensures Apply(m, TiledWrites(stage, m, batch, simdLanes, computeLanes, n)) == RunBatch(stage, m, batch, simdLanes)
  {
    hide WritesFor, TiledWrites, BatchWrites, Apply;
    var all := BatchWrites(stage, m, batch, simdLanes, |stage.order|);
    var tiled := TiledWrites(stage, m, batch, simdLanes, computeLanes, n);
    forall w ensures w in all <==> w in tiled {
      BatchMembers(stage, m, batch, simdLanes, |stage.order|, w);
      TiledMembers(stage, m, batch, simdLanes, computeLanes, n, w);
      forall i: nat, lane: nat | i < |stage.order| && AtLane(WritesFor(stage, m, batch, simdLanes, stage.order[i]), lane, w)
        ensures lane < n * computeLanes
      {
        WritesFit(stage, m, batch, simdLanes, stage.order[i]);
      }
    }
    BatchAgrees(stage, m, batch, simdLanes);
    ApplySame(m, all, tiled);
  }

  // -------- dropping what has nothing valid

  lemma NothingWritten(stage: Stage, m: Memory, batch: Batch, simdLanes: nat, from: nat, width: nat)
    requires WellFormed(batch, simdLanes) && width > 0 && from + width <= simdLanes && batch.valid <= from
    ensures RunPiece(stage, m, Piece(width, Chunk(batch, from, width))) == m
  {
    hide Chunk, BatchWrites;
    ChunkWrites(stage, m, batch, simdLanes, from, width, |stage.order|);
    NothingSliced(stage, m, batch, simdLanes, from, width, |stage.order|);
  }

  lemma {:induction false} NothingSliced(stage: Stage, m: Memory, batch: Batch, simdLanes: nat, from: nat, width: nat, n: nat)
    requires WellFormed(batch, simdLanes) && width > 0 && from + width <= simdLanes && batch.valid <= from && n <= |stage.order|
    ensures SlicedWrites(stage, m, batch, simdLanes, from, width, n) == []
  {
    hide WritesFor, WellFormed;
    if n > 0 {
      NothingSliced(stage, m, batch, simdLanes, from, width, n - 1);
      FewWrites(stage, m, batch, simdLanes, stage.order[n - 1]);
    }
  }

  /** A batch with an invalid lane stores its valid lanes only. */
  lemma FewWrites(stage: Stage, m: Memory, batch: Batch, simdLanes: nat, k: nat)
    requires WellFormed(batch, simdLanes)
    ensures |WritesFor(stage, m, batch, simdLanes, k)| <= batch.valid
  {
    var o := Lookup(batch.outputs, k);
    assert o.Some? ==> WellFormedOutput(o.value, batch.valid, simdLanes);
  }

  lemma {:induction false} NothingValid(stage: Stage, m: Memory, batch: Batch, simdLanes: nat, n: nat)
    requires WellFormed(batch, simdLanes) && batch.valid == 0 && n <= |stage.order|
    ensures BatchWrites(stage, m, batch, simdLanes, n) == []
  {
    hide WritesFor, WellFormed;
    if n > 0 {
      NothingValid(stage, m, batch, simdLanes, n - 1);
      FewWrites(stage, m, batch, simdLanes, stage.order[n - 1]);
    }
  }

  lemma {:induction false} KeptRun(stage: Stage, m: Memory, batch: Batch, simdLanes: nat, computeLanes: nat, n: nat)
    requires WellFormed(batch, simdLanes) && computeLanes > 0 && (n > 0 ==> (n - 1) * computeLanes < simdLanes)
    ensures RunPieces(stage, m, Kept(FirstChunks(batch, simdLanes, computeLanes, n)))
            == RunPieces(stage, m, FirstChunks(batch, simdLanes, computeLanes, n))
  {
    hide RunPiece, WellFormed;
    if n > 0 {
      var from := (n - 1) * computeLanes;
      var width := Min(computeLanes, simdLanes - from);
      assert n > 1 ==> (n - 2) * computeLanes <= from;
      KeptRun(stage, m, batch, simdLanes, computeLanes, n - 1);
      var pieces := FirstChunks(batch, simdLanes, computeLanes, n);
      var before := FirstChunks(batch, simdLanes, computeLanes, n - 1);
      assert pieces[..n - 1] == before;
      RunPiecesAppend(stage, m, Kept(before), if pieces[n - 1].batch.valid > 0 then [pieces[n - 1]] else []);
      if pieces[n - 1].batch.valid > 0 {
        RunOne(stage, RunPieces(stage, m, Kept(before)), pieces[n - 1]);
      } else {
        NothingWritten(stage, RunPieces(stage, m, before), batch, simdLanes, from, width);
      }
    }
  }

  lemma RunOne(stage: Stage, m: Memory, p: Piece)
    ensures RunPieces(stage, m, [p]) == RunPiece(stage, m, p)
  {
    assert [p][..0] == [];
  }

  // -------- the whole split

  /** For any lane counts the batch is split into its chunks, those with a valid lane are emitted,
      and running them leaves exactly the memory the batch leaves. */
  lemma ChunkingPreserves(stage: Stage, m: Memory, batch: Batch, simdLanes: nat, computeLanes: nat)
    requires Chunkable(batch, simdLanes) && computeLanes > 0
    ensures SplitInto(batch, simdLanes, computeLanes, ChunkBatch(batch, simdLanes, computeLanes))
    ensures KeepsValid(batch, computeLanes, ChunkBatch(batch, simdLanes, computeLanes), Kept(ChunkBatch(batch, simdLanes, computeLanes)))
    ensures RunPieces(stage, m, Kept(ChunkBatch(batch, simdLanes, computeLanes))) == RunBatch(stage, m, batch, simdLanes)
  {
    hide SplitInto, KeepsValid, ChunkBatch, RunPieces, RunBatch;
    SplitIsExact(batch, simdLanes, computeLanes);
    KeptIsSame(stage, m, batch, simdLanes, computeLanes);
  }

  lemma SplitIsExact(batch: Batch, simdLanes: nat, computeLanes: nat)
    requires WellFormed(batch, simdLanes) && computeLanes > 0
    ensures SplitInto(batch, simdLanes, computeLanes, ChunkBatch(batch, simdLanes, computeLanes))
    ensures KeepsValid(batch, computeLanes, ChunkBatch(batch, simdLanes, computeLanes), Kept(ChunkBatch(batch, simdLanes, computeLanes)))
  {
    hide SplitInto, KeepsValid, ChunkBatch;
    BatchSplits(batch, simdLanes, computeLanes);
    ValidIsKept(batch, simdLanes, computeLanes);
  }

  lemma KeptIsSame(stage: Stage, m: Memory, batch: Batch, simdLanes: nat, computeLanes: nat)
    requires Chunkable(batch, simdLanes) && computeLanes > 0
    ensures RunPieces(stage, m, Kept(ChunkBatch(batch, simdLanes, computeLanes))) == RunBatch(stage, m, batch, simdLanes)
  {
    hide BatchWrites, TiledWrites, FirstChunks, NoOverlap, OneWriter, WellFormed;
    if computeLanes >= simdLanes {
      var p := Piece(simdLanes, batch);
      assert [p][..0] == [];
      if batch.valid > 0 {
        RunOne(stage, m, p);
      } else {
        NothingValid(stage, m, batch, simdLanes, |stage.order|);
      }
    } else {
      var n := ChunkCount(simdLanes, computeLanes);
      KeptRun(stage, m, batch, simdLanes, computeLanes, n);
      ChunksRun(stage, m, batch, simdLanes, computeLanes, n);
      TiledIsBatch(stage, m, batch, simdLanes, computeLanes, n);
    }
  }
}
