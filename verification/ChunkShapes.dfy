/** What the chunks of a batch are: which lanes each holds, when its loads and stores become
    vectors, and which chunks are worth emitting. */
module ChunkShapes {
  import opened DivMod
  import opened Complexes
  import opened Memories
  import opened Batches

  // -------- one chunk

  /** Lanes from, ..., from + width - 1 are all loaded, from consecutive cells. */
  ghost predicate LoadsRun(load: Load, from: nat, width: nat) {
    LoadCell(load, from).Some? && forall i: nat :: i < width ==> LoadsNext(load, from, LoadCell(load, from).value.offset, i)
  }

  ghost predicate LoadsNext(load: Load, from: nat, first: int, i: nat) {
    LoadCell(load, from + i) == Some(Cell(load.bank, first + i))
  }

  /** Lanes from, ..., from + width - 1 are all stored, to consecutive cells. */
  ghost predicate StoresRun(store: Store, simdLanes: nat, from: nat, width: nat) {
    from + width <= StoredLanes(store, simdLanes) && forall i: nat :: i < width ==> StoresNext(store, from, i)
  }

  ghost predicate StoresNext(store: Store, from: nat, i: nat) {
    StoreOffset(store, from + i) == StoreOffset(store, from) + i
  }

  /** The chunk loads, lane by lane, what the batch loads; by a vector exactly when it can. */
  ghost predicate LoadIsChunk(load: Load, from: nat, width: nat, chunk: Load) {
    && chunk.bank == load.bank
    && (forall i: nat :: i < width ==> LoadCell(chunk, i) == LoadCell(load, from + i))
    && (chunk.VectorLoad? <==> LoadsRun(load, from, width))
  }

  /** Lane i of the chunk is stored when lane from + i of the batch is, and in the same place. */
  ghost predicate StoresLane(store: Store, simdLanes: nat, from: nat, width: nat, chunk: Store, i: nat) {
    && (i < StoredLanes(chunk, width) <==> from + i < StoredLanes(store, simdLanes))
    && (i < StoredLanes(chunk, width) ==> StoreOffset(chunk, i) == StoreOffset(store, from + i))
  }

  /** The chunk stores the lanes the batch stores, where it stores them; by a vector exactly when it can. */
  ghost predicate StoreIsChunk(store: Store, simdLanes: nat, from: nat, width: nat, chunk: Store) {
    && chunk.bank == store.bank && StoredLanes(chunk, width) <= width
    && (forall i: nat :: i < width ==> StoresLane(store, simdLanes, from, width, chunk, i))
    && (chunk.VectorStore? <==> StoresRun(store, simdLanes, from, width))
  }

  ghost predicate TurnsLane(factors: seq<Complex>, from: nat, chunk: seq<Complex>, i: nat) {
    && (i < |chunk| <==> from + i < |factors|)
    && (i < |chunk| ==> chunk[i] == factors[from + i])
  }

  ghost predicate TwiddleIsChunk(twiddle: Option<seq<Complex>>, from: nat, width: nat, chunk: Option<seq<Complex>>) {
    && chunk.Some? == twiddle.Some?
    && (chunk.Some? ==> |chunk.value| <= width && forall i: nat :: i < width ==> TurnsLane(twiddle.value, from, chunk.value, i))
  }

  ghost predicate OutputIsChunk(o: OutputPlan, simdLanes: nat, from: nat, width: nat, chunk: OutputPlan) {
    && chunk.output == o.output && chunk.scale == o.scale && chunk.large == o.large
    && TwiddleIsChunk(o.twiddle, from, width, chunk.twiddle)
    && StoreIsChunk(o.store, simdLanes, from, width, chunk.store)
  }

  /** Lane i of the chunk is valid when lane from + i of the batch is. */
  ghost predicate ValidLane(batch: Batch, from: nat, chunk: Batch, i: nat) {
    i < chunk.valid <==> from + i < batch.valid
  }

  /** chunk is lanes from, ..., from + width - 1 of the batch. */
  ghost predicate IsChunk(batch: Batch, simdLanes: nat, from: nat, width: nat, chunk: Batch) {
    && chunk.id == batch.id && chunk.valid <= width
    && (forall i: nat :: i < width ==> ValidLane(batch, from, chunk, i))
    && |chunk.loads| == |batch.loads| && |chunk.outputs| == |batch.outputs|
    && (forall j: nat :: j < |batch.loads| ==> LoadIsChunk(batch.loads[j], from, width, chunk.loads[j]))
    && (forall k: nat :: k < |batch.outputs| ==> OutputIsChunk(batch.outputs[k], simdLanes, from, width, chunk.outputs[k]))
  }

  lemma ChunkLoadIs(load: Load, from: nat, width: nat)
    requires width > 0
    ensures LoadIsChunk(load, from, width, ChunkLoad(load, from, width))
  {
    var chunk := ChunkLoad(load, from, width);
    if load.PackedLoad? {
      var sliced := Slice(load.lanes, from, width);
      forall i: nat | i < width ensures LoadCell(chunk, i) == LoadCell(load, from + i) {
        assert i < |sliced| <==> from + i < |load.lanes|;
      }
      if LoadsRun(load, from, width) {
        RunIsConsecutive(load, from, width, sliced);
      }
      if chunk.VectorLoad? {
        ConsecutiveRuns(load, from, width, sliced);
      }
    } else {
      var first := load.base + from;
      assert forall i: nat :: i < width ==> LoadsNext(load, from, first, i);
    }
  }

  lemma RunIsConsecutive(load: Load, from: nat, width: nat, sliced: seq<Option<int>>)
    requires width > 0 && load.PackedLoad? && sliced == Slice(load.lanes, from, width) && LoadsRun(load, from, width)
    ensures |sliced| == width && ConsecutiveLanes(sliced)
  {
    var first := LoadCell(load, from).value.offset;
    assert LoadsNext(load, from, first, width - 1);
    forall i: nat | i < width ensures sliced[i] == Some(first + i) {
      assert LoadsNext(load, from, first, i);
    }
  }

  lemma ConsecutiveRuns(load: Load, from: nat, width: nat, sliced: seq<Option<int>>)
    requires width > 0 && load.PackedLoad? && sliced == Slice(load.lanes, from, width) && |sliced| == width && ConsecutiveLanes(sliced)
    ensures LoadsRun(load, from, width)
  {
    assert sliced[0] == load.lanes[from + 0];
    forall i: nat | i < width ensures LoadsNext(load, from, sliced[0].value, i) {
      assert sliced[i] == load.lanes[from + i];
    }
  }

  lemma ChunkStoreIs(store: Store, simdLanes: nat, from: nat, width: nat)
    requires width > 0 && from + width <= simdLanes
    ensures StoreIsChunk(store, simdLanes, from, width, ChunkStore(store, from, width))
  {
    if store.LaneStore? {
      var sliced := Slice(store.lanes, from, width);
      assert |sliced| == width <==> from + width <= |store.lanes|;
      if StoresRun(store, simdLanes, from, width) {
        forall i | 0 < i < |sliced| ensures sliced[i] == sliced[0] + i {
          assert StoresNext(store, from, i);
        }
      }
      if |sliced| == width && Consecutive(sliced) {
        forall i: nat | i < width ensures StoresNext(store, from, i) {
          assert sliced[i] == store.lanes[from + i] && sliced[0] == store.lanes[from + 0];
        }
      }
    }
  }

  lemma ChunkTwiddleIs(twiddle: Option<seq<Complex>>, from: nat, width: nat)
    ensures TwiddleIsChunk(twiddle, from, width, ChunkTwiddle(twiddle, from, width))
  {
  }

  lemma ChunkIs(batch: Batch, simdLanes: nat, from: nat, width: nat)
    requires width > 0 && from + width <= simdLanes
    ensures IsChunk(batch, simdLanes, from, width, Chunk(batch, from, width))
  {
    hide LoadIsChunk, StoreIsChunk, TwiddleIsChunk, ChunkLoad, ChunkStore, ChunkTwiddle;
    var chunk := Chunk(batch, from, width);
    forall j: nat | j < |batch.loads| ensures LoadIsChunk(batch.loads[j], from, width, chunk.loads[j]) {
      ChunkLoadIs(batch.loads[j], from, width);
    }
    forall k: nat | k < |batch.outputs| ensures OutputIsChunk(batch.outputs[k], simdLanes, from, width, chunk.outputs[k]) {
      ChunkStoreIs(batch.outputs[k].store, simdLanes, from, width);
      ChunkTwiddleIs(batch.outputs[k].twiddle, from, width);
    }
  }

  // -------- all chunks

  lemma {:induction false} ChunkAt(batch: Batch, simdLanes: nat, computeLanes: nat, n: nat, c: nat)
    requires computeLanes > 0 && c < n && (n - 1) * computeLanes < simdLanes
    ensures c * computeLanes < simdLanes
    ensures var from, width := c * computeLanes, Min(computeLanes, simdLanes - c * computeLanes);
            FirstChunks(batch, simdLanes, computeLanes, n)[c] == Piece(width, Chunk(batch, from, width))
  {
    if c < n - 1 {
      assert (n - 2) * computeLanes <= (n - 1) * computeLanes;
      ChunkAt(batch, simdLanes, computeLanes, n - 1, c);
    }
  }

  lemma CountOfWide(simdLanes: nat, computeLanes: nat)
    requires 0 < simdLanes <= computeLanes
    ensures ChunkCount(simdLanes, computeLanes) == 1
  {
    Decode(computeLanes, 1, simdLanes - 1);
  }

  lemma ChunksOf(batch: Batch, simdLanes: nat, computeLanes: nat)
    requires computeLanes > 0 && simdLanes > 0
    ensures |ChunkBatch(batch, simdLanes, computeLanes)| == ChunkCount(simdLanes, computeLanes)
  {
    if computeLanes >= simdLanes {
      CountOfWide(simdLanes, computeLanes);
    }
  }

  /** The batch itself when it is no wider than a chunk, and otherwise chunk after chunk until
      the lanes run out. */
  ghost predicate SplitInto(batch: Batch, simdLanes: nat, computeLanes: nat, pieces: seq<Piece>) {
    if computeLanes >= simdLanes then pieces == [Piece(simdLanes, batch)]
    else
      && |pieces| > 0 && (|pieces| - 1) * computeLanes < simdLanes <= |pieces| * computeLanes
      && forall c: nat :: c < |pieces| ==> PieceIs(batch, simdLanes, computeLanes, c, pieces[c])
  }

  ghost predicate PieceIs(batch: Batch, simdLanes: nat, computeLanes: nat, c: nat, p: Piece) {
    && c * computeLanes < simdLanes && p.width == Min(computeLanes, simdLanes - c * computeLanes)
    && IsChunk(batch, simdLanes, c * computeLanes, p.width, p.batch)
  }

  /** Of the chunks those are kept, in order, that have a valid lane of the batch. */
  ghost predicate KeepsValid(batch: Batch, computeLanes: nat, pieces: seq<Piece>, kept: seq<Piece>) {
    kept <= pieces && forall c: nat :: c < |pieces| ==> (c < |kept| <==> c * computeLanes < batch.valid)
  }

  lemma PieceIsAt(batch: Batch, simdLanes: nat, computeLanes: nat, c: nat)
    requires 0 < computeLanes < simdLanes && c < ChunkCount(simdLanes, computeLanes)
    ensures c < |ChunkBatch(batch, simdLanes, computeLanes)| && PieceIs(batch, simdLanes, computeLanes, c, ChunkBatch(batch, simdLanes, computeLanes)[c])
  {
    hide IsChunk, Chunk;
    ChunksOf(batch, simdLanes, computeLanes);
    ChunkAt(batch, simdLanes, computeLanes, ChunkCount(simdLanes, computeLanes), c);
    ChunkIs(batch, simdLanes, c * computeLanes, Min(computeLanes, simdLanes - c * computeLanes));
  }

  lemma BatchSplits(batch: Batch, simdLanes: nat, computeLanes: nat)
    requires computeLanes > 0
    ensures SplitInto(batch, simdLanes, computeLanes, ChunkBatch(batch, simdLanes, computeLanes))
  {
    hide PieceIs, FirstChunks;
    if computeLanes < simdLanes {
      var pieces := ChunkBatch(batch, simdLanes, computeLanes);
      ChunksOf(batch, simdLanes, computeLanes);
      forall c: nat | c < |pieces| ensures PieceIs(batch, simdLanes, computeLanes, c, pieces[c]) {
        PieceIsAt(batch, simdLanes, computeLanes, c);
      }
    }
  }

  lemma {:induction false} KeptIsPrefix(pieces: seq<Piece>, m: nat)
    requires m <= |pieces| && forall c: nat :: c < |pieces| ==> (pieces[c].batch.valid > 0 <==> c < m)
    ensures Kept(pieces) == pieces[..m]
  {
    if pieces != [] {
      var front := pieces[..|pieces| - 1];
      if m == |pieces| {
        KeptIsPrefix(front, m - 1);
        assert pieces[..m] == front[..m - 1] + [pieces[m - 1]];
      } else {
        KeptIsPrefix(front, m);
        assert pieces[..m] == front[..m];
      }
    }
  }

  lemma ValidPrefix(valid: nat, computeLanes: nat, c: nat)
    requires computeLanes > 0
    ensures c < ChunkCount(valid, computeLanes) <==> c * computeLanes < valid
  {
    var n := ChunkCount(valid, computeLanes);
    if c < n {
      Monotone(computeLanes, c, n - 1);
      assert computeLanes * c == c * computeLanes && computeLanes * (n - 1) == (n - 1) * computeLanes;
    } else {
      Monotone(computeLanes, n, c);
      assert computeLanes * c == c * computeLanes && computeLanes * n == n * computeLanes;
    }
  }

  lemma SomeLaneIsValid(batch: Batch, simdLanes: nat, computeLanes: nat, c: nat, p: Piece)
    requires computeLanes > 0 && PieceIs(batch, simdLanes, computeLanes, c, p)
    ensures p.batch.valid > 0 <==> c * computeLanes < batch.valid
  {
    hide LoadIsChunk, OutputIsChunk;
    assert 0 < p.width;
    assert ValidLane(batch, c * computeLanes, p.batch, 0);
  }

  /** A chunk is emitted exactly when its first lane is valid. */
  lemma ValidIsKept(batch: Batch, simdLanes: nat, computeLanes: nat)
    requires computeLanes > 0 && batch.valid <= simdLanes
    ensures KeepsValid(batch, computeLanes, ChunkBatch(batch, simdLanes, computeLanes), Kept(ChunkBatch(batch, simdLanes, computeLanes)))
  {
    hide PieceIs, ChunkBatch, ChunkCount;
    var pieces := ChunkBatch(batch, simdLanes, computeLanes);
    BatchSplits(batch, simdLanes, computeLanes);
    forall c: nat | c < |pieces| ensures pieces[c].batch.valid > 0 <==> c * computeLanes < batch.valid {
      if computeLanes < simdLanes {
        SomeLaneIsValid(batch, simdLanes, computeLanes, c, pieces[c]);
      } else {
        assert c == 0 && c * computeLanes == 0;
      }
    }
    var m := if ChunkCount(batch.valid, computeLanes) < |pieces| then ChunkCount(batch.valid, computeLanes) else |pieces|;
    forall c: nat ensures c < ChunkCount(batch.valid, computeLanes) <==> c * computeLanes < batch.valid {
      ValidPrefix(batch.valid, computeLanes, c);
    }
    KeptIsPrefix(pieces, m);
  }
}
