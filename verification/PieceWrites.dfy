/** The pieces of a batch, seen from the cells they load and store. */
module PieceWrites {
  import opened Complexes
  import opened DivMod
  import opened Memories
  import opened Batches
  import opened Chunking
  import opened StageRuns
  import opened ChunkShapes

  /** What a piece stores when it loads from m. */
  function WritesOf(stage: Stage, m: Memory, p: Piece): seq<Write> {
    BatchWrites(stage, m, p.batch, p.width, |stage.order|)
  }

  lemma {:induction false} InKept(pieces: seq<Piece>, p: Piece)
    ensures p in Kept(pieces) <==> p in pieces && p.batch.valid > 0
  {
    if pieces != [] {
      InKept(pieces[..|pieces| - 1], p);
      assert pieces == pieces[..|pieces| - 1] + [pieces[|pieces| - 1]];
    }
  }

  lemma {:induction false} InSplit(batches: seq<Batch>, simdLanes: nat, computeLanes: nat, p: Piece)
    requires computeLanes > 0
    ensures p in SplitAll(batches, simdLanes, computeLanes) <==> exists b :: b in batches && p in ChunkBatch(b, simdLanes, computeLanes)
  {
    hide ChunkBatch;
    if batches != [] {
      var front, last := batches[..|batches| - 1], batches[|batches| - 1];
      InSplit(front, simdLanes, computeLanes, p);
      assert batches == front + [last];
    }
  }

  /** An emitted piece is a chunk of one of the batches, with a valid lane. */
  lemma InStagePieces(batches: seq<Batch>, simdLanes: nat, computeLanes: nat, p: Piece)
    requires computeLanes > 0
    ensures p in StagePieces(batches, simdLanes, computeLanes)
            <==> p.batch.valid > 0 && exists b :: b in batches && p in ChunkBatch(b, simdLanes, computeLanes)
  {
    hide ChunkBatch;
    InKept(SplitAll(batches, simdLanes, computeLanes), p);
    InSplit(batches, simdLanes, computeLanes, p);
  }

  /** A piece stores only what its batch stores. */
  lemma PieceWithin(stage: Stage, m: Memory, batch: Batch, simdLanes: nat, computeLanes: nat, p: Piece, w: Write)
    requires computeLanes > 0 && simdLanes > 0 && WellFormed(batch, simdLanes)
    requires p in ChunkBatch(batch, simdLanes, computeLanes) && w in WritesOf(stage, m, p)
    ensures w in BatchWrites(stage, m, batch, simdLanes, |stage.order|)
  {
    hide BatchWrites, SlicedWrites, WellFormed, WritesFor, ChunkBatch;
    ChunksOf(batch, simdLanes, computeLanes);
    var c: nat :| c < |ChunkBatch(batch, simdLanes, computeLanes)| && ChunkBatch(batch, simdLanes, computeLanes)[c] == p;
    ChunkPieceWrites(stage, m, batch, simdLanes, computeLanes, c);
    SlicedMembers(stage, m, batch, simdLanes, c * computeLanes, Min(computeLanes, simdLanes - c * computeLanes), |stage.order|, w);
    BatchMembers(stage, m, batch, simdLanes, |stage.order|, w);
  }

  /** Loading from a memory that looks the same to the batch, a piece stores the same. */
  lemma PieceLooksAlike(stage: Stage, m: Memory, m': Memory, batch: Batch, simdLanes: nat, computeLanes: nat, p: Piece)
    requires computeLanes > 0 && simdLanes > 0 && WellFormed(batch, simdLanes) && LooksAlike(batch, m, m')
    requires p in ChunkBatch(batch, simdLanes, computeLanes)
    ensures WritesOf(stage, m, p) == WritesOf(stage, m', p)
  {
    hide BatchWrites, SlicedWrites, WellFormed, ChunkBatch, LooksAlike;
    ChunksOf(batch, simdLanes, computeLanes);
    var c: nat :| c < |ChunkBatch(batch, simdLanes, computeLanes)| && ChunkBatch(batch, simdLanes, computeLanes)[c] == p;
    ChunkPieceWrites(stage, m, batch, simdLanes, computeLanes, c);
    ChunkPieceWrites(stage, m', batch, simdLanes, computeLanes, c);
    SameSlices(stage, batch, simdLanes, m, m', c * computeLanes, Min(computeLanes, simdLanes - c * computeLanes), |stage.order|);
  }

  lemma ChunkOfLane(simdLanes: nat, computeLanes: nat, lane: nat) returns (c: nat)
    requires computeLanes > 0 && lane < simdLanes
    ensures c < ChunkCount(simdLanes, computeLanes) && c * computeLanes <= lane < c * computeLanes + computeLanes
  {
    c := lane / computeLanes;
    Recompose(lane, computeLanes);
    var n := ChunkCount(simdLanes, computeLanes);
    Below(lane, computeLanes, n);
    assert computeLanes * n == n * computeLanes;
  }

  lemma ChunkValid(batch: Batch, simdLanes: nat, computeLanes: nat, c: nat)
    requires computeLanes > 0 && simdLanes > 0 && c < ChunkCount(simdLanes, computeLanes) && c * computeLanes < batch.valid <= simdLanes
    ensures c < |ChunkBatch(batch, simdLanes, computeLanes)| && ChunkBatch(batch, simdLanes, computeLanes)[c].batch.valid > 0
  {
    hide ChunkLoad, ChunkOutputs;
    ChunksOf(batch, simdLanes, computeLanes);
    if computeLanes < simdLanes {
      ChunkAt(batch, simdLanes, computeLanes, ChunkCount(simdLanes, computeLanes), c);
    }
  }

  /** Everything the batch stores is stored by one of its emitted pieces. */
  lemma WriteInPiece(stage: Stage, m: Memory, batch: Batch, simdLanes: nat, computeLanes: nat, w: Write) returns (p: Piece)
    requires computeLanes > 0 && simdLanes > 0 && WellFormed(batch, simdLanes)
    requires w in BatchWrites(stage, m, batch, simdLanes, |stage.order|)
    ensures p in ChunkBatch(batch, simdLanes, computeLanes) && p.batch.valid > 0 && w in WritesOf(stage, m, p)
  {
    hide BatchWrites, SlicedWrites, WritesFor, ChunkBatch, WellFormedOutput;
    BatchMembers(stage, m, batch, simdLanes, |stage.order|, w);
    var i: nat, lane: nat :| i < |stage.order| && AtLane(WritesFor(stage, m, batch, simdLanes, stage.order[i]), lane, w);
    FewWrites(stage, m, batch, simdLanes, stage.order[i]);
    var c := ChunkOfLane(simdLanes, computeLanes, lane);
    ChunkValid(batch, simdLanes, computeLanes, c);
    p := ChunkBatch(batch, simdLanes, computeLanes)[c];
    ChunkPieceWrites(stage, m, batch, simdLanes, computeLanes, c);
    SlicedMembers(stage, m, batch, simdLanes, c * computeLanes, Min(computeLanes, simdLanes - c * computeLanes), |stage.order|, w);
  }
}
