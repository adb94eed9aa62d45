/** Running a stage: as a loop and a tail when it can be rolled, as a list of pieces otherwise. */
module StageRuns {
  import opened Complexes
  import opened DivMod
  import opened Memories
  import opened Batches
  import opened Periods
  import opened LoopStages
  import opened ChunkShapes
  import opened Chunking
  import opened Reroll

  // -------- the pieces of a list of batches

  function SplitAll(batches: seq<Batch>, simdLanes: nat, computeLanes: nat): seq<Piece>
    requires computeLanes > 0
  {
    if batches == [] then []
    else SplitAll(batches[..|batches| - 1], simdLanes, computeLanes) + ChunkBatch(batches[|batches| - 1], simdLanes, computeLanes)
  }

  /** What is emitted for a list of batches: their chunks, less those without a valid lane. */
  function StagePieces(batches: seq<Batch>, simdLanes: nat, computeLanes: nat): seq<Piece>
    requires computeLanes > 0
  {
    Kept(SplitAll(batches, simdLanes, computeLanes))
  }

  /** The batches one after the other, whole. */
  function RunBatches(stage: Stage, m: Memory, batches: seq<Batch>, simdLanes: nat): Memory {
    if batches == [] then m
    else RunBatch(stage, RunBatches(stage, m, batches[..|batches| - 1], simdLanes), batches[|batches| - 1], simdLanes)
  }

  lemma {:induction false} KeptAppend(a: seq<Piece>, b: seq<Piece>)
    ensures Kept(a + b) == Kept(a) + Kept(b)
  {
    hide Kept;
    if b == [] {
      assert a + b == a;
      NothingKept();
    } else {
      var front, last := b[..|b| - 1], b[|b| - 1];
      KeptAppend(a, front);
      KeptGrows(a + front, last);
      KeptGrows(front, last);
      assert a + b == (a + front) + [last] && b == front + [last];
    }
  }

  lemma NothingKept()
    ensures Kept([]) == []
  {
  }

  lemma KeptGrows(pieces: seq<Piece>, p: Piece)
    ensures Kept(pieces + [p]) == Kept(pieces) + if p.batch.valid > 0 then [p] else []
  {
    assert (pieces + [p])[..|pieces|] == pieces;
  }

  lemma {:induction false} AllKept(pieces: seq<Piece>)
    requires forall p :: p in pieces ==> p.batch.valid > 0
    ensures Kept(pieces) == pieces
  {
    if pieces != [] {
      AllKept(pieces[..|pieces| - 1]);
      assert pieces[|pieces| - 1] in pieces;
    }
  }

  lemma PiecesGrow(batches: seq<Batch>, b: Batch, simdLanes: nat, computeLanes: nat)
    requires computeLanes > 0
    ensures StagePieces(batches + [b], simdLanes, computeLanes)
            == StagePieces(batches, simdLanes, computeLanes) + Kept(ChunkBatch(b, simdLanes, computeLanes))
  {
    assert (batches + [b])[..|batches|] == batches;
    KeptAppend(SplitAll(batches, simdLanes, computeLanes), ChunkBatch(b, simdLanes, computeLanes));
  }

  lemma {:induction false} PiecesAppend(a: seq<Batch>, b: seq<Batch>, simdLanes: nat, computeLanes: nat)
    requires computeLanes > 0
    ensures StagePieces(a + b, simdLanes, computeLanes)
            == StagePieces(a, simdLanes, computeLanes) + StagePieces(b, simdLanes, computeLanes)
  {
    hide StagePieces, ChunkBatch, Kept;
    if b == [] {
      assert a + b == a;
      NoPieces(simdLanes, computeLanes);
    } else {
      var front, last := b[..|b| - 1], b[|b| - 1];
      PiecesAppend(a, front, simdLanes, computeLanes);
      assert a + b == (a + front) + [last] && b == front + [last];
      PiecesGrow(a + front, last, simdLanes, computeLanes);
      PiecesGrow(front, last, simdLanes, computeLanes);
    }
  }

  lemma NoPieces(simdLanes: nat, computeLanes: nat)
    requires computeLanes > 0
    ensures StagePieces([], simdLanes, computeLanes) == []
  {
  }

  /** p is a chunk of a batch of the stage that has a valid lane. */
  ghost predicate IsStagePiece(batches: seq<Batch>, simdLanes: nat, computeLanes: nat, p: Piece)
    requires computeLanes > 0
  {
    exists b, c: nat :: b in batches && IsKeptChunk(b, simdLanes, computeLanes, c, p)
  }

  ghost predicate IsKeptChunk(b: Batch, simdLanes: nat, computeLanes: nat, c: nat, p: Piece)
    requires computeLanes > 0
  {
    var pieces := ChunkBatch(b, simdLanes, computeLanes);
    c < |pieces| && p == pieces[c] && c * computeLanes < b.valid
  }

  lemma KeptMembers(b: Batch, simdLanes: nat, computeLanes: nat, p: Piece)
    requires computeLanes > 0 && b.valid <= simdLanes
    ensures p in Kept(ChunkBatch(b, simdLanes, computeLanes)) <==> exists c: nat :: IsKeptChunk(b, simdLanes, computeLanes, c, p)
  {
    hide ChunkBatch, Kept;
    ValidIsKept(b, simdLanes, computeLanes);
    var pieces, kept := ChunkBatch(b, simdLanes, computeLanes), Kept(ChunkBatch(b, simdLanes, computeLanes));
    if p in kept {
      var c: nat :| c < |kept| && kept[c] == p;
      assert IsKeptChunk(b, simdLanes, computeLanes, c, p);
    }
    if c: nat :| IsKeptChunk(b, simdLanes, computeLanes, c, p) {
      assert kept[c] == p;
    }
  }

  /** A stage emits the chunks that have a valid lane, and no others. */
  lemma {:induction false} StagePiecesAre(batches: seq<Batch>, simdLanes: nat, computeLanes: nat, p: Piece)
    requires computeLanes > 0 && forall b :: b in batches ==> b.valid <= simdLanes
    ensures p in StagePieces(batches, simdLanes, computeLanes) <==> IsStagePiece(batches, simdLanes, computeLanes, p)
  {
    hide StagePieces, ChunkBatch, Kept, IsKeptChunk;
    if batches == [] {
      NoPieces(simdLanes, computeLanes);
    } else {
      var front, last := batches[..|batches| - 1], batches[|batches| - 1];
      StagePiecesAre(front, simdLanes, computeLanes, p);
      assert batches == front + [last];
      PiecesGrow(front, last, simdLanes, computeLanes);
      KeptMembers(last, simdLanes, computeLanes, p);
    }
  }

  /** Splitting every batch of a stage emits its chunks with a valid lane, and leaves the memory
      of the unsplit stage. */
  lemma StageChunkingPreserves(stage: Stage, m: Memory, batches: seq<Batch>, simdLanes: nat, computeLanes: nat)
    requires computeLanes > 0 && forall b :: b in batches ==> Chunkable(b, simdLanes)
    ensures forall p :: p in StagePieces(batches, simdLanes, computeLanes) <==> IsStagePiece(batches, simdLanes, computeLanes, p)
    ensures forall b :: b in batches ==> SplitInto(b, simdLanes, computeLanes, ChunkBatch(b, simdLanes, computeLanes))
    ensures RunPieces(stage, m, StagePieces(batches, simdLanes, computeLanes)) == RunBatches(stage, m, batches, simdLanes)
  {
    hide StagePieces, IsStagePiece, ChunkBatch, NoOverlap, OneWriter, SplitInto;
    forall p ensures p in StagePieces(batches, simdLanes, computeLanes) <==> IsStagePiece(batches, simdLanes, computeLanes, p) {
      StagePiecesAre(batches, simdLanes, computeLanes, p);
    }
    forall b | b in batches ensures SplitInto(b, simdLanes, computeLanes, ChunkBatch(b, simdLanes, computeLanes)) {
      BatchSplits(b, simdLanes, computeLanes);
    }
    StageSplitPreserves(stage, m, batches, simdLanes, computeLanes);
  }

  lemma {:induction false} StageSplitPreserves(stage: Stage, m: Memory, batches: seq<Batch>, simdLanes: nat, computeLanes: nat)
    requires computeLanes > 0 && forall b :: b in batches ==> Chunkable(b, simdLanes)
    ensures RunPieces(stage, m, StagePieces(batches, simdLanes, computeLanes)) == RunBatches(stage, m, batches, simdLanes)
  {
    hide StagePieces, ChunkBatch, Kept, Chunkable, RunBatch;
    if batches == [] {
      NoPieces(simdLanes, computeLanes);
    } else {
      var front, last := batches[..|batches| - 1], batches[|batches| - 1];
      StageSplitPreserves(stage, m, front, simdLanes, computeLanes);
      assert batches == front + [last];
      PiecesGrow(front, last, simdLanes, computeLanes);
      RunPiecesAppend(stage, m, StagePieces(front, simdLanes, computeLanes), Kept(ChunkBatch(last, simdLanes, computeLanes)));
      KeptIsSame(stage, RunBatches(stage, m, front, simdLanes), last, simdLanes, computeLanes);
    }
  }

  // -------- chunk c of a full batch

  /** The whole batch as a slice of itself. */
  lemma {:induction false} SliceWhole(stage: Stage, m: Memory, batch: Batch, simdLanes: nat, n: nat)
    requires n <= |stage.order| && WellFormed(batch, simdLanes)
    ensures SlicedWrites(stage, m, batch, simdLanes, 0, simdLanes, n) == BatchWrites(stage, m, batch, simdLanes, n)
  {
    hide WritesFor, WellFormed;
    if n > 0 {
      SliceWhole(stage, m, batch, simdLanes, n - 1);
      WritesFit(stage, m, batch, simdLanes, stage.order[n - 1]);
      assert Slice(WritesFor(stage, m, batch, simdLanes, stage.order[n - 1]), 0, simdLanes)
          == WritesFor(stage, m, batch, simdLanes, stage.order[n - 1]);
    }
  }

  /** Chunk c of a well-formed batch writes lanes c * computeLanes and on. */
  lemma ChunkPieceWrites(stage: Stage, m: Memory, batch: Batch, simdLanes: nat, computeLanes: nat, c: nat)
    requires computeLanes > 0 && simdLanes > 0 && WellFormed(batch, simdLanes) && c < ChunkCount(simdLanes, computeLanes)
    ensures c * computeLanes < simdLanes && c < |ChunkBatch(batch, simdLanes, computeLanes)|
    ensures var p := ChunkBatch(batch, simdLanes, computeLanes)[c];
            BatchWrites(stage, m, p.batch, p.width, |stage.order|)
            == SlicedWrites(stage, m, batch, simdLanes, c * computeLanes, Min(computeLanes, simdLanes - c * computeLanes), |stage.order|)
  {
    hide WellFormed, BatchWrites, SlicedWrites, Chunk, Apply;
    ChunksOf(batch, simdLanes, computeLanes);
    var n := ChunkCount(simdLanes, computeLanes);
    if computeLanes >= simdLanes {
      CountOfWide(simdLanes, computeLanes);
      assert c == 0 && c * computeLanes == 0;
      SliceWhole(stage, m, batch, simdLanes, |stage.order|);
    } else {
      ChunkAt(batch, simdLanes, computeLanes, n, c);
      ChunkWrites(stage, m, batch, simdLanes, c * computeLanes, Min(computeLanes, simdLanes - c * computeLanes), |stage.order|);
    }
  }

  lemma {:induction false} FullChunksKept(batch: Batch, simdLanes: nat, computeLanes: nat)
    requires computeLanes > 0 && simdLanes > 0 && batch.valid == simdLanes
    ensures Kept(ChunkBatch(batch, simdLanes, computeLanes)) == ChunkBatch(batch, simdLanes, computeLanes)
  {
    var pieces := ChunkBatch(batch, simdLanes, computeLanes);
    if computeLanes < simdLanes {
      var n := ChunkCount(simdLanes, computeLanes);
      forall p | p in pieces ensures p.batch.valid > 0 {
        var c :| 0 <= c < |pieces| && pieces[c] == p;
        ChunkAt(batch, simdLanes, computeLanes, n, c);
      }
    }
    AllKept(pieces);
  }

  // -------- the machine

  class Machine {
    var memory: Memory

    constructor (m: Memory)
      ensures memory == m
    {
      memory := m;
    }

    /** One chunk of the loop body: every operand is loaded, then the outputs are stored as
        they complete. */
    method RunLoopChunk(stage: Stage, plan: LoopPlan, table: seq<Complex>, simdLanes: nat, r: nat, q: nat, from: nat, width: nat, compact: bool)
      requires |plan.stores| == |plan.scales|
      modifies this
      ensures memory == Apply(old(memory), LoopWrites(stage, old(memory), plan, table, simdLanes, r, q, from, width, compact, |stage.order|))
    {
      hide LoopWrite, LoopOperands;
      var loaded := memory;
      var n := 0;
      while n < |stage.order|
        invariant 0 <= n <= |stage.order|
        invariant memory == Apply(loaded, LoopWrites(stage, loaded, plan, table, simdLanes, r, q, from, width, compact, n))
      {
        var k := stage.order[n];
        ghost var before := LoopWrites(stage, loaded, plan, table, simdLanes, r, q, from, width, compact, n);
        ghost var mine := LoopWritesFor(stage, loaded, plan, table, simdLanes, k, r, q, from, width, compact);
        ApplyNothing(loaded, before);
        var i := 0;
        var lanes := if k < |plan.stores| then width else 0;
        while i < lanes
          invariant 0 <= i <= lanes == |mine|
          invariant memory == Apply(loaded, before + mine[..i])
        {
          var w := LoopWrite(stage, loaded, plan, table, simdLanes, k, r, q, from, width, i, compact);
          ApplyOne(loaded, before, mine, i);
          memory := memory[w.cell := w.value];
          i := i + 1;
        }
        assert mine[..i] == mine;
        n := n + 1;
      }
    }

    /** The looped stage, then nothing else: rounds, residues and chunks, in that order. */
    method RunLoop(stage: Stage, plan: LoopPlan, table: seq<Complex>, simdLanes: nat, computeLanes: nat, compact: bool,
                   ghost full: seq<Batch>, ghost partial: seq<Batch>)
      requires Rolled(full, partial, simdLanes, plan, table) && OneLoadBank(full) && simdLanes > 0 && computeLanes > 0
      modifies this
      ensures memory == RunPieces(stage, old(memory), StagePieces(full, simdLanes, computeLanes))
    {
      hide Rolled, OneLoadBank, StagePieces, IsPlan, RunPieces;
      var count := ChunkCount(simdLanes, computeLanes);
      ghost var m := memory;
      var q := 0;
      Rounds(full, partial, simdLanes, plan, table);
      StartPieces(stage, m, full, simdLanes, computeLanes);
      assert plan.period * 0 == 0;
      while q < plan.outerIters
        invariant 0 <= q <= plan.outerIters
        invariant plan.period * q <= |full|
        invariant memory == RunPieces(stage, m, StagePieces(full[..plan.period * q], simdLanes, computeLanes))
      {
        InGrid(|full|, plan.period, plan.outerIters, q);
        var r := 0;
        while r < plan.period
          invariant 0 <= r <= plan.period
          invariant memory == RunPieces(stage, m, StagePieces(full[..r + plan.period * q], simdLanes, computeLanes))
        {
          RunBatchChunks(stage, plan, table, simdLanes, computeLanes, compact, full, partial, r, q);
          ghost var b := r + plan.period * q;
          BatchFullyRun(stage, m, full, partial, simdLanes, computeLanes, plan, table, b);
          r := r + 1;
        }
        assert plan.period * (q + 1) == plan.period + plan.period * q;
        q := q + 1;
      }
      assert full[..plan.period * q] == full;
    }

    method RunBatchChunks(stage: Stage, plan: LoopPlan, table: seq<Complex>, simdLanes: nat, computeLanes: nat, compact: bool,
                          ghost full: seq<Batch>, ghost partial: seq<Batch>, r: nat, q: nat)
      requires Rolled(full, partial, simdLanes, plan, table) && OneLoadBank(full) && simdLanes > 0 && computeLanes > 0
      requires r < plan.period && r + plan.period * q < |full|
      modifies this
      ensures memory == RunPieces(stage, old(memory), ChunkBatch(full[r + plan.period * q], simdLanes, computeLanes))
    {
      hide Rolled, OneLoadBank, IsPlan, ChunkBatch, RunPiece, LoopWrites;
      ghost var m, b := memory, r + plan.period * q;
      ghost var pieces := ChunkBatch(full[b], simdLanes, computeLanes);
      var count := ChunkCount(simdLanes, computeLanes);
      ChunksOf(full[b], simdLanes, computeLanes);
      OutputCount(full, partial, simdLanes, plan, table);
      var c := 0;
      while c < count
        invariant 0 <= c <= count
        invariant memory == RunPieces(stage, m, pieces[..c])
      {
        ghost var mid := memory;
        StillInside(simdLanes, computeLanes, c);
        var from := c * computeLanes;
        var width := Min(computeLanes, simdLanes - from);
        RunLoopChunk(stage, plan, table, simdLanes, r, q, from, width, compact);
        LoopChunkIsPiece(stage, mid, full, partial, simdLanes, computeLanes, plan, table, b, r, q, c, compact);
        assert pieces[..c + 1][..c] == pieces[..c];
        c := c + 1;
      }
      assert pieces[..c] == pieces;
    }

    method RunInOrder(stage: Stage, pieces: seq<Piece>)
      modifies this
      ensures memory == RunPieces(stage, old(memory), pieces)
    {
      var i := 0;
      while i < |pieces|
        invariant 0 <= i <= |pieces| && memory == RunPieces(stage, old(memory), pieces[..i])
      {
        memory := RunPiece(stage, memory, pieces[i]);
        assert pieces[..i + 1][..i] == pieces[..i];
        i := i + 1;
      }
      assert pieces[..i] == pieces;
    }

    /** A stage of one microthread, as it was planned and with the table as it stands when the
        device runs: the loop and then the tail, or every piece in turn, leave the same memory. */
    method RunStage(stage: Stage, batches: seq<Batch>, simdLanes: nat, computeLanes: nat, r: Outcome, table: seq<Complex>, compact: bool)
      requires simdLanes > 0 && computeLanes > 0 && TailIsLast(batches, simdLanes) && OneLoadBank(Full(batches, simdLanes))
      requires PlannedAs(r, batches, simdLanes, table) && !r.Raised?
      modifies this
      ensures memory == RunPieces(stage, old(memory), StagePieces(batches, simdLanes, computeLanes))
    {
      hide Full, Partial, StagePieces, RunPieces, OneLoadBank, Rolled;
      ghost var m := memory;
      match r {
        case Looped(plan) =>
          ghost var full, partial := Full(batches, simdLanes), Partial(batches, simdLanes);
          RunLoop(stage, plan, table, simdLanes, computeLanes, compact, full, partial);
          RunInOrder(stage, if plan.tail.Some? then StagePieces([plan.tail.value], simdLanes, computeLanes) else []);
          LoopAndTail(stage, m, full, partial, simdLanes, computeLanes);
        case Unrolled =>
          RunInOrder(stage, StagePieces(batches, simdLanes, computeLanes));
      }
    }
  }

  lemma ApplyNothing(m: Memory, before: seq<Write>)
    ensures Apply(m, before + []) == Apply(m, before)
  {
    assert before + [] == before;
  }

  lemma ApplyOne(m: Memory, before: seq<Write>, mine: seq<Write>, i: nat)
    requires i < |mine|
    ensures Apply(m, before + mine[..i + 1]) == Apply(m, before + mine[..i])[mine[i].cell := mine[i].value]
  {
    assert (before + mine[..i + 1])[..|before| + i] == before + mine[..i];
  }

  lemma StillInside(simdLanes: nat, computeLanes: nat, c: nat)
    requires computeLanes > 0 && c < ChunkCount(simdLanes, computeLanes)
    ensures c * computeLanes < simdLanes
  {
    var n := ChunkCount(simdLanes, computeLanes);
    assert c * computeLanes <= (n - 1) * computeLanes;
  }

  lemma InGrid(n: nat, period: nat, rows: nat, q: nat)
    requires n == period * rows && q < rows
    ensures period * q + period <= n
  {
    assert period * (q + 1) <= period * rows;
  }

  lemma Rounds(full: seq<Batch>, partial: seq<Batch>, simdLanes: nat, plan: LoopPlan, table: seq<Complex>)
    requires Rolled(full, partial, simdLanes, plan, table)
    ensures plan.period > 0 && |full| == plan.period * plan.outerIters
  {
    Recompose(|full|, plan.period);
  }

  lemma StartPieces(stage: Stage, m: Memory, full: seq<Batch>, simdLanes: nat, computeLanes: nat)
    requires computeLanes > 0
    ensures RunPieces(stage, m, StagePieces(full[..0], simdLanes, computeLanes)) == m
  {
  }

  /** One chunk of the loop body is one chunk of the batch it stands for. */
  lemma LoopChunkIsPiece(stage: Stage, m: Memory, full: seq<Batch>, partial: seq<Batch>, simdLanes: nat, computeLanes: nat,
                         plan: LoopPlan, table: seq<Complex>, b: nat, r: nat, q: nat, c: nat, compact: bool)
    requires Rolled(full, partial, simdLanes, plan, table) && OneLoadBank(full) && simdLanes > 0 && computeLanes > 0
    requires b < |full| && r < plan.period && b == r + plan.period * q
    requires c < ChunkCount(simdLanes, computeLanes) && c * computeLanes < simdLanes
    ensures c < |ChunkBatch(full[b], simdLanes, computeLanes)|
    ensures RunPiece(stage, m, ChunkBatch(full[b], simdLanes, computeLanes)[c])
            == Apply(m, LoopWrites(stage, m, plan, table, simdLanes, r, q, c * computeLanes, Min(computeLanes, simdLanes - c * computeLanes), compact, |stage.order|))
  {
    hide Rolled, OneLoadBank, ChunkBatch, BatchWrites, LoopWrites, Apply, SlicedWrites, WellFormed, ChunkCount;
    RolledBatch(full, partial, simdLanes, plan, table, b);
    ChunkPieceWrites(stage, m, full[b], simdLanes, computeLanes, c);
    LoopWritesIs(stage, m, full, partial, simdLanes, plan, table, b, r, q, c * computeLanes, Min(computeLanes, simdLanes - c * computeLanes), compact, |stage.order|);
  }

  lemma RolledBatch(full: seq<Batch>, partial: seq<Batch>, simdLanes: nat, plan: LoopPlan, table: seq<Complex>, b: nat)
    requires Rolled(full, partial, simdLanes, plan, table) && b < |full|
    ensures full[b].valid == simdLanes && WellFormed(full[b], simdLanes)
  {
    FittingIsWellFormed(full, simdLanes, b);
  }

  lemma BatchFullyRun(stage: Stage, m: Memory, full: seq<Batch>, partial: seq<Batch>, simdLanes: nat, computeLanes: nat,
                      plan: LoopPlan, table: seq<Complex>, b: nat)
    requires Rolled(full, partial, simdLanes, plan, table) && simdLanes > 0 && computeLanes > 0 && b < |full|
    ensures RunPieces(stage, m, StagePieces(full[..b + 1], simdLanes, computeLanes))
            == RunPieces(stage, RunPieces(stage, m, StagePieces(full[..b], simdLanes, computeLanes)), ChunkBatch(full[b], simdLanes, computeLanes))
  {
    hide Rolled, ChunkBatch, RunPieces, StagePieces;
    RolledBatch(full, partial, simdLanes, plan, table, b);
    assert full[..b + 1] == full[..b] + [full[b]];
    PiecesGrow(full[..b], full[b], simdLanes, computeLanes);
    FullChunksKept(full[b], simdLanes, computeLanes);
    RunPiecesAppend(stage, m, StagePieces(full[..b], simdLanes, computeLanes), ChunkBatch(full[b], simdLanes, computeLanes));
  }

  /** A partial batch comes after all full ones. */
  ghost predicate TailIsLast(batches: seq<Batch>, simdLanes: nat) {
    batches == Full(batches, simdLanes) + Partial(batches, simdLanes)
  }

  lemma LoopedIsRolled(batches: seq<Batch>, simdLanes: nat, minFull: int, plan: LoopPlan, table: seq<Complex>)
    requires Loopable(batches, simdLanes, minFull)
    requires IsLeast(AllSeqs(Full(batches, simdLanes), simdLanes), |Full(batches, simdLanes)|, plan.period)
    requires IsPlan(plan, Full(batches, simdLanes), Partial(batches, simdLanes), simdLanes, plan.period, table)
    ensures Rolled(Full(batches, simdLanes), Partial(batches, simdLanes), simdLanes, plan, table)
    ensures |Partial(batches, simdLanes)| <= 1
    ensures plan.tail == if Partial(batches, simdLanes) == [] then None else Some(Partial(batches, simdLanes)[0])
  {
    hide OutputsPlanned, AllSeqs, Periodic, AllFit;
  }

  lemma LoopAndTail(stage: Stage, m: Memory, full: seq<Batch>, partial: seq<Batch>, simdLanes: nat, computeLanes: nat)
    requires computeLanes > 0 && |partial| <= 1
    ensures RunPieces(stage, RunPieces(stage, m, StagePieces(full, simdLanes, computeLanes)),
                      if partial == [] then [] else StagePieces([partial[0]], simdLanes, computeLanes))
            == RunPieces(stage, m, StagePieces(full + partial, simdLanes, computeLanes))
  {
    hide StagePieces;
    PiecesAppend(full, partial, simdLanes, computeLanes);
    RunPiecesAppend(stage, m, StagePieces(full, simdLanes, computeLanes), StagePieces(partial, simdLanes, computeLanes));
    if partial == [] {
      NoPieces(simdLanes, computeLanes);
      assert full + partial == full;
    } else {
      assert partial == [partial[0]];
    }
  }

  /** What planning a stage has established about its loop, if it has one. */
  ghost predicate PlannedAs(r: Outcome, batches: seq<Batch>, simdLanes: nat, table: seq<Complex>) {
    r.Looped? ==>
      var full, partial := Full(batches, simdLanes), Partial(batches, simdLanes);
      && Rolled(full, partial, simdLanes, r.plan, table) && |partial| <= 1
      && r.plan.tail == if partial == [] then None else Some(partial[0])
  }

  lemma OutcomeSurvives(r: Outcome, batches: seq<Batch>, simdLanes: nat, table: seq<Complex>, later: seq<Complex>)
    requires PlannedAs(r, batches, simdLanes, table) && table <= later
    ensures PlannedAs(r, batches, simdLanes, later)
  {
    hide Rolled, Full, Partial;
    if r.Looped? {
      PlanSurvives(r.plan, Full(batches, simdLanes), Partial(batches, simdLanes), simdLanes, table, later);
    }
  }

  /** Plans a stage against the table, to which it may add rows. */
  method PlanStage(batches: seq<Batch>, simdLanes: nat, minFull: int, table: TwiddleTable) returns (r: Outcome)
    requires minFull > 0
    modifies table
    ensures !r.Raised? && (r.Looped? <==> Loopable(batches, simdLanes, minFull))
    ensures r.Looped? <==>
              var full := Full(batches, simdLanes);
              && 0 < |full| && minFull <= |full| && |Partial(batches, simdLanes)| <= 1 && AllFit(full, simdLanes)
              && exists p: nat :: 0 < p <= 64 && 2 * p <= |full| && Admissible(AllSeqs(full, simdLanes), |full|, p)
    ensures PlannedAs(r, batches, simdLanes, table.rows) && old(table.rows) <= table.rows
  {
    hide Full, Partial, Loopable, Rolled;
    r := table.TryBuildLoopStage(batches, simdLanes, minFull);
    if r.Looped? {
      LoopedIsRolled(batches, simdLanes, minFull, r.plan, table.rows);
    }
  }

  /** A plan keeps its rows when later stages add theirs to the table. */
  lemma PlanSurvives(plan: LoopPlan, full: seq<Batch>, partial: seq<Batch>, simdLanes: nat, table: seq<Complex>, later: seq<Complex>)
    requires Rolled(full, partial, simdLanes, plan, table) && table <= later
    ensures Rolled(full, partial, simdLanes, plan, later)
  {
    assert later == table + later[|table|..];
    forall k: nat | k in plan.rows ensures TableHolds(later, plan.rows[k], full, k, simdLanes) {
      TableExtends(table, later[|table|..], plan.rows[k], full, k, simdLanes);
    }
  }

  // -------- when the loop reads what the batches read

  /** The cell the loop loads for lane `lane` of operand j, standing for batch b. */
  function LoopLoadCell(plan: LoopPlan, j: nat, b: nat, lane: nat): Cell
    requires j < |plan.loads| && plan.period > 0 && |plan.loads[j].at.bases| == plan.period
  {
    Cell(plan.loads[j].bank, LoopOffset(plan.loads[j].at, b % plan.period, b / plan.period, 0, false) + lane)
  }

  /** The loop takes every load's bank from the first batch, so it reads the cells the
      batches read exactly when they all name the first one's bank. */
  lemma LoopReadsExactly(full: seq<Batch>, partial: seq<Batch>, simdLanes: nat, plan: LoopPlan, table: seq<Complex>)
    requires Rolled(full, partial, simdLanes, plan, table)
    ensures forall j :: 0 <= j < |plan.loads| ==> |plan.loads[j].at.bases| == plan.period
    ensures (forall b: nat, j: nat, lane: nat :: b < |full| && j < |plan.loads| && j < |full[b].loads| ==>
               LoadCell(full[b].loads[j], lane) == Some(LoopLoadCell(plan, j, b, lane)))
            <==> OneLoadBank(full)
  {
    hide IsPlan, OutputsFit, LoopOffset;
    PlannedLoads(full, partial, simdLanes, plan, table);
    forall b: nat, j: nat, lane: nat | b < |full| && j < |plan.loads| && j < |full[b].loads|
      ensures LoadCell(full[b].loads[j], lane) == Some(Cell(full[b].loads[j].bank, LoopLoadCell(plan, j, b, lane).offset))
    {
      assert full[b] in full && LoadPlanned(plan.loads[j], full, j, plan.period);
      Recompose(b, plan.period);
      LoopOffsetIs(plan.loads[j].at, LoadOffsets(full, j), b % plan.period, b / plan.period, 0, false);
    }
    if forall b: nat, j: nat, lane: nat :: b < |full| && j < |plan.loads| && j < |full[b].loads| ==>
         LoadCell(full[b].loads[j], lane) == Some(LoopLoadCell(plan, j, b, lane)) {
      forall b, j | 0 <= b < |full| && 0 <= j < |full[b].loads| && j < |full[0].loads|
        ensures full[b].loads[j].bank == full[0].loads[j].bank
      {
        assert LoadCell(full[b].loads[j], 0) == Some(LoopLoadCell(plan, j, b, 0));
        assert LoadPlanned(plan.loads[j], full, j, plan.period);
      }
    } else {
      var b: nat, j: nat, lane: nat :| b < |full| && j < |plan.loads| && j < |full[b].loads|
        && LoadCell(full[b].loads[j], lane) != Some(LoopLoadCell(plan, j, b, lane));
      assert LoadPlanned(plan.loads[j], full, j, plan.period);
      assert full[b].loads[j].bank != full[0].loads[j].bank;
    }
  }
}
