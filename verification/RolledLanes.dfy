/** A worker's list of batches rolled into a loop of its own: sorted by number, planned, and run
    as the loop and then the tail, or left as it was dealt. */
module RolledLanes {
  import opened Complexes
  import opened DivMod
  import opened Memories
  import opened Batches
  import opened Chunking
  import opened LoopStages
  import opened Reroll
  import opened StageRuns
  import opened Workers

  const LOOP_MIN_FULL_BATCHES: nat := 3

  // -------- the order of a rolled list

  /** b put after every batch whose number is not greater. */
  function Insert(s: seq<Batch>, b: Batch): (r: seq<Batch>)
    ensures multiset(r) == multiset(s) + multiset{b}
  {
    if s == [] || s[|s| - 1].id <= b.id then s + [b]
    else
      var last := s[|s| - 1];
      assert s == s[..|s| - 1] + [last];
      Insert(s[..|s| - 1], b) + [last]
  }

  function SortById(batches: seq<Batch>): (r: seq<Batch>)
    ensures multiset(r) == multiset(batches)
  {
    if batches == [] then []
    else
      var n := |batches| - 1;
      assert batches == batches[..n] + [batches[n]];
      Insert(SortById(batches[..n]), batches[n])
  }

  ghost predicate Ascending(s: seq<Batch>) {
    forall i, j :: 0 <= i < j < |s| ==> s[i].id <= s[j].id
  }

  lemma {:induction false} InsertAscends(s: seq<Batch>, b: Batch)
    requires Ascending(s)
    ensures Ascending(Insert(s, b))
  {
    hide Ascending;
    if s == [] || s[|s| - 1].id <= b.id {
      LastIsTop(s);
      AscendsOn(s, b);
    } else {
      var n := |s| - 1;
      LastIsTop(s);
      InsertAscends(s[..n], b);
      InsertBelow(s[..n], b, s[n].id);
      AscendsOn(Insert(s[..n], b), s[n]);
    }
  }

  lemma LastIsTop(s: seq<Batch>)
    requires Ascending(s)
    ensures s != [] ==> Ascending(s[..|s| - 1]) && forall i :: 0 <= i < |s| ==> s[i].id <= s[|s| - 1].id
  {
  }

  lemma AscendsOn(s: seq<Batch>, b: Batch)
    requires Ascending(s) && forall i :: 0 <= i < |s| ==> s[i].id <= b.id
    ensures Ascending(s + [b])
  {
  }

  lemma InsertBelow(s: seq<Batch>, b: Batch, top: int)
    requires b.id <= top && forall i :: 0 <= i < |s| ==> s[i].id <= top
    ensures forall i :: 0 <= i < |Insert(s, b)| ==> Insert(s, b)[i].id <= top
  {
    hide Insert;
    var r := Insert(s, b);
    forall i | 0 <= i < |r| ensures r[i].id <= top {
      assert r[i] in multiset(s) + multiset{b};
    }
  }

  /** The batches with this id, in order. */
  function WithId(s: seq<Batch>, id: int): seq<Batch> {
    if s == [] then [] else WithId(s[..|s| - 1], id) + if s[|s| - 1].id == id then [s[|s| - 1]] else []
  }

  lemma WithIdGrows(s: seq<Batch>, b: Batch, id: int)
    ensures WithId(s + [b], id) == WithId(s, id) + if b.id == id then [b] else []
  {
    assert (s + [b])[..|s|] == s;
  }

  lemma InsertStep(s: seq<Batch>, b: Batch)
    ensures Insert(s, b) == if s == [] || s[|s| - 1].id <= b.id then s + [b] else Insert(s[..|s| - 1], b) + [s[|s| - 1]]
  {
  }

  lemma {:induction false} InsertKeepsOrder(s: seq<Batch>, b: Batch, id: int)
    ensures WithId(Insert(s, b), id) == WithId(s, id) + if b.id == id then [b] else []
  {
    hide WithId, Insert;
    InsertStep(s, b);
    if s == [] || s[|s| - 1].id <= b.id {
      WithIdGrows(s, b, id);
    } else {
      var front, last := s[..|s| - 1], s[|s| - 1];
      InsertKeepsOrder(front, b, id);
      WithIdGrows(Insert(front, b), last, id);
      WithIdGrows(front, last, id);
      assert s == front + [last];
    }
  }

  /** Batches of one id stay in the order they were dealt in. */
  lemma {:induction false} SortIsStable(batches: seq<Batch>, id: int)
    ensures WithId(SortById(batches), id) == WithId(batches, id)
  {
    hide WithId, Insert;
    if batches == [] {
      assert SortById(batches) == [];
    } else {
      var n := |batches| - 1;
      SortIsStable(batches[..n], id);
      InsertKeepsOrder(SortById(batches[..n]), batches[n], id);
      WithIdGrows(batches[..n], batches[n], id);
      assert batches == batches[..n] + [batches[n]];
    }
  }

  /** The sort is one: a permutation in ascending order. */
  lemma {:induction false} SortSorts(batches: seq<Batch>)
    ensures Ascending(SortById(batches)) && multiset(SortById(batches)) == multiset(batches)
  {
    if batches != [] {
      var n := |batches| - 1;
      SortSorts(batches[..n]);
      InsertAscends(SortById(batches[..n]), batches[n]);
    }
  }

  /** The order in which a rolled list is run: the loop's batches, then the tail. */
  function RolledOrder(batches: seq<Batch>, simdLanes: nat): seq<Batch> {
    var s := SortById(batches);
    Full(s, simdLanes) + Partial(s, simdLanes)
  }

  /** Rolling changes the order of a list, never what is in it. */
  lemma RolledPermutes(batches: seq<Batch>, simdLanes: nat)
    ensures multiset(RolledOrder(batches, simdLanes)) == multiset(batches)
  {
    hide Full, Partial, SortById;
    FullAndPartial(SortById(batches), simdLanes);
  }

  lemma {:induction false} AllFull(s: seq<Batch>, simdLanes: nat)
    requires forall b :: b in s ==> b.valid == simdLanes
    ensures Full(s, simdLanes) == s && Partial(s, simdLanes) == []
  {
    hide Full, Partial;
    if s == [] {
      NoneFull(simdLanes);
    } else {
      var front, last := s[..|s| - 1], s[|s| - 1];
      assert last in s && s == front + [last];
      AllFull(front, simdLanes);
      FullFirst(front, last, simdLanes);
    }
  }

  lemma {:induction false} FullThenPartial(full: seq<Batch>, partial: seq<Batch>, simdLanes: nat)
    requires (forall b :: b in full ==> b.valid == simdLanes) && (forall b :: b in partial ==> b.valid != simdLanes)
    ensures Full(full + partial, simdLanes) == full && Partial(full + partial, simdLanes) == partial
  {
    hide Full, Partial;
    if partial == [] {
      assert full + partial == full;
      AllFull(full, simdLanes);
    } else {
      var n := |partial| - 1;
      var front, last := partial[..n], partial[n];
      assert last in partial && partial == front + [last];
      FullThenPartial(full, front, simdLanes);
      assert full + partial == (full + front) + [last];
      FullFirst(full + front, last, simdLanes);
    }
  }

  /** The rolled order has the loop's batches and the tail of the sorted list, tail last. */
  lemma RolledIsOrdered(batches: seq<Batch>, simdLanes: nat)
    ensures var s, order := SortById(batches), RolledOrder(batches, simdLanes);
            Full(order, simdLanes) == Full(s, simdLanes) && Partial(order, simdLanes) == Partial(s, simdLanes) && TailIsLast(order, simdLanes)
  {
    hide SortById;
    var s := SortById(batches);
    FullThenPartial(Full(s, simdLanes), Partial(s, simdLanes), simdLanes);
  }

  lemma {:induction false} FullAscends(s: seq<Batch>, simdLanes: nat)
    requires Ascending(s)
    ensures Ascending(Full(s, simdLanes))
  {
    hide Full, Ascending;
    if s == [] {
      NoneFull(simdLanes);
      NoneAscends();
    } else {
      var front, last := s[..|s| - 1], s[|s| - 1];
      LastIsTop(s);
      FullAscends(front, simdLanes);
      assert s == front + [last];
      FullFirst(front, last, simdLanes);
      if last.valid == simdLanes {
        AscendsOn(Full(front, simdLanes), last);
      } else {
        assert Full(s, simdLanes) == Full(front, simdLanes);
      }
    }
  }

  lemma NoneAscends()
    ensures Ascending([])
  {
  }

  // -------- a rolled list is run as its pieces

  /** One worker's list as emitted: against the plan made for its sorted form, if there is one. */
  method RunDispatch(machine: Machine, stage: Stage, batches: seq<Batch>, simdLanes: nat, computeLanes: nat, r: Outcome, table: seq<Complex>)
    requires simdLanes > 0 && computeLanes > 0 && OneLoadBank(Full(SortById(batches), simdLanes))
    requires PlannedAs(r, SortById(batches), simdLanes, table) && !r.Raised?
    modifies machine
    ensures machine.memory
            == RunPieces(stage, old(machine.memory), StagePieces(if r.Looped? then RolledOrder(batches, simdLanes) else batches, simdLanes, computeLanes))
  {
    hide Full, Partial, StagePieces, RunPieces, OneLoadBank, Rolled, SortById, RolledOrder, TailIsLast;
    RolledIsOrdered(batches, simdLanes);
    if r.Looped? {
      machine.RunStage(stage, RolledOrder(batches, simdLanes), simdLanes, computeLanes, r, table, true);
    } else {
      machine.RunInOrder(stage, StagePieces(batches, simdLanes, computeLanes));
    }
  }

  /** Chunk c of the loop body at residue r and round q writes what that chunk of the batch it
      stands for writes, whatever the memory it finds. */
  lemma LoopChunkWrites(stage: Stage, m: Memory, batches: seq<Batch>, simdLanes: nat, computeLanes: nat, plan: LoopPlan, table: seq<Complex>,
                        b: nat, r: nat, q: nat, c: nat, from: nat, width: nat)
    requires simdLanes > 0 && computeLanes > 0 && OneLoadBank(Full(SortById(batches), simdLanes))
    requires PlannedAs(Looped(plan), SortById(batches), simdLanes, table)
    requires b < |Full(SortById(batches), simdLanes)| && r < plan.period && b == r + plan.period * q
    requires c < ChunkCount(simdLanes, computeLanes) && from == c * computeLanes < simdLanes && width == Min(computeLanes, simdLanes - from)
    ensures b < |RolledOrder(batches, simdLanes)| && c < |ChunkBatch(RolledOrder(batches, simdLanes)[b], simdLanes, computeLanes)|
    ensures var p := ChunkBatch(RolledOrder(batches, simdLanes)[b], simdLanes, computeLanes)[c];
            LoopWrites(stage, m, plan, table, simdLanes, r, q, from, width, true, |stage.order|)
            == BatchWrites(stage, m, p.batch, p.width, |stage.order|)
  {
    hide Full, Partial, SortById, OneLoadBank, Rolled, ChunkBatch, BatchWrites, LoopWrites, SlicedWrites, WellFormed, ChunkCount;
    var s := SortById(batches);
    var full, partial := Full(s, simdLanes), Partial(s, simdLanes);
    RolledBatch(full, partial, simdLanes, plan, table, b);
    ChunkPieceWrites(stage, m, full[b], simdLanes, computeLanes, c);
    LoopWritesIs(stage, m, full, partial, simdLanes, plan, table, b, r, q, from, width, true, |stage.order|);
  }
}
