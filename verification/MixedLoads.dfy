/** Rolling checks that all batches store to one bank but takes the bank of a load from the
    first batch: batches that load from different banks are rolled wrongly. */
module MixedLoads {
  import opened Complexes
  import opened Memories
  import opened Batches
  import opened Periods
  import opened LoopStages
  import opened Reroll

  // Copies cell i of a bank to cell i of the output, one lane wide.
  function Copy(bank: Bank, i: int): Batch {
    Batch(i, 1, [VectorLoad(bank, i)], [OutputPlan(0, None, None, false, VectorStore(Output, i))])
  }

  // The third batch loads from a buffer, the others from the input.
  function Copies(): (r: seq<Batch>)
    ensures |r| == 3
  {
    [Copy(Input, 0), Copy(Input, 1), Copy(Buffer("scratchpad", "buf"), 2)]
  }

  function CopyStage(): Stage {
    Stage((x: seq<Complex>, k: nat) => if |x| > 0 then x[0] else ZERO, [0], (i: int) => ONE)
  }

  lemma CopiesAreFull()
    ensures Full(Copies(), 1) == Copies() && Partial(Copies(), 1) == []
  {
    var c := Copies();
    assert c[..2] == [c[0], c[1]] && c[..2][..1] == [c[0]] && [c[0]][..0] == [];
    assert Full([c[0]], 1) == [c[0]] && Partial([c[0]], 1) == [];
    assert Full(c[..2], 1) == [c[0]] + [c[1]] && Partial(c[..2], 1) == [];
    assert Full(c, 1) == [c[0]] + [c[1]] + [c[2]];
  }

  lemma CopiesStepEvenly()
    ensures Admissible(AllSeqs(Copies(), 1), 3, 1)
  {
    var c := Copies();
    var p := Progression([0], 1);
    assert LoadOffsets(c, 0) == [0, 1, 2] && StoreOffsets(c, 0, 0) == [0, 1, 2];
    assert Reproduces(p, [0, 1, 2]) by {
      assert OffsetAt(p, 0) == 0 && OffsetAt(p, 1) == 1 && OffsetAt(p, 2) == 2;
    }
    assert LoadSeqs(c, 1) == [LoadOffsets(c, 0)];
    assert StoreSeqs(c, 1, 1) == [StoreOffsets(c, 0, 0)];
    assert AllSeqs(c, 1) == [[0, 1, 2], [0, 1, 2]];
  }

  /** A stage that mixes load banks is accepted, and every plan for it makes the loop write
      the input's value where the third batch writes the buffer's. */
  lemma MixedLoadsGoWrong(plan: LoopPlan, table: seq<Complex>)
    ensures Loopable(Copies(), 1, 3) && !OneLoadBank(Full(Copies(), 1))
    ensures Rolled(Copies(), [], 1, plan, table) && plan.period == 1 ==>
              var m: Memory := map[Cell(Input, 2) := ONE];
              && Apply(m, LoopWrites(CopyStage(), m, plan, table, 1, 0, 2, 0, 1, false, 1)) == m[Cell(Output, 2) := ONE]
              && RunBatch(CopyStage(), m, Copies()[2], 1) == m[Cell(Output, 2) := ZERO]
  {
    hide *;
    CopiesAreLoopable();
    if Rolled(Copies(), [], 1, plan, table) && plan.period == 1 {
      LoopCopies(plan, table);
      BatchCopies();
    }
  }

  lemma CopiesAreLoopable()
    ensures Loopable(Copies(), 1, 3) && !OneLoadBank(Full(Copies(), 1))
  {
    hide Full, Partial, AllSeqs, Periodic;
    CopiesAreFull();
    CopiesStepEvenly();
    assert AllFit(Copies(), 1);
    assert MaxPeriod(3) == 1;
    assert Copies()[2].loads[0].bank != Copies()[0].loads[0].bank;
  }

  lemma BatchCopies()
    ensures var m: Memory := map[Cell(Input, 2) := ONE];
            RunBatch(CopyStage(), m, Copies()[2], 1) == m[Cell(Output, 2) := ZERO]
  {
    var m: Memory := map[Cell(Input, 2) := ONE];
    var b := Copies()[2];
    assert b.outputs[..0] == [];
    assert WritesFor(CopyStage(), m, b, 1, 0) == [Write(Cell(Output, 2), ZERO)];
    assert BatchWrites(CopyStage(), m, b, 1, 0) == [];
    assert BatchWrites(CopyStage(), m, b, 1, 1) == [Write(Cell(Output, 2), ZERO)];
    ApplySingle(m, Write(Cell(Output, 2), ZERO));
  }

  lemma ApplySingle(m: Memory, w: Write)
    ensures Apply(m, [w]) == m[w.cell := w.value]
  {
    assert [w][..0] == [];
  }

  lemma LoopCopies(plan: LoopPlan, table: seq<Complex>)
    requires Rolled(Copies(), [], 1, plan, table) && plan.period == 1
    ensures var m: Memory := map[Cell(Input, 2) := ONE];
            Apply(m, LoopWrites(CopyStage(), m, plan, table, 1, 0, 2, 0, 1, false, 1)) == m[Cell(Output, 2) := ONE]
  {
    var m: Memory := map[Cell(Input, 2) := ONE];
    var c := Copies();
    PlannedLoads(c, [], 1, plan, table);
    PlannedOutput(c, [], 1, plan, table, 0);
    OutputCount(c, [], 1, plan, table);
    LoopOffsetIs(plan.loads[0].at, LoadOffsets(c, 0), 0, 2, 0, false);
    LoopStores(c, 1, 1, plan.stores[0], 2, 0, 0, 2, 0, 1, 0, false);
    var w := Write(Cell(Output, 2), ONE);
    assert LoopWrite(CopyStage(), m, plan, table, 1, 0, 0, 2, 0, 1, 0, false) == w;
    assert LoopWritesFor(CopyStage(), m, plan, table, 1, 0, 0, 2, 0, 1, false) == [w];
    assert LoopWrites(CopyStage(), m, plan, table, 1, 0, 2, 0, 1, false, 0) == [];
    assert LoopWrites(CopyStage(), m, plan, table, 1, 0, 2, 0, 1, false, 1) == [w];
    ApplySingle(m, w);
  }
}
