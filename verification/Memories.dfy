/** The cells a kernel reads and writes, and what a list of writes does to them.  One cell
    stands for a pair of floats, the real and the imaginary plane at the same offset. */
module Memories {
  import opened Complexes

  datatype Option<T> = None | Some(value: T)

  /** The two ends of a kernel in main memory, the named buffers between its stages, and the
      scratchpad of one physical unit. */
  datatype Bank = Input | Output | Buffer(storage: string, name: string) | Local(unit: nat, name: string)

  datatype Cell = Cell(bank: Bank, offset: int)

  type Memory = map<Cell, Complex>

  datatype Write = Write(cell: Cell, value: Complex)

  function Read(m: Memory, c: Cell): Complex {
    if c in m then m[c] else ZERO
  }

  /** The writes of ws, one after the other. */
  function Apply(m: Memory, ws: seq<Write>): Memory {
    if ws == [] then m else Apply(m, ws[..|ws| - 1])[ws[|ws| - 1].cell := ws[|ws| - 1].value]
  }

  lemma {:induction false} ApplyAppend(m: Memory, a: seq<Write>, b: seq<Write>)
    ensures Apply(m, a + b) == Apply(Apply(m, a), b)
  {
    if b == [] {
      assert a + b == a;
    } else {
      ApplyAppend(m, a, b[..|b| - 1]);
      assert (a + b)[..|a + b| - 1] == a + b[..|b| - 1];
    }
  }

  /** ws writes cell c. */
  ghost predicate Writes(ws: seq<Write>, c: Cell) {
    exists w :: w in ws && w.cell == c
  }

  /** No two writes of ws disagree. */
  ghost predicate Agrees(ws: seq<Write>) {
    forall w, w' :: w in ws && w' in ws && w.cell == w'.cell ==> w == w'
  }

  lemma {:induction false} ApplyUnwritten(m: Memory, ws: seq<Write>, c: Cell)
    requires !Writes(ws, c)
    ensures c in Apply(m, ws) <==> c in m
    ensures c in m ==> Apply(m, ws)[c] == m[c]
  {
    if ws != [] {
      var rest := ws[..|ws| - 1];
      assert ws[|ws| - 1] in ws;
      assert forall w :: w in rest ==> w in ws;
      ApplyUnwritten(m, rest, c);
    }
  }

  lemma {:induction false} ApplyWritten(m: Memory, ws: seq<Write>, w: Write)
    requires Agrees(ws) && w in ws
    ensures w.cell in Apply(m, ws) && Apply(m, ws)[w.cell] == w.value
  {
    var rest := ws[..|ws| - 1];
    var last := ws[|ws| - 1];
    assert ws == rest + [last] && last in ws;
    if last.cell != w.cell {
      assert w in rest;
      ApplyWritten(m, rest, w);
    }
  }

  /** Writes that agree may be done in any order, and any number of times. */
  lemma ApplySame(m: Memory, a: seq<Write>, b: seq<Write>)
    requires Agrees(a) && forall w :: w in a <==> w in b
    ensures Apply(m, a) == Apply(m, b)
  {
    forall c: Cell
      ensures c in Apply(m, a) <==> c in Apply(m, b)
      ensures c in Apply(m, a) ==> Apply(m, a)[c] == Apply(m, b)[c]
    {
      if w :| w in a && w.cell == c {
        ApplyWritten(m, a, w);
        ApplyWritten(m, b, w);
      } else {
        ApplyUnwritten(m, a, c);
        ApplyUnwritten(m, b, c);
      }
    }
  }

  /** A cell that is not written reads as before. */
  lemma ReadUnwritten(m: Memory, ws: seq<Write>, c: Cell)
    requires !Writes(ws, c)
    ensures Read(Apply(m, ws), c) == Read(m, c)
  {
    ApplyUnwritten(m, ws, c);
  }
}
