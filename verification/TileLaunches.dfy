/** A transpose stage as the host launches it: round after round, the tiles of a round on the
    microthreads of several units, interleaved in any order, each in the scratchpad slot of its
    own local id. */
module TileLaunches {
  import opened Complexes
  import opened DivMod
  import opened Launches
  import opened Transposes
  import opened TransposeStages

  /** A place in a tile. */
  datatype Pos = Pos(i: nat, j: nat)

  /** A microthread: its block, the start of its scratchpad slot, and the elements it has still
      to load into the slot and to store from it. */
  datatype Thread = Thread(b: Block, base: nat, loads: seq<Pos>, stores: seq<Pos>)

  /** The places of a tile of so many rows and columns, row after row or column after column. */
  function Places(rows: nat, cols: nat, byRow: bool): (s: seq<Pos>)
    ensures forall x :: x in s <==> x.i < rows && x.j < cols
  {
    if byRow then
      if rows == 0 then [] else Places(rows - 1, cols, true) + Line(rows - 1, cols, true)
    else
      if cols == 0 then [] else Places(rows, cols - 1, false) + Line(cols - 1, rows, false)
  }

  function Line(at: nat, n: nat, byRow: bool): (s: seq<Pos>)
    ensures |s| == n && forall k :: 0 <= k < n ==> s[k] == if byRow then Pos(at, k) else Pos(k, at)
    ensures forall x :: x in s <==> if byRow then x.i == at && x.j < n else x.j == at && x.i < n
  {
    if n == 0 then [] else Line(at, n - 1, byRow) + [if byRow then Pos(at, n - 1) else Pos(n - 1, at)]
  }

  // -------- what holds throughout

  predicate InTile(b: Block, x: Pos) {
    x.i < b.height && x.j < b.width
  }

  ghost predicate Fits(p: Plan, th: Thread, length: nat) {
    && IsBlock(p, th.b) && th.base + p.tileRows * p.tileCols <= length
    && (forall x :: x in th.loads ==> InTile(th.b, x)) && (forall x :: x in th.stores ==> InTile(th.b, x))
  }

  /** The place in the scratchpad of a place in the tile. */
  function SlotOf(p: Plan, th: Thread, x: Pos): nat {
    Spot(th.base + x.i, p.tileRows, x.j)
  }

  /** An element as it is loaded and turned. */
  function Loaded(p: Plan, src: seq<Complex>, table: seq<Complex>, q: nat, r: nat, c: nat): Complex
    requires IsElement(p, q, r, c) && |src| == p.Size() && |table| == p.rows * p.cols
  {
    Inside(p, q, r, c);
    Turned(p, src[SrcIndex(p, q, r, c)], table[TableIndex(p, r, c)])
  }

  ghost predicate HoldsLoaded(p: Plan, src: seq<Complex>, table: seq<Complex>, spad: seq<Complex>, th: Thread, x: Pos)
    requires p.Valid() && IsBlock(p, th.b) && |src| == p.Size() && |table| == p.rows * p.cols
  {
    InTile(th.b, x) && x !in th.loads ==>
      SlotOf(p, th, x) < |spad| && spad[SlotOf(p, th, x)] == Loaded(p, src, table, th.b.q, th.b.row + x.i, th.b.col + x.j)
  }

  ghost predicate HoldsStored(p: Plan, src: seq<Complex>, table: seq<Complex>, dst: seq<Complex>, th: Thread, x: Pos)
    requires p.Valid() && IsBlock(p, th.b) && |src| == |dst| == p.Size() && |table| == p.rows * p.cols
  {
    InTile(th.b, x) && x !in th.stores ==> TransposedAt(p, src, table, dst, th.b.q, th.b.row + x.i, th.b.col + x.j)
  }

  /** What a thread has loaded is in its slot, and what it has stored is in place. */
  ghost predicate ThreadHolds(p: Plan, src: seq<Complex>, table: seq<Complex>, spad: seq<Complex>, dst: seq<Complex>, th: Thread) {
    && p.Valid() && |src| == |dst| == p.Size() && |table| == p.rows * p.cols && Fits(p, th, |spad|)
    && (forall x: Pos :: HoldsLoaded(p, src, table, spad, th, x))
    && (forall x: Pos :: HoldsStored(p, src, table, dst, th, x))
  }

  predicate SlotsApart(p: Plan, th: Thread, th': Thread) {
    th.base + p.tileRows * p.tileCols <= th'.base || th'.base + p.tileRows * p.tileCols <= th.base
  }

  lemma SlotInside(p: Plan, th: Thread, x: Pos)
    requires IsBlock(p, th.b) && InTile(th.b, x)
    ensures th.base <= SlotOf(p, th, x) < th.base + p.tileRows * p.tileCols
  {
    TileInside(p.tileRows, p.tileCols, x.i, x.j);
  }

  lemma SlotsDiffer(p: Plan, th: Thread, x: Pos, y: Pos)
    requires IsBlock(p, th.b) && InTile(th.b, x) && InTile(th.b, y) && SlotOf(p, th, x) == SlotOf(p, th, y)
    ensures x == y
  {
    TileDistinct(p.tileRows, x.i, x.j, y.i, y.j);
  }

  // -------- one step

  /** After one more load by a thread. */
  function AfterLoad(th: Thread): Thread
    requires th.loads != []
  {
    th.(loads := th.loads[1..])
  }

  function AfterStore(th: Thread): Thread
    requires th.stores != []
  {
    th.(stores := th.stores[1..])
  }

  lemma BlockElement(p: Plan, b: Block, x: Pos)
    requires IsBlock(p, b) && InTile(b, x)
    ensures IsElement(p, b.q, b.row + x.i, b.col + x.j)
  {
  }

  /** A load keeps what its own thread holds, and adds to it. */
  lemma LoadKeepsOwn(p: Plan, src: seq<Complex>, table: seq<Complex>, spad: seq<Complex>, dst: seq<Complex>, th: Thread)
    requires ThreadHolds(p, src, table, spad, dst, th) && th.loads != []
    ensures var x := th.loads[0];
            && InTile(th.b, x) && SlotOf(p, th, x) < |spad| && IsElement(p, th.b.q, th.b.row + x.i, th.b.col + x.j)
            && ThreadHolds(p, src, table, spad[SlotOf(p, th, x) := Loaded(p, src, table, th.b.q, th.b.row + x.i, th.b.col + x.j)], dst, AfterLoad(th))
  {
    hide Loaded, TransposedAt, SlotOf, IsBlock;
    var x := th.loads[0];
    assert x in th.loads;
    BlockElement(p, th.b, x);
    SlotInside(p, th, x);
    var spad' := spad[SlotOf(p, th, x) := Loaded(p, src, table, th.b.q, th.b.row + x.i, th.b.col + x.j)];
    var next := AfterLoad(th);
    SlotsKept(p, th, next);
    forall y: Pos ensures HoldsLoaded(p, src, table, spad', next, y) {
      assert HoldsLoaded(p, src, table, spad, th, y);
      if InTile(th.b, y) && y !in next.loads {
        SlotInside(p, th, y);
        if y != x {
          NotFirst(th.loads, y);
        }
      }
      if InTile(th.b, y) && SlotOf(p, th, y) == SlotOf(p, th, x) {
        SlotsDiffer(p, th, x, y);
      }
    }
    forall y: Pos ensures HoldsStored(p, src, table, dst, next, y) {
      assert HoldsStored(p, src, table, dst, th, y);
    }
  }

  lemma SlotsKept(p: Plan, th: Thread, th': Thread)
    requires th.b == th'.b && th.base == th'.base
    ensures forall x: Pos :: SlotOf(p, th', x) == SlotOf(p, th, x)
  {
  }

  lemma NotFirst<T>(s: seq<T>, y: T)
    requires s != [] && y != s[0] && y !in s[1..]
    ensures y !in s
  {
    assert s == [s[0]] + s[1..];
  }

  /** A load leaves what every other thread holds alone. */
  lemma LoadKeepsOthers(p: Plan, src: seq<Complex>, table: seq<Complex>, spad: seq<Complex>, dst: seq<Complex>, th: Thread, other: Thread, x: Pos, v: Complex)
    requires ThreadHolds(p, src, table, spad, dst, other) && SlotsApart(p, th, other) && IsBlock(p, th.b) && InTile(th.b, x)
    requires SlotOf(p, th, x) < |spad|
    ensures ThreadHolds(p, src, table, spad[SlotOf(p, th, x) := v], dst, other)
  {
    hide Loaded, TransposedAt, SlotOf, IsBlock;
    SlotInside(p, th, x);
    var spad' := spad[SlotOf(p, th, x) := v];
    forall y: Pos ensures HoldsLoaded(p, src, table, spad', other, y) {
      assert HoldsLoaded(p, src, table, spad, other, y);
      if InTile(other.b, y) {
        SlotInside(p, other, y);
      }
    }
  }

  /** A store puts the value of an element in place, so no thread minds. */
  lemma StoreKeeps(p: Plan, src: seq<Complex>, table: seq<Complex>, spad: seq<Complex>, dst: seq<Complex>, th: Thread, q: nat, r: nat, c: nat)
    requires ThreadHolds(p, src, table, spad, dst, th) && IsElement(p, q, r, c)
    ensures DstIndex(p, q, r, c) < |dst| && ThreadHolds(p, src, table, spad, dst[DstIndex(p, q, r, c) := Value(p, src, table, q, r, c)], th)
  {
    hide Loaded, Value, SlotOf, IsBlock, DstIndex;
    Inside(p, q, r, c);
    var dst' := dst[DstIndex(p, q, r, c) := Value(p, src, table, q, r, c)];
    forall y: Pos ensures HoldsStored(p, src, table, dst', th, y) {
      assert HoldsStored(p, src, table, dst, th, y);
      if InTile(th.b, y) && y !in th.stores {
        BlockElement(p, th.b, y);
        ValueKept(p, src, table, dst, q, r, c, th.b.q, th.b.row + y.i, th.b.col + y.j);
      }
    }
  }

  lemma ValueKept(p: Plan, src: seq<Complex>, table: seq<Complex>, dst: seq<Complex>, q: nat, r: nat, c: nat, q': nat, r': nat, c': nat)
    requires p.Valid() && IsElement(p, q, r, c) && IsElement(p, q', r', c') && |src| == |dst| == p.Size() && |table| == p.rows * p.cols
    requires DstIndex(p, q, r, c) < |dst| && TransposedAt(p, src, table, dst, q', r', c')
    ensures TransposedAt(p, src, table, dst[DstIndex(p, q, r, c) := Value(p, src, table, q, r, c)], q', r', c')
  {
    hide Value, DstIndex;
    Inside(p, q', r', c');
    if DstIndex(p, q, r, c) == DstIndex(p, q', r', c') {
      DstDistinct(p, q, r, c, q', r', c');
    }
  }

  /** The thread that stored it holds it as stored. */
  lemma StoreAddsOwn(p: Plan, src: seq<Complex>, table: seq<Complex>, spad: seq<Complex>, dst: seq<Complex>, th: Thread)
    requires ThreadHolds(p, src, table, spad, dst, th) && th.stores != []
    requires var x := th.stores[0];
             InTile(th.b, x) && IsElement(p, th.b.q, th.b.row + x.i, th.b.col + x.j) && TransposedAt(p, src, table, dst, th.b.q, th.b.row + x.i, th.b.col + x.j)
    ensures ThreadHolds(p, src, table, spad, dst, AfterStore(th))
  {
    hide Loaded, TransposedAt, SlotOf, IsBlock;
    var next := AfterStore(th);
    SlotsKept(p, th, next);
    forall y: Pos ensures HoldsStored(p, src, table, dst, next, y) {
      assert HoldsStored(p, src, table, dst, th, y);
      if InTile(th.b, y) && y !in next.stores && y != th.stores[0] {
        NotFirst(th.stores, y);
      }
    }
    forall y: Pos ensures HoldsLoaded(p, src, table, spad, next, y) {
      assert HoldsLoaded(p, src, table, spad, th, y);
    }
  }

  /** What a thread that has loaded everything reads back, scaled, is the element's value. */
  lemma ReadsValue(p: Plan, src: seq<Complex>, table: seq<Complex>, spad: seq<Complex>, dst: seq<Complex>, th: Thread)
    requires ThreadHolds(p, src, table, spad, dst, th) && th.loads == [] && th.stores != []
    ensures var x := th.stores[0];
            && InTile(th.b, x) && SlotOf(p, th, x) < |spad| && IsElement(p, th.b.q, th.b.row + x.i, th.b.col + x.j)
            && Scaled(p, spad[SlotOf(p, th, x)]) == Value(p, src, table, th.b.q, th.b.row + x.i, th.b.col + x.j)
  {
    hide SlotOf, Scaled, Turned;
    var x := th.stores[0];
    assert x in th.stores && HoldsLoaded(p, src, table, spad, th, x);
    BlockElement(p, th.b, x);
  }

  // -------- all threads of a launch

  ghost predicate AllHold(p: Plan, src: seq<Complex>, table: seq<Complex>, spad: seq<Complex>, dst: seq<Complex>, threads: seq<Thread>) {
    forall t: nat :: t < |threads| ==> ThreadHolds(p, src, table, spad, dst, threads[t])
  }

  ghost predicate AllApart(p: Plan, threads: seq<Thread>) {
    forall t: nat, u: nat :: t < |threads| && u < |threads| && t != u ==> SlotsApart(p, threads[t], threads[u])
  }

  /** Every thread still has the block and the slot it started with. */
  ghost predicate SameShape(start: seq<Thread>, threads: seq<Thread>) {
    |start| == |threads| && forall t: nat :: t < |start| ==> threads[t].b == start[t].b && threads[t].base == start[t].base
  }

  predicate Finished(th: Thread) {
    th.loads == [] && th.stores == []
  }

  function WorkLeft(threads: seq<Thread>): nat {
    if threads == [] then 0
    else WorkLeft(threads[..|threads| - 1]) + |threads[|threads| - 1].loads| + |threads[|threads| - 1].stores|
  }

  lemma {:induction false} WorkFalls(threads: seq<Thread>, t: nat, next: Thread)
    requires t < |threads| && |next.loads| + |next.stores| < |threads[t].loads| + |threads[t].stores|
    ensures WorkLeft(threads[t := next]) < WorkLeft(threads)
  {
    var n := |threads| - 1;
    if t < n {
      WorkFalls(threads[..n], t, next);
      assert threads[t := next][..n] == threads[..n][t := next];
    } else {
      assert threads[t := next][..n] == threads[..n];
    }
  }

  lemma AllKeepLoad(p: Plan, src: seq<Complex>, table: seq<Complex>, spad: seq<Complex>, dst: seq<Complex>, threads: seq<Thread>, t: nat)
    requires AllHold(p, src, table, spad, dst, threads) && AllApart(p, threads) && t < |threads| && threads[t].loads != []
    ensures var th := threads[t]; var x := th.loads[0];
            && p.Valid() && |src| == p.Size() && |table| == p.rows * p.cols
            && InTile(th.b, x) && SlotOf(p, th, x) < |spad| && IsElement(p, th.b.q, th.b.row + x.i, th.b.col + x.j)
            && AllHold(p, src, table, spad[SlotOf(p, th, x) := Loaded(p, src, table, th.b.q, th.b.row + x.i, th.b.col + x.j)], dst, threads[t := AfterLoad(th)])
  {
    hide Loaded, SlotOf, HoldsLoaded, HoldsStored, SlotsApart;
    var th := threads[t];
    var x := th.loads[0];
    assert ThreadHolds(p, src, table, spad, dst, th);
    LoadKeepsOwn(p, src, table, spad, dst, th);
    var v := Loaded(p, src, table, th.b.q, th.b.row + x.i, th.b.col + x.j);
    var spad' := spad[SlotOf(p, th, x) := v];
    var after := threads[t := AfterLoad(th)];
    forall u: nat | u < |threads| ensures ThreadHolds(p, src, table, spad', dst, after[u]) {
      if u != t {
        assert ThreadHolds(p, src, table, spad, dst, threads[u]);
        LoadKeepsOthers(p, src, table, spad, dst, th, threads[u], x, v);
      }
    }
  }

  lemma AllKeepStore(p: Plan, src: seq<Complex>, table: seq<Complex>, spad: seq<Complex>, dst: seq<Complex>, threads: seq<Thread>, t: nat)
    requires AllHold(p, src, table, spad, dst, threads) && t < |threads| && threads[t].loads == [] && threads[t].stores != []
    ensures var th := threads[t]; var x := th.stores[0];
            && p.Valid() && |src| == p.Size() && |table| == p.rows * p.cols
            && InTile(th.b, x) && SlotOf(p, th, x) < |spad| && IsElement(p, th.b.q, th.b.row + x.i, th.b.col + x.j)
            && DstIndex(p, th.b.q, th.b.row + x.i, th.b.col + x.j) < |dst|
            && AllHold(p, src, table, spad, dst[DstIndex(p, th.b.q, th.b.row + x.i, th.b.col + x.j) := Scaled(p, spad[SlotOf(p, th, x)])],
                       threads[t := AfterStore(th)])
  {
    hide Value, SlotOf, HoldsLoaded, HoldsStored, Scaled, DstIndex;
    var th := threads[t];
    var x := th.stores[0];
    assert ThreadHolds(p, src, table, spad, dst, th);
    ReadsValue(p, src, table, spad, dst, th);
    var q, r, c := th.b.q, th.b.row + x.i, th.b.col + x.j;
    Inside(p, q, r, c);
    var dst' := dst[DstIndex(p, q, r, c) := Value(p, src, table, q, r, c)];
    var after := threads[t := AfterStore(th)];
    forall u: nat | u < |threads| ensures ThreadHolds(p, src, table, spad, dst', after[u]) {
      assert ThreadHolds(p, src, table, spad, dst, threads[u]);
      StoreKeeps(p, src, table, spad, dst, threads[u], q, r, c);
      if u == t {
        StoreAddsOwn(p, src, table, spad, dst', th);
      }
    }
  }

  /** The element is in no thread's block. */
  ghost predicate Spared(threads: seq<Thread>, q: nat, r: nat, c: nat) {
    forall t: nat :: t < |threads| ==> !InBlock(threads[t].b, q, r, c)
  }

  ghost predicate KeptAt(p: Plan, threads: seq<Thread>, before: seq<Complex>, dst: seq<Complex>, q: nat, r: nat, c: nat) {
    IsElement(p, q, r, c) && Spared(threads, q, r, c) && DstIndex(p, q, r, c) < |before| == |dst| ==>
      dst[DstIndex(p, q, r, c)] == before[DstIndex(p, q, r, c)]
  }

  ghost predicate OthersKept(p: Plan, threads: seq<Thread>, before: seq<Complex>, dst: seq<Complex>) {
    |before| == |dst| && forall q: nat, r: nat, c: nat :: KeptAt(p, threads, before, dst, q, r, c)
  }

  lemma StoreSparesOthers(p: Plan, threads: seq<Thread>, before: seq<Complex>, dst: seq<Complex>, t: nat, x: Pos, v: Complex)
    requires OthersKept(p, threads, before, dst) && t < |threads| && IsBlock(p, threads[t].b) && InTile(threads[t].b, x)
    requires DstIndex(p, threads[t].b.q, threads[t].b.row + x.i, threads[t].b.col + x.j) < |dst|
    ensures OthersKept(p, threads, before, dst[DstIndex(p, threads[t].b.q, threads[t].b.row + x.i, threads[t].b.col + x.j) := v])
  {
    hide DstIndex, IsBlock;
    var b := threads[t].b;
    BlockElement(p, b, x);
    var at := DstIndex(p, b.q, b.row + x.i, b.col + x.j);
    var dst' := dst[at := v];
    forall q: nat, r: nat, c: nat ensures KeptAt(p, threads, before, dst', q, r, c) {
      assert KeptAt(p, threads, before, dst, q, r, c);
      if IsElement(p, q, r, c) && Spared(threads, q, r, c) && DstIndex(p, q, r, c) == at {
        DstDistinct(p, q, r, c, b.q, b.row + x.i, b.col + x.j);
      }
    }
  }

  lemma ShapeSpares(p: Plan, start: seq<Thread>, threads: seq<Thread>, before: seq<Complex>, dst: seq<Complex>)
    requires SameShape(start, threads)
    ensures OthersKept(p, start, before, dst) <==> OthersKept(p, threads, before, dst)
  {
    forall q: nat, r: nat, c: nat ensures KeptAt(p, start, before, dst, q, r, c) <==> KeptAt(p, threads, before, dst, q, r, c) {
      assert Spared(start, q, r, c) <==> Spared(threads, q, r, c);
    }
  }

  lemma ShapeApart(p: Plan, start: seq<Thread>, threads: seq<Thread>)
    requires SameShape(start, threads) && AllApart(p, start)
    ensures AllApart(p, threads)
  {
    forall t: nat, u: nat | t < |threads| && u < |threads| && t != u ensures SlotsApart(p, threads[t], threads[u]) {
      assert SlotsApart(p, start[t], start[u]);
    }
  }

  /** One step of an unfinished thread: one element into its slot, or one out of it. */
  method Step(p: Plan, th: Thread, src: array<Complex>, table: array<Complex>, dst: array<Complex>, spad: array<Complex>) returns (next: Thread)
    requires p.Valid() && !Finished(th) && src.Length == dst.Length == p.Size() && table.Length == p.rows * p.cols
    requires var x := if th.loads != [] then th.loads[0] else th.stores[0];
             SlotOf(p, th, x) < spad.Length && IsElement(p, th.b.q, th.b.row + x.i, th.b.col + x.j)
    requires src != dst && src != spad && table != dst && table != spad && dst != spad
    modifies dst, spad
    ensures th.loads != [] ==>
              && next == AfterLoad(th) && dst[..] == old(dst[..])
              && spad[..] == old(spad[..])[SlotOf(p, th, th.loads[0])
                             := Loaded(p, src[..], table[..], th.b.q, th.b.row + th.loads[0].i, th.b.col + th.loads[0].j)]
    ensures th.loads == [] ==>
              var x := th.stores[0];
              && next == AfterStore(th) && spad[..] == old(spad[..]) && DstIndex(p, th.b.q, th.b.row + x.i, th.b.col + x.j) < dst.Length
              && dst[..] == old(dst[..])[DstIndex(p, th.b.q, th.b.row + x.i, th.b.col + x.j) := Scaled(p, old(spad[SlotOf(p, th, x)]))]
  {
    hide SlotOf, Scaled, Turned, SrcIndex, DstIndex, TableIndex;
    var x := if th.loads != [] then th.loads[0] else th.stores[0];
    var q, r, c := th.b.q, th.b.row + x.i, th.b.col + x.j;
    Inside(p, q, r, c);
    if th.loads != [] {
      spad[SlotOf(p, th, x)] := Turned(p, src[SrcIndex(p, q, r, c)], table[TableIndex(p, r, c)]);
      next := AfterLoad(th);
    } else {
      dst[DstIndex(p, q, r, c)] := Scaled(p, spad[SlotOf(p, th, x)]);
      next := AfterStore(th);
    }
  }

  /** Every element of every thread's block is in place. */
  ghost predicate AllLanded(p: Plan, src: seq<Complex>, table: seq<Complex>, dst: seq<Complex>, threads: seq<Thread>) {
    && p.Valid() && |src| == |dst| == p.Size() && |table| == p.rows * p.cols
    && forall t: nat, x: Pos :: t < |threads| && InTile(threads[t].b, x) ==> Landed(p, src, table, dst, threads[t].b, x)
  }

  ghost predicate Landed(p: Plan, src: seq<Complex>, table: seq<Complex>, dst: seq<Complex>, b: Block, x: Pos)
    requires p.Valid() && |src| == |dst| == p.Size() && |table| == p.rows * p.cols
  {
    IsElement(p, b.q, b.row + x.i, b.col + x.j) && TransposedAt(p, src, table, dst, b.q, b.row + x.i, b.col + x.j)
  }

  lemma FinishedLanded(p: Plan, src: seq<Complex>, table: seq<Complex>, spad: seq<Complex>, dst: seq<Complex>, start: seq<Thread>, threads: seq<Thread>)
    requires AllHold(p, src, table, spad, dst, threads) && SameShape(start, threads) && p.Valid()
    requires |src| == |dst| == p.Size() && |table| == p.rows * p.cols
    requires forall t: nat :: t < |threads| ==> Finished(threads[t])
    ensures AllLanded(p, src, table, dst, start)
  {
    hide TransposedAt, IsBlock;
    forall t: nat, x: Pos | t < |start| && InTile(start[t].b, x) ensures Landed(p, src, table, dst, start[t].b, x) {
      assert ThreadHolds(p, src, table, spad, dst, threads[t]) && HoldsStored(p, src, table, dst, threads[t], x);
      BlockElement(p, threads[t].b, x);
    }
  }

  /** Runs a launch to its end, stepping an arbitrary unfinished thread each time. */
  method RunLaunch(p: Plan, start: seq<Thread>, src: array<Complex>, table: array<Complex>, dst: array<Complex>, spad: array<Complex>)
    requires p.Valid() && src.Length == dst.Length == p.Size() && table.Length == p.rows * p.cols
    requires src != dst && src != spad && table != dst && table != spad && dst != spad
    requires AllHold(p, src[..], table[..], spad[..], dst[..], start) && AllApart(p, start)
    modifies dst, spad
    ensures AllLanded(p, src[..], table[..], dst[..], start)
    ensures OthersKept(p, start, old(dst[..]), dst[..])
  {
    hide AllHold, AllApart, OthersKept, Finished, SlotOf, Loaded, Scaled, DstIndex, AllLanded, IsBlock;
    ghost var before := dst[..];
    var threads := start;
    NothingChanged(p, start, before);
    while exists t: nat :: t < |threads| && !Finished(threads[t])
      invariant SameShape(start, threads) && AllHold(p, src[..], table[..], spad[..], dst[..], threads)
      invariant OthersKept(p, start, before, dst[..])
      decreases WorkLeft(threads)
    {
      var t: nat :| t < |threads| && !Finished(threads[t]);
      threads := StepOne(p, start, threads, t, src, table, dst, spad, before);
    }
    FinishedLanded(p, src[..], table[..], spad[..], dst[..], start, threads);
  }

  lemma NothingChanged(p: Plan, start: seq<Thread>, before: seq<Complex>)
    ensures SameShape(start, start) && OthersKept(p, start, before, before)
  {
  }

  method StepOne(p: Plan, ghost start: seq<Thread>, threads: seq<Thread>, t: nat, src: array<Complex>, table: array<Complex>, dst: array<Complex>, spad: array<Complex>,
                 ghost before: seq<Complex>)
    returns (after: seq<Thread>)
    requires p.Valid() && src.Length == dst.Length == p.Size() && table.Length == p.rows * p.cols
    requires src != dst && src != spad && table != dst && table != spad && dst != spad
    requires SameShape(start, threads) && AllHold(p, src[..], table[..], spad[..], dst[..], threads) && AllApart(p, start)
    requires OthersKept(p, start, before, dst[..]) && t < |threads| && !Finished(threads[t])
    modifies dst, spad
    ensures SameShape(start, after) && AllHold(p, src[..], table[..], spad[..], dst[..], after)
    ensures OthersKept(p, start, before, dst[..]) && WorkLeft(after) < WorkLeft(threads)
  {
    hide AllHold, AllApart, OthersKept, SlotOf, Loaded, Scaled, DstIndex, IsBlock, WorkLeft, TransposedAt;
    var th := threads[t];
    ShapeApart(p, start, threads);
    if th.loads != [] {
      AllKeepLoad(p, src[..], table[..], spad[..], dst[..], threads, t);
    } else {
      AllKeepStore(p, src[..], table[..], spad[..], dst[..], threads, t);
      ThreadsBlock(p, src[..], table[..], spad[..], dst[..], threads, t);
      ShapeSpares(p, start, threads, before, dst[..]);
      StoreSparesOthers(p, threads, before, dst[..], t, th.stores[0], Scaled(p, spad[SlotOf(p, th, th.stores[0])]));
    }
    var next := Step(p, th, src, table, dst, spad);
    WorkFalls(threads, t, next);
    after := threads[t := next];
    ShapeSpares(p, start, threads, before, dst[..]);
  }

  lemma ThreadsBlock(p: Plan, src: seq<Complex>, table: seq<Complex>, spad: seq<Complex>, dst: seq<Complex>, threads: seq<Thread>, t: nat)
    requires AllHold(p, src, table, spad, dst, threads) && t < |threads|
    ensures IsBlock(p, threads[t].b)
  {
    assert ThreadHolds(p, src, table, spad, dst, threads[t]);
  }

  // -------- the rounds of a stage

  /** The units of the device, the microthreads a unit's scratchpad has room for, and where the
      launch's pool begins. */
  datatype Target = Target(units: nat, chunk: nat, capacity: nat, from: nat) {
    predicate Valid() {
      units > 0 && chunk > 0
    }
  }

  /** However the pool lies, no unit gets more microthreads of the round than it has room for. */
  predicate HasRoom(g: Target, round: nat)
    requires g.Valid()
  {
    MostPerUnit(round, g.chunk, g.units) <= g.capacity
  }

  lemma StaysInRoom(g: Target, round: nat, i: nat)
    requires g.Valid() && HasRoom(g, round) && i < round
    ensures LocalRank(g.from, i, g.chunk, g.units) < g.capacity
  {
    hide LocalRank, MostPerUnit;
    RankBelow(g.from, round, i, g.chunk, g.units);
  }

  /** A smaller round has room wherever a larger one has. */
  lemma SmallerHasRoom(g: Target, round: nat, smaller: nat)
    requires g.Valid() && HasRoom(g, round) && smaller <= round
    ensures HasRoom(g, smaller)
  {
    hide OnUnit, MostPerUnit;
    SomeUnitGetsThatMany(round, g.chunk, g.units);
    SomeUnitGetsThatMany(smaller, g.chunk, g.units);
    OnUnitSplits(0, smaller, round - smaller, g.chunk, g.units, 0);
  }

  /** The scratchpad slot of microthread i: its local id on its own unit. */
  function SlotNumber(g: Target, i: nat): nat
    requires g.Valid()
  {
    UnitOf(g.from + i, g.chunk, g.units) * g.capacity + LocalRank(g.from, i, g.chunk, g.units)
  }

  /** Later microthreads of a unit have greater local ids. */
  lemma RanksDiffer(from: nat, i: nat, j: nat, chunk: nat, units: nat)
    requires chunk > 0 && units > 0 && i < j && UnitOf(from + i, chunk, units) == UnitOf(from + j, chunk, units)
    ensures LocalRank(from, i, chunk, units) < LocalRank(from, j, chunk, units)
  {
    hide UnitOf;
    var unit := UnitOf(from + i, chunk, units);
    OnUnitSplits(from, i + 1, j - i - 1, chunk, units, unit);
    OnUnitSplits(from, i, 1, chunk, units, unit);
    OnePlace(from + i, chunk, units, unit);
  }

  /** Two microthreads of a round that has room never share a slot. */
  lemma SlotsOfRound(g: Target, round: nat, i: nat, j: nat)
    requires g.Valid() && HasRoom(g, round) && i < j < round
    ensures SlotNumber(g, i) != SlotNumber(g, j)
  {
    hide UnitOf, LocalRank, HasRoom;
    StaysInRoom(g, round, i);
    StaysInRoom(g, round, j);
    var u, v := UnitOf(g.from + i, g.chunk, g.units), UnitOf(g.from + j, g.chunk, g.units);
    if u == v {
      RanksDiffer(g.from, i, j, g.chunk, g.units);
    } else {
      Decode(g.capacity, u, LocalRank(g.from, i, g.chunk, g.units));
      Decode(g.capacity, v, LocalRank(g.from, j, g.chunk, g.units));
      assert u * g.capacity == g.capacity * u && v * g.capacity == g.capacity * v;
    }
  }

  lemma SlotExists(g: Target, round: nat, i: nat)
    requires g.Valid() && HasRoom(g, round) && i < round
    ensures SlotNumber(g, i) < g.units * g.capacity
  {
    hide LocalRank, HasRoom;
    StaysInRoom(g, round, i);
    var u := UnitOf(g.from + i, g.chunk, g.units);
    InRange(g.capacity, g.units, LocalRank(g.from, i, g.chunk, g.units), u);
    assert g.capacity * u == u * g.capacity && g.capacity * g.units == g.units * g.capacity;
  }

  lemma StretchesApart(s: nat, s': nat, size: nat)
    requires s != s'
    ensures s * size + size <= s' * size || s' * size + size <= s * size
  {
    if s < s' {
      Monotone(size, s + 1, s');
      assert size * (s + 1) == s * size + size && size * s' == s' * size;
    } else {
      Monotone(size, s' + 1, s);
      assert size * (s' + 1) == s' * size + size && size * s == s * size;
    }
  }

  lemma StretchFits(s: nat, n: nat, size: nat)
    requires s < n
    ensures s * size + size <= n * size
  {
    Monotone(size, s + 1, n);
    assert size * (s + 1) == s * size + size && size * n == n * size;
  }

  /** What microthread i of a launch starts with: the block of its tile, its slot, everything to do. */
  ghost predicate StartsWith(p: Plan, g: Target, offset: nat, i: nat, th: Thread)
    requires p.Valid() && g.Valid()
  {
    && offset + i < p.Tiles() && th.b == TileBlock(p, offset + i) && IsBlock(p, th.b)
    && th.base == SlotNumber(g, i) * (p.tileRows * p.tileCols)
    && (forall x :: x in th.loads <==> InTile(th.b, x)) && (forall x :: x in th.stores <==> InTile(th.b, x))
  }

  ghost predicate AllStart(p: Plan, g: Target, launch: Launch, threads: seq<Thread>)
    requires p.Valid() && g.Valid()
  {
    |threads| == launch.count && forall i: nat :: i < |threads| ==> StartsWith(p, g, launch.offset, i, threads[i])
  }

  /** The microthreads of one launch.  One whose local id is beyond its unit's room is turned
      away; in a round within the safe size none is. */
  method StartLaunch(p: Plan, t: Tables, g: Target, launch: Launch) returns (threads: seq<Thread>)
    requires p.Valid() && Filled(p, t) && g.Valid() && launch.offset + launch.count <= p.Tiles()
    requires HasRoom(g, launch.count)
    ensures AllStart(p, g, launch, threads)
  {
    hide Filled, LocalRank, HasRoom, CoordinatesOf, Places, IsBlock, Extent, BlockAt, TileOf, InBlock;
    threads := [];
    var i := 0;
    while i < launch.count
      invariant 0 <= i <= launch.count && |threads| == i
      invariant forall k: nat :: k < i ==> StartsWith(p, g, launch.offset, k, threads[k])
    {
      StaysInRoom(g, launch.count, i);
      if LocalRank(g.from, i, g.chunk, g.units) < g.capacity {
        var tile := launch.offset + i;
        var b := BlockOf(p, t, tile);
        threads := threads + [Thread(b, SlotNumber(g, i) * (p.tileRows * p.tileCols), Places(b.height, b.width, true), Places(b.height, b.width, false))];
      }
      i := i + 1;
    }
  }

  /** The block of a tile, by the coordinates and the branch the emitted code takes. */
  method BlockOf(p: Plan, t: Tables, tile: nat) returns (b: Block)
    requires p.Valid() && Filled(p, t) && tile < p.Tiles()
    ensures b == TileBlock(p, tile) && IsBlock(p, b)
  {
    hide Filled, CoordinatesOf, BlockAt, Extent, InBlock, TileOf, IsBlock;
    var at := Locate(p, t, tile);
    TileCells(p, tile);
    var height, width := ChooseBranch(p, at.tr, at.tc);
    BlockShape(p, at);
    b := Block(at.q, at.tr * p.tileRows, height, at.tc * p.tileCols, width);
  }

  lemma StartHolds(p: Plan, g: Target, launch: Launch, src: seq<Complex>, table: seq<Complex>, spad: seq<Complex>, dst: seq<Complex>, threads: seq<Thread>)
    requires p.Valid() && g.Valid() && AllStart(p, g, launch, threads) && HasRoom(g, launch.count)
    requires |src| == |dst| == p.Size() && |table| == p.rows * p.cols && g.units * g.capacity * (p.tileRows * p.tileCols) <= |spad|
    ensures AllHold(p, src, table, spad, dst, threads) && AllApart(p, threads)
  {
    hide SlotNumber, HasRoom, TileBlock, IsBlock, Loaded, TransposedAt, SlotOf;
    var size := p.tileRows * p.tileCols;
    forall i: nat | i < |threads| ensures ThreadHolds(p, src, table, spad, dst, threads[i]) {
      assert StartsWith(p, g, launch.offset, i, threads[i]);
      SlotExists(g, launch.count, i);
      StretchFits(SlotNumber(g, i), g.units * g.capacity, size);
      StartsHolding(p, src, table, spad, dst, threads[i]);
    }
    forall i: nat, j: nat | i < |threads| && j < |threads| && i != j ensures SlotsApart(p, threads[i], threads[j]) {
      assert StartsWith(p, g, launch.offset, i, threads[i]) && StartsWith(p, g, launch.offset, j, threads[j]);
      if i < j {
        SlotsOfRound(g, launch.count, i, j);
      } else {
        SlotsOfRound(g, launch.count, j, i);
      }
      StretchesApart(SlotNumber(g, i), SlotNumber(g, j), size);
    }
  }

  lemma StartsHolding(p: Plan, src: seq<Complex>, table: seq<Complex>, spad: seq<Complex>, dst: seq<Complex>, th: Thread)
    requires p.Valid() && IsBlock(p, th.b) && th.base + p.tileRows * p.tileCols <= |spad|
    requires (forall x :: x in th.loads <==> InTile(th.b, x)) && (forall x :: x in th.stores <==> InTile(th.b, x))
    requires |src| == |dst| == p.Size() && |table| == p.rows * p.cols
    ensures ThreadHolds(p, src, table, spad, dst, th)
  {
  }

  // -------- all rounds

  /** Every element of the first tiles is in place. */
  ghost predicate Reached(p: Plan, src: seq<Complex>, table: seq<Complex>, dst: seq<Complex>, tiles: nat) {
    && p.Valid() && |src| == |dst| == p.Size() && |table| == p.rows * p.cols
    && forall q: nat, r: nat, c: nat :: IsElement(p, q, r, c) && TileOf(p, q, r, c) < tiles ==> TransposedAt(p, src, table, dst, q, r, c)
  }

  /** A round puts its own tiles in place and leaves the earlier ones there. */
  lemma RoundReaches(p: Plan, g: Target, launch: Launch, src: seq<Complex>, table: seq<Complex>, before: seq<Complex>, dst: seq<Complex>, threads: seq<Thread>)
    requires g.Valid() && Reached(p, src, table, before, launch.offset) && AllStart(p, g, launch, threads)
    requires AllLanded(p, src, table, dst, threads) && OthersKept(p, threads, before, dst)
    ensures Reached(p, src, table, dst, launch.offset + launch.count)
  {
    hide TransposedAt, TileOf, SlotNumber, IsBlock, TileBlock, DstIndex;
    forall q: nat, r: nat, c: nat | IsElement(p, q, r, c) && TileOf(p, q, r, c) < launch.offset + launch.count
      ensures TransposedAt(p, src, table, dst, q, r, c)
    {
      var tile := TileOf(p, q, r, c);
      if tile < launch.offset {
        ElementSpared(p, g, launch, threads, q, r, c);
        StaysInPlace(p, src, table, before, dst, threads, q, r, c);
      } else {
        var i := tile - launch.offset;
        assert StartsWith(p, g, launch.offset, i, threads[i]);
        InOwnTile(p, tile, q, r, c);
        var b := threads[i].b;
        assert Landed(p, src, table, dst, b, Pos(r - b.row, c - b.col));
      }
    }
  }

  lemma StaysInPlace(p: Plan, src: seq<Complex>, table: seq<Complex>, before: seq<Complex>, dst: seq<Complex>, threads: seq<Thread>, q: nat, r: nat, c: nat)
    requires p.Valid() && |src| == |before| == |dst| == p.Size() && |table| == p.rows * p.cols && IsElement(p, q, r, c)
    requires TransposedAt(p, src, table, before, q, r, c) && Spared(threads, q, r, c) && OthersKept(p, threads, before, dst)
    ensures TransposedAt(p, src, table, dst, q, r, c)
  {
    hide Value, DstIndex;
    Inside(p, q, r, c);
    assert KeptAt(p, threads, before, dst, q, r, c);
  }

  lemma InOwnTile(p: Plan, tile: nat, q: nat, r: nat, c: nat)
    requires p.Valid() && tile < p.Tiles() && IsElement(p, q, r, c)
    ensures InBlock(TileBlock(p, tile), q, r, c) <==> tile == TileOf(p, q, r, c)
  {
    hide CoordinatesOf, BlockAt, InBlock, TileOf;
    EachElementInOneTile(p, tile, q, r, c);
  }

  lemma ElementSpared(p: Plan, g: Target, launch: Launch, threads: seq<Thread>, q: nat, r: nat, c: nat)
    requires p.Valid() && g.Valid() && AllStart(p, g, launch, threads) && IsElement(p, q, r, c) && TileOf(p, q, r, c) < launch.offset
    ensures Spared(threads, q, r, c)
  {
    hide TileOf, SlotNumber, IsBlock, TileBlock, InBlock;
    forall i: nat | i < |threads| ensures !InBlock(threads[i].b, q, r, c) {
      assert StartsWith(p, g, launch.offset, i, threads[i]);
      InOwnTile(p, launch.offset + i, q, r, c);
    }
  }

  /** The whole stage: however many launches it takes, on however many units, and however the
      microthreads of a launch interleave, every element of every matrix ends up transposed,
      twiddled and scaled. */
  method RunTransposeRounds(p: Plan, t: Tables, g: Target, roundSize: nat, split: bool, src: array<Complex>, table: array<Complex>, dst: array<Complex>, spad: array<Complex>)
    requires p.Valid() && Filled(p, t) && g.Valid() && roundSize > 0 && HasRoom(g, roundSize)
    requires split || p.Tiles() <= roundSize
    requires src.Length == dst.Length == p.Size() && table.Length == p.rows * p.cols
    requires g.units * g.capacity * (p.tileRows * p.tileCols) <= spad.Length
    requires src != dst && src != spad && table != dst && table != spad && dst != spad
    modifies dst, spad
    ensures forall q: nat, r: nat, c: nat :: IsElement(p, q, r, c) ==> TransposedAt(p, src[..], table[..], dst[..], q, r, c)
  {
    hide Filled, HasRoom, TransposedAt, Reached, Plan.Size, Plan.Tiles, RoundCount, RoundAt;
    var launches := HostRounds(p.Tiles(), roundSize);
    NothingReached(p, src[..], table[..], dst[..]);
    var k := 0;
    ghost var done := 0;
    while k < |launches|
      invariant 0 <= k <= |launches|
      invariant done == if k * roundSize < p.Tiles() then k * roundSize else p.Tiles()
      invariant Reached(p, src[..], table[..], dst[..], done)
    {
      RoundFits(p.Tiles(), roundSize, k);
      SmallerHasRoom(g, roundSize, launches[k].count);
      OffsetIsZero(p.Tiles(), roundSize, k);
      RunTiles(p, t, g, if split then launches[k] else Launch(0, launches[k].count), src, table, dst, spad);
      done := launches[k].offset + launches[k].count;
      k := k + 1;
    }
    StartsInside(p.Tiles(), roundSize, k);
    AllReached(p, src[..], table[..], dst[..]);
  }

  /** One launch of the stage. */
  method RunTiles(p: Plan, t: Tables, g: Target, launch: Launch, src: array<Complex>, table: array<Complex>, dst: array<Complex>, spad: array<Complex>)
    requires p.Valid() && Filled(p, t) && g.Valid() && HasRoom(g, launch.count) && launch.offset + launch.count <= p.Tiles()
    requires src.Length == dst.Length == p.Size() && table.Length == p.rows * p.cols
    requires g.units * g.capacity * (p.tileRows * p.tileCols) <= spad.Length
    requires src != dst && src != spad && table != dst && table != spad && dst != spad
    requires Reached(p, src[..], table[..], dst[..], launch.offset)
    modifies dst, spad
    ensures Reached(p, src[..], table[..], dst[..], launch.offset + launch.count)
  {
    hide Filled, HasRoom, TransposedAt, AllStart, AllHold, AllApart, AllLanded, OthersKept, Reached, Plan.Size, Plan.Tiles;
    var threads := StartLaunch(p, t, g, launch);
    StartHolds(p, g, launch, src[..], table[..], spad[..], dst[..], threads);
    ghost var before := dst[..];
    RunLaunch(p, threads, src, table, dst, spad);
    RoundReaches(p, g, launch, src[..], table[..], before, dst[..], threads);
  }

  /** When one round is enough its offset is zero. */
  lemma OffsetIsZero(total: nat, roundSize: nat, k: nat)
    requires roundSize > 0 && k < RoundCount(total, roundSize)
    ensures total <= roundSize ==> RoundAt(total, roundSize, k).offset == 0
  {
    StartsInside(total, roundSize, k);
    if k > 0 {
      Monotone(roundSize, 1, k);
    }
  }

  lemma RoundFits(total: nat, roundSize: nat, k: nat)
    requires roundSize > 0 && k < RoundCount(total, roundSize)
    ensures var launch := RoundAt(total, roundSize, k);
            && launch.offset == k * roundSize < total && launch.count <= roundSize && launch.offset + launch.count <= total
            && launch.offset + launch.count == (if (k + 1) * roundSize < total then (k + 1) * roundSize else total)
  {
    StartsInside(total, roundSize, k);
    assert (k + 1) * roundSize == k * roundSize + roundSize;
  }

  lemma NothingReached(p: Plan, src: seq<Complex>, table: seq<Complex>, dst: seq<Complex>)
    requires p.Valid() && |src| == |dst| == p.Size() && |table| == p.rows * p.cols
    ensures Reached(p, src, table, dst, 0)
  {
  }

  lemma AllReached(p: Plan, src: seq<Complex>, table: seq<Complex>, dst: seq<Complex>)
    requires p.Valid() && Reached(p, src, table, dst, p.Tiles())
    ensures |src| == |dst| == p.Size() && |table| == p.rows * p.cols
    ensures forall q: nat, r: nat, c: nat :: IsElement(p, q, r, c) ==> TransposedAt(p, src, table, dst, q, r, c)
  {
    hide TransposedAt, TileOf;
    forall q: nat, r: nat, c: nat | IsElement(p, q, r, c) ensures TransposedAt(p, src, table, dst, q, r, c) {
      TileExists(p, q, r, c);
    }
  }
}
