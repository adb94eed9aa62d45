/** One kernel of a chain, launched over all its rows: whatever the layouts it reads and writes,
    every row's transform ends up, scaled or turned, where the plan stores it. */
module ChainLaunches {
  import opened ChainTables
  import opened Chains
  import opened Complexes
  import opened Fourier
  import opened Launches
  import opened Layouts
  import opened Memories
  import opened RecursiveHosts
  import opened RecursiveTrees
  import opened Stockham
  import LoopStages
  import StageRuns
  import K = Kernels

  predicate Turns(w: Writing) {
    w.Crossed? || w.Peeled?
  }

  /** The planned kernel of a link: strides from the layouts, the table as seen from a row's base. */
  function KernelFor(o: Options, inverse: bool, radices: seq<nat>, pingPong: bool, g: Link, reading: Reading, w: Writing,
                     full: nat, scaled: bool, table: seq<Complex>, row: nat): K.Kernel
    requires Fits(g, w) && full > 0
  {
    var base := StoreBase(g, w, row);
    K.Kernel(o.constants, inverse, radices, o.simdLanes, pingPong, LoadStride(g, reading), StoreStride(g, w), Turns(w),
             if w.Natural? && scaled then Some(1.0 / (full as real)) else None, offset => At(table, base + offset))
  }

  /** What a microthread finds at the addresses of its own row. */
  function LoadedRow(s: seq<Complex>, stride: nat): (m: Memory)
    requires stride > 0
    ensures forall a: nat :: a < |s| ==> Read(m, Cell(Input, a * stride)) == s[a]
  {
    OffsetsDiffer(stride);
    map a | 0 <= a < |s| :: Cell(Input, a * stride) := s[a]
  }

  lemma OffsetsDiffer(stride: nat)
    requires stride > 0
    ensures forall a: int, b: int :: a * stride == b * stride ==> a == b
  {
    forall a: int, b: int | a * stride == b * stride ensures a == b {
      assert (a - b) * stride == 0;
    }
  }

  lemma KernelIsValid(o: Options, inverse: bool, radices: seq<nat>, pingPong: bool, g: Link, reading: Reading, w: Writing,
                      full: nat, scaled: bool, table: seq<Complex>, row: nat)
    requires ValidOptions(o) && SupportedRadices(radices, pingPong) && Fits(g, w) && full > 0
    ensures var k := KernelFor(o, inverse, radices, pingPong, g, reading, w, full, scaled, table, row);
            K.Valid(k) && (|k.radices| <= 2 || k.pingPong) && k.inStride > 0 && k.outStride > 0 && K.Points(k) == Product(radices) && o.minFull > 0
  {
    WidthPositive(g);
    if w.Peeled? {
      assert g.Width() * w.next > 0;
    }
  }

  /** What the kernel leaves for output e is what the plan asks of it. */
  lemma OutputStored(o: Options, inverse: bool, radices: seq<nat>, pingPong: bool, g: Link, reading: Reading, w: Writing,
                     full: nat, scaled: bool, table: seq<Complex>, row: nat, y: seq<Complex>, m: Memory, e: nat)
    requires Fits(g, w) && full > 0 && row < g.Rows() && e < g.l
    requires Turns(w) ==> TableAgrees(o.constants.turn, inverse, g, w, full, table)
    requires K.Transformed(KernelFor(o, inverse, radices, pingPong, g, reading, w, full, scaled, table, row), m, RowInputs(g, reading, y, row))
    ensures Read(m, Cell(Output, e * StoreStride(g, w)))
            == Outgoing(o.constants.turn, inverse, g, w, full, scaled, row, e,
                        Dft(o.constants.turn, inverse, RowInputs(g, reading, y, row), e))
  {
    hide *;
    var k := KernelFor(o, inverse, radices, pingPong, g, reading, w, full, scaled, table, row);
    var x := RowInputs(g, reading, y, row);
    K.TransformedIs(k, m, x, e);
    KernelParts(o, inverse, radices, pingPong, g, reading, w, full, scaled, table, row);
    OutputFinished(o, inverse, radices, pingPong, g, reading, w, full, scaled, table, row, e, Dft(o.constants.turn, inverse, x, e));
  }

  lemma KernelParts(o: Options, inverse: bool, radices: seq<nat>, pingPong: bool, g: Link, reading: Reading, w: Writing,
                    full: nat, scaled: bool, table: seq<Complex>, row: nat)
    requires Fits(g, w) && full > 0
    ensures var k := KernelFor(o, inverse, radices, pingPong, g, reading, w, full, scaled, table, row);
            k.constants == o.constants && k.inverse == inverse && k.outStride == StoreStride(g, w)
  {
  }

  lemma OutputFinished(o: Options, inverse: bool, radices: seq<nat>, pingPong: bool, g: Link, reading: Reading, w: Writing,
                       full: nat, scaled: bool, table: seq<Complex>, row: nat, e: nat, v: Complex)
    requires Fits(g, w) && full > 0 && row < g.Rows() && e < g.l
    requires Turns(w) ==> TableAgrees(o.constants.turn, inverse, g, w, full, table)
    ensures K.Finished(KernelFor(o, inverse, radices, pingPong, g, reading, w, full, scaled, table, row), v, e * StoreStride(g, w))
            == Outgoing(o.constants.turn, inverse, g, w, full, scaled, row, e, v)
  {
    hide Rot, Exponent, StoreBase, StoreStride, Mul;
    var k := KernelFor(o, inverse, radices, pingPong, g, reading, w, full, scaled, table, row);
    var offset := e * StoreStride(g, w);
    assert offset == StoreStride(g, w) * e;
    if Turns(w) {
      assert TableAt(o.constants.turn, inverse, g, w, full, table, row, e);
      assert k.large && k.scale == None;
      assert k.table(offset) == At(table, StoreBase(g, w, row) + offset);
    }
  }

  ghost predicate RowStored(t: Turn, inverse: bool, g: Link, reading: Reading, w: Writing, full: nat, scaled: bool,
                            y: seq<Complex>, y': seq<Complex>, row: nat)
    requires Fits(g, w) && full > 0
  {
    forall e: nat :: e < g.l ==> StoredAt(t, inverse, g, reading, w, full, scaled, y, y', row, e)
  }

  /** No output of the row is stored at the address. */
  ghost predicate Misses(g: Link, w: Writing, row: nat, n: nat, addr: int)
    requires Fits(g, w)
  {
    forall e: nat :: e < n ==> StoreAt(g, w, row, e) != addr
  }

  /** One microthread: its row is loaded, transformed and stored, and nothing else is touched. */
  method RunRow(o: Options, inverse: bool, radices: seq<nat>, pingPong: bool, g: Link, reading: Reading, w: Writing,
                full: nat, scaled: bool, table: seq<Complex>, row: nat, src: array<Complex>, dst: array<Complex>)
    requires ValidOptions(o) && SupportedRadices(radices, pingPong) && g.l == Product(radices)
    requires Fits(g, w) && full > 0 && row < g.Rows() && src != dst && src.Length == dst.Length == g.Total()
    requires Turns(w) ==> TableAgrees(o.constants.turn, inverse, g, w, full, table)
    modifies dst
    ensures RowStored(o.constants.turn, inverse, g, reading, w, full, scaled, src[..], dst[..], row)
    ensures forall i :: 0 <= i < dst.Length && Misses(g, w, row, g.l, i) ==> dst[i] == old(dst[i])
  {
    hide Dft, K.Transformed, RowInputs, StoreAt, StoreStride, LoadStride, TableAgrees, Fits, Product, ValidOptions, SupportedRadices, Outgoing, LoadedRow;
    var x := RowInputs(g, reading, src[..], row);
    KernelIsValid(o, inverse, radices, pingPong, g, reading, w, full, scaled, table, row);
    var kernel := KernelFor(o, inverse, radices, pingPong, g, reading, w, full, scaled, table, row);
    var machine := new StageRuns.Machine(LoadedRow(x, LoadStride(g, reading)));
    var rows := new LoopStages.TwiddleTable();
    var widths := Widths(o, |radices|);
    K.RunKernel(kernel, x, machine, rows, widths, o.minFull, o.compact);
    var m := machine.memory;
    var k := 0;
    while k < g.l
      invariant 0 <= k <= g.l
      invariant forall e: nat :: e < k ==> 0 <= StoreAt(g, w, row, e) < dst.Length && dst[StoreAt(g, w, row, e)] == Read(m, Cell(Output, e * StoreStride(g, w)))
      invariant forall i :: 0 <= i < dst.Length && Misses(g, w, row, k, i) ==> dst[i] == old(dst[i])
    {
      RowSpreads(g, w, row, k);
      dst[StoreAt(g, w, row, k)] := Read(m, Cell(Output, k * StoreStride(g, w)));
      k := k + 1;
    }
    forall e: nat | e < g.l ensures StoredAt(o.constants.turn, inverse, g, reading, w, full, scaled, src[..], dst[..], row, e) {
      OutputStored(o, inverse, radices, pingPong, g, reading, w, full, scaled, table, row, src[..], m, e);
    }
  }

  /** The width of each stage. */
  function Widths(o: Options, n: nat): (s: seq<nat>)
    requires ValidOptions(o)
    ensures |s| == n && forall i :: 0 <= i < n ==> s[i] > 0
  {
    seq(n, i requires 0 <= i < n => o.width(i))
  }

  /** The outputs of a row are stored in different places of the buffer. */
  lemma RowSpreads(g: Link, w: Writing, row: nat, k: nat)
    requires Fits(g, w) && row < g.Rows() && k < g.l
    ensures 0 <= StoreAt(g, w, row, k) < g.Total()
    ensures forall e: nat :: e < k ==> StoreAt(g, w, row, e) != StoreAt(g, w, row, k)
  {
    hide StoreAt, HeldAt;
    StoreInverts(g, w, row, k);
    forall e: nat | e < k ensures StoreAt(g, w, row, e) != StoreAt(g, w, row, k) {
      if StoreAt(g, w, row, e) == StoreAt(g, w, row, k) {
        StoredApart(g, w, row, e, row, k);
      }
    }
  }

  /** All rows of a kernel, in a single launch from wherever its pool begins: a microthread whose
      unit has no room for it returns, and the host has to see to it that none has to. */
  method LaunchKernel(o: Options, inverse: bool, radices: seq<nat>, pingPong: bool, capacity: nat, g: Link, reading: Reading, w: Writing,
                      full: nat, scaled: bool, table: seq<Complex>, src: array<Complex>, dst: array<Complex>)
    requires ValidOptions(o) && SupportedRadices(radices, pingPong) && g.l == Product(radices)
    requires Fits(g, w) && full > 0 && src != dst && src.Length == dst.Length == g.Total()
    requires Turns(w) ==> TableAgrees(o.constants.turn, inverse, g, w, full, table)
    requires MostPerUnit(g.Rows(), o.chunk, o.units) <= capacity
    modifies dst
    ensures Stores(o.constants.turn, inverse, g, reading, w, full, scaled, src[..], dst[..])
  {
    hide RowStored, Misses, TableAgrees, Fits, Product, ValidOptions, SupportedRadices, MostPerUnit, LocalRank;
    DeviceIsReal(o);
    var pool: nat, row: nat := *, 0;
    while row < g.Rows()
      invariant 0 <= row <= g.Rows()
      invariant forall r: nat :: r < row ==> RowStored(o.constants.turn, inverse, g, reading, w, full, scaled, src[..], dst[..], r)
    {
      ghost var before := dst[..];
      RankBelow(pool, g.Rows(), row, o.chunk, o.units);
      if LocalRank(pool, row, o.chunk, o.units) < capacity {
        RunRow(o, inverse, radices, pingPong, g, reading, w, full, scaled, table, row, src, dst);
      }
      forall r: nat | r < row ensures RowStored(o.constants.turn, inverse, g, reading, w, full, scaled, src[..], dst[..], r) {
        RowSurvives(o.constants.turn, inverse, g, reading, w, full, scaled, src[..], before, dst[..], r, row);
      }
      row := row + 1;
    }
    AllStored(o.constants.turn, inverse, g, reading, w, full, scaled, src[..], dst[..]);
  }

  lemma RowSurvives(t: Turn, inverse: bool, g: Link, reading: Reading, w: Writing, full: nat, scaled: bool,
                    y: seq<Complex>, before: seq<Complex>, after: seq<Complex>, row: nat, other: nat)
    requires Fits(g, w) && full > 0 && row < g.Rows() && other < g.Rows() && row != other && |before| == |after|
    requires RowStored(t, inverse, g, reading, w, full, scaled, y, before, row)
    requires forall i :: 0 <= i < |before| && Misses(g, w, other, g.l, i) ==> after[i] == before[i]
    ensures RowStored(t, inverse, g, reading, w, full, scaled, y, after, row)
  {
    hide StoreAt, Dft, RowInputs, Outgoing, Fits;
    forall e: nat | e < g.l ensures StoredAt(t, inverse, g, reading, w, full, scaled, y, after, row, e) {
      assert StoredAt(t, inverse, g, reading, w, full, scaled, y, before, row, e);
      forall e': nat | e' < g.l ensures StoreAt(g, w, other, e') != StoreAt(g, w, row, e) {
        if StoreAt(g, w, other, e') == StoreAt(g, w, row, e) {
          StoredApart(g, w, other, e', row, e);
        }
      }
    }
  }

  lemma AllStored(t: Turn, inverse: bool, g: Link, reading: Reading, w: Writing, full: nat, scaled: bool, y: seq<Complex>, y': seq<Complex>)
    requires Fits(g, w) && full > 0 && |y| == |y'| == g.Total()
    requires forall row: nat :: row < g.Rows() ==> RowStored(t, inverse, g, reading, w, full, scaled, y, y', row)
    ensures Stores(t, inverse, g, reading, w, full, scaled, y, y')
  {
    hide StoredAt;
    forall row: nat, e: nat | row < g.Rows() && e < g.l ensures StoredAt(t, inverse, g, reading, w, full, scaled, y, y', row, e) {
      assert RowStored(t, inverse, g, reading, w, full, scaled, y, y', row);
    }
  }
}
