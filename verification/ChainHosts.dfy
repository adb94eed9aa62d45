/** The host of a chain of kernels: one buffer and one twiddle table between each kernel and the
    next, and the transform of the whole length in the output. */
module ChainHosts {
  import opened ChainLaunches
  import opened Chains
  import opened ChainTables
  import opened Complexes
  import opened DivMod
  import opened Fourier
  import opened Launches
  import opened Layouts
  import opened RecursiveHosts
  import opened RecursiveTrees
  import opened Stockham
  import K = Kernels

  /** One kernel's radices, whether it has two buffers, and the rows a unit has room for. */
  datatype Chunk = Chunk(radices: seq<nat>, pingPong: bool, capacity: nat)

  predicate SupportedChunks(chunks: seq<Chunk>) {
    chunks != [] && forall i :: 0 <= i < |chunks| ==> SupportedRadices(chunks[i].radices, chunks[i].pingPong)
  }

  /** Launched at once, the rows of a kernel never crowd a unit: exactly when every one runs. */
  predicate HaveRoom(o: Options, chunks: seq<Chunk>, n: nat) {
    && o.chunk > 0 && o.units > 0
    && forall i :: 0 <= i < |chunks| ==> HasRoom(o, chunks[i], n)
  }

  predicate HasRoom(o: Options, chunk: Chunk, n: nat)
    requires o.chunk > 0 && o.units > 0
  {
    Product(chunk.radices) > 0 && MostPerUnit(n / Product(chunk.radices), o.chunk, o.units) <= chunk.capacity
  }

  function Lengths(chunks: seq<Chunk>): (s: seq<nat>)
    ensures |s| == |chunks|
  {
    seq(|chunks|, i requires 0 <= i < |chunks| => Product(chunks[i].radices))
  }

  lemma LengthsPositive(chunks: seq<Chunk>)
    requires SupportedChunks(chunks)
    ensures AllPositive(Lengths(chunks)) && Product(Lengths(chunks)) > 0
  {
    forall i | 0 <= i < |chunks| ensures Lengths(chunks)[i] > 0 {
      assert SupportedRadices(chunks[i].radices, chunks[i].pingPong);
      ProductPositive(chunks[i].radices);
    }
    ProductPositive(Lengths(chunks));
  }

  // -------- the links of a chain

  function LinkAt(lengths: seq<nat>, c: nat, i: nat): Link
    requires i < |lengths|
  {
    Link(c, Product(lengths[..i]), lengths[i], Product(lengths[i + 1..]))
  }

  function WritingAt(lengths: seq<nat>, last: Writing, i: nat): Writing
    requires i < |lengths|
  {
    if i == |lengths| - 1 then last else Peeled(lengths[i + 1], Product(lengths[i + 2..]))
  }

  function ReadingAt(first: Reading, i: nat): Reading {
    if i == 0 then first else Packed
  }

  /** Each link hands over to the next, and all are over the whole length. */
  lemma LinksFit(lengths: seq<nat>, c: nat, last: Writing, i: nat)
    requires AllPositive(lengths) && i < |lengths| && c > 0 && !last.Peeled?
    ensures Fits(LinkAt(lengths, c, i), WritingAt(lengths, last, i))
    ensures LinkAt(lengths, c, i).Total() == c * Product(lengths) > 0
    ensures i < |lengths| - 1 ==> Next(LinkAt(lengths, c, i), WritingAt(lengths, last, i)) == LinkAt(lengths, c, i + 1)
    ensures i == |lengths| - 1 ==> LinkAt(lengths, c, i).a * LinkAt(lengths, c, i).l == Product(lengths)
  {
    hide Product, Fits;
    LinkIsValid(lengths, c, i);
    if i < |lengths| - 1 {
      HandsOver(lengths, c, last, i);
    } else {
      assert lengths[i + 1..] == [];
      assert lengths[..i + 1] == lengths;
      LastProducts(lengths);
    }
    LinkFits(LinkAt(lengths, c, i), WritingAt(lengths, last, i));
  }

  lemma LinkFits(g: Link, w: Writing)
    requires g.Valid() && (w.Peeled? ==> w.next > 0 && w.tail > 0 && g.r == w.next * w.tail) && (!w.Peeled? ==> g.r == 1)
    ensures Fits(g, w)
  {
  }

  lemma LastProducts(lengths: seq<nat>)
    requires lengths != []
    ensures Product([]) == 1 && Product(lengths[..|lengths| - 1]) * lengths[|lengths| - 1] == Product(lengths)
  {
  }

  lemma LinkIsValid(lengths: seq<nat>, c: nat, i: nat)
    requires AllPositive(lengths) && i < |lengths| && c > 0
    ensures LinkAt(lengths, c, i).Valid() && LinkAt(lengths, c, i).Total() == c * Product(lengths) > 0
  {
    hide Product;
    ProductPositive(lengths[..i]);
    ProductPositive(lengths[i + 1..]);
    LinkTotal(lengths, c, i);
    Whole(LinkAt(lengths, c, i));
    WidthPositive(LinkAt(lengths, c, i));
  }

  /** What one kernel peels off is what the next one transforms. */
  lemma HandsOver(lengths: seq<nat>, c: nat, last: Writing, i: nat)
    requires AllPositive(lengths) && i < |lengths| - 1
    ensures Next(LinkAt(lengths, c, i), WritingAt(lengths, last, i)) == LinkAt(lengths, c, i + 1)
    ensures var w := WritingAt(lengths, last, i);
            w.next > 0 && w.tail > 0 && LinkAt(lengths, c, i).r == w.next * w.tail
  {
    hide Product;
    ProductPositive(lengths[i + 2..]);
    K.FirstFactor(lengths[i + 1..]);
    assert lengths[i + 1..][1..] == lengths[i + 2..];
    assert lengths[..i + 1][..i] == lengths[..i];
    LastProducts(lengths[..i + 1]);
  }

  lemma LinkTotal(lengths: seq<nat>, c: nat, i: nat)
    requires i < |lengths|
    ensures Product(lengths) == Product(lengths[..i]) * (lengths[i] * Product(lengths[i + 1..]))
  {
    K.ProductSplits(lengths, i);
    K.FirstFactor(lengths[i..]);
    assert lengths[i..][1..] == lengths[i + 1..];
  }

  // -------- the chain

  /** What the last kernel leaves, by the way it stores. */
  ghost predicate Leaves(t: Turn, inverse: bool, signals: Signals, g: Link, last: Writing, full: nat, scaled: bool, y: seq<Complex>)
    requires full > 0
  {
    match last
    case Natural => forall i: nat, k: nat :: i < g.c && k < g.a * g.l ==> EndsAt(t, inverse, signals, g, full, scaled, y, i, k)
    case Crossed => forall i: nat, k: nat :: i < g.c && k < g.a * g.l ==> CrossedAt(t, inverse, signals, g, full, y, i, k)
    case Plain => forall i: nat, done: nat, e: nat :: i < g.c && done < g.a && e < g.l ==> PlainAt(t, inverse, signals, g, y, i, done, e)
    case Peeled(_, _) => false
  }

  lemma ChainLeaves(t: Turn, inverse: bool, signals: Signals, g: Link, reading: Reading, last: Writing, scaled: bool, y: seq<Complex>, y': seq<Complex>)
    requires IsTurn(t) && Arranged(t, inverse, signals, g, reading, y) && !last.Peeled?
    requires Stores(t, inverse, g, reading, last, g.Total(), scaled, y, y')
    ensures g.Total() > 0 && Leaves(t, inverse, signals, g, last, g.Total(), scaled, y')
  {
    hide IsTurn, Arranged, Stores, EndsAt, CrossedAt, PlainAt;
    StoresTotal(t, inverse, g, reading, last, g.Total(), scaled, y, y');
    match last
    case Natural => ChainEnds(t, inverse, signals, g, reading, g.Total(), scaled, y, y');
    case Crossed => ChainCrosses(t, inverse, signals, g, reading, g.Total(), scaled, y, y');
    case Plain => ChainStaysPlain(t, inverse, signals, g, reading, g.Total(), scaled, y, y');
  }

  lemma StoresTotal(t: Turn, inverse: bool, g: Link, reading: Reading, w: Writing, full: nat, scaled: bool, y: seq<Complex>, y': seq<Complex>)
    requires Stores(t, inverse, g, reading, w, full, scaled, y, y')
    ensures full > 0 && Fits(g, w)
  {
  }

  /** All kernels of a chain, each with its table, through buffers of their own. */
  method RunChain(o: Options, chunks: seq<Chunk>, c: nat, first: Reading, last: Writing, inverse: bool, scaled: bool, ghost signals: Signals,
                  src: array<Complex>, dst: array<Complex>)
    requires ValidOptions(o) && SupportedChunks(chunks) && c > 0 && !last.Peeled?
    requires src != dst && src.Length == dst.Length == c * Product(Lengths(chunks)) && HaveRoom(o, chunks, dst.Length)
    requires Arranged(o.constants.turn, inverse, signals, LinkAt(Lengths(chunks), c, 0), first, src[..])
    modifies dst
    ensures dst.Length > 0
    ensures Leaves(o.constants.turn, inverse, signals, LinkAt(Lengths(chunks), c, |chunks| - 1), last, dst.Length, scaled, dst[..])
  {
    hide Arranged, Stores, Leaves, Fits, TableAgrees, LinkAt, WritingAt, ValidOptions, SupportedRadices, SupportedChunks, Product, IsTurn, Lengths, HaveRoom, MostPerUnit;
    var lengths := Lengths(chunks);
    ChunksAre(o, chunks);
    ghost var t := o.constants.turn;
    var from := src;
    var i := 0;
    while i < |chunks| - 1
      invariant 0 <= i < |chunks| && from != dst && from.Length == dst.Length
      invariant Arranged(t, inverse, signals, LinkAt(lengths, c, i), ReadingAt(first, i), from[..])
    {
      LinksFit(lengths, c, last, i);
      LinkIsPeeled(chunks, c, last, i);
      LinkHasRoom(o, chunks, c, i, dst.Length);
      var g, w := LinkAt(lengths, c, i), WritingAt(lengths, last, i);
      var table, next := new Complex[dst.Length], new Complex[dst.Length];
      ghost var written := FillPeeled(o.constants.turn, inverse, g, w, g.Total(), table);
      LaunchKernel(o, inverse, chunks[i].radices, chunks[i].pingPong, chunks[i].capacity, g, ReadingAt(first, i), w, g.Total(), scaled, table[..], from, next);
      ChainStep(t, inverse, signals, g, ReadingAt(first, i), w, scaled, from[..], next[..]);
      from := next;
      i := i + 1;
    }
    LinksFit(lengths, c, last, i);
    LinkIsLast(chunks, c, last);
    LinkHasRoom(o, chunks, c, i, dst.Length);
    var g := LinkAt(lengths, c, i);
    var table := new Complex[dst.Length];
    if last.Crossed? {
      FillCrossed(o.constants.turn, inverse, g, g.Total(), table);
    }
    LaunchKernel(o, inverse, chunks[i].radices, chunks[i].pingPong, chunks[i].capacity, g, ReadingAt(first, i), last, g.Total(), scaled, table[..], from, dst);
    ChainLeaves(t, inverse, signals, g, ReadingAt(first, i), last, scaled, from[..], dst[..]);
  }

  lemma LinkHasRoom(o: Options, chunks: seq<Chunk>, c: nat, i: nat, n: nat)
    requires HaveRoom(o, chunks, n) && i < |chunks| && LinkAt(Lengths(chunks), c, i).Total() == n
    ensures o.chunk > 0 && o.units > 0
    ensures MostPerUnit(LinkAt(Lengths(chunks), c, i).Rows(), o.chunk, o.units) <= chunks[i].capacity
  {
    hide Product, MostPerUnit;
    assert HasRoom(o, chunks[i], n);
    var g := LinkAt(Lengths(chunks), c, i);
    assert g.Total() == g.l * g.Rows();
    Decode(g.l, g.Rows(), 0);
  }

  lemma ChunksAre(o: Options, chunks: seq<Chunk>)
    requires ValidOptions(o) && SupportedChunks(chunks)
    ensures chunks != [] && AllPositive(Lengths(chunks)) && IsTurn(o.constants.turn)
  {
    hide IsTurn;
    LengthsPositive(chunks);
  }

  lemma LinkIsPeeled(chunks: seq<Chunk>, c: nat, last: Writing, i: nat)
    requires SupportedChunks(chunks) && i < |chunks| - 1
    ensures WritingAt(Lengths(chunks), last, i).Peeled? && LinkAt(Lengths(chunks), c, i).l == Product(chunks[i].radices)
    ensures SupportedRadices(chunks[i].radices, chunks[i].pingPong)
  {
  }

  lemma LinkIsLast(chunks: seq<Chunk>, c: nat, last: Writing)
    requires SupportedChunks(chunks)
    ensures var i := |chunks| - 1;
            WritingAt(Lengths(chunks), last, i) == last && LinkAt(Lengths(chunks), c, i).l == Product(chunks[i].radices)
            && SupportedRadices(chunks[i].radices, chunks[i].pingPong)
  {
  }

  // -------- one side

  /** A multi-kernel plan: however the length is cut into kernels, the output is its transform,
      in natural order, scaled once for the inverse.  Each kernel is launched once for all its
      rows, so no unit may get more of them than it has room for. */
  method RunMultiKernel(o: Options, chunks: seq<Chunk>, inverse: bool, input: array<Complex>, output: array<Complex>)
    requires ValidOptions(o) && SupportedChunks(chunks)
    requires input != output && input.Length == output.Length == Product(Lengths(chunks)) && HaveRoom(o, chunks, input.Length)
    modifies output
    ensures Transforms(o.constants.turn, inverse, input.Length, 1, inverse, input[..], output[..])
  {
    hide ValidOptions, SupportedChunks, Arranged, Leaves, LinkAt, IsTurn, Transforms, Lengths, Interleaved, HaveRoom;
    ChunksAre(o, chunks);
    ghost var lengths, x := Lengths(chunks), input[..];
    FirstLink(lengths, 1);
    ChainStart(o.constants.turn, inverse, x, LinkAt(lengths, 1, 0));
    RunChain(o, chunks, 1, Spread, Natural, inverse, inverse, Interleaved(x, 1, |x|), input, output);
    LastLink(lengths, 1);
    SingleSignal(o.constants.turn, inverse, x, LinkAt(lengths, 1, |chunks| - 1), output[..]);
  }

  lemma FirstLink(lengths: seq<nat>, c: nat)
    requires AllPositive(lengths) && lengths != [] && c > 0
    ensures var g := LinkAt(lengths, c, 0);
            g.Valid() && g.c == c && g.a == 1 && g.l * g.r == Product(lengths) && g.Total() == c * Product(lengths) > 0
  {
    LinksFit(lengths, c, Natural, 0);
    assert lengths[..0] == [];
    LinkTotal(lengths, c, 0);
  }

  lemma LastLink(lengths: seq<nat>, c: nat)
    requires AllPositive(lengths) && lengths != [] && c > 0
    ensures var g := LinkAt(lengths, c, |lengths| - 1);
            g.Valid() && g.c == c && g.a * g.l == Product(lengths) && g.r == 1
  {
    LinksFit(lengths, c, Natural, |lengths| - 1);
    assert lengths[|lengths|..] == [];
  }

  lemma SingleSignal(t: Turn, inverse: bool, x: seq<Complex>, g: Link, y: seq<Complex>)
    requires |x| == |y| == g.a * g.l > 0 && g.c == 1
    requires Leaves(t, inverse, Interleaved(x, 1, |x|), g, Natural, |x|, inverse, y)
    ensures Transforms(t, inverse, |x|, 1, inverse, x, y)
  {
    hide Dft;
    var n := |x|;
    assert Stride(x, 1, n, 0) == x == Row(x, n, 0);
    forall q: nat, k: nat | q < 1 && k < n ensures TransformAt(t, inverse, n, inverse, x, y, q, k) {
      assert EndsAt(t, inverse, Interleaved(x, 1, n), g, n, inverse, y, 0, k);
      assert 0 + 1 * k == Place(0, n, k);
    }
  }
}
