/** Balanced plans: a chain for each side of the length, joined either by a crossing store or by
    a transpose of its own.  Both compute the transform of the whole length. */
module BalancedHosts {
  import opened ChainHosts
  import opened ChainLaunches
  import opened Chains
  import opened Complexes
  import opened DivMod
  import opened Fourier
  import opened Launches
  import opened Layouts
  import opened NearFarTransposes
  import opened RecursiveHosts
  import opened RecursiveTrees
  import opened Stockham
  import L = TileLaunches

  // -------- the two sides

  /** What the far side transforms: for each output of the near side, that output of every near
      transform, turned. */
  function Crossings(t: Turn, inverse: bool, x: seq<Complex>, near: nat, far: nat): Signals {
    i => Across(t, inverse, x, far, near, i)
  }

  /** Once the far side has transformed the crossings, the whole is transformed. */
  lemma FarSideEnds(t: Turn, inverse: bool, x: seq<Complex>, near: nat, far: nat, signals: Signals, g: Link, y: seq<Complex>)
    requires IsTurn(t) && near > 0 && far > 0 && |x| == |y| == far * near > 0
    requires g.c == near && g.a * g.l == far
    requires forall i: nat :: i < near ==> signals(i) == Crossings(t, inverse, x, near, far)(i)
    requires Leaves(t, inverse, signals, g, Natural, |x|, inverse, y)
    ensures Transforms(t, inverse, |x|, 1, inverse, x, y)
  {
    hide IsTurn, Dft, Row, EndsAt, Across;
    assert Row(x, |x|, 0) == x by {
      WholeRow(x);
    }
    forall q: nat, k: nat | q < 1 && k < |x| ensures TransformAt(t, inverse, |x|, inverse, x, y, q, k) {
      Recompose(k, near);
      assert far * near == near * far;
      Below(k, near, far);
      assert EndsAt(t, inverse, signals, g, |x|, inverse, y, k % near, k / near);
      OutputEnds(t, inverse, x, near, far, signals, g, y, k % near, k / near, k);
    }
  }

  lemma WholeRow(x: seq<Complex>)
    ensures Row(x, |x|, 0) == x
  {
  }

  lemma OutputEnds(t: Turn, inverse: bool, x: seq<Complex>, near: nat, far: nat, signals: Signals, g: Link, y: seq<Complex>, i: nat, k: nat, e: nat)
    requires IsTurn(t) && near > 0 && far > 0 && |x| == |y| == far * near > 0 && g.c == near && i < near && k < far && e == i + near * k
    requires signals(i) == Across(t, inverse, x, far, near, i) && EndsAt(t, inverse, signals, g, |x|, inverse, y, i, k)
    ensures Place(0, |x|, e) < |y| && y[Place(0, |x|, e)] == Finish(inverse, |x|, Dft(t, inverse, x, e))
  {
    hide IsTurn, Dft, Across;
    CooleyTukey(t, inverse, x, far, near, k, i);
  }

  // -------- joined by a crossing store

  /** After a crossing, every near-length-th value is what the far side transforms. */
  lemma CrossingInterleaves(t: Turn, inverse: bool, x: seq<Complex>, near: nat, far: nat, g: Link, y: seq<Complex>, i: nat)
    requires near > 0 && far > 0 && |x| == |y| == far * near && g.c == far && g.a * g.l == near && i < near
    requires |x| > 0 && Leaves(t, inverse, Interleaved(x, far, near), g, Crossed, |x|, false, y)
    ensures Interleaved(y, near, far)(i) == Crossings(t, inverse, x, near, far)(i)
  {
    hide Dft, Rot;
    forall j: nat | j < far ensures Stride(y, near, far, i)[j] == Across(t, inverse, x, far, near, i)[j] {
      assert CrossedAt(t, inverse, Interleaved(x, far, near), g, |x|, y, j, i);
      assert j * near + i == i + near * j;
    }
  }

  lemma SidesFit(o: Options, near: seq<Chunk>, far: seq<Chunk>)
    requires ValidOptions(o) && SupportedChunks(near) && SupportedChunks(far)
    ensures IsTurn(o.constants.turn) && near != [] && far != []
    ensures AllPositive(Lengths(near)) && AllPositive(Lengths(far)) && Product(Lengths(near)) > 0 && Product(Lengths(far)) > 0
    ensures Product(Lengths(far)) * Product(Lengths(near)) == Product(Lengths(near)) * Product(Lengths(far)) > 0
  {
    hide IsTurn;
    LengthsPositive(near);
    LengthsPositive(far);
  }

  /** A balanced plan: the near side's last kernel stores crossed over. */
  method RunBalanced(o: Options, near: seq<Chunk>, far: seq<Chunk>, inverse: bool, input: array<Complex>, output: array<Complex>)
    requires ValidOptions(o) && SupportedChunks(near) && SupportedChunks(far)
    requires input != output && input.Length == output.Length == Product(Lengths(far)) * Product(Lengths(near))
    requires HaveRoom(o, near, input.Length) && HaveRoom(o, far, input.Length)
    modifies output
    ensures Transforms(o.constants.turn, inverse, input.Length, 1, inverse, input[..], output[..])
  {
    hide ValidOptions, SupportedChunks, Arranged, Leaves, LinkAt, IsTurn, Transforms, Lengths, Interleaved, Product, Crossings, HaveRoom;
    SidesFit(o, near, far);
    var nearLength, farLength := Product(Lengths(near)), Product(Lengths(far));
    ghost var t, x := o.constants.turn, input[..];
    FirstLink(Lengths(near), farLength);
    ChainStart(t, inverse, x, LinkAt(Lengths(near), farLength, 0));
    var middle := new Complex[input.Length];
    RunChain(o, near, farLength, Spread, Crossed, inverse, false, Interleaved(x, farLength, nearLength), input, middle);
    LastLink(Lengths(near), farLength);
    ghost var y := middle[..];
    forall i: nat | i < nearLength ensures Interleaved(y, nearLength, farLength)(i) == Crossings(t, inverse, x, nearLength, farLength)(i) {
      CrossingInterleaves(t, inverse, x, nearLength, farLength, LinkAt(Lengths(near), farLength, |near| - 1), y, i);
    }
    FirstLink(Lengths(far), nearLength);
    ChainStart(t, inverse, y, LinkAt(Lengths(far), nearLength, 0));
    RunChain(o, far, nearLength, Spread, Natural, inverse, inverse, Interleaved(y, nearLength, farLength), middle, output);
    LastLink(Lengths(far), nearLength);
    FarSideEnds(t, inverse, x, nearLength, farLength, Interleaved(y, nearLength, farLength), LinkAt(Lengths(far), nearLength, |far| - 1), output[..]);
  }

  // -------- joined by a transpose

  /** The boundary between the last link of the near side and the first one of the far side. */
  function Between(g: Link, h: Link): Boundary {
    Boundary(g.l, h.l, g.a, h.r)
  }

  /** What crosses over is where the first far kernel looks for it. */
  lemma CrossedOverIsSignal(t: Turn, inverse: bool, x: seq<Complex>, g: Link, h: Link, y: seq<Complex>, table: seq<Complex>, z: seq<Complex>, i: nat, b: nat, d: nat)
    requires g.Valid() && h.Valid() && g.c == h.l * h.r && h.c == g.a * g.l && h.a == 1 && g.r == 1
    requires |x| == |y| == |table| == |z| == g.c * h.c && Between(g, h).Size() == |x| && Between(g, h).FarSide() > 0
    requires Leaves(t, inverse, Interleaved(x, g.c, h.c), g, Plain, |x|, false, y)
    requires forall row: nat, en: nat :: row < Between(g, h).FarSide() * g.a && en < g.l ==> TurnAt(t, inverse, Between(g, h), table, row, en)
    requires forall p: Element :: Inside(Between(g, h), p) ==> CrossedOver(Between(g, h), y, table, z, p)
    requires i < h.c && b < h.r && d < h.l
    ensures SignalAt(Crossings(t, inverse, x, h.c, g.c), h, z, i, b, d)
  {
    hide Dft, Rot, Mul, NearRow, FarRow, TurnAt, CrossedOver, PlainAt, SignalAt;
    var e := Between(g, h);
    Recompose(i, g.a);
    Below(i, g.a, g.l);
    var p := Element(i % g.a, b, i / g.a, d);
    assert Inside(e, p) && CrossedOver(e, y, table, z, p);
    NearRowDigits(e, p.prefix, p.rest, p.ef);
    FarRowDigits(e, p.prefix, p.rest, p.en);
    assert TurnAt(t, inverse, e, table, NearRow(e, p.prefix, p.rest, p.ef), p.en);
    FetchedTurn(t, inverse, e, table, p);
    var batch := d * h.r + b;
    InRange(h.r, h.l, b, d);
    assert h.r * d == d * h.r && h.r * h.l == h.l * h.r;
    assert PlainAt(t, inverse, Interleaved(x, g.c, h.c), g, y, batch, p.prefix, p.en);
    ElementCrosses(t, inverse, x, g, h, y, table, z, i, b, d, p, batch);
  }

  lemma ElementCrosses(t: Turn, inverse: bool, x: seq<Complex>, g: Link, h: Link, y: seq<Complex>, table: seq<Complex>, z: seq<Complex>,
                       i: nat, b: nat, d: nat, p: Element, batch: nat)
    requires g.Valid() && h.Valid() && g.c == h.l * h.r && h.c == g.a * g.l && h.a == 1
    requires |x| == Between(g, h).Size() && i < h.c && batch == d * h.r + b < g.c
    requires p == Element(i % g.a, b, i / g.a, d) && i == p.prefix + g.a * p.en
    requires CrossedOver(Between(g, h), y, table, z, p)
    requires NearAt(Between(g, h), p) < |table| && table[NearAt(Between(g, h), p)] == Rot(t, inverse, batch * i, |x|)
    requires PlainAt(t, inverse, Interleaved(x, g.c, h.c), g, y, batch, p.prefix, p.en)
    ensures SignalAt(Crossings(t, inverse, x, h.c, g.c), h, z, i, b, d)
  {
    hide Dft, Rot, Mul, Stride;
    NearPlace(g, h, p, batch);
    FarPlace(g, h, p, i, b);
  }

  lemma NearPlace(g: Link, h: Link, p: Element, batch: nat)
    requires g.c == h.l * h.r && batch == p.ef * h.r + p.rest
    ensures NearAt(Between(g, h), p) == (batch + g.c * p.prefix) * g.l + p.en
  {
  }

  lemma FarPlace(g: Link, h: Link, p: Element, i: nat, b: nat)
    requires h.c == g.a * g.l && i == p.prefix + g.a * p.en && p.rest == b
    ensures FarAt(Between(g, h), p) == (i + h.c * b) * h.l + p.ef
  {
    assert g.l * g.a == g.a * g.l;
  }

  lemma CrossingsSized(t: Turn, inverse: bool, x: seq<Complex>, h: Link, far: nat)
    requires h.a == 1 && far == h.l * h.r
    ensures Sized(Crossings(t, inverse, x, h.c, far), h)
  {
  }

  /** Every value crosses over to where the far side's first kernel expects it. */
  lemma BoundaryArranges(t: Turn, inverse: bool, x: seq<Complex>, g: Link, h: Link, y: seq<Complex>, table: seq<Complex>, z: seq<Complex>)
    requires IsTurn(t) && g.Valid() && h.Valid() && g.c == h.l * h.r && h.c == g.a * g.l && h.a == 1 && g.r == 1
    requires |x| == |y| == |table| == |z| == g.c * h.c == h.Total() && Between(g, h).Size() == |x| && Between(g, h).FarSide() > 0
    requires Leaves(t, inverse, Interleaved(x, g.c, h.c), g, Plain, |x|, false, y)
    requires forall row: nat, en: nat :: row < Between(g, h).FarSide() * g.a && en < g.l ==> TurnAt(t, inverse, Between(g, h), table, row, en)
    requires forall p: Element :: Inside(Between(g, h), p) ==> CrossedOver(Between(g, h), y, table, z, p)
    ensures Arranged(t, inverse, Crossings(t, inverse, x, h.c, g.c), h, Packed, z)
  {
    hide IsTurn, Leaves, TurnAt, CrossedOver, SignalAt, Crossings, Interleaved;
    var signals := Crossings(t, inverse, x, h.c, g.c);
    CrossingsSized(t, inverse, x, h, g.c);
    forall i: nat, b: nat, d: nat | i < h.c && b < h.r && d < h.l ensures SignalAt(signals, h, z, i, b, d) {
      CrossedOverIsSignal(t, inverse, x, g, h, y, table, z, i, b, d);
    }
    PackedStart(t, inverse, signals, h, z);
  }

  lemma BoundaryFits(g: Link, h: Link)
    requires g.Valid() && h.Valid() && g.c == h.l * h.r && h.c == g.a * g.l
    ensures Between(g, h).Valid() && Between(g, h).Size() == g.c * h.c && Between(g, h).FarSide() > 0
  {
    assert g.l * g.a * (h.l * h.r) == (h.l * h.r) * (g.a * g.l);
  }

  /** One tile for every digit of the near side but its last kernel's and of the far side but its
      first kernel's. */
  function TilesBetween(near: seq<Chunk>, far: seq<Chunk>): nat
    requires near != [] && far != []
  {
    Product(Lengths(near)[..|near| - 1]) * Product(Lengths(far)[1..])
  }

  lemma TilesAre(near: seq<Chunk>, far: seq<Chunk>, c: nat, d: nat)
    requires near != [] && far != []
    ensures Between(LinkAt(Lengths(near), c, |near| - 1), LinkAt(Lengths(far), d, 0)).Tiles() == TilesBetween(near, far)
  {
    hide Product;
  }

  predicate TilesHaveRoom(o: Options, tiles: nat, room: nat) {
    o.chunk > 0 && o.units > 0 && MostPerUnit(tiles, o.chunk, o.units) <= room
  }

  /** The boundary, launched once from wherever its pool begins. */
  method LaunchBoundary(o: Options, room: nat, b: Boundary, src: array<Complex>, table: array<Complex>, dst: array<Complex>)
    requires b.Valid() && src.Length == table.Length == dst.Length == b.Size() && src != dst && table != dst
    requires TilesHaveRoom(o, b.Tiles(), room)
    modifies dst
    ensures forall p: Element :: Inside(b, p) ==> CrossedOver(b, src[..], table[..], dst[..], p)
  {
    hide CrossedOver, Inside, MostPerUnit;
    var pool: nat, size: nat := *, b.far * b.near;
    var spad := new Complex[o.units * room * size];
    RunBoundary(b, L.Target(o.units, o.chunk, room, pool), src, table, dst, spad);
  }

  /** A balanced plan with a transpose of its own: both sides keep to their own layouts. */
  method RunBalancedTransposed(o: Options, near: seq<Chunk>, far: seq<Chunk>, room: nat, inverse: bool, input: array<Complex>, output: array<Complex>)
    requires ValidOptions(o) && SupportedChunks(near) && SupportedChunks(far)
    requires input != output && input.Length == output.Length == Product(Lengths(far)) * Product(Lengths(near))
    requires HaveRoom(o, near, input.Length) && HaveRoom(o, far, input.Length)
    requires near != [] && far != [] && TilesHaveRoom(o, TilesBetween(near, far), room)
    modifies output
    ensures Transforms(o.constants.turn, inverse, input.Length, 1, inverse, input[..], output[..])
  {
    hide ValidOptions, SupportedChunks, Arranged, Leaves, LinkAt, IsTurn, Transforms, Lengths, Interleaved, Product, Crossings, TurnAt, CrossedOver, Inside, HaveRoom, TilesHaveRoom;
    SidesFit(o, near, far);
    var nearLength, farLength := Product(Lengths(near)), Product(Lengths(far));
    ghost var t, x := o.constants.turn, input[..];
    FirstLink(Lengths(near), farLength);
    ChainStart(t, inverse, x, LinkAt(Lengths(near), farLength, 0));
    var left, right := new Complex[input.Length], new Complex[input.Length];
    RunChain(o, near, farLength, Spread, Plain, inverse, false, Interleaved(x, farLength, nearLength), input, left);
    LastLink(Lengths(near), farLength);
    FirstLink(Lengths(far), nearLength);
    var g, h := LinkAt(Lengths(near), farLength, |near| - 1), LinkAt(Lengths(far), nearLength, 0);
    BoundaryFits(g, h);
    var b := Between(g, h);
    var table := new Complex[b.Size()];
    FillTurns(o.constants.turn, inverse, b, table);
    TilesAre(near, far, farLength, nearLength);
    LaunchBoundary(o, room, b, left, table, right);
    BoundaryArranges(t, inverse, x, g, h, left[..], table[..], right[..]);
    RunChain(o, far, nearLength, Packed, Natural, inverse, inverse, Crossings(t, inverse, x, nearLength, farLength), right, output);
    LastLink(Lengths(far), nearLength);
    FarSideEnds(t, inverse, x, nearLength, farLength, Crossings(t, inverse, x, nearLength, farLength), LinkAt(Lengths(far), nearLength, |far| - 1), output[..]);
  }
}
