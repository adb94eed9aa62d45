/** A transpose stage: which block each tile id names, however its coordinates are obtained, that
    the blocks of all tiles cover every element once, and the twiddle table of the host. */
module TransposeStages {
  import opened Complexes
  import opened DivMod
  import opened Fourier
  import opened Transposes

  // -------- coordinates of a tile

  datatype Coordinates = Coordinates(q: nat, tr: nat, tc: nat)

  /** The tables the host fills when a coordinate cannot be had by a division on the device. */
  datatype Tables = Tables(needsQ: bool, needsTr: bool, q: seq<nat>, tr: seq<nat>)

  predicate Filled(p: Plan, t: Tables)
    requires p.Valid()
  {
    && (t.needsQ ==> |t.q| == p.Tiles() && p.TilesPerReplica() > 0
                     && forall i :: 0 <= i < |t.q| ==> t.q[i] == i / p.TilesPerReplica())
    && (t.needsTr ==> |t.tr| == p.TilesPerReplica() && p.GridCols() > 0
                      && forall i :: 0 <= i < |t.tr| ==> t.tr[i] == i / p.GridCols())
  }

  /** The quotients of 0, ..., n - 1 by d. */
  method FillQuotients(n: nat, d: nat) returns (s: seq<nat>)
    requires d > 0
    ensures |s| == n && forall i :: 0 <= i < n ==> s[i] == i / d
  {
    s := [];
    var i := 0;
    while i < n
      invariant 0 <= i <= n && |s| == i && forall k :: 0 <= k < i ==> s[k] == k / d
    {
      s := s + [i / d];
      i := i + 1;
    }
  }

  /** Both coordinate tables, as the host fills them. */
  method FillTables(p: Plan, needsQ: bool, needsTr: bool) returns (t: Tables)
    requires p.Valid()
    ensures Filled(p, t) && t.needsQ == needsQ && t.needsTr == needsTr
  {
    GridPositive(p);
    var q: seq<nat>, tr: seq<nat> := [], [];
    if needsQ {
      q := FillQuotients(p.Tiles(), p.TilesPerReplica());
    }
    if needsTr {
      tr := FillQuotients(p.TilesPerReplica(), p.GridCols());
    }
    t := Tables(needsQ, needsTr, q, tr);
  }

  lemma GridPositive(p: Plan)
    requires p.Valid()
    ensures p.GridRows() > 0 && p.GridCols() > 0 && p.TilesPerReplica() > 0
  {
    Below(p.rows + p.tileRows - 1, p.tileRows, 1);
    Below(p.cols + p.tileCols - 1, p.tileCols, 1);
    Monotone(p.GridRows(), 1, p.GridCols());
  }

  /** As emitted: no division by one, a division, or a table and a multiplication back. */
  method Locate(p: Plan, t: Tables, tile: nat) returns (c: Coordinates)
    requires p.Valid() && Filled(p, t) && tile < p.Tiles()
    ensures c == CoordinatesOf(p, tile)
  {
    GridPositive(p);
    TileInReplica(p, tile);
    var q, local := SplitOff(tile, p.TilesPerReplica(), p.replicas == 1, t.needsQ, t.q);
    var tr, tc := SplitOff(local, p.GridCols(), p.GridCols() == 1, t.needsTr, t.tr);
    c := Coordinates(q, tr, tc);
  }

  /** Quotient and remainder of n by d, by the form the emitter chose. */
  method SplitOff(n: nat, d: nat, trivial: bool, looked: bool, table: seq<nat>) returns (q: nat, r: nat)
    requires d > 0
    requires trivial ==> (d == 1 || n / d == 0)
    requires looked && !trivial ==> n < |table| && table[n] == n / d
    ensures q == n / d && r == n % d
  {
    Recompose(n, d);
    if trivial && d == 1 {
      q, r := n, 0;
    } else if trivial {
      q, r := 0, n;
    } else if !looked {
      q, r := n / d, n % d;
    } else {
      q := table[n];
      r := n - q * d;
    }
  }

  function CoordinatesOf(p: Plan, tile: nat): Coordinates
    requires p.Valid()
  {
    hide Plan.TilesPerReplica, Plan.GridCols;
    GridPositive(p);
    Coordinates(tile / p.TilesPerReplica(), tile % p.TilesPerReplica() / p.GridCols(), tile % p.TilesPerReplica() % p.GridCols())
  }

  lemma TileInReplica(p: Plan, tile: nat)
    requires p.Valid() && tile < p.Tiles()
    ensures p.TilesPerReplica() > 0 && tile / p.TilesPerReplica() < p.replicas && tile % p.TilesPerReplica() < p.TilesPerReplica()
    ensures p.replicas == 1 ==> tile / p.TilesPerReplica() == 0 && tile % p.TilesPerReplica() == tile
  {
    hide Plan.TilesPerReplica;
    GridPositive(p);
    assert p.Tiles() == p.TilesPerReplica() * p.replicas;
    Below(tile, p.TilesPerReplica(), p.replicas);
    Recompose(tile, p.TilesPerReplica());
  }

  lemma InGrid(p: Plan, tile: nat)
    requires p.Valid() && tile < p.Tiles()
    ensures var c := CoordinatesOf(p, tile); c.q < p.replicas && c.tr < p.GridRows() && c.tc < p.GridCols()
  {
    GridPositive(p);
    TileInReplica(p, tile);
    var local := tile % p.TilesPerReplica();
    assert p.TilesPerReplica() == p.GridCols() * p.GridRows();
    Below(local, p.GridCols(), p.GridRows());
    Recompose(local, p.GridCols());
  }

  function TileAt(p: Plan, q: nat, tr: nat, tc: nat): nat
    requires p.Valid()
  {
    tc + p.GridCols() * (tr + p.GridRows() * q)
  }

  /** Coordinates and tile ids determine each other. */
  lemma TilesAreCoordinates(p: Plan, tile: nat, q: nat, tr: nat, tc: nat)
    requires p.Valid() && tr < p.GridRows() && tc < p.GridCols()
    ensures CoordinatesOf(p, tile) == Coordinates(q, tr, tc) <==> tile == TileAt(p, q, tr, tc)
    ensures q < p.replicas ==> TileAt(p, q, tr, tc) < p.Tiles()
  {
    GridPositive(p);
    var cols, rows, n := p.GridCols(), p.GridRows(), p.TilesPerReplica();
    var local := tc + cols * tr;
    assert n == cols * rows;
    TileSplits(cols, rows, tr, q);
    InRange(cols, rows, tc, tr);
    Decode(n, q, local);
    Decode(cols, tr, tc);
    if CoordinatesOf(p, tile) == Coordinates(q, tr, tc) {
      Recompose(tile, n);
      Recompose(tile % n, cols);
    }
    if q < p.replicas {
      InRange(n, p.replicas, local, q);
      assert n * p.replicas == p.Tiles();
    }
  }

  lemma TileSplits(cols: nat, rows: nat, tr: nat, q: nat)
    ensures cols * (tr + rows * q) == cols * tr + (cols * rows) * q
  {
    assert cols * (tr + rows * q) == cols * tr + cols * (rows * q);
    assert cols * (rows * q) == (cols * rows) * q;
  }

  // -------- the block of a tile

  /** How many of a tile's rows, or columns, exist: fewer in the last tile of an uneven side. */
  function Extent(n: nat, tile: nat, grid: nat, at: nat): int
    requires tile > 0
  {
    if n % tile != 0 && at == grid - 1 then n - (grid - 1) * tile else tile
  }

  /** The emitted branches, most particular first. */
  method ChooseBranch(p: Plan, tr: nat, tc: nat) returns (height: int, width: int)
    requires p.Valid()
    ensures height == Extent(p.rows, p.tileRows, p.GridRows(), tr) && width == Extent(p.cols, p.tileCols, p.GridCols(), tc)
  {
    var rowTail, colTail := p.rows % p.tileRows != 0, p.cols % p.tileCols != 0;
    var tailRows, tailCols := p.rows - (p.GridRows() - 1) * p.tileRows, p.cols - (p.GridCols() - 1) * p.tileCols;
    if !rowTail && !colTail {
      height, width := p.tileRows, p.tileCols;
    } else if rowTail && colTail && tr == p.GridRows() - 1 && tc == p.GridCols() - 1 {
      height, width := tailRows, tailCols;
    } else if rowTail && tr == p.GridRows() - 1 {
      height, width := tailRows, p.tileCols;
    } else if colTail && tc == p.GridCols() - 1 {
      height, width := p.tileRows, tailCols;
    } else {
      height, width := p.tileRows, p.tileCols;
    }
  }

  /** Along one side the tiles cover each index once, the tail included. */
  lemma SideCovered(n: nat, tile: nat, grid: nat, at: nat, i: nat)
    requires n > 0 && tile > 0 && grid == (n + tile - 1) / tile && at < grid
    ensures 0 < Extent(n, tile, grid, at) <= tile && at * tile + Extent(n, tile, grid, at) <= n
    ensures i < n ==> (at * tile <= i < at * tile + Extent(n, tile, grid, at) <==> at == i / tile)
    ensures i < n ==> i / tile < grid
  {
    hide Extent;
    ExtentIs(n, tile, grid, at);
    if i < n {
      InLastTile(n, tile, grid, i);
      if at * tile <= i < at * tile + tile {
        InStretch(tile, at, i);
      }
    }
  }

  lemma InStretch(tile: nat, at: nat, i: nat)
    requires at * tile <= i < at * tile + tile
    ensures at == i / tile
  {
    Decode(tile, at, i - at * tile);
    assert tile * at == at * tile;
  }

  /** Every tile but the last is whole; the last one ends where the side does. */
  lemma ExtentIs(n: nat, tile: nat, grid: nat, at: nat)
    requires n > 0 && tile > 0 && grid == (n + tile - 1) / tile && at < grid
    ensures 0 < Extent(n, tile, grid, at) <= tile && at * tile + Extent(n, tile, grid, at) <= n
    ensures at < grid - 1 ==> Extent(n, tile, grid, at) == tile
    ensures at == grid - 1 ==> at * tile + Extent(n, tile, grid, at) == n
  {
    LastTile(n, tile, grid);
    if at == grid - 1 {
      WholeTiles(n, tile, grid);
    } else {
      Monotone(tile, at + 1, grid - 1);
      assert tile * (at + 1) == at * tile + tile && tile * (grid - 1) == (grid - 1) * tile;
    }
  }

  lemma LastTile(n: nat, tile: nat, grid: nat)
    requires n > 0 && tile > 0 && grid == (n + tile - 1) / tile
    ensures grid > 0 && (grid - 1) * tile < n <= (grid - 1) * tile + tile
  {
    Recompose(n + tile - 1, tile);
    Below(n + tile - 1, tile, 1);
    assert tile * grid == (grid - 1) * tile + tile;
  }

  /** The last tile is whole exactly when the side is a whole number of tiles. */
  lemma WholeTiles(n: nat, tile: nat, grid: nat)
    requires n > 0 && tile > 0 && grid == (n + tile - 1) / tile
    ensures n % tile == 0 <==> n == (grid - 1) * tile + tile
  {
    LastTile(n, tile, grid);
    var rest := n - (grid - 1) * tile;
    assert tile * (grid - 1) == (grid - 1) * tile;
    if rest == tile {
      Decode(tile, grid, 0);
      assert tile * grid == tile * (grid - 1) + tile;
    } else {
      Decode(tile, grid - 1, rest);
    }
  }

  lemma InLastTile(n: nat, tile: nat, grid: nat, i: nat)
    requires n > 0 && tile > 0 && grid == (n + tile - 1) / tile && i < n
    ensures i / tile < grid && (i / tile) * tile <= i < (i / tile) * tile + tile
  {
    LastTile(n, tile, grid);
    Recompose(i, tile);
    assert tile * (i / tile) == (i / tile) * tile && tile * grid == (grid - 1) * tile + tile;
    Below(i, tile, grid);
  }

  function BlockAt(p: Plan, c: Coordinates): Block
    requires p.Valid() && c.tr < p.GridRows() && c.tc < p.GridCols()
  {
    SideCovered(p.rows, p.tileRows, p.GridRows(), c.tr, 0);
    SideCovered(p.cols, p.tileCols, p.GridCols(), c.tc, 0);
    Block(c.q, c.tr * p.tileRows, Extent(p.rows, p.tileRows, p.GridRows(), c.tr),
          c.tc * p.tileCols, Extent(p.cols, p.tileCols, p.GridCols(), c.tc))
  }

  /** A tile's block stays inside its matrix, tails and corner included. */
  lemma BlockFits(p: Plan, c: Coordinates)
    requires p.Valid() && c.q < p.replicas && c.tr < p.GridRows() && c.tc < p.GridCols()
    ensures IsBlock(p, BlockAt(p, c))
  {
    SideCovered(p.rows, p.tileRows, p.GridRows(), c.tr, 0);
    SideCovered(p.cols, p.tileCols, p.GridCols(), c.tc, 0);
  }

  /** The tile that moves element (r, c) of matrix q. */
  function TileOf(p: Plan, q: nat, r: nat, c: nat): nat
    requires p.Valid()
  {
    TileAt(p, q, r / p.tileRows, c / p.tileCols)
  }

  /** Every element lies in the block of exactly one tile. */
  lemma EachElementInOneTile(p: Plan, tile: nat, q: nat, r: nat, c: nat)
    requires p.Valid() && tile < p.Tiles() && IsElement(p, q, r, c)
    ensures var at := CoordinatesOf(p, tile);
            && at.q < p.replicas && at.tr < p.GridRows() && at.tc < p.GridCols()
            && (InBlock(BlockAt(p, at), q, r, c) <==> tile == TileOf(p, q, r, c))
    ensures TileOf(p, q, r, c) < p.Tiles()
  {
    hide CoordinatesOf, BlockAt, InBlock, TileAt, Plan.GridRows, Plan.GridCols, Plan.TilesPerReplica;
    InGrid(p, tile);
    var at := CoordinatesOf(p, tile);
    BlockHolds(p, at, q, r, c);
    SidesInGrid(p, r, c);
    TilesAreCoordinates(p, tile, q, r / p.tileRows, c / p.tileCols);
  }

  lemma SidesInGrid(p: Plan, r: nat, c: nat)
    requires p.Valid() && r < p.rows && c < p.cols
    ensures r / p.tileRows < p.GridRows() && c / p.tileCols < p.GridCols()
  {
    GridPositive(p);
    SideCovered(p.rows, p.tileRows, p.GridRows(), 0, r);
    SideCovered(p.cols, p.tileCols, p.GridCols(), 0, c);
  }

  lemma BlockHolds(p: Plan, at: Coordinates, q: nat, r: nat, c: nat)
    requires p.Valid() && at.tr < p.GridRows() && at.tc < p.GridCols() && r < p.rows && c < p.cols
    ensures InBlock(BlockAt(p, at), q, r, c) <==> at.q == q && at.tr == r / p.tileRows && at.tc == c / p.tileCols
  {
    hide Extent;
    SideCovered(p.rows, p.tileRows, p.GridRows(), at.tr, r);
    SideCovered(p.cols, p.tileCols, p.GridCols(), at.tc, c);
  }

  lemma TileCells(p: Plan, tile: nat)
    requires p.Valid() && tile < p.Tiles()
    ensures var at := CoordinatesOf(p, tile);
            at.q < p.replicas && at.tr < p.GridRows() && at.tc < p.GridCols() && IsBlock(p, BlockAt(p, at))
  {
    hide CoordinatesOf, BlockAt, IsBlock;
    InGrid(p, tile);
    BlockFits(p, CoordinatesOf(p, tile));
  }

  function TileBlock(p: Plan, tile: nat): Block
    requires p.Valid() && tile < p.Tiles()
  {
    InGrid(p, tile);
    BlockAt(p, CoordinatesOf(p, tile))
  }

  lemma BlockShape(p: Plan, c: Coordinates)
    requires p.Valid() && c.tr < p.GridRows() && c.tc < p.GridCols()
    ensures Extent(p.rows, p.tileRows, p.GridRows(), c.tr) >= 0 && Extent(p.cols, p.tileCols, p.GridCols(), c.tc) >= 0
    ensures BlockAt(p, c) == Block(c.q, c.tr * p.tileRows, Extent(p.rows, p.tileRows, p.GridRows(), c.tr),
                                   c.tc * p.tileCols, Extent(p.cols, p.tileCols, p.GridCols(), c.tc))
  {
    SideCovered(p.rows, p.tileRows, p.GridRows(), c.tr, 0);
    SideCovered(p.cols, p.tileCols, p.GridCols(), c.tc, 0);
  }

  lemma TileExists(p: Plan, q: nat, r: nat, c: nat)
    requires p.Valid() && IsElement(p, q, r, c)
    ensures TileOf(p, q, r, c) < p.Tiles()
  {
    GridPositive(p);
    SideCovered(p.rows, p.tileRows, p.GridRows(), 0, r);
    SideCovered(p.cols, p.tileCols, p.GridCols(), 0, c);
    TilesAreCoordinates(p, 0, q, r / p.tileRows, c / p.tileCols);
  }

  /** The element is transposed, turned and scaled in the destination. */
  ghost predicate TransposedAt(p: Plan, src: seq<Complex>, table: seq<Complex>, dst: seq<Complex>, q: nat, r: nat, c: nat)
    requires p.Valid() && IsElement(p, q, r, c) && |src| == |dst| == p.Size() && |table| == p.rows * p.cols
  {
    Inside(p, q, r, c);
    dst[DstIndex(p, q, r, c)] == Value(p, src, table, q, r, c)
  }

  // -------- the twiddles

  ghost predicate TwiddleAt(p: Plan, turn: Turn, inverse: bool, modulus: nat, table: seq<Complex>, r: nat, c: nat) {
    TableIndex(p, r, c) < |table| && table[TableIndex(p, r, c)] == Rot(turn, inverse, r * c, modulus)
  }

  /** The host's table: W to the power r * c at row r and column c. */
  method FillTwiddles(p: Plan, turn: Turn, inverse: bool, modulus: nat, table: array<Complex>)
    requires p.Valid() && table.Length == p.rows * p.cols
    modifies table
    ensures forall r: nat, c: nat :: r < p.rows && c < p.cols ==> TwiddleAt(p, turn, inverse, modulus, table[..], r, c)
  {
    hide Rot;
    var r := 0;
    while r < p.rows
      invariant 0 <= r <= p.rows
      invariant forall r': nat, c': nat :: r' < r && c' < p.cols ==> TwiddleAt(p, turn, inverse, modulus, table[..], r', c')
    {
      var c := 0;
      while c < p.cols
        invariant 0 <= c <= p.cols
        invariant forall r': nat, c': nat :: r' < p.rows && c' < p.cols && (r' < r || (r' == r && c' < c)) ==>
                    TwiddleAt(p, turn, inverse, modulus, table[..], r', c')
      {
        InsideMatrix(p.rows, p.cols, 1, 0, r, c);
        ghost var before := table[..];
        table[TableIndex(p, r, c)] := Rot(turn, inverse, r * c, modulus);
        forall r': nat, c': nat | r' < p.rows && c' < p.cols && (r' < r || (r' == r && c' <= c))
          ensures TwiddleAt(p, turn, inverse, modulus, table[..], r', c')
        {
          if r' != r || c' != c {
            assert TwiddleAt(p, turn, inverse, modulus, before, r', c');
            TableDistinct(p, r, c, r', c');
          }
        }
        c := c + 1;
      }
      r := r + 1;
    }
  }

  lemma TableDistinct(p: Plan, r: nat, c: nat, r': nat, c': nat)
    requires c < p.cols && c' < p.cols && (r != r' || c != c')
    ensures TableIndex(p, r, c) != TableIndex(p, r', c')
  {
    Decode(p.cols, r, c);
    Decode(p.cols, r', c');
    assert r * p.cols == p.cols * r && r' * p.cols == p.cols * r';
  }
}
