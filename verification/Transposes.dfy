/** The tiled transpose: every tile goes through a scratchpad, is twiddled on the way in and
    scaled on the way out, and the tiles may run in any order. */
module Transposes {
  import opened Complexes
  import opened DivMod

  /** replicas matrices of rows by cols, in tiles of tileRows by tileCols. */
  datatype Plan = Plan(rows: nat, cols: nat, tileRows: nat, tileCols: nat, replicas: nat, twiddled: bool, scaled: bool) {
    predicate Valid() {
      rows > 0 && cols > 0 && tileRows > 0 && tileCols > 0 && replicas > 0
    }

    function Size(): nat {
      replicas * (rows * cols)
    }

    function GridRows(): nat
      requires Valid()
    {
      (rows + tileRows - 1) / tileRows
    }

    function GridCols(): nat
      requires Valid()
    {
      (cols + tileCols - 1) / tileCols
    }

    function TilesPerReplica(): nat
      requires Valid()
    {
      GridRows() * GridCols()
    }

    function Tiles(): nat
      requires Valid()
    {
      replicas * TilesPerReplica()
    }
  }

  /** Element (r, c) of matrix q before, and (c, r) after. */
  function SrcIndex(p: Plan, q: nat, r: nat, c: nat): nat {
    q * (p.rows * p.cols) + r * p.cols + c
  }

  function DstIndex(p: Plan, q: nat, r: nat, c: nat): nat {
    q * (p.rows * p.cols) + c * p.rows + r
  }

  function TableIndex(p: Plan, r: nat, c: nat): nat {
    r * p.cols + c
  }

  predicate IsElement(p: Plan, q: nat, r: nat, c: nat) {
    q < p.replicas && r < p.rows && c < p.cols
  }

  lemma InsideMatrix(rows: nat, cols: nat, replicas: nat, q: nat, r: nat, c: nat)
    requires q < replicas && r < rows && c < cols
    ensures r * cols + c < rows * cols
    ensures q * (rows * cols) + r * cols + c < replicas * (rows * cols)
  {
    InRange(cols, rows, c, r);
    assert r * cols + c == c + cols * r && rows * cols == cols * rows;
    InRange(rows * cols, replicas, r * cols + c, q);
    assert q * (rows * cols) == (rows * cols) * q && replicas * (rows * cols) == (rows * cols) * replicas;
  }

  lemma Inside(p: Plan, q: nat, r: nat, c: nat)
    requires IsElement(p, q, r, c)
    ensures SrcIndex(p, q, r, c) < p.Size() && DstIndex(p, q, r, c) < p.Size() && TableIndex(p, r, c) < p.rows * p.cols
  {
    InsideMatrix(p.rows, p.cols, p.replicas, q, r, c);
    InsideMatrix(p.cols, p.rows, p.replicas, q, c, r);
    assert p.cols * p.rows == p.rows * p.cols;
  }

  lemma DstDigits(p: Plan, q: nat, r: nat, c: nat)
    ensures DstIndex(p, q, r, c) == r + p.rows * (c + p.cols * q)
  {
    assert p.rows * (c + p.cols * q) == p.rows * c + p.rows * (p.cols * q);
    assert p.rows * (p.cols * q) == q * (p.rows * p.cols);
  }

  /** Different elements go to different places. */
  lemma DstDistinct(p: Plan, q: nat, r: nat, c: nat, q': nat, r': nat, c': nat)
    requires IsElement(p, q, r, c) && IsElement(p, q', r', c') && DstIndex(p, q, r, c) == DstIndex(p, q', r', c')
    ensures q == q' && r == r' && c == c'
  {
    hide DstIndex;
    DstDigits(p, q, r, c);
    DstDigits(p, q', r', c');
    SameDigits(p.rows, p.cols, q, r, c, q', r', c');
  }

  lemma SameDigits(rows: nat, cols: nat, q: nat, r: nat, c: nat, q': nat, r': nat, c': nat)
    requires r < rows && r' < rows && c < cols && c' < cols && r + rows * (c + cols * q) == r' + rows * (c' + cols * q')
    ensures q == q' && r == r' && c == c'
  {
    Decode(rows, c + cols * q, r);
    Decode(rows, c' + cols * q', r');
    Decode(cols, q, c);
    Decode(cols, q', c');
  }

  /** Every place of the destination is some element's. */
  lemma DstReached(p: Plan, k: nat) returns (q: nat, r: nat, c: nat)
    requires p.Valid() && k < p.Size()
    ensures IsElement(p, q, r, c) && DstIndex(p, q, r, c) == k
  {
    hide DstIndex;
    assert p.Size() == p.rows * (p.cols * p.replicas);
    q, r, c := DigitsOf(p.rows, p.cols, p.replicas, k);
    DstDigits(p, q, r, c);
  }

  lemma DigitsOf(rows: nat, cols: nat, count: nat, k: nat) returns (q: nat, r: nat, c: nat)
    requires rows > 0 && cols > 0 && k < rows * (cols * count)
    ensures q < count && r < rows && c < cols && k == r + rows * (c + cols * q)
  {
    Recompose(k, rows);
    Recompose(k / rows, cols);
    Below(k, rows, cols * count);
    Below(k / rows, cols, count);
    r, c, q := k % rows, k / rows % cols, k / rows / cols;
  }

  // -------- what the transpose is meant to do

  function Scaled(p: Plan, v: Complex): Complex
    requires p.Valid()
  {
    assert p.rows * p.cols > 0;
    if p.scaled then Complex(v.re * (1.0 / ((p.rows * p.cols) as real)), v.im * (1.0 / ((p.rows * p.cols) as real))) else v
  }

  function Turned(p: Plan, v: Complex, w: Complex): Complex {
    if p.twiddled then Mul(v, w) else v
  }

  /** What element (r, c) of matrix q becomes. */
  function Value(p: Plan, src: seq<Complex>, table: seq<Complex>, q: nat, r: nat, c: nat): Complex
    requires p.Valid() && IsElement(p, q, r, c) && |src| == p.Size() && |table| == p.rows * p.cols
  {
    Inside(p, q, r, c);
    Scaled(p, Turned(p, src[SrcIndex(p, q, r, c)], table[TableIndex(p, r, c)]))
  }

  // -------- one tile

  /** The block of a tile: rows row, ..., row + height - 1 and columns col, ..., col + width - 1 of matrix q. */
  datatype Block = Block(q: nat, row: nat, height: nat, col: nat, width: nat)

  predicate IsBlock(p: Plan, b: Block) {
    b.q < p.replicas && b.row + b.height <= p.rows && b.col + b.width <= p.cols && b.height <= p.tileRows && b.width <= p.tileCols
  }

  predicate InBlock(b: Block, q: nat, r: nat, c: nat) {
    q == b.q && b.row <= r < b.row + b.height && b.col <= c < b.col + b.width
  }

  /** The j-th of the places step apart, from at on. */
  function Spot(at: nat, step: nat, j: nat): nat {
    at + j * step
  }

  lemma TileDistinct(tileRows: nat, i: nat, j: nat, i': nat, j': nat)
    requires i < tileRows && i' < tileRows && i + j * tileRows == i' + j' * tileRows
    ensures i == i' && j == j'
  {
    Decode(tileRows, j, i);
    Decode(tileRows, j', i');
    assert tileRows * j == j * tileRows && tileRows * j' == j' * tileRows;
  }

  lemma TileInside(tileRows: nat, tileCols: nat, i: nat, j: nat)
    requires i < tileRows && j < tileCols
    ensures i + j * tileRows < tileRows * tileCols
  {
    InRange(tileRows, tileCols, i, j);
    assert tileRows * j == j * tileRows;
  }
}
