/** The transpose between the two sides of a balanced plan: tiles of one near kernel's length by
    one far kernel's length, each turned and turned over through a scratchpad. */
module NearFarTransposes {
  import opened Complexes
  import opened DivMod
  import opened Fourier
  import opened Launches
  import opened Transposes
  import L = TileLaunches

  /** The lengths of the last near kernel and the first far one, and how many of the other digits
      each side has. */
  datatype Boundary = Boundary(near: nat, far: nat, nearOther: nat, farOther: nat) {
    predicate Valid() {
      near > 0 && far > 0 && nearOther > 0 && farOther > 0
    }

    /** The lengths of the two sides. */
    function NearSide(): nat {
      near * nearOther
    }

    function FarSide(): nat {
      far * farOther
    }

    function Size(): nat {
      near * nearOther * (far * farOther)
    }

    function Tiles(): nat {
      nearOther * farOther
    }
  }

  /** One tile, and one element of it. */
  datatype Element = Element(prefix: nat, rest: nat, en: nat, ef: nat)

  predicate Inside(b: Boundary, p: Element) {
    p.prefix < b.nearOther && p.rest < b.farOther && p.en < b.near && p.ef < b.far
  }

  function NearRow(b: Boundary, prefix: nat, rest: nat, ef: nat): nat {
    b.FarSide() * prefix + ef * b.farOther + rest
  }

  function FarRow(b: Boundary, prefix: nat, rest: nat, en: nat): nat {
    prefix + b.nearOther * en + b.NearSide() * rest
  }

  function NearAt(b: Boundary, p: Element): nat {
    NearRow(b, p.prefix, p.rest, p.ef) * b.near + p.en
  }

  function FarAt(b: Boundary, p: Element): nat {
    FarRow(b, p.prefix, p.rest, p.en) * b.far + p.ef
  }

  // -------- both layouts are permutations

  lemma NearRowDigits(b: Boundary, prefix: nat, rest: nat, ef: nat)
    requires b.Valid() && rest < b.farOther && ef < b.far
    ensures b.FarSide() > 0 && NearRow(b, prefix, rest, ef) % b.FarSide() == ef * b.farOther + rest
    ensures NearRow(b, prefix, rest, ef) / b.FarSide() == prefix
    ensures prefix < b.nearOther ==> NearRow(b, prefix, rest, ef) < b.FarSide() * b.nearOther
  {
    InRange(b.farOther, b.far, rest, ef);
    assert b.farOther * ef == ef * b.farOther && b.farOther * b.far == b.FarSide();
    Decode(b.FarSide(), prefix, ef * b.farOther + rest);
    if prefix < b.nearOther {
      InRange(b.FarSide(), b.nearOther, ef * b.farOther + rest, prefix);
    }
  }

  lemma FarRowDigits(b: Boundary, prefix: nat, rest: nat, en: nat)
    requires b.Valid() && prefix < b.nearOther && en < b.near
    ensures b.NearSide() > 0 && FarRow(b, prefix, rest, en) % b.NearSide() == prefix + b.nearOther * en
    ensures FarRow(b, prefix, rest, en) / b.NearSide() == rest
    ensures rest < b.farOther ==> FarRow(b, prefix, rest, en) < b.NearSide() * b.farOther
  {
    InRange(b.nearOther, b.near, prefix, en);
    assert b.nearOther * b.near == b.NearSide();
    Decode(b.NearSide(), rest, prefix + b.nearOther * en);
    if rest < b.farOther {
      InRange(b.NearSide(), b.farOther, prefix + b.nearOther * en, rest);
    }
  }

  /** The element that stands at an address of the near side, and of the far side. */
  function FromNear(b: Boundary, addr: nat): Element
    requires b.Valid()
  {
    hide Boundary.NearSide, Boundary.FarSide;
    SidesPositive(b);
    var row := addr / b.near;
    var inner := row % b.FarSide();
    Element(row / b.FarSide(), inner % b.farOther, addr % b.near, inner / b.farOther)
  }

  function FromFar(b: Boundary, addr: nat): Element
    requires b.Valid()
  {
    hide Boundary.NearSide, Boundary.FarSide;
    SidesPositive(b);
    var row := addr / b.far;
    var inner := row % b.NearSide();
    Element(inner % b.nearOther, row / b.NearSide(), inner / b.nearOther, addr % b.far)
  }

  lemma SidesPositive(b: Boundary)
    requires b.Valid()
    ensures b.NearSide() > 0 && b.FarSide() > 0
  {
  }

  lemma Sizes(b: Boundary)
    ensures b.Size() == b.near * (b.FarSide() * b.nearOther) == b.far * (b.NearSide() * b.farOther)
  {
    assert b.near * b.nearOther * (b.far * b.farOther) == b.near * (b.far * b.farOther * b.nearOther);
    assert b.near * b.nearOther * (b.far * b.farOther) == b.far * (b.near * b.nearOther * b.farOther);
  }

  /** Elements and near addresses determine each other. */
  lemma NearIsPermutation(b: Boundary, p: Element, addr: nat)
    requires b.Valid()
    ensures Inside(b, p) && NearAt(b, p) == addr <==> addr < b.Size() && FromNear(b, addr) == p
  {
    Sizes(b);
    SidesPositive(b);
    if Inside(b, p) && NearAt(b, p) == addr {
      NearRowDigits(b, p.prefix, p.rest, p.ef);
      var row := NearRow(b, p.prefix, p.rest, p.ef);
      Decode(b.near, row, p.en);
      assert b.near * row == row * b.near;
      Decode(b.farOther, p.ef, p.rest);
      assert b.farOther * p.ef == p.ef * b.farOther;
      InRange(b.near, b.FarSide() * b.nearOther, p.en, row);
    }
    if addr < b.Size() && FromNear(b, addr) == p {
      NearReached(b, addr);
    }
  }

  lemma NearReached(b: Boundary, addr: nat)
    requires b.Valid() && addr < b.Size()
    ensures Inside(b, FromNear(b, addr)) && NearAt(b, FromNear(b, addr)) == addr
  {
    Sizes(b);
    SidesPositive(b);
    var row := addr / b.near;
    var inner := row % b.FarSide();
    Recompose(addr, b.near);
    Below(addr, b.near, b.FarSide() * b.nearOther);
    Recompose(row, b.FarSide());
    Below(row, b.FarSide(), b.nearOther);
    Recompose(inner, b.farOther);
    Below(inner, b.farOther, b.far);
    assert inner / b.farOther * b.farOther == b.farOther * (inner / b.farOther);
    assert row * b.near == b.near * row;
  }

  /** Elements and far addresses determine each other. */
  lemma FarIsPermutation(b: Boundary, p: Element, addr: nat)
    requires b.Valid()
    ensures Inside(b, p) && FarAt(b, p) == addr <==> addr < b.Size() && FromFar(b, addr) == p
  {
    Sizes(b);
    SidesPositive(b);
    if Inside(b, p) && FarAt(b, p) == addr {
      FarRowDigits(b, p.prefix, p.rest, p.en);
      var row := FarRow(b, p.prefix, p.rest, p.en);
      Decode(b.far, row, p.ef);
      assert b.far * row == row * b.far;
      Decode(b.nearOther, p.en, p.prefix);
      InRange(b.far, b.NearSide() * b.farOther, p.ef, row);
    }
    if addr < b.Size() && FromFar(b, addr) == p {
      FarReached(b, addr);
    }
  }

  lemma FarReached(b: Boundary, addr: nat)
    requires b.Valid() && addr < b.Size()
    ensures Inside(b, FromFar(b, addr)) && FarAt(b, FromFar(b, addr)) == addr
  {
    Sizes(b);
    SidesPositive(b);
    var row := addr / b.far;
    var inner := row % b.NearSide();
    Recompose(addr, b.far);
    Below(addr, b.far, b.NearSide() * b.farOther);
    Recompose(row, b.NearSide());
    Below(row, b.NearSide(), b.farOther);
    Recompose(inner, b.nearOther);
    Below(inner, b.nearOther, b.near);
    assert row * b.far == b.far * row;
  }

  // -------- the twiddle table

  /** The exponent the host computes for a near address. */
  function TableExponent(b: Boundary, row: nat, en: nat): nat
    requires b.FarSide() > 0
  {
    (row % b.FarSide()) * (row / b.FarSide() + b.nearOther * en)
  }

  ghost predicate TurnAt(t: Turn, inverse: bool, b: Boundary, table: seq<Complex>, row: nat, en: nat)
    requires b.FarSide() > 0
  {
    row * b.near + en < |table| && table[row * b.near + en] == Rot(t, inverse, TableExponent(b, row, en), b.Size())
  }

  /** Whatever is fetched at a near address turns it by the product of the two indices it has on
      the far side: its batch there and its combined digit. */
  lemma FetchedTurn(t: Turn, inverse: bool, b: Boundary, table: seq<Complex>, p: Element)
    requires b.Valid() && Inside(b, p) && b.FarSide() > 0 && b.NearSide() > 0
    requires TurnAt(t, inverse, b, table, NearRow(b, p.prefix, p.rest, p.ef), p.en)
    ensures NearAt(b, p) < |table|
    ensures var combined := FarRow(b, p.prefix, p.rest, p.en) % b.NearSide();
            var batch := p.ef * b.farOther + FarRow(b, p.prefix, p.rest, p.en) / b.NearSide();
            table[NearAt(b, p)] == Rot(t, inverse, batch * combined, b.Size())
  {
    hide Rot;
    NearRowDigits(b, p.prefix, p.rest, p.ef);
    FarRowDigits(b, p.prefix, p.rest, p.en);
  }

  lemma RowFits(rows: nat, n: nat, row: nat, e: nat)
    requires row < rows && e < n
    ensures row * n + e < rows * n
  {
    InRange(n, rows, e, row);
    assert n * row == row * n && n * rows == rows * n;
  }

  lemma RowsDiffer(n: nat, row: nat, e: nat, row': nat, e': nat)
    requires e < n && e' < n && (row != row' || e != e')
    ensures row * n + e != row' * n + e'
  {
    Decode(n, row, e);
    Decode(n, row', e');
    assert n * row == row * n && n * row' == row' * n;
  }

  /** The rows before row, and the first en elements of that row, are filled. */
  ghost predicate TurnsUpTo(t: Turn, inverse: bool, b: Boundary, table: seq<Complex>, row: nat, en: nat)
    requires b.FarSide() > 0
  {
    forall r: nat, e: nat :: e < b.near && (r < row || (r == row && e < en)) ==> TurnAt(t, inverse, b, table, r, e)
  }

  lemma TurnsGrow(t: Turn, inverse: bool, b: Boundary, table: seq<Complex>, row: nat, en: nat, at: nat)
    requires b.FarSide() > 0 && en < b.near && at == row * b.near + en < |table| && TurnsUpTo(t, inverse, b, table, row, en)
    ensures TurnsUpTo(t, inverse, b, table[at := Rot(t, inverse, TableExponent(b, row, en), b.Size())], row, en + 1)
  {
    hide Rot, TableExponent, Boundary.NearSide, Boundary.FarSide, Boundary.Size;
    var after := table[at := Rot(t, inverse, TableExponent(b, row, en), b.Size())];
    forall r: nat, e: nat | e < b.near && (r < row || (r == row && e <= en)) ensures TurnAt(t, inverse, b, after, r, e) {
      if r != row || e != en {
        assert TurnAt(t, inverse, b, table, r, e);
        RowsDiffer(b.near, row, en, r, e);
      }
    }
  }

  lemma TurnsCarry(t: Turn, inverse: bool, b: Boundary, table: seq<Complex>, row: nat)
    requires b.FarSide() > 0
    ensures TurnsUpTo(t, inverse, b, table, 0, 0)
    ensures TurnsUpTo(t, inverse, b, table, row, b.near) ==> TurnsUpTo(t, inverse, b, table, row + 1, 0)
    ensures TurnsUpTo(t, inverse, b, table, row, 0) ==>
              forall r: nat, e: nat :: r < row && e < b.near ==> TurnAt(t, inverse, b, table, r, e)
  {
    hide TurnAt, Boundary.FarSide;
  }

  /** The host's table over the near addresses. */
  method FillTurns(t: Turn, inverse: bool, b: Boundary, table: array<Complex>)
    requires b.Valid() && table.Length == b.Size()
    modifies table
    ensures b.FarSide() > 0
    ensures forall row: nat, en: nat :: row < b.FarSide() * b.nearOther && en < b.near ==> TurnAt(t, inverse, b, table[..], row, en)
  {
    hide Rot, TableExponent, TurnsUpTo, TurnAt, Boundary.NearSide, Boundary.FarSide, Boundary.Size;
    SidesPositive(b);
    Sizes(b);
    var rows := b.FarSide() * b.nearOther;
    assert rows * b.near == b.Size();
    TurnsCarry(t, inverse, b, table[..], 0);
    var row := 0;
    while row < rows
      invariant 0 <= row <= rows && TurnsUpTo(t, inverse, b, table[..], row, 0)
    {
      var en := 0;
      while en < b.near
        invariant 0 <= en <= b.near && TurnsUpTo(t, inverse, b, table[..], row, en)
      {
        RowFits(rows, b.near, row, en);
        var at := row * b.near + en;
        TurnsGrow(t, inverse, b, table[..], row, en, at);
        table[at] := Rot(t, inverse, TableExponent(b, row, en), b.Size());
        en := en + 1;
      }
      TurnsCarry(t, inverse, b, table[..], row);
      row := row + 1;
    }
    TurnsCarry(t, inverse, b, table[..], row);
  }

  // -------- vectors

  /** s with vec stored from at on, as far as s reaches. */
  function Put(s: seq<Complex>, at: nat, vec: seq<Complex>): (r: seq<Complex>)
    ensures |r| == |s|
  {
    seq(|s|, k requires 0 <= k < |s| => if at <= k < at + |vec| then vec[k - at] else s[k])
  }

  lemma SpotsDiffer(at: nat, step: nat, j: nat, n: nat)
    requires step > 0 && j < n
    ensures Spot(at, step, j) != Spot(at, step, n)
  {
    assert j * step + step <= n * step by {
      assert (j + 1) * step <= n * step;
    }
  }

  /** s with the elements of vec stored step places apart, from at on. */
  function Scatter(s: seq<Complex>, at: nat, step: nat, vec: seq<Complex>): (r: seq<Complex>)
    ensures |r| == |s|
  {
    if vec == [] then s
    else
      var j := |vec| - 1;
      var before := Scatter(s, at, step, vec[..j]);
      if Spot(at, step, j) < |s| then before[Spot(at, step, j) := vec[j]] else before
  }

  lemma {:induction false} Scattered(s: seq<Complex>, at: nat, step: nat, vec: seq<Complex>, j: nat)
    requires step > 0 && j < |vec| && Spot(at, step, j) < |s|
    ensures Scatter(s, at, step, vec)[Spot(at, step, j)] == vec[j]
  {
    hide Spot;
    var n := |vec| - 1;
    if j < n {
      Scattered(s, at, step, vec[..n], j);
      SpotsDiffer(at, step, j, n);
    }
  }

  lemma {:induction false} Unscattered(s: seq<Complex>, at: nat, step: nat, vec: seq<Complex>, k: nat)
    requires k < |s| && forall j: nat :: j < |vec| ==> Spot(at, step, j) != k
    ensures Scatter(s, at, step, vec)[k] == s[k]
  {
    hide Spot;
    if vec != [] {
      Unscattered(s, at, step, vec[..|vec| - 1], k);
    }
  }

  method StoreVector(a: array<Complex>, at: nat, vec: seq<Complex>)
    requires at + |vec| <= a.Length
    modifies a
    ensures a[..] == Put(old(a[..]), at, vec)
  {
    var l := 0;
    while l < |vec|
      invariant 0 <= l <= |vec|
      invariant forall k :: 0 <= k < a.Length ==> a[k] == if at <= k < at + l then vec[k - at] else old(a[k])
    {
      a[at + l] := vec[l];
      l := l + 1;
    }
  }

  method StoreScattered(a: array<Complex>, at: nat, step: nat, vec: seq<Complex>)
    requires forall j: nat :: j < |vec| ==> Spot(at, step, j) < a.Length
    modifies a
    ensures a[..] == Scatter(old(a[..]), at, step, vec)
  {
    var j := 0;
    while j < |vec|
      invariant 0 <= j <= |vec| && a[..] == Scatter(old(a[..]), at, step, vec[..j])
    {
      assert vec[..j + 1][..j] == vec[..j];
      a[Spot(at, step, j)] := vec[j];
      j := j + 1;
    }
    assert vec[..j] == vec;
  }

  // -------- one tile

  function LoadedRow(b: Boundary, src: seq<Complex>, table: seq<Complex>, row: nat): (v: seq<Complex>)
    requires row * b.near + b.near <= |src| == |table|
    ensures |v| == b.near
  {
    seq(b.near, e requires 0 <= e < b.near => Mul(src[row * b.near + e], table[row * b.near + e]))
  }

  lemma NearRowFits(b: Boundary, prefix: nat, rest: nat, ef: nat)
    requires b.Valid() && prefix < b.nearOther && rest < b.farOther && ef < b.far
    ensures NearRow(b, prefix, rest, ef) * b.near + b.near <= b.Size()
  {
    Sizes(b);
    NearRowDigits(b, prefix, rest, ef);
    RowFits(b.FarSide() * b.nearOther, b.near, NearRow(b, prefix, rest, ef), b.near - 1);
    assert b.near * (b.FarSide() * b.nearOther) == b.FarSide() * b.nearOther * b.near;
  }

  lemma FarRowFits(b: Boundary, prefix: nat, rest: nat, en: nat)
    requires b.Valid() && prefix < b.nearOther && rest < b.farOther && en < b.near
    ensures FarRow(b, prefix, rest, en) * b.far + b.far <= b.Size()
  {
    Sizes(b);
    FarRowDigits(b, prefix, rest, en);
    RowFits(b.NearSide() * b.farOther, b.far, FarRow(b, prefix, rest, en), b.far - 1);
    assert b.far * (b.NearSide() * b.farOther) == b.NearSide() * b.farOther * b.far;
  }

  /** The scratchpad after the first n rows of a tile. */
  function LoadTile(b: Boundary, src: seq<Complex>, table: seq<Complex>, spad: seq<Complex>, base: nat, prefix: nat, rest: nat, n: nat): (s: seq<Complex>)
    requires b.Valid() && prefix < b.nearOther && rest < b.farOther && n <= b.far && |src| == |table| == b.Size()
    ensures |s| == |spad|
  {
    if n == 0 then spad
    else
      NearRowFits(b, prefix, rest, n - 1);
      Scatter(LoadTile(b, src, table, spad, base, prefix, rest, n - 1), base + (n - 1), b.far,
              LoadedRow(b, src, table, NearRow(b, prefix, rest, n - 1)))
  }

  lemma {:induction false} TileLoaded(b: Boundary, src: seq<Complex>, table: seq<Complex>, spad: seq<Complex>, base: nat, prefix: nat, rest: nat, n: nat, ef: nat, en: nat)
    requires b.Valid() && prefix < b.nearOther && rest < b.farOther && n <= b.far && |src| == |table| == b.Size()
    requires ef < n && en < b.near && base + b.far * b.near <= |spad|
    ensures NearAt(b, Element(prefix, rest, en, ef)) < |src| && Spot(base + ef, b.far, en) < |spad|
    ensures var at := NearAt(b, Element(prefix, rest, en, ef));
            LoadTile(b, src, table, spad, base, prefix, rest, n)[Spot(base + ef, b.far, en)] == Mul(src[at], table[at])
    decreases n
  {
    hide Scatter, NearRow, Mul;
    TileInside(b.far, b.near, ef, en);
    NearRowFits(b, prefix, rest, ef);
    NearRowFits(b, prefix, rest, n - 1);
    var before := LoadTile(b, src, table, spad, base, prefix, rest, n - 1);
    var vec := LoadedRow(b, src, table, NearRow(b, prefix, rest, n - 1));
    if ef == n - 1 {
      Scattered(before, base + ef, b.far, vec, en);
    } else {
      TileLoaded(b, src, table, spad, base, prefix, rest, n - 1, ef, en);
      var start := base + (n - 1);
      forall h: nat | h < |vec| ensures Spot(start, b.far, h) != Spot(base + ef, b.far, en) {
        if (n - 1) + h * b.far == ef + en * b.far {
          TileDistinct(b.far, n - 1, h, ef, en);
        }
      }
      Unscattered(before, start, b.far, vec, Spot(base + ef, b.far, en));
    }
  }

  /** The destination after the first n far rows of a tile. */
  function StoreTile(b: Boundary, dst: seq<Complex>, tile: seq<Complex>, base: nat, prefix: nat, rest: nat, n: nat): (s: seq<Complex>)
    requires n <= b.near && base + b.far * b.near <= |tile|
    ensures |s| == |dst|
  {
    if n == 0 then dst
    else
      ColumnFits(b.far, b.near, n - 1, b.far);
      var at := base + (n - 1) * b.far;
      Put(StoreTile(b, dst, tile, base, prefix, rest, n - 1), FarRow(b, prefix, rest, n - 1) * b.far, tile[at..at + b.far])
  }

  /** A stored far row is the elements of one column of the tile. */
  lemma StoredRow(b: Boundary, prefix: nat, rest: nat, n: nat, p: Element)
    requires b.Valid() && prefix < b.nearOther && rest < b.farOther && n < b.near && Inside(b, p)
    ensures var at := FarRow(b, prefix, rest, n) * b.far;
            && (at <= FarAt(b, p) < at + b.far <==> p.prefix == prefix && p.rest == rest && p.en == n)
            && (p.prefix == prefix && p.rest == rest && p.en == n ==> FarAt(b, p) - at == p.ef)
  {
    hide FarRow;
    var at := FarRow(b, prefix, rest, n) * b.far;
    if at <= FarAt(b, p) < at + b.far {
      var q := Element(prefix, rest, n, FarAt(b, p) - at);
      FarIsPermutation(b, p, FarAt(b, p));
      FarIsPermutation(b, q, FarAt(b, p));
    }
  }

  lemma {:induction false} TileStored(b: Boundary, dst: seq<Complex>, tile: seq<Complex>, base: nat, prefix: nat, rest: nat, n: nat, p: Element)
    requires b.Valid() && prefix < b.nearOther && rest < b.farOther && n <= b.near && base + b.far * b.near <= |tile|
    requires Inside(b, p) && |dst| == b.Size()
    ensures FarAt(b, p) < |dst| && Spot(base + p.ef, b.far, p.en) < |tile|
    ensures StoreTile(b, dst, tile, base, prefix, rest, n)[FarAt(b, p)]
            == if p.prefix == prefix && p.rest == rest && p.en < n then tile[Spot(base + p.ef, b.far, p.en)] else dst[FarAt(b, p)]
    decreases n
  {
    hide FarRow, FarAt, FromFar, Put, Spot, Boundary.NearSide, Boundary.FarSide, Boundary.Size;
    FarIsPermutation(b, p, FarAt(b, p));
    SpotInside(b, base, |tile|, p);
    if n > 0 {
      TileStored(b, dst, tile, base, prefix, rest, n - 1, p);
      ColumnFits(b.far, b.near, n - 1, b.far);
      RowPut(b, StoreTile(b, dst, tile, base, prefix, rest, n - 1), tile, base, prefix, rest, n - 1, p, base + (n - 1) * b.far,
             FarRow(b, prefix, rest, n - 1) * b.far, Spot(base + p.ef, b.far, p.en));
    }
  }

  lemma SpotInside(b: Boundary, base: nat, length: nat, p: Element)
    requires Inside(b, p) && base + b.far * b.near <= length
    ensures Spot(base + p.ef, b.far, p.en) < length
  {
    TileInside(b.far, b.near, p.ef, p.en);
  }

  lemma RowPut(b: Boundary, before: seq<Complex>, tile: seq<Complex>, base: nat, prefix: nat, rest: nat, n: nat, p: Element, at: nat, to: nat, spot: nat)
    requires b.Valid() && prefix < b.nearOther && rest < b.farOther && n < b.near && Inside(b, p) && FarAt(b, p) < |before|
    requires at == base + n * b.far && to == FarRow(b, prefix, rest, n) * b.far && spot == Spot(base + p.ef, b.far, p.en)
    requires at + b.far <= |tile| && spot < |tile|
    ensures Put(before, to, tile[at..at + b.far])[FarAt(b, p)]
            == if p.prefix == prefix && p.rest == rest && p.en == n then tile[spot] else before[FarAt(b, p)]
  {
    hide FarRow, FarAt, Put, Boundary.NearSide, Boundary.FarSide, Boundary.Size;
    StoredRow(b, prefix, rest, n, p);
    PutAt(before, to, tile[at..at + b.far], FarAt(b, p));
  }

  lemma PutAt(s: seq<Complex>, at: nat, vec: seq<Complex>, k: nat)
    requires k < |s|
    ensures Put(s, at, vec)[k] == if at <= k < at + |vec| then vec[k - at] else s[k]
  {
  }

  function Transferred(b: Boundary, src: seq<Complex>, table: seq<Complex>, dst: seq<Complex>, spad: seq<Complex>, base: nat, prefix: nat, rest: nat): (s: seq<Complex>)
    requires b.Valid() && prefix < b.nearOther && rest < b.farOther && |src| == |table| == b.Size() && base + b.far * b.near <= |spad|
    ensures |s| == |dst|
  {
    StoreTile(b, dst, LoadTile(b, src, table, spad, base, prefix, rest, b.far), base, prefix, rest, b.near)
  }

  /** The element's value on the far side. */
  ghost predicate CrossedOver(b: Boundary, src: seq<Complex>, table: seq<Complex>, dst: seq<Complex>, p: Element) {
    && NearAt(b, p) < |src| == |table| && FarAt(b, p) < |dst|
    && dst[FarAt(b, p)] == Mul(src[NearAt(b, p)], table[NearAt(b, p)])
  }

  /** A tile moves its own elements and no others. */
  lemma TransferCrosses(b: Boundary, src: seq<Complex>, table: seq<Complex>, dst: seq<Complex>, spad: seq<Complex>, base: nat, prefix: nat, rest: nat, p: Element)
    requires b.Valid() && prefix < b.nearOther && rest < b.farOther && |src| == |table| == |dst| == b.Size() && base + b.far * b.near <= |spad|
    requires Inside(b, p)
    ensures p.prefix == prefix && p.rest == rest ==> CrossedOver(b, src, table, Transferred(b, src, table, dst, spad, base, prefix, rest), p)
    ensures FarAt(b, p) < |dst|
    ensures !(p.prefix == prefix && p.rest == rest) ==> Transferred(b, src, table, dst, spad, base, prefix, rest)[FarAt(b, p)] == dst[FarAt(b, p)]
  {
    hide FarAt, NearAt, LoadTile, StoreTile, Mul, Spot;
    TileStored(b, dst, LoadTile(b, src, table, spad, base, prefix, rest, b.far), base, prefix, rest, b.near, p);
    if p.prefix == prefix && p.rest == rest {
      TileLoaded(b, src, table, spad, base, prefix, rest, b.far, p.ef, p.en);
    }
  }

  lemma ColumnFits(tileRows: nat, tileCols: nat, j: nat, height: nat)
    requires j < tileCols && height <= tileRows
    ensures j * tileRows + height <= tileRows * tileCols
  {
    assert (j + 1) * tileRows <= tileCols * tileRows;
  }

  lemma TileDigits(b: Boundary, tile: nat)
    requires b.Valid() && tile < b.Tiles()
    ensures tile % b.nearOther < b.nearOther && tile / b.nearOther < b.farOther
  {
    Recompose(tile, b.nearOther);
    Below(tile, b.nearOther, b.farOther);
  }

  lemma NoneLoaded(b: Boundary, src: seq<Complex>, table: seq<Complex>, spad: seq<Complex>, base: nat, prefix: nat, rest: nat)
    requires b.Valid() && prefix < b.nearOther && rest < b.farOther && |src| == |table| == b.Size()
    ensures LoadTile(b, src, table, spad, base, prefix, rest, 0) == spad
  {
  }

  lemma RowLoaded(b: Boundary, src: seq<Complex>, table: seq<Complex>, spad: seq<Complex>, base: nat, prefix: nat, rest: nat, n: nat)
    requires b.Valid() && prefix < b.nearOther && rest < b.farOther && n < b.far && |src| == |table| == b.Size()
    ensures NearRow(b, prefix, rest, n) * b.near + b.near <= b.Size()
    ensures LoadTile(b, src, table, spad, base, prefix, rest, n + 1)
            == Scatter(LoadTile(b, src, table, spad, base, prefix, rest, n), base + n, b.far, LoadedRow(b, src, table, NearRow(b, prefix, rest, n)))
  {
    hide Scatter, NearRow, LoadedRow;
    NearRowFits(b, prefix, rest, n);
  }

  lemma NoneStored(b: Boundary, dst: seq<Complex>, tile: seq<Complex>, base: nat, prefix: nat, rest: nat)
    requires base + b.far * b.near <= |tile|
    ensures StoreTile(b, dst, tile, base, prefix, rest, 0) == dst
  {
  }

  lemma RowStored(b: Boundary, dst: seq<Complex>, tile: seq<Complex>, base: nat, prefix: nat, rest: nat, n: nat)
    requires n < b.near && base + b.far * b.near <= |tile|
    ensures n * b.far + b.far <= b.far * b.near
    ensures var at := base + n * b.far;
            StoreTile(b, dst, tile, base, prefix, rest, n + 1)
            == Put(StoreTile(b, dst, tile, base, prefix, rest, n), FarRow(b, prefix, rest, n) * b.far, tile[at..at + b.far])
  {
    hide Put, FarRow;
    ColumnFits(b.far, b.near, n, b.far);
  }

  /** One microthread: rows of the near side in, rows of the far side out. */
  method TransferTile(b: Boundary, src: array<Complex>, table: array<Complex>, dst: array<Complex>, spad: array<Complex>, base: nat, tile: nat)
    requires b.Valid() && tile < b.Tiles() && src.Length == table.Length == dst.Length == b.Size() && base + b.far * b.near <= spad.Length
    requires src != dst && src != spad && table != dst && table != spad && dst != spad
    modifies dst, spad
    ensures tile % b.nearOther < b.nearOther && tile / b.nearOther < b.farOther
    ensures dst[..] == Transferred(b, src[..], table[..], old(dst[..]), old(spad[..]), base, tile % b.nearOther, tile / b.nearOther)
  {
    hide Transferred, Boundary.Size, Boundary.Tiles;
    TileDigits(b, tile);
    TransferBlock(b, src, table, dst, spad, base, tile % b.nearOther, tile / b.nearOther);
  }

  method TransferBlock(b: Boundary, src: array<Complex>, table: array<Complex>, dst: array<Complex>, spad: array<Complex>, base: nat, prefix: nat, rest: nat)
    requires b.Valid() && prefix < b.nearOther && rest < b.farOther && src.Length == table.Length == dst.Length == b.Size()
    requires base + b.far * b.near <= spad.Length
    requires src != dst && src != spad && table != dst && table != spad && dst != spad
    modifies dst, spad
    ensures dst[..] == Transferred(b, src[..], table[..], old(dst[..]), old(spad[..]), base, prefix, rest)
  {
    hide LoadTile, StoreTile, Boundary.Size;
    LoadBlock(b, src, table, spad, base, prefix, rest);
    StoreBlock(b, dst, spad, base, prefix, rest);
  }

  /** All rows of the tile into the scratchpad. */
  method LoadBlock(b: Boundary, src: array<Complex>, table: array<Complex>, spad: array<Complex>, base: nat, prefix: nat, rest: nat)
    requires b.Valid() && prefix < b.nearOther && rest < b.farOther && src.Length == table.Length == b.Size()
    requires base + b.far * b.near <= spad.Length && src != spad && table != spad
    modifies spad
    ensures spad[..] == LoadTile(b, src[..], table[..], old(spad[..]), base, prefix, rest, b.far)
  {
    hide Scatter, NearRow, LoadTile, LoadedRow, Boundary.Size;
    NoneLoaded(b, src[..], table[..], spad[..], base, prefix, rest);
    var ef := 0;
    while ef < b.far
      invariant 0 <= ef <= b.far
      invariant spad[..] == LoadTile(b, src[..], table[..], old(spad[..]), base, prefix, rest, ef)
    {
      RowLoaded(b, src[..], table[..], old(spad[..]), base, prefix, rest, ef);
      LoadRow(b, src, table, spad, base, prefix, rest, ef);
      ef := ef + 1;
    }
  }

  /** All far rows of the tile out of it. */
  method StoreBlock(b: Boundary, dst: array<Complex>, spad: array<Complex>, base: nat, prefix: nat, rest: nat)
    requires b.Valid() && prefix < b.nearOther && rest < b.farOther && dst.Length == b.Size()
    requires base + b.far * b.near <= spad.Length && dst != spad
    modifies dst
    ensures dst[..] == StoreTile(b, old(dst[..]), spad[..], base, prefix, rest, b.near)
  {
    hide Put, FarRow, StoreTile, Boundary.Size;
    NoneStored(b, dst[..], spad[..], base, prefix, rest);
    var en := 0;
    while en < b.near
      invariant 0 <= en <= b.near
      invariant dst[..] == StoreTile(b, old(dst[..]), spad[..], base, prefix, rest, en)
    {
      FarRowFits(b, prefix, rest, en);
      RowStored(b, old(dst[..]), spad[..], base, prefix, rest, en);
      var at := base + en * b.far;
      StoreVector(dst, FarRow(b, prefix, rest, en) * b.far, spad[at..at + b.far]);
      en := en + 1;
    }
  }

  method LoadRow(b: Boundary, src: array<Complex>, table: array<Complex>, spad: array<Complex>, base: nat, prefix: nat, rest: nat, ef: nat)
    requires b.Valid() && prefix < b.nearOther && rest < b.farOther && ef < b.far
    requires src.Length == table.Length == b.Size() && base + b.far * b.near <= spad.Length && src != spad && table != spad
    requires NearRow(b, prefix, rest, ef) * b.near + b.near <= b.Size()
    modifies spad
    ensures spad[..] == Scatter(old(spad[..]), base + ef, b.far, LoadedRow(b, src[..], table[..], NearRow(b, prefix, rest, ef)))
  {
    hide Scatter, NearRow, Mul;
    var at := NearRow(b, prefix, rest, ef) * b.near;
    var values, turns := src[at..at + b.near], table[at..at + b.near];
    var vec := seq(b.near, e requires 0 <= e < b.near => Mul(values[e], turns[e]));
    assert vec == LoadedRow(b, src[..], table[..], NearRow(b, prefix, rest, ef));
    var start := base + ef;
    forall j: nat | j < |vec| ensures Spot(start, b.far, j) < spad.Length {
      TileInside(b.far, b.near, ef, j);
    }
    StoreScattered(spad, start, b.far, vec);
  }

  // -------- all tiles

  function AllTiles(n: nat): (s: set<nat>)
    ensures forall tile: nat :: tile in s <==> tile < n
  {
    if n == 0 then {} else AllTiles(n - 1) + {n - 1}
  }

  ghost predicate Progress(b: Boundary, src: seq<Complex>, table: seq<Complex>, dst: seq<Complex>, left: set<nat>) {
    forall p: Element :: Inside(b, p) && TileOf(b, p) !in left ==> CrossedOver(b, src, table, dst, p)
  }

  function TileOf(b: Boundary, p: Element): nat {
    p.prefix + b.nearOther * p.rest
  }

  lemma TileIs(b: Boundary, p: Element, tile: nat)
    requires b.Valid() && Inside(b, p)
    ensures TileOf(b, p) < b.Tiles()
    ensures TileOf(b, p) == tile <==> p.prefix == tile % b.nearOther && p.rest == tile / b.nearOther
  {
    InRange(b.nearOther, b.farOther, p.prefix, p.rest);
    Decode(b.nearOther, p.rest, p.prefix);
    Recompose(tile, b.nearOther);
  }

  lemma TileProgress(b: Boundary, src: seq<Complex>, table: seq<Complex>, dst: seq<Complex>, spad: seq<Complex>, base: nat, left: set<nat>, tile: nat)
    requires b.Valid() && tile % b.nearOther < b.nearOther && tile / b.nearOther < b.farOther
    requires |src| == |table| == |dst| == b.Size() && base + b.far * b.near <= |spad| && Progress(b, src, table, dst, left)
    ensures Progress(b, src, table, Transferred(b, src, table, dst, spad, base, tile % b.nearOther, tile / b.nearOther), left - {tile})
  {
    hide Transferred, FarAt, NearAt, TileOf, Mul;
    var after := Transferred(b, src, table, dst, spad, base, tile % b.nearOther, tile / b.nearOther);
    forall p: Element | Inside(b, p) && TileOf(b, p) !in left - {tile} ensures CrossedOver(b, src, table, after, p) {
      TransferCrosses(b, src, table, dst, spad, base, tile % b.nearOther, tile / b.nearOther, p);
      TileIs(b, p, tile);
    }
  }

  /** The tiles of a boundary in a single launch, one at a time in an arbitrary order, each in the
      slot of its own unit and local id: when no unit gets more tiles than it has room for, none
      returns early and every element of the near side crosses over, turned. */
  method RunBoundary(b: Boundary, g: L.Target, src: array<Complex>, table: array<Complex>, dst: array<Complex>, spad: array<Complex>)
    requires b.Valid() && src.Length == table.Length == dst.Length == b.Size()
    requires g.Valid() && L.HasRoom(g, b.Tiles()) && g.units * g.capacity * (b.far * b.near) <= spad.Length
    requires src != dst && src != spad && table != dst && table != spad && dst != spad
    modifies dst, spad
    ensures forall p: Element :: Inside(b, p) ==> CrossedOver(b, src[..], table[..], dst[..], p)
  {
    hide CrossedOver, Transferred, AllTiles, Progress, L.HasRoom, LocalRank;
    var left: set<nat> := AllTiles(b.Tiles());
    NothingCrossed(b, src[..], table[..], dst[..], left);
    while left != {}
      invariant forall tile :: tile in left ==> tile < b.Tiles()
      invariant Progress(b, src[..], table[..], dst[..], left)
      decreases |left|
    {
      var tile: nat :| tile in left;
      L.StaysInRoom(g, b.Tiles(), tile);
      if LocalRank(g.from, tile, g.chunk, g.units) < g.capacity {
        var base := SlotOf(b, g, tile);
        TileDigits(b, tile);
        TileProgress(b, src[..], table[..], dst[..], spad[..], base, left, tile);
        TransferTile(b, src, table, dst, spad, base, tile);
      }
      left := left - {tile};
    }
    AllCrossed(b, src[..], table[..], dst[..]);
  }

  /** Where the scratchpad slot of a tile begins. */
  method SlotOf(b: Boundary, g: L.Target, tile: nat) returns (base: nat)
    requires b.Valid() && g.Valid() && L.HasRoom(g, b.Tiles()) && tile < b.Tiles()
    ensures base == L.SlotNumber(g, tile) * (b.far * b.near) && base + b.far * b.near <= g.units * g.capacity * (b.far * b.near)
  {
    hide L.HasRoom, L.SlotNumber;
    L.SlotExists(g, b.Tiles(), tile);
    L.StretchFits(L.SlotNumber(g, tile), g.units * g.capacity, b.far * b.near);
    base := L.SlotNumber(g, tile) * (b.far * b.near);
  }

  lemma NothingCrossed(b: Boundary, src: seq<Complex>, table: seq<Complex>, dst: seq<Complex>, left: set<nat>)
    requires b.Valid() && forall tile: nat :: tile < b.Tiles() ==> tile in left
    ensures Progress(b, src, table, dst, left)
  {
    forall p: Element | Inside(b, p) ensures TileOf(b, p) in left {
      TileIs(b, p, 0);
    }
  }

  lemma AllCrossed(b: Boundary, src: seq<Complex>, table: seq<Complex>, dst: seq<Complex>)
    requires Progress(b, src, table, dst, {})
    ensures forall p: Element :: Inside(b, p) ==> CrossedOver(b, src, table, dst, p)
  {
  }
}
