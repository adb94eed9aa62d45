/** The host's tables of the twiddles between kernels: each is filled by its own nested loops,
    and the kernel finds at every address it stores to the twiddle of what it stores there. */
module ChainTables {
  import opened Chains
  import opened Complexes
  import opened DivMod
  import opened Fourier
  import opened Layouts
  import opened Permutations

  ghost predicate TableAt(t: Turn, inverse: bool, g: Link, w: Writing, full: nat, table: seq<Complex>, row: nat, e: nat)
    requires Fits(g, w)
  {
    0 <= StoreAt(g, w, row, e) < |table| && table[StoreAt(g, w, row, e)] == Rot(t, inverse, Exponent(g, w, row, e), full)
  }

  /** A fetch at any address the kernel stores to yields that output's twiddle. */
  ghost predicate TableAgrees(t: Turn, inverse: bool, g: Link, w: Writing, full: nat, table: seq<Complex>) {
    Fits(g, w) && forall row: nat, e: nat :: row < g.Rows() && e < g.l ==> TableAt(t, inverse, g, w, full, table, row, e)
  }

  // -------- the peeled table

  /** In the order of the loops over what is left, the output and the transformed digits. */
  predicate Earlier(r: nat, c: nat, o: nat, r': nat, c': nat, o': nat) {
    r < r' || (r == r' && (c < c' || (c == c' && o < o')))
  }

  /** The address as the host computes it. */
  function HostAddress(g: Link, w: Writing, r: nat, c: nat, o: nat): int
    requires Fits(g, w) && w.Peeled?
  {
    r % w.tail * (g.Width() * g.l * w.next) + (o + c * g.Width()) * w.next + r / w.tail
  }

  lemma HostAgrees(g: Link, w: Writing, r: nat, c: nat, o: nat)
    requires Fits(g, w) && w.Peeled? && r < g.r && c < g.l && o < g.Width()
    ensures o + g.Width() * r < g.Rows()
    ensures HostAddress(g, w, r, c, o) == StoreAt(g, w, o + g.Width() * r, c)
    ensures Exponent(g, w, o + g.Width() * r, c) == r * c * g.Width()
  {
    WidthPositive(g);
    InRange(g.Width(), g.r, o, r);
    Decode(g.Width(), r, o);
    assert (o + c * g.Width()) * w.next == o * w.next + g.Width() * w.next * c;
  }

  ghost predicate FilledAt(t: Turn, inverse: bool, g: Link, w: Writing, full: nat, table: seq<Complex>, written: seq<nat>, r: nat, c: nat, o: nat)
    requires Fits(g, w) && w.Peeled?
  {
    var at := HostAddress(g, w, r, c, o);
    0 <= at < |table| && table[at] == Rot(t, inverse, r * c * g.Width(), full) && at in written
  }

  ghost predicate Inside(g: Link, r: nat, c: nat, o: nat) {
    r < g.r && c < g.l && o < g.Width()
  }

  ghost predicate Filling(t: Turn, inverse: bool, g: Link, w: Writing, full: nat, table: seq<Complex>, written: seq<nat>, r: nat, c: nat, o: nat) {
    && Fits(g, w) && w.Peeled? && |table| == g.Total()
    && (forall k: nat :: k in written ==> k < g.Total())
    && forall r': nat, c': nat, o': nat :: Inside(g, r', c', o') && Earlier(r', c', o', r, c, o) ==>
         FilledAt(t, inverse, g, w, full, table, written, r', c', o')
  }

  lemma FillsOne(t: Turn, inverse: bool, g: Link, w: Writing, full: nat, table: seq<Complex>, written: seq<nat>, r: nat, c: nat, o: nat, at: nat)
    requires Filling(t, inverse, g, w, full, table, written, r, c, o) && Inside(g, r, c, o) && at == HostAddress(g, w, r, c, o)
    ensures at < g.Total()
    ensures Filling(t, inverse, g, w, full, table[at := Rot(t, inverse, r * c * g.Width(), full)], written + [at], r, c, o + 1)
  {
    hide Rot, HostAddress;
    HostAgrees(g, w, r, c, o);
    StoreInverts(g, w, o + g.Width() * r, c);
    var table', written' := table[at := Rot(t, inverse, r * c * g.Width(), full)], written + [at];
    forall r': nat, c': nat, o': nat | Inside(g, r', c', o') && Earlier(r', c', o', r, c, o + 1)
      ensures FilledAt(t, inverse, g, w, full, table', written', r', c', o')
    {
      if r' != r || c' != c || o' != o {
        assert FilledAt(t, inverse, g, w, full, table, written, r', c', o');
        PlacesDiffer(g, w, r, c, o, r', c', o');
      }
    }
  }

  lemma PlacesDiffer(g: Link, w: Writing, r: nat, c: nat, o: nat, r': nat, c': nat, o': nat)
    requires Fits(g, w) && w.Peeled? && Inside(g, r, c, o) && Inside(g, r', c', o')
    requires r != r' || c != c' || o != o'
    ensures HostAddress(g, w, r, c, o) != HostAddress(g, w, r', c', o')
  {
    hide HostAddress, StoreAt;
    HostAgrees(g, w, r, c, o);
    HostAgrees(g, w, r', c', o');
    Decode(g.Width(), r, o);
    Decode(g.Width(), r', o');
    if HostAddress(g, w, r, c, o) == HostAddress(g, w, r', c', o') {
      StoredApart(g, w, o + g.Width() * r, c, o' + g.Width() * r', c');
    }
  }

  lemma Carries(t: Turn, inverse: bool, g: Link, w: Writing, full: nat, table: seq<Complex>, written: seq<nat>, r: nat, c: nat)
    ensures Filling(t, inverse, g, w, full, table, written, r, c, g.Width()) ==> Filling(t, inverse, g, w, full, table, written, r, c + 1, 0)
    ensures Filling(t, inverse, g, w, full, table, written, r, g.l, 0) ==> Filling(t, inverse, g, w, full, table, written, r + 1, 0, 0)
  {
    hide FilledAt;
  }

  /** Fills every place of the table exactly once: written lists the addresses in the order of
      the stores. */
  method FillPeeled(t: Turn, inverse: bool, g: Link, w: Writing, full: nat, table: array<Complex>) returns (ghost written: seq<nat>)
    requires Fits(g, w) && w.Peeled? && table.Length == g.Total()
    modifies table
    ensures TableAgrees(t, inverse, g, w, full, table[..])
    ensures Permutes(written, g.Total())
    ensures forall i, j :: 0 <= i < j < |written| ==> written[i] != written[j]
  {
    hide Rot, FilledAt, Filling, HostAddress;
    written := [];
    NothingFilled(t, inverse, g, w, full, table[..]);
    var r := 0;
    while r < g.r
      invariant 0 <= r <= g.r && Filling(t, inverse, g, w, full, table[..], written, r, 0, 0)
      invariant |written| == g.l * g.Width() * r
    {
      var c := 0;
      while c < g.l
        invariant 0 <= c <= g.l && Filling(t, inverse, g, w, full, table[..], written, r, c, 0)
        invariant |written| == g.l * g.Width() * r + g.Width() * c
      {
        var o := 0;
        while o < g.Width()
          invariant 0 <= o <= g.Width() && Filling(t, inverse, g, w, full, table[..], written, r, c, o)
          invariant |written| == g.l * g.Width() * r + g.Width() * c + o
        {
          HostAgrees(g, w, r, c, o);
          StoreInverts(g, w, o + g.Width() * r, c);
          var at: nat := HostAddress(g, w, r, c, o);
          FillsOne(t, inverse, g, w, full, table[..], written, r, c, o, at);
          table[at] := Rot(t, inverse, r * c * g.Width(), full);
          written := written + [at];
          o := o + 1;
        }
        Carries(t, inverse, g, w, full, table[..], written, r, c);
        Counts(g.Width(), c, 1);
        c := c + 1;
      }
      Carries(t, inverse, g, w, full, table[..], written, r, c);
      Counts(g.l * g.Width(), r, 1);
      r := r + 1;
    }
    TableFilled(t, inverse, g, w, full, table[..], written);
    PermutesIsDistinct(written, g.Total());
  }

  lemma Counts(n: nat, i: nat, j: nat)
    ensures n * (i + j) == n * i + n * j
  {
  }

  lemma NothingFilled(t: Turn, inverse: bool, g: Link, w: Writing, full: nat, table: seq<Complex>)
    requires Fits(g, w) && w.Peeled? && |table| == g.Total()
    ensures Filling(t, inverse, g, w, full, table, [], 0, 0, 0)
  {
    hide FilledAt;
  }

  lemma TableFilled(t: Turn, inverse: bool, g: Link, w: Writing, full: nat, table: seq<Complex>, written: seq<nat>)
    requires Filling(t, inverse, g, w, full, table, written, g.r, 0, 0) && |written| == g.l * g.Width() * g.r
    ensures TableAgrees(t, inverse, g, w, full, table) && Permutes(written, g.Total())
  {
    hide Rot, StoreAt, HeldAt, HostAddress, Exponent;
    WidthPositive(g);
    assert g.l * g.Width() * g.r == g.Total();
    forall row: nat, e: nat | row < g.Rows() && e < g.l ensures TableAt(t, inverse, g, w, full, table, row, e) {
      RowVisited(t, inverse, g, w, full, table, written, row, e);
    }
    forall k: nat | k < g.Total() ensures k in written {
      EachPlaceHolds(g, w, k);
      var at := HeldAt(g, w, k);
      RowVisited(t, inverse, g, w, full, table, written, at.0, at.1);
    }
  }

  lemma RowVisited(t: Turn, inverse: bool, g: Link, w: Writing, full: nat, table: seq<Complex>, written: seq<nat>, row: nat, e: nat)
    requires Filling(t, inverse, g, w, full, table, written, g.r, 0, 0) && row < g.Rows() && e < g.l
    ensures TableAt(t, inverse, g, w, full, table, row, e) && StoreAt(g, w, row, e) in written
  {
    hide Rot, StoreAt, HostAddress, Exponent;
    WidthPositive(g);
    Recompose(row, g.Width());
    Below(row, g.Width(), g.r);
    var r, o := row / g.Width(), row % g.Width();
    assert FilledAt(t, inverse, g, w, full, table, written, r, e, o);
    HostAgrees(g, w, r, e, o);
  }

  /** At any address, the table holds what the numerical reference computes by taking the address
      apart: what is left of the index times the output, in units of the transformed digits. */
  lemma ReferenceAgrees(t: Turn, inverse: bool, g: Link, w: Writing, full: nat, table: seq<Complex>, addr: nat)
    requires TableAgrees(t, inverse, g, w, full, table) && w.Peeled? && addr < g.Total()
    ensures g.Width() > 0 && g.Width() * g.l > 0 && addr < |table|
    ensures var next := addr % w.next;
            var rest := addr / w.next / (g.Width() * g.l);
            var digit := addr / w.next % (g.Width() * g.l) / g.Width();
            table[addr] == Rot(t, inverse, (next * w.tail + rest) * digit * g.Width(), full)
  {
    hide Rot, StoreAt;
    SidesPositive(g);
    WidthPositive(g);
    EachPlaceHolds(g, w, addr);
    var at := HeldAt(g, w, addr);
    assert TableAt(t, inverse, g, w, full, table, at.0, at.1);
    HeldRow(g, w, addr);
  }

  lemma HeldRow(g: Link, w: Writing, addr: nat)
    requires Fits(g, w) && w.Peeled? && addr < g.Total()
    ensures g.Width() > 0 && g.Width() * g.l > 0
    ensures HeldAt(g, w, addr).0 / g.Width() == addr % w.next * w.tail + addr / w.next / (g.Width() * g.l)
    ensures HeldAt(g, w, addr).1 == addr / w.next % (g.Width() * g.l) / g.Width()
  {
    SidesPositive(g);
    WidthPositive(g);
    var combined := addr / w.next % (g.Width() * g.l);
    Recompose(combined, g.Width());
    Decode(g.Width(), addr % w.next * w.tail + addr / w.next / (g.Width() * g.l), combined % g.Width());
  }

  // -------- the dense table of a crossing

  ghost predicate DenseAt(t: Turn, inverse: bool, g: Link, full: nat, table: seq<Complex>, r: nat, k: nat) {
    var at := r * (g.a * g.l) + k;
    0 <= at < |table| && table[at] == Rot(t, inverse, r * k, full)
  }

  lemma DenseDiffers(side: nat, r: nat, k: nat, r': nat, k': nat)
    requires k < side && k' < side && (r != r' || k != k')
    ensures r * side + k != r' * side + k'
  {
    Decode(side, r, k);
    Decode(side, r', k');
    assert side * r == r * side && side * r' == r' * side;
  }

  method FillCrossed(t: Turn, inverse: bool, g: Link, full: nat, table: array<Complex>)
    requires Fits(g, Crossed) && table.Length == g.Total()
    modifies table
    ensures TableAgrees(t, inverse, g, Crossed, full, table[..])
  {
    hide Rot, Exponent, StoreAt;
    WidthPositive(g);
    var side := g.a * g.l;
    assert g.c * side == g.Total();
    var r := 0;
    while r < g.c
      invariant 0 <= r <= g.c
      invariant forall r': nat, k': nat :: r' < r && k' < side ==> DenseAt(t, inverse, g, full, table[..], r', k')
    {
      var k := 0;
      while k < side
        invariant 0 <= k <= side
        invariant forall r': nat, k': nat :: k' < side && (r' < r || (r' == r && k' < k)) ==> DenseAt(t, inverse, g, full, table[..], r', k')
      {
        DensePlace(g.c, side, r, k);
        ghost var before := table[..];
        table[r * side + k] := Rot(t, inverse, r * k, full);
        forall r': nat, k': nat | k' < side && (r' < r || (r' == r && k' <= k)) ensures DenseAt(t, inverse, g, full, table[..], r', k') {
          if r' != r || k' != k {
            assert DenseAt(t, inverse, g, full, before, r', k');
            DenseDiffers(side, r, k, r', k');
          }
        }
        k := k + 1;
      }
      r := r + 1;
    }
    DenseAgrees(t, inverse, g, full, table[..]);
  }

  lemma DensePlace(c: nat, side: nat, r: nat, k: nat)
    requires r < c && k < side
    ensures r * side + k < c * side
  {
    InRange(side, c, k, r);
    assert side * r == r * side && side * c == c * side;
  }

  lemma DenseAgrees(t: Turn, inverse: bool, g: Link, full: nat, table: seq<Complex>)
    requires Fits(g, Crossed)
    requires forall r: nat, k: nat :: r < g.c && k < g.a * g.l ==> DenseAt(t, inverse, g, full, table, r, k)
    ensures TableAgrees(t, inverse, g, Crossed, full, table)
  {
    hide Rot, StoreAt, Exponent, Link.Width, Link.Rows;
    forall row: nat, e: nat | row < g.Rows() && e < g.l ensures TableAt(t, inverse, g, Crossed, full, table, row, e) {
      CrossedPlace(g, row, e);
      assert DenseAt(t, inverse, g, full, table, row % g.c, row / g.c + g.a * e);
    }
  }

  lemma CrossedPlace(g: Link, row: nat, e: nat)
    requires Fits(g, Crossed) && row < g.Rows() && e < g.l
    ensures row % g.c < g.c && row / g.c + g.a * e < g.a * g.l
    ensures StoreAt(g, Crossed, row, e) == row % g.c * (g.a * g.l) + (row / g.c + g.a * e)
    ensures Exponent(g, Crossed, row, e) == row % g.c * (row / g.c + g.a * e)
  {
    WidthPositive(g);
    Recompose(row, g.c);
    Below(row, g.c, g.a);
    InRange(g.a, g.l, row / g.c, e);
  }
}
