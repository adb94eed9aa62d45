/** Where the kernels of a chain find and leave their elements in main memory, and that every
    layout is a permutation. */
module Layouts {
  import opened DivMod

  /** One kernel of a chain over c interleaved signals: a points of each already transformed by
      the kernels before it, l of them its own, r left to the ones after it. */
  datatype Link = Link(c: nat, a: nat, l: nat, r: nat) {
    predicate Valid() {
      c > 0 && a > 0 && l > 0 && r > 0
    }

    /** The transformed digits of all signals: what the address formulas call a. */
    function Width(): nat {
      c * a
    }

    function Rows(): nat {
      c * a * r
    }

    function Total(): nat {
      c * a * r * l
    }
  }

  /** The first kernel of a chain finds its elements as far apart as there are rows, every other
      one next to each other. */
  datatype Reading = Spread | Packed

  /** The last kernel leaves its elements in natural order, as it finds them, or crossed over for
      the other side; every other one peels off the digit of the kernel after it. */
  datatype Writing = Natural | Plain | Crossed | Peeled(next: nat, tail: nat)

  predicate Fits(g: Link, w: Writing) {
    g.Valid() && if w.Peeled? then w.next > 0 && w.tail > 0 && g.r == w.next * w.tail else g.r == 1
  }

  function LoadBase(g: Link, reading: Reading, row: nat): nat {
    if reading.Spread? then row else row * g.l
  }

  function LoadStride(g: Link, reading: Reading): nat {
    if reading.Spread? then g.Rows() else 1
  }

  function LoadAt(g: Link, reading: Reading, row: nat, d: nat): nat {
    LoadBase(g, reading, row) + LoadStride(g, reading) * d
  }

  lemma WidthPositive(g: Link)
    requires g.Valid()
    ensures g.Width() > 0 && g.Rows() > 0 && g.Total() == g.Rows() * g.l > 0 && g.Rows() == g.Width() * g.r
  {
    assert g.c * g.a > 0;
    assert g.c * g.a * g.r > 0;
  }

  /** Where a row starts, from the identity of the microthread that works on it. */
  function StoreBase(g: Link, w: Writing, row: nat): int
    requires Fits(g, w)
  {
    WidthPositive(g);
    match w
    case Natural => row
    case Plain => row * g.l
    case Crossed => row % g.c * (g.a * g.l) + row / g.c
    case Peeled(next, tail) =>
      row / g.Width() % tail * (g.Width() * g.l * next) + row % g.Width() * next + row / g.Width() / tail
  }

  function StoreStride(g: Link, w: Writing): nat {
    match w
    case Natural => g.Width()
    case Plain => 1
    case Crossed => g.a
    case Peeled(next, _) => g.Width() * next
  }

  function StoreAt(g: Link, w: Writing, row: nat, e: nat): int
    requires Fits(g, w)
  {
    StoreBase(g, w, row) + StoreStride(g, w) * e
  }

  // -------- the digits of a row

  /** Which signal. */
  function SignalOf(g: Link, row: nat): nat
    requires g.Valid()
  {
    WidthPositive(g);
    row % g.Width() % g.c
  }

  /** Which of its transformed outputs. */
  function DoneOf(g: Link, row: nat): nat
    requires g.Valid()
  {
    WidthPositive(g);
    row % g.Width() / g.c
  }

  /** Which of the inputs left to the kernels after this one. */
  function RestOf(g: Link, row: nat): nat
    requires g.Valid()
  {
    WidthPositive(g);
    row / g.Width()
  }

  lemma RowDigits(g: Link, row: nat)
    requires g.Valid() && row < g.Rows()
    ensures SignalOf(g, row) < g.c && DoneOf(g, row) < g.a && RestOf(g, row) < g.r
    ensures row == SignalOf(g, row) + g.c * DoneOf(g, row) + g.Width() * RestOf(g, row)
  {
    WidthPositive(g);
    Recompose(row, g.Width());
    Recompose(row % g.Width(), g.c);
    Below(row % g.Width(), g.c, g.a);
    Below(row, g.Width(), g.r);
  }

  /** A row is found from its digits. */
  lemma RowFromDigits(g: Link, signal: nat, done: nat, rest: nat, row: nat)
    requires g.Valid() && signal < g.c && done < g.a && row == signal + g.c * done + g.Width() * rest
    ensures SignalOf(g, row) == signal && DoneOf(g, row) == done && RestOf(g, row) == rest
    ensures rest < g.r ==> row < g.Rows()
  {
    WidthPositive(g);
    InRange(g.c, g.a, signal, done);
    Decode(g.Width(), rest, signal + g.c * done);
    Decode(g.c, done, signal);
    if rest < g.r {
      InRange(g.Width(), g.r, signal + g.c * done, rest);
    }
  }

  // -------- what the kernel after a peeled one finds

  function Next(g: Link, w: Writing): Link
    requires w.Peeled?
  {
    Link(g.c, g.a * g.l, w.next, w.tail)
  }

  /** The row, and the element in it, in which the next kernel finds output e of a row. */
  function NextRow(g: Link, w: Writing, row: nat, e: nat): nat
    requires Fits(g, w) && w.Peeled?
  {
    WidthPositive(g);
    row / g.Width() % w.tail * (g.Width() * g.l) + (row % g.Width() + g.Width() * e)
  }

  function NextElement(g: Link, w: Writing, row: nat): nat
    requires Fits(g, w) && w.Peeled?
  {
    WidthPositive(g);
    row / g.Width() / w.tail
  }

  lemma NextWidth(g: Link, w: Writing)
    requires Fits(g, w) && w.Peeled?
    ensures Next(g, w).Valid() && Next(g, w).Width() == g.Width() * g.l && Next(g, w).Total() == g.Total()
    ensures Next(g, w).Rows() == g.Width() * g.l * w.tail
  {
    Monotone(g.a, 1, g.l);
    assert g.c * (g.a * g.l) == g.c * g.a * g.l;
    assert g.c * g.a * g.l * w.tail * w.next == g.c * g.a * (w.next * w.tail) * g.l;
  }

  /** The peeled address is a place next to its neighbours in the next kernel's row. */
  lemma PeeledPlace(g: Link, w: Writing, row: nat, e: nat)
    requires Fits(g, w) && w.Peeled? && row < g.Rows() && e < g.l
    ensures StoreAt(g, w, row, e) == NextRow(g, w, row, e) * w.next + NextElement(g, w, row)
  {
    WidthPositive(g);
    PlaceSpreads(g.Width(), g.l, w.next, row / g.Width() % w.tail, row % g.Width(), e);
  }

  lemma PlaceSpreads(width: nat, l: nat, next: nat, rest: int, out: int, e: int)
    ensures (rest * (width * l) + (out + width * e)) * next == rest * (width * l * next) + out * next + width * next * e
  {
    assert (rest * (width * l) + (out + width * e)) * next == rest * (width * l) * next + out * next + width * e * next;
    assert rest * (width * l) * next == rest * (width * l * next);
    assert width * e * next == width * next * e;
  }

  lemma NextDigits(g: Link, w: Writing, row: nat, e: nat)
    requires Fits(g, w) && w.Peeled? && row < g.Rows() && e < g.l
    ensures var h, row' := Next(g, w), NextRow(g, w, row, e);
            && h.Valid() && row' < h.Rows() && NextElement(g, w, row) < h.l
            && SignalOf(h, row') == SignalOf(g, row)
            && DoneOf(h, row') == DoneOf(g, row) + g.a * e
            && RestOf(h, row') == RestOf(g, row) % w.tail
            && RestOf(g, row) == NextElement(g, w, row) * w.tail + RestOf(h, row')
  {
    hide NextRow, NextElement, SignalOf, DoneOf, RestOf, Link.Width, Link.Rows, Link.Total;
    NextWidth(g, w);
    RowDigits(g, row);
    NextRest(g, w, row);
    InRange(g.a, g.l, DoneOf(g, row), e);
    NextRowIs(g, w, row, e);
    RowFromDigits(Next(g, w), SignalOf(g, row), DoneOf(g, row) + g.a * e, RestOf(g, row) % w.tail, NextRow(g, w, row, e));
  }

  lemma NextRest(g: Link, w: Writing, row: nat)
    requires Fits(g, w) && w.Peeled? && RestOf(g, row) < g.r
    ensures NextElement(g, w, row) < w.next && RestOf(g, row) % w.tail < w.tail
    ensures RestOf(g, row) == NextElement(g, w, row) * w.tail + RestOf(g, row) % w.tail
  {
    var rest := RestOf(g, row);
    Recompose(rest, w.tail);
    assert w.tail * w.next == g.r;
    Below(rest, w.tail, w.next);
    assert w.tail * (rest / w.tail) == rest / w.tail * w.tail;
  }

  lemma NextRowIs(g: Link, w: Writing, row: nat, e: nat)
    requires Fits(g, w) && w.Peeled?
    ensures NextRow(g, w, row, e)
            == SignalOf(g, row) + g.c * (DoneOf(g, row) + g.a * e) + g.Width() * g.l * (RestOf(g, row) % w.tail)
  {
    WidthPositive(g);
    Recompose(row % g.Width(), g.c);
    assert g.c * (DoneOf(g, row) + g.a * e) == g.c * DoneOf(g, row) + g.Width() * e;
  }

  /** Where the row of given digits lands. */
  lemma LandsAt(g: Link, w: Writing, signal: nat, mine: nat, e: nat, rest: nat, d: nat, row: nat)
    requires Fits(g, w) && w.Peeled? && signal < g.c && mine < g.a && rest < w.tail && d < w.next
    requires row == signal + g.c * mine + g.Width() * (rest + w.tail * d)
    ensures row < g.Rows() && NextElement(g, w, row) == d
    ensures NextRow(g, w, row, e) == signal + g.c * mine + g.Width() * e + g.Width() * g.l * rest
  {
    WidthPositive(g);
    InRange(w.tail, w.next, rest, d);
    RowFromDigits(g, signal, mine, rest + w.tail * d, row);
    Decode(w.tail, d, rest);
    InRange(g.c, g.a, signal, mine);
    Decode(g.Width(), rest + w.tail * d, signal + g.c * mine);
    assert rest * (g.Width() * g.l) == g.Width() * g.l * rest;
  }

  /** Every element of every row of the next kernel was stored by some row of this one. */
  lemma StoredBefore(g: Link, w: Writing, row': nat, d: nat) returns (row: nat, e: nat)
    requires Fits(g, w) && w.Peeled? && row' < Next(g, w).Rows() && d < w.next
    ensures row < g.Rows() && e < g.l && NextRow(g, w, row, e) == row' && NextElement(g, w, row) == d
  {
    hide NextRow, NextElement;
    NextWidth(g, w);
    var h := Next(g, w);
    RowDigits(h, row');
    var done, rest := DoneOf(h, row'), RestOf(h, row');
    Recompose(done, g.a);
    Below(done, g.a, g.l);
    e := done / g.a;
    row := PackedRow(g, w, SignalOf(h, row'), done % g.a, rest, d);
    LandsAt(g, w, SignalOf(h, row'), done % g.a, e, rest, d, row);
    DoneSplits(g, done);
  }

  function PackedRow(g: Link, w: Writing, signal: nat, mine: nat, rest: nat, d: nat): nat
    requires w.Peeled?
  {
    signal + g.c * mine + g.Width() * (rest + w.tail * d)
  }

  lemma DoneSplits(g: Link, done: nat)
    requires g.a > 0
    ensures g.c * done == g.c * (done % g.a) + g.Width() * (done / g.a)
  {
    Recompose(done, g.a);
    assert g.c * (done % g.a + g.a * (done / g.a)) == g.c * (done % g.a) + g.c * g.a * (done / g.a);
  }

  // -------- every layout is a permutation

  /** Different elements of different rows are stored in different places, all of them in the buffer. */
  lemma StoredApart(g: Link, w: Writing, row: nat, e: nat, row': nat, e': nat)
    requires Fits(g, w) && row < g.Rows() && e < g.l && row' < g.Rows() && e' < g.l
    requires StoreAt(g, w, row, e) == StoreAt(g, w, row', e')
    ensures row == row' && e == e'
  {
    hide StoreAt;
    StoreInverts(g, w, row, e);
    StoreInverts(g, w, row', e');
  }

  /** The element an address holds: for a peeled layout, by the digits of the address as the
      numerical reference takes them apart. */
  function HeldAt(g: Link, w: Writing, addr: int): (int, int)
    requires Fits(g, w)
  {
    WidthPositive(g);
    SidesPositive(g);
    match w
    case Natural => (addr % g.Width(), addr / g.Width())
    case Plain => (addr / g.l, addr % g.l)
    case Crossed =>
      var side := g.a * g.l;
      (addr / side + g.c * (addr % side % g.a), addr % side / g.a)
    case Peeled(next, tail) =>
      var width := g.Width();
      var combined := addr / next % (width * g.l);
      var rest := addr % next * tail + addr / next / (width * g.l);
      (combined % width + width * rest, combined / width)
  }

  lemma SidesPositive(g: Link)
    requires g.Valid()
    ensures g.a * g.l > 0 && g.Width() * g.l > 0
  {
    WidthPositive(g);
  }

  lemma StoreInverts(g: Link, w: Writing, row: nat, e: nat)
    requires Fits(g, w) && row < g.Rows() && e < g.l
    ensures 0 <= StoreAt(g, w, row, e) < g.Total() && HeldAt(g, w, StoreAt(g, w, row, e)) == (row, e)
  {
    match w
    case Natural => NaturalInverts(g, row, e);
    case Plain => PlainInverts(g, row, e);
    case Crossed => CrossedInverts(g, row, e);
    case Peeled(_, _) => PeeledInverts(g, w, row, e);
  }

  lemma NaturalInverts(g: Link, row: nat, e: nat)
    requires Fits(g, Natural) && row < g.Rows() && e < g.l
    ensures 0 <= StoreAt(g, Natural, row, e) < g.Total() && HeldAt(g, Natural, StoreAt(g, Natural, row, e)) == (row, e)
  {
    WidthPositive(g);
    Decode(g.Width(), e, row);
    InRange(g.Width(), g.l, row, e);
  }

  lemma PlainInverts(g: Link, row: nat, e: nat)
    requires Fits(g, Plain) && row < g.Rows() && e < g.l
    ensures 0 <= StoreAt(g, Plain, row, e) < g.Total() && HeldAt(g, Plain, StoreAt(g, Plain, row, e)) == (row, e)
  {
    WidthPositive(g);
    Decode(g.l, row, e);
    InRange(g.l, g.Rows(), e, row);
    assert g.l * row == row * g.l && g.l * g.Rows() == g.Total();
  }

  lemma CrossedInverts(g: Link, row: nat, e: nat)
    requires Fits(g, Crossed) && row < g.Rows() && e < g.l
    ensures 0 <= StoreAt(g, Crossed, row, e) < g.Total() && HeldAt(g, Crossed, StoreAt(g, Crossed, row, e)) == (row, e)
  {
    WidthPositive(g);
    Recompose(row, g.c);
    Below(row, g.c, g.a);
    InRange(g.a, g.l, row / g.c, e);
    var side, at := g.a * g.l, row / g.c + g.a * e;
    Decode(g.a, e, row / g.c);
    Decode(side, row % g.c, at);
    InRange(side, g.c, at, row % g.c);
    assert row % g.c * side == side * (row % g.c);
    assert side * g.c == g.Total() by {
      assert g.a * g.l * g.c == g.c * g.a * g.l;
    }
  }

  lemma PeeledInverts(g: Link, w: Writing, row: nat, e: nat)
    requires Fits(g, w) && w.Peeled? && row < g.Rows() && e < g.l
    ensures 0 <= StoreAt(g, w, row, e) < g.Total() && HeldAt(g, w, StoreAt(g, w, row, e)) == (row, e)
  {
    hide StoreAt, NextRow, NextElement, SignalOf, DoneOf, RestOf;
    PeeledPlace(g, w, row, e);
    NextDigits(g, w, row, e);
    NextWidth(g, w);
    WidthPositive(g);
    WidthPositive(Next(g, w));
    var row', d := NextRow(g, w, row, e), NextElement(g, w, row);
    assert w.next * row' == row' * w.next;
    InRange(w.next, Next(g, w).Rows(), d, row');
    assert w.next * Next(g, w).Rows() == g.Total();
    PlaceHolds(g, w, row, e);
  }

  /** The digits of a peeled place are those of its row and element. */
  lemma PlaceHolds(g: Link, w: Writing, row: nat, e: nat)
    requires Fits(g, w) && w.Peeled? && row < g.Rows() && e < g.l && NextElement(g, w, row) < w.next
    ensures HeldAt(g, w, NextRow(g, w, row, e) * w.next + NextElement(g, w, row)) == (row, e)
  {
    hide NextRow, NextElement, HeldAt, Link.Width, Link.Rows;
    HeldInRow(g, w, NextRow(g, w, row, e), NextElement(g, w, row));
    RowSplits(g, w, row, e);
    RestSplits(g, w, row);
  }

  lemma HeldInRow(g: Link, w: Writing, place: nat, d: nat)
    requires Fits(g, w) && w.Peeled? && d < w.next
    ensures g.Width() > 0 && g.Width() * g.l > 0
    ensures HeldAt(g, w, place * w.next + d)
            == (place % (g.Width() * g.l) % g.Width() + g.Width() * (d * w.tail + place / (g.Width() * g.l)), place % (g.Width() * g.l) / g.Width())
  {
    SidesPositive(g);
    WidthPositive(g);
    var addr := place * w.next + d;
    assert addr / w.next == place && addr % w.next == d by {
      Decode(w.next, place, d);
      assert addr == d + w.next * place;
    }
    HeldFrom(g, w, addr, place, d);
  }

  lemma HeldFrom(g: Link, w: Writing, addr: int, place: int, d: int)
    requires Fits(g, w) && w.Peeled? && addr / w.next == place && addr % w.next == d && g.Width() > 0 && g.Width() * g.l > 0
    ensures HeldAt(g, w, addr)
            == (place % (g.Width() * g.l) % g.Width() + g.Width() * (d * w.tail + place / (g.Width() * g.l)), place % (g.Width() * g.l) / g.Width())
  {
    hide Link.Width;
  }

  lemma RowSplits(g: Link, w: Writing, row: nat, e: nat)
    requires Fits(g, w) && w.Peeled? && e < g.l
    ensures var combined := NextRow(g, w, row, e) % (g.Width() * g.l);
            && g.Width() > 0 && g.Width() * g.l > 0
            && combined / g.Width() == e && combined % g.Width() == row % g.Width()
            && NextRow(g, w, row, e) / (g.Width() * g.l) == row / g.Width() % w.tail
  {
    WidthPositive(g);
    var width, out, rest := g.Width(), row % g.Width(), row / g.Width() % w.tail;
    Recompose(row, width);
    InRange(width, g.l, out, e);
    Decode(width * g.l, rest, out + width * e);
    assert rest * (width * g.l) == width * g.l * rest;
    Decode(width, e, out);
  }

  lemma RestSplits(g: Link, w: Writing, row: nat)
    requires Fits(g, w) && w.Peeled?
    ensures g.Width() > 0 && row == row % g.Width() + g.Width() * (NextElement(g, w, row) * w.tail + row / g.Width() % w.tail)
  {
    WidthPositive(g);
    Recompose(row, g.Width());
    Recompose(row / g.Width(), w.tail);
    assert w.tail * (row / g.Width() / w.tail) == row / g.Width() / w.tail * w.tail;
  }

  /** Every place of the buffer holds an element of a row. */
  lemma EachPlaceHolds(g: Link, w: Writing, addr: nat)
    requires Fits(g, w) && w.Peeled? && addr < g.Total()
    ensures var at := HeldAt(g, w, addr); 0 <= at.0 < g.Rows() && 0 <= at.1 < g.l && StoreAt(g, w, at.0, at.1) == addr
  {
    hide StoreAt, HeldAt, NextRow, NextElement;
    NextWidth(g, w);
    WidthPositive(Next(g, w));
    Recompose(addr, w.next);
    assert w.next * Next(g, w).Rows() == g.Total();
    Below(addr, w.next, Next(g, w).Rows());
    var row, e := StoredBefore(g, w, addr / w.next, addr % w.next);
    PeeledPlace(g, w, row, e);
    assert addr / w.next * w.next == w.next * (addr / w.next);
    StoreInverts(g, w, row, e);
  }
}
