/** Kernels chained through main memory: each transforms one more digit of every signal, and the
    twiddles between them make the whole chain one long transform. */
module Chains {
  import opened Complexes
  import opened DivMod
  import opened Fourier
  import opened Layouts
  import opened PartialTransforms
  import opened RecursiveTrees

  /** The signals a chain transforms, by number. */
  type Signals = int -> seq<Complex>

  ghost predicate Sized(signals: Signals, g: Link) {
    forall i: nat :: i < g.c ==> |signals(i)| == g.a * (g.l * g.r)
  }

  // -------- the state between kernels

  /** What element d of a row stands for. */
  function Standing(t: Turn, inverse: bool, signals: Signals, g: Link, row: nat, d: nat): Complex
    requires g.Valid()
  {
    Part(t, inverse, signals(SignalOf(g, row)), g.a, g.l * g.r, DoneOf(g, row), d * g.r + RestOf(g, row))
  }

  ghost predicate ArrangedAt(t: Turn, inverse: bool, signals: Signals, g: Link, reading: Reading, y: seq<Complex>, row: nat, d: nat)
    requires g.Valid()
  {
    LoadAt(g, reading, row, d) < |y| && y[LoadAt(g, reading, row, d)] == Standing(t, inverse, signals, g, row, d)
  }

  /** The buffer holds the partial transforms of all signals where the kernel will read them. */
  ghost predicate Arranged(t: Turn, inverse: bool, signals: Signals, g: Link, reading: Reading, y: seq<Complex>) {
    && g.Valid() && Sized(signals, g) && |y| == g.Total()
    && forall row: nat, d: nat :: row < g.Rows() && d < g.l ==> ArrangedAt(t, inverse, signals, g, reading, y, row, d)
  }

  // -------- what a kernel does

  /** The elements of a row, as the kernel loads them. */
  function RowInputs(g: Link, reading: Reading, y: seq<Complex>, row: nat): (s: seq<Complex>)
    ensures |s| == g.l
  {
    Stride(y, LoadStride(g, reading), g.l, LoadBase(g, reading, row))
  }

  /** The exponent of the twiddle between two kernels, or between two sides. */
  function Exponent(g: Link, w: Writing, row: nat, e: nat): int
    requires Fits(g, w)
  {
    WidthPositive(g);
    match w
    case Natural => 0
    case Plain => 0
    case Crossed => row % g.c * (row / g.c + g.a * e)
    case Peeled(_, _) => row / g.Width() * e * g.Width()
  }

  /** Output e of a row as it is stored: scaled by the last kernel of an inverse plan, turned by
      the kernels that hand over to others. */
  function Outgoing(t: Turn, inverse: bool, g: Link, w: Writing, full: nat, scaled: bool, row: nat, e: nat, v: Complex): Complex
    requires Fits(g, w) && full > 0
  {
    match w
    case Natural => Finish(scaled, full, v)
    case Plain => v
    case Crossed => Mul(v, Rot(t, inverse, Exponent(g, w, row, e), full))
    case Peeled(_, _) => Mul(v, Rot(t, inverse, Exponent(g, w, row, e), full))
  }

  ghost predicate StoredAt(t: Turn, inverse: bool, g: Link, reading: Reading, w: Writing, full: nat, scaled: bool,
                           y: seq<Complex>, y': seq<Complex>, row: nat, e: nat)
    requires Fits(g, w) && full > 0
  {
    && 0 <= StoreAt(g, w, row, e) < |y'|
    && y'[StoreAt(g, w, row, e)] == Outgoing(t, inverse, g, w, full, scaled, row, e, Dft(t, inverse, RowInputs(g, reading, y, row), e))
  }

  /** One kernel: the transform of every row, stored where the plan says. */
  ghost predicate Stores(t: Turn, inverse: bool, g: Link, reading: Reading, w: Writing, full: nat, scaled: bool, y: seq<Complex>, y': seq<Complex>) {
    && Fits(g, w) && full > 0 && |y| == |y'| == g.Total()
    && forall row: nat, e: nat :: row < g.Rows() && e < g.l ==> StoredAt(t, inverse, g, reading, w, full, scaled, y, y', row, e)
  }

  // -------- from one kernel to the next

  lemma RowIsColumn(t: Turn, inverse: bool, signals: Signals, g: Link, reading: Reading, y: seq<Complex>, row: nat)
    requires Arranged(t, inverse, signals, g, reading, y) && row < g.Rows()
    ensures RowInputs(g, reading, y, row)
            == PartColumn(t, inverse, signals(SignalOf(g, row)), g.a, g.l, g.r, DoneOf(g, row), RestOf(g, row))
  {
    hide Part, SignalOf, DoneOf, RestOf, Sized;
    var column := PartColumn(t, inverse, signals(SignalOf(g, row)), g.a, g.l, g.r, DoneOf(g, row), RestOf(g, row));
    forall d: nat | d < g.l ensures RowInputs(g, reading, y, row)[d] == column[d] {
      assert ArrangedAt(t, inverse, signals, g, reading, y, row, d);
    }
  }

  /** The transform of a row, turned by what is left of its index, is one digit further. */
  lemma RowAdvances(t: Turn, inverse: bool, signals: Signals, g: Link, reading: Reading, y: seq<Complex>, row: nat, e: nat)
    requires IsTurn(t) && Arranged(t, inverse, signals, g, reading, y) && row < g.Rows() && e < g.l
    ensures var s := signals(SignalOf(g, row));
            Part(t, inverse, s, g.a * g.l, g.r, DoneOf(g, row) + g.a * e, RestOf(g, row))
            == Mul(Dft(t, inverse, RowInputs(g, reading, y, row), e), Rot(t, inverse, RestOf(g, row) * e * g.a, |s|))
  {
    hide IsTurn, Part, Dft, Rot, SignalOf, DoneOf, RestOf, RowInputs, ArrangedAt;
    RowDigits(g, row);
    RowIsColumn(t, inverse, signals, g, reading, y, row);
    PartGrows(t, inverse, signals(SignalOf(g, row)), g.a, g.l, g.r, DoneOf(g, row), e, RestOf(g, row));
  }

  /** The peeled twiddle, over the whole length, is the one over the signal's own length. */
  lemma PeeledTwiddle(t: Turn, inverse: bool, g: Link, w: Writing, row: nat, e: nat)
    requires IsTurn(t) && Fits(g, w) && w.Peeled?
    ensures var side := g.a * (g.l * g.r);
            side > 0 && g.c * side > 0
            && Rot(t, inverse, Exponent(g, w, row, e), g.c * side) == Rot(t, inverse, RestOf(g, row) * e * g.a, side)
  {
    hide IsTurn, Rot;
    WidthPositive(g);
    SizePositive(g.a, g.l, g.r);
    Monotone(g.c, 1, g.a * (g.l * g.r));
    var rest := RestOf(g, row);
    assert rest * e * (g.c * g.a) == g.c * (rest * e * g.a);
    RotReduce(t, inverse, g.c, rest * e * g.a, g.a * (g.l * g.r));
  }

  lemma Whole(g: Link)
    ensures g.Total() == g.c * (g.a * (g.l * g.r))
  {
    assert g.c * g.a * g.r * g.l == g.c * (g.a * (g.l * g.r));
  }

  /** After a kernel that peels, the next one finds the signals one digit further. */
  lemma ChainStep(t: Turn, inverse: bool, signals: Signals, g: Link, reading: Reading, w: Writing, scaled: bool, y: seq<Complex>, y': seq<Complex>)
    requires IsTurn(t) && Arranged(t, inverse, signals, g, reading, y) && w.Peeled?
    requires Stores(t, inverse, g, reading, w, g.Total(), scaled, y, y')
    ensures Arranged(t, inverse, signals, Next(g, w), Packed, y')
  {
    hide IsTurn, ArrangedAt, StoredAt;
    NextWidth(g, w);
    StillSized(signals, g, w);
    forall row': nat, d: nat | row' < Next(g, w).Rows() && d < w.next ensures ArrangedAt(t, inverse, signals, Next(g, w), Packed, y', row', d) {
      StepAt(t, inverse, signals, g, reading, w, scaled, y, y', row', d);
    }
  }

  lemma StillSized(signals: Signals, g: Link, w: Writing)
    requires Sized(signals, g) && Fits(g, w) && w.Peeled?
    ensures Sized(signals, Next(g, w))
  {
    assert g.a * (g.l * (w.next * w.tail)) == g.a * g.l * (w.next * w.tail);
  }

  lemma StepAt(t: Turn, inverse: bool, signals: Signals, g: Link, reading: Reading, w: Writing, scaled: bool, y: seq<Complex>, y': seq<Complex>, row': nat, d: nat)
    requires IsTurn(t) && Arranged(t, inverse, signals, g, reading, y) && w.Peeled? && Next(g, w).Valid()
    requires Stores(t, inverse, g, reading, w, g.Total(), scaled, y, y')
    requires row' < Next(g, w).Rows() && d < w.next
    ensures ArrangedAt(t, inverse, signals, Next(g, w), Packed, y', row', d)
  {
    hide IsTurn, Part, Dft, Rot, SignalOf, DoneOf, RestOf, RowInputs, ArrangedAt, StoreAt, NextRow, NextElement, Exponent;
    var row, e := StoredBefore(g, w, row', d);
    PeeledPlace(g, w, row, e);
    NextDigits(g, w, row, e);
    RowAdvances(t, inverse, signals, g, reading, y, row, e);
    RowDigits(g, row);
    Whole(g);
    PeeledTwiddle(t, inverse, g, w, row, e);
    assert StoredAt(t, inverse, g, reading, w, g.Total(), scaled, y, y', row, e);
    Stands(t, inverse, signals, Next(g, w), y', row', d);
  }

  lemma Stands(t: Turn, inverse: bool, signals: Signals, h: Link, y: seq<Complex>, row: nat, d: nat)
    requires h.Valid() && row * h.l + d < |y|
    requires y[row * h.l + d] == Part(t, inverse, signals(SignalOf(h, row)), h.a, h.l * h.r, DoneOf(h, row), d * h.r + RestOf(h, row))
    ensures ArrangedAt(t, inverse, signals, h, Packed, y, row, d)
  {
    hide Part, SignalOf, DoneOf, RestOf;
  }

  // -------- where a chain begins and ends

  /** Signal i of c: every c-th point of x, from point i on. */
  function Interleaved(x: seq<Complex>, c: nat, n: nat): Signals {
    i => Stride(x, c, n, i)
  }

  /** Interleaved signals are where the first kernel looks for them. */
  lemma ChainStart(t: Turn, inverse: bool, x: seq<Complex>, g: Link)
    requires IsTurn(t) && g.Valid() && g.a == 1 && |x| == g.Total()
    ensures Arranged(t, inverse, Interleaved(x, g.c, g.l * g.r), g, Spread, x)
  {
    hide IsTurn, ArrangedAt;
    WidthPositive(g);
    var signals := Interleaved(x, g.c, g.l * g.r);
    forall row: nat, d: nat | row < g.Rows() && d < g.l ensures ArrangedAt(t, inverse, signals, g, Spread, x, row, d) {
      StartAt(t, inverse, x, g, row, d);
    }
  }

  lemma StartAt(t: Turn, inverse: bool, x: seq<Complex>, g: Link, row: nat, d: nat)
    requires IsTurn(t) && g.Valid() && g.a == 1 && |x| == g.Total() && row < g.Rows() && d < g.l
    ensures ArrangedAt(t, inverse, Interleaved(x, g.c, g.l * g.r), g, Spread, x, row, d)
  {
    hide IsTurn, Part, Rot, SignalOf, RestOf, Stride;
    var i, b := SignalOf(g, row), RestOf(g, row);
    var s := Stride(x, g.c, g.l * g.r, i);
    SpreadPlace(g, row, d);
    NothingTransformed(t, inverse, s, d * g.r + b);
    StrideElement(x, g.c, g.l * g.r, i, d * g.r + b);
    FirstOutput(g, row);
  }

  lemma StrideElement(x: seq<Complex>, a: nat, b: nat, i: nat, j: nat)
    requires j < b
    ensures Stride(x, a, b, i)[j] == At(x, i + a * j)
  {
  }

  lemma FirstOutput(g: Link, row: nat)
    requires g.Valid() && g.a == 1 && row < g.Rows()
    ensures DoneOf(g, row) == 0
  {
    RowDigits(g, row);
  }

  lemma SpreadPlace(g: Link, row: nat, d: nat)
    requires g.Valid() && g.a == 1 && row < g.Rows() && d < g.l
    ensures var j := d * g.r + RestOf(g, row);
            j < g.l * g.r && SignalOf(g, row) + g.c * j == row + g.Rows() * d < g.Total()
  {
    hide SignalOf, RestOf, DoneOf;
    WidthPositive(g);
    RowDigits(g, row);
    FirstOutput(g, row);
    var b := RestOf(g, row);
    InRange(g.r, g.l, b, d);
    assert g.c * (d * g.r + b) == g.c * g.r * d + g.c * b;
    InRange(g.Rows(), g.l, row, d);
  }

  /** Signals laid out one value after the other are, too. */
  lemma PackedStart(t: Turn, inverse: bool, signals: Signals, g: Link, y: seq<Complex>)
    requires IsTurn(t) && g.Valid() && g.a == 1 && Sized(signals, g) && |y| == g.Total()
    requires forall i: nat, b: nat, d: nat :: i < g.c && b < g.r && d < g.l ==> SignalAt(signals, g, y, i, b, d)
    ensures Arranged(t, inverse, signals, g, Packed, y)
  {
    hide IsTurn, SignalAt;
    WidthPositive(g);
    forall row: nat, d: nat | row < g.Rows() && d < g.l ensures ArrangedAt(t, inverse, signals, g, Packed, y, row, d) {
      RowDigits(g, row);
      assert SignalAt(signals, g, y, SignalOf(g, row), RestOf(g, row), d);
      PackedStartAt(t, inverse, signals, g, y, row, d);
    }
  }

  /** Point d * r + b of signal i is element d of row i + c * b. */
  ghost predicate SignalAt(signals: Signals, g: Link, y: seq<Complex>, i: nat, b: nat, d: nat) {
    && (i + g.c * b) * g.l + d < |y| && d * g.r + b < |signals(i)|
    && y[(i + g.c * b) * g.l + d] == signals(i)[d * g.r + b]
  }

  lemma PackedStartAt(t: Turn, inverse: bool, signals: Signals, g: Link, y: seq<Complex>, row: nat, d: nat)
    requires IsTurn(t) && g.Valid() && g.a == 1 && Sized(signals, g) && |y| == g.Total() && row < g.Rows() && d < g.l
    requires SignalAt(signals, g, y, SignalOf(g, row), RestOf(g, row), d)
    ensures ArrangedAt(t, inverse, signals, g, Packed, y, row, d)
  {
    hide IsTurn, Part, Rot;
    WidthPositive(g);
    RowDigits(g, row);
    NothingTransformed(t, inverse, signals(SignalOf(g, row)), d * g.r + RestOf(g, row));
  }

  /** When nothing is left over, a row's transform is the transform of its signal. */
  lemma RowEnds(t: Turn, inverse: bool, signals: Signals, g: Link, reading: Reading, y: seq<Complex>, row: nat, e: nat)
    requires IsTurn(t) && Arranged(t, inverse, signals, g, reading, y) && g.r == 1 && row < g.Rows() && e < g.l
    ensures SignalOf(g, row) < g.c && DoneOf(g, row) < g.a && row == SignalOf(g, row) + g.c * DoneOf(g, row)
    ensures Dft(t, inverse, RowInputs(g, reading, y, row), e) == Dft(t, inverse, signals(SignalOf(g, row)), DoneOf(g, row) + g.a * e)
  {
    hide IsTurn, Part, Dft, SignalOf, DoneOf, RestOf, RowInputs, ArrangedAt;
    RowDigits(g, row);
    SizePositive(g.a, g.l, g.r);
    var s, v := signals(SignalOf(g, row)), Dft(t, inverse, RowInputs(g, reading, y, row), e);
    RowAdvances(t, inverse, signals, g, reading, y, row, e);
    assert RestOf(g, row) == 0 && 0 * e * g.a == 0;
    ClosesAt(t, |s|);
    assert Mul(v, ONE) == v;
    assert |s| == g.a * g.l;
    AllTransformed(t, inverse, s, DoneOf(g, row) + g.a * e);
  }

  ghost predicate EndsAt(t: Turn, inverse: bool, signals: Signals, g: Link, full: nat, scaled: bool, y: seq<Complex>, i: nat, k: nat)
    requires full > 0
  {
    i + g.c * k < |y| && y[i + g.c * k] == Finish(scaled, full, Dft(t, inverse, signals(i), k))
  }

  /** A chain that stores naturally leaves the transforms interleaved as the signals were. */
  lemma ChainEnds(t: Turn, inverse: bool, signals: Signals, g: Link, reading: Reading, full: nat, scaled: bool, y: seq<Complex>, y': seq<Complex>)
    requires IsTurn(t) && Arranged(t, inverse, signals, g, reading, y) && Stores(t, inverse, g, reading, Natural, full, scaled, y, y')
    ensures forall i: nat, k: nat :: i < g.c && k < g.a * g.l ==> EndsAt(t, inverse, signals, g, full, scaled, y', i, k)
  {
    hide IsTurn, Dft, RowInputs, SignalOf, DoneOf;
    forall i: nat, k: nat | i < g.c && k < g.a * g.l ensures EndsAt(t, inverse, signals, g, full, scaled, y', i, k) {
      var row, e := RowOfOutput(g, i, k);
      assert StoredAt(t, inverse, g, reading, Natural, full, scaled, y, y', row, e);
      RowEnds(t, inverse, signals, g, reading, y, row, e);
    }
  }

  /** The row, and the output of it, that is output k of signal i. */
  lemma RowOfOutput(g: Link, i: nat, k: nat) returns (row: nat, e: nat)
    requires g.Valid() && g.r == 1 && i < g.c && k < g.a * g.l
    ensures row < g.Rows() && e < g.l && SignalOf(g, row) == i && k == DoneOf(g, row) + g.a * e
    ensures row == i + g.c * DoneOf(g, row) && row + g.Width() * e == i + g.c * k
  {
    Recompose(k, g.a);
    Below(k, g.a, g.l);
    e := k / g.a;
    row := i + g.c * (k % g.a);
    RowFromDigits(g, i, k % g.a, 0, row);
    assert g.c * (k % g.a + g.a * e) == g.c * (k % g.a) + g.c * g.a * e;
  }

  ghost predicate CrossedAt(t: Turn, inverse: bool, signals: Signals, g: Link, full: nat, y: seq<Complex>, i: nat, k: nat) {
    var at := i * (g.a * g.l) + k;
    0 <= at < |y| && y[at] == Mul(Dft(t, inverse, signals(i), k), Rot(t, inverse, i * k, full))
  }

  /** A chain that crosses over leaves each transform in one piece, turned for the other side. */
  lemma ChainCrosses(t: Turn, inverse: bool, signals: Signals, g: Link, reading: Reading, full: nat, scaled: bool, y: seq<Complex>, y': seq<Complex>)
    requires IsTurn(t) && Arranged(t, inverse, signals, g, reading, y) && Stores(t, inverse, g, reading, Crossed, full, scaled, y, y')
    ensures forall i: nat, k: nat :: i < g.c && k < g.a * g.l ==> CrossedAt(t, inverse, signals, g, full, y', i, k)
  {
    hide IsTurn, Dft, RowInputs, SignalOf, DoneOf, Rot;
    forall i: nat, k: nat | i < g.c && k < g.a * g.l ensures CrossedAt(t, inverse, signals, g, full, y', i, k) {
      var row, e := RowOfOutput(g, i, k);
      assert StoredAt(t, inverse, g, reading, Crossed, full, scaled, y, y', row, e);
      RowEnds(t, inverse, signals, g, reading, y, row, e);
      Decode(g.c, DoneOf(g, row), i);
    }
  }

  ghost predicate PlainAt(t: Turn, inverse: bool, signals: Signals, g: Link, y: seq<Complex>, i: nat, done: nat, e: nat) {
    var at := (i + g.c * done) * g.l + e;
    0 <= at < |y| && y[at] == Dft(t, inverse, signals(i), done + g.a * e)
  }

  /** A chain that stores plainly leaves each row where it found it. */
  lemma ChainStaysPlain(t: Turn, inverse: bool, signals: Signals, g: Link, reading: Reading, full: nat, scaled: bool, y: seq<Complex>, y': seq<Complex>)
    requires IsTurn(t) && Arranged(t, inverse, signals, g, reading, y) && Stores(t, inverse, g, reading, Plain, full, scaled, y, y')
    ensures forall i: nat, done: nat, e: nat :: i < g.c && done < g.a && e < g.l ==> PlainAt(t, inverse, signals, g, y', i, done, e)
  {
    hide IsTurn, Dft, RowInputs, SignalOf, DoneOf, Rot;
    forall i: nat, done: nat, e: nat | i < g.c && done < g.a && e < g.l ensures PlainAt(t, inverse, signals, g, y', i, done, e) {
      var row := i + g.c * done;
      RowFromDigits(g, i, done, 0, row);
      assert StoredAt(t, inverse, g, reading, Plain, full, scaled, y, y', row, e);
      RowEnds(t, inverse, signals, g, reading, y, row, e);
    }
  }
}
