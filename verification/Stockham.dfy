/** The staged transform: what one self-sorting stage does to the whole signal, and that the
    stages of any list of radices compute the transform of their product. */
module Stockham {
  import opened Complexes
  import opened DivMod
  import opened Fourier

  /** Operand j of a butterfly is one of r equally spaced elements. */
  function Operand(x: seq<Complex>, r: nat, bfly: nat, j: nat): Complex
    requires r > 0
  {
    At(x, bfly + j * (|x| / r))
  }

  function OperandsOf(x: seq<Complex>, r: nat, bfly: nat): (s: seq<Complex>)
    requires r > 0
    ensures |s| == r
  {
    seq(r, j requires 0 <= j < r => Operand(x, r, bfly, j))
  }

  /** Where output k of a butterfly goes, p being the product of the radices before. */
  function Destination(r: nat, p: nat, bfly: nat, k: nat): nat
    requires p > 0
  {
    hide Times;
    Times(bfly / p, Times(r, p)) + Times(k, p) + bfly % p
  }

  /** What goes there: the output, turned by its twiddle. */
  function StageValue(t: Turn, inverse: bool, x: seq<Complex>, r: nat, p: nat, bfly: nat, k: nat): Complex
    requires p > 0 && r > 0
  {
    Mul(Dft(t, inverse, OperandsOf(x, r, bfly), k), Rot(t, inverse, (bfly / p) * k, |x| / p))
  }

  /** The butterfly and the output that element a comes from. */
  function FromBfly(r: nat, p: nat, a: nat): nat
    requires p > 0 && r > 0
  {
    hide Times;
    Times(a / p / r, p) + a % p
  }

  function FromOutput(r: nat, p: nat, a: nat): (k: nat)
    requires p > 0 && r > 0
    ensures k < r
  {
    (a / p) % r
  }

  /** The whole signal after a stage. */
  function StageOf(t: Turn, inverse: bool, x: seq<Complex>, r: nat, p: nat): (y: seq<Complex>)
    requires p > 0 && r > 0
    ensures |y| == |x|
  {
    seq(|x|, a requires 0 <= a < |x| => StageValue(t, inverse, x, r, p, FromBfly(r, p, a), FromOutput(r, p, a)))
  }

  // -------- destinations are a permutation

  /** Element (n2 * r + k) * p + b comes from output k of butterfly n2 * p + b. */
  lemma DestinationInverts(r: nat, p: nat, bfly: nat, k: nat)
    requires p > 0 && k < r
    ensures FromBfly(r, p, Destination(r, p, bfly, k)) == bfly && FromOutput(r, p, Destination(r, p, bfly, k)) == k
  {
    var n2, b := bfly / p, bfly % p;
    Recompose(bfly, p);
    DestinationSplits(r, p, n2, k, b);
    Decode(p, k + r * n2, b);
    Decode(r, n2, k);
  }

  lemma DestinationSplits(r: nat, p: nat, n2: nat, k: nat, b: nat)
    ensures n2 * (r * p) + k * p + b == b + p * (k + r * n2)
  {
    assert p * (k + r * n2) == p * k + p * (r * n2);
    assert p * (r * n2) == n2 * (r * p);
  }

  lemma DestinationReaches(r: nat, p: nat, a: nat)
    requires p > 0 && r > 0
    ensures Destination(r, p, FromBfly(r, p, a), FromOutput(r, p, a)) == a
  {
    var n2, k, b := a / p / r, a / p % r, a % p;
    Recompose(a, p);
    Recompose(a / p, r);
    Decode(p, n2, b);
    assert FromBfly(r, p, a) == b + p * n2;
    DestinationSplits(r, p, n2, k, b);
  }

  /** Exactly the elements of the signal come from the stage's n / r butterflies. */
  lemma DestinationFits(r: nat, p: nat, m: nat, bfly: nat, k: nat)
    requires p > 0 && k < r
    ensures Destination(r, p, bfly, k) < p * (r * m) <==> bfly < p * m
  {
    var a := Destination(r, p, bfly, k);
    Recompose(bfly, p);
    DestinationSplits(r, p, bfly / p, k, bfly % p);
    Decode(p, k + r * (bfly / p), bfly % p);
    Below(a, p, r * m);
    Decode(r, bfly / p, k);
    Below(a / p, r, m);
    Below(bfly, p, m);
  }

  // -------- one stage

  /** After the radices whose product is p, transforming every p-th element gives every p-th output. */
  ghost predicate Sorted(t: Turn, inverse: bool, x0: seq<Complex>, x: seq<Complex>, p: nat, m: nat) {
    |x| == |x0| == p * m && forall b: nat, k: int :: b < p ==> ColumnDone(t, inverse, x0, x, p, m, b, k)
  }

  ghost predicate ColumnDone(t: Turn, inverse: bool, x0: seq<Complex>, x: seq<Complex>, p: nat, m: nat, b: nat, k: int) {
    Dft(t, inverse, Stride(x, p, m, b), k) == Dft(t, inverse, x0, b + p * k)
  }

  lemma NothingSorted(t: Turn, inverse: bool, x: seq<Complex>)
    ensures Sorted(t, inverse, x, x, 1, |x|)
  {
    hide Dft;
    ColumnOfAll(x);
    forall b: nat, k: int | b < 1 ensures ColumnDone(t, inverse, x, x, 1, |x|, b, k) {
      assert b + 1 * k == k;
    }
  }

  lemma ColumnOfAll(x: seq<Complex>)
    ensures Stride(x, 1, |x|, 0) == x
  {
  }

  /** Column b + p*k of the next stage is the inner half of column b's factorisation. */
  lemma NextColumn(t: Turn, inverse: bool, x: seq<Complex>, r: nat, p: nat, m: nat, b: nat, k: nat)
    requires r > 0 && p > 0 && b < p && k < r && |x| == p * (r * m)
    ensures Stride(StageOf(t, inverse, x, r, p), r * p, m, b + p * k) == Across(t, inverse, Stride(x, p, r * m, b), m, r, k)
  {
    var y, c := StageOf(t, inverse, x, r, p), Stride(x, p, r * m, b);
    var left, right := Stride(y, r * p, m, b + p * k), Across(t, inverse, c, m, r, k);
    forall n2 | 0 <= n2 < m ensures left[n2] == right[n2] {
      ColumnEntry(t, inverse, x, r, p, m, b, k, n2);
    }
  }

  lemma ColumnEntry(t: Turn, inverse: bool, x: seq<Complex>, r: nat, p: nat, m: nat, b: nat, k: nat, n2: nat)
    requires r > 0 && p > 0 && b < p && k < r && n2 < m && |x| == p * (r * m)
    ensures var c := Stride(x, p, r * m, b);
            At(StageOf(t, inverse, x, r, p), b + p * k + r * p * n2)
            == Mul(Dft(t, inverse, Stride(c, m, r, n2), k), Rot(t, inverse, n2 * k, |c|))
  {
    var bfly := b + p * n2;
    var a := Destination(r, p, bfly, k);
    Decode(p, n2, b);
    InRange(p, m, b, n2);
    DestinationInverts(r, p, bfly, k);
    DestinationFits(r, p, m, bfly, k);
    assert a == b + p * k + r * p * n2;
    OperandsAreStrided(x, r, p, m, b, n2);
    Decode(p, r * m, 0);
  }

  lemma OperandsAreStrided(x: seq<Complex>, r: nat, p: nat, m: nat, b: nat, n2: nat)
    requires r > 0 && p > 0 && b < p && n2 < m && |x| == p * (r * m)
    ensures OperandsOf(x, r, b + p * n2) == Stride(Stride(x, p, r * m, b), m, r, n2)
  {
    hide At;
    var c := Stride(x, p, r * m, b);
    Spacing(r, p, m);
    forall j: nat | j < r ensures OperandsOf(x, r, b + p * n2)[j] == Stride(c, m, r, n2)[j] {
      StridedTwice(x, r, p, m, b, n2, j);
      SamePlace(p, m, b, n2, j);
    }
  }

  lemma Spacing(r: nat, p: nat, m: nat)
    requires r > 0
    ensures p * (r * m) / r == p * m
  {
    assert p * (r * m) == r * (p * m);
    Decode(r, p * m, 0);
  }

  lemma SamePlace(p: nat, m: nat, b: nat, n2: nat, j: nat)
    ensures b + p * n2 + j * (p * m) == b + p * (n2 + m * j)
  {
    assert p * (n2 + m * j) == p * n2 + p * (m * j);
    assert p * (m * j) == j * (p * m);
  }

  lemma StridedTwice(x: seq<Complex>, r: nat, p: nat, m: nat, b: nat, n2: nat, j: nat)
    requires n2 < m && j < r
    ensures At(Stride(x, p, r * m, b), n2 + m * j) == At(x, b + p * (n2 + m * j))
  {
    InRange(m, r, n2, j);
    assert m * r == r * m;
  }

  lemma StageSorts(t: Turn, inverse: bool, x0: seq<Complex>, x: seq<Complex>, r: nat, p: nat, m: nat)
    requires IsTurn(t) && r > 0 && p > 0 && m > 0 && Sorted(t, inverse, x0, x, p, r * m)
    ensures Sorted(t, inverse, x0, StageOf(t, inverse, x, r, p), r * p, m)
  {
    hide IsTurn, StageOf, ColumnDone;
    var y := StageOf(t, inverse, x, r, p);
    assert p * (r * m) == r * p * m;
    forall b': nat, k': int | b' < r * p ensures ColumnDone(t, inverse, x0, y, r * p, m, b', k') {
      Recompose(b', p);
      Below(b', p, r);
      ColumnSorted(t, inverse, x0, x, r, p, m, b' % p, b' / p, k');
    }
  }

  lemma ColumnSorted(t: Turn, inverse: bool, x0: seq<Complex>, x: seq<Complex>, r: nat, p: nat, m: nat, b: nat, k: nat, k': int)
    requires IsTurn(t) && r > 0 && p > 0 && m > 0 && Sorted(t, inverse, x0, x, p, r * m) && b < p && k < r
    ensures ColumnDone(t, inverse, x0, StageOf(t, inverse, x, r, p), r * p, m, b + p * k, k')
  {
    hide IsTurn, Dft, StageOf, Across;
    var c := Stride(x, p, r * m, b);
    NextColumn(t, inverse, x, r, p, m, b, k);
    assert m * r == r * m;
    CooleyTukey(t, inverse, c, m, r, k', k);
    assert ColumnDone(t, inverse, x0, x, p, r * m, b, k + r * k');
    assert b + p * (k + r * k') == b + p * k + r * p * k' by {
      assert p * (k + r * k') == p * k + p * (r * k');
      assert p * (r * k') == r * p * k';
    }
  }

  /** With nothing left to transform every element is its own output. */
  lemma SortedIsDft(t: Turn, inverse: bool, x0: seq<Complex>, x: seq<Complex>, k: nat)
    requires IsTurn(t) && Sorted(t, inverse, x0, x, |x0|, 1) && k < |x0|
    ensures x[k] == Dft(t, inverse, x0, k)
  {
    hide IsTurn;
    assert ColumnDone(t, inverse, x0, x, |x0|, 1, k, 0);
    var c := Stride(x, |x0|, 1, k);
    assert c == [x[k]];
    SinglePoint(t, inverse, c);
  }

  lemma SinglePoint(t: Turn, inverse: bool, c: seq<Complex>)
    requires IsTurn(t) && |c| == 1
    ensures Dft(t, inverse, c, 0) == c[0]
  {
    hide IsTurn;
    var f := DftTerm(t, inverse, c, 0);
    ClosesAt(t, 1);
    assert Sum(f, 0) == ZERO && Sum(f, 1) == Add(ZERO, f(0));
  }

  // -------- all stages

  function Product(radices: seq<nat>): nat {
    if radices == [] then 1 else Product(radices[..|radices| - 1]) * radices[|radices| - 1]
  }

  predicate AllPositive(radices: seq<nat>) {
    forall i :: 0 <= i < |radices| ==> radices[i] > 0
  }

  lemma {:induction false} ProductPositive(radices: seq<nat>)
    requires AllPositive(radices)
    ensures Product(radices) > 0
  {
    if radices != [] {
      ProductPositive(radices[..|radices| - 1]);
    }
  }

  /** The signal after the stages of these radices. */
  function Staged(t: Turn, inverse: bool, x: seq<Complex>, radices: seq<nat>): (y: seq<Complex>)
    requires AllPositive(radices)
    ensures |y| == |x|
  {
    if radices == [] then x
    else
      var before := radices[..|radices| - 1];
      ProductPositive(before);
      StageOf(t, inverse, Staged(t, inverse, x, before), radices[|radices| - 1], Product(before))
  }

  lemma {:induction false} StagedSorts(t: Turn, inverse: bool, x: seq<Complex>, radices: seq<nat>, m: nat)
    requires IsTurn(t) && AllPositive(radices) && m > 0 && |x| == Product(radices) * m
    ensures Sorted(t, inverse, x, Staged(t, inverse, x, radices), Product(radices), m)
  {
    hide IsTurn;
    if radices == [] {
      NothingSorted(t, inverse, x);
    } else {
      var before, r := radices[..|radices| - 1], radices[|radices| - 1];
      ProductPositive(before);
      assert Product(radices) * m == Product(before) * (r * m);
      StagedSorts(t, inverse, x, before, r * m);
      StageSorts(t, inverse, x, Staged(t, inverse, x, before), r, Product(before), m);
    }
  }

  /** The stages of any radices compute the transform of their product, in natural order. */
  lemma StagesTransform(t: Turn, inverse: bool, x: seq<Complex>, radices: seq<nat>, k: nat)
    requires IsTurn(t) && AllPositive(radices) && |x| == Product(radices) && k < |x|
    ensures Staged(t, inverse, x, radices)[k] == Dft(t, inverse, x, k)
  {
    hide IsTurn, Dft, Staged;
    StagedSorts(t, inverse, x, radices, 1);
    SortedIsDft(t, inverse, x, Staged(t, inverse, x, radices), k);
  }
}
